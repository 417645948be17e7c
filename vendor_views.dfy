/**
 * products/vendor_views.py: the vendor endpoints. Each checks the permission classes
 * [IsAuthenticated, IsVendor] first; the requester is None for an anonymous request. Product
 * querysets are scoped to the vendor's company; PATCH on a product accepts only four keys.
 * The sales aggregations of analytics and dashboard are not modelled, only their guards and the
 * product counts.
 */
module VendorViews {
  import opened Wrappers
  import opened UserModels
  import opened ProductModels
  import opened Permissions
  import opened VendorSerializers
  import opened Http
  import opened Store
  import Text

  /** [IsAuthenticated, IsVendor]: 401 for the anonymous user, 403 for a user who is not a vendor. */
  function Admit(requester: Option<User>): (refusal: Option<Reply>)
    ensures refusal.None? <==> IsVendor(requester)
    ensures refusal == Some(Unauthorized) <==> requester.None?
    ensures refusal.Some? ==> refusal.value == Unauthorized || refusal.value == Forbidden
  {
    if requester.None? then Some(Unauthorized)
    else if !IsVendor(requester) then Some(Forbidden)
    else None
  }

  /** get_queryset of the list and detail views: the products of the user's company, none without one. */
  function Scope(products: map<ProductId, Product>, user: User): (r: map<ProductId, Product>)
    ensures forall k :: k in r <==> k in products && IsVendorOwner(user, products[k])
    ensures forall k :: k in r ==> r[k] == products[k]
    ensures user.company.None? ==> r == map[]
  {
    if user.company.None? then map[]
    else map k | k in products && products[k].company == user.company :: products[k]
  }

  /** Vendors of different companies see disjoint sets of products. */
  lemma ScopesDisjoint(products: map<ProductId, Product>, u: User, v: User)
    requires u.company != v.company
    ensures Scope(products, u).Keys !! Scope(products, v).Keys
  {
    forall k | k in Scope(products, u) && k in Scope(products, v) ensures false {
      OwnershipIsExclusive(u, v, products[k]);
    }
  }

  datatype Listing = Listing(reply: Reply, products: map<ProductId, Product>)

  /** VendorProductListView.get: the scoped products for a vendor, the permission refusal otherwise. */
  function ListProducts(products: map<ProductId, Product>, requester: Option<User>): (r: Listing)
    ensures r.reply == Ok <==> IsVendor(requester)
    ensures r.reply != Ok ==> Some(r.reply) == Admit(requester) && r.products == map[]
    ensures r.reply == Ok ==> r.products == Scope(products, requester.value)
  {
    match Admit(requester)
    case Some(refusal) => Listing(refusal, map[])
    case None => Listing(Ok, Scope(products, requester.value))
  }

  /**
   * VendorProductDetailView.get: the permission classes, then get_object (404 outside the scope),
   * then the object permission IsVendorOwner (403). Inside the scope the vendor always owns the
   * product, so a vendor is only ever refused with 404.
   */
  function Retrieve(products: map<ProductId, Product>, requester: Option<User>, id: ProductId): (r: Reply)
    ensures r == Ok <==> IsVendor(requester) && id in products && IsVendorOwner(requester.value, products[id])
    ensures r != Ok ==> (if IsVendor(requester) then r == NotFound else Some(r) == Admit(requester))
  {
    match Admit(requester)
    case Some(refusal) => refusal
    case None =>
      var scope := Scope(products, requester.value);
      if id !in scope then NotFound
      else if !IsVendorOwner(requester.value, scope[id]) then Forbidden
      else Ok
  }

  // ---- PATCH (and PUT) on a product ----

  /** The keys a PATCH may carry. */
  const AllowedKeys: set<string> := {"description", "image_url", "page_count", "publication_year"}

  /** The request restricted to the allowed keys. */
  function AllowedOnly(data: Data): (r: Data)
    ensures r.Keys == data.Keys * AllowedKeys
    ensures forall k :: k in r ==> r[k] == data[k]
  {
    map k | k in data && k in AllowedKeys :: data[k]
  }

  /** The isbns of the products other than `id`, for isbn's unique validator. */
  function TakenIsbns(products: map<ProductId, Product>, id: ProductId): (taken: set<string>)
    ensures forall s :: s in taken <==> exists k :: k in products && k != id && products[k].isbn == Some(s)
  {
    set k | k in products && k != id && products[k].isbn.Some? :: products[k].isbn.value
  }

  /**
   * The refusals VendorProductDetailView.patch makes before validation: the permission classes,
   * 404 outside the scope (get_object), the object permission IsVendorOwner, and 403 when any key
   * is outside AllowedKeys.
   */
  function Guard(products: map<ProductId, Product>, requester: Option<User>, id: ProductId, data: Data): (refusal: Option<Reply>)
    ensures Admit(requester).Some? ==> refusal == Admit(requester)
    ensures IsVendor(requester) ==> (refusal == Some(NotFound) <==> id !in Scope(products, requester.value))
    ensures IsVendor(requester) && id in Scope(products, requester.value) ==>
      (refusal == Some(Forbidden) <==> !(data.Keys <= AllowedKeys))
    ensures refusal.None? <==>
      IsVendor(requester) && id in products && IsVendorOwner(requester.value, products[id]) && data.Keys <= AllowedKeys
  {
    match Admit(requester)
    case Some(refusal) => Some(refusal)
    case None =>
      var scope := Scope(products, requester.value);
      if id !in scope then Some(NotFound)
      else if !IsVendorOwner(requester.value, scope[id]) then Some(Forbidden)
      else if data.Keys - AllowedKeys != {} then Some(Forbidden)
      else None
  }

  /** The serializer's is_valid() and save() on a stored product: None when validation fails. */
  function SaveProduct(p: Product, data: Data, partial: bool, isUrl: string -> bool, taken: set<string>): (r: Option<Product>)
    ensures r.None? <==> FieldErrors(data, partial, isUrl, taken) != {}
  {
    RunValidationOnlyFieldProblems(Some(p), data, partial, isUrl, taken);
    match RunValidation(Some(p), data, partial, isUrl, taken)
    case Failure(_) => None
    case Success(attrs) =>
      CleanedAttrsSaveable(data, isUrl, taken);
      Some(Apply(p, attrs))
  }

  /** A successful save stores the cleaned values of the fields the request gave. */
  lemma SavedProduct(p: Product, data: Data, partial: bool, isUrl: string -> bool, taken: set<string>)
    requires SaveProduct(p, data, partial, isUrl, taken).Some?
    ensures FieldsClean(data, isUrl, taken)
    ensures SaveProduct(p, data, partial, isUrl, taken).value == Apply(p, CleanedAttrs(data, isUrl, taken))
  {
    RunValidationOnlyFieldProblems(Some(p), data, partial, isUrl, taken);
  }

  datatype Outcome = Outcome(reply: Reply, products: map<ProductId, Product>)

  /**
   * VendorProductDetailView.patch: the guard's refusal with nothing changed; otherwise the request
   * restricted to the allowed keys is validated (400 when a field fails) and saved. `partial` is
   * false for the corrected full update, which requires description.
   */
  function Edit(products: map<ProductId, Product>, requester: Option<User>, id: ProductId, data: Data,
                partial: bool, isUrl: string -> bool): (r: Outcome)
    ensures r.reply != Ok ==> r.products == products
    ensures Guard(products, requester, id, data).Some? ==> r.reply == Guard(products, requester, id, data).value
    ensures Guard(products, requester, id, data).None? ==>
      (r.reply == Ok <==> FieldErrors(data, partial, isUrl, TakenIsbns(products, id)) == {}) &&
      (r.reply != Ok ==> r.reply == BadRequest(InvalidInput))
  {
    match Guard(products, requester, id, data)
    case Some(refusal) => Outcome(refusal, products)
    case None =>
      var filtered := AllowedOnly(data);
      assert filtered == data;
      match SaveProduct(products[id], filtered, partial, isUrl, TakenIsbns(products, id))
      case None => Outcome(BadRequest(InvalidInput), products)
      case Some(q) => Outcome(Ok, products[id := q])
  }

  /** A successful edit passed the guard and saved the product through the serializer. */
  lemma EditSaves(products: map<ProductId, Product>, requester: Option<User>, id: ProductId,
                  data: Data, partial: bool, isUrl: string -> bool)
    requires Edit(products, requester, id, data, partial, isUrl).reply == Ok
    ensures Guard(products, requester, id, data).None? && id in products && data.Keys <= AllowedKeys
    ensures var q := SaveProduct(products[id], data, partial, isUrl, TakenIsbns(products, id));
      q.Some? && Edit(products, requester, id, data, partial, isUrl).products == products[id := q.value]
  {
    assert AllowedOnly(data) == data;
  }

  /** Every edit keeps the set of products: a save replaces one existing row. */
  lemma EditKeepsKeys(products: map<ProductId, Product>, requester: Option<User>, id: ProductId,
                      data: Data, partial: bool, isUrl: string -> bool)
    ensures Edit(products, requester, id, data, partial, isUrl).products.Keys == products.Keys
  {
    if Edit(products, requester, id, data, partial, isUrl).reply == Ok {
      EditSaves(products, requester, id, data, partial, isUrl);
    }
  }

  /** A field whose key a PATCH may carry. */
  predicate Editable(f: Field) {
    f == DescriptionField || f == ImageUrlField || f == PageCountField || f == PublicationYearField
  }

  /** Only the four allowed keys name fields, and each names the matching one. */
  lemma AllowedKeysNameEditableFields(f: Field)
    ensures Name(f) in AllowedKeys <==> Editable(f)
  {
  }

  /**
   * Saving a request that only carries allowed keys changes at most description, image URL, page
   * count and publication year.
   */
  lemma SaveTouchesOnlyAllowed(p: Product, data: Data, partial: bool, isUrl: string -> bool, taken: set<string>)
    requires data.Keys <= AllowedKeys && SaveProduct(p, data, partial, isUrl, taken).Some?
    ensures var q := SaveProduct(p, data, partial, isUrl, taken).value;
      q == p.(description := q.description, imageUrl := q.imageUrl, pageCount := q.pageCount, publicationYear := q.publicationYear)
  {
    SavedProduct(p, data, partial, isUrl, taken);
    var attrs := CleanedAttrs(data, isUrl, taken);
    forall f | f in attrs ensures Editable(f) {
      AllowedKeysNameEditableFields(f);
    }
    CleanedAttrsSaveable(data, isUrl, taken);
    ApplyEditable(p, attrs);
  }

  /** Saving attrs of editable fields only changes description, image URL, page count and publication year. */
  lemma ApplyEditable(p: Product, attrs: Attrs)
    requires Saveable(attrs) && forall f :: f in attrs ==> Editable(f)
    ensures var q := Apply(p, attrs);
      q == p.(description := q.description, imageUrl := q.imageUrl, pageCount := q.pageCount, publicationYear := q.publicationYear)
  {
    assert GenreField !in attrs && FormatField !in attrs && StockField !in attrs;
    assert PublisherField !in attrs && IsbnField !in attrs;
  }

  /** After a save, every writable field the request gave reads back as its field's cleaned value. */
  lemma SaveStoresCleanedValues(p: Product, data: Data, partial: bool, isUrl: string -> bool, taken: set<string>)
    requires SaveProduct(p, data, partial, isUrl, taken).Some?
    ensures forall f :: !ReadOnly(f) && Name(f) in data ==>
      CleanField(f, data[Name(f)], isUrl, taken) == Some(Stored(SaveProduct(p, data, partial, isUrl, taken).value, f))
  {
    SavedProduct(p, data, partial, isUrl, taken);
    CleanedAttrsSaveable(data, isUrl, taken);
    ApplyStoresAttrs(p, CleanedAttrs(data, isUrl, taken));
  }

  /**
   * A successful edit changes one product, and of it only description, image URL, page count and
   * publication year: title, author, price, stock, genre, format, company, publisher and isbn keep
   * their stored values. Each key the request gave reads back as its field's cleaned value.
   */
  lemma EditTouchesOnlyAllowed(products: map<ProductId, Product>, requester: Option<User>, id: ProductId,
                               data: Data, partial: bool, isUrl: string -> bool)
    requires Edit(products, requester, id, data, partial, isUrl).reply == Ok
    ensures id in products && data.Keys <= AllowedKeys
    ensures var after := Edit(products, requester, id, data, partial, isUrl).products;
      id in after && (forall k :: k in products && k != id ==> k in after && after[k] == products[k])
    ensures var q := Edit(products, requester, id, data, partial, isUrl).products[id];
      q == products[id].(description := q.description, imageUrl := q.imageUrl,
                         pageCount := q.pageCount, publicationYear := q.publicationYear)
    ensures var q := Edit(products, requester, id, data, partial, isUrl).products[id];
      forall f :: !ReadOnly(f) && Name(f) in data ==>
        CleanField(f, data[Name(f)], isUrl, TakenIsbns(products, id)) == Some(Stored(q, f))
  {
    EditSaves(products, requester, id, data, partial, isUrl);
    SaveTouchesOnlyAllowed(products[id], data, partial, isUrl, TakenIsbns(products, id));
    SaveStoresCleanedValues(products[id], data, partial, isUrl, TakenIsbns(products, id));
  }

  /** An edit the guard admits and whose save succeeds replies 200 and stores the saved product. */
  lemma EditApplies(products: map<ProductId, Product>, requester: Option<User>, id: ProductId,
                    data: Data, partial: bool, isUrl: string -> bool)
    requires Guard(products, requester, id, data).None?
    requires SaveProduct(products[id], data, partial, isUrl, TakenIsbns(products, id)).Some?
    ensures Edit(products, requester, id, data, partial, isUrl) ==
      Outcome(Ok, products[id := SaveProduct(products[id], data, partial, isUrl, TakenIsbns(products, id)).value])
  {
    assert AllowedOnly(data) == data;
  }

  /** A PATCH with no keys saves the product unchanged. */
  lemma EmptyPatchChangesNothing(products: map<ProductId, Product>, requester: Option<User>, id: ProductId, isUrl: string -> bool)
    requires IsVendor(requester) && id in products && IsVendorOwner(requester.value, products[id])
    ensures Edit(products, requester, id, map[], true, isUrl) == Outcome(Ok, products)
  {
    SaveNothing(products[id], isUrl, TakenIsbns(products, id));
    EditApplies(products, requester, id, map[], true, isUrl);
    UpdateWithSame(products, id);
  }

  lemma UpdateWithSame<K, V>(m: map<K, V>, k: K)
    requires k in m
    ensures m[k := m[k]] == m
  {
  }

  /** Saving an empty partial request stores the product as it was. */
  lemma SaveNothing(p: Product, isUrl: string -> bool, taken: set<string>)
    ensures SaveProduct(p, map[], true, isUrl, taken) == Some(p)
  {
    assert FieldErrors(map[], true, isUrl, taken) == {};
    SavedProduct(p, map[], true, isUrl, taken);
    assert CleanedAttrs(map[], isUrl, taken) == map[];
  }

  /**
   * The full update as written: the view inherits RetrieveUpdateAPIView's PUT, which validates the
   * whole request with the serializer (description required) and saves it, without the key
   * whitelist. The only isbn a save can duplicate is "" (a blank value skips the unique validator);
   * the database's unique constraint then fails the request with 500.
   */
  function PutAsWritten(products: map<ProductId, Product>, requester: Option<User>, id: ProductId, data: Data,
                        isUrl: string -> bool): (r: Outcome)
    ensures r.reply != Ok ==> r.products == products
    ensures Admit(requester).Some? ==> r.reply == Admit(requester).value
    ensures IsVendor(requester) ==> (r.reply == NotFound <==> id !in Scope(products, requester.value))
    ensures r.reply == Ok ==> (id in products && id in r.products &&
      r.products[id].title == products[id].title && r.products[id].price == products[id].price)
  {
    match Admit(requester)
    case Some(refusal) => Outcome(refusal, products)
    case None =>
      var scope := Scope(products, requester.value);
      if id !in scope then Outcome(NotFound, products)
      else if !IsVendorOwner(requester.value, scope[id]) then Outcome(Forbidden, products)
      else
        var taken := TakenIsbns(products, id);
        match SaveProduct(scope[id], data, false, isUrl, taken)
        case None => Outcome(BadRequest(InvalidInput), products)
        case Some(q) =>
          SavedProduct(scope[id], data, false, isUrl, taken);
          if q.isbn.Some? && q.isbn.value in taken then Outcome(InternalError, products)
          else Outcome(Ok, products[id := q])
  }

  /**
   * The whitelist bypass: a full update carrying a stock key saves it (here a negative stock, which
   * this serializer has no validator against), while the corrected full update refuses the same
   * request with 403 and changes nothing.
   */
  lemma PutAsWrittenEditsStock(isUrl: string -> bool)
    ensures var p := Product(Some(1), "Dziady", "Mickiewicz", Fantasy, Paperback, "d", 3000, 5,
                             None, None, None, None, None);
      var vendor := User(7, "v@example.com", "secret123", Vendor, Some(1), true, false, false);
      var data := map[Name(DescriptionField) := Str("d"), Name(StockField) := Int(-5)];
      var asWritten := PutAsWritten(map[0 := p], Some(vendor), 0, data, isUrl);
      asWritten.reply == Ok && asWritten.products[0].stock == -5 &&
      Edit(map[0 := p], Some(vendor), 0, data, false, isUrl) == Outcome(Forbidden, map[0 := p])
  {
    var p := Product(Some(1), "Dziady", "Mickiewicz", Fantasy, Paperback, "d", 3000, 5, None, None, None, None, None);
    var vendor := User(7, "v@example.com", "secret123", Vendor, Some(1), true, false, false);
    var data := map[Name(DescriptionField) := Str("d"), Name(StockField) := Int(-5)];
    var products := map[0 := p];
    assert TakenIsbns(products, 0) == {};
    StockRequestSaves(p, isUrl);
    PutAsWrittenApplies(products, Some(vendor), 0, data, isUrl);
    AllowedKeysNameEditableFields(StockField);
    assert Name(StockField) in data.Keys - AllowedKeys;
  }

  /** A full update as written by the owner whose save succeeds without an isbn clash replies 200. */
  lemma PutAsWrittenApplies(products: map<ProductId, Product>, requester: Option<User>, id: ProductId,
                            data: Data, isUrl: string -> bool)
    requires IsVendor(requester) && id in products && IsVendorOwner(requester.value, products[id])
    requires var q := SaveProduct(products[id], data, false, isUrl, TakenIsbns(products, id));
      q.Some? && (q.value.isbn.None? || q.value.isbn.value !in TakenIsbns(products, id))
    ensures PutAsWritten(products, requester, id, data, isUrl) ==
      Outcome(Ok, products[id := SaveProduct(products[id], data, false, isUrl, TakenIsbns(products, id)).value])
  {
    assert id in Scope(products, requester.value);
  }

  /** The request {"description": "d", "stock": -5} passes full validation and saves the stock. */
  lemma StockRequestSaves(p: Product, isUrl: string -> bool)
    ensures var q := SaveProduct(p, map[Name(DescriptionField) := Str("d"), Name(StockField) := Int(-5)], false, isUrl, {});
      q.Some? && q.value.stock == -5
  {
    var data := map[Name(DescriptionField) := Str("d"), Name(StockField) := Int(-5)];
    StockRequestClean(isUrl);
    SavedProduct(p, data, false, isUrl, {});
    var attrs := CleanedAttrs(data, isUrl, {});
    assert Name(StockField) in data && data[Name(StockField)] == Int(-5);
    StockClean(isUrl);
    assert StockField in attrs && attrs[StockField] == Int(-5);
  }

  /** The request {"description": "d", "stock": -5} has no field error on a full update. */
  lemma StockRequestClean(isUrl: string -> bool)
    ensures FieldErrors(map[Name(DescriptionField) := Str("d"), Name(StockField) := Int(-5)], false, isUrl, {}) == {}
  {
    var data := map[Name(DescriptionField) := Str("d"), Name(StockField) := Int(-5)];
    forall f | !ReadOnly(f) && Name(f) in data ensures CleanField(f, data[Name(f)], isUrl, {}).Some? {
      NamedByStockRequest(f);
      if f == DescriptionField {
        assert data[Name(f)] == Str("d");
        DescriptionClean(isUrl);
      } else {
        assert f == StockField;
        assert data[Name(f)] == Int(-5);
        StockClean(isUrl);
      }
    }
  }

  /** The description "d" is clean. */
  lemma DescriptionClean(isUrl: string -> bool)
    ensures CleanField(DescriptionField, Str("d"), isUrl, {}) == Some(Str("d"))
  {
    Text.StripOfTrimmed("d");
  }

  /** The stock -5 is clean: the serializer has no bound on it. */
  lemma StockClean(isUrl: string -> bool)
    ensures CleanField(StockField, Int(-5), isUrl, {}) == Some(Int(-5))
  {
  }

  /** Only description and stock carry the keys "description" and "stock". */
  lemma NamedByStockRequest(f: Field)
    ensures Name(f) == Name(DescriptionField) || Name(f) == Name(StockField) ==>
      f == DescriptionField || f == StockField
  {
  }

  // ---- analytics and dashboard ----

  /**
   * VendorAnalyticsView.get, up to its aggregations: 400 without a company, the all-zero reply with
   * empty lists when the company has no products, and otherwise a summary counting its products.
   */
  datatype AnalyticsReply = AnalyticsRefused(reply: Reply) | NoProducts | Summary(totalProducts: nat)

  function Analytics(products: map<ProductId, Product>, requester: Option<User>): (r: AnalyticsReply)
    ensures r.AnalyticsRefused? && !IsVendor(requester) ==> Some(r.reply) == Admit(requester)
    ensures r == AnalyticsRefused(BadRequest(NoCompany)) <==> IsVendor(requester) && requester.value.company.None?
    ensures r.NoProducts? <==> IsVendor(requester) && requester.value.company.Some? && Scope(products, requester.value) == map[]
    ensures r.Summary? ==> IsVendor(requester) && r.totalProducts == |Scope(products, requester.value)| > 0
  {
    match Admit(requester)
    case Some(refusal) => AnalyticsRefused(refusal)
    case None =>
      if requester.value.company.None? then AnalyticsRefused(BadRequest(NoCompany))
      else
        var scope := Scope(products, requester.value);
        if scope == map[] then NoProducts else Summary(|scope|)
  }

  /** The products counted as in stock by the dashboard: stock greater than zero. */
  function InStock(scope: map<ProductId, Product>): (r: set<ProductId>)
    ensures forall k :: k in r <==> k in scope && scope[k].stock > 0
  {
    set k | k in scope && scope[k].stock > 0
  }

  /** The products counted as out of stock by the dashboard: stock exactly zero. */
  function OutOfStock(scope: map<ProductId, Product>): (r: set<ProductId>)
    ensures forall k :: k in r <==> k in scope && scope[k].stock == 0
  {
    set k | k in scope && scope[k].stock == 0
  }

  datatype DashboardReply = DashboardRefused(reply: Reply) | Counts(total: nat, inStock: nat, outOfStock: nat)

  /** VendorDashboardView.get, up to its aggregations: 400 without a company, else the product counts. */
  function Dashboard(products: map<ProductId, Product>, requester: Option<User>): (r: DashboardReply)
    ensures r.DashboardRefused? && !IsVendor(requester) ==> Some(r.reply) == Admit(requester)
    ensures r == DashboardRefused(BadRequest(NoCompany)) <==> IsVendor(requester) && requester.value.company.None?
    ensures r.Counts? <==> IsVendor(requester) && requester.value.company.Some?
    ensures r.Counts? ==> var scope := Scope(products, requester.value);
      r.total == |scope| && r.inStock == |InStock(scope)| && r.outOfStock == |OutOfStock(scope)|
  {
    match Admit(requester)
    case Some(refusal) => DashboardRefused(refusal)
    case None =>
      if requester.value.company.None? then DashboardRefused(BadRequest(NoCompany))
      else
        var scope := Scope(products, requester.value);
        Counts(|scope|, |InStock(scope)|, |OutOfStock(scope)|)
  }

  /** With no negative stock, every product is counted exactly once: in stock or out of stock. */
  lemma StockCountsPartition(scope: map<ProductId, Product>)
    requires forall k :: k in scope ==> scope[k].stock >= 0
    ensures |InStock(scope)| + |OutOfStock(scope)| == |scope|
  {
    var a, b := InStock(scope), OutOfStock(scope);
    assert a + b == scope.Keys;
    assert a * b == {};
  }

  /** A product with negative stock is counted in neither, so the two counts fall short of the total. */
  lemma NegativeStockUncounted(scope: map<ProductId, Product>, k: ProductId)
    requires k in scope && scope[k].stock < 0
    ensures |InStock(scope)| + |OutOfStock(scope)| < |scope|
  {
    var a, b := InStock(scope), OutOfStock(scope);
    assert a * b == {};
    SubsetSize(a + b, scope.Keys - {k});
  }

  lemma SubsetSize<T>(a: set<T>, b: set<T>)
    requires a <= b
    ensures |a| <= |b|
  {
    assert b == a + (b - a);
    assert a * (b - a) == {};
  }

  // ---- the endpoints that write ----

  /** VendorProductDetailView.patch on the database: the product table becomes the edit's result. */
  method Patch(db: Database, requester: Option<User>, id: ProductId, data: Data, isUrl: string -> bool) returns (reply: Reply)
    requires db.Valid()
    modifies db`products
    ensures db.Valid()
    ensures var r := Edit(old(db.products), requester, id, data, true, isUrl);
      reply == r.reply && db.products == r.products
  {
    var r := Edit(db.products, requester, id, data, true, isUrl);
    EditKeepsKeys(db.products, requester, id, data, true, isUrl);
    SameCatalogKeys(db.products, r.products, db.lines, db.nextLineId, db.userCarts, db.guestCarts,
                    db.orders, db.nextOrderId, db.items, db.deliveries, db.payments);
    db.products := r.products;
    reply := r.reply;
  }

  /**
   * The full update, corrected to go through the same key whitelist as PATCH: a non-partial
   * validation of the allowed keys, so description is required.
   */
  method Put(db: Database, requester: Option<User>, id: ProductId, data: Data, isUrl: string -> bool) returns (reply: Reply)
    requires db.Valid()
    modifies db`products
    ensures db.Valid()
    ensures var r := Edit(old(db.products), requester, id, data, false, isUrl);
      reply == r.reply && db.products == r.products
  {
    var r := Edit(db.products, requester, id, data, false, isUrl);
    EditKeepsKeys(db.products, requester, id, data, false, isUrl);
    SameCatalogKeys(db.products, r.products, db.lines, db.nextLineId, db.userCarts, db.guestCarts,
                    db.orders, db.nextOrderId, db.items, db.deliveries, db.payments);
    db.products := r.products;
    reply := r.reply;
  }
}
