/**
 * cart/views.py: adding to and removing from an authenticated user's cart. The add rules are
 * written once here (AddLine) and the guest cart view applies them too.
 */
module CartViews {
  import opened Wrappers
  import opened Http
  import opened UserModels
  import opened ProductModels
  import opened CartModels
  import opened CartSerializers
  import opened Store

  /** The index of the line with the given (cart, product, selected_format) key. */
  function FindKey(lines: seq<CartLine>, key: (CartKey, ProductId, Option<Format>)): (r: Option<nat>)
    ensures r.Some? ==> r.value < |lines| && Key(lines[r.value]) == key
    ensures r.Some? ==> forall j :: r.value < j < |lines| ==> Key(lines[j]) != key
    ensures r.None? ==> forall i :: 0 <= i < |lines| ==> Key(lines[i]) != key
  {
    if lines == [] then None
    else if Key(lines[|lines| - 1]) == key then Some(|lines| - 1)
    else FindKey(lines[..|lines| - 1], key)
  }

  /** With distinct keys the lookup finds the one line carrying the key. */
  lemma FindKeyUnique(lines: seq<CartLine>, k: nat)
    requires LinesDistinct(lines) && k < |lines|
    ensures FindKey(lines, Key(lines[k])) == Some(k)
  {
  }

  /** Product.objects.get(id=...) for a requested integer id. */
  predicate Listed(products: map<ProductId, Product>, id: int) {
    id >= 0 && id as nat in products
  }

  /**
   * The format a line is stored under: a both-format product keeps the customer's choice, a
   * single-format product always gets its own format.
   */
  function StoredFormat(productFormat: Format, chosen: Option<Format>): (r: Option<Format>)
    ensures productFormat != Both ==> r == Some(productFormat)
    ensures productFormat == Both ==> r == chosen
  {
    if productFormat == Both then chosen else Some(productFormat)
  }

  datatype AddOutcome = AddOutcome(lines: seq<CartLine>, reply: Reply)

  predicate Succeeded(r: Reply) {
    r.Ok? || r.Created?
  }

  /**
   * AddToCartView.post after its request validation and cart creation: an unknown product is 404; a
   * both-format product needs a chosen format; the quantity must not exceed the stock; a new
   * (product, format) pair is appended with the requested quantity (201), an existing one grows by
   * it (200) unless the sum exceeds the stock (400, line unchanged).
   */
  function AddLine(lines: seq<CartLine>, products: map<ProductId, Product>, cart: CartKey,
                   cmd: AddCommand, nextId: nat): (r: AddOutcome)
    requires cmd.quantity >= 1
    ensures !Succeeded(r.reply) ==> r.lines == lines
    ensures !Listed(products, cmd.productId) ==> r.reply == NotFound
    ensures Listed(products, cmd.productId) && products[cmd.productId as nat].format == Both && cmd.format.None? ==>
      r.reply == BadRequest(Reason.FormatRequired)
    ensures (Listed(products, cmd.productId) && (products[cmd.productId as nat].format != Both || cmd.format.Some?) &&
             cmd.quantity > products[cmd.productId as nat].stock) ==> r.reply == BadRequest(OutOfStock)
    ensures r.reply == NotFound || r.reply == BadRequest(Reason.FormatRequired) || r.reply == BadRequest(OutOfStock) || Succeeded(r.reply)
  {
    if !Listed(products, cmd.productId) then AddOutcome(lines, NotFound)
    else
      var pid := cmd.productId as nat;
      var product := products[pid];
      if product.format == Both && cmd.format.None? then AddOutcome(lines, BadRequest(Reason.FormatRequired))
      else if cmd.quantity > product.stock then AddOutcome(lines, BadRequest(OutOfStock))
      else
        var format := StoredFormat(product.format, cmd.format);
        match FindKey(lines, (cart, pid, format))
        case None => AddOutcome(lines + [CartLine(nextId, cart, pid, cmd.quantity, format)], Created)
        case Some(i) =>
          if lines[i].quantity + cmd.quantity > product.stock then AddOutcome(lines, BadRequest(OutOfStock))
          else AddOutcome(lines[i := lines[i].(quantity := lines[i].quantity + cmd.quantity)], Ok)
  }

  /** An add that appends: the new line is the only change, in `cart` alone. */
  lemma AppendedLine(lines: seq<CartLine>, added: CartLine, cart: CartKey, other: CartKey)
    requires added.cart == cart && other != cart
    ensures TotalItems(LinesOf(lines + [added], cart)) == TotalItems(LinesOf(lines, cart)) + added.quantity
    ensures LinesOf(lines + [added], other) == LinesOf(lines, other)
  {
    LinesOfAppend(lines, [added], cart);
    LinesOfAppend(lines, [added], other);
    LinesOfSingle(added, cart);
    LinesOfSingle(added, other);
    TotalItemsAppend(LinesOf(lines, cart), [added]);
  }

  /**
   * A successful add leaves a line for the (product, stored format) pair in the cart, with a
   * quantity within the stock, and raises the cart's item count by the requested quantity; no
   * other cart changes.
   */
  lemma AddLineEffect(lines: seq<CartLine>, products: map<ProductId, Product>, cart: CartKey,
                      cmd: AddCommand, nextId: nat, other: CartKey)
    requires cmd.quantity >= 1 && other != cart
    requires Succeeded(AddLine(lines, products, cart, cmd, nextId).reply)
    ensures Listed(products, cmd.productId)
    ensures var r := AddLine(lines, products, cart, cmd, nextId).lines;
      var p := products[cmd.productId as nat];
      var key := (cart, cmd.productId as nat, StoredFormat(p.format, cmd.format));
      FindKey(r, key).Some? && r[FindKey(r, key).value].quantity <= p.stock &&
      TotalItems(LinesOf(r, cart)) == TotalItems(LinesOf(lines, cart)) + cmd.quantity &&
      LinesOf(r, other) == LinesOf(lines, other)
  {
    var pid := cmd.productId as nat;
    var key := (cart, pid, StoredFormat(products[pid].format, cmd.format));
    if FindKey(lines, key).None? {
      AddAppends(lines, products, cart, cmd, nextId, other);
    } else {
      AddGrows(lines, products, cart, cmd, nextId, other);
    }
  }

  /** The appending case of AddLineEffect. */
  lemma AddAppends(lines: seq<CartLine>, products: map<ProductId, Product>, cart: CartKey,
                   cmd: AddCommand, nextId: nat, other: CartKey)
    requires cmd.quantity >= 1 && other != cart
    requires Succeeded(AddLine(lines, products, cart, cmd, nextId).reply)
    requires FindKey(lines, (cart, cmd.productId as nat, StoredFormat(products[cmd.productId as nat].format, cmd.format))).None?
    ensures var r := AddLine(lines, products, cart, cmd, nextId).lines;
      var p := products[cmd.productId as nat];
      var key := (cart, cmd.productId as nat, StoredFormat(p.format, cmd.format));
      FindKey(r, key).Some? && r[FindKey(r, key).value].quantity <= p.stock &&
      TotalItems(LinesOf(r, cart)) == TotalItems(LinesOf(lines, cart)) + cmd.quantity &&
      LinesOf(r, other) == LinesOf(lines, other)
  {
    var pid := cmd.productId as nat;
    var format := StoredFormat(products[pid].format, cmd.format);
    var added := CartLine(nextId, cart, pid, cmd.quantity, format);
    var r := AddLine(lines, products, cart, cmd, nextId).lines;
    assert r == lines + [added];
    assert Key(r[|r| - 1]) == (cart, pid, format);
    AppendedLine(lines, added, cart, other);
  }

  /** The growing case of AddLineEffect. */
  lemma AddGrows(lines: seq<CartLine>, products: map<ProductId, Product>, cart: CartKey,
                 cmd: AddCommand, nextId: nat, other: CartKey)
    requires cmd.quantity >= 1 && other != cart
    requires Succeeded(AddLine(lines, products, cart, cmd, nextId).reply)
    requires FindKey(lines, (cart, cmd.productId as nat, StoredFormat(products[cmd.productId as nat].format, cmd.format))).Some?
    ensures var r := AddLine(lines, products, cart, cmd, nextId).lines;
      var p := products[cmd.productId as nat];
      var key := (cart, cmd.productId as nat, StoredFormat(p.format, cmd.format));
      FindKey(r, key).Some? && r[FindKey(r, key).value].quantity <= p.stock &&
      TotalItems(LinesOf(r, cart)) == TotalItems(LinesOf(lines, cart)) + cmd.quantity &&
      LinesOf(r, other) == LinesOf(lines, other)
  {
    var pid := cmd.productId as nat;
    var key := (cart, pid, StoredFormat(products[pid].format, cmd.format));
    var i := FindKey(lines, key).value;
    var r := AddLine(lines, products, cart, cmd, nextId).lines;
    var grown := lines[i := lines[i].(quantity := lines[i].quantity + cmd.quantity)];
    assert r == grown;
    assert lines[i].cart == cart by {
      assert Key(lines[i]) == key;
    }
    assert FindKey(grown, key) == Some(i) by {
      GrownKeys(lines, i, cmd.quantity);
      FindKeySameKeys(lines, grown, key);
    }
    GrownLine(lines, i, cmd.quantity, other);
  }

  /** An add that grows line i: only its cart's count moves, by the added quantity, and no key changes. */
  lemma GrownLine(lines: seq<CartLine>, i: nat, extra: nat, other: CartKey)
    requires i < |lines| && other != lines[i].cart
    ensures var r := lines[i := lines[i].(quantity := lines[i].quantity + extra)];
      TotalItems(LinesOf(r, lines[i].cart)) == TotalItems(LinesOf(lines, lines[i].cart)) + extra &&
      LinesOf(r, other) == LinesOf(lines, other)
  {
    var grown := lines[i].(quantity := lines[i].quantity + extra);
    ReplaceAtCounts(lines, i, grown, lines[i].cart);
    ReplaceAtCounts(lines, i, grown, other);
  }

  /** Growing a line's quantity changes no key. */
  lemma GrownKeys(lines: seq<CartLine>, i: nat, extra: nat)
    requires i < |lines|
    ensures var r := lines[i := lines[i].(quantity := lines[i].quantity + extra)];
      |r| == |lines| && forall j :: 0 <= j < |r| ==> Key(r[j]) == Key(lines[j])
  {
  }

  /** Lines with the same keys at the same places give the same lookup. */
  lemma {:induction false} FindKeySameKeys(a: seq<CartLine>, b: seq<CartLine>, key: (CartKey, ProductId, Option<Format>))
    requires |a| == |b| && forall j :: 0 <= j < |a| ==> Key(a[j]) == Key(b[j])
    ensures FindKey(a, key) == FindKey(b, key)
  {
    if a != [] && Key(a[|a| - 1]) != key {
      FindKeySameKeys(a[..|a| - 1], b[..|b| - 1], key);
    }
  }

  /** The add keeps the line table well formed when the next id is fresh. */
  lemma AddLineKeepsTable(lines: seq<CartLine>, products: map<ProductId, Product>, cart: CartKey,
                          cmd: AddCommand, nextId: nat, userCarts: set<UserId>, guestCarts: set<string>)
    requires CartValid(lines, nextId, products, userCarts, guestCarts)
    requires cmd.quantity >= 1 && cmd.format != Some(Both)
    requires match cart case UserCart(u) => u in userCarts case GuestCart(s) => s in guestCarts
    ensures var r := AddLine(lines, products, cart, cmd, nextId);
      CartValid(r.lines, if r.reply.Created? then nextId + 1 else nextId, products, userCarts, guestCarts)
  {
    var r := AddLine(lines, products, cart, cmd, nextId);
    var next := if r.reply.Created? then nextId + 1 else nextId;
    if r.reply.Created? {
      var added := r.lines[|lines|];
      assert r.lines == lines + [added];
      forall i, j | 0 <= i < j < |r.lines|
        ensures r.lines[i].id != r.lines[j].id && Key(r.lines[i]) != Key(r.lines[j])
      {
        if j == |lines| {
          assert r.lines[i] == lines[i];
          assert lines[i] in lines;
        }
      }
    } else if r.reply.Ok? {
      var pid := cmd.productId as nat;
      var i := FindKey(lines, (cart, pid, StoredFormat(products[pid].format, cmd.format))).value;
      forall a, b | 0 <= a < b < |r.lines|
        ensures r.lines[a].id != r.lines[b].id && Key(r.lines[a]) != Key(r.lines[b])
      {
        assert Key(r.lines[a]) == Key(lines[a]) && Key(r.lines[b]) == Key(lines[b]);
      }
      forall l | l in r.lines ensures LineValid(l, next, products, userCarts, guestCarts) {
        var k :| 0 <= k < |r.lines| && r.lines[k] == l;
        assert lines[k] in lines;
      }
    }
  }

  /**
   * CartItemSerializer.validate and the view agree on admission for every format the add request
   * can carry, except one: the serializer refuses a single-format product ordered in the other
   * format, which the view silently stores under the product's own format.
   */
  lemma SerializerAndViewAgree(p: Product, q: int, chosen: Option<Format>)
    requires q >= 1 && chosen != Some(Both)
    ensures var v := ValidateLine(LineAttrs(Some(p), Some(q), chosen));
      var viewAdmits := !(p.format == Both && chosen.None?) && q <= p.stock;
      (v.Success? ==> viewAdmits && v.value.format == StoredFormat(p.format, chosen)) &&
      (viewAdmits && (chosen.None? || FitsProduct(chosen.value, p)) ==> v.Success?) &&
      (viewAdmits && chosen.Some? && !FitsProduct(chosen.value, p) ==> v.Failure?)
  {
  }

  /**
   * AddToCartView.post for `user`: an invalid request body is 400 with nothing written; otherwise the
   * user's cart is created if missing (even when the add is then refused) and AddLine decides the
   * rest.
   */
  method AddToCart(db: Database, user: UserId, req: AddRequest) returns (reply: Reply)
    requires db.Valid()
    modifies db`userCarts, db`lines, db`nextLineId
    ensures db.Valid()
    ensures ValidateAdd(req).Failure? ==>
      reply == BadRequest(InvalidInput) && db.userCarts == old(db.userCarts) &&
      db.lines == old(db.lines) && db.nextLineId == old(db.nextLineId)
    ensures ValidateAdd(req).Success? ==>
      var r := AddLine(old(db.lines), db.products, UserCart(user), ValidateAdd(req).value, old(db.nextLineId));
      db.userCarts == old(db.userCarts) + {user} && reply == r.reply && db.lines == r.lines &&
      db.nextLineId == (if r.reply.Created? then old(db.nextLineId) + 1 else old(db.nextLineId))
  {
    var checked := ValidateAdd(req);
    if checked.Failure? {
      return BadRequest(InvalidInput);
    }
    db.userCarts := db.userCarts + {user};
    assert forall l :: l in db.lines ==> LineValid(l, db.nextLineId, db.products, db.userCarts, db.guestCarts);
    reply := StoreAdd(db, UserCart(user), checked.value);
  }

  /** The write AddLine decides: its new table, and the next line id moved on when a line was appended. */
  method StoreAdd(db: Database, cart: CartKey, cmd: AddCommand) returns (reply: Reply)
    requires db.Valid() && cmd.quantity >= 1 && cmd.format != Some(Both)
    requires match cart case UserCart(u) => u in db.userCarts case GuestCart(s) => s in db.guestCarts
    modifies db`lines, db`nextLineId
    ensures db.Valid()
    ensures var r := AddLine(old(db.lines), db.products, cart, cmd, old(db.nextLineId));
      reply == r.reply && db.lines == r.lines &&
      db.nextLineId == (if r.reply.Created? then old(db.nextLineId) + 1 else old(db.nextLineId))
  {
    var r := AddLine(db.lines, db.products, cart, cmd, db.nextLineId);
    AddLineKeepsTable(db.lines, db.products, cart, cmd, db.nextLineId, db.userCarts, db.guestCarts);
    if r.reply.Created? {
      db.nextLineId := db.nextLineId + 1;
    }
    db.lines := r.lines;
    reply := r.reply;
  }

  /**
   * CartView.get: the user's cart is created when missing and its lines are returned, every one of
   * them naming a listed product (so the cart's totals are defined).
   */
  method ViewCart(db: Database, user: UserId) returns (reply: Reply, contents: seq<CartLine>)
    requires db.Valid()
    modifies db`userCarts
    ensures db.Valid()
    ensures db.userCarts == old(db.userCarts) + {user}
    ensures reply == Ok && contents == LinesOf(db.lines, UserCart(user))
    ensures ProductsExist(contents, db.products)
  {
    db.userCarts := db.userCarts + {user};
    assert forall l :: l in db.lines ==> LineValid(l, db.nextLineId, db.products, db.userCarts, db.guestCarts);
    reply, contents := Ok, LinesOf(db.lines, UserCart(user));
    CartProductsExist(db.lines, db.nextLineId, db.products, db.userCarts, db.guestCarts, UserCart(user));
  }

  /** The index of line `id` within `cart`, if the cart holds such a line. */
  function FindLineIn(lines: seq<CartLine>, id: nat, cart: CartKey): (r: Option<nat>)
    ensures r.Some? ==> r.value < |lines| && lines[r.value].id == id && lines[r.value].cart == cart
    ensures r.None? ==> forall i :: 0 <= i < |lines| ==> lines[i].id != id || lines[i].cart != cart
  {
    if lines == [] then None
    else if lines[|lines| - 1].id == id && lines[|lines| - 1].cart == cart then Some(|lines| - 1)
    else FindLineIn(lines[..|lines| - 1], id, cart)
  }

  /**
   * RemoveFromCartView: the line is looked up among the requesting user's lines only; a line of
   * another cart, or no line, is 404. On success exactly that line is deleted.
   */
  method RemoveFromCart(db: Database, user: UserId, id: nat) returns (reply: Reply)
    requires db.Valid()
    modifies db`lines
    ensures db.Valid()
    ensures FindLineIn(old(db.lines), id, UserCart(user)).None? ==> reply == NotFound && db.lines == old(db.lines)
    ensures FindLineIn(old(db.lines), id, UserCart(user)).Some? ==>
      reply == Ok && db.lines == RemoveAt(old(db.lines), FindLineIn(old(db.lines), id, UserCart(user)).value)
    ensures forall c :: c != UserCart(user) ==> LinesOf(db.lines, c) == LinesOf(old(db.lines), c)
  {
    var found := FindLineIn(db.lines, id, UserCart(user));
    if found.None? {
      return NotFound;
    }
    forall c | c != UserCart(user) ensures LinesOf(RemoveAt(db.lines, found.value), c) == LinesOf(db.lines, c) {
      RemoveAtCounts(db.lines, found.value, c);
    }
    RemoveAtDistinct(db.lines, found.value);
    db.lines := RemoveAt(db.lines, found.value);
    reply := Ok;
  }
}
