/**
 * orders/serializers.py: the order item and total validators, the guest checkout serializers, and
 * OrderCreateSerializer.create.
 */
module OrderSerializers {
  import opened Wrappers
  import opened Text
  import opened UserModels
  import opened ProductModels
  import opened OrderModels
  import opened AddressValidators
  import opened Store

  datatype AmountProblem = NotPositive

  /** OrderItemSerializer.validate_quantity: a quantity must be positive; it is kept as given. */
  function ValidateItemQuantity(value: int): (r: Result<int, AmountProblem>)
    ensures r.Success? <==> value > 0
    ensures r.Success? ==> r.value == value
  {
    if value <= 0 then Failure(NotPositive) else Success(value)
  }

  /** OrderSerializer.validate_total_amount: a total must be positive; it is kept as given. */
  function ValidateTotalAmount(value: int): (r: Result<int, AmountProblem>)
    ensures r.Success? <==> value > 0
    ensures r.Success? ==> r.value == value
  {
    if value <= 0 then Failure(NotPositive) else Success(value)
  }

  /**
   * A name-like field (recipient name, street, city, first and last name): the CharField with its
   * max_length, then the trimmed minimum length of its validate_<field> method.
   */
  function CleanText(raw: string, maxLength: nat, min: nat): (r: Result<string, FieldProblem>)
    requires min >= 1
    ensures r.Success? <==> min <= |Strip(raw)| <= maxLength
    ensures r.Success? ==> r.value == Strip(raw)
  {
    var c := CharInput(raw, maxLength);
    if c.Failure? then c
    else
      StripIdempotent(raw);
      ValidateTrimmed(c.value, min)
  }

  /** The postal code field: the CharField (max_length 20), then validate_postal_code. */
  function CleanPostal(raw: string): (r: Result<string, FieldProblem>)
    ensures r.Success? <==> Strip(raw) != "" && |Strip(raw)| <= 20 && FiveDigits(PostalCleaned(Strip(raw)))
    ensures r.Success? ==> '-' in r.value && PostalCleaned(r.value) == PostalCleaned(Strip(raw))
  {
    var c := CharInput(raw, 20);
    if c.Failure? then c else ValidatePostalCode(c.value)
  }

  /**
   * A phone field: the CharField (max_length 20), then validate_phone as written, which bounds the
   * characters left after removing spaces, dashes and plus signs (not the digits).
   */
  function CleanPhone(raw: string): (r: Result<string, FieldProblem>)
    ensures r.Success? <==> Strip(raw) != "" && |Strip(raw)| <= 20 && PhonePattern(Strip(raw)) && 9 <= |PhoneCleaned(Strip(raw))| <= 15
    ensures r.Success? ==> r.value == Strip(raw)
  {
    var c := CharInput(raw, 20);
    if c.Failure? then c else PhoneAsWritten(c.value)
  }

  /** All the check as written does promise about digits: an accepted phone has at most 15. */
  lemma CleanPhoneDigits(raw: string)
    requires CleanPhone(raw).Success?
    ensures DigitCount(CleanPhone(raw).value) <= 15
  {
    PhoneAsWrittenBoundsDigits(Strip(raw));
  }

  /**
   * GuestCheckoutSerializer.email, an EmailField without max_length: a blank value is refused and the
   * value is stripped; no length bound applies (the stripped value never exceeds the raw one).
   * The e-mail syntax check is not part of this model.
   */
  function CleanEmail(raw: string): (r: Result<string, FieldProblem>)
    ensures r.Success? <==> Strip(raw) != ""
    ensures r.Success? ==> r.value == Strip(raw)
  {
    CharInput(raw, |raw|)
  }

  /** Order.guest_address's model default for the country. */
  const DefaultCountry: string := "Polska"

  /** The country field: optional (the model default applies), otherwise a CharField of at most 100. */
  function CleanCountry(raw: Option<string>): (r: Result<string, FieldProblem>)
    ensures raw.None? ==> r == Success(DefaultCountry)
    ensures raw.Some? ==> r == CharInput(raw.value, 100)
  {
    if raw.None? then Success(DefaultCountry) else CharInput(raw.value, 100)
  }

  /** The fields of GuestOrderAddressSerializer; `country` may be left out. */
  datatype AddressInput = AddressInput(
    recipientName: string,
    street: string,
    postalCode: string,
    city: string,
    country: Option<string>,
    phone: string)

  datatype AddressField = RecipientName | Street | PostalCode | City | Country | Phone

  /** The set of fields whose flag is raised. */
  function Flagged(name: bool, street: bool, postal: bool, city: bool, country: bool, phone: bool): (errors: set<AddressField>)
    ensures RecipientName in errors <==> name
    ensures Street in errors <==> street
    ensures PostalCode in errors <==> postal
    ensures City in errors <==> city
    ensures Country in errors <==> country
    ensures Phone in errors <==> phone
    ensures errors == {} <==> !(name || street || postal || city || country || phone)
  {
    (if name then {RecipientName} else {}) + (if street then {Street} else {}) + (if postal then {PostalCode} else {}) +
    (if city then {City} else {}) + (if country then {Country} else {}) + (if phone then {Phone} else {})
  }

  /** The fields that fail, all of them (DRF reports every field error at once). */
  function AddressErrors(input: AddressInput): (errors: set<AddressField>)
    ensures RecipientName in errors <==> CleanText(input.recipientName, 200, 2).Failure?
    ensures Street in errors <==> CleanText(input.street, 255, 3).Failure?
    ensures PostalCode in errors <==> CleanPostal(input.postalCode).Failure?
    ensures City in errors <==> CleanText(input.city, 100, 2).Failure?
    ensures Country in errors <==> CleanCountry(input.country).Failure?
    ensures Phone in errors <==> CleanPhone(input.phone).Failure?
  {
    Flagged(CleanText(input.recipientName, 200, 2).Failure?, CleanText(input.street, 255, 3).Failure?,
            CleanPostal(input.postalCode).Failure?, CleanText(input.city, 100, 2).Failure?,
            CleanCountry(input.country).Failure?, CleanPhone(input.phone).Failure?)
  }

  /**
   * GuestOrderAddressSerializer.is_valid: all failing fields are reported together; when none
   * fails, the delivery address holds the cleaned values.
   */
  function ValidateGuestAddress(input: AddressInput): (r: Result<DeliveryAddress, set<AddressField>>)
    ensures r.Failure? <==> AddressErrors(input) != {}
    ensures r.Failure? ==> r.error == AddressErrors(input)
    ensures r.Success? ==>
      r.value.recipientName == Strip(input.recipientName) && |r.value.recipientName| >= 2 &&
      r.value.street == Strip(input.street) && |r.value.street| >= 3 &&
      r.value.city == Strip(input.city) && |r.value.city| >= 2 &&
      r.value.postalCode == CleanPostal(input.postalCode).value &&
      '-' in r.value.postalCode && FiveDigits(PostalCleaned(r.value.postalCode)) &&
      PostalCleaned(r.value.postalCode) == PostalCleaned(Strip(input.postalCode)) &&
      r.value.phone == Strip(input.phone) && PhonePattern(r.value.phone) && 9 <= |PhoneCleaned(r.value.phone)| <= 15 &&
      r.value.country == (if input.country.None? then DefaultCountry else Strip(input.country.value))
  {
    var errors := AddressErrors(input);
    if errors != {} then Failure(errors)
    else
      assert RecipientName !in errors && Street !in errors && PostalCode !in errors;
      assert City !in errors && Country !in errors && Phone !in errors;
      Success(DeliveryAddress(
        CleanText(input.recipientName, 200, 2).value,
        CleanText(input.street, 255, 3).value,
        CleanPostal(input.postalCode).value,
        CleanText(input.city, 100, 2).value,
        CleanCountry(input.country).value,
        CleanPhone(input.phone).value))
  }

  /** A field value that was accepted is accepted again unchanged. */
  lemma CleanTextIsStable(raw: string, maxLength: nat, min: nat)
    requires min >= 1 && CleanText(raw, maxLength, min).Success?
    ensures CleanText(CleanText(raw, maxLength, min).value, maxLength, min) == CleanText(raw, maxLength, min)
  {
    StripIdempotent(raw);
  }

  lemma CleanPhoneIsStable(raw: string)
    requires CleanPhone(raw).Success?
    ensures CleanPhone(CleanPhone(raw).value) == CleanPhone(raw)
  {
    var v := Strip(raw);
    assert CharInput(raw, 20) == Success(v);
    CharInputIsStable(raw, 20);
    assert PhoneAsWritten(v) == Success(v);
  }

  /** A dashed code made from a value without a dash and without trailing white space has no white space at its ends. */
  lemma DashedIsTrimmed(v: string)
    requires v != [] && !IsSpace(v[|v| - 1]) && '-' !in v && FiveDigits(PostalCleaned(v))
    ensures var out := Dashed(PostalCleaned(v)); !IsSpace(out[0]) && !IsSpace(out[|out| - 1]) && |out| <= 7
  {
    var c := PostalCleaned(v);
    RemoveKeepsLast(v, ' ');
    RemoveKeepsLast(Remove(v, ' '), '-');
    assert c[|c| - 1] == v[|v| - 1];
    var out := Dashed(c);
    assert out == c[..2] + "-" + c[2..];
    assert out[|out| - 1] == c[|c| - 1];
    assert IsDigit(c[..5][0]);
  }

  /** A stored postal code is accepted again unchanged. */
  lemma CleanPostalIsStable(raw: string)
    requires CleanPostal(raw).Success?
    ensures CleanPostal(CleanPostal(raw).value) == CleanPostal(raw)
  {
    var v := Strip(raw);
    assert CharInput(raw, 20) == Success(v);
    if '-' in v {
      StripIdempotent(raw);
      assert CharInput(v, 20) == Success(v);
    } else {
      assert v != [] && !IsSpace(v[|v| - 1]);
      DashedIsStable(v);
    }
  }

  /** The code a dash-free postal value is rewritten to passes the field again unchanged. */
  lemma DashedIsStable(v: string)
    requires v != [] && !IsSpace(v[|v| - 1]) && '-' !in v && FiveDigits(PostalCleaned(v))
    ensures CleanPostal(Dashed(PostalCleaned(v))) == Success(Dashed(PostalCleaned(v)))
  {
    var out := Dashed(PostalCleaned(v));
    DashedIsTrimmed(v);
    StripOfTrimmed(out);
    assert CharInput(out, 20) == Success(out);
    assert ValidatePostalCode(out) == Success(out);
  }

  lemma CleanCountryIsStable(raw: string)
    requires CleanCountry(Some(raw)).Success?
    ensures CleanCountry(Some(CleanCountry(Some(raw)).value)) == CleanCountry(Some(raw))
  {
    CharInputIsStable(raw, 100);
  }

  /** The address fields as a client would send a stored delivery address back. */
  function Resubmitted(a: DeliveryAddress): AddressInput {
    AddressInput(a.recipientName, a.street, a.postalCode, a.city, Some(a.country), a.phone)
  }

  /** Submitting an accepted guest address (with its country given) again yields the same address. */
  lemma GuestAddressIsStable(input: AddressInput)
    requires ValidateGuestAddress(input).Success? && input.country.Some?
    ensures ValidateGuestAddress(Resubmitted(ValidateGuestAddress(input).value)) == ValidateGuestAddress(input)
  {
    assert AddressErrors(input) == {};
    assert RecipientName !in AddressErrors(input) && Street !in AddressErrors(input) && PostalCode !in AddressErrors(input);
    assert City !in AddressErrors(input) && Country !in AddressErrors(input) && Phone !in AddressErrors(input);
    CleanTextIsStable(input.recipientName, 200, 2);
    CleanTextIsStable(input.street, 255, 3);
    CleanTextIsStable(input.city, 100, 2);
    CleanPostalIsStable(input.postalCode);
    CleanCountryIsStable(input.country.value);
    CleanPhoneIsStable(input.phone);
    var again := Resubmitted(ValidateGuestAddress(input).value);
    assert AddressErrors(again) == {};
  }

  /** The personal fields of GuestCheckoutSerializer, with the nested address. */
  datatype CheckoutInput = CheckoutInput(firstName: string, lastName: string, email: string, phone: string, address: AddressInput)

  datatype CheckoutField = FirstName | LastName | Email | ContactPhone | Nested(fields: set<AddressField>)

  /** The validated checkout: the contact details an order carries and the delivery address. */
  datatype Checkout = Checkout(contact: GuestContact, address: DeliveryAddress)

  /** The set of checkout fields whose flag is raised, with the failing address fields nested. */
  function FlaggedCheckout(first: bool, last: bool, email: bool, phone: bool, address: set<AddressField>): (errors: set<CheckoutField>)
    ensures FirstName in errors <==> first
    ensures LastName in errors <==> last
    ensures Email in errors <==> email
    ensures ContactPhone in errors <==> phone
    ensures Nested(address) in errors <==> address != {}
    ensures forall f :: f in errors && f.Nested? ==> f == Nested(address)
    ensures errors == {} <==> !(first || last || email || phone || address != {})
  {
    (if first then {FirstName} else {}) + (if last then {LastName} else {}) + (if email then {Email} else {}) +
    (if phone then {ContactPhone} else {}) + (if address != {} then {Nested(address)} else {})
  }

  /** The failing fields of a checkout; a failing address is reported with its own failing fields. */
  function CheckoutErrors(input: CheckoutInput): (errors: set<CheckoutField>)
    ensures FirstName in errors <==> CleanText(input.firstName, 100, 2).Failure?
    ensures LastName in errors <==> CleanText(input.lastName, 100, 2).Failure?
    ensures Email in errors <==> CleanEmail(input.email).Failure?
    ensures ContactPhone in errors <==> CleanPhone(input.phone).Failure?
    ensures Nested(AddressErrors(input.address)) in errors <==> AddressErrors(input.address) != {}
    ensures forall f :: f in errors && f.Nested? ==> f == Nested(AddressErrors(input.address))
  {
    FlaggedCheckout(CleanText(input.firstName, 100, 2).Failure?, CleanText(input.lastName, 100, 2).Failure?,
                    CleanEmail(input.email).Failure?, CleanPhone(input.phone).Failure?, AddressErrors(input.address))
  }

  /**
   * GuestCheckoutSerializer.is_valid: names stripped and at least 2 long, the phone checked as the
   * address phone is, and the nested address validated; all failures are reported together.
   */
  function ValidateGuestCheckout(input: CheckoutInput): (r: Result<Checkout, set<CheckoutField>>)
    ensures r.Failure? <==> CheckoutErrors(input) != {}
    ensures r.Failure? ==> r.error == CheckoutErrors(input)
    ensures r.Success? ==>
      r.value.contact.firstName == Strip(input.firstName) && |r.value.contact.firstName| >= 2 &&
      r.value.contact.lastName == Strip(input.lastName) && |r.value.contact.lastName| >= 2 &&
      r.value.contact.email == Strip(input.email) &&
      r.value.contact.phone == Strip(input.phone) && PhonePattern(r.value.contact.phone) && 9 <= |PhoneCleaned(r.value.contact.phone)| <= 15 &&
      ValidateGuestAddress(input.address) == Success(r.value.address)
  {
    var errors := CheckoutErrors(input);
    if errors != {} then Failure(errors)
    else
      assert FirstName !in errors && LastName !in errors && Email !in errors && ContactPhone !in errors;
      assert Nested(AddressErrors(input.address)) !in errors;
      Success(Checkout(
        GuestContact(CleanEmail(input.email).value, CleanText(input.firstName, 100, 2).value,
                     CleanText(input.lastName, 100, 2).value, CleanPhone(input.phone).value),
        ValidateGuestAddress(input.address).value))
  }

  /** One validated entry of `items`: an existing product, a quantity, a unit price and a format. */
  datatype ItemData = ItemData(product: ProductId, quantity: nat, price: int, format: Option<Format>)

  /** The order items `create` makes for `data`, one per entry and in the same order. */
  function ItemsFor(order: OrderId, data: seq<ItemData>): (r: seq<OrderItem>)
    ensures |r| == |data|
    ensures forall k :: 0 <= k < |data| ==>
      r[k] == OrderItem(order, data[k].product, data[k].quantity, data[k].price, data[k].format)
  {
    seq(|data|, k requires 0 <= k < |data| => OrderItem(order, data[k].product, data[k].quantity, data[k].price, data[k].format))
  }

  /** The items made for an existing order from entries naming existing products refer to both. */
  lemma ItemsForRefer(id: OrderId, data: seq<ItemData>, orders: map<OrderId, Order>, products: map<ProductId, Product>)
    requires id in orders && forall d :: d in data ==> d.product in products
    ensures forall i :: i in ItemsFor(id, data) ==> i.order in orders && i.product in products
  {
    forall i | i in ItemsFor(id, data) ensures i.order in orders && i.product in products {
      var k :| 0 <= k < |data| && ItemsFor(id, data)[k] == i;
      assert data[k] in data;
    }
  }

  /** Appending the items made for a new order: that order's items are exactly those. */
  lemma CreatedItems(before: seq<OrderItem>, id: OrderId, data: seq<ItemData>)
    requires forall i :: i in before ==> i.order != id
    ensures ItemsOf(before + ItemsFor(id, data), id) == ItemsFor(id, data)
  {
    ItemsOfAppend(before, ItemsFor(id, data), id);
    ItemsOfAbsent(before, id);
    ItemsOfOwn(ItemsFor(id, data), id);
  }

  /** Address.objects.get(id=..., user=...): the address with that id, if it belongs to that user. */
  function OwnedAddress(addresses: seq<Address>, id: int, user: UserId): (r: Option<AddressId>)
    ensures r.Some? ==> exists a :: a in addresses && a.id == id && a.user == user && r.value == id
    ensures r.None? ==> forall a :: a in addresses ==> a.id != id || a.user != user
  {
    if addresses == [] then None
    else
      var a := addresses[|addresses| - 1];
      if a.id == id && a.user == user then Some(a.id)
      else
        var r := OwnedAddress(addresses[..|addresses| - 1], id, user);
        assert forall b :: b in addresses ==> b in addresses[..|addresses| - 1] || b == a;
        r
  }

  /**
   * The address `create` attaches: only for a truthy user_address_id naming an address of the
   * order's user; otherwise none (an anonymous order matches no address).
   */
  function AttachedAddress(addresses: seq<Address>, user: Option<UserId>, addressId: Option<int>): (r: Option<AddressId>)
    ensures r.Some? ==> (user.Some? && addressId.Some? && addressId.value != 0 && r.value == addressId.value &&
                         exists a :: a in addresses && a.id == addressId.value && a.user == user.value)
    ensures (user.Some? && addressId.Some? && addressId.value != 0 &&
             exists a :: a in addresses && a.id == addressId.value && a.user == user.value) ==> r.Some?
  {
    if user.Some? && addressId.Some? && addressId.value != 0 then OwnedAddress(addresses, addressId.value, user.value)
    else None
  }

  /**
   * OrderCreateSerializer.create: the order is created (type user, no guest details), the address is
   * attached only if it belongs to the order's user, and one item is created per entry of `items`.
   */
  method CreateOrder(db: Database, user: Option<UserId>, addressId: Option<int>, total: int,
                     status: PaymentStatus, data: seq<ItemData>) returns (id: OrderId)
    requires db.Valid()
    requires forall d :: d in data ==> d.product in db.products
    modifies db`orders, db`nextOrderId, db`items
    ensures db.Valid()
    ensures id == old(db.nextOrderId) && id !in old(db.orders) && db.nextOrderId == id + 1
    ensures db.orders == old(db.orders)[id := Order(UserOrder, user, None, total, status, AttachedAddress(db.addresses, user, addressId))]
    ensures db.items == old(db.items) + ItemsFor(id, data)
    ensures ItemsOf(db.items, id) == ItemsFor(id, data)
  {
    var order := Order(UserOrder, user, None, total, status, None);
    var attached := AttachedAddress(db.addresses, user, addressId);
    if attached.Some? {
      order := order.(userAddress := attached);
    }
    id := InsertOrder(db, order);
    ghost var before := db.items;
    AddItems(db, id, data);
    CreatedItems(before, id, data);
  }

  /** Order.objects.create: the row under the next key, which no item refers to yet. */
  method InsertOrder(db: Database, order: Order) returns (id: OrderId)
    requires db.Valid()
    modifies db`orders, db`nextOrderId
    ensures db.Valid()
    ensures id == old(db.nextOrderId) && id !in old(db.orders) && db.nextOrderId == id + 1
    ensures db.orders == old(db.orders)[id := order]
    ensures forall i :: i in db.items ==> i.order != id
  {
    id := db.nextOrderId;
    NewOrderKeepsOrders(db.orders, id, db.items, db.products, db.deliveries, db.payments, order);
    db.orders := db.orders[id := order];
    db.nextOrderId := id + 1;
  }

  /** The loop of `create` that makes one item per entry for the new order `id`. */
  method AddItems(db: Database, id: OrderId, data: seq<ItemData>)
    requires db.Valid() && id in db.orders
    requires forall d :: d in data ==> d.product in db.products
    modifies db`items
    ensures db.Valid()
    ensures db.items == old(db.items) + ItemsFor(id, data)
  {
    ghost var before := db.items;
    for k := 0 to |data|
      invariant db.items == before + ItemsFor(id, data[..k])
    {
      assert ItemsFor(id, data[..k + 1]) == ItemsFor(id, data[..k]) + [ItemsFor(id, data)[k]];
      db.items := db.items + [OrderItem(id, data[k].product, data[k].quantity, data[k].price, data[k].format)];
    }
    assert data[..|data|] == data;
    ItemsForRefer(id, data, db.orders, db.products);
    NewItemsKeepOrders(db.orders, db.nextOrderId, before, db.products, db.deliveries, db.payments, ItemsFor(id, data));
  }
}
