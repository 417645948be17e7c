/**
 * cart/guest_views.py: the cart of a visitor who is not logged in, keyed by the session key. The
 * add rules are those of the logged-in cart (CartViews.AddLine).
 */
module GuestCartViews {
  import opened Wrappers
  import opened Http
  import opened Text
  import opened ProductModels
  import opened CartModels
  import opened CartSerializers
  import opened Store
  import opened CartViews

  /** The request's session; `key` is None until the session is saved for the first time. */
  class Session {
    var key: Option<string>

    constructor (key: Option<string>)
      ensures this.key == key
    {
      this.key := key;
    }

    /** `not request.session.session_key`: no key, or an empty one. */
    predicate Missing()
      reads this
    {
      key.None? || key.value == ""
    }

    /** get_or_create_guest_session: keeps a present key, otherwise saves the session under `newKey`. */
    method EnsureKey(newKey: string) returns (k: string)
      requires newKey != ""
      modifies this
      ensures k != "" && key == Some(k)
      ensures old(Missing()) ==> k == newKey
      ensures !old(Missing()) ==> k == old(key.value)
    {
      if Missing() {
        key := Some(newKey);
      }
      k := key.value;
    }
  }

  /**
   * GuestCartView.get: ensures a session and a guest cart exist and returns that cart's lines.
   */
  method GuestCart(db: Database, session: Session, newKey: string) returns (reply: Reply, contents: seq<CartLine>)
    requires db.Valid() && newKey != ""
    modifies db`guestCarts, session
    ensures db.Valid()
    ensures session.key.Some? && !session.Missing()
    ensures old(session.Missing()) ==> session.key == Some(newKey)
    ensures !old(session.Missing()) ==> session.key == old(session.key)
    ensures db.guestCarts == old(db.guestCarts) + {session.key.value}
    ensures reply == Ok && contents == LinesOf(db.lines, CartKey.GuestCart(session.key.value))
  {
    var k := session.EnsureKey(newKey);
    db.guestCarts := db.guestCarts + {k};
    assert forall l :: l in db.lines ==> LineValid(l, db.nextLineId, db.products, db.userCarts, db.guestCarts);
    reply, contents := Ok, LinesOf(db.lines, CartKey.GuestCart(k));
  }

  /**
   * AddToGuestCartView.post: request validation first (400, nothing written, no session created),
   * then the session and the guest cart are created, then the add rules apply.
   */
  method GuestAdd(db: Database, session: Session, req: AddRequest, newKey: string) returns (reply: Reply)
    requires db.Valid() && newKey != ""
    modifies db`guestCarts, db`lines, db`nextLineId, session
    ensures db.Valid()
    ensures ValidateAdd(req).Failure? ==>
      reply == BadRequest(InvalidInput) && session.key == old(session.key) &&
      db.guestCarts == old(db.guestCarts) && db.lines == old(db.lines) && db.nextLineId == old(db.nextLineId)
    ensures ValidateAdd(req).Success? ==>
      session.key.Some? && !session.Missing() &&
      (old(session.Missing()) ==> session.key == Some(newKey)) &&
      (!old(session.Missing()) ==> session.key == old(session.key)) &&
      var r := AddLine(old(db.lines), db.products, CartKey.GuestCart(session.key.value), ValidateAdd(req).value, old(db.nextLineId));
      db.guestCarts == old(db.guestCarts) + {session.key.value} && reply == r.reply && db.lines == r.lines &&
      db.nextLineId == (if r.reply.Created? then old(db.nextLineId) + 1 else old(db.nextLineId))
  {
    var checked := ValidateAdd(req);
    if checked.Failure? {
      return BadRequest(InvalidInput);
    }
    var k := session.EnsureKey(newKey);
    db.guestCarts := db.guestCarts + {k};
    assert forall l :: l in db.lines ==> LineValid(l, db.nextLineId, db.products, db.userCarts, db.guestCarts);
    reply := StoreAdd(db, CartKey.GuestCart(k), checked.value);
  }

  /** A positive denominator. */
  type Positive = n: int | n > 0 witness 1

  /**
   * A value of the request body, as request.data.get('quantity') returns it. A JSON number with a
   * fraction or an exponent is a finite float, held here as its exact value num / den.
   */
  datatype JsonValue =
    | Absent | Null | Bool(b: bool) | Int(i: int) | Float(num: int, den: Positive) | Str(s: string)
    | Array(size: nat) | Object(size: nat)

  /** Python truthiness: None, False, 0, '' and empty containers are false. */
  predicate Truthy(v: JsonValue) {
    match v
    case Absent => false
    case Null => false
    case Bool(b) => b
    case Int(i) => i != 0
    case Float(num, _) => num != 0
    case Str(s) => s != ""
    case Array(n) => n > 0
    case Object(n) => n > 0
  }

  /** What int(v) does: a value, a ValueError (unparsable string) or a TypeError (list, dict, None). */
  datatype Conversion = Converted(n: int) | ValueError | TypeError

  /** int() of a float: the fraction is dropped, toward zero for both signs. */
  function Truncate(num: int, den: Positive): (n: int)
    ensures num >= 0 ==> 0 <= n && n * den <= num < (n + 1) * den
    ensures num < 0 ==> n <= 0 && (n - 1) * den < num <= n * den
  {
    if num >= 0 then num / den else -((-num) / den)
  }

  function ToInt(v: JsonValue): (r: Conversion)
    ensures v.Int? ==> r == Converted(v.i)
    ensures v.Float? ==> r == Converted(Truncate(v.num, v.den))
    ensures v.Str? ==> (r.Converted? <==> ParseInt(v.s).Some?)
    ensures (v.Array? || v.Object? || v.Null? || v.Absent?) ==> r == TypeError
  {
    match v
    case Bool(b) => Converted(if b then 1 else 0)
    case Int(i) => Converted(i)
    case Float(num, den) => Converted(Truncate(num, den))
    case Str(s) => (match ParseInt(s) case Some(n) => Converted(n) case None => ValueError)
    case _ => TypeError
  }

  /**
   * UpdateGuestCartItemView.patch once the line is found: a falsy quantity is 400, an int() that
   * raises ValueError is 400, one that raises TypeError escapes the handler (500), a non-positive
   * number is 400, more than the stock is 400, otherwise the line takes the new quantity (200).
   */
  function UpdateQuantity(lines: seq<CartLine>, products: map<ProductId, Product>, i: nat, value: JsonValue): (r: AddOutcome)
    requires i < |lines| && lines[i].product in products
    ensures !r.reply.Ok? ==> r.lines == lines
    ensures !Truthy(value) ==> r.reply == BadRequest(ProvideQuantity)
    ensures r.reply.Ok? <==>
      Truthy(value) && ToInt(value).Converted? && 1 <= ToInt(value).n <= products[lines[i].product].stock
    ensures r.reply.Ok? ==> r.lines == lines[i := lines[i].(quantity := ToInt(value).n)]
  {
    if !Truthy(value) then AddOutcome(lines, BadRequest(ProvideQuantity))
    else
      match ToInt(value)
      case TypeError => AddOutcome(lines, InternalError)
      case ValueError => AddOutcome(lines, BadRequest(NotANumber))
      case Converted(n) =>
        if n <= 0 then AddOutcome(lines, BadRequest(NotPositive))
        else if n > products[lines[i].product].stock then AddOutcome(lines, BadRequest(OutOfStock))
        else AddOutcome(lines[i := lines[i].(quantity := n)], Ok)
  }

  /**
   * A float quantity counts by its whole part: one strictly between 0 and 1 is truthy but truncates
   * to 0 and is refused as not positive; one of at least 1 sets the line to its whole part when the
   * stock allows that many.
   */
  lemma UpdateQuantityFloat(lines: seq<CartLine>, products: map<ProductId, Product>, i: nat, num: int, den: Positive)
    requires i < |lines| && lines[i].product in products && num > 0
    ensures num < den ==> UpdateQuantity(lines, products, i, Float(num, den)).reply == BadRequest(NotPositive)
    ensures den <= num ==>
      var n := Truncate(num, den);
      1 <= n && n * den <= num < (n + 1) * den &&
      (UpdateQuantity(lines, products, i, Float(num, den)).reply.Ok? <==> n <= products[lines[i].product].stock)
  {
    var n := Truncate(num, den);
    if num < den {
      assert n * den < den;
    } else {
      assert (n + 1) * den > den;
    }
  }

  /**
   * Setting a quantity is idempotent, it sets the cart's item count to the old count minus the
   * line's old quantity plus the new one, and leaves every other cart alone.
   */
  lemma UpdateQuantityEffect(lines: seq<CartLine>, products: map<ProductId, Product>, i: nat, value: JsonValue, other: CartKey)
    requires i < |lines| && lines[i].product in products && other != lines[i].cart
    requires UpdateQuantity(lines, products, i, value).reply.Ok?
    ensures var r := UpdateQuantity(lines, products, i, value).lines;
      UpdateQuantity(r, products, i, value).lines == r &&
      TotalItems(LinesOf(r, lines[i].cart)) == TotalItems(LinesOf(lines, lines[i].cart)) - lines[i].quantity + ToInt(value).n &&
      LinesOf(r, other) == LinesOf(lines, other)
  {
    var r := UpdateQuantity(lines, products, i, value).lines;
    ReplaceAtCounts(lines, i, r[i], lines[i].cart);
    ReplaceAtCounts(lines, i, r[i], other);
    assert r[i := r[i].(quantity := ToInt(value).n)] == r;
  }

  /**
   * UpdateGuestCartItemView.patch: no session, no guest cart for it, or no line `id` in that cart is
   * 404; otherwise UpdateQuantity decides.
   */
  method GuestUpdate(db: Database, session: Session, id: nat, value: JsonValue) returns (reply: Reply)
    requires db.Valid()
    modifies db`lines
    ensures db.Valid()
    ensures (session.Missing() || session.key.value !in db.guestCarts ||
             FindLineIn(old(db.lines), id, CartKey.GuestCart(session.key.value)).None?) ==>
      reply == NotFound && db.lines == old(db.lines)
    ensures !session.Missing() && session.key.value in db.guestCarts &&
            FindLineIn(old(db.lines), id, CartKey.GuestCart(session.key.value)).Some? ==>
      var i := FindLineIn(old(db.lines), id, CartKey.GuestCart(session.key.value)).value;
      old(db.lines)[i].product in db.products &&
      var r := UpdateQuantity(old(db.lines), db.products, i, value);
      reply == r.reply && db.lines == r.lines
  {
    if session.Missing() || session.key.value !in db.guestCarts {
      return NotFound;
    }
    var found := FindLineIn(db.lines, id, CartKey.GuestCart(session.key.value));
    if found.None? {
      return NotFound;
    }
    var i := found.value;
    assert db.lines[i] in db.lines;
    var r := UpdateQuantity(db.lines, db.products, i, value);
    if r.reply.Ok? {
      var changed := r.lines[i];
      forall a, b | 0 <= a < b < |r.lines|
        ensures r.lines[a].id != r.lines[b].id && Key(r.lines[a]) != Key(r.lines[b])
      {
        assert Key(r.lines[a]) == Key(db.lines[a]) && Key(r.lines[b]) == Key(db.lines[b]);
      }
      forall l | l in r.lines ensures LineValid(l, db.nextLineId, db.products, db.userCarts, db.guestCarts) {
        var k :| 0 <= k < |r.lines| && r.lines[k] == l;
        assert db.lines[k] in db.lines;
      }
    }
    db.lines := r.lines;
    reply := r.reply;
  }

  /**
   * RemoveFromGuestCartView.delete: the same 404 cases as the update; otherwise that one line is
   * deleted (200).
   */
  method GuestRemove(db: Database, session: Session, id: nat) returns (reply: Reply)
    requires db.Valid()
    modifies db`lines
    ensures db.Valid()
    ensures (session.Missing() || session.key.value !in db.guestCarts ||
             FindLineIn(old(db.lines), id, CartKey.GuestCart(session.key.value)).None?) ==>
      reply == NotFound && db.lines == old(db.lines)
    ensures !session.Missing() && session.key.value in db.guestCarts &&
            FindLineIn(old(db.lines), id, CartKey.GuestCart(session.key.value)).Some? ==>
      reply == Ok && db.lines == RemoveAt(old(db.lines), FindLineIn(old(db.lines), id, CartKey.GuestCart(session.key.value)).value)
  {
    if session.Missing() || session.key.value !in db.guestCarts {
      return NotFound;
    }
    var found := FindLineIn(db.lines, id, CartKey.GuestCart(session.key.value));
    if found.None? {
      return NotFound;
    }
    RemoveAtDistinct(db.lines, found.value);
    db.lines := RemoveAt(db.lines, found.value);
    reply := Ok;
  }

  /**
   * ClearGuestCartView.delete: always 200; with a session whose guest cart exists, every line of
   * that cart is deleted and no other line.
   */
  method GuestClear(db: Database, session: Session) returns (reply: Reply)
    requires db.Valid()
    modifies db`lines
    ensures db.Valid() && reply == Ok
    ensures (session.Missing() || session.key.value !in db.guestCarts) ==> db.lines == old(db.lines)
    ensures !session.Missing() && session.key.value in db.guestCarts ==>
      db.lines == DropCart(old(db.lines), CartKey.GuestCart(session.key.value))
  {
    if session.Missing() || session.key.value !in db.guestCarts {
      return Ok;
    }
    DropCartDistinct(db.lines, CartKey.GuestCart(session.key.value));
    db.lines := DropCart(db.lines, CartKey.GuestCart(session.key.value));
    reply := Ok;
  }
}
