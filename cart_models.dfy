/**
 * cart/models.py: user carts and guest carts share one line table, keyed by the cart they belong
 * to; a line's money figures use the product's current price.
 */
module CartModels {
  import opened Wrappers
  import opened UserModels
  import opened ProductModels

  /** A Cart is identified by its (one-to-one) user, a GuestCart by its unique session key. */
  datatype CartKey = UserCart(user: UserId) | GuestCart(session: string)

  /** CartItem / GuestCartItem; `format` is the selected_format column (paperback, ebook or null). */
  datatype CartLine = CartLine(id: nat, cart: CartKey, product: ProductId, quantity: nat, format: Option<Format>)

  /** A line's (cart, product, selected_format) triple, unique by unique_together. */
  function Key(l: CartLine): (CartKey, ProductId, Option<Format>) {
    (l.cart, l.product, l.format)
  }

  /** Line ids unique and (cart, product, selected_format) unique. */
  ghost predicate LinesDistinct(lines: seq<CartLine>) {
    forall i, j :: 0 <= i < j < |lines| ==> lines[i].id != lines[j].id && Key(lines[i]) != Key(lines[j])
  }

  ghost predicate ProductsExist(lines: seq<CartLine>, products: map<ProductId, Product>) {
    forall i :: 0 <= i < |lines| ==> lines[i].product in products
  }

  /** The lines of one cart, in table order (cart.items.all()). */
  function LinesOf(lines: seq<CartLine>, cart: CartKey): (r: seq<CartLine>)
    ensures |r| <= |lines|
  {
    if lines == [] then []
    else LinesOf(lines[..|lines| - 1], cart) + (if lines[|lines| - 1].cart == cart then [lines[|lines| - 1]] else [])
  }

  /** A cart's lines are exactly the table's lines that belong to it. */
  lemma {:induction false} LinesOfMembers(lines: seq<CartLine>, cart: CartKey)
    ensures forall l :: l in LinesOf(lines, cart) <==> l in lines && l.cart == cart
  {
    if lines != [] {
      var init := lines[..|lines| - 1];
      LinesOfMembers(init, cart);
      assert lines == init + [lines[|lines| - 1]];
    }
  }

  /** CartItem.subtotal: quantity times the product's price as it is now. */
  function Subtotal(l: CartLine, products: map<ProductId, Product>): int
    requires l.product in products
  {
    l.quantity * products[l.product].price
  }

  /** Cart.total_price over the given lines (0 for none). */
  function TotalPrice(lines: seq<CartLine>, products: map<ProductId, Product>): int
    requires ProductsExist(lines, products)
  {
    if lines == [] then 0
    else TotalPrice(lines[..|lines| - 1], products) + Subtotal(lines[|lines| - 1], products)
  }

  /** Cart.total_items over the given lines. */
  function TotalItems(lines: seq<CartLine>): (n: nat)
    ensures lines == [] ==> n == 0
  {
    if lines == [] then 0 else TotalItems(lines[..|lines| - 1]) + lines[|lines| - 1].quantity
  }

  /** No line holds more items than the lines together. */
  lemma {:induction false} LineWithinTotal(lines: seq<CartLine>, k: nat)
    requires k < |lines|
    ensures lines[k].quantity <= TotalItems(lines)
  {
    if k < |lines| - 1 {
      LineWithinTotal(lines[..|lines| - 1], k);
    }
  }

  /** Totals add up over concatenation. */
  lemma {:induction false} TotalItemsAppend(a: seq<CartLine>, b: seq<CartLine>)
    ensures TotalItems(a + b) == TotalItems(a) + TotalItems(b)
    decreases |b|
  {
    if b != [] {
      assert (a + b)[..|a + b| - 1] == a + b[..|b| - 1];
      TotalItemsAppend(a, b[..|b| - 1]);
    } else {
      assert a + b == a;
    }
  }

  lemma {:induction false} TotalPriceAppend(a: seq<CartLine>, b: seq<CartLine>, products: map<ProductId, Product>)
    requires ProductsExist(a, products) && ProductsExist(b, products)
    ensures ProductsExist(a + b, products)
    ensures TotalPrice(a + b, products) == TotalPrice(a, products) + TotalPrice(b, products)
    decreases |b|
  {
    if b != [] {
      assert (a + b)[..|a + b| - 1] == a + b[..|b| - 1];
      TotalPriceAppend(a, b[..|b| - 1], products);
    } else {
      assert a + b == a;
    }
  }

  /** Re-pricing a product moves the cart total: subtotals follow the catalog, not a snapshot. */
  lemma {:induction false} TotalPriceFollowsCatalog(lines: seq<CartLine>, products: map<ProductId, Product>, p: ProductId, price: int)
    requires ProductsExist(lines, products) && p in products
    ensures ProductsExist(lines, products[p := products[p].(price := price)])
    ensures TotalPrice(lines, products[p := products[p].(price := price)]) ==
      TotalPrice(lines, products) + (price - products[p].price) * TotalItems(Only(lines, p))
  {
    var repriced := products[p := products[p].(price := price)];
    if lines != [] {
      var init := lines[..|lines| - 1];
      var last := lines[|lines| - 1];
      var d := price - products[p].price;
      TotalPriceFollowsCatalog(init, products, p, price);
      var tail := if last.product == p then [last] else [];
      assert Only(lines, p) == Only(init, p) + tail;
      TotalItemsAppend(Only(init, p), tail);
      if last.product == p {
        assert TotalItems(tail) == last.quantity by { assert tail[..0] == []; }
        Repriced(last.quantity, products[p].price, price, TotalItems(Only(init, p)));
      } else {
        assert TotalItems(tail) == 0;
      }
    }
  }

  /** The arithmetic step of TotalPriceFollowsCatalog for a line of the re-priced product. */
  lemma Repriced(q: nat, was: int, price: int, before: nat)
    ensures q * price == q * was + (price - was) * q
    ensures (price - was) * (before + q) == (price - was) * before + (price - was) * q
  {
  }

  /** The lines of one product. */
  function Only(lines: seq<CartLine>, p: ProductId): (r: seq<CartLine>)
    ensures forall l :: l in r <==> l in lines && l.product == p
  {
    if lines == [] then []
    else Only(lines[..|lines| - 1], p) + (if lines[|lines| - 1].product == p then [lines[|lines| - 1]] else [])
  }

  lemma {:induction false} LinesOfAppend(a: seq<CartLine>, b: seq<CartLine>, cart: CartKey)
    ensures LinesOf(a + b, cart) == LinesOf(a, cart) + LinesOf(b, cart)
    decreases |b|
  {
    if b == [] {
      assert a + b == a;
    } else {
      assert (a + b)[..|a + b| - 1] == a + b[..|b| - 1];
      LinesOfAppend(a, b[..|b| - 1], cart);
    }
  }

  /** The items of a cart around one line: what precedes it, the line itself, what follows. */
  lemma LinesOfAround(lines: seq<CartLine>, i: nat, cart: CartKey)
    requires i < |lines|
    ensures LinesOf(lines, cart) ==
      LinesOf(lines[..i], cart) + LinesOf([lines[i]], cart) + LinesOf(lines[i + 1..], cart)
  {
    assert lines == lines[..i] + [lines[i]] + lines[i + 1..];
    LinesOfAppend(lines[..i] + [lines[i]], lines[i + 1..], cart);
    LinesOfAppend(lines[..i], [lines[i]], cart);
  }

  /** The table without the line at index i (a delete by primary key). */
  function RemoveAt(lines: seq<CartLine>, i: nat): (r: seq<CartLine>)
    requires i < |lines|
    ensures |r| == |lines| - 1
    ensures forall l :: l in r ==> l in lines
  {
    lines[..i] + lines[i + 1..]
  }

  lemma LinesOfSingle(l: CartLine, cart: CartKey)
    ensures LinesOf([l], cart) == (if l.cart == cart then [l] else [])
    ensures TotalItems([l]) == l.quantity
  {
    assert [l][..0] == [];
  }

  /** Deleting one line takes its quantity out of its cart's item count and leaves other carts alone. */
  lemma RemoveAtCounts(lines: seq<CartLine>, i: nat, cart: CartKey)
    requires i < |lines|
    ensures lines[i].cart == cart ==> TotalItems(LinesOf(RemoveAt(lines, i), cart)) == TotalItems(LinesOf(lines, cart)) - lines[i].quantity
    ensures lines[i].cart != cart ==> LinesOf(RemoveAt(lines, i), cart) == LinesOf(lines, cart)
  {
    if lines[i].cart == cart {
      RemoveOwnLine(lines, i);
    } else {
      RemoveOtherLine(lines, i, cart);
    }
  }

  lemma RemoveOwnLine(lines: seq<CartLine>, i: nat)
    requires i < |lines|
    ensures var cart := lines[i].cart;
      TotalItems(LinesOf(RemoveAt(lines, i), cart)) == TotalItems(LinesOf(lines, cart)) - lines[i].quantity
  {
    var cart := lines[i].cart;
    LinesOfRemoveAt(lines, i, cart);
    LinesOfAround(lines, i, cart);
    LinesOfSingle(lines[i], cart);
    TotalItemsAround(LinesOf(lines[..i], cart), [lines[i]], LinesOf(lines[i + 1..], cart));
  }

  lemma RemoveOtherLine(lines: seq<CartLine>, i: nat, cart: CartKey)
    requires i < |lines| && lines[i].cart != cart
    ensures LinesOf(RemoveAt(lines, i), cart) == LinesOf(lines, cart)
  {
    var before, after := LinesOf(lines[..i], cart), LinesOf(lines[i + 1..], cart);
    calc {
      LinesOf(lines, cart);
    == { LinesOfAround(lines, i, cart); }
      before + LinesOf([lines[i]], cart) + after;
    == { LinesOfSingle(lines[i], cart); }
      before + [] + after;
    == { assert before + [] == before; }
      before + after;
    == { LinesOfRemoveAt(lines, i, cart); }
      LinesOf(RemoveAt(lines, i), cart);
    }
  }

  lemma LinesOfRemoveAt(lines: seq<CartLine>, i: nat, cart: CartKey)
    requires i < |lines|
    ensures LinesOf(RemoveAt(lines, i), cart) == LinesOf(lines[..i], cart) + LinesOf(lines[i + 1..], cart)
  {
    LinesOfAppend(lines[..i], lines[i + 1..], cart);
  }

  lemma TotalItemsAround(a: seq<CartLine>, m: seq<CartLine>, b: seq<CartLine>)
    ensures TotalItems(a + m + b) == TotalItems(a + b) + TotalItems(m)
  {
    TotalItemsAppend(a + m, b);
    TotalItemsAppend(a, m);
    TotalItemsAppend(a, b);
  }

  /** Replacing the line at index i by a line of the same cart moves the cart's count by the difference. */
  lemma ReplaceAtCounts(lines: seq<CartLine>, i: nat, x: CartLine, cart: CartKey)
    requires i < |lines| && x.cart == lines[i].cart
    ensures lines[i].cart == cart ==>
      TotalItems(LinesOf(lines[i := x], cart)) == TotalItems(LinesOf(lines, cart)) - lines[i].quantity + x.quantity
    ensures lines[i].cart != cart ==> LinesOf(lines[i := x], cart) == LinesOf(lines, cart)
  {
    var updated := lines[i := x];
    assert updated[..i] == lines[..i] && updated[i + 1..] == lines[i + 1..];
    var before, after := LinesOf(lines[..i], cart), LinesOf(lines[i + 1..], cart);
    LinesOfAround(lines, i, cart);
    LinesOfAround(updated, i, cart);
    LinesOfSingle(lines[i], cart);
    LinesOfSingle(x, cart);
    if lines[i].cart == cart {
      TotalItemsAppend(before + [lines[i]], after);
      TotalItemsAppend(before, [lines[i]]);
      TotalItemsAppend(before + [x], after);
      TotalItemsAppend(before, [x]);
    }
  }

  /** Every line of the table except those of one cart (cart.items.all().delete()). */
  function DropCart(lines: seq<CartLine>, cart: CartKey): (r: seq<CartLine>)
    ensures |r| <= |lines|
    ensures forall l :: l in r <==> l in lines && l.cart != cart
  {
    if lines == [] then []
    else DropCart(lines[..|lines| - 1], cart) + (if lines[|lines| - 1].cart != cart then [lines[|lines| - 1]] else [])
  }

  /** After the delete the cart has no lines. */
  lemma {:induction false} DropCartEmpties(lines: seq<CartLine>, cart: CartKey)
    ensures LinesOf(DropCart(lines, cart), cart) == []
  {
    if lines != [] {
      var init := lines[..|lines| - 1];
      var last := lines[|lines| - 1];
      DropCartEmpties(init, cart);
      assert lines[..|lines| - 1] == init;
      if last.cart != cart {
        assert DropCart(lines, cart) == DropCart(init, cart) + [last];
        LinesOfAppend(DropCart(init, cart), [last], cart);
        LinesOfSingle(last, cart);
      } else {
        assert DropCart(lines, cart) == DropCart(init, cart);
      }
    }
  }

  /** The delete leaves every other cart's lines as they were. */
  lemma {:induction false} DropCartKeepsOthers(lines: seq<CartLine>, cart: CartKey, other: CartKey)
    requires other != cart
    ensures LinesOf(DropCart(lines, cart), other) == LinesOf(lines, other)
  {
    if lines != [] {
      var init := lines[..|lines| - 1];
      var last := lines[|lines| - 1];
      DropCartKeepsOthers(init, cart, other);
      assert lines[..|lines| - 1] == init;
      LinesOfSingle(last, other);
      assert LinesOf(lines, other) == LinesOf(init, other) + LinesOf([last], other);
      if last.cart != cart {
        assert DropCart(lines, cart) == DropCart(init, cart) + [last];
        LinesOfAppend(DropCart(init, cart), [last], other);
      } else {
        assert DropCart(lines, cart) == DropCart(init, cart);
      }
    }
  }

  /** A second delete of the same cart changes nothing. */
  lemma {:induction false} DropCartIdempotent(lines: seq<CartLine>, cart: CartKey)
    ensures DropCart(DropCart(lines, cart), cart) == DropCart(lines, cart)
  {
    if lines != [] {
      var init := lines[..|lines| - 1];
      var last := lines[|lines| - 1];
      DropCartIdempotent(init, cart);
      assert lines[..|lines| - 1] == init;
      if last.cart != cart {
        var r := DropCart(init, cart) + [last];
        assert DropCart(lines, cart) == r;
        assert r[..|r| - 1] == DropCart(init, cart);
        assert r[|r| - 1] == last;
      } else {
        assert DropCart(lines, cart) == DropCart(init, cart);
      }
    }
  }

  /** Deleting lines keeps ids and keys distinct. */
  lemma {:induction false} DropCartDistinct(lines: seq<CartLine>, cart: CartKey)
    requires LinesDistinct(lines)
    ensures LinesDistinct(DropCart(lines, cart))
  {
    if lines != [] {
      var init := lines[..|lines| - 1];
      var last := lines[|lines| - 1];
      assert LinesDistinct(init);
      DropCartDistinct(init, cart);
      if last.cart != cart {
        var r := DropCart(lines, cart);
        assert r == DropCart(init, cart) + [last];
        forall i | 0 <= i < |r| - 1
          ensures r[i].id != last.id && Key(r[i]) != Key(last)
        {
          assert r[i] in DropCart(init, cart);
          var k :| 0 <= k < |init| && init[k] == r[i];
          assert lines[k] == r[i];
        }
      }
    }
  }

  lemma RemoveAtDistinct(lines: seq<CartLine>, i: nat)
    requires LinesDistinct(lines) && i < |lines|
    ensures LinesDistinct(RemoveAt(lines, i))
  {
    var r := RemoveAt(lines, i);
    forall a, b | 0 <= a < b < |r|
      ensures r[a].id != r[b].id && Key(r[a]) != Key(r[b])
    {
      var a' := if a < i then a else a + 1;
      var b' := if b < i then b else b + 1;
      assert r[a] == lines[a'] && r[b] == lines[b'];
    }
  }
}
