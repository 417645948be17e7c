/**
 * orders/views.py: CreateOrderView.post, the authenticated checkout, together with the pieces the
 * other two checkouts (orders/guest_views.py, payments/views.py) share with it: the stock check,
 * the price snapshot into order items, and the two ways the stock is decremented.
 */
module OrderViews {
  import opened Wrappers
  import opened Http
  import opened UserModels
  import opened ProductModels
  import opened CartModels
  import opened OrderModels
  import opened Store

  /** Every line's quantity is within its product's stock (checked line by line, not summed per product). */
  predicate StockCovers(lines: seq<CartLine>, products: map<ProductId, Product>)
    requires ProductsExist(lines, products)
  {
    forall i :: 0 <= i < |lines| ==> lines[i].quantity <= products[lines[i].product].stock
  }

  /** The stock-validation loop: the first line over its product's stock stops the checkout. */
  method CheckStock(lines: seq<CartLine>, products: map<ProductId, Product>) returns (ok: bool)
    requires ProductsExist(lines, products)
    ensures ok <==> StockCovers(lines, products)
  {
    for i := 0 to |lines|
      invariant forall j :: 0 <= j < i ==> lines[j].quantity <= products[lines[j].product].stock
    {
      if lines[i].quantity > products[lines[i].product].stock {
        return false;
      }
    }
    return true;
  }

  /** The order items made from cart lines: same product, quantity and format, the price copied from the product. */
  function Snapshot(order: OrderId, lines: seq<CartLine>, products: map<ProductId, Product>): (r: seq<OrderItem>)
    requires ProductsExist(lines, products)
    ensures |r| == |lines|
    ensures forall k :: 0 <= k < |lines| ==>
      r[k] == OrderItem(order, lines[k].product, lines[k].quantity, products[lines[k].product].price, lines[k].format)
  {
    seq(|lines|, k requires 0 <= k < |lines| =>
      OrderItem(order, lines[k].product, lines[k].quantity, products[lines[k].product].price, lines[k].format))
  }

  /** The order's items are worth what the cart was: the snapshot total equals Cart.total_price. */
  lemma {:induction false} SnapshotTotal(order: OrderId, lines: seq<CartLine>, products: map<ProductId, Product>)
    requires ProductsExist(lines, products)
    ensures ItemsTotal(Snapshot(order, lines, products)) == TotalPrice(lines, products)
  {
    if lines != [] {
      var init := lines[..|lines| - 1];
      var items := Snapshot(order, lines, products);
      assert items[..|items| - 1] == Snapshot(order, init, products);
      SnapshotTotal(order, init, products);
    }
  }

  /** The snapshot keeps its prices: re-pricing the catalog afterwards does not change the items' total. */
  lemma SnapshotIgnoresLaterPrices(order: OrderId, lines: seq<CartLine>, products: map<ProductId, Product>, p: ProductId, price: int)
    requires ProductsExist(lines, products) && p in products
    ensures ItemsTotal(Snapshot(order, lines, products)) ==
      TotalPrice(lines, products[p := products[p].(price := price)]) - (price - products[p].price) * TotalItems(Only(lines, p))
  {
    SnapshotTotal(order, lines, products);
    TotalPriceFollowsCatalog(lines, products, p, price);
  }

  /** `product.stock -= quantity` on one product row. */
  function Decremented(p: Product, quantity: nat): (r: Product)
    ensures r.stock == p.stock - quantity && r.(stock := p.stock) == p
  {
    p.(stock := p.stock - quantity)
  }

  /**
   * The stock writes of the authenticated and payment checkouts: each line saves its own copy of
   * the product, read before any line was written, so a product on several lines keeps only the
   * last line's decrement.
   */
  function StaleDecrement(orig: map<ProductId, Product>, lines: seq<CartLine>): (r: map<ProductId, Product>)
    requires ProductsExist(lines, orig)
    ensures r.Keys == orig.Keys
  {
    if lines == [] then orig
    else
      var last := lines[|lines| - 1];
      StaleDecrement(orig, lines[..|lines| - 1])[last.product := Decremented(orig[last.product], last.quantity)]
  }

  /** The stock writes of the guest checkout: each line re-reads the product, so decrements add up. */
  function Accumulated(orig: map<ProductId, Product>, lines: seq<CartLine>): (r: map<ProductId, Product>)
    requires ProductsExist(lines, orig)
    ensures r.Keys == orig.Keys
  {
    if lines == [] then orig
    else
      var last := lines[|lines| - 1];
      var cur := Accumulated(orig, lines[..|lines| - 1]);
      cur[last.product := Decremented(cur[last.product], last.quantity)]
  }

  /** Under the stale writes a product's stock drops by the quantity of its last line, or not at all. */
  lemma {:induction false} StaleLastLineWins(orig: map<ProductId, Product>, lines: seq<CartLine>, p: ProductId)
    requires ProductsExist(lines, orig) && p in orig
    ensures Only(lines, p) == [] ==> StaleDecrement(orig, lines)[p] == orig[p]
    ensures Only(lines, p) != [] ==>
      StaleDecrement(orig, lines)[p] == Decremented(orig[p], Only(lines, p)[|Only(lines, p)| - 1].quantity)
  {
    if lines != [] {
      StaleLastLineWins(orig, lines[..|lines| - 1], p);
    }
  }

  /** Under the re-reading writes a product's stock drops by the sum of its lines' quantities. */
  lemma {:induction false} AccumulatedStock(orig: map<ProductId, Product>, lines: seq<CartLine>, p: ProductId)
    requires ProductsExist(lines, orig) && p in orig
    ensures Accumulated(orig, lines)[p] == Decremented(orig[p], TotalItems(Only(lines, p)))
  {
    if lines != [] {
      var init, last := lines[..|lines| - 1], lines[|lines| - 1];
      AccumulatedStock(orig, init, p);
      var tail := if last.product == p then [last] else [];
      assert Only(lines, p) == Only(init, p) + tail;
      TotalItemsAppend(Only(init, p), tail);
      if last.product == p {
        LinesOfSingle(last, last.cart);
      }
    }
  }

  /** A product on exactly one line loses exactly that line's quantity. */
  lemma OneLineDecrement(orig: map<ProductId, Product>, lines: seq<CartLine>, p: ProductId)
    requires ProductsExist(lines, orig) && p in orig && |Only(lines, p)| == 1
    ensures StaleDecrement(orig, lines)[p].stock == orig[p].stock - Only(lines, p)[0].quantity
    ensures Accumulated(orig, lines)[p].stock == orig[p].stock - Only(lines, p)[0].quantity
  {
    StaleLastLineWins(orig, lines, p);
    AccumulatedStock(orig, lines, p);
    LinesOfSingle(Only(lines, p)[0], Only(lines, p)[0].cart);
    assert Only(lines, p) == [Only(lines, p)[0]];
  }

  lemma {:induction false} NoLineOnly(lines: seq<CartLine>, p: ProductId)
    requires forall l :: l in lines ==> l.product != p
    ensures Only(lines, p) == []
  {
    if lines != [] {
      NoLineOnly(lines[..|lines| - 1], p);
    }
  }

  /** No product on two lines (a cart without the same book in both formats). */
  predicate OneLinePerProduct(lines: seq<CartLine>) {
    forall i, j :: 0 <= i < j < |lines| ==> lines[i].product != lines[j].product
  }

  lemma {:induction false} OnlyOfOneLinePerProduct(lines: seq<CartLine>, p: ProductId)
    requires OneLinePerProduct(lines)
    ensures |Only(lines, p)| <= 1
  {
    if lines != [] {
      var init, last := lines[..|lines| - 1], lines[|lines| - 1];
      OnlyOfOneLinePerProduct(init, p);
      if last.product == p {
        forall l | l in init ensures l.product != p {
          var k :| 0 <= k < |init| && init[k] == l;
          assert lines[k] == l;
        }
        NoLineOnly(init, p);
      }
    }
  }

  /** When no product is on two lines, the stale and the re-reading writes leave the same catalog. */
  lemma DecrementsAgree(orig: map<ProductId, Product>, lines: seq<CartLine>)
    requires ProductsExist(lines, orig) && OneLinePerProduct(lines)
    ensures StaleDecrement(orig, lines) == Accumulated(orig, lines)
  {
    forall p | p in orig ensures StaleDecrement(orig, lines)[p] == Accumulated(orig, lines)[p] {
      OnlyOfOneLinePerProduct(lines, p);
      StaleLastLineWins(orig, lines, p);
      AccumulatedStock(orig, lines, p);
      if |Only(lines, p)| == 1 {
        LinesOfSingle(Only(lines, p)[0], Only(lines, p)[0].cart);
        assert Only(lines, p) == [Only(lines, p)[0]];
      }
    }
  }

  /** request.user.addresses.filter(is_default=True).first(): the newest default address of the user. */
  function DefaultAddress(addresses: seq<Address>, user: UserId): (r: Option<AddressId>)
    ensures r.Some? ==> exists a :: a in addresses && a.id == r.value && a.user == user && a.isDefault
    ensures r.None? ==> forall a :: a in addresses ==> !(a.user == user && a.isDefault)
  {
    if addresses == [] then None
    else
      var a := addresses[|addresses| - 1];
      if a.user == user && a.isDefault then Some(a.id)
      else
        assert forall b :: b in addresses ==> b in addresses[..|addresses| - 1] || b == a;
        DefaultAddress(addresses[..|addresses| - 1], user)
  }

  /** With at most one default per user, the order gets that user's default address whenever there is one. */
  lemma DefaultAddressIsTheDefault(addresses: seq<Address>, user: UserId, a: Address)
    requires OneDefaultPerUser(addresses) && a in addresses && a.user == user && a.isDefault
    ensures DefaultAddress(addresses, user) == Some(a.id)
  {
    var r := DefaultAddress(addresses, user);
    var b :| b in addresses && b.id == r.value && b.user == user && b.isDefault;
    var i :| 0 <= i < |addresses| && addresses[i] == a;
    var j :| 0 <= j < |addresses| && addresses[j] == b;
  }

  /** One more line: one more snapshot item. */
  lemma SnapshotStep(id: OrderId, lines: seq<CartLine>, products: map<ProductId, Product>, k: nat)
    requires ProductsExist(lines, products) && k < |lines|
    ensures Snapshot(id, lines[..k + 1], products) == Snapshot(id, lines[..k], products) + [Snapshot(id, lines, products)[k]]
  {
    assert lines[..k + 1][..k] == lines[..k];
  }

  /** One more line: one more stale write. */
  lemma StaleStep(orig: map<ProductId, Product>, lines: seq<CartLine>, k: nat)
    requires ProductsExist(lines, orig) && k < |lines|
    ensures StaleDecrement(orig, lines[..k + 1]) ==
      StaleDecrement(orig, lines[..k])[lines[k].product := Decremented(orig[lines[k].product], lines[k].quantity)]
  {
    assert lines[..k + 1][..k] == lines[..k];
  }

  /** One more line: one more re-reading write, starting from the stock the earlier lines left. */
  lemma AccumulatedStep(orig: map<ProductId, Product>, lines: seq<CartLine>, k: nat)
    requires ProductsExist(lines, orig) && k < |lines|
    ensures lines[k].product in Accumulated(orig, lines[..k])
    ensures var cur := Accumulated(orig, lines[..k]);
      Accumulated(orig, lines[..k + 1]) == cur[lines[k].product := Decremented(cur[lines[k].product], lines[k].quantity)] &&
      cur[lines[k].product].price == orig[lines[k].product].price
  {
    assert lines[..k + 1][..k] == lines[..k];
    AccumulatedStock(orig, lines[..k], lines[k].product);
  }

  /**
   * The item loop of the authenticated and payment checkouts: one item per line with the price
   * copied, and each line's own product copy saved with its quantity taken off.
   */
  method PlaceItemsStale(db: Database, id: OrderId, lines: seq<CartLine>)
    requires db.Valid() && id in db.orders && ProductsExist(lines, db.products)
    modifies db`items, db`products
    ensures db.Valid()
    ensures db.items == old(db.items) + Snapshot(id, lines, old(db.products))
    ensures db.products == StaleDecrement(old(db.products), lines)
  {
    ghost var before := db.items;
    var orig := db.products;
    WriteItemsStale(db, id, lines);
    SnapshotRefers(id, lines, orig, db.orders);
    NewItemsKeepOrders(db.orders, db.nextOrderId, before, orig, db.deliveries, db.payments, Snapshot(id, lines, orig));
    SameCatalogKeys(orig, db.products, db.lines, db.nextLineId, db.userCarts, db.guestCarts,
                    db.orders, db.nextOrderId, db.items, db.deliveries, db.payments);
  }

  /** The loop itself: per line, an item at the price read before the loop, then that copy saved with less stock. */
  method WriteItemsStale(db: Database, id: OrderId, lines: seq<CartLine>)
    requires ProductsExist(lines, db.products)
    modifies db`items, db`products
    ensures db.items == old(db.items) + Snapshot(id, lines, old(db.products))
    ensures db.products == StaleDecrement(old(db.products), lines)
  {
    ghost var before := db.items;
    var orig := db.products;
    for k := 0 to |lines|
      invariant db.items == before + Snapshot(id, lines[..k], orig)
      invariant db.products == StaleDecrement(orig, lines[..k])
    {
      var l := lines[k];
      SnapshotStep(id, lines, orig, k);
      StaleStep(orig, lines, k);
      db.items := db.items + [OrderItem(id, l.product, l.quantity, orig[l.product].price, l.format)];
      db.products := db.products[l.product := Decremented(orig[l.product], l.quantity)];
    }
    assert lines[..|lines|] == lines;
  }

  /** The snapshot items refer to their order and to existing products. */
  lemma SnapshotRefers(id: OrderId, lines: seq<CartLine>, products: map<ProductId, Product>, orders: map<OrderId, Order>)
    requires ProductsExist(lines, products) && id in orders
    ensures forall i :: i in Snapshot(id, lines, products) ==> i.order in orders && i.product in products
  {
    forall i | i in Snapshot(id, lines, products) ensures i.order in orders && i.product in products {
      var k :| 0 <= k < |lines| && Snapshot(id, lines, products)[k] == i;
    }
  }

  /**
   * Order.objects.create for a user plus the item loop, shared by the authenticated and payment
   * checkouts: a pending order (total at current prices) under the next key, one item per line,
   * and the stale stock writes.
   */
  method OpenOrder(db: Database, user: UserId, cart: seq<CartLine>, address: Option<AddressId>) returns (id: OrderId)
    requires db.Valid() && ProductsExist(cart, db.products)
    modifies db`orders, db`nextOrderId, db`items, db`products
    ensures db.Valid()
    ensures id == old(db.nextOrderId) && id !in old(db.orders) && db.nextOrderId == id + 1
    ensures db.orders == old(db.orders)[id := NewUserOrder(user, TotalPrice(cart, old(db.products)), address)]
    ensures db.items == old(db.items) + Snapshot(id, cart, old(db.products))
    ensures db.products == StaleDecrement(old(db.products), cart)
  {
    var order := NewUserOrder(user, TotalPrice(cart, db.products), address);
    id := db.nextOrderId;
    NewOrderKeepsOrders(db.orders, id, db.items, db.products, db.deliveries, db.payments, order);
    db.orders := db.orders[id := order];
    db.nextOrderId := id + 1;
    PlaceItemsStale(db, id, cart);
  }

  /**
   * The write half of CreateOrderView.post once the cart has passed its checks: the order with the
   * user's default address, and the cart's lines deleted.
   */
  method PlaceUserOrder(db: Database, user: UserId, cart: seq<CartLine>) returns (id: OrderId)
    requires db.Valid() && cart == LinesOf(db.lines, UserCart(user)) && ProductsExist(cart, db.products)
    modifies db`orders, db`nextOrderId, db`items, db`products, db`lines
    ensures db.Valid()
    ensures id == old(db.nextOrderId) && id !in old(db.orders) && db.nextOrderId == id + 1
    ensures db.orders == old(db.orders)[id := NewUserOrder(user, TotalPrice(cart, old(db.products)), DefaultAddress(old(db.addresses), user))]
    ensures db.items == old(db.items) + Snapshot(id, cart, old(db.products))
    ensures db.products == StaleDecrement(old(db.products), cart)
    ensures db.lines == DropCart(old(db.lines), UserCart(user))
  {
    id := OpenOrder(db, user, cart, DefaultAddress(db.addresses, user));
    DropCartKeepsTable(db.lines, db.nextLineId, db.products, db.userCarts, db.guestCarts, UserCart(user));
    db.lines := DropCart(db.lines, UserCart(user));
  }

  /** The refusals the authenticated checkouts share, in their order: no cart or no lines, then stock. */
  function CartRefusal(hasCart: bool, cart: seq<CartLine>, products: map<ProductId, Product>): (r: Option<Reply>)
    requires ProductsExist(cart, products)
    ensures r.None? <==> hasCart && cart != [] && StockCovers(cart, products)
    ensures !hasCart || cart == [] ==> r == Some(BadRequest(CartEmpty))
    ensures hasCart && cart != [] && !StockCovers(cart, products) ==> r == Some(BadRequest(OutOfStock))
  {
    if !hasCart || cart == [] then Some(BadRequest(CartEmpty))
    else if !StockCovers(cart, products) then Some(BadRequest(OutOfStock))
    else None
  }

  /**
   * CreateOrderView.post (atomic): no cart or an empty cart is 400, a line over its product's
   * stock is 400, and in those cases nothing is written; otherwise PlaceUserOrder and 201.
   */
  method CreateOrderView(db: Database, user: UserId) returns (reply: Reply)
    requires db.Valid()
    modifies db`orders, db`nextOrderId, db`items, db`products, db`lines
    ensures db.Valid()
    ensures var cart := LinesOf(old(db.lines), UserCart(user));
      ProductsExist(cart, old(db.products)) &&
      if user !in old(db.userCarts) || cart == [] || !StockCovers(cart, old(db.products)) then
        reply == BadRequest(if user !in old(db.userCarts) || cart == [] then CartEmpty else OutOfStock) &&
        db.orders == old(db.orders) && db.nextOrderId == old(db.nextOrderId) && db.items == old(db.items) &&
        db.products == old(db.products) && db.lines == old(db.lines)
      else
        var id := old(db.nextOrderId);
        reply == Created && id !in old(db.orders) && db.nextOrderId == id + 1 &&
        db.orders == old(db.orders)[id := NewUserOrder(user, TotalPrice(cart, old(db.products)), DefaultAddress(old(db.addresses), user))] &&
        db.items == old(db.items) + Snapshot(id, cart, old(db.products)) &&
        db.products == StaleDecrement(old(db.products), cart) &&
        db.lines == DropCart(old(db.lines), UserCart(user))
  {
    CartProductsExist(db.lines, db.nextLineId, db.products, db.userCarts, db.guestCarts, UserCart(user));
    var cart := LinesOf(db.lines, UserCart(user));
    if user !in db.userCarts || cart == [] {
      return BadRequest(CartEmpty);
    }
    var ok := CheckStock(cart, db.products);
    if !ok {
      return BadRequest(OutOfStock);
    }
    var id := PlaceUserOrder(db, user, cart);
    reply := Created;
  }

  /** OrderListView.get_queryset: exactly the orders placed by the requesting user. */
  function OrderList(orders: map<OrderId, Order>, user: UserId): (r: set<OrderId>)
    ensures forall k :: k in r <==> k in orders && orders[k].user == Some(user)
  {
    set k | k in orders && orders[k].user == Some(user)
  }

  /** OrderDetailView: an order outside the user's own ones, missing or not, is 404. */
  function OrderDetail(orders: map<OrderId, Order>, user: UserId, id: OrderId): (r: Reply)
    ensures r == Ok <==> id in OrderList(orders, user)
    ensures r != Ok ==> r == NotFound
  {
    if id in orders && orders[id].user == Some(user) then Ok else NotFound
  }
}
