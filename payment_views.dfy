/**
 * payments/views.py: CreateCheckoutSessionView.post (an order plus a payment-provider checkout
 * session from the user's cart) and StripeWebhookView.post (the provider's completion event).
 * The provider is not modelled: its answers are parameters.
 */
module PaymentViews {
  import opened Wrappers
  import opened Http
  import opened UserModels
  import opened ProductModels
  import opened CartModels
  import opened OrderModels
  import opened PaymentModels
  import opened Store
  import opened OrderViews

  /** One line item sent to the provider: unit amount in grosze (price * 100 of a two-place price) and quantity. */
  datatype ProviderLine = ProviderLine(unitAmount: int, quantity: nat)

  /** The amount the provider charges for a list of line items. */
  function ChargeTotal(items: seq<ProviderLine>): int {
    if items == [] then 0 else ChargeTotal(items[..|items| - 1]) + items[|items| - 1].unitAmount * items[|items| - 1].quantity
  }

  /** The line-item loop: one provider line per cart line, at the product's price and the line's quantity. */
  method BuildLineItems(cart: seq<CartLine>, products: map<ProductId, Product>) returns (items: seq<ProviderLine>)
    requires ProductsExist(cart, products)
    ensures |items| == |cart|
    ensures forall k :: 0 <= k < |cart| ==>
      items[k] == ProviderLine(products[cart[k].product].price, cart[k].quantity)
    ensures ChargeTotal(items) == TotalPrice(cart, products)
  {
    items := [];
    for k := 0 to |cart|
      invariant |items| == k
      invariant forall j :: 0 <= j < k ==> items[j] == ProviderLine(products[cart[j].product].price, cart[j].quantity)
      invariant ChargeTotal(items) == TotalPrice(cart[..k], products)
    {
      assert cart[..k + 1][..k] == cart[..k];
      var line := ProviderLine(products[cart[k].product].price, cart[k].quantity);
      assert (items + [line])[..k] == items;
      items := items + [line];
    }
    assert cart[..|cart|] == cart;
  }

  /** What stripe.checkout.Session.create answered: a session with its id, or a provider error. */
  datatype ProviderOutcome = SessionCreated(sessionId: string) | ProviderError

  /** Deleting an order with its items (the cascade), as the provider-error branch does. */
  method DeleteOrder(db: Database, id: OrderId)
    requires db.Valid() && id !in db.deliveries && forall p :: p in db.payments ==> p.order != id
    modifies db`orders, db`items
    ensures db.Valid()
    ensures db.orders == old(db.orders) - {id} && db.items == DropItemsOf(old(db.items), id)
  {
    DeleteOrderKeepsOrders(db.orders, db.nextOrderId, db.items, db.products, db.deliveries, db.payments, id);
    db.orders := db.orders - {id};
    db.items := DropItemsOf(db.items, id);
  }

  /** Opening an order and deleting it again leaves the order tables as they were (the key stays used). */
  lemma OpenThenDelete(orders: map<OrderId, Order>, items: seq<OrderItem>, id: OrderId, o: Order, more: seq<OrderItem>)
    requires id !in orders && forall i :: i in items ==> i.order in orders
    requires forall k :: 0 <= k < |more| ==> more[k].order == id
    ensures orders[id := o] - {id} == orders
    ensures DropItemsOf(items + more, id) == items
  {
    DropItemsOfAppend(items, more, id);
    assert forall k :: 0 <= k < |items| ==> items[k] in items;
    DropItemsOfAbsent(items, id);
    DropItemsOfOwn(more, id);
  }

  /** Payment.objects.create(..., status='pending'). */
  method RecordPayment(db: Database, id: OrderId, sessionId: string, amount: int)
    requires db.Valid() && id in db.orders && db.orders[id].user.Some?
    requires forall p :: p in db.payments ==> p.order != id && p.sessionId != sessionId
    modifies db`payments
    ensures db.Valid()
    ensures db.payments == old(db.payments) + [Payment(id, sessionId, amount, PaymentPending)]
  {
    NewPaymentKeepsOrders(db.orders, db.nextOrderId, db.items, db.products, db.deliveries, db.payments,
                          Payment(id, sessionId, amount, PaymentPending));
    db.payments := db.payments + [Payment(id, sessionId, amount, PaymentPending)];
  }

  /**
   * CreateCheckoutSessionView.post after the cart has passed its checks: an order (no delivery
   * address) with its items is created and the stock taken off, and the line items are sent to the
   * provider. On a provider error the order and its items are deleted, but the stock stays taken
   * off and the cart stays full (400). On a session id some payment already has, creating the
   * payment fails and the whole transaction is rolled back (500). Otherwise a pending payment of
   * the order's total is recorded and the cart's lines are deleted (200).
   */
  method OpenSession(db: Database, user: UserId, cart: seq<CartLine>, provider: ProviderOutcome)
    returns (reply: Reply, sent: seq<ProviderLine>)
    requires db.Valid() && cart == LinesOf(db.lines, UserCart(user)) && ProductsExist(cart, db.products)
    modifies db`orders, db`nextOrderId, db`items, db`products, db`payments, db`lines
    ensures db.Valid()
    ensures ChargeTotal(sent) == TotalPrice(cart, old(db.products))
    ensures provider.SessionCreated? && FindSession(old(db.payments), provider.sessionId).Some? ==>
      reply == InternalError &&
      db.orders == old(db.orders) && db.nextOrderId == old(db.nextOrderId) && db.items == old(db.items) &&
      db.products == old(db.products) && db.payments == old(db.payments) && db.lines == old(db.lines)
    ensures provider.ProviderError? ==>
      reply == BadRequest(ProviderFailed) &&
      db.orders == old(db.orders) && db.nextOrderId == old(db.nextOrderId) + 1 && db.items == old(db.items) &&
      db.products == StaleDecrement(old(db.products), cart) && db.payments == old(db.payments) && db.lines == old(db.lines)
    ensures provider.SessionCreated? && FindSession(old(db.payments), provider.sessionId).None? ==>
      var id := old(db.nextOrderId);
      var total := TotalPrice(cart, old(db.products));
      reply == Ok && id !in old(db.orders) && db.nextOrderId == id + 1 &&
      db.orders == old(db.orders)[id := NewUserOrder(user, total, None)] &&
      db.items == old(db.items) + Snapshot(id, cart, old(db.products)) &&
      db.products == StaleDecrement(old(db.products), cart) &&
      db.payments == old(db.payments) + [Payment(id, provider.sessionId, total, PaymentPending)] &&
      db.lines == DropCart(old(db.lines), UserCart(user))
  {
    match provider
    case ProviderError =>
      sent := AbandonOrder(db, user, cart);
      reply := BadRequest(ProviderFailed);
    case SessionCreated(sessionId) =>
      if FindSession(db.payments, sessionId).Some? {
        sent := RollBack(db, user, cart);
        reply := InternalError;
      } else {
        sent := RecordSession(db, user, cart, sessionId);
        reply := Ok;
      }
  }

  /** The provider-error branch: the order is created and then deleted with its items; the stock writes stay. */
  method AbandonOrder(db: Database, user: UserId, cart: seq<CartLine>) returns (sent: seq<ProviderLine>)
    requires db.Valid() && ProductsExist(cart, db.products)
    modifies db`orders, db`nextOrderId, db`items, db`products
    ensures db.Valid()
    ensures ChargeTotal(sent) == TotalPrice(cart, old(db.products))
    ensures db.orders == old(db.orders) && db.nextOrderId == old(db.nextOrderId) + 1 && db.items == old(db.items)
    ensures db.products == StaleDecrement(old(db.products), cart)
  {
    var orders0, items0, products0 := db.orders, db.items, db.products;
    var id := OpenOrder(db, user, cart, None);
    sent := BuildLineItems(cart, products0);
    OpenThenDelete(orders0, items0, id, db.orders[id], Snapshot(id, cart, products0));
    DeleteOrder(db, id);
  }

  /** The duplicate-session branch: the payment insert fails and the transaction undoes every write. */
  method RollBack(db: Database, user: UserId, cart: seq<CartLine>) returns (sent: seq<ProviderLine>)
    requires db.Valid() && ProductsExist(cart, db.products)
    modifies db`orders, db`nextOrderId, db`items, db`products
    ensures db.Valid()
    ensures ChargeTotal(sent) == TotalPrice(cart, old(db.products))
    ensures db.orders == old(db.orders) && db.nextOrderId == old(db.nextOrderId)
    ensures db.items == old(db.items) && db.products == old(db.products)
  {
    var orders0, next0, items0, products0 := db.orders, db.nextOrderId, db.items, db.products;
    sent := OpenAndBuild(db, user, cart);
    db.orders, db.nextOrderId, db.items, db.products := orders0, next0, items0, products0;
    assert db.Valid() by {
      assert unchanged(db`companies, db`users, db`nextUserId, db`addresses, db`nextAddressId, db`tokens);
      assert unchanged(db`userCarts, db`guestCarts, db`lines, db`nextLineId, db`deliveries, db`payments);
    }
  }

  /** The writes the duplicate-session branch makes before the payment insert fails. */
  method OpenAndBuild(db: Database, user: UserId, cart: seq<CartLine>) returns (sent: seq<ProviderLine>)
    requires db.Valid() && ProductsExist(cart, db.products)
    modifies db`orders, db`nextOrderId, db`items, db`products
    ensures ChargeTotal(sent) == TotalPrice(cart, old(db.products))
  {
    var products0 := db.products;
    var id := OpenOrder(db, user, cart, None);
    sent := BuildLineItems(cart, products0);
  }

  /** The success branch: the order, a pending payment of its total under the session id, and the cart emptied. */
  method RecordSession(db: Database, user: UserId, cart: seq<CartLine>, sessionId: string) returns (sent: seq<ProviderLine>)
    requires db.Valid() && cart == LinesOf(db.lines, UserCart(user)) && ProductsExist(cart, db.products)
    requires FindSession(db.payments, sessionId).None?
    modifies db`orders, db`nextOrderId, db`items, db`products, db`payments, db`lines
    ensures db.Valid()
    ensures ChargeTotal(sent) == TotalPrice(cart, old(db.products))
    ensures var id := old(db.nextOrderId);
      var total := TotalPrice(cart, old(db.products));
      id !in old(db.orders) && db.nextOrderId == id + 1 &&
      db.orders == old(db.orders)[id := NewUserOrder(user, total, None)] &&
      db.items == old(db.items) + Snapshot(id, cart, old(db.products)) &&
      db.products == StaleDecrement(old(db.products), cart) &&
      db.payments == old(db.payments) + [Payment(id, sessionId, total, PaymentPending)] &&
      db.lines == DropCart(old(db.lines), UserCart(user))
  {
    var products0 := db.products;
    var total := TotalPrice(cart, db.products);
    var id := OpenOrder(db, user, cart, None);
    sent := BuildLineItems(cart, products0);
    RecordPayment(db, id, sessionId, total);
    DropCartKeepsTable(db.lines, db.nextLineId, db.products, db.userCarts, db.guestCarts, UserCart(user));
    db.lines := DropCart(db.lines, UserCart(user));
  }

  /**
   * CreateCheckoutSessionView.post, one transaction: no cart or no lines, or a line over its
   * stock, is 400 with nothing written and nothing sent; otherwise the provider is sent the cart's
   * total and one of the three outcomes of OpenSession follows.
   */
  method CreateCheckoutSession(db: Database, user: UserId, provider: ProviderOutcome)
    returns (reply: Reply, sent: seq<ProviderLine>)
    requires db.Valid()
    modifies db`orders, db`nextOrderId, db`items, db`products, db`payments, db`lines
    ensures db.Valid()
    ensures var cart := LinesOf(old(db.lines), UserCart(user));
      ProductsExist(cart, old(db.products)) &&
      var refusal := CartRefusal(user in old(db.userCarts), cart, old(db.products));
      if refusal.Some? then
        reply == refusal.value && sent == [] &&
        db.orders == old(db.orders) && db.nextOrderId == old(db.nextOrderId) && db.items == old(db.items) &&
        db.products == old(db.products) && db.payments == old(db.payments) && db.lines == old(db.lines)
      else
        ChargeTotal(sent) == TotalPrice(cart, old(db.products)) &&
        (reply == Ok <==> provider.SessionCreated? && FindSession(old(db.payments), provider.sessionId).None?) &&
        (provider.SessionCreated? && FindSession(old(db.payments), provider.sessionId).Some? ==>
          reply == InternalError &&
          db.orders == old(db.orders) && db.nextOrderId == old(db.nextOrderId) && db.items == old(db.items) &&
          db.products == old(db.products) && db.payments == old(db.payments) && db.lines == old(db.lines)) &&
        (provider.ProviderError? ==>
          reply == BadRequest(ProviderFailed) &&
          db.orders == old(db.orders) && db.nextOrderId == old(db.nextOrderId) + 1 && db.items == old(db.items) &&
          db.products == StaleDecrement(old(db.products), cart) && db.payments == old(db.payments) && db.lines == old(db.lines)) &&
        (provider.SessionCreated? && FindSession(old(db.payments), provider.sessionId).None? ==>
          var id := old(db.nextOrderId);
          var total := TotalPrice(cart, old(db.products));
          id !in old(db.orders) && db.nextOrderId == id + 1 &&
          db.orders == old(db.orders)[id := NewUserOrder(user, total, None)] &&
          db.items == old(db.items) + Snapshot(id, cart, old(db.products)) &&
          db.products == StaleDecrement(old(db.products), cart) &&
          db.payments == old(db.payments) + [Payment(id, provider.sessionId, total, PaymentPending)] &&
          db.lines == DropCart(old(db.lines), UserCart(user)))
  {
    CartProductsExist(db.lines, db.nextLineId, db.products, db.userCarts, db.guestCarts, UserCart(user));
    var cart := LinesOf(db.lines, UserCart(user));
    if user !in db.userCarts || cart == [] {
      return BadRequest(CartEmpty), [];
    }
    var ok := CheckStock(cart, db.products);
    if !ok {
      return BadRequest(OutOfStock), [];
    }
    reply, sent := OpenSession(db, user, cart, provider);
  }

  /** What stripe.Webhook.construct_event made of the body and signature: an event, or one of its two errors. */
  datatype Construct = Event(kind: string, sessionId: string) | BadPayload | BadSignature

  const CompletedEvent := "checkout.session.completed"

  /** The payment at index k completed, and its order paid. */
  function CompletePayment(payments: seq<Payment>, k: nat): (r: seq<Payment>)
    requires k < |payments|
    ensures |r| == |payments| && r[k].status == Completed
    ensures forall i :: 0 <= i < |payments| ==> r[i].(status := payments[i].status) == payments[i]
    ensures forall i :: 0 <= i < |payments| && i != k ==> r[i] == payments[i]
  {
    payments[k := payments[k].(status := Completed)]
  }

  function MarkPaid(orders: map<OrderId, Order>, id: OrderId): (r: map<OrderId, Order>)
    requires id in orders
    ensures r.Keys == orders.Keys && IsPaid(r[id])
    ensures r[id].(paymentStatus := orders[id].paymentStatus) == orders[id]
    ensures forall o :: o in orders && o != id ==> r[o] == orders[o]
  {
    orders[id := orders[id].(paymentStatus := Paid)]
  }

  /**
   * StripeWebhookView.post. No or an empty signature header: 400. A body the provider library
   * refuses: 400 for a bad payload, 400 for a bad signature. An event of any other type: 200 and
   * nothing changes. A completion for an unknown session: 404. Otherwise the payment is completed
   * and its order paid (200); the confirmation e-mail is not modelled (its failure is caught).
   */
  method StripeWebhook(db: Database, signature: Option<string>, event: Construct) returns (reply: Reply)
    requires db.Valid()
    modifies db`payments, db`orders
    ensures db.Valid()
    ensures signature.None? || signature == Some("") ==> reply == BadRequest(MissingSignature)
    ensures signature.Some? && signature != Some("") && event.BadPayload? ==> reply == BadRequest(InvalidPayload)
    ensures signature.Some? && signature != Some("") && event.BadSignature? ==> reply == BadRequest(InvalidSignature)
    ensures signature.Some? && signature != Some("") && event.Event? && event.kind != CompletedEvent ==> reply == Ok
    ensures signature.Some? && signature != Some("") && event.Event? && event.kind == CompletedEvent ==>
      reply == (if FindSession(old(db.payments), event.sessionId).Some? then Ok else NotFound)
    ensures if reply == Ok && event.Event? && event.kind == CompletedEvent then
        var k := FindSession(old(db.payments), event.sessionId).value;
        var id := old(db.payments)[k].order;
        id in old(db.orders) && old(db.orders)[id].user.Some? &&
        db.payments == CompletePayment(old(db.payments), k) && db.orders == MarkPaid(old(db.orders), id)
      else db.payments == old(db.payments) && db.orders == old(db.orders)
  {
    if signature.None? || signature.value == "" {
      return BadRequest(MissingSignature);
    }
    match event
    case BadPayload => reply := BadRequest(InvalidPayload);
    case BadSignature => reply := BadRequest(InvalidSignature);
    case Event(kind, sessionId) =>
      if kind == CompletedEvent {
        var found := FindSession(db.payments, sessionId);
        if found.None? {
          return NotFound;
        }
        var k := found.value;
        var id := db.payments[k].order;
        assert db.payments[k] in db.payments;
        CompletionKeepsOrders(db.orders, db.nextOrderId, db.items, db.products, db.deliveries, db.payments, k);
        db.payments := CompletePayment(db.payments, k);
        db.orders := MarkPaid(db.orders, id);
      }
      reply := Ok;
  }

  /** Completing a payment and marking its order paid keeps the order tables consistent. */
  lemma CompletionKeepsOrders(orders: map<OrderId, Order>, nextOrderId: nat, items: seq<OrderItem>,
                              products: map<ProductId, Product>, deliveries: map<OrderId, DeliveryAddress>,
                              payments: seq<Payment>, k: nat)
    requires OrdersValid(orders, nextOrderId, items, products, deliveries, payments) && k < |payments|
    ensures payments[k].order in orders
    ensures OrdersValid(MarkPaid(orders, payments[k].order), nextOrderId, items, products, deliveries, CompletePayment(payments, k))
  {
    assert payments[k] in payments;
    var after := CompletePayment(payments, k);
    forall p | p in after ensures p.order in orders && orders[p.order].user.Some? {
      var i :| 0 <= i < |after| && after[i] == p;
      assert payments[i] in payments;
    }
  }

  /**
   * A redelivered completion event changes nothing: once the session's payment is completed and
   * its order paid, handling the same session again finds the same payment and leaves both as they are.
   */
  lemma CompletionIdempotent(payments: seq<Payment>, orders: map<OrderId, Order>, sessionId: string)
    requires PaymentsKeyed(payments) && FindSession(payments, sessionId).Some?
    requires payments[FindSession(payments, sessionId).value].order in orders
    ensures var k := FindSession(payments, sessionId).value;
      var id := payments[k].order;
      var payments' := CompletePayment(payments, k);
      FindSession(payments', sessionId) == Some(k) &&
      CompletePayment(payments', k) == payments' &&
      MarkPaid(MarkPaid(orders, id), payments'[k].order) == MarkPaid(orders, id)
  {
    var k := FindSession(payments, sessionId).value;
    var payments' := CompletePayment(payments, k);
    assert PaymentsKeyed(payments') by {
      forall i, j | 0 <= i < j < |payments'|
        ensures payments'[i].order != payments'[j].order && payments'[i].sessionId != payments'[j].sessionId
      {
        assert payments'[i].(status := payments[i].status) == payments[i];
        assert payments'[j].(status := payments[j].status) == payments[j];
      }
    }
    SessionLookupUnique(payments', sessionId, k);
  }
}
