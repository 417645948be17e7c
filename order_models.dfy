/** orders/models.py: orders, their items (with a price snapshot) and a guest order's delivery address. */
module OrderModels {
  import opened Wrappers
  import opened UserModels
  import opened ProductModels

  type OrderId = nat

  /** Order.ORDER_TYPE_CHOICES: 'user' (the default) and 'guest'. */
  datatype OrderType = UserOrder | GuestOrder

  /** Order.PAYMENT_STATUS_CHOICES: 'pending' (the default), 'paid', 'failed', 'refunded'. */
  datatype PaymentStatus = Pending | Paid | Failed | Refunded

  /** The contact details a guest order carries (guest_email, guest_first_name, guest_last_name, guest_phone). */
  datatype GuestContact = GuestContact(email: string, firstName: string, lastName: string, phone: string)

  /**
   * An order. `guest` is None for a user order; `userAddress` is the optional reference to the user's
   * delivery address that the checkout views pass when they create an order.
   */
  datatype Order = Order(
    kind: OrderType,
    user: Option<UserId>,
    guest: Option<GuestContact>,
    totalAmount: int,
    paymentStatus: PaymentStatus,
    userAddress: Option<AddressId>)

  /** Order.objects.create(user=..., total_amount=..., payment_status='pending'): a pending user order. */
  function NewUserOrder(user: UserId, total: int, address: Option<AddressId>): (o: Order)
    ensures o.kind == UserOrder && o.user == Some(user) && o.guest.None?
    ensures o.totalAmount == total && o.paymentStatus == Pending && !IsPaid(o)
    ensures o.userAddress == address
  {
    Order(UserOrder, Some(user), None, total, Pending, address)
  }

  /** The guest checkout's order: type guest, no user, the contact details copied, pending. */
  function NewGuestOrder(contact: GuestContact, total: int): (o: Order)
    ensures o.kind == GuestOrder && o.user.None? && o.guest == Some(contact)
    ensures o.totalAmount == total && o.paymentStatus == Pending && !IsPaid(o)
    ensures o.userAddress.None?
  {
    Order(GuestOrder, None, Some(contact), total, Pending, None)
  }

  /** Order.is_paid. */
  predicate IsPaid(o: Order) {
    o.paymentStatus == Paid
  }

  /** GuestOrderAddress, keyed one-to-one by its order. */
  datatype DeliveryAddress = DeliveryAddress(
    recipientName: string,
    street: string,
    postalCode: string,
    city: string,
    country: string,
    phone: string)

  /** OrderItem: `price` is the unit price copied from the product when the order was placed. */
  datatype OrderItem = OrderItem(order: OrderId, product: ProductId, quantity: nat, price: int, format: Option<Format>)

  /** OrderItem.subtotal: quantity times the stored price, whatever the product costs now. */
  function ItemSubtotal(i: OrderItem): int {
    i.quantity * i.price
  }

  function ItemsTotal(items: seq<OrderItem>): int {
    if items == [] then 0 else ItemsTotal(items[..|items| - 1]) + ItemSubtotal(items[|items| - 1])
  }

  /** The items of one order. */
  function ItemsOf(items: seq<OrderItem>, order: OrderId): (r: seq<OrderItem>)
    ensures |r| <= |items|
    ensures forall i :: i in r <==> i in items && i.order == order
  {
    if items == [] then []
    else ItemsOf(items[..|items| - 1], order) + (if items[|items| - 1].order == order then [items[|items| - 1]] else [])
  }

  /** Deleting an order cascades to its items: the items of every other order remain, in order. */
  function DropItemsOf(items: seq<OrderItem>, order: OrderId): (r: seq<OrderItem>)
    ensures |r| <= |items|
    ensures forall i :: i in r <==> i in items && i.order != order
  {
    if items == [] then []
    else DropItemsOf(items[..|items| - 1], order) + (if items[|items| - 1].order != order then [items[|items| - 1]] else [])
  }

  lemma {:induction false} ItemsOfAppend(a: seq<OrderItem>, b: seq<OrderItem>, order: OrderId)
    ensures ItemsOf(a + b, order) == ItemsOf(a, order) + ItemsOf(b, order)
    decreases |b|
  {
    if b == [] {
      assert a + b == a;
    } else {
      assert (a + b)[..|a + b| - 1] == a + b[..|b| - 1];
      ItemsOfAppend(a, b[..|b| - 1], order);
    }
  }

  lemma {:induction false} DropItemsOfAppend(a: seq<OrderItem>, b: seq<OrderItem>, order: OrderId)
    ensures DropItemsOf(a + b, order) == DropItemsOf(a, order) + DropItemsOf(b, order)
    decreases |b|
  {
    if b == [] {
      assert a + b == a;
    } else {
      assert (a + b)[..|a + b| - 1] == a + b[..|b| - 1];
      DropItemsOfAppend(a, b[..|b| - 1], order);
    }
  }

  /** Dropping the items of an order no item refers to changes nothing. */
  lemma {:induction false} DropItemsOfAbsent(items: seq<OrderItem>, order: OrderId)
    requires forall i :: 0 <= i < |items| ==> items[i].order != order
    ensures DropItemsOf(items, order) == items
  {
    if items != [] {
      DropItemsOfAbsent(items[..|items| - 1], order);
    }
  }

  /** Dropping the items of an order from items that all belong to it leaves nothing. */
  lemma {:induction false} DropItemsOfOwn(items: seq<OrderItem>, order: OrderId)
    requires forall i :: 0 <= i < |items| ==> items[i].order == order
    ensures DropItemsOf(items, order) == []
  {
    if items != [] {
      DropItemsOfOwn(items[..|items| - 1], order);
    }
  }

  /** Items that all belong to one order are all of that order's items. */
  lemma {:induction false} ItemsOfOwn(items: seq<OrderItem>, order: OrderId)
    requires forall i :: 0 <= i < |items| ==> items[i].order == order
    ensures ItemsOf(items, order) == items
  {
    if items != [] {
      ItemsOfOwn(items[..|items| - 1], order);
    }
  }

  /** An order no item refers to has no items. */
  lemma ItemsOfAbsent(items: seq<OrderItem>, order: OrderId)
    requires forall i :: i in items ==> i.order != order
    ensures ItemsOf(items, order) == []
  {
  }
}
