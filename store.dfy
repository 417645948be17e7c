/**
 * The database the views read and write: one field per table, and the integrity rules the schema
 * (unique constraints, one-to-one and foreign keys) and the views together maintain.
 */
module Store {
  import opened Wrappers
  import opened UserModels
  import opened ProductModels
  import opened CartModels
  import opened OrderModels
  import opened PaymentModels

  /** Primary keys unique, emails unique, and every company reference resolved. */
  ghost predicate UsersValid(users: seq<User>, nextUserId: nat, companies: map<CompanyId, VendorCompany>) {
    (forall i, j :: 0 <= i < j < |users| ==> users[i].id != users[j].id && users[i].email != users[j].email) &&
    (forall u :: u in users ==> u.id < nextUserId && (u.company.Some? ==> u.company.value in companies))
  }

  /** Primary keys unique and below the next key, and at most one default address per user. */
  ghost predicate AddressesValid(addresses: seq<Address>, nextAddressId: nat) {
    (forall i, j :: 0 <= i < j < |addresses| ==> addresses[i].id != addresses[j].id) &&
    (forall a :: a in addresses ==> a.id < nextAddressId) &&
    OneDefaultPerUser(addresses)
  }

  /** Some account has this primary key. */
  ghost predicate UserExists(users: seq<User>, id: UserId) {
    exists i :: 0 <= i < |users| && users[i].id == id
  }

  /** Token values unique, every stored token has its expiry set, and its user exists. */
  ghost predicate TokensValid(tokens: seq<ResetToken>, users: seq<User>) {
    (forall i, j :: 0 <= i < j < |tokens| ==> tokens[i].key != tokens[j].key) &&
    (forall t :: t in tokens ==> t.expiresAt.Some? && UserExists(users, t.user))
  }

  /** What every stored cart line satisfies on its own. */
  ghost predicate LineValid(l: CartLine, nextLineId: nat, products: map<ProductId, Product>,
                            userCarts: set<UserId>, guestCarts: set<string>) {
    l.id < nextLineId && l.product in products && l.format != Some(Both) &&
    (match l.cart
     case UserCart(u) => u in userCarts
     case GuestCart(s) => s in guestCarts)
  }

  ghost predicate CartValid(lines: seq<CartLine>, nextLineId: nat, products: map<ProductId, Product>,
                            userCarts: set<UserId>, guestCarts: set<string>) {
    LinesDistinct(lines) &&
    forall l :: l in lines ==> LineValid(l, nextLineId, products, userCarts, guestCarts)
  }

  /**
   * Order keys below the next key; items, delivery addresses and payments refer to existing orders
   * (and items to existing products); payments are keyed by order and session id, and belong to
   * user orders (only the authenticated checkout creates them).
   */
  ghost predicate OrdersValid(orders: map<OrderId, Order>, nextOrderId: nat, items: seq<OrderItem>,
                              products: map<ProductId, Product>, deliveries: map<OrderId, DeliveryAddress>,
                              payments: seq<Payment>) {
    (forall k :: k in orders ==> k < nextOrderId) &&
    (forall i :: i in items ==> i.order in orders && i.product in products) &&
    (forall k :: k in deliveries ==> k in orders) &&
    PaymentsKeyed(payments) &&
    (forall p :: p in payments ==> p.order in orders && orders[p.order].user.Some?)
  }

  /** Recording the delivery address of an existing order keeps the order tables consistent. */
  lemma NewDeliveryKeepsOrders(orders: map<OrderId, Order>, nextOrderId: nat, items: seq<OrderItem>,
                               products: map<ProductId, Product>, deliveries: map<OrderId, DeliveryAddress>,
                               payments: seq<Payment>, id: OrderId, a: DeliveryAddress)
    requires OrdersValid(orders, nextOrderId, items, products, deliveries, payments) && id in orders
    ensures OrdersValid(orders, nextOrderId, items, products, deliveries[id := a], payments)
  {
  }

  /** Deleting an order without payment or delivery address, and its items, keeps the order tables consistent. */
  lemma DeleteOrderKeepsOrders(orders: map<OrderId, Order>, nextOrderId: nat, items: seq<OrderItem>,
                               products: map<ProductId, Product>, deliveries: map<OrderId, DeliveryAddress>,
                               payments: seq<Payment>, id: OrderId)
    requires OrdersValid(orders, nextOrderId, items, products, deliveries, payments)
    requires id !in deliveries && forall p :: p in payments ==> p.order != id
    ensures OrdersValid(orders - {id}, nextOrderId, DropItemsOf(items, id), products, deliveries, payments)
  {
  }

  /** Recording a pending payment for a user order that has none, under a new session id, keeps the order tables consistent. */
  lemma NewPaymentKeepsOrders(orders: map<OrderId, Order>, nextOrderId: nat, items: seq<OrderItem>,
                              products: map<ProductId, Product>, deliveries: map<OrderId, DeliveryAddress>,
                              payments: seq<Payment>, p: Payment)
    requires OrdersValid(orders, nextOrderId, items, products, deliveries, payments)
    requires p.order in orders && orders[p.order].user.Some?
    requires forall q :: q in payments ==> q.order != p.order && q.sessionId != p.sessionId
    ensures OrdersValid(orders, nextOrderId, items, products, deliveries, payments + [p])
  {
    assert forall i :: 0 <= i < |payments| ==> payments[i] in payments;
  }

  /** Adding an order under the next key keeps the order tables consistent. */
  lemma NewOrderKeepsOrders(orders: map<OrderId, Order>, nextOrderId: nat, items: seq<OrderItem>,
                            products: map<ProductId, Product>, deliveries: map<OrderId, DeliveryAddress>,
                            payments: seq<Payment>, o: Order)
    requires OrdersValid(orders, nextOrderId, items, products, deliveries, payments)
    ensures nextOrderId !in orders
    ensures OrdersValid(orders[nextOrderId := o], nextOrderId + 1, items, products, deliveries, payments)
  {
  }

  /** Adding items that refer to existing orders and products keeps the order tables consistent. */
  lemma NewItemsKeepOrders(orders: map<OrderId, Order>, nextOrderId: nat, items: seq<OrderItem>,
                           products: map<ProductId, Product>, deliveries: map<OrderId, DeliveryAddress>,
                           payments: seq<Payment>, more: seq<OrderItem>)
    requires OrdersValid(orders, nextOrderId, items, products, deliveries, payments)
    requires forall i :: i in more ==> i.order in orders && i.product in products
    ensures OrdersValid(orders, nextOrderId, items + more, products, deliveries, payments)
  {
  }

  /** Changing product rows without adding or removing any keeps the line and order tables consistent. */
  lemma SameCatalogKeys(products: map<ProductId, Product>, updated: map<ProductId, Product>,
                        lines: seq<CartLine>, nextLineId: nat, userCarts: set<UserId>, guestCarts: set<string>,
                        orders: map<OrderId, Order>, nextOrderId: nat, items: seq<OrderItem>,
                        deliveries: map<OrderId, DeliveryAddress>, payments: seq<Payment>)
    requires updated.Keys == products.Keys
    requires CartValid(lines, nextLineId, products, userCarts, guestCarts)
    requires OrdersValid(orders, nextOrderId, items, products, deliveries, payments)
    ensures CartValid(lines, nextLineId, updated, userCarts, guestCarts)
    ensures OrdersValid(orders, nextOrderId, items, updated, deliveries, payments)
  {
    assert forall l :: l in lines ==> LineValid(l, nextLineId, updated, userCarts, guestCarts) by {
      forall l | l in lines ensures LineValid(l, nextLineId, updated, userCarts, guestCarts) {
        assert LineValid(l, nextLineId, products, userCarts, guestCarts);
      }
    }
  }

  /** Every line of a well-formed table names an existing product, so a cart's total is defined. */
  lemma CartProductsExist(lines: seq<CartLine>, nextLineId: nat, products: map<ProductId, Product>,
                          userCarts: set<UserId>, guestCarts: set<string>, cart: CartKey)
    requires CartValid(lines, nextLineId, products, userCarts, guestCarts)
    ensures ProductsExist(LinesOf(lines, cart), products)
  {
    var mine := LinesOf(lines, cart);
    LinesOfMembers(lines, cart);
    forall i | 0 <= i < |mine| ensures mine[i].product in products {
      assert mine[i] in mine;
      assert LineValid(mine[i], nextLineId, products, userCarts, guestCarts);
    }
  }

  /** Deleting some lines keeps the table well formed. */
  lemma DropCartKeepsTable(lines: seq<CartLine>, nextLineId: nat, products: map<ProductId, Product>,
                           userCarts: set<UserId>, guestCarts: set<string>, cart: CartKey)
    requires CartValid(lines, nextLineId, products, userCarts, guestCarts)
    ensures CartValid(DropCart(lines, cart), nextLineId, products, userCarts, guestCarts)
  {
    DropCartDistinct(lines, cart);
  }

  class Database {
    var companies: map<CompanyId, VendorCompany>
    var users: seq<User>
    var nextUserId: nat
    var addresses: seq<Address>
    var nextAddressId: nat
    var tokens: seq<ResetToken>
    var products: map<ProductId, Product>
    var userCarts: set<UserId>
    var guestCarts: set<string>
    var lines: seq<CartLine>
    var nextLineId: nat
    var orders: map<OrderId, Order>
    var nextOrderId: nat
    var items: seq<OrderItem>
    var deliveries: map<OrderId, DeliveryAddress>
    var payments: seq<Payment>

    ghost predicate Valid()
      reads this
    {
      UsersValid(users, nextUserId, companies) &&
      AddressesValid(addresses, nextAddressId) &&
      TokensValid(tokens, users) &&
      CartValid(lines, nextLineId, products, userCarts, guestCarts) &&
      OrdersValid(orders, nextOrderId, items, products, deliveries, payments)
    }

    /** An empty database over a given catalog and set of vendor companies. */
    constructor (companies: map<CompanyId, VendorCompany>, products: map<ProductId, Product>)
      ensures Valid()
      ensures this.companies == companies && this.products == products
      ensures users == [] && addresses == [] && tokens == [] && lines == [] && items == [] && payments == []
      ensures orders == map[] && deliveries == map[] && userCarts == {} && guestCarts == {}
    {
      this.companies := companies;
      this.products := products;
      users, nextUserId := [], 0;
      addresses, nextAddressId := [], 0;
      tokens := [];
      userCarts, guestCarts := {}, {};
      lines, nextLineId := [], 0;
      orders, nextOrderId := map[], 0;
      items := [];
      deliveries := map[];
      payments := [];
    }
  }
}
