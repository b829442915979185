/**
 * place-order: validate the checkout form, store an order snapshot, and only after the store has
 * accepted it empty the session cart.
 */
module Orders {
  import opened Base
  import Cart

  datatype OrderItem = OrderItem(name: string, price: int, quantity: int)

  /** A stored order; it copies the submitted items and total, it does not refer to the cart. */
  datatype Order = Order(userId: Id, canteenName: string, items: seq<OrderItem>, totalAmount: int,
                         paymentMethod: string, deliveryAddress: string)

  /**
   * The checkout form. Text fields hold what was sent (absent is the empty text); items is what
   * the items text decodes to (None when it is not well-formed), totalAmount what the total text
   * parses to (in cents).
   */
  datatype OrderForm = OrderForm(paymentMethod: string, itemsJSON: string, items: Option<seq<OrderItem>>,
                                 canteenName: string, totalAmount: int, address: string)

  /** What place-order answers, and the order list and session cart it leaves. */
  datatype OrderReply = OrderReply(status: Status, orders: seq<Order>, cart: seq<Cart.CartLine>)

  /** The canteen name recorded when the form leaves it empty. */
  const DefaultCanteenName: string := "Campus Canteen"

  /** A payment method, an items list or an address is missing. */
  predicate MissingDetails(f: OrderForm)
  {
    f.paymentMethod == "" || f.itemsJSON == "" || f.address == ""
  }

  /** The order snapshot recorded for a decoded form. */
  function MakeOrder(userId: Id, f: OrderForm): (o: Order)
    requires f.items.Some?
    ensures o.items == f.items.value && o.totalAmount == f.totalAmount
    ensures o.userId == userId && o.paymentMethod == f.paymentMethod && o.deliveryAddress == f.address
    ensures o.canteenName != ""
    ensures f.canteenName != "" ==> o.canteenName == f.canteenName
  {
    Order(userId, if f.canteenName == "" then DefaultCanteenName else f.canteenName,
          f.items.value, f.totalAmount, f.paymentMethod, f.address)
  }

  /**
   * place-order for a signed-in user. A missing field is a 400; an items text that does not decode,
   * or a store that does not accept the order (saved == false), is a 500; in all three nothing
   * changes. Otherwise the order is appended and then the cart is emptied.
   */
  function PlaceOrder(orders: seq<Order>, cart: seq<Cart.CartLine>, userId: Id, f: OrderForm, saved: bool): (r: OrderReply)
    ensures r.status == BadRequest <==> MissingDetails(f)
    ensures r.status == Done <==> !MissingDetails(f) && f.items.Some? && saved
    ensures r.status != Done ==> r.orders == orders && r.cart == cart
  {
    if MissingDetails(f) then OrderReply(BadRequest, orders, cart)
    else if f.items.None? then OrderReply(ServerError, orders, cart)
    else if !saved then OrderReply(ServerError, orders, cart)
    else OrderReply(Done, orders + [MakeOrder(userId, f)], [])
  }

  /**
   * On success exactly one order is appended, carrying the submitted items and total, the earlier
   * orders are untouched, and the cart is empty.
   */
  lemma PlaceOrderRecordsSnapshot(orders: seq<Order>, cart: seq<Cart.CartLine>, userId: Id, f: OrderForm, saved: bool)
    requires PlaceOrder(orders, cart, userId, f, saved).status == Done
    ensures var r := PlaceOrder(orders, cart, userId, f, saved);
      && |r.orders| == |orders| + 1
      && r.orders[..|orders|] == orders
      && r.orders[|orders|].items == f.items.value
      && r.orders[|orders|].totalAmount == f.totalAmount
      && r.orders[|orders|].userId == userId
      && r.orders[|orders|] == MakeOrder(userId, f)
      && r.cart == []
  {
  }

  /**
   * The cart is emptied only together with the order being stored: a request that leaves the
   * orders as they were leaves the cart as it was.
   */
  lemma CartClearedOnlyWithOrder(orders: seq<Order>, cart: seq<Cart.CartLine>, userId: Id, f: OrderForm, saved: bool)
    ensures var r := PlaceOrder(orders, cart, userId, f, saved);
      r.orders == orders ==> r.cart == cart
  {
  }

  /** A form with an empty address is refused with 400, whatever else it holds; nothing changes. */
  lemma EmptyAddressRejected(orders: seq<Order>, cart: seq<Cart.CartLine>, userId: Id, f: OrderForm, saved: bool)
    requires f.address == ""
    ensures PlaceOrder(orders, cart, userId, f, saved) == OrderReply(BadRequest, orders, cart)
  {
  }
}
