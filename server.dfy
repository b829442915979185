/**
 * The request handlers as state changes: a Session object (the visitor's signed-in user and cart)
 * and a Database object (canteens, orders, and the counter that hands out fresh ids). Each handler
 * method is proved equal to the pure function of its module.
 */
module Server {
  import opened Base
  import opened Auth
  import opened Cart
  import Menu
  import Orders

  /** One visitor's session. */
  class Session {
    var user: Option<SessionUser>
    var cart: seq<CartLine>

    ghost predicate Valid()
      reads this
    {
      Unique(cart)
    }

    /** A session as sign-in leaves it: the user, and an empty cart. */
    constructor (user: Option<SessionUser>)
      ensures Valid()
      ensures this.user == user && cart == []
    {
      this.user := user;
      cart := [];
    }

    /** POST /add-to-cart: merge into the line with the same (canteen, name), or append one. */
    method AddToCart(canteenId: Id, itemName: string, itemPrice: int, quantity: Option<int>) returns (status: Status)
      requires Valid()
      modifies this
      ensures Valid() && user == old(user)
      ensures status == (if IsAuthenticated(user) then Done else ToLogin)
      ensures cart == if IsAuthenticated(user) then AddItem(old(cart), canteenId, itemName, itemPrice, quantity)
                      else old(cart)
    {
      if !IsAuthenticated(user) {
        return ToLogin;
      }
      var existing := FindLineIndex(cart, canteenId, itemName);
      var qtyToAdd := QtyToAdd(quantity);
      if existing > -1 {
        cart := cart[existing := cart[existing].(quantity := cart[existing].quantity + qtyToAdd)];
      } else {
        cart := cart + [CartLine(canteenId, itemName, itemPrice, qtyToAdd)];
      }
      AddItemKeepsUnique(old(cart), canteenId, itemName, itemPrice, quantity);
      status := Done;
    }

    /**
     * POST /update-cart-quantity: step, or delete, the line the index text names; a text that names
     * no line, or an unknown action, does nothing.
     */
    method UpdateCartQuantity(index: IndexText, action: string) returns (status: Status)
      requires Valid()
      modifies this
      ensures Valid() && user == old(user)
      ensures status == (if IsAuthenticated(user) then Done else ToLogin)
      ensures cart == if IsAuthenticated(user) then UpdateQuantity(old(cart), index, action) else old(cart)
    {
      if !IsAuthenticated(user) {
        return ToLogin;
      }
      match index {
        case Numeral(i) =>
          if i < |cart| {
            if action == "increase" {
              cart := cart[i := cart[i].(quantity := cart[i].quantity + 1)];
            } else if action == "decrease" {
              cart := cart[i := cart[i].(quantity := cart[i].quantity - 1)];
              if cart[i].quantity <= 0 {
                cart := cart[..i] + cart[i + 1..];
              }
            } else if action == "remove" {
              cart := cart[..i] + cart[i + 1..];
            }
          }
        case ArrayMember =>
          // the guard passes; the step lands on the property, not on a line, and the deletion
          // converts the text to position 0
          if action == "remove" && cart != [] {
            cart := cart[1..];
          }
        case Other =>
      }
      UpdateQuantityKeepsUnique(old(cart), index, action);
      status := Done;
    }

    /** GET /cart: the total shown is the sum of price times quantity over the lines. */
    method ViewCart() returns (status: Status, total: int)
      ensures status == (if IsAuthenticated(user) then Done else ToLogin)
      ensures IsAuthenticated(user) ==> total == Sum(cart)
    {
      if !IsAuthenticated(user) {
        return ToLogin, 0;
      }
      total := Total(cart);
      status := Done;
    }

    /** Empties the cart; place-order calls it once the order is stored. */
    method Clear()
      modifies this
      ensures Valid() && user == old(user) && cart == []
    {
      cart := [];
    }
  }

  /** The stored canteens and orders. */
  class Database {
    var canteens: map<Id, Menu.Canteen>
    var orders: seq<Orders.Order>
    var nextId: nat

    ghost predicate Valid()
      reads this
    {
      Menu.WellFormed(canteens, nextId)
    }

    constructor ()
      ensures Valid()
      ensures canteens == map[] && orders == []
    {
      canteens := map[];
      orders := [];
      nextId := 0;
    }

    /** POST /add-canteen: an owner creates a canteen that records them as its owner. */
    method AddCanteen(user: Option<SessionUser>, canteenName: string, menuItems: Menu.Items)
      returns (status: Status)
      requires Valid()
      modifies this
      ensures Valid() && orders == old(orders)
      ensures OwnerGate(user).Some? ==>
        status == OwnerGate(user).value && canteens == old(canteens) && nextId == old(nextId)
      ensures OwnerGate(user) == None ==>
        var r := Menu.AddCanteen(old(canteens), user.value.id, canteenName, menuItems, old(nextId));
        status == r.status && canteens == r.canteens && nextId == r.nextId
    {
      var gate := OwnerGate(user);
      if gate.Some? {
        return gate.value;
      }
      if menuItems.NotAList? {
        return ErrorPage;
      }
      var valid := if menuItems.List? then Menu.ValidItems(menuItems.candidates) else [];
      var menu := Menu.ToMenuItems(valid, nextId + 1);
      if canteenName == "" {
        return ErrorPage;
      }
      canteens := canteens[nextId := Menu.Canteen(University, canteenName, menu, user.value.id)];
      nextId := nextId + 1 + |menu|;
      Menu.AddCanteenKeepsWellFormed(old(canteens), user.value.id, canteenName, menuItems, old(nextId));
      status := Done;
    }

    /** GET /edit-canteen/:id: the canteen is shown only to its owner; anyone else gets 403. */
    method ViewEditCanteen(user: Option<SessionUser>, id: Id) returns (status: Status, canteen: Option<Menu.Canteen>)
      ensures OwnerGate(user).Some? ==> status == OwnerGate(user).value && canteen == None
      ensures OwnerGate(user) == None ==>
        && (status == Done <==> id in canteens && canteens[id].ownerId == user.value.id)
        && (status != Done ==> status == Forbidden)
      ensures canteen.Some? <==> status == Done
      ensures canteen.Some? ==> id in canteens && canteen.value == canteens[id]
    {
      var gate := OwnerGate(user);
      if gate.Some? {
        return gate.value, None;
      }
      canteen := Menu.LoadOwned(canteens, id, user.value.id);
      status := if canteen.None? then Forbidden else Done;
    }

    /** POST /edit-canteen/:id: an owner appends valid items to the menu of a canteen they own. */
    method EditCanteen(user: Option<SessionUser>, id: Id, newItems: Menu.Items)
      returns (status: Status)
      requires Valid()
      modifies this
      ensures Valid() && orders == old(orders)
      ensures OwnerGate(user).Some? ==>
        status == OwnerGate(user).value && canteens == old(canteens) && nextId == old(nextId)
      ensures OwnerGate(user) == None ==>
        var r := Menu.EditCanteen(old(canteens), id, user.value.id, newItems, old(nextId));
        status == r.status && canteens == r.canteens && nextId == r.nextId
    {
      var gate := OwnerGate(user);
      if gate.Some? {
        return gate.value;
      }
      var found := Menu.LoadOwned(canteens, id, user.value.id);
      if found.None? {
        return Forbidden;
      }
      if newItems.List? {
        var itemsToAdd := Menu.ToMenuItems(Menu.ValidItems(newItems.candidates), nextId);
        var canteen := found.value;
        canteens := canteens[id := canteen.(menu := canteen.menu + itemsToAdd)];
        nextId := nextId + |itemsToAdd|;
      }
      Menu.EditKeepsWellFormed(old(canteens), id, user.value.id, newItems, old(nextId));
      status := Done;
    }

    /** POST /delete-item: an owner pulls an item, by id, from the menu of a canteen they own. */
    method DeleteItem(user: Option<SessionUser>, canteenId: Id, itemId: Id) returns (status: Status)
      requires Valid()
      modifies this
      ensures Valid() && orders == old(orders) && nextId == old(nextId)
      ensures OwnerGate(user).Some? ==> status == OwnerGate(user).value && canteens == old(canteens)
      ensures OwnerGate(user) == None ==>
        var r := Menu.DeleteItem(old(canteens), canteenId, user.value.id, itemId, old(nextId));
        status == r.status && canteens == r.canteens
    {
      var gate := OwnerGate(user);
      if gate.Some? {
        return gate.value;
      }
      var found := Menu.LoadOwned(canteens, canteenId, user.value.id);
      if found.None? {
        return Forbidden;
      }
      var canteen := found.value;
      canteens := canteens[canteenId := canteen.(menu := Menu.PullItem(canteen.menu, itemId))];
      Menu.DeleteKeepsWellFormed(old(canteens), canteenId, user.value.id, itemId, old(nextId));
      status := Done;
    }

    /**
     * POST /place-order: validate the form, store the order (saved is whether the store accepted
     * it), and only then empty the session's cart.
     */
    method PlaceOrder(session: Session, f: Orders.OrderForm, saved: bool) returns (status: Status)
      requires Valid() && session.Valid()
      modifies this, session
      ensures Valid() && session.Valid()
      ensures canteens == old(canteens) && nextId == old(nextId) && session.user == old(session.user)
      ensures !IsAuthenticated(session.user) ==>
        status == ToLogin && orders == old(orders) && session.cart == old(session.cart)
      ensures IsAuthenticated(session.user) ==>
        var r := Orders.PlaceOrder(old(orders), old(session.cart), session.user.value.id, f, saved);
        status == r.status && orders == r.orders && session.cart == r.cart
    {
      if !IsAuthenticated(session.user) {
        return ToLogin;
      }
      if Orders.MissingDetails(f) {
        return BadRequest;
      }
      if f.items.None? || !saved {
        return ServerError;
      }
      var order := Orders.MakeOrder(session.user.value.id, f);
      orders := orders + [order];
      session.Clear();
      status := Done;
    }
  }
}
