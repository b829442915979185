/**
 * The session cart: an ordered list of lines, each identified by its (canteen, item name) pair.
 * Pure functions give the effect of each cart request; the lemmas state what those effects mean.
 */
module Cart {
  import opened Base

  /** One cart line; price is the unit price in cents as parsed from the form. */
  datatype CartLine = CartLine(canteenId: Id, name: string, price: int, quantity: int)

  /** The identity of a line inside a cart. */
  function Key(line: CartLine): (k: (Id, string))
  {
    (line.canteenId, line.name)
  }

  /** The lookup test of add-to-cart: same item name and same canteen. */
  predicate Matches(line: CartLine, canteenId: Id, name: string)
  {
    Key(line) == (canteenId, name)
  }

  /** No two lines of the cart share a (canteen, item name) pair. */
  ghost predicate Unique(cart: seq<CartLine>)
  {
    forall i, j :: 0 <= i < j < |cart| ==> Key(cart[i]) != Key(cart[j])
  }

  // ---------------------------------------------------------------- lookup

  /** The position of the first line matching (canteenId, name), or -1 when none does. */
  function FirstMatch(cart: seq<CartLine>, canteenId: Id, name: string): (r: int)
    ensures -1 <= r < |cart|
    ensures r >= 0 ==> Matches(cart[r], canteenId, name)
    ensures forall j :: 0 <= j < |cart| && (r == -1 || j < r) ==> !Matches(cart[j], canteenId, name)
  {
    if |cart| == 0 then -1
    else if Matches(cart[0], canteenId, name) then 0
    else
      var r := FirstMatch(cart[1..], canteenId, name);
      if r == -1 then -1 else r + 1
  }

  /** The linear scan add-to-cart performs to find a line to merge into. */
  method FindLineIndex(cart: seq<CartLine>, canteenId: Id, name: string) returns (i: int)
    ensures i == FirstMatch(cart, canteenId, name)
  {
    i := 0;
    while i < |cart|
      invariant 0 <= i <= |cart|
      invariant forall j :: 0 <= j < i ==> !Matches(cart[j], canteenId, name)
    {
      if Matches(cart[i], canteenId, name) {
        return;
      }
      i := i + 1;
    }
    i := -1;
  }

  // ---------------------------------------------------------------- add-to-cart

  /**
   * The quantity add-to-cart uses: the parsed integer, or 1 when the parse gives NaN (None)
   * or zero (the `|| 1` fallback). Negative parses are kept.
   */
  function QtyToAdd(parsed: Option<int>): (q: int)
    ensures q != 0
    ensures parsed.Some? && parsed.value != 0 ==> q == parsed.value
    ensures parsed == None || parsed == Some(0) ==> q == 1
  {
    match parsed
    case Some(n) => if n != 0 then n else 1
    case None => 1
  }

  /**
   * The cart after an add-to-cart request: the quantity to add goes onto the first line with the
   * same pair, keeping that line's price; with no such line, a new line is appended at the end.
   */
  function AddItem(cart: seq<CartLine>, canteenId: Id, name: string, price: int, quantity: Option<int>): (r: seq<CartLine>)
    ensures var k := FirstMatch(cart, canteenId, name);
      k > -1 ==>
        && |r| == |cart|
        && r[k] == CartLine(canteenId, name, cart[k].price, cart[k].quantity + QtyToAdd(quantity))
        && forall j :: 0 <= j < |cart| && j != k ==> r[j] == cart[j]
    ensures FirstMatch(cart, canteenId, name) == -1 ==>
      r == cart + [CartLine(canteenId, name, price, QtyToAdd(quantity))]
  {
    var k := FirstMatch(cart, canteenId, name);
    var qty := QtyToAdd(quantity);
    if k > -1 then cart[k := cart[k].(quantity := cart[k].quantity + qty)]
    else cart + [CartLine(canteenId, name, price, qty)]
  }

  /** When a line with the same pair exists, only its quantity grows; length and every other line stay. */
  lemma {:induction false} AddItemMerges(cart: seq<CartLine>, canteenId: Id, name: string, price: int, quantity: Option<int>, k: nat)
    requires k < |cart| && Matches(cart[k], canteenId, name)
    requires Unique(cart)
    ensures var r := AddItem(cart, canteenId, name, price, quantity);
      && |r| == |cart|
      && r[k] == CartLine(canteenId, name, cart[k].price, cart[k].quantity + QtyToAdd(quantity))
      && forall j :: 0 <= j < |cart| && j != k ==> r[j] == cart[j]
  {
    var f := FirstMatch(cart, canteenId, name);
    assert f >= 0 && Key(cart[f]) == Key(cart[k]);
  }

  /** When no line has the pair, exactly one line is appended, carrying the given price. */
  lemma {:induction false} AddItemAppends(cart: seq<CartLine>, canteenId: Id, name: string, price: int, quantity: Option<int>)
    requires forall j :: 0 <= j < |cart| ==> !Matches(cart[j], canteenId, name)
    ensures AddItem(cart, canteenId, name, price, quantity)
         == cart + [CartLine(canteenId, name, price, QtyToAdd(quantity))]
  {
  }

  /** add-to-cart keeps the pairs of the cart distinct. */
  lemma {:induction false} AddItemKeepsUnique(cart: seq<CartLine>, canteenId: Id, name: string, price: int, quantity: Option<int>)
    requires Unique(cart)
    ensures Unique(AddItem(cart, canteenId, name, price, quantity))
  {
    var r := AddItem(cart, canteenId, name, price, quantity);
    var k := FirstMatch(cart, canteenId, name);
    if k > -1 {
      assert forall j :: 0 <= j < |cart| ==> Key(r[j]) == Key(cart[j]);
    } else {
      forall i, j | 0 <= i < j < |r|
        ensures Key(r[i]) != Key(r[j])
      {
        if j == |cart| {
          assert !Matches(cart[i], canteenId, name);
        }
      }
    }
  }

  /** Adding a new pair twice gives one line whose quantity is the sum and whose price is the first one. */
  lemma {:induction false} AddTwiceMerges(cart: seq<CartLine>, canteenId: Id, name: string, p1: int, q1: Option<int>, p2: int, q2: Option<int>)
    requires forall j :: 0 <= j < |cart| ==> !Matches(cart[j], canteenId, name)
    ensures AddItem(AddItem(cart, canteenId, name, p1, q1), canteenId, name, p2, q2)
         == cart + [CartLine(canteenId, name, p1, QtyToAdd(q1) + QtyToAdd(q2))]
  {
    var c1 := AddItem(cart, canteenId, name, p1, q1);
    assert c1 == cart + [CartLine(canteenId, name, p1, QtyToAdd(q1))];
    assert Matches(c1[|cart|], canteenId, name);
  }

  // ---------------------------------------------------------------- update-cart-quantity

  /** Deleting one line at position i and closing the gap. */
  function RemoveAt(cart: seq<CartLine>, i: nat): (r: seq<CartLine>)
    requires i < |cart|
    ensures |r| == |cart| - 1
    ensures forall j :: 0 <= j < i ==> r[j] == cart[j]
    ensures forall j :: i <= j < |r| ==> r[j] == cart[j + 1]
  {
    cart[..i] + cart[i + 1..]
  }

  /**
   * The cart after an update-cart-quantity request that addresses position index: "increase" and
   * "decrease" step the quantity of that line by one, a decrease to zero or below deletes the line,
   * and "remove" deletes it.
   */
  function ChangeQuantity(cart: seq<CartLine>, index: int, action: string): (r: seq<CartLine>)
    ensures !(0 <= index < |cart|) ==> r == cart
    ensures action != "increase" && action != "decrease" && action != "remove" ==> r == cart
    ensures |r| == |cart| || |r| == |cart| - 1
  {
    if !(0 <= index < |cart|) then cart
    else if action == "increase" then cart[index := cart[index].(quantity := cart[index].quantity + 1)]
    else if action == "decrease" then
      var line := cart[index].(quantity := cart[index].quantity - 1);
      if line.quantity <= 0 then RemoveAt(cart, index) else cart[index := line]
    else if action == "remove" then RemoveAt(cart, index)
    else cart
  }

  /**
   * The index field of update-cart-quantity, classified by what the handler does with it. The guard
   * looks the text up as a property name of the cart array; the deletion converts it to a number,
   * and a text that is not a number converts to position 0.
   */
  datatype IndexText =
    | Numeral(n: nat)  // a canonical decimal numeral ("0", "7"): the guard finds line n if there is one
    | ArrayMember      // the name of a property every array has ("length", "push", "constructor", ...)
    | Other            // anything else ("01", "+1", "1.0", "-1", "abc", absent): the guard finds nothing

  /**
   * The cart after an update-cart-quantity request, for any index text. A numeral addresses a
   * position. An array member name passes the guard, leaves the lines alone under "increase" and
   * "decrease", and under "remove" deletes the first line. Any other text does nothing.
   */
  function UpdateQuantity(cart: seq<CartLine>, index: IndexText, action: string): (r: seq<CartLine>)
    ensures index.Numeral? ==> r == ChangeQuantity(cart, index.n, action)
    ensures index.Other? ==> r == cart
    ensures index.ArrayMember? && action != "remove" ==> r == cart
    ensures index.ArrayMember? && action == "remove" && cart != [] ==> r == cart[1..]
    ensures cart == [] ==> r == []
  {
    match index
    case Numeral(n) => ChangeQuantity(cart, n, action)
    case ArrayMember => if action == "remove" && cart != [] then RemoveAt(cart, 0) else cart
    case Other => cart
  }

  /** update-cart-quantity keeps the pairs of the cart distinct, whatever the index text. */
  lemma {:induction false} UpdateQuantityKeepsUnique(cart: seq<CartLine>, index: IndexText, action: string)
    requires Unique(cart)
    ensures Unique(UpdateQuantity(cart, index, action))
  {
    match index
    case Numeral(n) => ChangeQuantityKeepsUnique(cart, n, action);
    case ArrayMember =>
      if action == "remove" && cart != [] {
        ChangeQuantityKeepsUnique(cart, 0, "remove");
      }
    case Other =>
  }

  /** "increase" adds exactly one to the addressed line and changes nothing else. */
  lemma {:induction false} IncreaseOnlyThatLine(cart: seq<CartLine>, index: nat)
    requires index < |cart|
    ensures var r := ChangeQuantity(cart, index, "increase");
      && |r| == |cart|
      && r[index] == cart[index].(quantity := cart[index].quantity + 1)
      && forall j :: 0 <= j < |cart| && j != index ==> r[j] == cart[j]
  {
  }

  /**
   * "decrease" deletes the addressed line exactly when its quantity was at most one, keeping the
   * others in order; otherwise it subtracts one from that line only.
   */
  lemma {:induction false} DecreaseRemovesIffAtMostOne(cart: seq<CartLine>, index: nat)
    requires index < |cart|
    ensures var r := ChangeQuantity(cart, index, "decrease");
      && (|r| == |cart| - 1 <==> cart[index].quantity <= 1)
      && (cart[index].quantity <= 1 ==>
            (forall j :: 0 <= j < index ==> r[j] == cart[j]) &&
            (forall j :: index <= j < |r| ==> r[j] == cart[j + 1]))
      && (cart[index].quantity > 1 ==>
            r[index] == cart[index].(quantity := cart[index].quantity - 1) &&
            forall j :: 0 <= j < |cart| && j != index ==> r[j] == cart[j])
  {
  }

  /** "remove" deletes exactly the addressed line and keeps the rest in order. */
  lemma {:induction false} RemoveDeletesThatLine(cart: seq<CartLine>, index: nat)
    requires index < |cart|
    ensures ChangeQuantity(cart, index, "remove") == cart[..index] + cart[index + 1..]
  {
  }

  /** update-cart-quantity keeps the pairs of the cart distinct. */
  lemma {:induction false} ChangeQuantityKeepsUnique(cart: seq<CartLine>, index: int, action: string)
    requires Unique(cart)
    ensures Unique(ChangeQuantity(cart, index, action))
  {
    var r := ChangeQuantity(cart, index, action);
    if 0 <= index < |cart| && |r| == |cart| - 1 {
      forall i, j | 0 <= i < j < |r|
        ensures Key(r[i]) != Key(r[j])
      {
        var i' := if i < index then i else i + 1;
        var j' := if j < index then j else j + 1;
        assert r[i] == cart[i'] && r[j] == cart[j'];
      }
    } else if 0 <= index < |cart| {
      assert forall j :: 0 <= j < |cart| ==> Key(r[j]) == Key(cart[j]);
    }
  }

  // ---------------------------------------------------------------- totals

  /** What one line contributes to the total. */
  function LineTotal(line: CartLine): (t: int)
  {
    line.price * line.quantity
  }

  /** The running sum the cart page folds over the lines from first to last, starting at acc. */
  function FoldTotal(acc: int, cart: seq<CartLine>): (t: int)
    decreases cart
  {
    if cart == [] then acc else FoldTotal(acc + LineTotal(cart[0]), cart[1..])
  }

  /** The total the cart page shows: the sum of price times quantity over the lines, 0 when empty. */
  function Total(cart: seq<CartLine>): (t: int)
    ensures t == Sum(cart)
    ensures cart == [] ==> t == 0
  {
    FoldIsSum(0, cart);
    FoldTotal(0, cart)
  }

  /** Reference definition: the sum of price times quantity over all lines, the empty sum being 0. */
  function Sum(cart: seq<CartLine>): (t: int)
  {
    if cart == [] then 0 else LineTotal(cart[0]) + Sum(cart[1..])
  }

  lemma {:induction false} SumAppend(a: seq<CartLine>, b: seq<CartLine>)
    ensures Sum(a + b) == Sum(a) + Sum(b)
  {
    if a != [] {
      assert (a + b)[1..] == a[1..] + b;
      SumAppend(a[1..], b);
    } else {
      assert a + b == b;
    }
  }

  /** Folding the lines from any start value adds exactly their sum to it. */
  lemma {:induction false} FoldIsSum(acc: int, cart: seq<CartLine>)
    ensures FoldTotal(acc, cart) == acc + Sum(cart)
    decreases cart
  {
    if cart != [] {
      FoldIsSum(acc + LineTotal(cart[0]), cart[1..]);
    }
  }

  lemma SumSingle(line: CartLine)
    ensures Sum([line]) == LineTotal(line)
  {
    assert [line][1..] == [];
  }

  /** The sum around one line splits into the parts before it, the line itself, and the parts after it. */
  lemma {:induction false} SumAround(front: seq<CartLine>, line: CartLine, back: seq<CartLine>)
    ensures Sum(front + [line] + back) == Sum(front) + LineTotal(line) + Sum(back)
  {
    SumAppend(front + [line], back);
    SumAppend(front, [line]);
    SumSingle(line);
  }

  lemma {:induction false} SumUpdate(cart: seq<CartLine>, k: nat, line: CartLine)
    requires k < |cart|
    ensures Sum(cart[k := line]) == Sum(cart) - LineTotal(cart[k]) + LineTotal(line)
  {
    var front, back := cart[..k], cart[k + 1..];
    assert cart == front + [cart[k]] + back;
    assert cart[k := line] == front + [line] + back;
    SumAround(front, cart[k], back);
    SumAround(front, line, back);
  }

  lemma {:induction false} SumRemoveAt(cart: seq<CartLine>, k: nat)
    requires k < |cart|
    ensures Sum(cart[..k] + cart[k + 1..]) == Sum(cart) - LineTotal(cart[k])
  {
    var front, back := cart[..k], cart[k + 1..];
    assert cart == front + [cart[k]] + back;
    SumAround(front, cart[k], back);
    SumAppend(front, back);
  }

  /**
   * add-to-cart raises the total by the unit price times the added quantity, where the unit price is
   * the one already on the cart when the line is merged and the submitted one when it is appended.
   */
  lemma {:induction false} AddItemTotal(cart: seq<CartLine>, canteenId: Id, name: string, price: int, quantity: Option<int>)
    ensures var k := FirstMatch(cart, canteenId, name);
      var unit := if k > -1 then cart[k].price else price;
      Total(AddItem(cart, canteenId, name, price, quantity)) == Total(cart) + unit * QtyToAdd(quantity)
  {
    var k := FirstMatch(cart, canteenId, name);
    var q := QtyToAdd(quantity);
    var r := AddItem(cart, canteenId, name, price, quantity);
    if k > -1 {
      var line := cart[k].(quantity := cart[k].quantity + q);
      SumUpdate(cart, k, line);
      assert LineTotal(line) == LineTotal(cart[k]) + cart[k].price * q by {
        assert cart[k].price * (cart[k].quantity + q) == cart[k].price * cart[k].quantity + cart[k].price * q;
      }
    } else {
      SumAppend(cart, [CartLine(canteenId, name, price, q)]);
    }
  }

  lemma {:induction false} IncreaseTotal(cart: seq<CartLine>, index: nat)
    requires index < |cart|
    ensures Total(ChangeQuantity(cart, index, "increase")) == Total(cart) + cart[index].price
  {
    var p, q := cart[index].price, cart[index].quantity;
    var line := cart[index].(quantity := q + 1);
    var r := cart[index := line];
    assert ChangeQuantity(cart, index, "increase") == r;
    SumUpdate(cart, index, line);
    assert LineTotal(line) == p * q + p by {
      assert p * (q + 1) == p * q + p;
    }
  }

  lemma {:induction false} DecreaseTotal(cart: seq<CartLine>, index: nat)
    requires index < |cart|
    ensures var r := ChangeQuantity(cart, index, "decrease");
      && (cart[index].quantity > 1 ==> Total(r) == Total(cart) - cart[index].price)
      && (cart[index].quantity <= 1 ==> Total(r) == Total(cart) - LineTotal(cart[index]))
  {
    var p, q := cart[index].price, cart[index].quantity;
    if q > 1 {
      var line := cart[index].(quantity := q - 1);
      var r := cart[index := line];
      assert ChangeQuantity(cart, index, "decrease") == r;
      SumUpdate(cart, index, line);
      assert LineTotal(line) == p * q - p by {
        assert p * (q - 1) == p * q - p;
      }
    } else {
      var r := RemoveAt(cart, index);
      assert ChangeQuantity(cart, index, "decrease") == r;
      SumRemoveAt(cart, index);
    }
  }

  lemma {:induction false} RemoveTotal(cart: seq<CartLine>, index: nat)
    requires index < |cart|
    ensures Total(ChangeQuantity(cart, index, "remove")) == Total(cart) - LineTotal(cart[index])
  {
    var r := RemoveAt(cart, index);
    assert ChangeQuantity(cart, index, "remove") == r;
    SumRemoveAt(cart, index);
  }

  /**
   * How update-cart-quantity moves the total: "increase" adds one unit price, a "decrease" that keeps
   * the line subtracts one, and a deletion subtracts the whole line.
   */
  lemma {:induction false} ChangeQuantityTotal(cart: seq<CartLine>, index: nat, action: string)
    requires index < |cart|
    ensures var r := ChangeQuantity(cart, index, action);
      && (action == "increase" ==> Total(r) == Total(cart) + cart[index].price)
      && (action == "decrease" && cart[index].quantity > 1 ==> Total(r) == Total(cart) - cart[index].price)
      && ((action == "decrease" && cart[index].quantity <= 1) || action == "remove" ==>
            Total(r) == Total(cart) - LineTotal(cart[index]))
  {
    if action == "increase" {
      IncreaseTotal(cart, index);
    } else if action == "decrease" {
      DecreaseTotal(cart, index);
    } else if action == "remove" {
      RemoveTotal(cart, index);
    }
  }

  /** The worked example: one Tea at 2.00, add two more Teas: one line of three, total 6.00. */
  lemma TeaScenario()
    ensures var cart := [CartLine(1, "Tea", 200, 1)];
      var r := AddItem(cart, 1, "Tea", 200, Some(2));
      r == [CartLine(1, "Tea", 200, 3)] && Total(r) == 600
  {
    var cart := [CartLine(1, "Tea", 200, 1)];
    assert FirstMatch(cart, 1, "Tea") == 0;
    var r := AddItem(cart, 1, "Tea", 200, Some(2));
    assert r == [CartLine(1, "Tea", 200, 3)];
    assert r[1..] == [];
  }
}
