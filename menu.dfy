/**
 * Canteens and their menus, and the three owner-only mutations: creating a canteen, appending menu
 * items, and deleting a menu item. Each is a pure function of the canteen collection; every change
 * is conditional on the canteen's ownerId being the requester's id.
 */
module Menu {
  import opened Base

  datatype MenuItem = MenuItem(id: Id, name: string, price: int)

  datatype Canteen = Canteen(university: string, name: string, menu: seq<MenuItem>, ownerId: Id)

  /**
   * The item-list field of an add-canteen or edit-canteen request: missing (or another falsy value),
   * a list of candidate items, or a value that is present but is not a list.
   */
  datatype Items = Absent | List(candidates: seq<Candidate>) | NotAList

  /**
   * A menu item as submitted in a form: its name and price text as sent, and the number the price
   * text parses to (in cents). An absent field is the empty text.
   */
  datatype Candidate = Candidate(name: string, priceText: string, price: int)

  /** What a menu mutation answers and the canteen collection and id counter it leaves. */
  datatype MenuReply = MenuReply(status: Status, canteens: map<Id, Canteen>, nextId: nat)

  /** The item filter of add-canteen and edit-canteen: both the name and the price text are non-empty. */
  predicate IsValid(c: Candidate)
  {
    c.name != "" && c.priceText != ""
  }

  ghost predicate DistinctIds(menu: seq<MenuItem>)
  {
    forall i, j :: 0 <= i < j < |menu| ==> menu[i].id != menu[j].id
  }

  ghost predicate IdsBelow(menu: seq<MenuItem>, bound: nat)
  {
    forall i :: 0 <= i < |menu| ==> menu[i].id < bound
  }

  /**
   * Every id handed out so far is below nextId, and the items of one menu have distinct ids
   * (the store's generated ids are unique).
   */
  ghost predicate WellFormed(canteens: map<Id, Canteen>, nextId: nat)
  {
    forall id :: id in canteens ==>
      id < nextId && DistinctIds(canteens[id].menu) && IdsBelow(canteens[id].menu, nextId)
  }

  // ---------------------------------------------------------------- item filter

  /** The submitted items that pass the filter, in submission order. */
  function ValidItems(cands: seq<Candidate>): (r: seq<Candidate>)
    ensures forall c :: c in r <==> c in cands && IsValid(c)
    ensures |r| <= |cands|
  {
    if cands == [] then []
    else (if IsValid(cands[0]) then [cands[0]] else []) + ValidItems(cands[1..])
  }

  /** Filtering a concatenation filters each part and keeps their order. */
  lemma {:induction false} ValidItemsAppend(a: seq<Candidate>, b: seq<Candidate>)
    ensures ValidItems(a + b) == ValidItems(a) + ValidItems(b)
  {
    if a == [] {
      assert a + b == b;
    } else {
      assert (a + b)[1..] == a[1..] + b;
      ValidItemsAppend(a[1..], b);
    }
  }

  /** A submission whose items are all valid is kept whole, in order. */
  lemma {:induction false} ValidItemsKeepsValid(cands: seq<Candidate>)
    requires forall c :: c in cands ==> IsValid(c)
    ensures ValidItems(cands) == cands
  {
    if cands != [] {
      assert cands[0] in cands;
      assert forall c :: c in cands[1..] ==> c in cands;
      ValidItemsKeepsValid(cands[1..]);
    }
  }

  /**
   * The stored items for the filtered candidates: same names and prices in the same order, each
   * with a fresh id from firstId upwards.
   */
  function ToMenuItems(valid: seq<Candidate>, firstId: Id): (r: seq<MenuItem>)
    ensures |r| == |valid|
    ensures forall k :: 0 <= k < |r| ==> r[k].name == valid[k].name && r[k].price == valid[k].price
    ensures forall k :: 0 <= k < |r| ==> firstId <= r[k].id < firstId + |r|
    ensures DistinctIds(r)
  {
    seq(|valid|, k requires 0 <= k < |valid| => MenuItem(firstId + k, valid[k].name, valid[k].price))
  }

  // ---------------------------------------------------------------- owner-scoped lookup

  /** The lookup filtered on both the canteen id and the owner id. */
  function LoadOwned(canteens: map<Id, Canteen>, id: Id, requester: Id): (r: Option<Canteen>)
    ensures r.Some? <==> id in canteens && canteens[id].ownerId == requester
    ensures r.Some? ==> r.value == canteens[id]
  {
    if id in canteens && canteens[id].ownerId == requester then Some(canteens[id]) else None
  }

  // ---------------------------------------------------------------- edit-canteen (append items)

  /**
   * edit-canteen: a canteen not found under (id, requester) is refused with 403; otherwise, when the
   * request carries a list of new items, the valid ones are appended to the end of the menu. A
   * missing field, or one that is not a list, changes nothing.
   */
  function EditCanteen(canteens: map<Id, Canteen>, id: Id, requester: Id,
                       newItems: Items, nextId: nat): (r: MenuReply)
    ensures r.status == Forbidden <==> !(id in canteens && canteens[id].ownerId == requester)
    ensures r.status != Forbidden ==> r.status == Done
    ensures r.canteens != canteens ==> id in canteens && canteens[id].ownerId == requester
    ensures r.canteens.Keys == canteens.Keys && r.nextId >= nextId
    ensures forall k :: k in canteens && k != id ==> r.canteens[k] == canteens[k]
    ensures forall k :: k in canteens ==> r.canteens[k].ownerId == canteens[k].ownerId
    ensures !newItems.List? ==> r.canteens == canteens && r.nextId == nextId
  {
    match LoadOwned(canteens, id, requester)
    case None => MenuReply(Forbidden, canteens, nextId)
    case Some(c) =>
      if newItems.List? then
        var added := ToMenuItems(ValidItems(newItems.candidates), nextId);
        MenuReply(Done, canteens[id := c.(menu := c.menu + added)], nextId + |added|)
      else MenuReply(Done, canteens, nextId)
  }

  /**
   * On an owner match, the edited menu is the old menu followed, in submission order, by exactly the
   * submitted items whose name and price are both non-empty.
   */
  lemma {:induction false} EditAppendsValidItems(canteens: map<Id, Canteen>, id: Id, requester: Id,
                              newItems: seq<Candidate>, nextId: nat)
    requires id in canteens && canteens[id].ownerId == requester
    ensures var r := EditCanteen(canteens, id, requester, List(newItems), nextId);
      var old_menu := canteens[id].menu;
      var new_menu := r.canteens[id].menu;
      var valid := ValidItems(newItems);
      && |new_menu| == |old_menu| + |valid|
      && new_menu[..|old_menu|] == old_menu
      && (forall k :: 0 <= k < |valid| ==>
            new_menu[|old_menu| + k].name == valid[k].name && new_menu[|old_menu| + k].price == valid[k].price)
      && r.canteens[id] == canteens[id].(menu := new_menu)
  {
    var r := EditCanteen(canteens, id, requester, List(newItems), nextId);
    var added := ToMenuItems(ValidItems(newItems), nextId);
    assert r.canteens[id].menu == canteens[id].menu + added;
  }

  // ---------------------------------------------------------------- delete-item

  /** The menu without every item whose id is itemId, the others in their order. */
  function PullItem(menu: seq<MenuItem>, itemId: Id): (r: seq<MenuItem>)
    ensures forall i :: 0 <= i < |r| ==> r[i].id != itemId
    ensures |r| <= |menu|
  {
    if menu == [] then []
    else (if menu[0].id != itemId then [menu[0]] else []) + PullItem(menu[1..], itemId)
  }

  /** An item is kept iff it is on the menu and its id is not the pulled one. */
  lemma {:induction false} PullItemMembers(menu: seq<MenuItem>, itemId: Id)
    ensures forall x :: x in PullItem(menu, itemId) <==> x in menu && x.id != itemId
  {
    if menu != [] {
      PullItemMembers(menu[1..], itemId);
      assert menu == [menu[0]] + menu[1..];
    }
  }

  /** Pulling an id no item carries leaves the menu as it was. */
  lemma {:induction false} PullAbsentIsNoOp(menu: seq<MenuItem>, itemId: Id)
    requires forall x :: x in menu ==> x.id != itemId
    ensures PullItem(menu, itemId) == menu
  {
    if menu != [] {
      assert menu[0] in menu;
      assert forall x :: x in menu[1..] ==> x in menu;
      PullAbsentIsNoOp(menu[1..], itemId);
    }
  }

  /** Pulling from a concatenation pulls from each part and keeps their order. */
  lemma {:induction false} PullItemAppend(a: seq<MenuItem>, b: seq<MenuItem>, itemId: Id)
    ensures PullItem(a + b, itemId) == PullItem(a, itemId) + PullItem(b, itemId)
  {
    if a == [] {
      assert a + b == b;
    } else {
      assert (a + b)[1..] == a[1..] + b;
      PullItemAppend(a[1..], b, itemId);
    }
  }

  /** Pulling an id that only item k carries deletes exactly item k. */
  lemma {:induction false} PullOnlyCarrier(front: seq<MenuItem>, item: MenuItem, back: seq<MenuItem>)
    requires forall x :: x in front ==> x.id != item.id
    requires forall x :: x in back ==> x.id != item.id
    ensures PullItem(front + [item] + back, item.id) == front + back
  {
    var mid := [item];
    PullAbsentIsNoOp(front, item.id);
    PullAbsentIsNoOp(back, item.id);
    assert PullItem(mid, item.id) == [] by {
      assert mid[1..] == [];
    }
    PullItemAppend(front, mid, item.id);
    assert PullItem(front + mid, item.id) == front;
    PullItemAppend(front + mid, back, item.id);
  }

  /** In a menu with distinct ids, pulling the id of item k deletes exactly item k. */
  lemma {:induction false} PullRemovesOne(menu: seq<MenuItem>, k: nat)
    requires DistinctIds(menu) && k < |menu|
    ensures PullItem(menu, menu[k].id) == menu[..k] + menu[k + 1..]
  {
    var front, back := menu[..k], menu[k + 1..];
    forall x | x in front ensures x.id != menu[k].id {
      var j :| 0 <= j < |front| && front[j] == x;
    }
    forall x | x in back ensures x.id != menu[k].id {
      var j :| 0 <= j < |back| && back[j] == x;
      assert menu[k + 1 + j] == x;
    }
    PullOnlyCarrier(front, menu[k], back);
    assert menu == front + [menu[k]] + back;
  }

  lemma {:induction false} TailDistinct(menu: seq<MenuItem>)
    requires DistinctIds(menu) && menu != []
    ensures DistinctIds(menu[1..])
  {
    forall i, j | 0 <= i < j < |menu[1..]| ensures menu[1..][i].id != menu[1..][j].id {
      assert menu[1..][i] == menu[i + 1] && menu[1..][j] == menu[j + 1];
    }
  }

  /** Pulling keeps the ids of a menu distinct. */
  lemma {:induction false} PullKeepsDistinct(menu: seq<MenuItem>, itemId: Id)
    requires DistinctIds(menu)
    ensures DistinctIds(PullItem(menu, itemId))
  {
    if menu != [] {
      var rest := PullItem(menu[1..], itemId);
      PullItemMembers(menu[1..], itemId);
      TailDistinct(menu);
      PullKeepsDistinct(menu[1..], itemId);
      if menu[0].id != itemId {
        var r := [menu[0]] + rest;
        assert forall x :: x in rest ==> x.id != menu[0].id by {
          forall x | x in rest ensures x.id != menu[0].id {
            assert x in menu[1..];
            var m :| 0 <= m < |menu[1..]| && menu[1..][m] == x;
            assert menu[m + 1] == x;
          }
        }
        forall i, j | 0 <= i < j < |r| ensures r[i].id != r[j].id {
          assert r[j] == rest[j - 1] && rest[j - 1] in rest;
          if i > 0 {
            assert r[i] == rest[i - 1];
          }
        }
      }
    }
  }

  /** delete-item: refused with 403 unless the canteen is found under (id, requester); then pulls the item. */
  function DeleteItem(canteens: map<Id, Canteen>, id: Id, requester: Id, itemId: Id, nextId: nat): (r: MenuReply)
    ensures r.status == Forbidden <==> !(id in canteens && canteens[id].ownerId == requester)
    ensures r.status != Forbidden ==> r.status == Done
    ensures r.canteens != canteens ==> id in canteens && canteens[id].ownerId == requester
    ensures r.canteens.Keys == canteens.Keys && r.nextId == nextId
    ensures forall k :: k in canteens && k != id ==> r.canteens[k] == canteens[k]
    ensures forall k :: k in canteens ==> r.canteens[k].ownerId == canteens[k].ownerId
  {
    match LoadOwned(canteens, id, requester)
    case None => MenuReply(Forbidden, canteens, nextId)
    case Some(c) => MenuReply(Done, canteens[id := c.(menu := PullItem(c.menu, itemId))], nextId)
  }

  /** On an owner match, the items with that id are gone and the others keep their order. */
  lemma {:induction false} DeleteRemovesThatItem(canteens: map<Id, Canteen>, id: Id, requester: Id, itemId: Id, nextId: nat)
    requires id in canteens && canteens[id].ownerId == requester
    requires WellFormed(canteens, nextId)
    ensures var r := DeleteItem(canteens, id, requester, itemId, nextId);
      var menu := canteens[id].menu;
      && r.canteens[id] == canteens[id].(menu := r.canteens[id].menu)
      && (forall x :: x in r.canteens[id].menu <==> x in menu && x.id != itemId)
      && ((forall x :: x in menu ==> x.id != itemId) ==> r.canteens == canteens)
      && (forall k :: 0 <= k < |menu| && menu[k].id == itemId ==>
            r.canteens[id].menu == menu[..k] + menu[k + 1..])
  {
    var menu := canteens[id].menu;
    PullItemMembers(menu, itemId);
    if forall x :: x in menu ==> x.id != itemId {
      PullAbsentIsNoOp(menu, itemId);
      assert canteens[id := canteens[id].(menu := menu)] == canteens;
    }
    forall k | 0 <= k < |menu| && menu[k].id == itemId
      ensures PullItem(menu, itemId) == menu[..k] + menu[k + 1..]
    {
      PullRemovesOne(menu, k);
    }
  }

  // ---------------------------------------------------------------- add-canteen

  /**
   * add-canteen: a canteen under the fixed university, owned by its creator, whose menu is the
   * valid submitted items. An item field that is present but not a list makes the filter throw,
   * and an empty canteen name fails the store's required-field check: either way an error text and
   * nothing stored.
   */
  function AddCanteen(canteens: map<Id, Canteen>, owner: Id, canteenName: string,
                      menuItems: Items, nextId: nat): (r: MenuReply)
    ensures r.status == Done <==> canteenName != "" && !menuItems.NotAList?
    ensures r.status != Done ==> r.status == ErrorPage && r.canteens == canteens && r.nextId == nextId
    ensures r.status == Done ==>
      && r.canteens.Keys == canteens.Keys + {nextId}
      && r.canteens[nextId].ownerId == owner
      && r.canteens[nextId].name == canteenName
      && r.canteens[nextId].university == University
      && r.nextId > nextId
  {
    if menuItems.NotAList? || canteenName == "" then MenuReply(ErrorPage, canteens, nextId)
    else
      var valid := if menuItems.List? then ValidItems(menuItems.candidates) else [];
      var items := ToMenuItems(valid, nextId + 1);
      MenuReply(Done, canteens[nextId := Canteen(University, canteenName, items, owner)], nextId + 1 + |items|)
  }

  /** The new canteen's menu is the valid submitted items, in order; an absent list gives an empty menu. */
  lemma {:induction false} AddCanteenMenu(canteens: map<Id, Canteen>, owner: Id, canteenName: string,
                       menuItems: Items, nextId: nat)
    requires canteenName != "" && !menuItems.NotAList?
    ensures var r := AddCanteen(canteens, owner, canteenName, menuItems, nextId);
      var valid := if menuItems.List? then ValidItems(menuItems.candidates) else [];
      var menu := r.canteens[nextId].menu;
      && |menu| == |valid|
      && forall k :: 0 <= k < |menu| ==> menu[k].name == valid[k].name && menu[k].price == valid[k].price
  {
  }

  // ---------------------------------------------------------------- the store invariant

  /** Items with fresh, distinct ids appended to a menu keep its ids distinct. */
  lemma {:induction false} AppendFreshKeepsDistinct(menu: seq<MenuItem>, added: seq<MenuItem>, bound: nat)
    requires DistinctIds(menu) && IdsBelow(menu, bound) && DistinctIds(added)
    requires forall k :: 0 <= k < |added| ==> bound <= added[k].id
    ensures DistinctIds(menu + added)
  {
    var m := menu + added;
    forall i, j | 0 <= i < j < |m| ensures m[i].id != m[j].id {
      if j >= |menu| && i < |menu| {
        assert m[i] == menu[i] && m[j] == added[j - |menu|];
      } else if i >= |menu| {
        assert m[i] == added[i - |menu|] && m[j] == added[j - |menu|];
      }
    }
  }

  lemma {:induction false} EditKeepsWellFormed(canteens: map<Id, Canteen>, id: Id, requester: Id,
                            newItems: Items, nextId: nat)
    requires WellFormed(canteens, nextId)
    ensures var r := EditCanteen(canteens, id, requester, newItems, nextId);
      WellFormed(r.canteens, r.nextId)
  {
    var r := EditCanteen(canteens, id, requester, newItems, nextId);
    if r.canteens != canteens {
      var menu := canteens[id].menu;
      var added := ToMenuItems(ValidItems(newItems.candidates), nextId);
      assert r.canteens[id].menu == menu + added;
      AppendFreshKeepsDistinct(menu, added, nextId);
      assert IdsBelow(menu + added, r.nextId);
    }
  }

  lemma {:induction false} DeleteKeepsWellFormed(canteens: map<Id, Canteen>, id: Id, requester: Id, itemId: Id, nextId: nat)
    requires WellFormed(canteens, nextId)
    ensures var r := DeleteItem(canteens, id, requester, itemId, nextId);
      WellFormed(r.canteens, r.nextId)
  {
    var r := DeleteItem(canteens, id, requester, itemId, nextId);
    if r.canteens != canteens {
      var menu := canteens[id].menu;
      PullKeepsDistinct(menu, itemId);
      PullItemMembers(menu, itemId);
      var m := PullItem(menu, itemId);
      forall i | 0 <= i < |m| ensures m[i].id < nextId {
        assert m[i] in m;
        var j :| 0 <= j < |menu| && menu[j] == m[i];
      }
    }
  }

  /** Creating a canteen gives it an id no existing canteen has and keeps the invariant. */
  lemma {:induction false} AddCanteenKeepsWellFormed(canteens: map<Id, Canteen>, owner: Id, canteenName: string,
                                  menuItems: Items, nextId: nat)
    requires WellFormed(canteens, nextId)
    ensures var r := AddCanteen(canteens, owner, canteenName, menuItems, nextId);
      && WellFormed(r.canteens, r.nextId)
      && (r.status == Done ==> nextId !in canteens && forall k :: k in canteens ==> r.canteens[k] == canteens[k])
  {
  }

  /**
   * The worked example: canteen 1 owned by user 10 with the single item 2 ("Coffee", 3.00). User 11
   * asking to delete item 2 is refused and nothing changes; user 10 asking gets an empty menu.
   */
  lemma DeleteScenario()
    ensures var coffee := MenuItem(2, "Coffee", 300);
      var canteens := map[1 := Canteen(University, "C1", [coffee], 10)];
      && DeleteItem(canteens, 1, 11, 2, 3) == MenuReply(Forbidden, canteens, 3)
      && DeleteItem(canteens, 1, 10, 2, 3).status == Done
      && DeleteItem(canteens, 1, 10, 2, 3).canteens[1].menu == []
  {
    var coffee := MenuItem(2, "Coffee", 300);
    assert PullItem([coffee], 2) == [] + PullItem([], 2);
  }
}
