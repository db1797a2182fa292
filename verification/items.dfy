/**
 * The shopping items and the list operations the screen applies to them: the
 * "to buy" / "bought" partition used when sharing, flipping one item's bought
 * flag, and removing one item. Items have no identity besides their position.
 */
module Items {

  /** One entry of the list: free-form name and quantity, and whether it has been bought. */
  datatype Item = Item(name: string, quantity: string, isBought: bool)

  /**
   * `list.filter(item => item.isBought == bought)`: the items with the given
   * status, in list order.
   */
  function WithStatus(list: seq<Item>, bought: bool): (r: seq<Item>)
    ensures |r| <= |list|
    ensures forall i :: 0 <= i < |r| ==> r[i].isBought == bought && r[i] in list
  {
    if list == [] then []
    else
      var last := list[|list| - 1];
      WithStatus(list[..|list| - 1], bought) + (if last.isBought == bought then [last] else [])
  }

  /** Filtering keeps order: the items of `a` come out before those of `b`. */
  lemma {:induction false} WithStatusAppend(a: seq<Item>, b: seq<Item>, bought: bool)
    ensures WithStatus(a + b, bought) == WithStatus(a, bought) + WithStatus(b, bought)
  {
    if b == [] {
      assert a + b == a;
    } else {
      assert (a + b)[..|a + b| - 1] == a + b[..|b| - 1];
      WithStatusAppend(a, b[..|b| - 1], bought);
    }
  }

  /** Each item with the status is kept exactly as often as it occurs; no other item is kept. */
  lemma {:induction false} WithStatusCounts(list: seq<Item>, bought: bool, x: Item)
    ensures multiset(WithStatus(list, bought))[x] == if x.isBought == bought then multiset(list)[x] else 0
  {
    if list != [] {
      var init := list[..|list| - 1];
      assert list == init + [list[|list| - 1]];
      WithStatusCounts(init, bought, x);
    }
  }

  /** The two groups together are the list, up to order: every item lands in exactly one group. */
  lemma WithStatusPartition(list: seq<Item>)
    ensures multiset(WithStatus(list, false)) + multiset(WithStatus(list, true)) == multiset(list)
  {
    forall x: Item
      ensures (multiset(WithStatus(list, false)) + multiset(WithStatus(list, true)))[x] == multiset(list)[x]
    {
      WithStatusCounts(list, false, x);
      WithStatusCounts(list, true, x);
    }
  }

  /** A group is empty exactly when no item has its status. */
  lemma {:induction false} WithStatusEmptyIff(list: seq<Item>, bought: bool)
    ensures WithStatus(list, bought) == [] <==> forall i :: 0 <= i < |list| ==> list[i].isBought != bought
  {
    if list != [] {
      var init := list[..|list| - 1];
      WithStatusEmptyIff(init, bought);
      assert forall i :: 0 <= i < |init| ==> init[i] == list[i];
    }
  }

  /** The list after `updatedList[index].isBought = !updatedList[index].isBought`. */
  function Toggled(list: seq<Item>, index: nat): (r: seq<Item>)
    requires index < |list|
    ensures |r| == |list|
    ensures r[index].name == list[index].name && r[index].quantity == list[index].quantity
    ensures r[index].isBought == !list[index].isBought
    ensures forall j :: 0 <= j < |list| && j != index ==> r[j] == list[j]
  {
    list[index := list[index].(isBought := !list[index].isBought)]
  }

  /** Toggling the same item twice gives the original list back. */
  lemma ToggledTwice(list: seq<Item>, index: nat)
    requires index < |list|
    ensures Toggled(Toggled(list, index), index) == list
  {
  }

  /** The list after `updatedList.splice(index, 1)`. */
  function Removed(list: seq<Item>, index: nat): (r: seq<Item>)
    requires index < |list|
    ensures |r| == |list| - 1
    ensures forall j :: 0 <= j < index ==> r[j] == list[j]
    ensures forall j :: index <= j < |r| ==> r[j] == list[j + 1]
  {
    list[..index] + list[index + 1..]
  }

  /** Putting the removed item back at its position restores the list; one copy of it is gone. */
  lemma RemovedReinsert(list: seq<Item>, index: nat)
    requires index < |list|
    ensures Removed(list, index)[..index] + [list[index]] + Removed(list, index)[index..] == list
    ensures multiset(Removed(list, index)) + multiset{list[index]} == multiset(list)
  {
    var r := Removed(list, index);
    assert r[..index] == list[..index];
    assert r[index..] == list[index + 1..];
    assert list == list[..index] + [list[index]] + list[index + 1..];
  }
}
