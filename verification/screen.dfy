/**
 * The shopping-list screen: its four pieces of state (the two fields of the
 * add form, the list, whether the form is open) and the handlers that change
 * them, together with the remote document the list is saved to.
 */
module Screen {
  import opened Wrappers
  import opened Text
  import opened Items
  import opened Share
  import opened Sync

  /** The add form's check: both fields hold something other than whitespace once trimmed. */
  function CanAdd(itemName: string, quantity: string): (ok: bool)
    ensures ok <==> !IsBlank(itemName) && !IsBlank(quantity)
  {
    |Trim(itemName)| > 0 && |Trim(quantity)| > 0
  }

  /** The remote document the list is mirrored to; `None` until it is first created. */
  class ListDocument {
    var current: Option<Doc>

    constructor (initial: Option<Doc>)
      ensures current == initial
    {
      current := initial;
    }
  }

  class ShoppingListScreen {
    var itemName: string
    var quantity: string
    var shoppingList: seq<Item>
    var modalVisible: bool

    /** The state a freshly mounted screen starts from. */
    constructor ()
      ensures itemName == "" && quantity == "" && shoppingList == [] && !modalVisible
    {
      itemName, quantity, shoppingList, modalVisible := "", "", [], false;
    }

    /** The "Ajouter un Article" button opens the form. */
    method OpenForm()
      modifies this`modalVisible
      ensures modalVisible
    {
      modalVisible := true;
    }

    /** Tapping outside the form, or the back gesture, closes it and keeps what was typed. */
    method CloseForm()
      modifies this`modalVisible
      ensures !modalVisible
    {
      modalVisible := false;
    }

    /** Typing in the name field. */
    method EditItemName(text: string)
      modifies this`itemName
      ensures itemName == text
    {
      itemName := text;
    }

    /** Typing in the quantity field. */
    method EditQuantity(text: string)
      modifies this`quantity
      ensures quantity == text
    {
      quantity := text;
    }

    /**
     * `addItem`: with both fields non-blank, appends a not-yet-bought item holding
     * the fields exactly as typed (untrimmed), clears the fields and closes the
     * form; otherwise nothing changes and the form stays as it is.
     */
    method AddItem()
      modifies this
      ensures !CanAdd(old(itemName), old(quantity)) ==> unchanged(this)
      ensures CanAdd(old(itemName), old(quantity)) ==>
        && shoppingList == old(shoppingList) + [Item(old(itemName), old(quantity), false)]
        && itemName == "" && quantity == "" && !modalVisible
    {
      if CanAdd(itemName, quantity) {
        var newItem := Item(itemName, quantity, false);
        shoppingList := shoppingList + [newItem];
        itemName := "";
        quantity := "";
        modalVisible := false;
      }
    }

    /**
     * `toggleBoughtStatus`: flips the bought flag of one item and saves. The save
     * reads the list of the render the handler belongs to, but that list shares
     * its item objects with the new one, so what it writes is the toggled list.
     */
    method ToggleBoughtStatus(index: nat, remote: ListDocument)
      requires index < |shoppingList|
      modifies this`shoppingList, remote`current
      ensures shoppingList == Toggled(old(shoppingList), index)
      ensures remote.current == Some(SavedDocument(old(remote.current), shoppingList))
    {
      shoppingList := Toggled(shoppingList, index);
      SaveShoppingList(remote);
    }

    /**
     * `deleteItem` as it is written: removes one item, but the save it calls reads
     * the list of the render the handler belongs to, which still holds the item,
     * so the document gets the list from before the deletion.
     */
    method DeleteItemAsWritten(index: nat, remote: ListDocument)
      requires index < |shoppingList|
      modifies this`shoppingList, remote`current
      ensures shoppingList == Removed(old(shoppingList), index)
      ensures remote.current == Some(SavedDocument(old(remote.current), old(shoppingList)))
    {
      var updatedList := Removed(shoppingList, index);
      SaveShoppingList(remote);
      shoppingList := updatedList;
    }

    /** `deleteItem` as intended: removes one item and saves the list without it. */
    method DeleteItem(index: nat, remote: ListDocument)
      requires index < |shoppingList|
      modifies this`shoppingList, remote`current
      ensures shoppingList == Removed(old(shoppingList), index)
      ensures remote.current == Some(SavedDocument(old(remote.current), shoppingList))
    {
      shoppingList := Removed(shoppingList, index);
      SaveShoppingList(remote);
    }

    /**
     * `saveShoppingList`: reads the document, then updates its `items` if it
     * exists and creates it holding the list otherwise.
     */
    method SaveShoppingList(remote: ListDocument)
      modifies remote`current
      ensures remote.current == Some(SavedDocument(old(remote.current), shoppingList))
    {
      var existing := remote.current;
      if existing.Some? {
        remote.current := Some(existing.value.(items := Some(shoppingList)));
      } else {
        remote.current := Some(Doc(Some(shoppingList), None));
      }
    }

    /** The effect that runs after every change of the list: it saves a non-empty list and ignores an empty one. */
    method OnShoppingListChanged(remote: ListDocument)
      modifies remote`current
      ensures ShouldSave(shoppingList) ==> remote.current == Some(SavedDocument(old(remote.current), shoppingList))
      ensures !ShouldSave(shoppingList) ==> remote.current == old(remote.current)
    {
      if |shoppingList| > 0 {
        SaveShoppingList(remote);
      }
    }

    /** The subscription callback: an existing document replaces the list, a missing one leaves it. */
    method OnSnapshot(snapshot: Option<Doc>)
      modifies this`shoppingList
      ensures shoppingList == SnapshotList(snapshot, old(shoppingList))
    {
      if snapshot.Some? {
        shoppingList := snapshot.value.items.GetOr([]);
      }
    }

    /** `shareList`: the message handed to the share sheet. */
    method ShareList() returns (message: string)
      ensures message == ShareMessage(shoppingList)
    {
      var itemsToBuy := WithStatus(shoppingList, false);
      var boughtItems := WithStatus(shoppingList, true);
      message := Header;
      if |itemsToBuy| > 0 {
        message := AppendEntries(message + ToBuyTitle, itemsToBuy);
      } else {
        message := message + AllBought;
      }
      assert message == Header + ToBuySection(itemsToBuy);
      ghost var afterToBuy := message;
      if |boughtItems| > 0 {
        message := AppendEntries(message + BoughtTitle, boughtItems);
      }
      assert message == afterToBuy + BoughtSection(boughtItems);
    }
  }

  /** The local list and the document's `items` agree. */
  predicate InStep(screen: ShoppingListScreen, remote: ListDocument)
    reads screen, remote
  {
    remote.current.Some? && remote.current.value.items == Some(screen.shoppingList)
  }

  /**
   * A handler followed by what it sets off: the effect on the new list, then the
   * notification of the document as the writes left it.
   */
  method AddItemSettled(screen: ShoppingListScreen, remote: ListDocument)
    modifies screen, remote`current
    ensures CanAdd(old(screen.itemName), old(screen.quantity)) ==>
      && screen.shoppingList == old(screen.shoppingList) + [Item(old(screen.itemName), old(screen.quantity), false)]
      && InStep(screen, remote)
    ensures !CanAdd(old(screen.itemName), old(screen.quantity)) ==> unchanged(screen) && unchanged(remote)
  {
    // the effect runs only when the handler set a new list, which then holds one more item
    var before := screen.shoppingList;
    screen.AddItem();
    if |screen.shoppingList| != |before| {
      assert ShouldSave(screen.shoppingList);
      screen.OnShoppingListChanged(remote);
      assert remote.current.value.items == Some(screen.shoppingList);
      screen.OnSnapshot(remote.current);
    }
  }

  /** `toggleBoughtStatus`, settled: both sides hold the toggled list. */
  method ToggleSettled(screen: ShoppingListScreen, index: nat, remote: ListDocument)
    requires index < |screen.shoppingList|
    modifies screen`shoppingList, remote`current
    ensures InStep(screen, remote)
    ensures screen.shoppingList == Toggled(old(screen.shoppingList), index)
  {
    screen.ToggleBoughtStatus(index, remote);
    screen.OnShoppingListChanged(remote);
    screen.OnSnapshot(remote.current);
  }

  /**
   * `deleteItem` as written, settled: the two sides agree, on the list without the
   * item when some item is left, and on the list from before otherwise.
   */
  method DeleteAsWrittenSettled(screen: ShoppingListScreen, index: nat, remote: ListDocument)
    requires index < |screen.shoppingList|
    modifies screen`shoppingList, remote`current
    ensures InStep(screen, remote)
    ensures screen.shoppingList ==
      if |old(screen.shoppingList)| > 1 then Removed(old(screen.shoppingList), index) else old(screen.shoppingList)
  {
    screen.DeleteItemAsWritten(index, remote);
    screen.OnShoppingListChanged(remote);
    screen.OnSnapshot(remote.current);
  }

  /** `deleteItem` as intended, settled: both sides hold the list without the item. */
  method DeleteSettled(screen: ShoppingListScreen, index: nat, remote: ListDocument)
    requires index < |screen.shoppingList|
    modifies screen`shoppingList, remote`current
    ensures InStep(screen, remote)
    ensures screen.shoppingList == Removed(old(screen.shoppingList), index)
  {
    screen.DeleteItem(index, remote);
    screen.OnShoppingListChanged(remote);
    screen.OnSnapshot(remote.current);
  }

  /**
   * Deleting the only item, with `deleteItem` as written: the stale save puts the
   * item back in the document and the effect does not save the now empty list,
   * so the document keeps the item and the next notification puts it back.
   */
  method DeleteOnlyItemAsWritten(x: Item, members: Option<seq<string>>)
    returns (finalList: seq<Item>, stored: Option<Doc>)
    ensures finalList == [x]
    ensures stored == Some(Doc(Some([x]), members))
  {
    var remote := new ListDocument(Some(Doc(Some([x]), members)));
    var screen := new ShoppingListScreen();
    screen.OnSnapshot(remote.current);
    screen.DeleteItemAsWritten(0, remote);
    screen.OnShoppingListChanged(remote);
    screen.OnSnapshot(remote.current);
    finalList, stored := screen.shoppingList, remote.current;
  }

  /** The same scenario with `deleteItem` as intended: the item stays deleted, locally and remotely. */
  method DeleteOnlyItem(x: Item, members: Option<seq<string>>)
    returns (finalList: seq<Item>, stored: Option<Doc>)
    ensures finalList == []
    ensures stored == Some(Doc(Some([]), members))
  {
    var remote := new ListDocument(Some(Doc(Some([x]), members)));
    var screen := new ShoppingListScreen();
    screen.OnSnapshot(remote.current);
    screen.DeleteItem(0, remote);
    screen.OnShoppingListChanged(remote);
    screen.OnSnapshot(remote.current);
    finalList, stored := screen.shoppingList, remote.current;
  }
}
