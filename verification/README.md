# Family planner shopping list, modelled in Dafny

This project models the shopping-list screen of the family planner app
(`planificateur-familial/app/shoppingList.tsx`). The screen keeps a local,
ordered list of items. Each item has a name, a quantity and a bought flag.
The screen mirrors that list to one shared remote document and can export
the list as a text message.

The model has six modules, one per concern:

- `Wrappers` (`wrappers.dfy`): `Option`, for a document that may not exist and a field it may lack.
- `Text` (`text.dfy`): JavaScript's `trim`, "blank" as "every character is one `trim` removes", and a line view of text (join and split).
- `Items` (`items.dfy`): the `Item` value (the `ShoppingItem` type, `planificateur-familial/app/shoppingList.tsx` lines 20-24), the to-buy/bought filter, and flipping or removing the item at an index.
- `Share` (`share.dfy`): the share message as the screen builds it (`ShareMessage`), the same message as a list of lines (`ShareLines`), and the loop that appends the entries.
- `Sync` (`sync.dfy`): the remote document `Doc`, what a snapshot notification does to the local list, the save trigger, and what a save writes.
- `Screen` (`screen.dfy`): the screen as a class with its four state fields (`itemName`, `quantity`, `shoppingList`, `modalVisible`), one method per handler, and the remote document as a class holding an `Option<Doc>`.

Items are values. `toggleBoughtStatus` copies the list but flips the flag on an
item object that the old list shares. The model uses the new list value the
handler produces.

## Model

| member | source | states |
|---|---|---|
| `Text.TrimStartDrops` | planificateur-familial/app/shoppingList.tsx:80 | the first half of `trim()` drops a blank prefix and stops at the first character it keeps |
| `Text.TrimEndDrops` | planificateur-familial/app/shoppingList.tsx:80 | the second half of `trim()` drops a blank suffix and stops at the last character it keeps |
| `Text.Trim` | planificateur-familial/app/shoppingList.tsx:80 | `trim()` is no longer than its input, starts and ends with a kept character, and is empty exactly when the input is blank |
| `Text.TrimIsInfix` | planificateur-familial/app/shoppingList.tsx:80 | `trim()` yields an infix of its input: what it drops before and after it is blank |
| `Screen.CanAdd` | planificateur-familial/app/shoppingList.tsx:80 | the add check passes exactly when neither the name nor the quantity is blank |
| `Screen.ShoppingListScreen.constructor` | planificateur-familial/app/shoppingList.tsx:28-31 | a mounted screen starts with empty fields, an empty list and the form closed |
| `Screen.ShoppingListScreen.OpenForm` | planificateur-familial/app/shoppingList.tsx:180 | the add button opens the form |
| `Screen.ShoppingListScreen.CloseForm` | planificateur-familial/app/shoppingList.tsx:193-195 | dismissing the form closes it and touches nothing else |
| `Screen.ShoppingListScreen.EditItemName` | planificateur-familial/app/shoppingList.tsx:204 | typing sets the name field and nothing else |
| `Screen.ShoppingListScreen.EditQuantity` | planificateur-familial/app/shoppingList.tsx:210 | typing sets the quantity field and nothing else |
| `Screen.ShoppingListScreen.AddItem` | planificateur-familial/app/shoppingList.tsx:79-88 | a blank name or quantity leaves the whole state unchanged; otherwise the list becomes old list + [untrimmed name, untrimmed quantity, not bought], both fields are cleared and the form closes |
| `Items.Toggled` | planificateur-familial/app/shoppingList.tsx:90-92 | same length; item `index` keeps its name and quantity and has its flag flipped; every other item is unchanged |
| `Items.ToggledTwice` | planificateur-familial/app/shoppingList.tsx:90-92 | toggling the same index twice restores the list |
| `Screen.ShoppingListScreen.ToggleBoughtStatus` | planificateur-familial/app/shoppingList.tsx:90-95 | the list becomes the toggled list and the document is saved with it |
| `Items.Removed` | planificateur-familial/app/shoppingList.tsx:97-99 | one item shorter; items before `index` keep their place, later ones shift down by one |
| `Items.RemovedReinsert` | planificateur-familial/app/shoppingList.tsx:97-99 | reinserting the removed item at `index` restores the list; exactly one copy of it is gone |
| `Screen.ShoppingListScreen.DeleteItemAsWritten` | planificateur-familial/app/shoppingList.tsx:97-102 | the list loses item `index`, but the document is saved with the list from before the deletion |
| `Screen.ShoppingListScreen.DeleteItem` | planificateur-familial/app/shoppingList.tsx:97-102 | the list loses item `index` and the document is saved with the new list |
| `Screen.DeleteOnlyItemAsWritten` | planificateur-familial/app/shoppingList.tsx:97-102 | deleting the only item as written: the document keeps the item and the next notification puts it back in the list |
| `Screen.DeleteOnlyItem` | planificateur-familial/app/shoppingList.tsx:97-102 | deleting the only item as intended: the list and the document both end empty |
| `Items.WithStatus` | planificateur-familial/app/shoppingList.tsx:116-117 | every item kept has the requested status and comes from the list |
| `Items.WithStatusAppend` | planificateur-familial/app/shoppingList.tsx:116-117 | the filter keeps list order: filtering `a + b` is filtering `a` then filtering `b` |
| `Items.WithStatusCounts` | planificateur-familial/app/shoppingList.tsx:116-117 | an item with the status is kept as often as it occurs in the list; others never |
| `Items.WithStatusPartition` | planificateur-familial/app/shoppingList.tsx:116-117 | the to-buy and bought groups together are the list up to order |
| `Items.WithStatusEmptyIff` | planificateur-familial/app/shoppingList.tsx:116-117 | a group is empty exactly when no item has its status |
| `Share.EntriesAsLines` | planificateur-familial/app/shoppingList.tsx:123-125 | the entries text appended for a group is one `- name (quantity)` line per item of the group, in order, each ended by a line break (the same `forEach` fills the bought group at lines 132-134) |
| `Share.EntryLine` | planificateur-familial/app/shoppingList.tsx:124 | an item is shown as `- name (quantity)`, a line starting with `-` |
| `Share.AppendEntries` | planificateur-familial/app/shoppingList.tsx:123-125 | the `forEach` loop appends exactly the entries of the items, in order, to the message |
| `Share.ShareMessage` | planificateur-familial/app/shoppingList.tsx:119-135 | the message always starts with the header |
| `Screen.ShoppingListScreen.ShareList` | planificateur-familial/app/shoppingList.tsx:115-135 | the message the loops build is `ShareMessage` of the current list |
| `Share.CelebrationIffAllBought` | planificateur-familial/app/shoppingList.tsx:121-128 | the "Tout est acheté !" line follows the header exactly when no item is left to buy (the empty list included) |
| `Share.ShareMessageIsJoinedLines` | planificateur-familial/app/shoppingList.tsx:119-135 | the message is the line-by-line description `ShareLines`, each line followed by a line break |
| `Share.ShareMessageDecodes` | planificateur-familial/app/shoppingList.tsx:119-135 | with single-line names and quantities, splitting the message at line breaks gives back exactly `ShareLines` |
| `Share.AllBoughtLineIff` | planificateur-familial/app/shoppingList.tsx:121-128 | the celebration line is among the lines exactly when every item is bought |
| `Share.ToBuySectionIff` | planificateur-familial/app/shoppingList.tsx:121-125 | the "À acheter" title is among the lines exactly when some item is not bought |
| `Share.BoughtSectionIff` | planificateur-familial/app/shoppingList.tsx:130-135 | the "Déjà acheté" title is among the lines exactly when some item is bought |
| `Share.ItemLinesInOrder` | planificateur-familial/app/shoppingList.tsx:116-134 | the item lines are the unbought items then the bought items, each group in list order |
| `Share.EachItemOnce` | planificateur-familial/app/shoppingList.tsx:116-134 | the item lines are the lines of the to-buy group followed by the bought group, and those groups together are a rearrangement of the list: every item is shown on exactly one item line |
| `Sync.SnapshotList` | planificateur-familial/app/shoppingList.tsx:49-54 | a notification of an existing document replaces the local list with its `items`, or with the empty list when it has none; a notification of a missing document leaves the list as it was |
| `Sync.SnapshotIdempotent` | planificateur-familial/app/shoppingList.tsx:49-54 | applying the same notification twice is the same as applying it once |
| `Screen.ShoppingListScreen.OnSnapshot` | planificateur-familial/app/shoppingList.tsx:47-55 | the callback sets the list as the snapshot rule says |
| `Sync.ShouldSave` | planificateur-familial/app/shoppingList.tsx:42 | the save trigger fires exactly when the list is non-empty |
| `Screen.ShoppingListScreen.OnShoppingListChanged` | planificateur-familial/app/shoppingList.tsx:41-45 | after a change, a non-empty list is saved and an empty one leaves the document as it was |
| `Sync.SavedDocument` | planificateur-familial/app/shoppingList.tsx:66-71 | after a save the document exists and its `items` is the list; an updated document keeps `members`, a created one has none |
| `Screen.ShoppingListScreen.SaveShoppingList` | planificateur-familial/app/shoppingList.tsx:60-72 | reading the document, then updating or creating it, leaves it as `SavedDocument` of the old document and the list |
| `Sync.SaveThenSnapshotConverges` | planificateur-familial/app/shoppingList.tsx:49-72 | the notification that follows a save gives every subscriber exactly the saved list |
| `Screen.AddItemSettled` | planificateur-familial/app/shoppingList.tsx:79-88 | adding an item, then the effect and the notification it sets off: the list gains the item and the document's `items` equals the local list; a refused add changes neither the screen nor the document |
| `Screen.ToggleSettled` | planificateur-familial/app/shoppingList.tsx:90-95 | toggling, then the effect and the notification: the list is the toggled list and the document's `items` equals it, whatever the document held before |
| `Screen.DeleteAsWrittenSettled` | planificateur-familial/app/shoppingList.tsx:97-102 | `deleteItem` as written, then the effect and the notification: the document's `items` equals the local list, which is the list without the item when another item is left and the list from before the deletion otherwise |
| `Screen.DeleteSettled` | planificateur-familial/app/shoppingList.tsx:97-102 | `deleteItem` as intended, then the effect and the notification: both the local list and the document's `items` are the list without the item |

## Left out

- `planificateur-familial/app/login.tsx` is not part of this model. Its sign-in, sign-up and password-reset calls go straight to the identity provider.
- `addMemberToList` is not modelled. It is a single array-union write to `members` done by the document store.
- The document store itself is not modelled. Subscribing, reading, updating and creating are the store's operations. The model keeps only the document as an `Option<Doc>` and what each rule does with it. The function `loadShoppingList` returns to unsubscribe is discarded by the mount effect (lines 37-39), so the screen never unsubscribes; the model has no unmount either.
- Screen.ShoppingListScreen.SaveShoppingList: does not model a failed read or write. The source catches and logs the failure and leaves both the document and the list as they were.
- Screen.ShoppingListScreen.ShareList: handing the message to the share sheet, and a failure of it, are I/O and are not modelled. All logging is left out too.
- Effect scheduling is not modelled. `toggleBoughtStatus` always starts two saves (its own and the effect's), and `deleteItem` starts two when at least one item is left; the later write wins. The settled methods run the handler's save, then the effect's, then one notification. The order of these writes and the races between clients are concurrency, not sequential behaviour.
- Screen.ShoppingListScreen.ToggleBoughtStatus: requires an index inside the list, because the only caller passes the index of an item it is rendering. Out-of-range and negative indices are not modelled.
- Screen.ShoppingListScreen.DeleteItem: requires an index inside the list, for the same reason.
- Screen.ShoppingListScreen.DeleteItemAsWritten: requires an index inside the list, for the same reason.
- The fixed list identifier (`famille123`) is not modelled. There is one document and it is the one the screen uses.
- Rendering and styles are not modelled.

## Findings

| source | as written | input that shows it | evidently intended | confidence | as-written member | corrected member |
|---|---|---|---|---|---|---|
| planificateur-familial/app/shoppingList.tsx:97-102 | `deleteItem` calls `saveShoppingList()`, which reads the `shoppingList` of the render the handler belongs to. That list still holds the deleted item. | A list holding one item `x`, then a long press on it. The explicit save writes `[x]`, and the effect does not save the empty list. The document keeps `[x]`, and the next notification of it (for example when the screen is mounted again) puts `[x]` back in the list. | The explicit save persists the list without the deleted item, so the deletion sticks. | medium; not executed | `Screen.DeleteOnlyItemAsWritten` | `Screen.DeleteOnlyItem` |
