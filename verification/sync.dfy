/**
 * The rules that keep the local list and the shared remote document in step,
 * stated over an abstract document: the store itself (subscriptions, reads,
 * writes) is outside the model, only what each rule does with a document is here.
 */
module Sync {
  import opened Wrappers
  import opened Items

  /**
   * The remote document `shoppingLists/famille123` as the screen sees it. A field
   * the document lacks is `None`; `members` is only ever written by other code.
   */
  datatype Doc = Doc(items: Option<seq<Item>>, members: Option<seq<string>>)

  /**
   * The local list after a snapshot notification: an existing document replaces
   * it with the document's `items` (`doc.data().items || []`); a missing document
   * is only logged and leaves the list as it was.
   */
  function SnapshotList(snapshot: Option<Doc>, local: seq<Item>): (r: seq<Item>)
    ensures snapshot.Some? && snapshot.value.items.Some? ==> r == snapshot.value.items.value
    ensures snapshot.Some? && snapshot.value.items.None? ==> r == []
    ensures snapshot.None? ==> r == local
  {
    match snapshot
    case Some(d) => d.items.GetOr([])
    case None => local
  }

  /** The save trigger: the effect saves only a non-empty list. */
  predicate ShouldSave(list: seq<Item>): (save: bool)
    ensures save <==> list != []
  {
    |list| > 0
  }

  /**
   * The document after saving `list`: an existing document gets its `items`
   * field updated and keeps its other fields; otherwise a document holding only
   * `items` is created.
   */
  function SavedDocument(existing: Option<Doc>, list: seq<Item>): (saved: Doc)
    ensures saved.items == Some(list)
    ensures existing.Some? ==> saved.members == existing.value.members
    ensures existing.None? ==> saved.members == None
  {
    match existing
    case Some(d) => d.(items := Some(list))
    case None => Doc(Some(list), None)
  }

  /** Receiving the same notification twice (the echo of one's own write) changes nothing more. */
  lemma SnapshotIdempotent(snapshot: Option<Doc>, local: seq<Item>)
    ensures SnapshotList(snapshot, SnapshotList(snapshot, local)) == SnapshotList(snapshot, local)
  {
  }

  /** The round trip: the notification that follows a save gives every subscriber the saved list. */
  lemma SaveThenSnapshotConverges(existing: Option<Doc>, list: seq<Item>, local: seq<Item>)
    ensures SnapshotList(Some(SavedDocument(existing, list)), local) == list
  {
  }
}
