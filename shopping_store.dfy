/** The shopping-list slice of the app state and its four updaters. */
module ShoppingStore {
  import opened Types
  import opened Seqs

  /** `handleAddToShoppingList`: a new unchecked entry at the end. */
  function AddEntry(items: seq<ShoppingItem>, name: string, department: Department, id: string): (r: seq<ShoppingItem>)
    ensures |r| == |items| + 1 && r[..|items|] == items
    ensures r[|items|] == ShoppingItem(id, name, department, false)
  {
    items + [ShoppingItem(id, name, department, false)]
  }

  /** `handleToggleShoppingItem`: flips `checked` on the entries with the id, nothing else. */
  function Toggle(items: seq<ShoppingItem>, id: string): (r: seq<ShoppingItem>)
    ensures |r| == |items|
    ensures forall i :: 0 <= i < |items| ==>
      && r[i].id == items[i].id && r[i].name == items[i].name && r[i].department == items[i].department
      && (r[i].checked <==> (if items[i].id == id then !items[i].checked else items[i].checked))
  {
    seq(|items|, i requires 0 <= i < |items| =>
      if items[i].id == id then items[i].(checked := !items[i].checked) else items[i])
  }

  /** Toggling the same id twice gives the list back. */
  lemma ToggleTwiceIsIdentity(items: seq<ShoppingItem>, id: string)
    ensures Toggle(Toggle(items, id), id) == items
  {
    var r := Toggle(Toggle(items, id), id);
    assert forall i :: 0 <= i < |items| ==> r[i] == items[i];
  }

  /**
   * `handleDeleteShoppingItem`: the entries with the id go, every other entry stays as often as
   * it was there, in order (see `DeleteConcat`).
   */
  function DeleteEntry(items: seq<ShoppingItem>, id: string): (r: seq<ShoppingItem>)
    ensures forall i :: 0 <= i < |r| ==> r[i].id != id && r[i] in items
    ensures forall i :: 0 <= i < |items| && items[i].id != id ==> items[i] in r
    ensures forall x :: multiset(r)[x] == if x.id != id then multiset(items)[x] else 0
  {
    FilterCounts(items, (item: ShoppingItem) => item.id != id);
    Filter(items, (item: ShoppingItem) => item.id != id)
  }

  /** Deleting keeps relative order: deleting from a concatenation deletes from each part. */
  lemma DeleteConcat(a: seq<ShoppingItem>, b: seq<ShoppingItem>, id: string)
    ensures DeleteEntry(a + b, id) == DeleteEntry(a, id) + DeleteEntry(b, id)
  {
    FilterConcat(a, b, (item: ShoppingItem) => item.id != id);
  }

  /** Deleting the entry just added under a fresh id gives back the list before the add. */
  lemma DeleteUndoesAdd(items: seq<ShoppingItem>, name: string, department: Department, id: string)
    requires forall i :: 0 <= i < |items| ==> items[i].id != id
    ensures DeleteEntry(AddEntry(items, name, department, id), id) == items
  {
    var p := (item: ShoppingItem) => item.id != id;
    var e := ShoppingItem(id, name, department, false);
    FilterConcat(items, [e], p);
    assert [e][1..] == [];
    FilterKeepsAll(items, p);
  }

  predicate IsChecked(item: ShoppingItem) {
    item.checked
  }

  predicate IsUnchecked(item: ShoppingItem) {
    !item.checked
  }

  /** The checked entries, in order. */
  function CheckedEntries(items: seq<ShoppingItem>): seq<ShoppingItem> {
    Filter(items, IsChecked)
  }

  /** `handleClearShoppingList`: keeps exactly the unchecked entries, in their order. */
  function ClearCompleted(items: seq<ShoppingItem>): (r: seq<ShoppingItem>)
    ensures forall i :: 0 <= i < |r| ==> !r[i].checked && r[i] in items
    ensures forall i :: 0 <= i < |items| && !items[i].checked ==> items[i] in r
    ensures multiset(r) + multiset(CheckedEntries(items)) == multiset(items)
  {
    FilterPartition(items, IsUnchecked, IsChecked);
    Filter(items, IsUnchecked)
  }

  /** Clearing keeps relative order: clearing a concatenation clears each part. */
  lemma ClearCompletedConcat(a: seq<ShoppingItem>, b: seq<ShoppingItem>)
    ensures ClearCompleted(a + b) == ClearCompleted(a) + ClearCompleted(b)
  {
    FilterConcat(a, b, IsUnchecked);
  }

  /** A list with nothing checked is left as it is, so clearing twice is clearing once. */
  lemma ClearCompletedIdempotent(items: seq<ShoppingItem>)
    ensures ClearCompleted(ClearCompleted(items)) == ClearCompleted(items)
    ensures CheckedEntries(ClearCompleted(items)) == []
  {
    FilterIdempotent(items, IsUnchecked);
    FilterDropsAll(ClearCompleted(items), IsChecked);
  }
}
