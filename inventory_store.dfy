/** The inventory slice of the app state: its updaters and the filtered, sorted view. */
module InventoryStore {
  import opened Types
  import opened Seqs
  import opened Text
  import opened Dates

  /** What the add form hands over: an item without `id`, `addedDate` and `userId`. */
  datatype ItemDraft = ItemDraft(name: string, location: StorageLocation, quantity: string, unit: Unit, expiryDate: Day)

  /** The stored item built from a draft, a fresh id and the current time. */
  function NewItem(draft: ItemDraft, id: string, now: int): (item: InventoryItem)
    ensures item.id == id && item.addedDate == now && item.userId == "currentUser"
    ensures item.name == draft.name && item.location == draft.location && item.quantity == draft.quantity
    ensures item.unit == draft.unit && item.expiryDate == draft.expiryDate
  {
    InventoryItem(id, draft.name, draft.location, draft.quantity, draft.unit, draft.expiryDate, now, "currentUser")
  }

  /** `handleAddItem`: the new item goes in front of the others, which stay as they were. */
  function AddItem(inventory: seq<InventoryItem>, draft: ItemDraft, id: string, now: int): (r: seq<InventoryItem>)
    ensures |r| == |inventory| + 1 && r[0] == NewItem(draft, id, now) && r[1..] == inventory
  {
    [NewItem(draft, id, now)] + inventory
  }

  /**
   * `handleDeleteItem`: every item with the id goes, every other item stays as often as it was
   * there, in order (see `DeleteConcat`).
   */
  function DeleteItem(inventory: seq<InventoryItem>, id: string): (r: seq<InventoryItem>)
    ensures forall i :: 0 <= i < |r| ==> r[i].id != id && r[i] in inventory
    ensures forall i :: 0 <= i < |inventory| && inventory[i].id != id ==> inventory[i] in r
    ensures forall x :: multiset(r)[x] == if x.id != id then multiset(inventory)[x] else 0
  {
    FilterCounts(inventory, (item: InventoryItem) => item.id != id);
    Filter(inventory, (item: InventoryItem) => item.id != id)
  }

  /** Deleting keeps relative order: deleting from a concatenation deletes from each part. */
  lemma DeleteConcat(a: seq<InventoryItem>, b: seq<InventoryItem>, id: string)
    ensures DeleteItem(a + b, id) == DeleteItem(a, id) + DeleteItem(b, id)
  {
    FilterConcat(a, b, (item: InventoryItem) => item.id != id);
  }

  /** Deleting an id no item has changes nothing. */
  lemma DeleteAbsentIsIdentity(inventory: seq<InventoryItem>, id: string)
    requires forall i :: 0 <= i < |inventory| ==> inventory[i].id != id
    ensures DeleteItem(inventory, id) == inventory
  {
    FilterKeepsAll(inventory, (item: InventoryItem) => item.id != id);
  }

  /** Deleting the item just added under a fresh id gives back the inventory before the add. */
  lemma DeleteUndoesAdd(inventory: seq<InventoryItem>, draft: ItemDraft, id: string, now: int)
    requires forall i :: 0 <= i < |inventory| ==> inventory[i].id != id
    ensures DeleteItem(AddItem(inventory, draft, id, now), id) == inventory
  {
    var p := (item: InventoryItem) => item.id != id;
    FilterConcat([NewItem(draft, id, now)], inventory, p);
    assert [NewItem(draft, id, now)][1..] == [];
    FilterKeepsAll(inventory, p);
  }

  /** The location filter chip: every location, or a single one. */
  datatype LocationFilter = All | Only(location: StorageLocation)

  /** An item is listed when its location passes the chip and its name contains the search text, ignoring case. */
  predicate Matches(item: InventoryItem, filter: LocationFilter, search: string) {
    (filter == All || item.location == filter.location) && Includes(ToLower(item.name), ToLower(search))
  }

  function Matching(inventory: seq<InventoryItem>, filter: LocationFilter, search: string): seq<InventoryItem> {
    Filter(inventory, (item: InventoryItem) => Matches(item, filter, search))
  }

  predicate SortedByExpiry(s: seq<InventoryItem>) {
    forall i, j :: 0 <= i < j < |s| ==> s[i].expiryDate <= s[j].expiryDate
  }

  /** A sorted list stays sorted behind an item expiring no later than its first one. */
  lemma ConsSorted(y: InventoryItem, t: seq<InventoryItem>)
    requires SortedByExpiry(t) && (t == [] || y.expiryDate <= t[0].expiryDate)
    ensures SortedByExpiry([y] + t)
  {
    var r := [y] + t;
    forall i, j | 0 <= i < j < |r| ensures r[i].expiryDate <= r[j].expiryDate {
      if i == 0 {
        assert r[j] == t[j - 1];
        assert t[0].expiryDate <= t[j - 1].expiryDate;
      } else {
        assert r[i] == t[i - 1] && r[j] == t[j - 1];
      }
    }
  }

  /** The tail of a sorted list is sorted and expires no earlier than its head. */
  lemma SortedTail(s: seq<InventoryItem>)
    requires SortedByExpiry(s) && s != []
    ensures SortedByExpiry(s[1..])
    ensures |s| > 1 ==> s[0].expiryDate <= s[1..][0].expiryDate
  {
    var t := s[1..];
    forall i, j | 0 <= i < j < |t| ensures t[i].expiryDate <= t[j].expiryDate {
      assert t[i] == s[i + 1] && t[j] == s[j + 1];
    }
  }

  /** Puts `x` before the first item that does not expire earlier. */
  function InsertByExpiry(x: InventoryItem, s: seq<InventoryItem>): (r: seq<InventoryItem>)
    requires SortedByExpiry(s)
    ensures SortedByExpiry(r)
    ensures multiset(r) == multiset(s) + multiset{x}
    ensures r[0] == x || r[0] == s[0]
    decreases |s|
  {
    if s == [] || x.expiryDate <= s[0].expiryDate then
      ConsSorted(x, s);
      [x] + s
    else
      assert s == [s[0]] + s[1..];
      SortedTail(s);
      var t := InsertByExpiry(x, s[1..]);
      assert s[0].expiryDate <= t[0].expiryDate;
      ConsSorted(s[0], t);
      [s[0]] + t
  }

  /** `sort` by ascending expiry date with a stable sort. */
  function SortByExpiry(s: seq<InventoryItem>): (r: seq<InventoryItem>)
    ensures SortedByExpiry(r)
    ensures multiset(r) == multiset(s)
    decreases |s|
  {
    if s == [] then []
    else
      assert s == [s[0]] + s[1..];
      InsertByExpiry(s[0], SortByExpiry(s[1..]))
  }

  /** The items that expire on day `d`, in order. */
  function ExpiringOn(s: seq<InventoryItem>, d: Day): (r: seq<InventoryItem>)
    ensures forall i :: 0 <= i < |r| ==> r[i].expiryDate == d
    decreases |s|
  {
    if s == [] then []
    else if s[0].expiryDate == d then [s[0]] + ExpiringOn(s[1..], d)
    else ExpiringOn(s[1..], d)
  }

  lemma {:induction false} ExpiringOnConcat(a: seq<InventoryItem>, b: seq<InventoryItem>, d: Day)
    ensures ExpiringOn(a + b, d) == ExpiringOn(a, d) + ExpiringOn(b, d)
    decreases |a|
  {
    if a != [] {
      assert (a + b)[1..] == a[1..] + b;
      ExpiringOnConcat(a[1..], b, d);
    } else {
      assert a + b == b;
    }
  }

  /** The items of one day in a list with a given first element. */
  lemma ExpiringOnCons(y: InventoryItem, t: seq<InventoryItem>, d: Day)
    ensures ExpiringOn([y] + t, d) == (if y.expiryDate == d then [y] else []) + ExpiringOn(t, d)
  {
    assert ([y] + t)[1..] == t;
  }

  /** Inserting `x` puts it before every item already there with the same date. */
  lemma {:induction false} InsertIsStable(x: InventoryItem, s: seq<InventoryItem>, d: Day)
    requires SortedByExpiry(s)
    ensures ExpiringOn(InsertByExpiry(x, s), d) == ExpiringOn([x], d) + ExpiringOn(s, d)
    decreases |s|
  {
    if s == [] || x.expiryDate <= s[0].expiryDate {
      ExpiringOnConcat([x], s, d);
    } else {
      var t := InsertByExpiry(x, s[1..]);
      assert InsertByExpiry(x, s) == [s[0]] + t;
      assert s == [s[0]] + s[1..];
      InsertIsStable(x, s[1..], d);
      ExpiringOnCons(s[0], t, d);
      ExpiringOnCons(s[0], s[1..], d);
      ExpiringOnCons(x, [], d);
      assert s[0].expiryDate < x.expiryDate;
    }
  }

  /** The sort is stable: items with the same expiry date keep their relative order. */
  lemma {:induction false} SortIsStable(s: seq<InventoryItem>, d: Day)
    ensures ExpiringOn(SortByExpiry(s), d) == ExpiringOn(s, d)
    decreases |s|
  {
    if s != [] {
      var rest := SortByExpiry(s[1..]);
      SortIsStable(s[1..], d);
      InsertIsStable(s[0], rest, d);
      assert SortByExpiry(s) == InsertByExpiry(s[0], rest);
      ExpiringOnSingle(s[0], d);
    }
  }

  /** The items of one day in a one-item list. */
  lemma ExpiringOnSingle(y: InventoryItem, d: Day)
    ensures ExpiringOn([y], d) == if y.expiryDate == d then [y] else []
  {
    assert [y][1..] == [];
  }

  /**
   * `filteredInventory`: exactly the matching items, earliest expiry first, items of the
   * same date in inventory order.
   */
  function FilteredInventory(inventory: seq<InventoryItem>, filter: LocationFilter, search: string): (r: seq<InventoryItem>)
    ensures SortedByExpiry(r)
    ensures multiset(r) == multiset(Matching(inventory, filter, search))
    ensures forall i :: 0 <= i < |r| ==> r[i] in inventory && Matches(r[i], filter, search)
    ensures forall i :: 0 <= i < |inventory| && Matches(inventory[i], filter, search) ==> inventory[i] in r
  {
    var p := (item: InventoryItem) => Matches(item, filter, search);
    var m := Matching(inventory, filter, search);
    var r := SortByExpiry(m);
    assert forall i :: 0 <= i < |r| ==> r[i] in inventory && Matches(r[i], filter, search) by {
      forall i | 0 <= i < |r| ensures r[i] in inventory && Matches(r[i], filter, search) {
        assert r[i] in multiset(m);
        FilterMember(inventory, p, r[i]);
      }
    }
    assert forall i :: 0 <= i < |inventory| && Matches(inventory[i], filter, search) ==> inventory[i] in r by {
      forall i | 0 <= i < |inventory| && Matches(inventory[i], filter, search) ensures inventory[i] in r {
        FilterKeeps(inventory, p, inventory[i]);
        assert inventory[i] in multiset(r);
      }
    }
    r
  }

  /** Items of one date appear in the filtered view in inventory order. */
  lemma FilteredKeepsInventoryOrder(inventory: seq<InventoryItem>, filter: LocationFilter, search: string, d: Day)
    ensures ExpiringOn(FilteredInventory(inventory, filter, search), d) == ExpiringOn(Matching(inventory, filter, search), d)
  {
    SortIsStable(Matching(inventory, filter, search), d);
  }

  /** With no chip and no search text, the view is the whole inventory, re-ordered. */
  lemma NoFilterShowsEverything(inventory: seq<InventoryItem>)
    ensures multiset(FilteredInventory(inventory, All, "")) == multiset(inventory)
  {
    assert ToLower("") == "";
    forall i | 0 <= i < |inventory| ensures Matches(inventory[i], All, "") {
      IncludesEmpty(ToLower(inventory[i].name));
    }
    FilterKeepsAll(inventory, (item: InventoryItem) => Matches(item, All, ""));
  }
}
