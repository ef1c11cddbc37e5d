/** The shopping-list screen: the department groups, the progress counts and the add form. */
module ShoppingListView {
  import opened Wrappers
  import opened Types
  import opened Text
  import opened Seqs
  import ShoppingStore
  import opened Ratios

  /** The test `entry.department === d`. */
  function InDept(d: Department): ShoppingItem -> bool {
    (e: ShoppingItem) => e.department == d
  }

  /**
   * The entries of one department, in list order. It is written out so that the grouping proofs
   * unfold it cheaply; `OfDeptIsFilter` shows it is the department filter.
   */
  function OfDept(items: seq<ShoppingItem>, d: Department): (r: seq<ShoppingItem>)
    ensures forall i :: 0 <= i < |r| ==> r[i].department == d
    ensures multiset(r) <= multiset(items)
    decreases |items|
  {
    if items == [] then []
    else
      assert items == [items[0]] + items[1..];
      (if items[0].department == d then [items[0]] else []) + OfDept(items[1..], d)
  }

  /** A department's entries are `items.filter(i => i.department === d)`. */
  lemma {:induction false} OfDeptIsFilter(items: seq<ShoppingItem>, d: Department)
    ensures OfDept(items, d) == Filter(items, InDept(d))
    decreases |items|
  {
    if items != [] {
      OfDeptIsFilter(items[1..], d);
    }
  }

  /** A department's entries hold each entry of that department as often as the list does. */
  lemma OfDeptCount(items: seq<ShoppingItem>, d: Department, x: ShoppingItem)
    ensures multiset(OfDept(items, d))[x] == if x.department == d then multiset(items)[x] else 0
  {
    OfDeptIsFilter(items, d);
    FilterCount(items, InDept(d), x);
  }

  /** Filtering by department distributes over concatenation, so list order is kept. */
  lemma OfDeptConcat(a: seq<ShoppingItem>, b: seq<ShoppingItem>, d: Department)
    ensures OfDept(a + b, d) == OfDept(a, d) + OfDept(b, d)
  {
    OfDeptIsFilter(a + b, d);
    OfDeptIsFilter(a, d);
    OfDeptIsFilter(b, d);
    FilterConcat(a, b, InDept(d));
  }

  /** The entries whose department is among `ds`, in list order. */
  function InDepts(items: seq<ShoppingItem>, ds: seq<Department>): seq<ShoppingItem>
    decreases |items|
  {
    if items == [] then []
    else (if items[0].department in ds then [items[0]] else []) + InDepts(items[1..], ds)
  }

  /** Adding a department not seen yet adds exactly its entries. */
  lemma {:induction false} InDeptsExtend(items: seq<ShoppingItem>, ds: seq<Department>, d: Department)
    requires d !in ds
    ensures multiset(InDepts(items, ds + [d])) == multiset(InDepts(items, ds)) + multiset(OfDept(items, d))
    decreases |items|
  {
    if items != [] {
      InDeptsExtend(items[1..], ds, d);
    }
  }

  /** With every department listed, nothing is left out. */
  lemma {:induction false} InAllDepts(items: seq<ShoppingItem>, ds: seq<Department>)
    requires forall d: Department :: d in ds
    ensures InDepts(items, ds) == items
    decreases |items|
  {
    if items != [] {
      InAllDepts(items[1..], ds);
      assert items == [items[0]] + items[1..];
    }
  }

  /** One heading of the list: a department and its entries. */
  datatype Group = Group(department: Department, items: seq<ShoppingItem>)

  /** The groups of the departments `ds`, in that order, leaving out the empty ones. */
  function GroupsOf(items: seq<ShoppingItem>, ds: seq<Department>): seq<Group>
    decreases |ds|
  {
    if ds == [] then []
    else
      var d := ds[|ds| - 1];
      var rest := GroupsOf(items, ds[..|ds| - 1]);
      if OfDept(items, d) != [] then rest + [Group(d, OfDept(items, d))] else rest
  }

  /** The entries of the groups, heading after heading. */
  function Flatten(groups: seq<Group>): seq<ShoppingItem>
    decreases |groups|
  {
    if groups == [] then [] else Flatten(groups[..|groups| - 1]) + groups[|groups| - 1].items
  }

  /** One more department adds its group at the end, when it has entries. */
  lemma GroupsOfStep(items: seq<ShoppingItem>, ds: seq<Department>, d: Department)
    ensures GroupsOf(items, ds + [d])
      == if OfDept(items, d) != [] then GroupsOf(items, ds) + [Group(d, OfDept(items, d))] else GroupsOf(items, ds)
  {
    assert (ds + [d])[..|ds|] == ds;
  }

  /** The reduce over a list of departments: one pass, recording the non-empty ones in order. */
  method GroupIn(items: seq<ShoppingItem>, ds: seq<Department>) returns (groups: seq<Group>)
    ensures groups == GroupsOf(items, ds)
  {
    groups := [];
    var i := 0;
    while i < |ds|
      invariant 0 <= i <= |ds|
      invariant groups == GroupsOf(items, ds[..i])
    {
      var dept := ds[i];
      var deptItems := OfDept(items, dept);
      assert ds[..i + 1] == ds[..i] + [dept];
      GroupsOfStep(items, ds[..i], dept);
      if |deptItems| > 0 {
        groups := groups + [Group(dept, deptItems)];
      }
      i := i + 1;
    }
    assert ds[..i] == ds;
  }

  /** `groupedItems`: the reduce over the departments in declaration order. */
  method GroupByDepartment(items: seq<ShoppingItem>) returns (groups: seq<Group>)
    ensures groups == GroupsOf(items, AllDepartments)
  {
    groups := GroupIn(items, AllDepartments);
  }

  /** Each group is non-empty and holds exactly the entries of its department. */
  lemma {:induction false} GroupsAreExact(items: seq<ShoppingItem>, ds: seq<Department>)
    ensures forall k :: 0 <= k < |GroupsOf(items, ds)| ==>
      GroupsOf(items, ds)[k].items == OfDept(items, GroupsOf(items, ds)[k].department)
      && GroupsOf(items, ds)[k].items != []
      && GroupsOf(items, ds)[k].department in ds
    decreases |ds|
  {
    if ds != [] {
      GroupsAreExact(items, ds[..|ds| - 1]);
    }
  }

  /**
   * When each department of `ds` sits at the position of its rank, the groups come in
   * strictly increasing rank, all below `|ds|`.
   */
  lemma {:induction false} GroupsRanked(items: seq<ShoppingItem>, ds: seq<Department>)
    requires forall j :: 0 <= j < |ds| ==> DepartmentRank(ds[j]) == j
    ensures forall k :: 0 <= k < |GroupsOf(items, ds)| ==> DepartmentRank(GroupsOf(items, ds)[k].department) < |ds|
    ensures forall k, l :: 0 <= k < l < |GroupsOf(items, ds)| ==>
      DepartmentRank(GroupsOf(items, ds)[k].department) < DepartmentRank(GroupsOf(items, ds)[l].department)
    decreases |ds|
  {
    if ds != [] {
      var front, d := ds[..|ds| - 1], ds[|ds| - 1];
      assert forall j :: 0 <= j < |front| ==> front[j] == ds[j];
      GroupsRanked(items, front);
      var rest := GroupsOf(items, front);
      if OfDept(items, d) != [] {
        var g := rest + [Group(d, OfDept(items, d))];
        assert GroupsOf(items, ds) == g;
        assert DepartmentRank(d) == |ds| - 1;
        forall k | 0 <= k < |g| ensures DepartmentRank(g[k].department) < |ds| {
          if k < |rest| { assert g[k] == rest[k]; }
        }
        forall k, l | 0 <= k < l < |g| ensures DepartmentRank(g[k].department) < DepartmentRank(g[l].department) {
          assert g[k] == rest[k];
          if l < |rest| { assert g[l] == rest[l]; }
        }
      } else {
        assert GroupsOf(items, ds) == rest;
        forall k | 0 <= k < |rest| ensures DepartmentRank(rest[k].department) < |ds| {
        }
      }
    }
  }

  /** The groups appear in department declaration order. */
  lemma GroupsInDeclarationOrder(items: seq<ShoppingItem>)
    ensures var g := GroupsOf(items, AllDepartments);
      forall k, l :: 0 <= k < l < |g| ==> DepartmentRank(g[k].department) < DepartmentRank(g[l].department)
  {
    forall j | 0 <= j < |AllDepartments| ensures DepartmentRank(AllDepartments[j]) == j {
      RankOfPosition(j);
    }
    GroupsRanked(items, AllDepartments);
  }

  /** Listing the groups of distinct departments lists exactly their entries. */
  lemma {:induction false} FlattenCollects(items: seq<ShoppingItem>, ds: seq<Department>)
    requires forall a, b :: 0 <= a < b < |ds| ==> ds[a] != ds[b]
    ensures multiset(Flatten(GroupsOf(items, ds))) == multiset(InDepts(items, ds))
    decreases |ds|
  {
    if ds == [] {
      assert InDepts(items, []) == [] by {
        InDeptsEmpty(items);
      }
    } else {
      var front, d := ds[..|ds| - 1], ds[|ds| - 1];
      FlattenCollects(items, front);
      assert ds == front + [d];
      assert d !in front by {
        forall a | 0 <= a < |front| ensures front[a] != d {
          assert front[a] == ds[a];
        }
      }
      InDeptsExtend(items, front, d);
      var g := GroupsOf(items, ds);
      if OfDept(items, d) != [] {
        assert g[..|g| - 1] == GroupsOf(items, front);
      }
    }
  }

  lemma {:induction false} InDeptsEmpty(items: seq<ShoppingItem>)
    ensures InDepts(items, []) == []
    decreases |items|
  {
    if items != [] {
      InDeptsEmpty(items[1..]);
    }
  }

  /** The groups on screen together show every entry of the list exactly once. */
  lemma GroupsArePermutation(items: seq<ShoppingItem>)
    ensures multiset(Flatten(GroupsOf(items, AllDepartments))) == multiset(items)
  {
    AllDepartmentsDistinct();
    FlattenCollects(items, AllDepartments);
    InAllDepts(items, AllDepartments);
  }

  /** The number of ticked entries. */
  function CompletedCount(items: seq<ShoppingItem>): (n: nat)
    ensures n <= |items|
    ensures n == |items| - |ShoppingStore.ClearCompleted(items)|
  {
    FilterPartition(items, ShoppingStore.IsUnchecked, ShoppingStore.IsChecked);
    |ShoppingStore.CheckedEntries(items)|
  }

  /** Nothing ticked: the count is zero exactly when no entry is checked. */
  lemma CompletedCountZero(items: seq<ShoppingItem>)
    ensures CompletedCount(items) == 0 <==> forall i :: 0 <= i < |items| ==> !items[i].checked
  {
    var c := ShoppingStore.CheckedEntries(items);
    if CompletedCount(items) == 0 {
      forall i | 0 <= i < |items| ensures !items[i].checked {
        if items[i].checked {
          FilterKeeps(items, ShoppingStore.IsChecked, items[i]);
        }
      }
    } else {
      FilterMember(items, ShoppingStore.IsChecked, c[0]);
    }
  }

  /** The progress bar, in percent of the entries ticked; zero for an empty list. */
  function Progress(items: seq<ShoppingItem>): (p: real)
    ensures 0.0 <= p <= 100.0
    ensures items == [] ==> p == 0.0
    ensures items != [] ==> (p == 100.0 <==> forall i :: 0 <= i < |items| ==> items[i].checked)
  {
    AllTickedIffCountIsTotal(items);
    var p := Percent(CompletedCount(items), |items|);
    if items == [] then p
    else
      PercentFull(CompletedCount(items), |items|);
      p
  }

  /** Every entry is ticked exactly when the count reaches the length. */
  lemma AllTickedIffCountIsTotal(items: seq<ShoppingItem>)
    ensures CompletedCount(items) == |items| <==> forall i :: 0 <= i < |items| ==> items[i].checked
  {
    var u := ShoppingStore.ClearCompleted(items);
    if CompletedCount(items) == |items| {
      assert u == [];
    } else {
      assert u != [];
      assert !u[0].checked && u[0] in items;
    }
  }

  /** The clear button shows when the ticked count is positive, that is, when some entry is ticked. */
  predicate ShowClearButton(items: seq<ShoppingItem>): (shown: bool)
    ensures shown <==> exists i :: 0 <= i < |items| && items[i].checked
  {
    CompletedCountZero(items);
    CompletedCount(items) > 0
  }

  /** After clearing, the clear button is gone and the count is zero. */
  lemma ClearHidesButton(items: seq<ShoppingItem>)
    ensures !ShowClearButton(ShoppingStore.ClearCompleted(items))
  {
    var r := ShoppingStore.ClearCompleted(items);
    CompletedCountZero(r);
  }

  /** The icon of each department; `Divers` has no case of its own and gets the default. */
  function DeptIcon(d: Department): (icon: string)
    ensures icon == "fa-basket-shopping" <==> d == Other
  {
    match d
    case Produce => "fa-carrot"
    case Dairy => "fa-cheese"
    case Meat => "fa-drumstick-bite"
    case Bakery => "fa-bread-slice"
    case Frozen => "fa-snowflake"
    case Grocery => "fa-utensils"
    case Sweet => "fa-cookie"
    case Drinks => "fa-wine-bottle"
    case HouseholdProducts => "fa-pump-soap"
    case Hygiene => "fa-shower"
    case _ => "fa-basket-shopping"
  }

  /** The add form of the screen: the typed name, the chosen department and its menu. */
  class ShoppingForm {
    var newItemName: string
    var selectedDept: Department
    var isDeptOpen: bool

    constructor ()
      ensures newItemName == "" && selectedDept == Grocery && !isDeptOpen
    {
      newItemName := "";
      selectedDept := Grocery;
      isDeptOpen := false;
    }

    /** The add button is disabled while the name is only white space. */
    predicate SubmitDisabled(): (disabled: bool)
      reads this
      ensures disabled <==> IsBlank(newItemName)
    {
      TrimEmptyIffBlank(newItemName);
      Trim(newItemName) == ""
    }

    method Type(text: string)
      modifies this
      ensures newItemName == text && selectedDept == old(selectedDept) && isDeptOpen == old(isDeptOpen)
    {
      newItemName := text;
    }

    method ToggleDeptMenu()
      modifies this
      ensures isDeptOpen == !old(isDeptOpen)
      ensures newItemName == old(newItemName) && selectedDept == old(selectedDept)
    {
      isDeptOpen := !isDeptOpen;
    }

    /** Picking a department closes the menu. */
    method SelectDept(d: Department)
      modifies this
      ensures selectedDept == d && !isDeptOpen && newItemName == old(newItemName)
    {
      selectedDept := d;
      isDeptOpen := false;
    }

    /**
     * `handleSubmit`: a name with some non-space character is handed over trimmed, with the
     * chosen department, and the input is emptied; a blank name changes nothing.
     */
    method Submit() returns (added: Option<(string, Department)>)
      modifies this
      ensures old(Trim(newItemName)) == "" ==> added == None && newItemName == old(newItemName)
      ensures old(Trim(newItemName)) != "" ==> added == Some((old(Trim(newItemName)), old(selectedDept))) && newItemName == ""
      ensures added.Some? ==> added.value.0 != [] && !IsSpace(added.value.0[0]) && !IsSpace(added.value.0[|added.value.0| - 1])
      ensures selectedDept == old(selectedDept) && isDeptOpen == old(isDeptOpen)
    {
      var name := Trim(newItemName);
      if name != "" {
        added := Some((name, selectedDept));
        newItemName := "";
      } else {
        added := None;
      }
    }
  }
}
