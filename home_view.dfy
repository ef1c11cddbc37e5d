/** The home screen: the urgent-item and task counters, the greeting and the meal suggestion card. */
module HomeView {
  import opened Wrappers
  import opened Types
  import opened Text
  import opened Seqs
  import opened Dates
  import opened Freshness
  import opened Ratios
  import Advisor

  /**
   * `criticalItems.length`: the food items with three days or less left, expired ones included,
   * each counted as often as the inventory holds it (see `Advisor.CriticalItems`).
   */
  function CriticalCount(inventory: seq<InventoryItem>, today: Day): (n: nat)
    ensures n == |Advisor.CriticalItems(inventory, today)|
    ensures n <= |inventory|
    ensures n == 0 <==> forall i :: 0 <= i < |inventory| ==> !IsUrgent(inventory[i], today)
    ensures n == |inventory| <==> forall i :: 0 <= i < |inventory| ==> IsUrgent(inventory[i], today)
  {
    var urgent := (i: InventoryItem) => IsUrgent(i, today);
    FilterEmptyIffNone(inventory, urgent);
    FilterFullIffAll(inventory, urgent);
    |Advisor.CriticalItems(inventory, today)|
  }

  /** An item counts exactly when its card says expired or critical. */
  lemma CriticalCountMatchesCards(inventory: seq<InventoryItem>, today: Day, item: InventoryItem)
    requires item in inventory
    ensures item in Advisor.CriticalItems(inventory, today) <==>
      CardStatus(item, today).Expired? || CardStatus(item, today).Critical?
  {
    UrgentIsExpiredOrCritical(item, today);
    if item in Advisor.CriticalItems(inventory, today) {
      FilterMember(inventory, (i: InventoryItem) => IsUrgent(i, today), item);
    }
  }

  /** A food item already past its date is still counted as critical. */
  lemma ExpiredFoodCounts(inventory: seq<InventoryItem>, today: Day, item: InventoryItem)
    requires item in inventory && item.location != Household && item.expiryDate < today
    ensures item in Advisor.CriticalItems(inventory, today)
    ensures CriticalCount(inventory, today) > 0
  {
    CriticalCountMatchesCards(inventory, today, item);
  }

  /** Household products never count, whatever their date. */
  lemma HouseholdNeverCounts(inventory: seq<InventoryItem>, today: Day)
    requires forall i :: 0 <= i < |inventory| ==> inventory[i].location == Household
    ensures CriticalCount(inventory, today) == 0
  {
    FilterDropsAll(inventory, (i: InventoryItem) => IsUrgent(i, today));
  }

  /** `completedTasks`: the completed tasks and the pending ones add up to all the tasks. */
  function CompletedTasks(tasks: seq<CleaningTask>): (n: nat)
    ensures n + |Filter(tasks, IsPending)| == |tasks|
    ensures n == 0 <==> forall i :: 0 <= i < |tasks| ==> !tasks[i].completed
  {
    FilterPartition(tasks, IsCompleted, IsPending);
    FilterEmptyIffNone(tasks, IsCompleted);
    |Filter(tasks, IsCompleted)|
  }

  /** The completed count reaches the total exactly when every task is completed. */
  lemma AllDoneWhenCountIsTotal(tasks: seq<CleaningTask>)
    ensures CompletedTasks(tasks) == |tasks| <==> forall i :: 0 <= i < |tasks| ==> tasks[i].completed
  {
    FilterFullIffAll(tasks, IsCompleted);
  }

  /**
   * The day's progress bar, the completed share of the tasks as a percentage (`Percent`): zero
   * without tasks, full exactly when every task is completed and empty exactly when none is.
   */
  function TaskProgress(tasks: seq<CleaningTask>): (p: real)
    ensures 0.0 <= p <= 100.0
    ensures tasks == [] ==> p == 0.0
    ensures tasks != [] ==> (p == 100.0 <==> forall i :: 0 <= i < |tasks| ==> tasks[i].completed)
    ensures p == 0.0 <==> forall i :: 0 <= i < |tasks| ==> !tasks[i].completed
  {
    if tasks == [] then 0.0
    else
      ProgressReadings(tasks);
      Percent(CompletedTasks(tasks), |tasks|)
  }

  /** The bar of a non-empty day is full when every task is completed and empty when none is. */
  lemma ProgressReadings(tasks: seq<CleaningTask>)
    requires tasks != []
    ensures Percent(CompletedTasks(tasks), |tasks|) == 100.0 <==> forall i :: 0 <= i < |tasks| ==> tasks[i].completed
    ensures Percent(CompletedTasks(tasks), |tasks|) == 0.0 <==> forall i :: 0 <= i < |tasks| ==> !tasks[i].completed
  {
    var n := CompletedTasks(tasks);
    PercentFull(n, |tasks|);
    PercentEmpty(n, |tasks|);
    AllDoneWhenCountIsTotal(tasks);
  }

  /** `Bonjour, <first word of the name> !`. */
  function Greeting(userName: string): (g: string)
    ensures |g| >= 11 && g[..9] == "Bonjour, " && g[|g| - 2..] == " !"
    ensures g[9..|g| - 2] <= userName && ' ' !in g[9..|g| - 2]
    ensures |g| - 11 < |userName| ==> userName[|g| - 11] == ' '
  {
    "Bonjour, " + FirstWord(userName) + " !"
  }

  /** The family's greeting uses its first word. */
  lemma FamilyGreeting()
    ensures FirstWord("Famille Martin") == "Famille"
  {
    assert "Famille Martin"[7] == ' ';
    assert FirstWord("Famille Martin"[7..]) == [];
  }

  /** The feedback given on the suggested meal. */
  datatype Feedback = NoFeedback | Liked | Disliked

  /** The suggestion card's state. */
  class SuggestionCard {
    var smartRecipe: Option<Recipe>
    var loadingRecipe: bool
    var feedback: Feedback

    constructor ()
      ensures smartRecipe == None && !loadingRecipe && feedback == NoFeedback
    {
      smartRecipe := None;
      loadingRecipe := false;
      feedback := NoFeedback;
    }

    /** The effect's gate: nothing shown and no feedback given yet. */
    predicate WantsSuggestion()
      reads this
    {
      smartRecipe.None? && feedback == NoFeedback
    }

    /**
     * The effect on mount or when the inventory or preferences change, on day `today`: a request
     * starts only when the gate is open and some item of the inventory is critical.
     */
    method BeginFetch(inventory: seq<InventoryItem>, today: Day) returns (started: bool)
      modifies this
      ensures started <==> old(WantsSuggestion()) && CriticalCount(inventory, today) > 0
      ensures started <==> old(WantsSuggestion()) && exists i :: 0 <= i < |inventory| && IsUrgent(inventory[i], today)
      ensures loadingRecipe == (started || old(loadingRecipe))
      ensures smartRecipe == old(smartRecipe) && feedback == old(feedback)
    {
      started := WantsSuggestion() && CriticalCount(inventory, today) > 0;
      if started {
        loadingRecipe := true;
      }
    }

    /** The request has ended: its result (maybe none) is shown and loading stops. */
    method FinishFetch(result: Option<Recipe>)
      modifies this
      ensures smartRecipe == result && !loadingRecipe && feedback == old(feedback)
    {
      smartRecipe := result;
      loadingRecipe := false;
    }

    /**
     * `handleDislike`: a shown recipe is reported, marked disliked and cleared, which closes the
     * gate for good; with nothing shown nothing happens.
     */
    method Dislike() returns (reported: Option<Recipe>)
      modifies this
      ensures reported == old(smartRecipe)
      ensures old(smartRecipe).Some? ==> feedback == Disliked && smartRecipe == None && !WantsSuggestion()
      ensures old(smartRecipe).None? ==> feedback == old(feedback) && smartRecipe == None
      ensures loadingRecipe == old(loadingRecipe)
    {
      reported := smartRecipe;
      if smartRecipe.Some? {
        feedback := Disliked;
        smartRecipe := None;
      }
    }

    /** `handleLike`: a shown recipe is reported and marked liked, and stays on screen. */
    method Like() returns (reported: Option<Recipe>)
      modifies this
      ensures reported == old(smartRecipe)
      ensures old(smartRecipe).Some? ==> feedback == Liked
      ensures old(smartRecipe).None? ==> feedback == old(feedback)
      ensures smartRecipe == old(smartRecipe) && loadingRecipe == old(loadingRecipe)
    {
      reported := smartRecipe;
      if smartRecipe.Some? {
        feedback := Liked;
      }
    }
  }
}
