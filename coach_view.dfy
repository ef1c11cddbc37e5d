/** The coach screen: the task columns, the remaining time and the shop's offers and buttons. */
module CoachView {
  import opened Wrappers
  import opened Types
  import opened Seqs
  import Progression

  predicate IsDaily(t: CleaningTask) {
    !t.isWeekly
  }

  predicate IsWeekly(t: CleaningTask) {
    t.isWeekly
  }

  /** The daily column: every task that is not weekly, as often as the list holds it. */
  function DailyTasks(tasks: seq<CleaningTask>): (r: seq<CleaningTask>)
    ensures forall x :: multiset(r)[x] == if x.isWeekly then 0 else multiset(tasks)[x]
  {
    FilterCounts(tasks, IsDaily);
    Filter(tasks, IsDaily)
  }

  /** The weekly column: every weekly task, as often as the list holds it. */
  function WeeklyTasks(tasks: seq<CleaningTask>): (r: seq<CleaningTask>)
    ensures forall x :: multiset(r)[x] == if x.isWeekly then multiset(tasks)[x] else 0
  {
    FilterCounts(tasks, IsWeekly);
    Filter(tasks, IsWeekly)
  }

  /**
   * The two columns split the tasks: no task is in both, each task is in one, and the two
   * together hold every task exactly as often as the list does.
   */
  lemma ColumnsPartitionTasks(tasks: seq<CleaningTask>)
    ensures forall i :: 0 <= i < |DailyTasks(tasks)| ==> !DailyTasks(tasks)[i].isWeekly
    ensures forall i :: 0 <= i < |WeeklyTasks(tasks)| ==> WeeklyTasks(tasks)[i].isWeekly
    ensures multiset(DailyTasks(tasks)) + multiset(WeeklyTasks(tasks)) == multiset(tasks)
    ensures |DailyTasks(tasks)| + |WeeklyTasks(tasks)| == |tasks|
  {
    FilterPartition(tasks, IsDaily, IsWeekly);
  }

  /** Each column keeps the list order: a column of a concatenation is the concatenation of the columns. */
  lemma ColumnsKeepOrder(a: seq<CleaningTask>, b: seq<CleaningTask>)
    ensures DailyTasks(a + b) == DailyTasks(a) + DailyTasks(b)
    ensures WeeklyTasks(a + b) == WeeklyTasks(a) + WeeklyTasks(b)
  {
    FilterConcat(a, b, IsDaily);
    FilterConcat(a, b, IsWeekly);
  }

  /** The sum of the durations (`reduce` from 0). */
  function SumDurations(ts: seq<CleaningTask>): real
    decreases |ts|
  {
    if ts == [] then 0.0 else ts[0].duration + SumDurations(ts[1..])
  }

  /** `totalDuration`: the minutes still to spend, over the tasks not yet completed. */
  function TotalDuration(tasks: seq<CleaningTask>): (d: real)
    ensures (forall i :: 0 <= i < |tasks| ==> tasks[i].completed) ==> d == 0.0
    ensures (forall i :: 0 <= i < |tasks| ==> !tasks[i].completed) ==> d == SumDurations(tasks)
  {
    FilterEmptyIffNone(tasks, IsPending);
    NothingDoneKeepsAll(tasks);
    SumDurations(Filter(tasks, IsPending))
  }

  /** With no task completed, every task is still pending. */
  lemma NothingDoneKeepsAll(tasks: seq<CleaningTask>)
    ensures (forall i :: 0 <= i < |tasks| ==> !tasks[i].completed) ==> Filter(tasks, IsPending) == tasks
  {
    if forall i :: 0 <= i < |tasks| ==> !tasks[i].completed {
      FilterKeepsAll(tasks, IsPending);
    }
  }

  /** The remaining time adds up task by task, a completed task adding nothing. */
  lemma TotalDurationStep(tasks: seq<CleaningTask>)
    requires tasks != []
    ensures TotalDuration(tasks) == (if tasks[0].completed then 0.0 else tasks[0].duration) + TotalDuration(tasks[1..])
  {
    var f := Filter(tasks[1..], IsPending);
    if !tasks[0].completed {
      assert Filter(tasks, IsPending) == [tasks[0]] + f;
      assert ([tasks[0]] + f)[1..] == f;
    } else {
      assert Filter(tasks, IsPending) == f;
    }
  }

  /** The remaining time after marking, task by task: a marked task adds nothing. */
  lemma MarkedDurationStep(tasks: seq<CleaningTask>, id: string)
    requires tasks != []
    ensures TotalDuration(Progression.MarkCompleted(tasks, id))
      == (if tasks[0].completed || tasks[0].id == id then 0.0 else tasks[0].duration)
         + TotalDuration(Progression.MarkCompleted(tasks[1..], id))
  {
    var m := Progression.MarkCompleted(tasks, id);
    assert m[1..] == Progression.MarkCompleted(tasks[1..], id);
    TotalDurationStep(m);
  }

  /** Marking the tasks with an id completed only removes their minutes. */
  lemma {:induction false} CompletingNeverAddsTime(tasks: seq<CleaningTask>, id: string)
    requires forall i :: 0 <= i < |tasks| ==> tasks[i].duration >= 0.0
    ensures TotalDuration(Progression.MarkCompleted(tasks, id)) <= TotalDuration(tasks)
    decreases |tasks|
  {
    if tasks != [] {
      MarkedDurationStep(tasks, id);
      TotalDurationStep(tasks);
      CompletingNeverAddsTime(tasks[1..], id);
    }
  }

  /** Marking an id no task has changes nothing. */
  lemma MarkAbsentIsIdentity(tasks: seq<CleaningTask>, id: string)
    requires forall j :: 0 <= j < |tasks| ==> tasks[j].id != id
    ensures Progression.MarkCompleted(tasks, id) == tasks
  {
  }

  /** Completing the first task, when no later task shares its id, removes exactly its minutes. */
  lemma CompletingTheHead(tasks: seq<CleaningTask>)
    requires tasks != [] && !tasks[0].completed
    requires forall j :: 0 <= j < |tasks| - 1 ==> tasks[1..][j].id != tasks[0].id
    ensures TotalDuration(Progression.MarkCompleted(tasks, tasks[0].id)) == TotalDuration(tasks) - tasks[0].duration
  {
    MarkedDurationStep(tasks, tasks[0].id);
    TotalDurationStep(tasks);
    MarkAbsentIsIdentity(tasks[1..], tasks[0].id);
  }

  /** Completing a later task, when the first one has another id, leaves the first one's minutes as they were. */
  lemma CompletingPastTheHead(tasks: seq<CleaningTask>, id: string)
    requires tasks != [] && tasks[0].id != id
    ensures TotalDuration(Progression.MarkCompleted(tasks, id)) - TotalDuration(Progression.MarkCompleted(tasks[1..], id))
      == TotalDuration(tasks) - TotalDuration(tasks[1..])
  {
    MarkedDurationStep(tasks, id);
    TotalDurationStep(tasks);
  }

  /** With distinct ids, completing a pending task takes exactly its minutes off the remaining time. */
  lemma {:induction false} CompletingSavesItsDuration(tasks: seq<CleaningTask>, i: nat)
    requires i < |tasks| && !tasks[i].completed
    requires forall a, b :: 0 <= a < b < |tasks| ==> tasks[a].id != tasks[b].id
    ensures TotalDuration(Progression.MarkCompleted(tasks, tasks[i].id)) == TotalDuration(tasks) - tasks[i].duration
    decreases |tasks|
  {
    DistinctTail(tasks);
    if i == 0 {
      CompletingTheHead(tasks);
    } else {
      var id := tasks[i].id;
      var tail := tasks[1..];
      assert tail[i - 1] == tasks[i];
      CompletingSavesItsDuration(tail, i - 1);
      CompletingPastTheHead(tasks, id);
      var a := TotalDuration(Progression.MarkCompleted(tasks, id));
      var b := TotalDuration(Progression.MarkCompleted(tail, id));
      var c := TotalDuration(tasks);
      var d := TotalDuration(tail);
      assert a - b == c - d;
      assert b == d - tasks[i].duration;
    }
  }

  /** The tail of a list with distinct ids has distinct ids, none of them the head's. */
  lemma DistinctTail(tasks: seq<CleaningTask>)
    requires tasks != []
    requires forall a, b :: 0 <= a < b < |tasks| ==> tasks[a].id != tasks[b].id
    ensures forall j :: 0 <= j < |tasks| - 1 ==> tasks[1..][j].id != tasks[0].id
    ensures forall a, b :: 0 <= a < b < |tasks| - 1 ==> tasks[1..][a].id != tasks[1..][b].id
  {
    var tail := tasks[1..];
    forall j | 0 <= j < |tail| ensures tail[j].id != tasks[0].id {
      assert tail[j] == tasks[j + 1];
    }
    forall a, b | 0 <= a < b < |tail| ensures tail[a].id != tail[b].id {
      assert tail[a] == tasks[a + 1] && tail[b] == tasks[b + 1];
    }
  }

  /**
   * `shopAvatarItems`: the catalog parts on sale, those the player does not own yet and that
   * have a price.
   */
  function ShopAvatarItems(catalog: seq<AvatarItem>, stats: UserGameStats): (r: seq<AvatarItem>)
    ensures forall i :: 0 <= i < |r| ==> r[i] in catalog && r[i].id !in stats.unlockedAvatarItems && r[i].price > 0
    ensures forall i :: 0 <= i < |catalog| && catalog[i].id !in stats.unlockedAvatarItems && catalog[i].price > 0 ==> catalog[i] in r
  {
    Filter(catalog, (item: AvatarItem) => item.id !in stats.unlockedAvatarItems && item.price > 0)
  }

  /** Buying an offered part takes it off the offers. */
  lemma BoughtItemLeavesShop(catalog: seq<AvatarItem>, stats: UserGameStats, item: AvatarItem)
    requires item in ShopAvatarItems(catalog, stats) && stats.coins >= item.price
    ensures item !in ShopAvatarItems(catalog, Progression.Buy(stats, "avatar", item.id, item.price))
  {
    var after := Progression.Buy(stats, "avatar", item.id, item.price);
    assert item.id in after.unlockedAvatarItems;
  }

  /** A new player is offered every priced part of the catalog. */
  lemma NewPlayerSeesEveryPricedItem()
    ensures forall i :: 0 <= i < |Progression.AvatarCatalog| && Progression.AvatarCatalog[i].price > 0 ==>
      Progression.AvatarCatalog[i] in ShopAvatarItems(Progression.AvatarCatalog, Progression.InitialStats)
  {
    Progression.FreeItemsAreTheDefaults();
  }

  /** A theme of the shop. */
  datatype Theme = Theme(id: string, name: string, cost: int)

  const Themes: seq<Theme> := [
    Theme("default", "Classique", 0),
    Theme("sunset", "Sunset Vibe", 500),
    Theme("midnight", "Midnight", 800),
    Theme("forest", "Zen Forest", 600)
  ]

  /** Every theme of the shop has its own background. */
  lemma EveryShopThemeHasItsClass()
    ensures forall i :: 1 <= i < |Themes| ==> Progression.ThemeClass(Themes[i].id) == "bg-theme-" + Themes[i].id
    ensures Progression.ThemeClass(Themes[0].id) == "bg-theme-default"
  {
  }

  /** The button under a theme: equip when owned (disabled while active), buy otherwise. */
  datatype ThemeButton = EquipButton(disabled: bool) | BuyButton(disabled: bool)

  function ThemeControl(theme: Theme, stats: UserGameStats): (b: ThemeButton)
    ensures b.EquipButton? <==> theme.id in stats.unlockedThemes
    ensures b.EquipButton? ==> (b.disabled <==> stats.activeTheme == theme.id)
    ensures b.BuyButton? ==> (b.disabled <==> stats.coins < theme.cost)
  {
    if theme.id in stats.unlockedThemes then EquipButton(stats.activeTheme == theme.id)
    else BuyButton(stats.coins < theme.cost)
  }

  /** A theme's button, when enabled, makes it the active theme: by equipping it or by buying it. */
  lemma EnabledThemeButtonActivates(theme: Theme, stats: UserGameStats)
    requires !ThemeControl(theme, stats).disabled
    ensures ThemeControl(theme, stats).EquipButton? ==> Progression.EquipTheme(stats, theme.id).activeTheme == theme.id
    ensures ThemeControl(theme, stats).BuyButton? ==>
      var after := Progression.Buy(stats, "theme", theme.id, theme.cost);
      after.activeTheme == theme.id && theme.id in after.unlockedThemes && after.coins == stats.coins - theme.cost
  {
  }

  /** The price of the two boosts. */
  const FreezePrice := 50
  const XpBoostPrice := 100

  /** A shop button is enabled when the coins cover the price. */
  predicate CanAfford(stats: UserGameStats, price: int) {
    stats.coins >= price
  }

  /** The shop's buttons agree with the purchase guard: enabled exactly when the purchase goes through. */
  lemma EnabledIffPurchaseGoesThrough(stats: UserGameStats, itemType: string, itemId: string, price: int)
    requires price > 0
    ensures CanAfford(stats, price) <==> Progression.Buy(stats, itemType, itemId, price).coins == stats.coins - price
    ensures !CanAfford(stats, price) ==> Progression.Buy(stats, itemType, itemId, price) == stats
  {
  }

  /** The freeze button, when enabled, adds one freeze for 50 coins. */
  lemma FreezeButtonAddsAFreeze(stats: UserGameStats)
    requires CanAfford(stats, FreezePrice)
    ensures Progression.Buy(stats, "boost", "freeze", FreezePrice).inventory.freeze == stats.inventory.freeze + 1
  {
  }

  /** A task's complete button is disabled once the task is completed. */
  predicate TaskButtonDisabled(task: CleaningTask) {
    task.completed
  }

  /** With distinct ids, an enabled complete button pays that task's reward. */
  lemma EnabledTaskButtonPays(tasks: seq<CleaningTask>, i: nat, stats: UserGameStats, today: int)
    requires i < |tasks| && !TaskButtonDisabled(tasks[i])
    requires forall a, b :: 0 <= a < b < |tasks| ==> tasks[a].id != tasks[b].id
    ensures Progression.CompleteTask(tasks, stats, tasks[i].id, today).1.coins == stats.coins + tasks[i].coinsReward
  {
    var f := Progression.FindTask(tasks, tasks[i].id);
    var j :| 0 <= j < |tasks| && tasks[j] == f.value && f.value.id == tasks[i].id
      && (forall k :: 0 <= k < j ==> tasks[k].id != tasks[i].id);
  }
}
