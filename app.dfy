/**
 * The app's top-level state: the inventory, the shopping list, today's cleaning tasks and the
 * player's progression, with one method per handler. Each handler is one atomic step.
 */
module App {
  import opened Wrappers
  import opened Types
  import opened Dates
  import InventoryStore
  import ShoppingStore
  import Progression
  import Advisor

  /** 2025-12-31 as a day number: the fixed expiry of the sample cleaning spray. */
  const SprayExpiry: Day := 20453

  /** The two sample items a first start shows: milk due in two days and a cleaning spray. */
  function SampleInventory(today: Day, now: int): (r: seq<InventoryItem>)
    ensures |r| == 2 && r[0].id != r[1].id
    ensures r[0].location == Fridge && r[0].expiryDate == today + 2
    ensures r[1].location == Household && r[1].expiryDate == SprayExpiry
  {
    [ InventoryItem("1", "Lait demi-écrémé", Fridge, "1", Liters, today + 2, now, "1"),
      InventoryItem("2", "Spray Nettoyant", Household, "1", Piece, SprayExpiry, now, "1") ]
  }

  class HopeApp {
    var inventory: seq<InventoryItem>
    var shoppingList: seq<ShoppingItem>
    var tasks: seq<CleaningTask>
    var stats: UserGameStats
    var locationFilter: InventoryStore.LocationFilter
    var search: string

    /** The first render: nothing loaded yet, a brand-new player. */
    constructor ()
      ensures inventory == [] && shoppingList == [] && tasks == []
      ensures stats == Progression.InitialStats
      ensures locationFilter == InventoryStore.All && search == ""
    {
      inventory := [];
      shoppingList := [];
      tasks := [];
      stats := Progression.InitialStats;
      locationFilter := InventoryStore.All;
      search := "";
    }

    /**
     * The load on mount. Saved slices replace the defaults (stats after migration); without a
     * saved inventory the sample items appear. When the saved tasks are not today's, a new
     * batch is requested with the level of the stats before the load, which `refresh` returns.
     */
    method Load(savedInventory: Option<seq<InventoryItem>>, savedList: Option<seq<ShoppingItem>>,
                savedStats: Option<UserGameStats>, savedTasks: Option<seq<CleaningTask>>, today: Day, now: int)
      returns (refresh: Option<int>)
      modifies this
      ensures inventory == if savedInventory.Some? then savedInventory.value else SampleInventory(today, now)
      ensures shoppingList == if savedList.Some? then savedList.value else old(shoppingList)
      ensures stats == if savedStats.Some? then Progression.Migrate(savedStats.value) else old(stats)
      ensures refresh.None? <==> savedTasks.Some? && Progression.KeepSavedTasks(savedTasks.value, today)
      ensures refresh.None? ==> tasks == savedTasks.value
      ensures refresh.Some? ==> refresh.value == old(stats.level) && tasks == old(tasks)
      ensures locationFilter == old(locationFilter) && search == old(search)
    {
      refresh := None;
      var level := stats.level;
      inventory := if savedInventory.Some? then savedInventory.value else SampleInventory(today, now);
      if savedList.Some? {
        shoppingList := savedList.value;
      }
      if savedStats.Some? {
        stats := Progression.Migrate(savedStats.value);
      }
      if savedTasks.Some? && Progression.KeepSavedTasks(savedTasks.value, today) {
        tasks := savedTasks.value;
      } else {
        refresh := Some(level);
      }
    }

    /**
     * `refreshTasks` as the coach screen's refresh button starts it: the level the remote call
     * is asked with is the current one, and nothing changes until the reply arrives.
     */
    method BeginRefresh() returns (level: int)
      ensures level == stats.level
    {
      level := stats.level;
    }

    /** `refreshTasks` once the remote call has ended: the batch replaces the task list. */
    method RefreshTasks(level: int, reply: Advisor.Reply<seq<Advisor.TaskDraft>>, stamps: seq<nat>, today: Day)
      requires Advisor.StampsFit(reply, stamps)
      modifies this
      ensures tasks == Advisor.GenerateCleaningTasks(level, reply, stamps, today)
      ensures inventory == old(inventory) && shoppingList == old(shoppingList) && stats == old(stats)
      ensures locationFilter == old(locationFilter) && search == old(search)
    {
      tasks := Advisor.GenerateCleaningTasks(level, reply, stamps, today);
    }

    /** The inventory screen's list: the matching items, soonest expiry first. */
    function VisibleInventory(): (r: seq<InventoryItem>)
      reads this
      ensures r == InventoryStore.FilteredInventory(inventory, locationFilter, search)
      ensures InventoryStore.SortedByExpiry(r)
      ensures forall i :: 0 <= i < |r| ==> r[i] in inventory && InventoryStore.Matches(r[i], locationFilter, search)
      ensures forall i :: 0 <= i < |inventory| && InventoryStore.Matches(inventory[i], locationFilter, search) ==> inventory[i] in r
    {
      InventoryStore.FilteredInventory(inventory, locationFilter, search)
    }

    /** The background class of the active theme. */
    function ThemeClass(): (c: string)
      reads this
      ensures stats.activeTheme in {"sunset", "midnight", "forest"} ==> c == "bg-theme-" + stats.activeTheme
      ensures stats.activeTheme !in {"sunset", "midnight", "forest"} ==> c == "bg-theme-default"
    {
      Progression.ThemeClass(stats.activeTheme)
    }

    method SetFilter(f: InventoryStore.LocationFilter)
      modifies this
      ensures locationFilter == f && search == old(search)
      ensures inventory == old(inventory) && shoppingList == old(shoppingList)
      ensures tasks == old(tasks) && stats == old(stats)
    {
      locationFilter := f;
    }

    method SetSearch(text: string)
      modifies this
      ensures search == text && locationFilter == old(locationFilter)
      ensures inventory == old(inventory) && shoppingList == old(shoppingList)
      ensures tasks == old(tasks) && stats == old(stats)
    {
      search := text;
    }

    method AddItem(draft: InventoryStore.ItemDraft, id: string, now: int)
      modifies this
      ensures inventory == InventoryStore.AddItem(old(inventory), draft, id, now)
      ensures shoppingList == old(shoppingList) && tasks == old(tasks) && stats == old(stats)
      ensures locationFilter == old(locationFilter) && search == old(search)
    {
      inventory := InventoryStore.AddItem(inventory, draft, id, now);
    }

    method DeleteItem(id: string)
      modifies this
      ensures inventory == InventoryStore.DeleteItem(old(inventory), id)
      ensures shoppingList == old(shoppingList) && tasks == old(tasks) && stats == old(stats)
      ensures locationFilter == old(locationFilter) && search == old(search)
    {
      inventory := InventoryStore.DeleteItem(inventory, id);
    }

    method AddToShoppingList(name: string, department: Department, id: string)
      modifies this
      ensures shoppingList == ShoppingStore.AddEntry(old(shoppingList), name, department, id)
      ensures inventory == old(inventory) && tasks == old(tasks) && stats == old(stats)
      ensures locationFilter == old(locationFilter) && search == old(search)
    {
      shoppingList := ShoppingStore.AddEntry(shoppingList, name, department, id);
    }

    method ToggleShoppingItem(id: string)
      modifies this
      ensures shoppingList == ShoppingStore.Toggle(old(shoppingList), id)
      ensures inventory == old(inventory) && tasks == old(tasks) && stats == old(stats)
      ensures locationFilter == old(locationFilter) && search == old(search)
    {
      shoppingList := ShoppingStore.Toggle(shoppingList, id);
    }

    method DeleteShoppingItem(id: string)
      modifies this
      ensures shoppingList == ShoppingStore.DeleteEntry(old(shoppingList), id)
      ensures inventory == old(inventory) && tasks == old(tasks) && stats == old(stats)
      ensures locationFilter == old(locationFilter) && search == old(search)
    {
      shoppingList := ShoppingStore.DeleteEntry(shoppingList, id);
    }

    method ClearShoppingList()
      modifies this
      ensures shoppingList == ShoppingStore.ClearCompleted(old(shoppingList))
      ensures inventory == old(inventory) && tasks == old(tasks) && stats == old(stats)
      ensures locationFilter == old(locationFilter) && search == old(search)
    {
      shoppingList := ShoppingStore.ClearCompleted(shoppingList);
    }

    /** `handleCompleteTask` on day `today`: marks the task and pays out once. */
    method CompleteTask(id: string, today: Day)
      modifies this
      ensures (tasks, stats) == Progression.CompleteTask(old(tasks), old(stats), id, today)
      ensures Progression.ValidStats(old(stats)) ==> Progression.ValidStats(stats)
      ensures inventory == old(inventory) && shoppingList == old(shoppingList)
      ensures locationFilter == old(locationFilter) && search == old(search)
    {
      var r := Progression.CompleteTask(tasks, stats, id, today);
      tasks, stats := r.0, r.1;
    }

    method BuyItem(itemType: string, itemId: string, cost: int)
      modifies this
      ensures stats == Progression.Buy(old(stats), itemType, itemId, cost)
      ensures Progression.ValidStats(old(stats)) ==> Progression.ValidStats(stats)
      ensures inventory == old(inventory) && shoppingList == old(shoppingList) && tasks == old(tasks)
      ensures locationFilter == old(locationFilter) && search == old(search)
    {
      stats := Progression.Buy(stats, itemType, itemId, cost);
    }

    method EquipTheme(themeId: string)
      modifies this
      ensures stats == Progression.EquipTheme(old(stats), themeId)
      ensures inventory == old(inventory) && shoppingList == old(shoppingList) && tasks == old(tasks)
      ensures locationFilter == old(locationFilter) && search == old(search)
    {
      stats := Progression.EquipTheme(stats, themeId);
    }

    /** `handleGacha`, given the floored random draw in 0..49. */
    method Gacha(roll: nat)
      requires roll < 50
      modifies this
      ensures stats == Progression.Gacha(old(stats), roll)
      ensures inventory == old(inventory) && shoppingList == old(shoppingList) && tasks == old(tasks)
      ensures locationFilter == old(locationFilter) && search == old(search)
    {
      stats := Progression.Gacha(stats, roll);
    }

    method EquipAvatarItem(item: AvatarItem)
      modifies this
      ensures stats == Progression.EquipAvatarItem(old(stats), item)
      ensures inventory == old(inventory) && shoppingList == old(shoppingList) && tasks == old(tasks)
      ensures locationFilter == old(locationFilter) && search == old(search)
    {
      stats := Progression.EquipAvatarItem(stats, item);
    }

    method UnequipAccessory()
      modifies this
      ensures stats == Progression.UnequipAccessory(old(stats))
      ensures inventory == old(inventory) && shoppingList == old(shoppingList) && tasks == old(tasks)
      ensures locationFilter == old(locationFilter) && search == old(search)
    {
      stats := Progression.UnequipAccessory(stats);
    }

    method DislikeRecipe(recipe: Recipe)
      modifies this
      ensures stats == Progression.DislikeRecipe(old(stats), recipe.title)
      ensures inventory == old(inventory) && shoppingList == old(shoppingList) && tasks == old(tasks)
      ensures locationFilter == old(locationFilter) && search == old(search)
    {
      stats := Progression.DislikeRecipe(stats, recipe.title);
    }

    method ToggleAllergy(allergy: string)
      modifies this
      ensures stats == Progression.ToggleAllergy(old(stats), allergy)
      ensures inventory == old(inventory) && shoppingList == old(shoppingList) && tasks == old(tasks)
      ensures locationFilter == old(locationFilter) && search == old(search)
    {
      stats := Progression.ToggleAllergy(stats, allergy);
    }
  }
}
