/**
 * The progression engine: the player's `UserGameStats` and the updaters the coach, the
 * shop, the wardrobe and the recipe feedback apply to it, with the two load-time policies.
 */
module Progression {
  import opened Wrappers
  import opened Types
  import opened Seqs
  import opened Dates

  /** The avatar parts every player owns from the start. */
  const DefaultUnlockedAvatarItems: seq<string> :=
    ["base_felix", "base_aneka", "base_jocelyn", "cloth_blazer", "cloth_shirt", "top_short", "top_long"]

  /** The avatar worn by a new player, and by a migrated one (with their own base). */
  const DefaultClothing := "blazerAndShirt"
  const DefaultTop := "shortHairShortFlat"
  const NoAccessory := "none"

  /** Every avatar part there is: the free starting parts and the shop's. */
  const AvatarCatalog: seq<AvatarItem> := [
    AvatarItem("base_felix", Base, "Felix", "Felix", 0, None),
    AvatarItem("base_aneka", Base, "Aneka", "Aneka", 0, None),
    AvatarItem("base_jocelyn", Base, "Jocelyn", "Jocelyn", 0, None),
    AvatarItem("cloth_blazer", Clothing, "Blazer", "blazerAndShirt", 0, Some("fa-user-tie")),
    AvatarItem("cloth_shirt", Clothing, "Chemise", "shirtCrewNeck", 0, Some("fa-tshirt")),
    AvatarItem("cloth_hoodie", Clothing, "Hoodie Cool", "hoodie", 150, Some("fa-user-ninja")),
    AvatarItem("cloth_overall", Clothing, "Salopette", "overall", 200, Some("fa-user-astronaut")),
    AvatarItem("cloth_graphic", Clothing, "T-shirt Graphique", "graphicShirt", 100, Some("fa-shirt")),
    AvatarItem("top_short", Top, "Court", "shortHairShortFlat", 0, Some("fa-user")),
    AvatarItem("top_long", Top, "Long", "longHairMiaWallace", 0, Some("fa-user-long-hair")),
    AvatarItem("top_beanie", Top, "Bonnet Hiver", "winterHat1", 120, Some("fa-hat-winter")),
    AvatarItem("top_cowboy", Top, "Chapeau Cowboy", "hatCowboy", 250, Some("fa-hat-cowboy")),
    AvatarItem("top_big_hair", Top, "Volume Max", "longHairBigHair", 180, Some("fa-user-punk")),
    AvatarItem("acc_glasses", Accessories, "Lunettes", "prescription02", 80, Some("fa-glasses")),
    AvatarItem("acc_shades", Accessories, "Lunettes Soleil", "sunglasses", 150, Some("fa-sunglasses"))
  ]

  /** The free catalog parts are exactly the ones unlocked from the start. */
  lemma FreeItemsAreTheDefaults()
    ensures forall i :: 0 <= i < |AvatarCatalog| ==>
      (AvatarCatalog[i].price == 0 <==> AvatarCatalog[i].id in DefaultUnlockedAvatarItems)
    ensures forall k :: 0 <= k < |DefaultUnlockedAvatarItems| ==>
      exists i :: 0 <= i < |AvatarCatalog| && AvatarCatalog[i].id == DefaultUnlockedAvatarItems[k]
  {
    assert AvatarCatalog[0].id == DefaultUnlockedAvatarItems[0];
    assert AvatarCatalog[1].id == DefaultUnlockedAvatarItems[1];
    assert AvatarCatalog[2].id == DefaultUnlockedAvatarItems[2];
    assert AvatarCatalog[3].id == DefaultUnlockedAvatarItems[3];
    assert AvatarCatalog[4].id == DefaultUnlockedAvatarItems[4];
    assert AvatarCatalog[8].id == DefaultUnlockedAvatarItems[5];
    assert AvatarCatalog[9].id == DefaultUnlockedAvatarItems[6];
  }

  /** The state of a player who has never played. */
  const InitialStats: UserGameStats := UserGameStats(
    100, 0, 1, 0, None, BoostInventory(1), ["default"], "default", DefaultUnlockedAvatarItems,
    AvatarConfig("Felix", DefaultClothing, DefaultTop, NoAccessory), Preferences([], []))

  /** The starting avatar is made of free parts the player owns. */
  lemma InitialAvatarIsOwned()
    ensures forall s: AvatarSlot :: s != Accessories ==>
      exists i :: 0 <= i < |AvatarCatalog| && AvatarCatalog[i].slot == s
        && AvatarCatalog[i].value == InitialStats.avatar.Slot(s)
        && AvatarCatalog[i].id in InitialStats.unlockedAvatarItems
  {
    assert AvatarCatalog[0].value == InitialStats.avatar.Slot(Base);
    assert AvatarCatalog[3].value == InitialStats.avatar.Slot(Clothing);
    assert AvatarCatalog[8].value == InitialStats.avatar.Slot(Top);
  }

  /**
   * What the progression guarantees at every step: xp is the progress inside the current
   * level, the level starts at 1, streak and boost counts are never negative.
   */
  predicate ValidStats(s: UserGameStats) {
    0 <= s.xp < 100 && s.level >= 1 && s.streak >= 0 && s.inventory.freeze >= 0
  }

  /** Total experience, counting 100 per level reached. */
  function TotalXp(s: UserGameStats): int {
    100 * s.level + s.xp
  }

  /** XP and level after one completion: +20 xp, carried into a level at 100. */
  function GainXp(xp: int, level: int): (r: (int, int))
    ensures 100 * r.1 + r.0 == 100 * level + xp + 20
    ensures level <= r.1 <= level + 1
    ensures 0 <= xp < 100 ==> 0 <= r.0 < 100
    ensures r.1 == level + 1 <==> xp + 20 >= 100
  {
    var newXp := xp + 20;
    if newXp >= 100 then (newXp - 100, level + 1) else (newXp, level)
  }

  /** The reward of one completed task on day `today`, given whether it is a new cleaning day. */
  function AwardCompletion(prev: UserGameStats, reward: int, isNewDay: bool, today: Day): (r: UserGameStats)
    ensures r.coins == prev.coins + reward
    ensures r.streak == if isNewDay then prev.streak + 1 else prev.streak
    ensures r.lastCleanDate == Some(today)
    ensures TotalXp(r) == TotalXp(prev) + 20
    ensures prev.level <= r.level <= prev.level + 1
    ensures ValidStats(prev) ==> ValidStats(r)
    ensures r.inventory == prev.inventory && r.unlockedThemes == prev.unlockedThemes
    ensures r.activeTheme == prev.activeTheme && r.unlockedAvatarItems == prev.unlockedAvatarItems
    ensures r.avatar == prev.avatar && r.preferences == prev.preferences
  {
    var (xp, level) := GainXp(prev.xp, prev.level);
    prev.(coins := prev.coins + reward,
          streak := if isNewDay then prev.streak + 1 else prev.streak,
          lastCleanDate := Some(today),
          xp := xp,
          level := level)
  }

  /** Five completions in a row are worth exactly one level. */
  lemma {:induction false} FiveCompletionsMakeALevel(s: UserGameStats, reward: int, today: Day)
    requires ValidStats(s)
    ensures var r := AwardCompletion(AwardCompletion(AwardCompletion(AwardCompletion(AwardCompletion(
        s, reward, false, today), reward, false, today), reward, false, today), reward, false, today), reward, false, today);
      r.level == s.level + 1 && r.xp == s.xp && r.coins == s.coins + 5 * reward
  {
    var r1 := AwardCompletion(s, reward, false, today);
    var r2 := AwardCompletion(r1, reward, false, today);
    var r3 := AwardCompletion(r2, reward, false, today);
    var r4 := AwardCompletion(r3, reward, false, today);
    var r5 := AwardCompletion(r4, reward, false, today);
    assert TotalXp(r5) == TotalXp(s) + 100;
    assert 0 <= r5.xp < 100;
  }

  /** The first task with the id (`tasks.find`). */
  function FindTask(tasks: seq<CleaningTask>, id: string): (r: Option<CleaningTask>)
    ensures r.None? <==> forall i :: 0 <= i < |tasks| ==> tasks[i].id != id
    ensures r.Some? ==> exists i :: 0 <= i < |tasks| && tasks[i] == r.value && r.value.id == id
                          && (forall j :: 0 <= j < i ==> tasks[j].id != id)
    decreases |tasks|
  {
    if tasks == [] then None
    else if tasks[0].id == id then Some(tasks[0])
    else
      var r := FindTask(tasks[1..], id);
      assert forall i :: 1 <= i < |tasks| ==> tasks[i] == tasks[1..][i - 1];
      r
  }

  /** The tasks with the id become completed; nothing else changes. */
  function MarkCompleted(tasks: seq<CleaningTask>, id: string): (r: seq<CleaningTask>)
    ensures |r| == |tasks|
    ensures forall i :: 0 <= i < |tasks| ==>
      r[i] == if tasks[i].id == id then tasks[i].(completed := true) else tasks[i]
  {
    seq(|tasks|, i requires 0 <= i < |tasks| =>
      if tasks[i].id == id then tasks[i].(completed := true) else tasks[i])
  }

  /**
   * `handleCompleteTask`: the task list always marks the id; the stats only pay out when the
   * id names a task that was not completed yet.
   */
  function CompleteTask(tasks: seq<CleaningTask>, stats: UserGameStats, id: string, today: Day): (r: (seq<CleaningTask>, UserGameStats))
    ensures r.0 == MarkCompleted(tasks, id)
    ensures FindTask(tasks, id).None? || FindTask(tasks, id).value.completed ==> r.1 == stats
    ensures FindTask(tasks, id).Some? && !FindTask(tasks, id).value.completed ==>
      r.1 == AwardCompletion(stats, FindTask(tasks, id).value.coinsReward, stats.lastCleanDate != Some(today), today)
  {
    var marked := MarkCompleted(tasks, id);
    var task := FindTask(tasks, id);
    if task.None? || task.value.completed then (marked, stats)
    else (marked, AwardCompletion(stats, task.value.coinsReward, stats.lastCleanDate != Some(today), today))
  }

  /** After a completion the task can be found and is completed, so a second one pays nothing. */
  lemma CompletingTwicePaysOnce(tasks: seq<CleaningTask>, stats: UserGameStats, id: string, today: Day)
    ensures var (t1, s1) := CompleteTask(tasks, stats, id, today);
      CompleteTask(t1, s1, id, today).1 == s1 && CompleteTask(t1, s1, id, today).0 == t1
  {
    var (t1, s1) := CompleteTask(tasks, stats, id, today);
    var f := FindTask(t1, id);
    if f.Some? {
      var i :| 0 <= i < |t1| && t1[i] == f.value && f.value.id == id;
      assert f.value.completed;
    }
    assert MarkCompleted(t1, id) == t1;
  }

  /** Two completions on the same day raise the streak once. */
  lemma SameDayKeepsStreak(s: UserGameStats, r1: int, r2: int, today: Day)
    ensures var a := AwardCompletion(s, r1, s.lastCleanDate != Some(today), today);
      var b := AwardCompletion(a, r2, a.lastCleanDate != Some(today), today);
      b.streak == a.streak && a.streak <= s.streak + 1
  {
  }

  /**
   * `handleBuyItem`: with enough coins the cost is paid, then the item type decides what is
   * gained. Nothing checks whether the id is already owned.
   */
  function Buy(stats: UserGameStats, itemType: string, itemId: string, cost: int): (r: UserGameStats)
    ensures stats.coins < cost ==> r == stats
    ensures stats.coins >= cost ==> r.coins == stats.coins - cost
    ensures r.inventory.freeze == stats.inventory.freeze
      + (if stats.coins >= cost && itemType == "boost" && itemId == "freeze" then 1 else 0)
    ensures r.unlockedThemes == stats.unlockedThemes + (if stats.coins >= cost && itemType == "theme" then [itemId] else [])
    ensures r.activeTheme == if stats.coins >= cost && itemType == "theme" then itemId else stats.activeTheme
    ensures r.unlockedAvatarItems == stats.unlockedAvatarItems + (if stats.coins >= cost && itemType == "avatar" then [itemId] else [])
    ensures r.streak == stats.streak && r.level == stats.level && r.xp == stats.xp
    ensures r.lastCleanDate == stats.lastCleanDate && r.avatar == stats.avatar && r.preferences == stats.preferences
  {
    if stats.coins < cost then stats
    else
      var paid := stats.(coins := stats.coins - cost);
      var boosted := if itemType == "boost" && itemId == "freeze" then paid.(inventory := BoostInventory(paid.inventory.freeze + 1)) else paid;
      var themed := if itemType == "theme" then boosted.(unlockedThemes := boosted.unlockedThemes + [itemId], activeTheme := itemId) else boosted;
      if itemType == "avatar" then themed.(unlockedAvatarItems := themed.unlockedAvatarItems + [itemId]) else themed
  }

  /** A purchase never leaves a negative balance behind, whatever the cost. */
  lemma BuyNeverOverspends(stats: UserGameStats, itemType: string, itemId: string, cost: int)
    requires stats.coins >= 0
    ensures Buy(stats, itemType, itemId, cost).coins >= 0
    ensures cost >= 0 ==> Buy(stats, itemType, itemId, cost).coins <= stats.coins
  {
  }

  /** The xp boost is paid for and gives nothing. */
  lemma XpBoostOnlySpendsCoins(stats: UserGameStats, cost: int)
    requires stats.coins >= cost
    ensures Buy(stats, "boost", "xp", cost) == stats.(coins := stats.coins - cost)
  {
  }

  /** Buying an avatar part unlocks it but does not put it on. */
  lemma BuyAvatarDoesNotEquip(stats: UserGameStats, itemId: string, cost: int)
    requires stats.coins >= cost
    ensures itemId in Buy(stats, "avatar", itemId, cost).unlockedAvatarItems
    ensures Buy(stats, "avatar", itemId, cost).avatar == stats.avatar
  {
  }

  /** Buying the same theme twice pays twice and lists it twice more. */
  lemma RepeatPurchaseDuplicates(stats: UserGameStats, themeId: string, cost: int)
    requires cost >= 0 && stats.coins >= 2 * cost
    ensures var r := Buy(Buy(stats, "theme", themeId, cost), "theme", themeId, cost);
      r.coins == stats.coins - 2 * cost
      && multiset(r.unlockedThemes)[themeId] == multiset(stats.unlockedThemes)[themeId] + 2
  {
    var r1 := Buy(stats, "theme", themeId, cost);
    var r2 := Buy(r1, "theme", themeId, cost);
    assert r2.unlockedThemes == stats.unlockedThemes + [themeId] + [themeId];
  }

  /** `handleEquipTheme`: the theme becomes active, owned or not, free of charge. */
  function EquipTheme(stats: UserGameStats, themeId: string): (r: UserGameStats)
    ensures r.activeTheme == themeId
    ensures r.coins == stats.coins && r.unlockedThemes == stats.unlockedThemes
    ensures r.(activeTheme := stats.activeTheme) == stats
  {
    stats.(activeTheme := themeId)
  }

  /** The coins a gacha draw pays: `floor(random * 50) + 10`, given the floored draw. */
  function GachaReward(roll: nat): (reward: int)
    requires roll < 50
    ensures 10 <= reward <= 59
  {
    roll + 10
  }

  /** Different floored draws pay different amounts. */
  lemma GachaRewardIsOneToOne(a: nat, b: nat)
    requires a < 50 && b < 50 && GachaReward(a) == GachaReward(b)
    ensures a == b
  {
  }

  /**
   * The draw that pays a given amount: every amount from 10 to 59 is paid by exactly one of the
   * fifty draws, so a uniform draw gives a uniform reward.
   */
  function GachaRoll(reward: int): (roll: nat)
    requires 10 <= reward <= 59
    ensures roll < 50 && GachaReward(roll) == reward
  {
    reward - 10
  }

  /** `handleGacha`: the draw's reward is added to the coins and nothing else changes. */
  function Gacha(stats: UserGameStats, roll: nat): (r: UserGameStats)
    requires roll < 50
    ensures r.coins == stats.coins + GachaReward(roll)
    ensures stats.coins + 10 <= r.coins <= stats.coins + 59
    ensures r.(coins := stats.coins) == stats
  {
    stats.(coins := stats.coins + GachaReward(roll))
  }

  /** `handleEquipAvatarItem`: an owned part goes into its slot; anything else is refused. */
  function EquipAvatarItem(stats: UserGameStats, item: AvatarItem): (r: UserGameStats)
    ensures item.id !in stats.unlockedAvatarItems ==> r == stats
    ensures item.id in stats.unlockedAvatarItems ==>
      r.avatar.Slot(item.slot) == item.value
      && (forall t :: t != item.slot ==> r.avatar.Slot(t) == stats.avatar.Slot(t))
    ensures r.(avatar := stats.avatar) == stats
  {
    if item.id !in stats.unlockedAvatarItems then stats
    else stats.(avatar := stats.avatar.WithSlot(item.slot, item.value))
  }

  /** `handleUnequipAccessory`: the accessory slot is emptied, nothing else changes. */
  function UnequipAccessory(stats: UserGameStats): (r: UserGameStats)
    ensures r.avatar.accessories == NoAccessory
    ensures forall t :: t != Accessories ==> r.avatar.Slot(t) == stats.avatar.Slot(t)
    ensures r.(avatar := stats.avatar) == stats
  {
    stats.(avatar := stats.avatar.WithSlot(Accessories, NoAccessory))
  }

  /** Putting an owned accessory on and taking it off again leaves the accessory slot empty. */
  lemma EquipThenUnequip(stats: UserGameStats, item: AvatarItem)
    requires item.slot == Accessories && item.id in stats.unlockedAvatarItems
    ensures UnequipAccessory(EquipAvatarItem(stats, item)) == UnequipAccessory(stats)
  {
    var a := UnequipAccessory(EquipAvatarItem(stats, item)).avatar;
    var b := UnequipAccessory(stats).avatar;
    assert a.Slot(Base) == b.Slot(Base) && a.Slot(Clothing) == b.Slot(Clothing) && a.Slot(Top) == b.Slot(Top);
  }

  /** `handleDislikeRecipe`: the title goes at the end of the disliked list. */
  function DislikeRecipe(stats: UserGameStats, title: string): (r: UserGameStats)
    ensures r.preferences.dislikedRecipes == stats.preferences.dislikedRecipes + [title]
    ensures r.preferences.allergies == stats.preferences.allergies
    ensures r.(preferences := stats.preferences) == stats
  {
    stats.(preferences := stats.preferences.(dislikedRecipes := stats.preferences.dislikedRecipes + [title]))
  }

  /** The allergy list with the allergy switched: every copy removed, or one appended. */
  function ToggleAllergyIn(allergies: seq<string>, allergy: string): (r: seq<string>)
    ensures allergy in r <==> allergy !in allergies
    ensures forall a :: a != allergy ==> (a in r <==> a in allergies)
    ensures allergy !in allergies ==> r == allergies + [allergy]
  {
    if allergy in allergies then
      var r := Filter(allergies, (a: string) => a != allergy);
      assert forall i :: 0 <= i < |r| ==> r[i] != allergy;
      assert forall a :: a != allergy && a in allergies ==> a in r by {
        forall a | a != allergy && a in allergies ensures a in r {
          FilterKeeps(allergies, (a: string) => a != allergy, a);
        }
      }
      assert forall a :: a in r ==> a in allergies by {
        forall a | a in r ensures a in allergies {
          FilterMember(allergies, (a: string) => a != allergy, a);
        }
      }
      r
    else allergies + [allergy]
  }

  /** `toggleAllergy`: only the allergy list changes. */
  function ToggleAllergy(stats: UserGameStats, allergy: string): (r: UserGameStats)
    ensures r.preferences.allergies == ToggleAllergyIn(stats.preferences.allergies, allergy)
    ensures r.preferences.dislikedRecipes == stats.preferences.dislikedRecipes
    ensures r.(preferences := stats.preferences) == stats
  {
    stats.(preferences := stats.preferences.(allergies := ToggleAllergyIn(stats.preferences.allergies, allergy)))
  }

  /** Switching an allergy the list did not hold on and off again gives the same list back. */
  lemma ToggleAllergyTwice(stats: UserGameStats, allergy: string)
    requires allergy !in stats.preferences.allergies
    ensures ToggleAllergy(ToggleAllergy(stats, allergy), allergy) == stats
  {
    var s := stats.preferences.allergies;
    var p := (a: string) => a != allergy;
    FilterConcat(s, [allergy], p);
    assert Filter([allergy], p) == [] by {
      assert [allergy][1..] == [];
    }
    FilterKeepsAll(s, p);
  }

  /** `getThemeClass`: the three shop themes have their background; anything else the default. */
  function ThemeClass(activeTheme: string): (c: string)
    ensures c == "bg-theme-default" <==> activeTheme !in {"sunset", "midnight", "forest"}
    ensures activeTheme in {"sunset", "midnight", "forest"} ==> c == "bg-theme-" + activeTheme
  {
    match activeTheme
    case "sunset" => "bg-theme-sunset"
    case "midnight" => "bg-theme-midnight"
    case "forest" => "bg-theme-forest"
    case _ => "bg-theme-default"
  }

  /**
   * The load-time migration of saved stats: a save without clothing (an empty or missing
   * field) gets the default outfit around its own base and the default unlocked parts.
   */
  function Migrate(saved: UserGameStats): (r: UserGameStats)
    ensures r.avatar.base == saved.avatar.base
    ensures r.avatar.clothing != ""
    ensures saved.avatar.clothing != "" ==> r == saved
    ensures saved.avatar.clothing == "" ==>
      r.avatar == AvatarConfig(saved.avatar.base, DefaultClothing, DefaultTop, NoAccessory)
      && r.unlockedAvatarItems == DefaultUnlockedAvatarItems
      && r.(avatar := saved.avatar, unlockedAvatarItems := saved.unlockedAvatarItems) == saved
  {
    if saved.avatar.clothing != "" then saved
    else saved.(avatar := AvatarConfig(saved.avatar.base, DefaultClothing, DefaultTop, NoAccessory),
                unlockedAvatarItems := DefaultUnlockedAvatarItems)
  }

  /** Migrating is done once: a migrated save is left alone. */
  lemma MigrateIdempotent(saved: UserGameStats)
    ensures Migrate(Migrate(saved)) == Migrate(saved)
  {
  }

  /** Saved tasks are kept only when the first one is dated today; otherwise a new batch is asked for. */
  predicate KeepSavedTasks(saved: seq<CleaningTask>, today: Day) {
    |saved| > 0 && saved[0].date == today
  }

  /** The task list after loading: the saved tasks when kept, otherwise the freshly generated ones. */
  function LoadedTasks(saved: Option<seq<CleaningTask>>, today: Day, generated: seq<CleaningTask>): (r: seq<CleaningTask>)
    ensures saved.Some? && KeepSavedTasks(saved.value, today) ==> r == saved.value
    ensures saved.None? || !KeepSavedTasks(saved.value, today) ==> r == generated
    ensures r == generated || (r != [] && r[0].date == today)
  {
    if saved.Some? && KeepSavedTasks(saved.value, today) then saved.value else generated
  }

  /** Every updater keeps the stats valid, given a non-negative number of rolled coins. */
  lemma UpdatersPreserveValid(s: UserGameStats, reward: int, isNewDay: bool, today: Day,
                              itemType: string, itemId: string, cost: int, roll: nat, item: AvatarItem, text: string)
    requires ValidStats(s) && roll < 50
    ensures ValidStats(AwardCompletion(s, reward, isNewDay, today))
    ensures ValidStats(Buy(s, itemType, itemId, cost))
    ensures ValidStats(EquipTheme(s, itemId)) && ValidStats(Gacha(s, roll))
    ensures ValidStats(EquipAvatarItem(s, item)) && ValidStats(UnequipAccessory(s))
    ensures ValidStats(DislikeRecipe(s, text)) && ValidStats(ToggleAllergy(s, text))
    ensures ValidStats(InitialStats) && ValidStats(Migrate(s))
  {
  }
}
