# Hope household app — verified model

A Dafny model of the logic behind a single-family household app. The app has four parts:

- a food and household-product **inventory** with freshness statuses;
- a **shopping list** grouped by store department;
- a gamified **cleaning coach** with coins, xp, levels, a streak, a shop, themes and an avatar wardrobe;
- **Hope**, the AI assistant that suggests recipes, writes the day's cleaning tasks and chats.

The model follows the code's own layout:

- **Top-level state.** `App.HopeApp` (app.dfy) is a class holding the app state: inventory, shopping list, tasks, game stats, location filter and search text. It has one method per handler. Each method's postcondition gives the whole new state in terms of a pure updater.
- **Pure updaters.** `Progression` models the game-stats state machine and the two load-time policies. `InventoryStore` and `ShoppingStore` model the list reducers. `Freshness` is the card-status chain. `Advisor` holds the deterministic parts of the AI service: rewards, difficulty, id and date stamping, the fallback batch, and the error mapping.
- **Screen views.** Each screen has its own module: `HomeView`, `ShoppingListView`, `CoachView`, `AddItemForm`, `ChatWithHope` and `RecipeView`. Derived lists are pure functions. A screen whose handlers update local state gets a class (`SuggestionCard`, `ShoppingForm`, `FormState`, `ChatPanel`, `RecipePanel`).
- **Support modules.** `Types` holds the records and enums. `Dates` proves that ISO `YYYY-MM-DD` strings sort chronologically. `Text` covers decimal ids, ASCII lower-casing, substring search, `trim`, the first word and the reading of a number field's text. `Seqs` provides an order-keeping filter. `Ratios` gives exact percentages.

Conventions:

- Dates are UTC day numbers (`Types.Day`). The days-left figure is `expiry - today`. That equals the card's `Math.ceil` over milliseconds whenever the current instant lies inside day `today` and the expiry is read as midnight UTC.
- Clocks, random draws and fresh ids are parameters: `today`, `now`, `stamps`, `roll`, `pick`.
- Every AI call is an opaque outcome, `Advisor.Reply`: it threw, it returned empty text, or it returned a parsed payload.
- Each asynchronous handler is split into the step before its `await` and the step after.

## Model

| member | source | states |
|---|---|---|
| Types.LocationTextInjective | types.ts:1-6 | the four storage locations have four different display strings |
| Types.DepartmentRank | types.ts:8-20 | every department has a position in the fixed declaration order of the 11 departments |
| Types.RankOfPosition | types.ts:8-20 | the position of the j-th declared department is j |
| Types.AllDepartmentsDistinct | types.ts:8-20 | the department order lists exactly 11 pairwise-distinct values and every department |
| Types.AvatarConfig.WithSlot | types.ts:73-85 | writing the slot an avatar item's type names sets that slot and leaves the other three unchanged |
| Dates.IsoDate | types.ts:37 | a calendar date is written as ten characters with dashes at positions 4 and 7 |
| Dates.IsoOrderIsChronological | types.ts:37 | for four-digit years, `YYYY-MM-DD` strings compare lexicographically exactly as the dates compare in time, and are equal exactly when the dates are |
| Dates.Pad2Order | types.ts:68 | two-digit zero padding preserves order and equality of the numbers |
| Dates.Pad4Order | types.ts:97 | four-digit zero padding preserves order and equality of the numbers |
| Freshness.DaysLeft | components/InventoryItemCard.tsx:10-13 | the days left are the expiry day minus today, negative exactly when the expiry is past; this is the card's `Math.ceil` over milliseconds when the current instant lies inside day `today` |
| Freshness.Classify | components/InventoryItemCard.tsx:25-65 | exactly one status per (location, days left): household whatever the date, expired below 0, critical 0..3, warning 4..7, fresh above 7, each dated status carrying the days left |
| Freshness.CardStatus | components/InventoryItemCard.tsx:10-65 | an item's card status by calendar day: household for Ménager items, expired before today, critical from today to today+3, warning from today+4 to today+7, fresh after, each dated status carrying the days to the expiry |
| Freshness.StatusText | components/InventoryItemCard.tsx:25-65 | every label is non-empty, and a label shows a number exactly when its status is dated |
| Freshness.DatedLabelShowsDays | components/InventoryItemCard.tsx:41-65 | the critical, warning and fresh labels carry the days left, readable back from the label text |
| Freshness.StatusIgnoresName | components/InventoryItemCard.tsx:23-65 | the status depends only on location and expiry: the name-based household flag is never read |
| Freshness.PantrySoapIsStillDated | components/InventoryItemCard.tsx:23 | a pantry item named "savon" raises the unused flag yet still gets a dated status |
| Freshness.LocationIcon | components/InventoryItemCard.tsx:71 | the broom icon appears exactly for household products |
| Freshness.UrgentIsExpiredOrCritical | components/HomeView.tsx:20-23 | the "three days or less, not household" test holds exactly for cards showing expired or critical |
| Text.NatToString | services/geminiService.ts:195 | a number is written as a non-empty digit string with no leading zero |
| Text.NatToStringInjective | services/geminiService.ts:195 | different numbers give different decimal strings |
| Text.ToLower | App.tsx:267 | lower-casing keeps the length and maps only A-Z |
| Text.Includes | App.tsx:267 | substring search: true exactly when the needle occurs at some position |
| Text.Trim | components/ShoppingListView.tsx:19-20 | the trimmed text is the input's core, with no whitespace at either end |
| Text.TrimEmptyIffBlank | components/ChatWithHope.tsx:27 | trimming gives the empty string exactly when the input is all whitespace |
| Text.TrimIdempotent | components/ShoppingListView.tsx:20 | trimming twice is trimming once |
| Text.FirstWord | components/HomeView.tsx:66 | the first word is a prefix of the name with no space, followed by a space when shorter than the name |
| Text.ParseFloatingPoint | components/AddItemForm.tsx:158-164 | the number field's text has no value when empty; its value is negative only with a leading minus sign, and a leading minus sign never gives a positive value |
| Text.ParseWholeText | components/AddItemForm.tsx:158-164 | a non-empty digit string reads as the whole number it denotes |
| Text.ParseDecimalText | components/AddItemForm.tsx:158-164 | `whole.fraction` reads as the whole part plus the fraction digits over their power of ten |
| Text.ParseExponentText | components/AddItemForm.tsx:158-164 | `digits e exponent` reads as the whole number scaled up by ten to the exponent |
| Text.ParseNegativeExponentText | components/AddItemForm.tsx:158-164 | `digits e- exponent` reads as the whole number scaled down by ten to the exponent |
| Text.ScaleUp | components/AddItemForm.tsx:158-164 | scaling by a non-negative exponent multiplies by that power of ten |
| Text.ScaleDown | components/AddItemForm.tsx:158-164 | scaling by a negative exponent divides by that power of ten |
| Text.TenthInExponentForm | components/AddItemForm.tsx:158-164 | "1e-1" reads as 0.1 |
| Text.TrailingDotRefused | components/AddItemForm.tsx:158-164 | a dot with no fraction digit after it gives no value |
| Text.PlusSignRefused | components/AddItemForm.tsx:158-164 | a leading plus sign gives no value |
| Text.BareExponentRefused | components/AddItemForm.tsx:158-164 | an exponent mark with no digits after it gives no value |
| InventoryStore.NewItem | App.tsx:120-121 | a stored item is the draft plus the fresh id, the time added and the user "currentUser" |
| InventoryStore.AddItem | App.tsx:122 | adding prepends the new item and leaves the rest untouched |
| InventoryStore.DeleteItem | App.tsx:126 | deleting removes every item with the id and keeps every other item exactly as often as it was there |
| InventoryStore.DeleteAbsentIsIdentity | App.tsx:126 | deleting an id no item has changes nothing |
| InventoryStore.DeleteConcat | App.tsx:126 | deleting from a concatenation deletes from each part, so the kept items keep their order |
| InventoryStore.DeleteUndoesAdd | App.tsx:120-126 | deleting a freshly added item's id restores the inventory |
| InventoryStore.InsertByExpiry | App.tsx:269 | inserting into an expiry-sorted list keeps it sorted and adds exactly the item |
| InventoryStore.SortByExpiry | App.tsx:269 | the sort gives an expiry-sorted permutation |
| InventoryStore.SortIsStable | App.tsx:269 | items expiring the same day keep their relative order |
| InventoryStore.FilteredInventory | App.tsx:265-269 | the visible list is sorted by expiry and holds exactly the items matching the location filter (or all) and the case-insensitive name search, each as often as the inventory does |
| InventoryStore.FilteredKeepsInventoryOrder | App.tsx:265-269 | among same-day items the visible list keeps the inventory order |
| InventoryStore.NoFilterShowsEverything | App.tsx:265-269 | with no filter and an empty search every item is visible |
| ShoppingStore.AddEntry | App.tsx:129-137 | adding appends one unchecked entry with the name, department and id |
| ShoppingStore.Toggle | App.tsx:139-141 | toggling flips `checked` on exactly the entries with the id and keeps every other field and entry |
| ShoppingStore.ToggleTwiceIsIdentity | App.tsx:139-141 | toggling the same id twice restores the list |
| ShoppingStore.DeleteEntry | App.tsx:143-145 | deleting removes the entries with the id and keeps every other entry exactly as often as it was there |
| ShoppingStore.DeleteUndoesAdd | App.tsx:129-145 | deleting a freshly added entry's id restores the list |
| ShoppingStore.DeleteConcat | App.tsx:143-145 | deleting from a concatenation deletes from each part, so the kept entries keep their order |
| ShoppingStore.ClearCompleted | App.tsx:147-149 | clearing keeps exactly the unchecked entries; with the checked ones it makes up the list |
| ShoppingStore.ClearCompletedConcat | App.tsx:147-149 | clearing works segment by segment, so the kept entries stay in list order |
| ShoppingStore.ClearCompletedIdempotent | App.tsx:147-149 | clearing twice is clearing once, and nothing checked remains |
| Progression.FreeItemsAreTheDefaults | App.tsx:14-41 | the free catalog items are exactly the seven default unlocked ids |
| Progression.InitialAvatarIsOwned | App.tsx:57-72 | the initial avatar's base, clothing and top are catalog values the new player owns |
| Progression.GainXp | App.tsx:166-168 | 100·level + xp grows by exactly 20, the level rises by at most one, xp stays in 0..99 |
| Progression.AwardCompletion | App.tsx:162-177 | a paid completion adds the reward, bumps the streak iff it is a new day, sets today as last clean date, keeps valid stats valid and changes nothing else |
| Progression.FiveCompletionsMakeALevel | App.tsx:166-168 | five completions from valid stats raise the level by exactly one and restore the xp |
| Progression.FindTask | App.tsx:159 | the lookup finds the first task with the id, and fails exactly when none has it |
| Progression.MarkCompleted | App.tsx:158 | the tasks with the id become completed; every other task and field stays |
| Progression.CompleteTask | App.tsx:157-179 | the task is always marked; an unknown or already-completed task leaves the stats unchanged; otherwise its reward is paid once |
| Progression.CompletingTwicePaysOnce | App.tsx:157-179 | completing the same id twice pays no more than once |
| Progression.SameDayKeepsStreak | App.tsx:163-173 | a second completion on the same day leaves the streak as the first one set it |
| Progression.Buy | App.tsx:181-197 | too few coins changes nothing; otherwise the cost is paid, a freeze adds one, a theme is appended and made active, an avatar item is appended, and nothing else changes |
| Progression.BuyNeverOverspends | App.tsx:182-184 | coins never go negative and never grow through a purchase of non-negative cost |
| Progression.XpBoostOnlySpendsCoins | App.tsx:185-193 | the xp boost only takes its price |
| Progression.BuyAvatarDoesNotEquip | App.tsx:190-193 | a bought avatar item is owned but not worn |
| Progression.RepeatPurchaseDuplicates | App.tsx:186-188 | buying an owned theme again pays again and lists its id twice more |
| Progression.EquipTheme | App.tsx:199-201 | any theme id becomes active, owned or not; nothing else changes |
| Progression.GachaReward | App.tsx:204 | a draw in 0..49 gives a reward in 10..59 |
| Progression.GachaRewardIsOneToOne | App.tsx:204 | different draws pay different amounts |
| Progression.GachaRoll | App.tsx:204 | every amount from 10 to 59 is paid by a draw in 0..49, so with one-to-one the reward is as uniform as the draw |
| Progression.Gacha | App.tsx:203-206 | the coins grow by exactly the draw's reward (10 to 59) and nothing else changes |
| Progression.EquipAvatarItem | App.tsx:208-218 | an item not owned changes nothing; an owned one sets only the slot its type names |
| Progression.UnequipAccessory | App.tsx:220-225 | only the accessory slot changes, to "none" |
| Progression.EquipThenUnequip | App.tsx:208-225 | equipping an accessory then removing it equals removing it directly |
| Progression.DislikeRecipe | App.tsx:232-240 | the recipe title is appended to the dislikes; nothing else changes |
| Progression.ToggleAllergyIn | App.tsx:244-247 | the allergy's membership flips; every other allergy keeps its membership; a new allergy goes at the end of the list |
| Progression.ToggleAllergy | App.tsx:242-253 | only the allergy list changes, by the toggle |
| Progression.ToggleAllergyTwice | App.tsx:242-253 | toggling a new allergy twice restores the stats |
| Progression.ThemeClass | App.tsx:256-263 | the three named themes get their own class; every other id falls back to the default class |
| Progression.Migrate | App.tsx:90-97 | saved stats with a clothing slot stay as they are; legacy ones keep their base, get the default avatar and the seven default unlocks |
| Progression.MigrateIdempotent | App.tsx:93-96 | migrating twice is migrating once |
| Progression.LoadedTasks | App.tsx:100-110 | saved tasks are kept exactly when the list is non-empty and its first task is dated today; otherwise the generated batch is used |
| Progression.UpdatersPreserveValid | App.tsx:57-253 | every stats updater, the initial stats and the migration keep 0 <= xp < 100, level >= 1 and non-negative streak and freezes |
| App.SampleInventory | App.tsx:78-83 | a first start shows milk due in two days in the fridge and a household spray dated 2025-12-31 |
| App.HopeApp.constructor | App.tsx:45-72 | empty lists, the initial stats, no filter and no search |
| App.HopeApp.Load | App.tsx:75-111 | saved slices replace the defaults (stats after migration); without a saved inventory the samples appear; a refresh is requested with the level before loading exactly when the saved tasks are missing or not today's |
| App.HopeApp.BeginRefresh | App.tsx:152-153 | the refresh button asks the task generator with the current level and changes no state until the reply |
| App.HopeApp.RefreshTasks | App.tsx:152-155 | the generated batch replaces the tasks; nothing else changes |
| App.HopeApp.VisibleInventory | App.tsx:265-269 | the list is `InventoryStore.FilteredInventory` of the state: sorted by expiry, each matching item as often as the inventory holds it, and nothing else |
| App.HopeApp.ThemeClass | App.tsx:256-263 | the three shop themes give their own background class, anything else the default |
| App.HopeApp.SetFilter | App.tsx:47 | only the location filter changes |
| App.HopeApp.SetSearch | App.tsx:48 | only the search text changes |
| App.HopeApp.AddItem | App.tsx:120-124 | only the inventory changes, by the prepend |
| App.HopeApp.DeleteItem | App.tsx:126 | only the inventory changes, by the delete |
| App.HopeApp.AddToShoppingList | App.tsx:129-137 | only the shopping list changes, by the append |
| App.HopeApp.ToggleShoppingItem | App.tsx:139-141 | only the shopping list changes, by the toggle |
| App.HopeApp.DeleteShoppingItem | App.tsx:143-145 | only the shopping list changes, by the delete |
| App.HopeApp.ClearShoppingList | App.tsx:147-149 | only the shopping list changes, by the clear |
| App.HopeApp.CompleteTask | App.tsx:157-179 | tasks and stats change by the completion, valid stats stay valid, nothing else changes |
| App.HopeApp.BuyItem | App.tsx:181-197 | only the stats change, by the purchase; valid stats stay valid |
| App.HopeApp.EquipTheme | App.tsx:199-201 | only the stats change, by the equip |
| App.HopeApp.Gacha | App.tsx:203-206 | only the stats change, by the draw's reward |
| App.HopeApp.EquipAvatarItem | App.tsx:208-218 | only the stats change, by the equip |
| App.HopeApp.UnequipAccessory | App.tsx:220-225 | only the stats change, by the unequip |
| App.HopeApp.DislikeRecipe | App.tsx:232-240 | only the stats change, by the dislike |
| App.HopeApp.ToggleAllergy | App.tsx:242-253 | only the stats change, by the toggle |
| Advisor.DifficultyFor | services/geminiService.ts:157-159 | expert iff level > 10, intermediate iff 5 < level <= 10, simple otherwise |
| Advisor.TaskReward | services/geminiService.ts:199 | 50 + 2·level for weekly tasks and 15 + level for daily ones, positive from level 1, weekly above daily |
| Advisor.RewardGrowsWithLevel | services/geminiService.ts:199 | a higher level never lowers a reward |
| Advisor.TaskIdsDistinct | services/geminiService.ts:195 | `task-<ts>-<index>` ids of different indexes differ, whatever the timestamps |
| Advisor.StampTasks | services/geminiService.ts:194-203 | each generated task keeps its drafted fields and gets its id, the level's reward, completed = false and today's date |
| Advisor.FallbackTasks | services/geminiService.ts:206-212 | the fallback is four uncompleted tasks for today: three daily (15, 15, 20 coins) and one weekly (60), of 5, 5, 10 and 30 minutes |
| Advisor.GenerateCleaningTasks | services/geminiService.ts:192-213 | a failed call gives the fallback, an empty reply no tasks, a parsed reply the stamped tasks |
| Advisor.GeneratedTasksAreFresh | services/geminiService.ts:192-213 | every batch is uncompleted, dated today, positively rewarded and has distinct ids |
| Advisor.RecipeIdsDistinct | services/geminiService.ts:73 | `recipe-<ts>-<index>` ids of different indexes differ |
| Advisor.StampRecipes | services/geminiService.ts:73 | each recipe keeps its fields and only its id is rewritten |
| Advisor.GenerateRecipes | services/geminiService.ts:9-81 | an empty inventory gives no recipes without a call; a failure is passed on as an error; an empty reply gives none; a parsed reply the re-identified recipes |
| Advisor.GeneratedRecipeIdsDistinct | services/geminiService.ts:73 | the recipes of one batch have distinct ids |
| Advisor.CriticalItems | services/geminiService.ts:91-96 | exactly the non-household items with three days or less left, each as often as the inventory holds it |
| Advisor.Ingredients | services/geminiService.ts:99 | exactly the non-household items |
| Advisor.CriticalAreIngredients | services/geminiService.ts:91-99 | every critical item is among the ingredients |
| Advisor.SmartSuggestion | services/geminiService.ts:83-153 | a suggestion exists exactly when the inventory is non-empty and the reply parsed; it is that recipe with the `smart-recipe-` id |
| Advisor.ChatReply | services/geminiService.ts:241-246 | the answer text, or a fixed text for an empty reply, or another fixed text on failure; never empty |
| Advisor.ChatFallbacksDiffer | services/geminiService.ts:242-245 | the two fixed texts differ |
| HomeView.CriticalCount | components/HomeView.tsx:20-23 | the counter shown on the home screen is the number of urgent items (food with three days or less left, expired included), each counted with its multiplicity in the inventory; so it is at most the inventory size, zero exactly when no item is urgent and the whole inventory exactly when every item is |
| HomeView.CriticalCountMatchesCards | components/HomeView.tsx:20-23 | an item counts exactly when its card shows expired or critical |
| HomeView.ExpiredFoodCounts | components/HomeView.tsx:20-23 | a food item past its date still counts as critical |
| HomeView.HouseholdNeverCounts | components/HomeView.tsx:22 | household products never count |
| HomeView.CompletedTasks | components/HomeView.tsx:24-25 | the completed count and the pending count add up to the total; the count is zero exactly when no task is completed |
| HomeView.AllDoneWhenCountIsTotal | components/HomeView.tsx:24-25 | the completed count equals the total exactly when every task is completed |
| HomeView.TaskProgress | components/HomeView.tsx:24-26 | progress lies in 0..100, is 0 with no tasks, is 100 exactly when every task of a non-empty day is completed and 0 exactly when none is |
| HomeView.ProgressReadings | components/HomeView.tsx:24-26 | for a non-empty day the percentage is full iff all tasks are completed and empty iff none is |
| HomeView.Greeting | components/HomeView.tsx:66 | "Bonjour, " then the name's first space-free word then " !" |
| HomeView.FamilyGreeting | components/HomeView.tsx:66 | the default family name greets with "Famille" |
| HomeView.SuggestionCard.constructor | components/HomeView.tsx:15-17 | no suggestion, not loading, no feedback |
| HomeView.SuggestionCard.BeginFetch | components/HomeView.tsx:20-43 | a request starts exactly when nothing is shown, no feedback was given and the critical count of the inventory is positive, that is, some item of the inventory is urgent; then loading is set |
| HomeView.SuggestionCard.FinishFetch | components/HomeView.tsx:33-35 | the result (maybe none) is shown and loading ends |
| HomeView.SuggestionCard.Dislike | components/HomeView.tsx:45-51 | a shown recipe is reported once, feedback becomes disliked and the card clears, which stops further requests; with none shown nothing happens |
| HomeView.SuggestionCard.Like | components/HomeView.tsx:53-58 | a shown recipe is reported and feedback becomes liked, the recipe stays; with none shown nothing happens |
| ShoppingListView.OfDept | components/ShoppingListView.tsx:27 | a department's entries, all of that department, drawn from the list |
| ShoppingListView.OfDeptIsFilter | components/ShoppingListView.tsx:27 | a department's entries are the list filtered by that department |
| ShoppingListView.OfDeptCount | components/ShoppingListView.tsx:27 | a department's entries hold each entry of that department exactly as often as the list |
| ShoppingListView.OfDeptConcat | components/ShoppingListView.tsx:27 | a department's entries keep list order |
| ShoppingListView.GroupIn | components/ShoppingListView.tsx:26-32 | the reduce over a list of departments records, in order, the groups of those with entries |
| ShoppingListView.GroupByDepartment | components/ShoppingListView.tsx:26-32 | the reduce over departments builds exactly the groups of the non-empty departments |
| ShoppingListView.GroupsAreExact | components/ShoppingListView.tsx:27-30 | each group is non-empty and holds exactly its department's entries in list order |
| ShoppingListView.GroupsInDeclarationOrder | components/ShoppingListView.tsx:26-32 | groups appear in strictly increasing department declaration order |
| ShoppingListView.GroupsArePermutation | components/ShoppingListView.tsx:26-32 | the groups together are a permutation of the list |
| ShoppingListView.CompletedCount | components/ShoppingListView.tsx:34-35 | the checked count is at most the total and is what clearing removes |
| ShoppingListView.CompletedCountZero | components/ShoppingListView.tsx:35 | the count is 0 exactly when nothing is checked |
| ShoppingListView.Progress | components/ShoppingListView.tsx:36 | progress lies in 0..100, is 0 for an empty list and 100 exactly when every entry is checked |
| ShoppingListView.AllTickedIffCountIsTotal | components/ShoppingListView.tsx:34-35 | the count equals the total exactly when every entry is checked |
| ShoppingListView.ClearHidesButton | components/ShoppingListView.tsx:184 | after clearing, the clear button is not offered |
| ShoppingListView.ShowClearButton | components/ShoppingListView.tsx:184 | the clear button shows exactly when some entry is ticked |
| ShoppingListView.DeptIcon | components/ShoppingListView.tsx:39-53 | every department has an icon; the basket is exactly Divers's |
| ShoppingListView.ShoppingForm.constructor | components/ShoppingListView.tsx:13-15 | empty input, savoury grocery, menu closed |
| ShoppingListView.ShoppingForm.SubmitDisabled | components/ShoppingListView.tsx:125 | the add button is disabled exactly when the typed name is blank |
| ShoppingListView.ShoppingForm.Type | components/ShoppingListView.tsx:13 | only the input changes |
| ShoppingListView.ShoppingForm.ToggleDeptMenu | components/ShoppingListView.tsx:15 | only the menu flag flips |
| ShoppingListView.ShoppingForm.SelectDept | components/ShoppingListView.tsx:14-15 | the department is chosen and the menu closes |
| ShoppingListView.ShoppingForm.Submit | components/ShoppingListView.tsx:17-23 | a blank input adds nothing; otherwise the trimmed name with the chosen department is added and the input cleared |
| CoachView.DailyTasks | components/CoachView.tsx:31 | the daily column holds every non-weekly task as often as the list, and no weekly one |
| CoachView.WeeklyTasks | components/CoachView.tsx:32 | the weekly column holds every weekly task as often as the list, and no daily one |
| CoachView.ColumnsPartitionTasks | components/CoachView.tsx:31-32 | the daily and weekly columns are disjoint and together hold every task exactly as often as the list |
| CoachView.ColumnsKeepOrder | components/CoachView.tsx:31-32 | each column keeps the task order |
| CoachView.TotalDuration | components/CoachView.tsx:33 | durations are exact reals, fractional minutes included; no time is left once every task is completed; with none completed, all the durations are left |
| CoachView.TotalDurationStep | components/CoachView.tsx:33 | the remaining time sums the durations of the tasks not completed |
| CoachView.CompletingNeverAddsTime | components/CoachView.tsx:33 | marking tasks completed never adds remaining time |
| CoachView.MarkAbsentIsIdentity | App.tsx:158 | marking an id no task has changes nothing |
| CoachView.CompletingSavesItsDuration | components/CoachView.tsx:33 | with distinct ids, completing a pending task removes exactly its duration |
| CoachView.ShopAvatarItems | components/CoachView.tsx:36 | the offers are exactly the catalog items not owned and with a price |
| CoachView.BoughtItemLeavesShop | components/CoachView.tsx:36 | a bought item is no longer offered |
| CoachView.NewPlayerSeesEveryPricedItem | components/CoachView.tsx:36 | a new player is offered every priced catalog item |
| CoachView.EveryShopThemeHasItsClass | components/CoachView.tsx:39-44 | each theme sold has its own background class |
| CoachView.ThemeControl | components/CoachView.tsx:198-222 | an owned theme shows equip, disabled iff active; a locked one shows buy, disabled iff coins < cost |
| CoachView.EnabledThemeButtonActivates | components/CoachView.tsx:206-221 | an enabled theme button makes the theme active |
| CoachView.CanAfford | components/CoachView.tsx:191-192 | a buy button is enabled when the coins cover the price |
| CoachView.EnabledIffPurchaseGoesThrough | components/CoachView.tsx:191-192 | a buy button is enabled exactly when the purchase takes the coins; otherwise nothing changes |
| CoachView.FreezeButtonAddsAFreeze | components/CoachView.tsx:191 | an enabled freeze button adds one freeze |
| CoachView.TaskButtonDisabled | components/CoachView.tsx:290 | a task's complete button is disabled once the task is completed |
| CoachView.EnabledTaskButtonPays | components/CoachView.tsx:290 | with distinct ids, an enabled complete button pays that task's reward |
| AddItemForm.Draft | components/AddItemForm.tsx:33-44 | no draft when the name or the date is empty; otherwise exactly name, location, quantity, unit and date |
| AddItemForm.QuantityAccepted | components/AddItemForm.tsx:158-164 | the browser's check of the quantity: the text has a value, at least 0.1, on the 0.1 step; an accepted text is non-empty and does not start with a minus sign |
| AddItemForm.QuantityAcceptedIffTenths | components/AddItemForm.tsx:158-164 | the browser accepts exactly the quantities worth a positive whole number of tenths |
| AddItemForm.WholeQuantityAccepted | components/AddItemForm.tsx:158-164 | every whole quantity from 1 up passes, the default "1" among them |
| AddItemForm.EmptyAndZeroRefused | components/AddItemForm.tsx:158-164 | an empty quantity and a zero quantity are refused (`required`, `min="0.1"`) |
| AddItemForm.OffStepRefused | components/AddItemForm.tsx:158-164 | 1.25 is refused: it is not on the 0.1 step |
| AddItemForm.TenthsTaken | components/AddItemForm.tsx:158-164 | 0.1 and 2.50 are accepted |
| AddItemForm.ScannedNamesAreSubmittable | components/AddItemForm.tsx:10-19 | every scanner name passes the submit guard once a date is set |
| AddItemForm.QuickPickStatus | components/AddItemForm.tsx:193 | a food product quick-dated +3 shows critical, +7 warning, +14 and +30 fresh |
| AddItemForm.FormState.constructor | components/AddItemForm.tsx:22-29 | fridge, quantity "1", pieces, no date, scanner off |
| AddItemForm.FormState.SetName | components/AddItemForm.tsx:121 | only the name changes |
| AddItemForm.FormState.SetDaysFromNow | components/AddItemForm.tsx:47-51 | the date becomes today plus the days |
| AddItemForm.FormState.Submit | components/AddItemForm.tsx:33-44 | the draft goes out exactly when a name and a date are set and the browser accepts the quantity; it is then the handler's draft |
| AddItemForm.FormState.StartScanning | components/AddItemForm.tsx:54-55 | the scanner opens before the camera answers |
| AddItemForm.FormState.CameraAnswered | components/AddItemForm.tsx:56-74 | a granted stream is held; a refusal closes the scanner |
| AddItemForm.FormState.StopScanning | components/AddItemForm.tsx:77-83 | the stream is released and the scanner closed, from any state |
| AddItemForm.FormState.HandleDetected | components/AddItemForm.tsx:85-93 | the name becomes the picked database entry and the scanner stops |
| ChatWithHope.LastN | components/ChatWithHope.tsx:36 | `slice(-n)` for a positive n: the last min(n, length) elements |
| ChatWithHope.LastNKeepsNewest | components/ChatWithHope.tsx:36 | the newest message stays in the window |
| ChatWithHope.MessageId | components/ChatWithHope.tsx:29 | a message id is a decimal time stamp |
| ChatWithHope.ReplyIdDiffersFromQuestion | components/ChatWithHope.tsx:29-39 | a reply stamped at or after its question never takes the question's id |
| ChatWithHope.ChatPanel.constructor | components/ChatWithHope.tsx:12-16 | a single greeting from Hope, empty input, not loading |
| ChatWithHope.ChatPanel.Type | components/ChatWithHope.tsx:15 | only the input changes |
| ChatWithHope.ChatPanel.Send | components/ChatWithHope.tsx:25-37 | ignored when the input is blank or a reply is pending; otherwise the question is appended, the input cleared, loading set, and at most the last ten earlier messages go along |
| ChatWithHope.ChatPanel.Receive | components/ChatWithHope.tsx:39-45 | the reply (or fallback text) is appended and loading ends |
| RecipeView.OffersRecipes | components/RecipeView.tsx:33-43 | below three products the screen shows only its empty state |
| RecipeView.ShowsAllergyBanner | components/RecipeView.tsx:54-57 | the allergy banner shows exactly when some allergy is set |
| RecipeView.Toggled | components/RecipeView.tsx:29-31 | the tapped recipe opens unless it was the open one, which closes |
| RecipeView.ToggleTwice | components/RecipeView.tsx:29-31 | tapping a card twice restores the accordion |
| RecipeView.ToggleOtherMoves | components/RecipeView.tsx:29-31 | tapping another card moves the single open card there |
| RecipeView.RecipePanel.constructor | components/RecipeView.tsx:11-14 | no recipes, not loading, no error, nothing open |
| RecipeView.RecipePanel.GenerateDisabled | components/RecipeView.tsx:63 | the generate button is disabled while a request is on its way |
| RecipeView.RecipePanel.BeginGenerate | components/RecipeView.tsx:16-43 | a tap starts a request exactly when the inventory holds three products or more and none is on its way; then loading starts and the error is cleared, otherwise nothing changes |
| RecipeView.RecipePanel.FinishGenerate | components/RecipeView.tsx:19-26 | success replaces the recipes; failure shows the fixed error and keeps the old recipes; loading ends either way |
| RecipeView.RecipePanel.ToggleExpand | components/RecipeView.tsx:29-31 | the open card changes by the toggle |
| Ratios.Percent | components/ShoppingListView.tsx:36 | a part of a whole as a percentage in 0..100, 0 for an empty whole |
| Ratios.PercentFull | components/HomeView.tsx:26 | the percentage is 100 exactly when the part is the whole |
| Ratios.PercentEmpty | components/HomeView.tsx:26 | the percentage is 0 exactly when the part is 0 |

## Left out

- Persistence: localStorage reads and writes and JSON parsing. Loading takes the saved slices as `Option` values.
- The AI client: prompts, response schemas and chat sessions are foreign calls. Each call is an `Advisor.Reply` outcome.
- `Date.now()`, `new Date()` and `Math.random()` are parameters. `Math.ceil` over milliseconds is replaced by day numbers, and local time zones are not modelled.
- Dates.IsoOrderIsChronological: covers four-digit years only.
- `parseFloat(quantity)`: the quantity stays the typed text. The browser's check of that text reads it as an exact decimal, not as its nearest double, and a value too large for a double is not refused.
- Floating point: percentages, task durations (`CleaningTask.duration`, `Advisor.TaskDraft.duration`) and the remaining-time sum are exact reals; double rounding is not modelled.
- Text.ToLower: ASCII only; the full Unicode case mapping of `toLowerCase` is not modelled.
- Timers, React batching and StrictMode double calls: each handler is one atomic step. In particular, `handleBuyItem` changes arrays and objects it shares with the previous state: it pushes into the unlocked lists and increments `inventory.freeze` in place. A double call could then append twice; the model appends once.
- Camera access and stream tracks: only a flag for "a stream is held" is kept, and the camera's answer is a parameter.
- The 2.5-second scan timer: `HandleDetected` runs whenever it is called.
- Vibration, alerts, console logging, `handleLikeRecipe` (it only logs) and view switching.
- All rendering: JSX, CSS classes and the avatar URL. components/Navigation.tsx is not part of this model.
- A task batch whose stamping straddles midnight: all tasks of a batch share one `today`.
- Department strings outside the enum: data from storage is assumed to use the enum's values.
- The streak is never reset and a freeze is never consumed. The source does neither, and the model keeps it that way.
- HomeView.SuggestionCard.BeginFetch: the effect's re-run triggers (inventory or preference changes) are not modelled. Any call is one possible run.
