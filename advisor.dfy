/**
 * The deterministic part of the AI advisor service: what it sends back around each remote
 * call. The remote model is opaque; each call's outcome is a parameter.
 */
module Advisor {
  import opened Wrappers
  import opened Types
  import opened Text
  import opened Seqs
  import opened Dates
  import opened Freshness

  /**
   * How a remote generation ended: it threw (network failure, or a reply that is not valid
   * JSON), it answered with an empty text, or its text parsed into a payload.
   */
  datatype Reply<T> = Threw(error: string) | EmptyText | Parsed(payload: T)

  /** The fields the model fills in for a cleaning task. */
  datatype TaskDraft = TaskDraft(title: string, description: string, duration: real, isWeekly: bool)

  /** The difficulty the prompt asks for. */
  datatype Difficulty = Simple | Intermediate | Expert

  /** The level thresholds: above 10 expert, above 5 intermediate, simple otherwise. */
  function DifficultyFor(level: int): (d: Difficulty)
    ensures d == Expert <==> level > 10
    ensures d == Intermediate <==> 5 < level <= 10
    ensures d == Simple <==> level <= 5
  {
    if level > 10 then Expert else if level > 5 then Intermediate else Simple
  }

  /** Coins a generated task is worth: weekly tasks pay more and grow twice as fast with the level. */
  function TaskReward(level: int, isWeekly: bool): (coins: int)
    ensures isWeekly ==> coins == 50 + 2 * level
    ensures !isWeekly ==> coins == 15 + level
    ensures level >= 1 ==> coins > 0 && (isWeekly ==> coins > TaskReward(level, false))
  {
    if isWeekly then 50 + level * 2 else 15 + level
  }

  /** A higher level never pays less for the same kind of task. */
  lemma RewardGrowsWithLevel(a: int, b: int, isWeekly: bool)
    requires a <= b
    ensures TaskReward(a, isWeekly) <= TaskReward(b, isWeekly)
  {
  }

  /** `task-<time>-<index>`. */
  function TaskId(stamp: nat, index: nat): string {
    "task-" + (NatToString(stamp) + ("-" + NatToString(index)))
  }

  /** Ids of different positions differ, whatever the clock read at each. */
  lemma TaskIdsDistinct(s1: nat, i1: nat, s2: nat, i2: nat)
    requires i1 != i2
    ensures TaskId(s1, i1) != TaskId(s2, i2)
  {
    if TaskId(s1, i1) == TaskId(s2, i2) {
      SamePrefixCancels("task-", NatToString(s1) + ("-" + NatToString(i1)), NatToString(s2) + ("-" + NatToString(i2)));
      DigitsThenSeparator(NatToString(s1), NatToString(i1), NatToString(s2), NatToString(i2), '-');
      NatToStringInjective(i1, i2);
    }
  }

  /**
   * The tasks built from the model's answer: each gets a position-based id (with the clock
   * read for it), the reward of its kind at this level, completed false and today's date.
   */
  function StampTasks(drafts: seq<TaskDraft>, level: int, stamps: seq<nat>, today: Day): (r: seq<CleaningTask>)
    requires |stamps| == |drafts|
    ensures |r| == |drafts|
    ensures forall i :: 0 <= i < |r| ==>
      && r[i].id == TaskId(stamps[i], i)
      && r[i].title == drafts[i].title && r[i].description == drafts[i].description
      && r[i].duration == drafts[i].duration && r[i].isWeekly == drafts[i].isWeekly
      && r[i].coinsReward == TaskReward(level, drafts[i].isWeekly)
      && !r[i].completed && r[i].date == today
  {
    seq(|drafts|, i requires 0 <= i < |drafts| =>
      CleaningTask(TaskId(stamps[i], i), drafts[i].title, drafts[i].description, drafts[i].duration,
                   TaskReward(level, drafts[i].isWeekly), drafts[i].isWeekly, false, today))
  }

  /** The fixed batch handed out when the remote call fails. */
  function FallbackTasks(today: Day): (r: seq<CleaningTask>)
    ensures |r| == 4
    ensures forall i :: 0 <= i < 3 ==> !r[i].isWeekly
    ensures r[3].isWeekly
    ensures r[0].coinsReward == 15 && r[1].coinsReward == 15 && r[2].coinsReward == 20 && r[3].coinsReward == 60
    ensures r[0].duration == 5.0 && r[1].duration == 5.0 && r[2].duration == 10.0 && r[3].duration == 30.0
    ensures forall i :: 0 <= i < 4 ==> !r[i].completed && r[i].date == today
  {
    [ CleaningTask("f1", "Nettoyage Rapide", "Coup d'éponge sur les surfaces.", 5.0, 15, false, false, today),
      CleaningTask("f2", "Rangement 5 min", "Range 5 objets qui traînent.", 5.0, 15, false, false, today),
      CleaningTask("f3", "Sols", "Aspirateur rapide.", 10.0, 20, false, false, today),
      CleaningTask("f4", "Grand Nettoyage", "Salle de bain complète.", 30.0, 60, true, false, today) ]
  }

  /** The clock readings a reply needs: one per generated task. */
  predicate StampsFit<T>(reply: Reply<seq<T>>, stamps: seq<nat>) {
    reply.Parsed? ==> |stamps| == |reply.payload|
  }

  /** `generateCleaningTasks`: a failure falls back to the fixed batch, an empty answer gives no task. */
  function GenerateCleaningTasks(level: int, reply: Reply<seq<TaskDraft>>, stamps: seq<nat>, today: Day): (r: seq<CleaningTask>)
    requires StampsFit(reply, stamps)
    ensures reply.Threw? ==> r == FallbackTasks(today)
    ensures reply.EmptyText? ==> r == []
    ensures reply.Parsed? ==> r == StampTasks(reply.payload, level, stamps, today)
  {
    match reply
    case Threw(_) => FallbackTasks(today)
    case EmptyText => []
    case Parsed(drafts) => StampTasks(drafts, level, stamps, today)
  }

  /** Every task batch, whatever happened remotely, is new for today, has distinct ids, and pays. */
  lemma GeneratedTasksAreFresh(level: int, reply: Reply<seq<TaskDraft>>, stamps: seq<nat>, today: Day)
    requires StampsFit(reply, stamps) && level >= 1
    ensures var r := GenerateCleaningTasks(level, reply, stamps, today);
      && (forall i :: 0 <= i < |r| ==> !r[i].completed && r[i].date == today && r[i].coinsReward > 0)
      && (forall i, j :: 0 <= i < j < |r| ==> r[i].id != r[j].id)
  {
    var r := GenerateCleaningTasks(level, reply, stamps, today);
    if reply.Parsed? {
      forall i, j | 0 <= i < j < |r| ensures r[i].id != r[j].id {
        TaskIdsDistinct(stamps[i], i, stamps[j], j);
      }
    }
  }

  /** `recipe-<time>-<index>`. */
  function RecipeId(stamp: nat, index: nat): string {
    "recipe-" + (NatToString(stamp) + ("-" + NatToString(index)))
  }

  lemma RecipeIdsDistinct(s1: nat, i1: nat, s2: nat, i2: nat)
    requires i1 != i2
    ensures RecipeId(s1, i1) != RecipeId(s2, i2)
  {
    if RecipeId(s1, i1) == RecipeId(s2, i2) {
      SamePrefixCancels("recipe-", NatToString(s1) + ("-" + NatToString(i1)), NatToString(s2) + ("-" + NatToString(i2)));
      DigitsThenSeparator(NatToString(s1), NatToString(i1), NatToString(s2), NatToString(i2), '-');
      NatToStringInjective(i1, i2);
    }
  }

  /** The model's recipes with their ids replaced by position-based ones. */
  function StampRecipes(recipes: seq<Recipe>, stamps: seq<nat>): (r: seq<Recipe>)
    requires |stamps| == |recipes|
    ensures |r| == |recipes|
    ensures forall i :: 0 <= i < |r| ==> r[i] == recipes[i].(id := RecipeId(stamps[i], i))
  {
    seq(|recipes|, i requires 0 <= i < |recipes| => recipes[i].(id := RecipeId(stamps[i], i)))
  }

  /**
   * `generateRecipesFromInventory`: nothing to cook from gives no recipe without asking; a
   * failure is passed on to the caller as it came.
   */
  function GenerateRecipes(items: seq<InventoryItem>, reply: Reply<seq<Recipe>>, stamps: seq<nat>): (r: Result<seq<Recipe>, string>)
    requires StampsFit(reply, stamps)
    ensures items == [] ==> r == Ok([])
    ensures items != [] && reply.Threw? ==> r == Err(reply.error)
    ensures items != [] && reply.EmptyText? ==> r == Ok([])
    ensures items != [] && reply.Parsed? ==> r == Ok(StampRecipes(reply.payload, stamps))
  {
    if items == [] then Ok([])
    else match reply
      case Threw(e) => Err(e)
      case EmptyText => Ok([])
      case Parsed(recipes) => Ok(StampRecipes(recipes, stamps))
  }

  /** Recipes of one successful batch have distinct ids. */
  lemma GeneratedRecipeIdsDistinct(items: seq<InventoryItem>, reply: Reply<seq<Recipe>>, stamps: seq<nat>)
    requires StampsFit(reply, stamps)
    ensures var r := GenerateRecipes(items, reply, stamps);
      r.Ok? ==> forall i, j :: 0 <= i < j < |r.value| ==> r.value[i].id != r.value[j].id
  {
    var r := GenerateRecipes(items, reply, stamps);
    if items != [] && reply.Parsed? {
      forall i, j | 0 <= i < j < |r.value| ensures r.value[i].id != r.value[j].id {
        RecipeIdsDistinct(stamps[i], i, stamps[j], j);
      }
    }
  }

  /** The items the smart suggestion stresses: food with three days or less left. */
  function CriticalItems(items: seq<InventoryItem>, today: Day): (r: seq<InventoryItem>)
    ensures forall i :: 0 <= i < |r| ==> r[i] in items && DaysLeft(r[i].expiryDate, today) <= 3 && r[i].location != Household
    ensures forall i :: 0 <= i < |items| && IsUrgent(items[i], today) ==> items[i] in r
    ensures forall x :: multiset(r)[x] == if IsUrgent(x, today) then multiset(items)[x] else 0
  {
    FilterCounts(items, (item: InventoryItem) => IsUrgent(item, today));
    Filter(items, (item: InventoryItem) => IsUrgent(item, today))
  }

  /** The ingredients the smart suggestion may use: everything but household products. */
  function Ingredients(items: seq<InventoryItem>): (r: seq<InventoryItem>)
    ensures forall i :: 0 <= i < |r| ==> r[i] in items && r[i].location != Household
    ensures forall i :: 0 <= i < |items| && items[i].location != Household ==> items[i] in r
  {
    Filter(items, (item: InventoryItem) => item.location != Household)
  }

  /** Every critical item is also offered as an ingredient. */
  lemma CriticalAreIngredients(items: seq<InventoryItem>, today: Day)
    ensures forall i :: 0 <= i < |CriticalItems(items, today)| ==> CriticalItems(items, today)[i] in Ingredients(items)
  {
    var c := CriticalItems(items, today);
    forall i | 0 <= i < |c| ensures c[i] in Ingredients(items) {
      FilterKeeps(items, (item: InventoryItem) => item.location != Household, c[i]);
    }
  }

  /** `smart-recipe-<time>`. */
  function SmartRecipeId(stamp: nat): string {
    "smart-recipe-" + NatToString(stamp)
  }

  /** `generateSmartMealSuggestion`: no item, a failure or an empty answer all give no suggestion. */
  function SmartSuggestion(items: seq<InventoryItem>, reply: Reply<Recipe>, stamp: nat): (r: Option<Recipe>)
    ensures r.Some? <==> items != [] && reply.Parsed?
    ensures r.Some? ==> r.value == reply.payload.(id := SmartRecipeId(stamp))
  {
    if items == [] then None
    else match reply
      case Parsed(recipe) => Some(recipe.(id := SmartRecipeId(stamp)))
      case _ => None
  }

  /** How a chat exchange ended: the call threw, or it answered with some text (maybe empty). */
  datatype ChatOutcome = ChatFailed | ChatAnswered(text: string)

  const EmptyReplyText := "Désolée, j'ai eu un petit bug ! On réessaie ?"
  const UnreachableText := "Je ne suis pas joignable pour le moment, réessaie plus tard !"

  /** `chatWithHope`: always some text to show; the two fallbacks tell apart an empty answer and a failure. */
  function ChatReply(outcome: ChatOutcome): (r: string)
    ensures r != []
    ensures outcome.ChatFailed? ==> r == UnreachableText
    ensures outcome.ChatAnswered? && outcome.text != [] ==> r == outcome.text
    ensures outcome.ChatAnswered? && outcome.text == [] ==> r == EmptyReplyText
  {
    match outcome
    case ChatFailed => UnreachableText
    case ChatAnswered(text) => if text != [] then text else EmptyReplyText
  }

  /** The user can tell a failed call from an empty answer. */
  lemma ChatFallbacksDiffer()
    ensures ChatReply(ChatFailed) != ChatReply(ChatAnswered([]))
  {
    assert |UnreachableText| != |EmptyReplyText|;
  }
}
