/** The records and enumerations every part of the app shares. */
module Types {
  import opened Wrappers
  import opened Dates

  /** Where an inventory item is kept. */
  datatype StorageLocation = Fridge | Freezer | Pantry | Household

  /** The stored text of each location; `Household` is the `'Ménager'` the views compare against. */
  function LocationText(l: StorageLocation): string {
    match l
    case Fridge => "Réfrigérateur"
    case Freezer => "Congélateur"
    case Pantry => "Garde-manger"
    case Household => "Ménager"
  }

  /** The four locations in declaration order (`Object.values(StorageLocation)`). */
  const AllLocations: seq<StorageLocation> := [Fridge, Freezer, Pantry, Household]

  /** Different locations are stored as different texts. */
  lemma LocationTextInjective(a: StorageLocation, b: StorageLocation)
    requires LocationText(a) == LocationText(b)
    ensures a == b
  {
    assert LocationText(a)[0] == LocationText(b)[0];
    if a == Fridge || a == Freezer {
      assert LocationText(a)[1] == LocationText(b)[1];
    }
  }

  /** Store departments of the shopping list. */
  datatype Department =
    | Produce | Dairy | Meat | Bakery | Frozen | Grocery | Sweet | Drinks | HouseholdProducts | Hygiene | Other

  /** The eleven departments in declaration order, the order the shopping list is grouped in. */
  const AllDepartments: seq<Department> :=
    [Produce, Dairy, Meat, Bakery, Frozen, Grocery, Sweet, Drinks, HouseholdProducts, Hygiene, Other]

  function DepartmentText(d: Department): string {
    match d
    case Produce => "Fruits & Légumes"
    case Dairy => "Produits Laitiers"
    case Meat => "Viandes & Poissons"
    case Bakery => "Boulangerie"
    case Frozen => "Surgelés"
    case Grocery => "Épicerie Salée"
    case Sweet => "Épicerie Sucrée"
    case Drinks => "Boissons"
    case HouseholdProducts => "Produits Ménagers"
    case Hygiene => "Hygiène & Beauté"
    case Other => "Divers"
  }

  /** The position of a department in declaration order. */
  function DepartmentRank(d: Department): (r: nat)
    ensures r < |AllDepartments| && AllDepartments[r] == d
  {
    match d
    case Produce => 0
    case Dairy => 1
    case Meat => 2
    case Bakery => 3
    case Frozen => 4
    case Grocery => 5
    case Sweet => 6
    case Drinks => 7
    case HouseholdProducts => 8
    case Hygiene => 9
    case Other => 10
  }

  /** Each position of the department list holds the department of that rank. */
  lemma RankOfPosition(j: nat)
    requires j < |AllDepartments|
    ensures DepartmentRank(AllDepartments[j]) == j
  {
  }

  /** The department list is a closed set of eleven distinct values. */
  lemma AllDepartmentsDistinct()
    ensures |AllDepartments| == 11
    ensures forall i, j :: 0 <= i < j < |AllDepartments| ==> AllDepartments[i] != AllDepartments[j]
    ensures forall d: Department :: d in AllDepartments
  {
    forall i, j | 0 <= i < j < |AllDepartments|
      ensures AllDepartments[i] != AllDepartments[j]
    {
      assert DepartmentRank(AllDepartments[i]) == i;
      assert DepartmentRank(AllDepartments[j]) == j;
    }
    forall d: Department ensures d in AllDepartments {
      assert AllDepartments[DepartmentRank(d)] == d;
    }
  }

  /** Units of quantity. */
  datatype Unit = Piece | Grams | Kilograms | Liters | Milliliters | Pack

  function UnitText(u: Unit): string {
    match u
    case Piece => "pcs"
    case Grams => "g"
    case Kilograms => "kg"
    case Liters => "L"
    case Milliliters => "ml"
    case Pack => "paquet"
  }

  /**
   * An item of the household inventory. `quantity` is kept as the text typed in the form;
   * `expiryDate` is a day number; `addedDate` is the creation time in milliseconds.
   */
  datatype InventoryItem = InventoryItem(
    id: string,
    name: string,
    location: StorageLocation,
    quantity: string,
    unit: Unit,
    expiryDate: Day,
    addedDate: int,
    userId: string)

  /** An entry of the shopping list. */
  datatype ShoppingItem = ShoppingItem(id: string, name: string, department: Department, checked: bool)

  datatype RecipeDifficulty = Facile | Moyen | Difficile

  datatype Recipe = Recipe(
    id: string,
    title: string,
    description: string,
    ingredientsUsed: seq<string>,
    missingIngredients: seq<string>,
    instructions: seq<string>,
    difficulty: RecipeDifficulty,
    prepTime: string)

  /**
   * A cleaning task of the coach; `duration` is in minutes, a JavaScript number that need not be
   * whole (an exact real here), and `date` a day number.
   */
  datatype CleaningTask = CleaningTask(
    id: string,
    title: string,
    description: string,
    duration: real,
    coinsReward: int,
    isWeekly: bool,
    completed: bool,
    date: Day)

  predicate IsCompleted(t: CleaningTask) {
    t.completed
  }

  predicate IsPending(t: CleaningTask) {
    !t.completed
  }

  /** The four parts of the avatar; `AvatarItem.type` ranges over exactly these. */
  datatype AvatarSlot = Base | Clothing | Top | Accessories

  datatype AvatarItem = AvatarItem(
    id: string,
    slot: AvatarSlot,
    name: string,
    value: string,
    price: int,
    icon: Option<string>)

  /** The equipped avatar: one rendering value per slot. */
  datatype AvatarConfig = AvatarConfig(base: string, clothing: string, top: string, accessories: string) {

    /** `avatar[slot]`. */
    function Slot(s: AvatarSlot): string {
      match s
      case Base => base
      case Clothing => clothing
      case Top => top
      case Accessories => accessories
    }

    /** `{ ...avatar, [slot]: v }`: only the named slot changes. */
    function WithSlot(s: AvatarSlot, v: string): (c: AvatarConfig)
      ensures c.Slot(s) == v
      ensures forall t :: t != s ==> c.Slot(t) == Slot(t)
    {
      match s
      case Base => this.(base := v)
      case Clothing => this.(clothing := v)
      case Top => this.(top := v)
      case Accessories => this.(accessories := v)
    }
  }

  datatype Preferences = Preferences(allergies: seq<string>, dislikedRecipes: seq<string>)

  /** Boosts the player owns (`inventory` in the stored stats). */
  datatype BoostInventory = BoostInventory(freeze: int)

  /** The single progression record of the player. */
  datatype UserGameStats = UserGameStats(
    coins: int,
    streak: int,
    level: int,
    xp: int,
    lastCleanDate: Option<Day>,
    inventory: BoostInventory,
    unlockedThemes: seq<string>,
    activeTheme: string,
    unlockedAvatarItems: seq<string>,
    avatar: AvatarConfig,
    preferences: Preferences)

  datatype Role = User | Model

  datatype ChatMessage = ChatMessage(id: string, role: Role, text: string, timestamp: int)
}
