/** The recipe screen: the inventory gate, the generate button, its error line and the expanded card. */
module RecipeView {
  import opened Wrappers
  import opened Types

  const GenerateErrorText := "Impossible de générer des recettes pour le moment. Vérifiez votre connexion."

  /** How many products the screen asks for before offering recipes. */
  const MinIngredients := 3

  /** The screen offers recipes only from three products on; below that it asks for more. */
  predicate OffersRecipes(inventory: seq<InventoryItem>) {
    |inventory| >= MinIngredients
  }

  /** The allergy banner is shown exactly when some allergy is set. */
  predicate ShowsAllergyBanner(preferences: Preferences) {
    |preferences.allergies| > 0
  }

  /** `toggleExpand`: the card tapped opens, or closes when it was the open one. */
  function Toggled(expanded: Option<string>, id: string): (r: Option<string>)
    ensures r == Some(id) <==> expanded != Some(id)
    ensures r.None? <==> expanded == Some(id)
  {
    if expanded == Some(id) then None else Some(id)
  }

  /** Tapping the same card twice from a closed screen leaves it closed; from the open card, open. */
  lemma ToggleTwice(expanded: Option<string>, id: string)
    requires expanded.None? || expanded == Some(id)
    ensures Toggled(Toggled(expanded, id), id) == expanded
  {
  }

  /** Tapping another card moves the single open card there. */
  lemma ToggleOtherMoves(expanded: Option<string>, id: string)
    requires expanded.Some? && expanded.value != id
    ensures Toggled(expanded, id) == Some(id)
  {
  }

  class RecipePanel {
    var recipes: seq<Recipe>
    var loading: bool
    var error: string
    var expandedRecipe: Option<string>

    constructor ()
      ensures recipes == [] && !loading && error == "" && expandedRecipe.None?
    {
      recipes := [];
      loading := false;
      error := "";
      expandedRecipe := None;
    }

    /** The generate button is disabled while a request is on its way. */
    predicate GenerateDisabled()
      reads this
    {
      loading
    }

    /**
     * A tap on the generate button, up to the remote call. Below three products the screen shows
     * only its empty state and has no button, and while a request is on its way the button is
     * disabled: either way nothing happens. Otherwise the panel waits and the error line is cleared.
     */
    method BeginGenerate(inventory: seq<InventoryItem>) returns (started: bool)
      modifies this
      ensures started <==> OffersRecipes(inventory) && !old(GenerateDisabled())
      ensures started ==> loading && error == ""
      ensures !started ==> loading == old(loading) && error == old(error)
      ensures recipes == old(recipes) && expandedRecipe == old(expandedRecipe)
    {
      started := OffersRecipes(inventory) && !GenerateDisabled();
      if started {
        loading := true;
        error := "";
      }
    }

    /**
     * The remote call has ended: its recipes replace the shown ones, or on failure the fixed
     * error line appears and the earlier recipes stay; either way the panel stops waiting.
     */
    method FinishGenerate(result: Result<seq<Recipe>, string>)
      modifies this
      ensures result.Ok? ==> recipes == result.value && error == old(error)
      ensures result.Err? ==> recipes == old(recipes) && error == GenerateErrorText
      ensures !loading && expandedRecipe == old(expandedRecipe)
    {
      match result {
        case Ok(generated) =>
          recipes := generated;
        case Err(_) =>
          error := GenerateErrorText;
      }
      loading := false;
    }

    method ToggleExpand(id: string)
      modifies this
      ensures expandedRecipe == Toggled(old(expandedRecipe), id)
      ensures recipes == old(recipes) && loading == old(loading) && error == old(error)
    {
      expandedRecipe := Toggled(expandedRecipe, id);
    }
  }
}
