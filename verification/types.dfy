/** The recipe entity, its closed difficulty enumeration and the supported languages. */
module Types {
  import opened Wrappers

  /** The difficulty tiers; each enum member's string value is its own name. */
  datatype Difficulty = Easy | Medium | Hard

  const DifficultyNames: set<string> := {"Easy", "Medium", "Hard"}

  function DifficultyName(d: Difficulty): (s: string)
    ensures s in DifficultyNames
  {
    match d
    case Easy => "Easy"
    case Medium => "Medium"
    case Hard => "Hard"
  }

  /** Reads a difficulty from its string value; anything outside the three names is rejected. */
  function ParseDifficulty(s: string): (r: Option<Difficulty>)
    ensures r.Some? <==> s in DifficultyNames
    ensures r.Some? ==> DifficultyName(r.value) == s
  {
    if s == "Easy" then Some(Easy)
    else if s == "Medium" then Some(Medium)
    else if s == "Hard" then Some(Hard)
    else None
  }

  /** Naming a difficulty and reading the name back gives the same difficulty. */
  lemma DifficultyRoundTrip(d: Difficulty)
    ensures ParseDifficulty(DifficultyName(d)) == Some(d)
  {
    match d
    case Easy =>
    case Medium =>
    case Hard =>
  }

  /** The enumeration is closed: exactly three distinct names. */
  lemma DifficultyNamesDistinct()
    ensures |DifficultyNames| == 3
    ensures DifficultyName(Easy) != DifficultyName(Medium)
    ensures DifficultyName(Medium) != DifficultyName(Hard)
    ensures DifficultyName(Easy) != DifficultyName(Hard)
  {
  }

  /**
   * A recipe. `id` is absent until the application assigns one; the five
   * metadata fields are optional in the type; `imageUrl` and `safetyTips`
   * are attached later by enrichment. The JSON field `type` is `mealType` here.
   */
  datatype Recipe = Recipe(
    id: Option<string>,
    name: string,
    mealType: string,
    focus: string,
    difficulty: Difficulty,
    time: string,
    changes: string,
    explanation: string,
    ingredients: seq<string>,
    steps: seq<string>,
    flavorProfile: Option<string>,
    category: Option<string>,
    mainProtein: Option<string>,
    dietAttributes: Option<seq<string>>,
    searchKeywords: Option<seq<string>>,
    imageUrl: Option<string>,
    safetyTips: Option<seq<string>>)

  /** The generation reply's envelope: one list of recipes. */
  datatype RecipeResponse = RecipeResponse(recipes: seq<Recipe>)

  /** `recipe.imageUrl` is truthy: present and not the empty string. */
  predicate HasImage(r: Recipe) {
    r.imageUrl.Some? && r.imageUrl.value != ""
  }

  /** The interface languages (`LanguageCode`). */
  datatype Lang = Pt | En | Es | Fr | It | De | Ja | Ko

  /**
   * What a handler asks of the world besides its own state: a parent
   * callback, a backend request, or a browser alert.
   */
  datatype Effect =
    | SaveRecipe(recipe: Recipe)
    | RemoveRecipe(recipe: Recipe)
    | UpdateRecipe(recipe: Recipe)
    | RemixRecipe(recipe: Recipe)
    | RequestImage(name: string, ingredients: seq<string>)
    | RequestSafetyTips(name: string, ingredients: seq<string>, steps: seq<string>, language: Lang)
    | AddIngredient(ingredient: string)
    | Alert(message: string)

  /** A handler's new local state together with the effects it issued, in order. */
  datatype Step<S> = Step(state: S, effects: seq<Effect>)
}
