/**
 * The generator form: the ingredient entry field with its add button, the
 * cooking-method and utensil pickers, and the enabled state of the two
 * buttons.
 */
module IngredientForm {
  import opened Wrappers
  import opened Types
  import opened Text
  import opened Translations
  import opened Service
  import opened App

  /** The form's own state: the text in the ingredient field. */
  datatype Form = Form(value: string)

  datatype Key = Enter | OtherKey

  /** `handleAdd`: a field with something besides white space hands its trimmed text on and empties. */
  function HandleAdd(f: Form): (st: Step<Form>)
    ensures AllSpace(f.value) <==> st.effects == []
    ensures AllSpace(f.value) ==> st.state == f
    ensures !AllSpace(f.value) ==> st == Step(Form(""), [AddIngredient(Trim(f.value))])
  {
    var v := Trim(f.value);
    if v != "" then Step(Form(""), [AddIngredient(v)]) else Step(f, [])
  }

  /**
   * `handleKeyDown`: Enter adds, any other key leaves the form as it is.
   * While generating, the field is disabled and receives no keys.
   */
  function HandleKeyDown(f: Form, k: Key, isLoading: bool): (st: Step<Form>)
    ensures isLoading ==> st == Step(f, [])
    ensures !isLoading && k == Enter ==> st == HandleAdd(f)
    ensures !isLoading && k == OtherKey ==> st == Step(f, [])
  {
    if !isLoading && k == Enter then HandleAdd(f) else Step(f, [])
  }

  /** The add button is disabled for a blank field or while generating. */
  predicate AddDisabled(value: string, isLoading: bool) {
    Trim(value) == "" || isLoading
  }

  /** The generate button is disabled for a blank recipe name or while generating. */
  predicate GenerateDisabled(recipeName: string, isLoading: bool) {
    Trim(recipeName) == "" || isLoading
  }

  /** Whatever the add button hands on is a non-empty string with no white space at either end. */
  lemma AddedIngredientIsTrimmed(f: Form)
    requires !AddDisabled(f.value, false)
    ensures var st := HandleAdd(f);
      && |st.effects| == 1 && st.effects[0].AddIngredient?
      && var x := st.effects[0].ingredient;
      && x != "" && !IsSpace(x[0]) && !IsSpace(x[|x| - 1]) && Trim(x) == x
  {
    TrimIdempotent(f.value);
  }

  /**
   * Adding through the form and the application: the trimmed text ends up
   * in the list exactly once, and a duplicate-free list stays so.
   */
  lemma AddThroughApp(s: AppState, f: Form)
    requires !AddDisabled(f.value, s.isLoading)
    ensures var x := HandleAdd(f).effects[0].ingredient;
      && x == Trim(f.value)
      && x in App.AddIngredient(s, x).ingredients
      && (NoDuplicates(s.ingredients) ==> NoDuplicates(App.AddIngredient(s, x).ingredients))
  {
  }

  /**
   * An enabled generate button never reaches the service's missing-name
   * error: a name that is not blank is not empty.
   */
  lemma EnabledGenerateHasName(s: AppState, reply: TextReply, decode: string -> Option<RecipeResponse>)
    requires !GenerateDisabled(s.recipeName, s.isLoading)
    ensures GenerateRecipes(Params(s), reply, decode).request.Some?
    ensures GenerateRecipes(Params(s), reply, decode).result != Failure(NameRequired)
  {
    assert AllSpace("");
  }

  /** The converse gap: a name of spaces only would pass the service's own check, but the button is disabled. */
  lemma BlankNameStopsAtButton(s: AppState)
    requires s.recipeName != "" && AllSpace(s.recipeName)
    ensures GenerateDisabled(s.recipeName, s.isLoading)
  {
  }
}
