/**
 * The full recipe card: save/remove toggle, remix, rename, and the two
 * enrichments (dish photo and safety tips), each a click that either
 * reuses what the recipe already carries or asks the backend, and a
 * completion that hands the enriched recipe to the update callback.
 */
module RecipeCard {
  import opened Wrappers
  import opened Types
  import opened Translations
  import opened NameEditor
  import opened Service
  import opened Text
  import App

  /** Which optional callbacks the parent passed. */
  datatype Callbacks = Callbacks(onSave: bool, onRemove: bool, onUpdate: bool, onRemix: bool)

  /** The card's local state. */
  datatype Card = Card(
    editor: Editor,
    isGeneratingImg: bool,
    showImageModal: bool,
    isLoadingSafety: bool,
    showSafetyModal: bool)

  const ImageAlert := "Could not generate image. Please try again."

  function Initial(r: Recipe): (c: Card)
    ensures c.editor == Closed(r)
    ensures !c.isGeneratingImg && !c.showImageModal && !c.isLoadingSafety && !c.showSafetyModal
  {
    Card(Closed(r), false, false, false, false)
  }

  /**
   * The effect that runs whenever the recipe's name changes: the draft is
   * reset to the new name; whether the editor is open is left alone.
   */
  function NameChanged(c: Card, u: Recipe): (c': Card)
    ensures c'.editor.draft == u.name && c'.editor.editing == c.editor.editing
    ensures c'.(editor := c.editor) == c
  {
    c.(editor := c.editor.(draft := u.name))
  }

  /**
   * After the recipe is renamed elsewhere, committing the card's editor
   * without typing keeps the new name: no update is issued.
   */
  lemma RenameKeepsDraftInStep(c: Card, u: Recipe, canUpdate: bool)
    requires Trim(u.name) == u.name
    ensures Commit(NameChanged(c, u).editor, u, canUpdate).effects == []
  {
  }

  /** `handleSaveClick`: removes a saved recipe, saves an unsaved one, when the matching callback exists. */
  function SaveClick(r: Recipe, isSaved: bool, cb: Callbacks): (effects: seq<Effect>)
    ensures isSaved && cb.onRemove <==> effects == [RemoveRecipe(r)]
    ensures !isSaved && cb.onSave <==> effects == [SaveRecipe(r)]
    ensures (isSaved && !cb.onRemove) || (!isSaved && !cb.onSave) ==> effects == []
  {
    if isSaved && cb.onRemove then [RemoveRecipe(r)]
    else if !isSaved && cb.onSave then [SaveRecipe(r)]
    else []
  }

  /**
   * The application passes `isSaved` as "some notebook entry has this id",
   * always passes the save callback and the remove callback only for a
   * saved recipe. A click then hands the recipe to the handler that flips
   * whether the notebook holds its id.
   */
  lemma SaveClickToggles(s: App.AppState, r: Recipe, onUpdate: bool, onRemix: bool)
    ensures var isSaved := App.HasId(s.saved, r.id);
      var effects := SaveClick(r, isSaved, Callbacks(true, isSaved, onUpdate, onRemix));
      && (isSaved ==> effects == [RemoveRecipe(r)] && !App.HasId(App.Remove(s, r).saved, r.id))
      && (!isSaved ==> effects == [SaveRecipe(r)] && App.HasId(App.Save(s, r).saved, r.id))
  {
  }

  /** `handleRemixClick`. */
  function RemixClick(r: Recipe, cb: Callbacks): (effects: seq<Effect>)
    ensures cb.onRemix <==> effects == [RemixRecipe(r)]
    ensures !cb.onRemix ==> effects == []
  {
    if cb.onRemix then [RemixRecipe(r)] else []
  }

  /**
   * A click on the photo button. While a photo request is running the
   * button is disabled and the click does nothing. Otherwise this is the
   * first half of `handleGenerateImage`: a recipe that already has a photo
   * opens it; without one, the photo is requested.
   */
  function ImageClick(c: Card, r: Recipe): (st: Step<Card>)
    ensures c.isGeneratingImg ==> st == Step(c, [])
    ensures !c.isGeneratingImg && HasImage(r) ==> st == Step(c.(showImageModal := true), [])
    ensures !c.isGeneratingImg && !HasImage(r) ==> st.state == c.(isGeneratingImg := true)
    ensures !c.isGeneratingImg && !HasImage(r) ==> st.effects == [RequestImage(r.name, r.ingredients)]
  {
    if c.isGeneratingImg then Step(c, [])
    else if HasImage(r) then Step(c.(showImageModal := true), [])
    else Step(c.(isGeneratingImg := true), [RequestImage(r.name, r.ingredients)])
  }

  /** Two photo clicks in a row issue at most one backend request. */
  lemma ImageOneRequestInFlight(c: Card, r: Recipe)
    ensures var first := ImageClick(c, r);
      |first.effects| + |ImageClick(first.state, r).effects| <= 1
  {
  }

  /**
   * The completion of `handleGenerateImage`: on success the recipe with
   * the new photo goes to the update callback and the photo opens; on
   * failure the user is alerted and nothing is updated.
   */
  function ImageDone(c: Card, r: Recipe, result: Result<string, ImageError>, cb: Callbacks): (st: Step<Card>)
    ensures !st.state.isGeneratingImg
    ensures result.Success? ==> st.state == c.(isGeneratingImg := false, showImageModal := true)
    ensures result.Success? && cb.onUpdate ==> st.effects == [UpdateRecipe(r.(imageUrl := Some(result.value)))]
    ensures result.Success? && !cb.onUpdate ==> st.effects == []
    ensures result.Failure? ==> st == Step(c.(isGeneratingImg := false), [Alert(ImageAlert)])
  {
    match result
    case Success(url) =>
      Step(c.(isGeneratingImg := false, showImageModal := true),
           if cb.onUpdate then [UpdateRecipe(r.(imageUrl := Some(url)))] else [])
    case Failure(_) => Step(c.(isGeneratingImg := false), [Alert(ImageAlert)])
  }

  /**
   * Once a photo request has succeeded, clicking the photo button on the
   * updated recipe opens the photo and asks the backend for nothing.
   */
  lemma ImageCachedAfterSuccess(c: Card, r: Recipe, name: string, ingredients: seq<string>,
                                reply: ImageReply, cb: Callbacks)
    requires GenerateImage(name, ingredients, reply).result.Success?
    requires cb.onUpdate
    ensures var done := ImageDone(c, r, GenerateImage(name, ingredients, reply).result, cb);
      && |done.effects| == 1 && done.effects[0].UpdateRecipe?
      && var u := done.effects[0].recipe;
      && u.(imageUrl := r.imageUrl) == r
      && ImageClick(done.state, u).effects == []
  {
    var url := GenerateImage(name, ingredients, reply).result.value;
    assert url[..5] == "data:";
  }

  /**
   * The language code the safety request is made in, read off the card's
   * save-button label: English and Spanish are recognised, everything else
   * falls back to Portuguese.
   */
  function GuessLanguage(saveLabel: string): (l: Lang)
    ensures l == En <==> saveLabel == SaveButtonLabel(En)
    ensures l == Es <==> saveLabel == SaveButtonLabel(Es)
    ensures l == En || l == Es || l == Pt
  {
    var code := if saveLabel == "Save to My Notebook" then En else Pt;
    if saveLabel == "Guardar en Mi Cuaderno" then Es else code
  }

  /** Safety tips come in the interface language only for pt, en and es; the other five get Portuguese. */
  lemma SafetyLanguageOfInterface(l: Lang)
    ensures GuessLanguage(SaveButtonLabel(l)) == (if l == En || l == Es then l else Pt)
  {
    assert SaveButtonLabel(En)[0] == 'S' && SaveButtonLabel(Es)[0] == 'G';
    if l != En && l != Es {
      var s := SaveButtonLabel(l);
      assert s[0] != 'S' || |s| != |SaveButtonLabel(En)|;
      assert s[0] != 'G' || |s| != |SaveButtonLabel(Es)|;
    }
  }

  /** `recipe.safetyTips && recipe.safetyTips.length > 0`. */
  predicate HasTips(r: Recipe) {
    r.safetyTips.Some? && |r.safetyTips.value| > 0
  }

  /**
   * A click on the safety button. While a tips request is running the
   * button is disabled and the click does nothing. Otherwise this is the
   * first half of `handleSafetyTips`: non-empty cached tips open the tips
   * view; otherwise tips are requested in the language guessed from the
   * interface language `ui`.
   */
  function SafetyClick(c: Card, r: Recipe, ui: Lang): (st: Step<Card>)
    ensures c.isLoadingSafety ==> st == Step(c, [])
    ensures !c.isLoadingSafety && HasTips(r) ==> st == Step(c.(showSafetyModal := true), [])
    ensures !c.isLoadingSafety && !HasTips(r) ==> st.state == c.(isLoadingSafety := true)
    ensures !c.isLoadingSafety && !HasTips(r) ==>
              st.effects == [RequestSafetyTips(r.name, r.ingredients, r.steps, GuessLanguage(SaveButtonLabel(ui)))]
  {
    if c.isLoadingSafety then Step(c, [])
    else if HasTips(r) then Step(c.(showSafetyModal := true), [])
    else Step(c.(isLoadingSafety := true),
              [RequestSafetyTips(r.name, r.ingredients, r.steps, GuessLanguage(SaveButtonLabel(ui)))])
  }

  /** Two safety clicks in a row issue at most one backend request. */
  lemma SafetyOneRequestInFlight(c: Card, r: Recipe, ui: Lang)
    ensures var first := SafetyClick(c, r, ui);
      |first.effects| + |SafetyClick(first.state, r, ui).effects| <= 1
  {
  }

  /** The completion of `handleSafetyTips`: the tips (possibly empty) are attached and shown. */
  function SafetyDone(c: Card, r: Recipe, tips: seq<string>, cb: Callbacks): (st: Step<Card>)
    ensures st.state == c.(isLoadingSafety := false, showSafetyModal := true)
    ensures cb.onUpdate ==> st.effects == [UpdateRecipe(r.(safetyTips := Some(tips)))]
    ensures !cb.onUpdate ==> st.effects == []
  {
    Step(c.(isLoadingSafety := false, showSafetyModal := true),
         if cb.onUpdate then [UpdateRecipe(r.(safetyTips := Some(tips)))] else [])
  }

  /**
   * Tips are reused after a request only when it produced some: an empty
   * reply text attaches an empty list, and the next click asks again.
   */
  lemma SafetyCachedIffNonEmpty(c: Card, r: Recipe, ui: Lang, reply: TextReply,
                                decode: string -> Option<seq<string>>, cb: Callbacks)
    requires cb.onUpdate
    ensures var call := GenerateSafetyTips(r.name, r.ingredients, r.steps, GuessLanguage(SaveButtonLabel(ui)), reply, decode);
      var done := SafetyDone(c, r, call.tips, cb);
      var u := done.effects[0].recipe;
      && (SafetyClick(done.state, u, ui).effects == [] <==> |call.tips| > 0)
      && (reply.TransportError? ==> SafetyClick(done.state, u, ui).effects == [])
      && (reply == Answered(Some("")) ==> |SafetyClick(done.state, u, ui).effects| == 1)
  {
  }
}
