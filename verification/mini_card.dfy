/**
 * The compact notebook card: rename, a photo button that never issues a
 * second request while one is in flight, and at most three diet tags.
 */
module MiniCard {
  import opened Wrappers
  import opened Types
  import opened Text
  import opened NameEditor
  import opened Service

  /** The mini card's local state. */
  datatype Mini = Mini(editor: Editor, isGeneratingImg: bool)

  const TagLimit: nat := 3

  function Initial(r: Recipe): (m: Mini)
    ensures m.editor == Closed(r) && !m.isGeneratingImg
  {
    Mini(Closed(r), false)
  }

  /** `handleStartEditing`. */
  function StartEditing(m: Mini): (m': Mini)
    ensures m'.editor.editing && m'.editor.draft == m.editor.draft
    ensures m'.isGeneratingImg == m.isGeneratingImg
  {
    m.(editor := m.editor.(editing := true))
  }

  /**
   * As written, the mini card never looks at a change of the recipe's
   * name: its draft stays what it was. If the recipe was renamed elsewhere
   * (in the notebook's full card, say), opening the mini card's editor and
   * committing without typing renames it back.
   */
  lemma StaleDraftUndoesRename(r: Recipe, newName: string)
    requires Trim(r.name) == r.name && Trim(newName) == newName && newName != r.name
    ensures var u := r.(name := newName);
      SaveName(StartEditing(Initial(r)), u, true).effects == [UpdateRecipe(u.(name := r.name))]
  {
  }

  /**
   * The intended behaviour, which the full card has: a change of the
   * recipe's name resets the draft to it, keeping the editor open or
   * closed as it was.
   */
  function NameChanged(m: Mini, u: Recipe): (m': Mini)
    ensures m'.editor.draft == u.name && m'.editor.editing == m.editor.editing
    ensures m'.isGeneratingImg == m.isGeneratingImg
  {
    m.(editor := m.editor.(draft := u.name))
  }

  /** With the draft kept in step, committing without typing after a rename issues nothing. */
  lemma SyncedDraftKeepsRename(m: Mini, u: Recipe)
    requires Trim(u.name) == u.name
    ensures SaveName(StartEditing(NameChanged(m, u)), u, true).effects == []
  {
  }

  /** `handleSaveName`, the shared commit on the mini card's editor. */
  function SaveName(m: Mini, r: Recipe, canUpdate: bool): (st: Step<Mini>)
    ensures st.state == m.(editor := Commit(m.editor, r, canUpdate).state)
    ensures st.effects == Commit(m.editor, r, canUpdate).effects
    ensures !st.state.editor.editing
  {
    var e := Commit(m.editor, r, canUpdate);
    Step(m.(editor := e.state), e.effects)
  }

  /** `handleKeyDown`, the shared key handler on the mini card's editor. */
  function KeyDown(m: Mini, r: Recipe, canUpdate: bool, k: Key): (st: Step<Mini>)
    ensures k == Escape ==> st == Step(m.(editor := Closed(r)), [])
    ensures k == Enter ==> st == SaveName(m, r, canUpdate)
    ensures k == OtherKey ==> st == Step(m, [])
  {
    var e := NameEditor.KeyDown(m.editor, r, canUpdate, k);
    Step(m.(editor := e.state), e.effects)
  }

  /**
   * The first half of `handleGenerateImage`: nothing happens when the
   * recipe has a photo or a request is already running.
   */
  function ImageClick(m: Mini, r: Recipe): (st: Step<Mini>)
    ensures HasImage(r) || m.isGeneratingImg ==> st == Step(m, [])
    ensures !HasImage(r) && !m.isGeneratingImg ==>
              st == Step(m.(isGeneratingImg := true), [RequestImage(r.name, r.ingredients)])
  {
    if HasImage(r) || m.isGeneratingImg then Step(m, [])
    else Step(m.(isGeneratingImg := true), [RequestImage(r.name, r.ingredients)])
  }

  /** The completion of `handleGenerateImage`: a failure is silent here, unlike on the full card. */
  function ImageDone(m: Mini, r: Recipe, result: Result<string, ImageError>, canUpdate: bool): (st: Step<Mini>)
    ensures st.state == m.(isGeneratingImg := false)
    ensures result.Success? && canUpdate ==> st.effects == [UpdateRecipe(r.(imageUrl := Some(result.value)))]
    ensures result.Failure? || !canUpdate ==> st.effects == []
  {
    if result.Success? && canUpdate then Step(m.(isGeneratingImg := false), [UpdateRecipe(r.(imageUrl := Some(result.value)))])
    else Step(m.(isGeneratingImg := false), [])
  }

  /** Two clicks in a row issue one request: the second sees the request in flight. */
  lemma OneRequestInFlight(m: Mini, r: Recipe)
    ensures var first := ImageClick(m, r);
      |first.effects| + |ImageClick(first.state, r).effects| <= 1
  {
  }

  /** After a successful request the updated recipe has its photo, so the button requests nothing more. */
  lemma NoRequestAfterSuccess(m: Mini, r: Recipe, reply: ImageReply)
    requires GenerateImage(r.name, r.ingredients, reply).result.Success?
    ensures var done := ImageDone(m, r, GenerateImage(r.name, r.ingredients, reply).result, true);
      && |done.effects| == 1
      && ImageClick(done.state, done.effects[0].recipe).effects == []
  {
    var url := GenerateImage(r.name, r.ingredients, reply).result.value;
    assert url[..5] == "data:";
  }

  /** The tags shown: the first three diet attributes, none when the field is absent. */
  function ShownTags(r: Recipe): (tags: seq<string>)
    ensures r.dietAttributes.None? ==> tags == []
    ensures r.dietAttributes.Some? ==>
              && |tags| == (if |r.dietAttributes.value| < TagLimit then |r.dietAttributes.value| else TagLimit)
              && tags == r.dietAttributes.value[..|tags|]
  {
    match r.dietAttributes
    case None => []
    case Some(attrs) => Take(attrs, TagLimit)
  }
}
