/**
 * The inline name editor both recipe cards share: a draft that is trimmed
 * and handed to the update callback on commit, or discarded on Escape.
 */
module NameEditor {
  import opened Types
  import opened Text

  /** `isEditing` / `isEditingName` and `editedName`. */
  datatype Editor = Editor(editing: bool, draft: string)

  datatype Key = Enter | Escape | OtherKey

  /** The editor as a card first shows it: closed, with the recipe's name as draft. */
  function Closed(r: Recipe): (e: Editor)
    ensures !e.editing && e.draft == r.name
  {
    Editor(false, r.name)
  }

  /**
   * `handleSaveName`: the update callback receives the recipe renamed to the
   * trimmed draft, only when that differs from the current name and a
   * callback is present; editing ends either way and the draft is kept.
   */
  function Commit(e: Editor, r: Recipe, canUpdate: bool): (st: Step<Editor>)
    ensures st.state == Editor(false, e.draft)
    ensures |st.effects| <= 1
    ensures |st.effects| == 1 <==> canUpdate && Trim(e.draft) != r.name
    ensures |st.effects| == 1 ==> st.effects[0] == UpdateRecipe(r.(name := Trim(e.draft)))
  {
    var name := Trim(e.draft);
    Step(e.(editing := false), if name != r.name && canUpdate then [UpdateRecipe(r.(name := name))] else [])
  }

  /** The key handler: Enter commits, Escape restores the name without any effect. */
  function KeyDown(e: Editor, r: Recipe, canUpdate: bool, k: Key): (st: Step<Editor>)
    ensures k == Enter ==> st == Commit(e, r, canUpdate)
    ensures k == Escape ==> st == Step(Closed(r), [])
    ensures k == OtherKey ==> st == Step(e, [])
  {
    match k
    case Enter => Commit(e, r, canUpdate)
    case Escape => Step(Editor(false, r.name), [])
    case OtherKey => Step(e, [])
  }

  /**
   * A committed name carries no surrounding white space, and committing the
   * same draft against the renamed recipe issues nothing further.
   */
  lemma CommitSettles(e: Editor, r: Recipe, canUpdate: bool)
    requires |Commit(e, r, canUpdate).effects| == 1
    ensures var u := Commit(e, r, canUpdate).effects[0].recipe;
      && Trim(u.name) == u.name
      && u.(name := r.name) == r
      && Commit(e, u, canUpdate).effects == []
  {
    TrimIdempotent(e.draft);
  }

  /** A draft that is empty or white space only still renames the recipe to the empty name. */
  lemma BlankDraftRenamesToEmpty(e: Editor, r: Recipe)
    requires AllSpace(e.draft) && r.name != ""
    ensures Commit(e, r, true).effects == [UpdateRecipe(r.(name := ""))]
  {
  }
}
