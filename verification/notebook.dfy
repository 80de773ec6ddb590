/**
 * The notebook view: the saved recipes, one of which may be open in a
 * full-card overlay. Removal and update go through the application's
 * handlers and keep the open recipe in step with the notebook.
 */
module Notebook {
  import opened Wrappers
  import opened Types
  import opened App

  /** The application state together with the notebook's `selectedRecipe`. */
  datatype Page = Page(app: AppState, selected: Option<Recipe>)

  /** `selectedRecipe?.id`: undefined both when nothing is open and when the open recipe has no id. */
  function SelectedId(selected: Option<Recipe>): (id: Option<string>)
    ensures selected.Some? ==> id == selected.value.id
    ensures selected.None? ==> id.None?
  {
    match selected
    case None => None
    case Some(r) => r.id
  }

  /** Clicking a mini card opens that recipe. */
  function Select(v: Page, r: Recipe): (v': Page)
    ensures v'.selected == Some(r) && v'.app == v.app
  {
    v.(selected := Some(r))
  }

  /** Closing the overlay. */
  function Close(v: Page): (v': Page)
    ensures v'.selected.None? && v'.app == v.app
  {
    v.(selected := None)
  }

  /** `handleRemove`: removes from the notebook and closes the overlay when it showed that identity. */
  function HandleRemove(v: Page, r: Recipe): (v': Page)
    ensures v'.app == App.Remove(v.app, r)
    ensures SelectedId(v.selected) == r.id ==> v'.selected.None?
    ensures SelectedId(v.selected) != r.id ==> v'.selected == v.selected
  {
    var app := App.Remove(v.app, r);
    if SelectedId(v.selected) == r.id then Page(app, None) else Page(app, v.selected)
  }

  /** `handleUpdate`: updates through the application and refreshes the open recipe when it is the one updated. */
  function HandleUpdate(v: Page, u: Recipe): (v': Page)
    ensures v'.app == App.Update(v.app, u)
    ensures v.selected.Some? && v.selected.value.id == u.id ==> v'.selected == Some(u)
    ensures !(v.selected.Some? && v.selected.value.id == u.id) ==> v'.selected == v.selected
  {
    var app := App.Update(v.app, u);
    if v.selected.Some? && v.selected.value.id == u.id then Page(app, Some(u)) else Page(app, v.selected)
  }

  /** The open recipe, if any, is an entry of the notebook. */
  predicate InSync(v: Page) {
    v.selected.Some? ==> v.selected.value in v.app.saved
  }

  /** Removing keeps the overlay in step: it never shows a recipe the notebook no longer has. */
  lemma RemoveKeepsSync(v: Page, r: Recipe)
    requires InSync(v)
    ensures InSync(HandleRemove(v, r))
  {
  }

  /** Updating keeps the overlay in step: an open recipe that is updated shows the update, which the notebook holds. */
  lemma UpdateKeepsSync(v: Page, u: Recipe)
    requires InSync(v)
    ensures InSync(HandleUpdate(v, u))
  {
    var v' := HandleUpdate(v, u);
    if v.selected.Some? {
      var s := v.selected.value;
      var i :| 0 <= i < |v.app.saved| && v.app.saved[i] == s;
      if s.id == u.id {
        assert HasId(v.app.saved, u.id);
        assert v'.app.saved[i] == u;
      } else if HasId(v.app.saved, u.id) {
        assert v'.app.saved[i] == s;
      }
    }
  }

  /** Opening a card of the notebook keeps the overlay in step. */
  lemma SelectKeepsSync(v: Page, i: int)
    requires 0 <= i < |v.app.saved|
    ensures InSync(Select(v, v.app.saved[i]))
  {
  }

  /** The count badge: shown only for a non-empty notebook, always with a Portuguese noun. */
  function CountWord(n: nat): (w: Option<string>)
    ensures n == 0 <==> w.None?
    ensures w == Some("Receita") <==> n == 1
    ensures n > 1 <==> w == Some("Receitas")
  {
    if n == 0 then None else if n == 1 then Some("Receita") else Some("Receitas")
  }
}
