/**
 * The application state and its transitions. Every handler is one atomic
 * step from state to state; the backend reply, `JSON.parse`, the storage
 * slot's startup content and `crypto.randomUUID` are inputs.
 */
module App {
  import opened Wrappers
  import opened Types
  import opened Service
  import opened Translations
  import Text
  import Schema

  datatype View = Generator | Notebook

  /**
   * The state `App` keeps. `recipes` is the working list of the latest
   * generation, `saved` the notebook, and `storage` what this session last
   * wrote to the storage slot (`None` until the first write). `pending`
   * holds the arguments of the running generation: its completion closes
   * over the render of the click, language included.
   */
  datatype AppState = AppState(
    recipeName: string,
    feedback: string,
    ingredients: seq<string>,
    cookingMethod: string,
    utensil: string,
    recipes: seq<Recipe>,
    isLoading: bool,
    error: Option<string>,
    language: Lang,
    view: View,
    saved: seq<Recipe>,
    storage: Option<seq<Recipe>>,
    pending: Option<GenerationParams>)

  /** The state of the first render, before the stored notebook is read. */
  function Initial(): (s: AppState)
    ensures Valid(s) && s.saved == [] && s.storage.None?
    ensures s.recipeName == "" && s.feedback == "" && s.ingredients == [] && s.recipes == []
    ensures s.cookingMethod in CookingMethodKeys && s.utensil in UtensilKeys
    ensures !s.isLoading && s.error.None? && s.language == Pt && s.view == Generator && s.pending.None?
  {
    AppState("", "", [], "Stove", "Pot", [], false, None, Pt, Generator, [], None, None)
  }

  /** Some entry carries identity `id` (two absent ids compare equal, as with `===`). */
  predicate HasId(rs: seq<Recipe>, id: Option<string>) {
    exists i :: 0 <= i < |rs| && rs[i].id == id
  }

  ghost predicate UniqueIds(rs: seq<Recipe>) {
    forall i, j :: 0 <= i < j < |rs| ==> rs[i].id != rs[j].id
  }

  ghost predicate NoDuplicates(xs: seq<string>) {
    forall i, j :: 0 <= i < j < |xs| ==> xs[i] != xs[j]
  }

  /** The storage slot holds exactly the notebook. */
  predicate Mirrored(s: AppState) {
    s.storage == Some(s.saved)
  }

  /** How many entries carry identity `id`. */
  function CountId(rs: seq<Recipe>, id: Option<string>): nat {
    if |rs| == 0 then 0 else (if rs[0].id == id then 1 else 0) + CountId(rs[1..], id)
  }

  /** `updateSavedRecipes`: the list becomes the notebook and is written to the storage slot. */
  function WriteSaved(s: AppState, rs: seq<Recipe>): (t: AppState)
    ensures t.saved == rs && Mirrored(t)
    ensures t.(saved := s.saved, storage := s.storage) == s
  {
    s.(saved := rs, storage := Some(rs))
  }

  /** `handleSaveRecipe`: prepends unless an entry with the same id is already saved. */
  function Save(s: AppState, r: Recipe): (t: AppState)
    ensures HasId(s.saved, r.id) ==> t == s
    ensures !HasId(s.saved, r.id) ==> t.saved == [r] + s.saved && Mirrored(t)
    ensures HasId(t.saved, r.id)
    ensures t.(saved := s.saved, storage := s.storage) == s
  {
    if HasId(s.saved, r.id) then s
    else
      assert ([r] + s.saved)[0] == r;
      WriteSaved(s, [r] + s.saved)
  }

  /** Saving twice is saving once. */
  lemma SaveIdempotent(s: AppState, r: Recipe)
    ensures Save(Save(s, r), r) == Save(s, r)
  {
  }

  /** Saving keeps the notebook's identities unique. */
  lemma SavePreservesUnique(s: AppState, r: Recipe)
    requires UniqueIds(s.saved)
    ensures UniqueIds(Save(s, r).saved)
  {
    if !HasId(s.saved, r.id) {
      UniqueCons(r, s.saved);
    }
  }

  /** An identity occurs in a non-empty list iff it heads it or occurs in the tail. */
  lemma HasIdCons(rs: seq<Recipe>, id: Option<string>)
    requires |rs| > 0
    ensures HasId(rs, id) <==> rs[0].id == id || HasId(rs[1..], id)
  {
    if HasId(rs[1..], id) {
      var i :| 0 <= i < |rs[1..]| && rs[1..][i].id == id;
      assert rs[i + 1].id == id;
    }
    if HasId(rs, id) && rs[0].id != id {
      var i :| 0 <= i < |rs| && rs[i].id == id;
      assert rs[1..][i - 1].id == id;
    }
  }

  lemma {:induction false} CountIdZero(rs: seq<Recipe>, id: Option<string>)
    requires !HasId(rs, id)
    ensures CountId(rs, id) == 0
  {
    if |rs| > 0 {
      HasIdCons(rs, id);
      CountIdZero(rs[1..], id);
    }
  }

  lemma {:induction false} CountIdUnique(rs: seq<Recipe>, id: Option<string>)
    requires UniqueIds(rs)
    ensures CountId(rs, id) <= 1
  {
    if |rs| > 0 {
      CountIdUnique(rs[1..], id);
      if rs[0].id == id {
        forall k | 0 <= k < |rs[1..]|
          ensures rs[1..][k].id != id
        {
          assert rs[1..][k] == rs[k + 1];
        }
        CountIdZero(rs[1..], id);
      }
    }
  }

  lemma {:induction false} CountIdPositive(rs: seq<Recipe>, id: Option<string>)
    requires HasId(rs, id)
    ensures CountId(rs, id) >= 1
  {
    var i :| 0 <= i < |rs| && rs[i].id == id;
    if i > 0 {
      assert rs[1..][i - 1].id == id;
      CountIdPositive(rs[1..], id);
    }
  }

  /** After a save into a notebook with unique identities, exactly one entry has the saved id. */
  lemma SaveLeavesOneEntry(s: AppState, r: Recipe)
    requires UniqueIds(s.saved)
    ensures CountId(Save(Save(s, r), r).saved, r.id) == 1
  {
    SaveIdempotent(s, r);
    SavePreservesUnique(s, r);
    CountIdUnique(Save(s, r).saved, r.id);
    CountIdPositive(Save(s, r).saved, r.id);
  }

  /** The `filter` in `handleRemoveRecipe`: drops every entry with identity `id`. */
  function FilterOut(rs: seq<Recipe>, id: Option<string>): (out: seq<Recipe>)
    ensures forall x :: x in out <==> x in rs && x.id != id
    ensures |out| <= |rs|
    ensures !HasId(out, id)
    ensures !HasId(rs, id) ==> out == rs
    decreases |rs|
  {
    if |rs| == 0 then []
    else
      var rest := FilterOut(rs[1..], id);
      HasIdCons(rs, id);
      assert rs == [rs[0]] + rs[1..];
      if rs[0].id == id then rest
      else
        assert ([rs[0]] + rest)[1..] == rest;
        HasIdCons([rs[0]] + rest, id);
        [rs[0]] + rest
  }

  /** The filter keeps every entry without the id as often as it occurs, and no entry with it. */
  lemma {:induction false} FilterOutCounts(rs: seq<Recipe>, id: Option<string>)
    ensures forall x :: multiset(FilterOut(rs, id))[x] == if x.id == id then 0 else multiset(rs)[x]
    decreases |rs|
  {
    if |rs| > 0 {
      FilterOutCounts(rs[1..], id);
      assert rs == [rs[0]] + rs[1..];
      assert multiset(rs) == multiset{rs[0]} + multiset(rs[1..]);
      if rs[0].id != id {
        var rest := FilterOut(rs[1..], id);
        assert FilterOut(rs, id) == [rs[0]] + rest;
        assert multiset([rs[0]] + rest) == multiset{rs[0]} + multiset(rest);
      }
    }
  }

  /** Filtering distributes over concatenation, so the kept entries stay in their original order. */
  lemma {:induction false} FilterOutAppend(a: seq<Recipe>, b: seq<Recipe>, id: Option<string>)
    ensures FilterOut(a + b, id) == FilterOut(a, id) + FilterOut(b, id)
    decreases |a|
  {
    if |a| > 0 {
      assert (a + b)[1..] == a[1..] + b;
      assert (a + b)[0] == a[0];
      FilterOutAppend(a[1..], b, id);
    } else {
      assert a + b == b;
    }
  }

  /** `handleRemoveRecipe`: the notebook without the recipe's identity, written to storage. */
  function Remove(s: AppState, r: Recipe): (t: AppState)
    ensures t.saved == FilterOut(s.saved, r.id)
    ensures forall x :: x in t.saved <==> x in s.saved && x.id != r.id
    ensures forall x :: multiset(t.saved)[x] == if x.id == r.id then 0 else multiset(s.saved)[x]
    ensures !HasId(t.saved, r.id)
    ensures !HasId(s.saved, r.id) ==> t.saved == s.saved
    ensures Mirrored(t)
    ensures t.(saved := s.saved, storage := s.storage) == s
  {
    FilterOutCounts(s.saved, r.id);
    WriteSaved(s, FilterOut(s.saved, r.id))
  }

  /** Removing a recipe just saved restores the notebook it was saved into. */
  lemma RemoveAfterSave(s: AppState, r: Recipe)
    requires !HasId(s.saved, r.id)
    ensures Remove(Save(s, r), r).saved == s.saved
  {
    FilterOutAppend([r], s.saved, r.id);
    assert FilterOut([r], r.id) == [];
  }

  /** The tail of a list with unique identities has unique identities and lacks the head's. */
  lemma UniqueTail(rs: seq<Recipe>)
    requires |rs| > 0 && UniqueIds(rs)
    ensures UniqueIds(rs[1..]) && !HasId(rs[1..], rs[0].id)
  {
    forall k | 0 <= k < |rs| - 1
      ensures rs[1..][k] == rs[k + 1]
    {
    }
  }

  /** Putting a recipe with a new identity in front keeps identities unique. */
  lemma UniqueCons(r: Recipe, rest: seq<Recipe>)
    requires UniqueIds(rest) && !HasId(rest, r.id)
    ensures UniqueIds([r] + rest)
  {
    var t := [r] + rest;
    forall i, j | 0 <= i < j < |t|
      ensures t[i].id != t[j].id
    {
      assert t[j] == rest[j - 1];
      if i > 0 {
        assert t[i] == rest[i - 1];
      }
    }
  }

  /** Filtering never brings in an identity the list did not have. */
  lemma {:induction false} FilterOutKeepsAbsent(rs: seq<Recipe>, id: Option<string>, x: Option<string>)
    requires !HasId(rs, x)
    ensures !HasId(FilterOut(rs, id), x)
    decreases |rs|
  {
    if |rs| > 0 {
      HasIdCons(rs, x);
      FilterOutKeepsAbsent(rs[1..], id, x);
      if rs[0].id != id {
        var rest := FilterOut(rs[1..], id);
        assert ([rs[0]] + rest)[1..] == rest;
        HasIdCons([rs[0]] + rest, x);
      }
    }
  }

  lemma {:induction false} FilterOutSubsequenceUnique(rs: seq<Recipe>, id: Option<string>)
    requires UniqueIds(rs)
    ensures UniqueIds(FilterOut(rs, id))
    decreases |rs|
  {
    if |rs| > 0 {
      UniqueTail(rs);
      FilterOutSubsequenceUnique(rs[1..], id);
      if rs[0].id != id {
        FilterOutKeepsAbsent(rs[1..], id, rs[0].id);
        UniqueCons(rs[0], FilterOut(rs[1..], id));
      }
    }
  }

  /** Removing keeps the notebook's identities unique. */
  lemma RemovePreservesUnique(s: AppState, r: Recipe)
    requires UniqueIds(s.saved)
    ensures UniqueIds(Remove(s, r).saved)
  {
    FilterOutSubsequenceUnique(s.saved, r.id);
  }

  /** The `map` in `handleUpdateRecipe`: entries with the update's identity become the update. */
  function ReplaceById(rs: seq<Recipe>, u: Recipe): (out: seq<Recipe>)
    ensures |out| == |rs|
    ensures forall i :: 0 <= i < |rs| ==> out[i].id == rs[i].id
    ensures forall i :: 0 <= i < |rs| && rs[i].id == u.id ==> out[i] == u
    ensures forall i :: 0 <= i < |rs| && rs[i].id != u.id ==> out[i] == rs[i]
  {
    seq(|rs|, i requires 0 <= i < |rs| => if rs[i].id == u.id then u else rs[i])
  }

  /**
   * `handleUpdateRecipe`: replaces the matching entry in the working list,
   * and in the notebook (writing storage) only when the notebook holds it.
   */
  function Update(s: AppState, u: Recipe): (t: AppState)
    ensures t.recipes == ReplaceById(s.recipes, u)
    ensures HasId(s.saved, u.id) ==> t.saved == ReplaceById(s.saved, u) && Mirrored(t)
    ensures !HasId(s.saved, u.id) ==> t.saved == s.saved && t.storage == s.storage
    ensures t.(recipes := s.recipes, saved := s.saved, storage := s.storage) == s
  {
    var s' := s.(recipes := ReplaceById(s.recipes, u));
    if HasId(s.saved, u.id) then WriteSaved(s', ReplaceById(s.saved, u)) else s'
  }

  /** An update reaches both lists when both hold the identity, and leaves a list alone that does not. */
  lemma UpdatePropagates(s: AppState, u: Recipe)
    ensures HasId(s.recipes, u.id) ==> u in Update(s, u).recipes
    ensures HasId(s.saved, u.id) ==> u in Update(s, u).saved
    ensures !HasId(s.recipes, u.id) ==> Update(s, u).recipes == s.recipes
  {
    var t := Update(s, u);
    if HasId(s.recipes, u.id) {
      var i :| 0 <= i < |s.recipes| && s.recipes[i].id == u.id;
      assert t.recipes[i] == u;
    }
    if HasId(s.saved, u.id) {
      var i :| 0 <= i < |s.saved| && s.saved[i].id == u.id;
      assert t.saved[i] == u;
    }
  }

  /** Updating keeps the notebook's identities unique. */
  lemma UpdatePreservesUnique(s: AppState, u: Recipe)
    requires UniqueIds(s.saved)
    ensures UniqueIds(Update(s, u).saved)
  {
  }

  /** `handleRemixRecipe`: seeds the form with the recipe and clears the previous cycle. */
  function Remix(s: AppState, r: Recipe): (t: AppState)
    ensures t.recipeName == r.name && t.ingredients == r.ingredients
    ensures t.feedback == "" && t.recipes == [] && t.view == Generator
    ensures t.(recipeName := s.recipeName, ingredients := s.ingredients, feedback := s.feedback,
               recipes := s.recipes, view := s.view) == s
  {
    s.(recipeName := r.name, ingredients := r.ingredients, feedback := "", recipes := [], view := Generator)
  }

  /** `handleAddIngredient`: appends only a string not yet in the list. */
  function AddIngredient(s: AppState, ingredient: string): (t: AppState)
    ensures ingredient in t.ingredients
    ensures ingredient in s.ingredients ==> t == s
    ensures ingredient !in s.ingredients ==> t.ingredients == s.ingredients + [ingredient]
    ensures NoDuplicates(s.ingredients) ==> NoDuplicates(t.ingredients)
    ensures t.(ingredients := s.ingredients) == s
  {
    if ingredient in s.ingredients then s else s.(ingredients := s.ingredients + [ingredient])
  }

  /** The index `filter` in `handleRemoveIngredient`. */
  function DropIndex(xs: seq<string>, k: int): (r: seq<string>)
    ensures 0 <= k < |xs| ==> r == xs[..k] + xs[k + 1..]
    ensures !(0 <= k < |xs|) ==> r == xs
    decreases |xs|
  {
    if |xs| == 0 then []
    else
      var rest := DropIndex(xs[1..], k - 1);
      if k == 0 then rest
      else
        assert 0 < k < |xs| ==> [xs[0]] + rest == xs[..k] + xs[k + 1..] by {
          if 0 < k < |xs| {
            assert xs[1..][..k - 1] == xs[1..k];
            assert xs[1..][k..] == xs[k + 1..];
            assert xs[..k] == [xs[0]] + xs[1..k];
          }
        }
        assert xs == [xs[0]] + xs[1..];
        [xs[0]] + rest
  }

  /** `handleRemoveIngredient`: deletes exactly that position; any other index changes nothing. */
  function RemoveIngredient(s: AppState, index: int): (t: AppState)
    ensures 0 <= index < |s.ingredients| ==> |t.ingredients| == |s.ingredients| - 1
    ensures t.ingredients == DropIndex(s.ingredients, index)
    ensures t.(ingredients := s.ingredients) == s
  {
    s.(ingredients := DropIndex(s.ingredients, index))
  }

  /** Deleting one position of a duplicate-free list leaves it duplicate-free. */
  lemma RemoveIngredientPreservesNoDuplicates(s: AppState, index: int)
    requires NoDuplicates(s.ingredients)
    ensures NoDuplicates(RemoveIngredient(s, index).ingredients)
  {
    var xs := s.ingredients;
    if 0 <= index < |xs| {
      var ys := RemoveIngredient(s, index).ingredients;
      forall i, j | 0 <= i < j < |ys|
        ensures ys[i] != ys[j]
      {
        var i' := if i < index then i else i + 1;
        var j' := if j < index then j else j + 1;
        assert ys[i] == xs[i'] && ys[j] == xs[j'];
      }
    }
  }

  /** The arguments `handleGenerate` passes to the service. */
  function Params(s: AppState): GenerationParams {
    GenerationParams(s.recipeName, s.feedback, s.ingredients, s.cookingMethod, s.utensil, s.language)
  }

  /**
   * The first half of `handleGenerate`, before the service answers: the
   * request's arguments are fixed at the click.
   */
  function StartGenerate(s: AppState): (t: AppState)
    ensures t.isLoading && t.error.None? && t.recipes == []
    ensures t.pending == Some(Params(s))
    ensures t.(isLoading := s.isLoading, error := s.error, recipes := s.recipes, pending := s.pending) == s
  {
    s.(isLoading := true, error := None, recipes := [], pending := Some(Params(s)))
  }

  /** Each recipe gets the identity `uuid(i)` for its position `i`; nothing else changes. */
  function AssignIds(rs: seq<Recipe>, uuid: nat -> string): (out: seq<Recipe>)
    ensures |out| == |rs|
    ensures forall i :: 0 <= i < |rs| ==> out[i].id == Some(uuid(i))
    ensures forall i :: 0 <= i < |rs| ==> out[i].(id := rs[i].id) == rs[i]
  {
    seq(|rs|, i requires 0 <= i < |rs| => rs[i].(id := Some(uuid(i))))
  }

  /**
   * The completion of `handleGenerate` for a request started with `p`.
   * `uuid` is the sequence of values `crypto.randomUUID` returns. A failure
   * shows the error text of the language of the click, which the handler
   * captured with the rest of its render.
   */
  function Generate(s: AppState, p: GenerationParams, reply: TextReply,
                    decode: string -> Option<RecipeResponse>, uuid: nat -> string): (t: AppState)
    ensures !t.isLoading && t.pending.None?
    ensures var result := GenerateRecipes(p, reply, decode).result;
      && (result.Success? ==> t.error.None? && t.recipes == AssignIds(result.value.recipes, uuid))
      && (result.Failure? ==> t.error == Some(ErrorText(p.language)) && t.recipes == [])
    ensures t.(isLoading := s.isLoading, error := s.error, recipes := s.recipes, pending := s.pending) == s
  {
    var result := GenerateRecipes(p, reply, decode).result;
    var s' := s.(isLoading := false, pending := None);
    if result.Success? then s'.(error := None, recipes := AssignIds(result.value.recipes, uuid))
    else s'.(error := Some(ErrorText(p.language)), recipes := [])
  }

  /** A supply of identities that never repeats and never collides with an identity already in use. */
  ghost predicate FreshSupply(uuid: nat -> string, s: AppState) {
    && (forall i: nat, j: nat :: i != j ==> uuid(i) != uuid(j))
    && (forall i: nat :: !HasId(s.saved, Some(uuid(i))))
  }

  /** A successful generation yields a working list whose identities are distinct and not yet saved. */
  lemma GeneratedIdsFresh(s: AppState, p: GenerationParams, reply: TextReply,
                          decode: string -> Option<RecipeResponse>, uuid: nat -> string)
    requires FreshSupply(uuid, s)
    ensures var t := Generate(s, p, reply, decode, uuid);
      && UniqueIds(t.recipes)
      && forall i :: 0 <= i < |t.recipes| ==> t.recipes[i].id.Some? && !HasId(s.saved, t.recipes[i].id)
  {
    var t := Generate(s, p, reply, decode, uuid);
    var rs := t.recipes;
    forall i, j | 0 <= i < j < |rs|
      ensures rs[i].id != rs[j].id
    {
      if GenerateRecipes(p, reply, decode).result.Success? {
        assert rs[i].id == Some(uuid(i)) && rs[j].id == Some(uuid(j));
      }
    }
    forall i | 0 <= i < |rs|
      ensures rs[i].id.Some? && !HasId(s.saved, rs[i].id)
    {
      assert rs[i].id == Some(uuid(i));
    }
  }

  /**
   * The reply decoder the application relies on: `JSON.parse`, then reading
   * the result against the generation schema.
   */
  function SchemaDecoder(parse: string -> Option<Schema.Json>): string -> Option<RecipeResponse> {
    text => if parse(text).Some? then Schema.Decode(parse(text).value) else None
  }

  /**
   * With replies read against the schema, every generated result has all
   * metadata from the fixed lists and no image or tips; only its fresh id
   * was added.
   */
  lemma GeneratedFollowSchema(s: AppState, p: GenerationParams, reply: TextReply,
                              parse: string -> Option<Schema.Json>, uuid: nat -> string)
    ensures var t := Generate(s, p, reply, SchemaDecoder(parse), uuid);
      forall i :: 0 <= i < |t.recipes| ==>
        t.recipes[i].id == Some(uuid(i)) && Schema.Generated(t.recipes[i].(id := None))
  {
    var result := GenerateRecipes(p, reply, SchemaDecoder(parse)).result;
    if result.Success? {
      var j := parse(reply.text.value).value;
      assert Schema.Decode(j) == Some(result.value);
      Schema.EncodeDecode(j);
      var rs := result.value.recipes;
      var t := Generate(s, p, reply, SchemaDecoder(parse), uuid);
      forall i | 0 <= i < |t.recipes|
        ensures t.recipes[i].id == Some(uuid(i)) && Schema.Generated(t.recipes[i].(id := None))
      {
        assert Schema.Generated(rs[i]);
        assert t.recipes[i].(id := rs[i].id) == rs[i];
      }
    }
  }

  /** `handleLanguageChange`: the working list is always empty afterwards. */
  function ChangeLanguage(s: AppState, l: Lang): (t: AppState)
    ensures t.language == l && t.recipes == []
    ensures t.(language := s.language, recipes := s.recipes) == s
  {
    var s' := s.(language := l);
    if |s.recipes| > 0 then s'.(recipes := []) else s'
  }

  /**
   * The load effect: a present, non-empty slot that parses becomes the
   * notebook; an absent, empty or unparsable one leaves it empty.
   */
  function Startup(raw: Option<string>, parse: string -> Option<seq<Recipe>>): (s: AppState)
    ensures s.(saved := []) == Initial()
    ensures raw.None? || raw.value == "" || parse(raw.value).None? ==> s.saved == []
    ensures raw.Some? && raw.value != "" && parse(raw.value).Some? ==> s.saved == parse(raw.value).value
  {
    if raw.Some? && raw.value != "" then
      match parse(raw.value)
      case Some(rs) => Initial().(saved := rs)
      case None => Initial()
    else Initial()
  }

  /** Every user action on the application state. */
  datatype Action =
    | SaveAction(recipe: Recipe)
    | RemoveAction(recipe: Recipe)
    | UpdateAction(recipe: Recipe)
    | RemixAction(recipe: Recipe)
    | AddIngredientAction(ingredient: string)
    | RemoveIngredientAction(index: int)
    | GenerateClick
    | GenerateAction(reply: TextReply, decode: string -> Option<RecipeResponse>, uuid: nat -> string)
    | LanguageAction(language: Lang)
    | SetRecipeName(name: string)
    | SetFeedback(feedback: string)
    | SetCookingMethod(cookingMethod: MethodKey)
    | SetUtensil(utensil: UtensilKey)
    | SetView(view: View)

  /**
   * The actions that go through the generator form, whose fields, pickers
   * and buttons are all disabled while a generation is running.
   */
  predicate FormAction(a: Action) {
    || a.AddIngredientAction? || a.RemoveIngredientAction? || a.GenerateClick?
    || a.SetRecipeName? || a.SetFeedback? || a.SetCookingMethod? || a.SetUtensil?
  }

  /**
   * One user action. `GenerateClick` starts a generation (the button is
   * also disabled for a blank name) and `GenerateAction` is its completion,
   * which answers the request of the click; with none running there is
   * nothing to complete.
   */
  function Apply(s: AppState, a: Action): AppState {
    if FormAction(a) && s.isLoading then s
    else
    match a
    case SaveAction(r) => Save(s, r)
    case RemoveAction(r) => Remove(s, r)
    case UpdateAction(u) => Update(s, u)
    case RemixAction(r) => Remix(s, r)
    case AddIngredientAction(x) => AddIngredient(s, x)
    case RemoveIngredientAction(k) => RemoveIngredient(s, k)
    case GenerateClick => if Text.Trim(s.recipeName) == "" then s else StartGenerate(s)
    case GenerateAction(reply, decode, uuid) =>
      if s.pending.Some? then Generate(s, s.pending.value, reply, decode, uuid) else s
    case LanguageAction(l) => ChangeLanguage(s, l)
    case SetRecipeName(n) => s.(recipeName := n)
    case SetFeedback(f) => s.(feedback := f)
    case SetCookingMethod(m) => s.(cookingMethod := m)
    case SetUtensil(u) => s.(utensil := u)
    case SetView(v) => s.(view := v)
  }

  /** While a generation runs, the form's controls change nothing. */
  lemma FormLockedWhileLoading(s: AppState, a: Action)
    requires s.isLoading && FormAction(a)
    ensures Apply(s, a) == s
  {
  }

  /**
   * What every reachable state satisfies: unique notebook identities, a
   * duplicate-free ingredient list, a storage slot that, once written,
   * mirrors the notebook, a method and utensil that are picker keys, and
   * a recorded request exactly while a generation runs.
   */
  ghost predicate Valid(s: AppState) {
    && (s.isLoading <==> s.pending.Some?)
    && s.cookingMethod in CookingMethodKeys && s.utensil in UtensilKeys
    && UniqueIds(s.saved)
    && NoDuplicates(s.ingredients)
    && (s.storage.Some? ==> Mirrored(s))
  }

  /** Startup from a slot whose content has unique identities yields a valid state. */
  lemma StartupValid(raw: Option<string>, parse: string -> Option<seq<Recipe>>)
    requires raw.Some? && parse(raw.value).Some? ==> UniqueIds(parse(raw.value).value)
    ensures Valid(Startup(raw, parse))
  {
  }

  /** Every action keeps the state valid, except a remix that seeds a list with repeated ingredients. */
  lemma ApplyPreservesValid(s: AppState, a: Action)
    requires Valid(s)
    requires a.RemixAction? ==> NoDuplicates(a.recipe.ingredients)
    ensures Valid(Apply(s, a))
  {
    if !(FormAction(a) && s.isLoading) {
      match a
      case SaveAction(r) => SavePreservesUnique(s, r);
      case RemoveAction(r) => RemovePreservesUnique(s, r);
      case UpdateAction(u) => UpdatePreservesUnique(s, u);
      case RemoveIngredientAction(k) => RemoveIngredientPreservesNoDuplicates(s, k);
      case _ =>
    }
  }

  /** Actions applied in order. */
  function ApplyAll(s: AppState, acts: seq<Action>): AppState
    decreases |acts|
  {
    if |acts| == 0 then s else ApplyAll(Apply(s, acts[0]), acts[1..])
  }

  /** Until its completion, a running generation keeps the request it was started with. */
  lemma InFlightKept(s: AppState, a: Action)
    requires s.isLoading && !a.GenerateAction?
    ensures Apply(s, a).isLoading && Apply(s, a).pending == s.pending
  {
  }

  lemma {:induction false} InFlightKeptAll(s: AppState, acts: seq<Action>)
    requires s.isLoading
    requires forall i :: 0 <= i < |acts| ==> !acts[i].GenerateAction?
    ensures ApplyAll(s, acts).isLoading && ApplyAll(s, acts).pending == s.pending
    decreases |acts|
  {
    if |acts| > 0 {
      InFlightKept(s, acts[0]);
      InFlightKeptAll(Apply(s, acts[0]), acts[1..]);
    }
  }

  /** An enabled generate click starts a generation. */
  lemma ClickStarts(s: AppState)
    requires !s.isLoading && Text.Trim(s.recipeName) != ""
    ensures Apply(s, GenerateClick) == StartGenerate(s)
  {
  }

  /** A completion answers the request that is running. */
  lemma CompletionAnswersPending(u: AppState, reply: TextReply, decode: string -> Option<RecipeResponse>,
                                 uuid: nat -> string)
    requires u.pending.Some?
    ensures Apply(u, GenerateAction(reply, decode, uuid)) == Generate(u, u.pending.value, reply, decode, uuid)
  {
  }

  /**
   * Whatever happens between the click and the reply (a language change,
   * say), the completion answers the request of the click and a failure
   * shows the error text of the click's language.
   */
  lemma CompletionAnswersClick(s: AppState, acts: seq<Action>, reply: TextReply,
                               decode: string -> Option<RecipeResponse>, uuid: nat -> string)
    requires !s.isLoading && Text.Trim(s.recipeName) != ""
    requires forall i :: 0 <= i < |acts| ==> !acts[i].GenerateAction?
    ensures var u := ApplyAll(Apply(s, GenerateClick), acts);
      Apply(u, GenerateAction(reply, decode, uuid)) == Generate(u, Params(s), reply, decode, uuid)
    ensures var t := Apply(ApplyAll(Apply(s, GenerateClick), acts), GenerateAction(reply, decode, uuid));
      GenerateRecipes(Params(s), reply, decode).result.Failure? ==> t.error == Some(ErrorText(s.language))
  {
    var c := Apply(s, GenerateClick);
    ClickStarts(s);
    InFlightKeptAll(c, acts);
    var u := ApplyAll(c, acts);
    CompletionAnswersPending(u, reply, decode, uuid);
    var t := Generate(u, Params(s), reply, decode, uuid);
    assert GenerateRecipes(Params(s), reply, decode).result.Failure? ==> t.error == Some(ErrorText(s.language));
  }

  /** In a valid state the request always names the method and utensil by their picker keys, not their labels. */
  lemma RequestUsesKeys(s: AppState)
    requires Valid(s)
    ensures Params(s).cookingMethod in CookingMethodKeys && Params(s).utensil in UtensilKeys
  {
  }
}
