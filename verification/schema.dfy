/**
 * The structured-output contract of recipe generation (`recipeSchema`).
 * `Conforms` states which parsed JSON values the contract admits;
 * `Decode` reads an admitted value as typed recipes and `Encode` writes
 * them back. The application itself never runs this check: it casts the
 * parsed reply to the typed envelope, so the contract is what that cast
 * relies on.
 */
module Schema {
  import opened Wrappers
  import opened Types

  /** A parsed JSON value. Object members are keyed by name (the last duplicate wins). */
  datatype Json =
    | JNull
    | JBool(b: bool)
    | JNumber(n: int)
    | JString(str: string)
    | JArray(items: seq<Json>)
    | JObject(fields: map<string, Json>)

  const FlavorProfiles: seq<string> := ["Salgado", "Doce", "Amargo", "Umami", "Azedo"]
  const Categories: seq<string> := ["Prato Principal", "Acompanhamento", "Sobremesa", "Bebida", "Lanche"]
  const MainProteins: seq<string> :=
    ["Frango", "Bovina", "Suína", "Peixe/Frutos do Mar", "Vegetariana/Vegana", "Nenhuma"]
  const DietAttributes: seq<string> :=
    ["Sem Glúten", "Vegetariano", "Vegano", "Low Carb", "Rápido (<30min)", "Sem Lactose"]

  /** The recipe item's properties; the schema lists every one of them as required. */
  const RecipeFields: set<string> :=
    {"name", "type", "focus", "difficulty", "time", "changes", "explanation",
     "ingredients", "steps", "flavorProfile", "category", "mainProtein",
     "dietAttributes", "searchKeywords"}

  predicate IsStringArray(j: Json) {
    j.JArray? && forall i :: 0 <= i < |j.items| ==> j.items[i].JString?
  }

  predicate IsEnumString(j: Json, values: seq<string>) {
    j.JString? && j.str in values
  }

  predicate IsEnumArray(j: Json, values: seq<string>) {
    j.JArray? && forall i :: 0 <= i < |j.items| ==> IsEnumString(j.items[i], values)
  }

  /**
   * One item of the `recipes` array as the schema describes it: an object
   * holding every required property with the declared type and enum. The
   * schema does not forbid further members, so an item may carry others.
   */
  predicate RecipeConforms(j: Json) {
    && j.JObject?
    && RecipeFields <= j.fields.Keys
    && j.fields["name"].JString?
    && j.fields["type"].JString?
    && j.fields["focus"].JString?
    && j.fields["difficulty"].JString?
    && j.fields["difficulty"].str in DifficultyNames
    && j.fields["time"].JString?
    && j.fields["changes"].JString?
    && j.fields["explanation"].JString?
    && IsStringArray(j.fields["ingredients"])
    && IsStringArray(j.fields["steps"])
    && IsEnumString(j.fields["flavorProfile"], FlavorProfiles)
    && IsEnumString(j.fields["category"], Categories)
    && IsEnumString(j.fields["mainProtein"], MainProteins)
    && IsEnumArray(j.fields["dietAttributes"], DietAttributes)
    && IsStringArray(j.fields["searchKeywords"])
  }

  /** A whole reply: an object whose required member `recipes` is an array of conforming items. */
  predicate Conforms(j: Json) {
    && j.JObject?
    && "recipes" in j.fields
    && j.fields["recipes"].JArray?
    && forall i :: 0 <= i < |j.fields["recipes"].items| ==> RecipeConforms(j.fields["recipes"].items[i])
  }

  /**
   * A typed recipe of the shape the schema asks for: all metadata present and
   * drawn from the fixed lists, and none of the fields the schema never
   * requests (`id`, `imageUrl`, `safetyTips`).
   */
  predicate Generated(r: Recipe) {
    && r.id.None? && r.imageUrl.None? && r.safetyTips.None?
    && r.flavorProfile.Some? && r.flavorProfile.value in FlavorProfiles
    && r.category.Some? && r.category.value in Categories
    && r.mainProtein.Some? && r.mainProtein.value in MainProteins
    && r.dietAttributes.Some?
    && (forall i :: 0 <= i < |r.dietAttributes.value| ==> r.dietAttributes.value[i] in DietAttributes)
    && r.searchKeywords.Some?
  }

  predicate AllGenerated(rs: seq<Recipe>) {
    forall i :: 0 <= i < |rs| ==> Generated(rs[i])
  }

  function DecodeStrings(items: seq<Json>): (r: Option<seq<string>>)
    ensures r.Some? <==> forall i :: 0 <= i < |items| ==> items[i].JString?
    ensures r.Some? ==> |r.value| == |items| && forall i :: 0 <= i < |items| ==> items[i] == JString(r.value[i])
  {
    if |items| == 0 then Some([])
    else if !items[0].JString? then None
    else
      match DecodeStrings(items[1..])
      case None => None
      case Some(rest) => Some([items[0].str] + rest)
  }

  function EncodeStrings(xs: seq<string>): (j: Json)
    ensures j.JArray? && |j.items| == |xs|
    ensures forall i :: 0 <= i < |xs| ==> j.items[i] == JString(xs[i])
  {
    JArray(seq(|xs|, i requires 0 <= i < |xs| => JString(xs[i])))
  }

  /** The member `key` of an object; `None` for a missing member or a non-object. */
  function Member(j: Json, key: string): (v: Option<Json>)
    ensures v.Some? <==> j.JObject? && key in j.fields
    ensures v.Some? ==> v.value == j.fields[key]
  {
    if j.JObject? && key in j.fields then Some(j.fields[key]) else None
  }

  function Str(j: Json): Option<string> {
    if j.JString? then Some(j.str) else None
  }

  /** An array of strings; what it reads encodes back to the same array. */
  function Strs(j: Json): (r: Option<seq<string>>)
    ensures r.Some? <==> IsStringArray(j)
    ensures r.Some? ==> EncodeStrings(r.value) == j
  {
    if j.JArray? then
      var r := DecodeStrings(j.items);
      assert r.Some? ==> EncodeStrings(r.value).items == j.items;
      r
    else None
  }

  /** A string drawn from a fixed list. */
  function EnumStr(j: Json, values: seq<string>): Option<string> {
    var s :- Str(j);
    if s in values then Some(s) else None
  }

  /** An array of strings, each drawn from a fixed list. */
  function EnumStrs(j: Json, values: seq<string>): (r: Option<seq<string>>)
    ensures r.Some? <==> IsEnumArray(j, values)
    ensures r.Some? ==> EncodeStrings(r.value) == j
  {
    var xs :- Strs(j);
    if forall i :: 0 <= i < |xs| ==> xs[i] in values then Some(xs) else None
  }

  function StrAt(j: Json, key: string): Option<string> {
    var v :- Member(j, key);
    Str(v)
  }

  function StrsAt(j: Json, key: string): Option<seq<string>> {
    var v :- Member(j, key);
    Strs(v)
  }

  function EnumAt(j: Json, key: string, values: seq<string>): Option<string> {
    var v :- Member(j, key);
    EnumStr(v, values)
  }

  function EnumsAt(j: Json, key: string, values: seq<string>): Option<seq<string>> {
    var v :- Member(j, key);
    EnumStrs(v, values)
  }

  /**
   * Reads one `recipes` item member by member; `None` as soon as a required
   * member is missing or has the wrong type or value. Members outside the
   * schema are ignored.
   */
  function DecodeRecipe(j: Json): Option<Recipe> {
    var name :- StrAt(j, "name");
    var mealType :- StrAt(j, "type");
    var focus :- StrAt(j, "focus");
    var level :- StrAt(j, "difficulty");
    var difficulty :- ParseDifficulty(level);
    var time :- StrAt(j, "time");
    var changes :- StrAt(j, "changes");
    var explanation :- StrAt(j, "explanation");
    var ingredients :- StrsAt(j, "ingredients");
    var steps :- StrsAt(j, "steps");
    var flavor :- EnumAt(j, "flavorProfile", FlavorProfiles);
    var category :- EnumAt(j, "category", Categories);
    var protein :- EnumAt(j, "mainProtein", MainProteins);
    var diet :- EnumsAt(j, "dietAttributes", DietAttributes);
    var keywords :- StrsAt(j, "searchKeywords");
    Some(Recipe(None, name, mealType, focus, difficulty, time, changes, explanation,
                ingredients, steps, Some(flavor), Some(category), Some(protein),
                Some(diet), Some(keywords), None, None))
  }

  function DecodeRecipes(items: seq<Json>): (r: Option<seq<Recipe>>)
    ensures r.Some? ==> |r.value| == |items|
    ensures r.Some? ==> forall i :: 0 <= i < |items| ==> DecodeRecipe(items[i]) == Some(r.value[i])
    ensures r.None? ==> exists i :: 0 <= i < |items| && DecodeRecipe(items[i]).None?
  {
    if |items| == 0 then Some([])
    else
      match DecodeRecipe(items[0])
      case None => None
      case Some(first) =>
        match DecodeRecipes(items[1..])
        case None => None
        case Some(rest) => Some([first] + rest)
  }

  /** Reads a whole reply; `None` when it breaks the schema. Members besides `recipes` are ignored. */
  function Decode(j: Json): Option<RecipeResponse> {
    var list :- Member(j, "recipes");
    var items :- if list.JArray? then Some(list.items) else None;
    var rs :- DecodeRecipes(items);
    Some(RecipeResponse(rs))
  }

  function EncodeRecipe(r: Recipe): (j: Json)
    requires Generated(r)
    ensures j.JObject? && j.fields.Keys == RecipeFields
  {
    JObject(map[
      "name" := JString(r.name),
      "type" := JString(r.mealType),
      "focus" := JString(r.focus),
      "difficulty" := JString(DifficultyName(r.difficulty)),
      "time" := JString(r.time),
      "changes" := JString(r.changes),
      "explanation" := JString(r.explanation),
      "ingredients" := EncodeStrings(r.ingredients),
      "steps" := EncodeStrings(r.steps),
      "flavorProfile" := JString(r.flavorProfile.value),
      "category" := JString(r.category.value),
      "mainProtein" := JString(r.mainProtein.value),
      "dietAttributes" := EncodeStrings(r.dietAttributes.value),
      "searchKeywords" := EncodeStrings(r.searchKeywords.value)])
  }

  function Encode(resp: RecipeResponse): Json
    requires AllGenerated(resp.recipes)
  {
    JObject(map["recipes" := JArray(seq(|resp.recipes|, i requires 0 <= i < |resp.recipes| => EncodeRecipe(resp.recipes[i])))])
  }

  /** An object cut down to the members named in `keys`; any other value is kept whole. */
  function Keep(j: Json, keys: set<string>): (k: Json)
    ensures j.JObject? ==> k.JObject? && k.fields.Keys == j.fields.Keys * keys
    ensures j.JObject? ==> forall key :: key in k.fields ==> k.fields[key] == j.fields[key]
    ensures j.JObject? && j.fields.Keys == keys ==> k == j
  {
    if j.JObject? then JObject(map key | key in j.fields && key in keys :: j.fields[key]) else j
  }

  /** What the schema speaks about in a reply: the `recipes` array, each item cut down to its properties. */
  function SchemaPart(j: Json): Json {
    match Member(j, "recipes")
    case Some(JArray(items)) =>
      JObject(map["recipes" := JArray(seq(|items|, i requires 0 <= i < |items| => Keep(items[i], RecipeFields)))])
    case _ => j
  }

  lemma StringsRoundTrip(xs: seq<string>)
    ensures Strs(EncodeStrings(xs)) == Some(xs)
  {
    var r := DecodeStrings(EncodeStrings(xs).items);
    assert r.Some?;
    assert r.value == xs;
  }

  /** What each member of an encoded recipe holds. */
  lemma EncodedFields(r: Recipe)
    requires Generated(r)
    ensures var f := EncodeRecipe(r).fields;
      && f["name"] == JString(r.name)
      && f["type"] == JString(r.mealType)
      && f["focus"] == JString(r.focus)
      && f["difficulty"] == JString(DifficultyName(r.difficulty))
      && f["time"] == JString(r.time)
      && f["changes"] == JString(r.changes)
      && f["explanation"] == JString(r.explanation)
      && f["ingredients"] == EncodeStrings(r.ingredients)
      && f["steps"] == EncodeStrings(r.steps)
      && f["flavorProfile"] == JString(r.flavorProfile.value)
      && f["category"] == JString(r.category.value)
      && f["mainProtein"] == JString(r.mainProtein.value)
      && f["dietAttributes"] == EncodeStrings(r.dietAttributes.value)
      && f["searchKeywords"] == EncodeStrings(r.searchKeywords.value)
  {
  }

  /** Encoding a recipe of the requested shape yields an item the schema admits. */
  lemma EncodedConforms(r: Recipe)
    requires Generated(r)
    ensures RecipeConforms(EncodeRecipe(r))
  {
    EncodedFields(r);
    var d := EncodeStrings(r.dietAttributes.value);
    assert forall i :: 0 <= i < |d.items| ==> d.items[i] == JString(r.dietAttributes.value[i]);
  }

  /**
   * The member-by-member reader accepts exactly the items the schema admits,
   * and what it reads has the requested shape.
   */
  lemma RecipeConformsIffDecodes(j: Json)
    ensures RecipeConforms(j) <==> DecodeRecipe(j).Some?
    ensures DecodeRecipe(j).Some? ==> Generated(DecodeRecipe(j).value)
  {
    if DecodeRecipe(j).Some? {
      assert j.JObject?;
      assert RecipeFields <= j.fields.Keys;
      var d := j.fields["dietAttributes"];
      var xs := Strs(d).value;
      assert forall i :: 0 <= i < |xs| ==> d.items[i] == JString(xs[i]);
    }
  }

  /** A recipe of the requested shape survives being written as JSON and read back. */
  lemma RecipeRoundTrip(r: Recipe)
    requires Generated(r)
    ensures DecodeRecipe(EncodeRecipe(r)) == Some(r)
  {
    EncodedFields(r);
    StringsRoundTrip(r.ingredients);
    StringsRoundTrip(r.steps);
    StringsRoundTrip(r.dietAttributes.value);
    StringsRoundTrip(r.searchKeywords.value);
    DifficultyRoundTrip(r.difficulty);
  }

  /**
   * Whatever item decodes is the encoding of the recipe it decodes to, once
   * members outside the schema are dropped; an item with no such members is
   * that encoding exactly.
   */
  lemma RecipeDecodeEncode(j: Json)
    requires RecipeConforms(j)
    ensures DecodeRecipe(j).Some? && Generated(DecodeRecipe(j).value)
    ensures EncodeRecipe(DecodeRecipe(j).value) == Keep(j, RecipeFields)
    ensures j.fields.Keys == RecipeFields ==> EncodeRecipe(DecodeRecipe(j).value) == j
  {
    RecipeConformsIffDecodes(j);
    DecodedFields(j);
    EncodingMatches(j, DecodeRecipe(j).value);
  }

  /** An item whose schema members each encode the matching field of `r` is `r`'s encoding plus other members. */
  lemma EncodingMatches(j: Json, r: Recipe)
    requires Generated(r)
    requires j.JObject? && RecipeFields <= j.fields.Keys
    requires var f := j.fields;
      && f["name"] == JString(r.name)
      && f["type"] == JString(r.mealType)
      && f["focus"] == JString(r.focus)
      && f["difficulty"] == JString(DifficultyName(r.difficulty))
      && f["time"] == JString(r.time)
      && f["changes"] == JString(r.changes)
      && f["explanation"] == JString(r.explanation)
      && f["ingredients"] == EncodeStrings(r.ingredients)
      && f["steps"] == EncodeStrings(r.steps)
      && f["flavorProfile"] == JString(r.flavorProfile.value)
      && f["category"] == JString(r.category.value)
      && f["mainProtein"] == JString(r.mainProtein.value)
      && f["dietAttributes"] == EncodeStrings(r.dietAttributes.value)
      && f["searchKeywords"] == EncodeStrings(r.searchKeywords.value)
    ensures EncodeRecipe(r) == Keep(j, RecipeFields)
  {
    EncodedFields(r);
    var f := Keep(j, RecipeFields).fields;
    var e := EncodeRecipe(r).fields;
    assert forall k :: k in RecipeFields ==> e[k] == j.fields[k];
    assert e == f;
  }

  /** Each schema member of a decoded item is the encoding of the matching field. */
  lemma DecodedFields(j: Json)
    requires RecipeConforms(j)
    ensures DecodeRecipe(j).Some?
    ensures var r := DecodeRecipe(j).value; var f := j.fields;
      && j.JObject? && RecipeFields <= f.Keys
      && f["name"] == JString(r.name)
      && f["type"] == JString(r.mealType)
      && f["focus"] == JString(r.focus)
      && f["difficulty"] == JString(DifficultyName(r.difficulty))
      && f["time"] == JString(r.time)
      && f["changes"] == JString(r.changes)
      && f["explanation"] == JString(r.explanation)
      && f["ingredients"] == EncodeStrings(r.ingredients)
      && f["steps"] == EncodeStrings(r.steps)
      && r.flavorProfile.Some? && f["flavorProfile"] == JString(r.flavorProfile.value)
      && r.category.Some? && f["category"] == JString(r.category.value)
      && r.mainProtein.Some? && f["mainProtein"] == JString(r.mainProtein.value)
      && r.dietAttributes.Some? && f["dietAttributes"] == EncodeStrings(r.dietAttributes.value)
      && r.searchKeywords.Some? && f["searchKeywords"] == EncodeStrings(r.searchKeywords.value)
  {
    RecipeConformsIffDecodes(j);
  }

  /** Members outside the schema do not change what an item decodes to. */
  lemma ExtraMemberIgnored(j: Json, key: string, v: Json)
    requires j.JObject?
    requires key !in RecipeFields
    ensures DecodeRecipe(JObject(j.fields[key := v])) == DecodeRecipe(j)
  {
  }

  /** Whatever item decodes yields a recipe with all metadata and no id, image or tips. */
  lemma DecodedIsGenerated(j: Json)
    requires DecodeRecipe(j).Some?
    ensures Generated(DecodeRecipe(j).value)
  {
    RecipeConformsIffDecodes(j);
  }

  /** A reply made of recipes of the requested shape survives encoding and decoding. */
  lemma {:induction false} DecodeEncode(resp: RecipeResponse)
    requires AllGenerated(resp.recipes)
    ensures Decode(Encode(resp)) == Some(resp)
  {
    var items := Encode(resp).fields["recipes"].items;
    forall i | 0 <= i < |items|
      ensures DecodeRecipe(items[i]) == Some(resp.recipes[i])
    {
      RecipeRoundTrip(resp.recipes[i]);
    }
    var rs := DecodeRecipes(items);
    assert rs.value == resp.recipes;
  }

  /**
   * Whatever reply decodes is the encoding of the recipes it decodes to,
   * up to the members the schema does not describe.
   */
  lemma {:induction false} EncodeDecode(j: Json)
    requires Decode(j).Some?
    ensures AllGenerated(Decode(j).value.recipes)
    ensures Encode(Decode(j).value) == SchemaPart(j)
  {
    var resp := Decode(j).value;
    var items := j.fields["recipes"].items;
    forall i | 0 <= i < |items|
      ensures Generated(resp.recipes[i]) && EncodeRecipe(resp.recipes[i]) == Keep(items[i], RecipeFields)
    {
      RecipeConformsIffDecodes(items[i]);
      RecipeDecodeEncode(items[i]);
    }
    assert Encode(resp).fields["recipes"].items == SchemaPart(j).fields["recipes"].items;
    assert Encode(resp).fields == SchemaPart(j).fields;
  }

  /** A reply conforms to the schema exactly when it decodes. */
  lemma {:induction false} ConformsIffDecodes(j: Json)
    ensures Conforms(j) <==> Decode(j).Some?
  {
    if j.JObject? && "recipes" in j.fields && j.fields["recipes"].JArray? {
      var items := j.fields["recipes"].items;
      forall i | 0 <= i < |items| {
        RecipeConformsIffDecodes(items[i]);
      }
    }
  }

  /**
   * Every recipe a conforming reply yields carries all metadata from the
   * fixed lists and lacks an id, an image and safety tips.
   */
  lemma FreshlyGeneratedShape(j: Json)
    requires Conforms(j)
    ensures Decode(j).Some?
    ensures forall i :: 0 <= i < |Decode(j).value.recipes| ==> Generated(Decode(j).value.recipes[i])
  {
    ConformsIffDecodes(j);
    EncodeDecode(j);
  }

  /** An item whose `difficulty` is not one of the three names does not conform. */
  lemma RejectsUnknownDifficulty(r: Recipe, level: string)
    requires Generated(r)
    requires level !in DifficultyNames
    ensures DecodeRecipe(JObject(EncodeRecipe(r).fields["difficulty" := JString(level)])).None?
  {
  }

  /** An item missing any one required property does not conform. */
  lemma RejectsMissingField(r: Recipe, field: string)
    requires Generated(r)
    requires field in RecipeFields
    ensures !RecipeConforms(JObject(EncodeRecipe(r).fields - {field}))
  {
    assert field !in (EncodeRecipe(r).fields - {field}).Keys;
  }
}
