/**
 * The pure parts of the generation service: the text that goes into the
 * three backend requests, and how each backend reply becomes a result.
 * The backend itself is not modelled; its reply is an input, and
 * `JSON.parse` followed by the TypeScript cast is an injected `decode`
 * function. Its `None` means that parsing threw or that the parsed value
 * has no `recipes` array to read, which the application reports with the
 * same error.
 */
module Service {
  import opened Wrappers
  import opened Types
  import opened Text

  /** `languageNames`: the language name written into the prompts. */
  function LanguageName(l: Lang): string {
    match l
    case Pt => "Português do Brasil"
    case En => "English"
    case Es => "Español"
    case Fr => "Français"
    case It => "Italiano"
    case De => "Deutsch"
    case Ja => "Japanese"
    case Ko => "Korean"
  }

  /** Every language is named differently, so the prompts say unambiguously which one is wanted. */
  lemma LanguageNameInjective(a: Lang, b: Lang)
    ensures LanguageName(a) == LanguageName(b) ==> a == b
  {
  }

  const NotSpecified := "Not specified"
  const NoFeedback := "No specific feedback provided. Optimize generally."
  const SafetyFallback := "Always be careful with hot surfaces and sharp objects."

  /** Fixed text of the prompt templates, kept as named constants. */
  const SystemOpening := "Transform a base recipe into 3 variations (Easy, Medium, Hard). Adapt to the cooking equipment: "
  const SystemUtensil := " and utensil: "
  const SystemLanguage := ". Respond ENTIRELY in "
  const PromptName := "Base Recipe Name: "
  const PromptFeedback := "\nUser Feedback: "
  const PromptIngredients := "\nIngredients Available: "
  const PromptEquipment := "\nCooking Equipment Available: "
  const PromptUtensil := "\nSpecific Utensil: "
  const PromptLanguage := "\nGenerate 3 variations (Easy, Medium, Hard) in "
  const ImageOpening := "Generate an image of \""
  const ImageIngredientsLabel := "\".\nKey Ingredients visible: "
  const ImageStyle := ".\nStyle: Professional food photography. No text overlay."
  const SafetyOpening := "Analyze this recipe for safety hazards.\nRecipe: "
  const SafetyIngredients := "\nIngredients: "
  const SafetySteps := "\nSteps: "
  const SafetyLanguage := "\nProvide a list of 3-5 specific safety tips in "
  const SafetyClosing := ". Return ONLY a JSON array of strings."
  const Period := "."

  /** The ingredient line of the recipe prompt. */
  function IngredientText(ingredients: seq<string>): (r: string)
    ensures |ingredients| == 0 ==> r == NotSpecified
    ensures |ingredients| > 0 ==> r == Join(ingredients, ", ")
    ensures forall i :: 0 <= i < |ingredients| ==> IsInfix(ingredients[i], r)
  {
    if |ingredients| > 0 then
      assert forall i :: 0 <= i < |ingredients| ==> IsInfix(ingredients[i], Join(ingredients, ", ")) by {
        forall i | 0 <= i < |ingredients| {
          ItemInJoin(ingredients, ", ", i);
        }
      }
      Join(ingredients, ", ")
    else NotSpecified
  }

  /** The feedback line of the recipe prompt: empty feedback is replaced by a neutral instruction. */
  function FeedbackText(feedback: string): (r: string)
    ensures r != ""
    ensures feedback != "" ==> r == feedback
    ensures feedback == "" ==> r == NoFeedback
  {
    if feedback != "" then feedback else NoFeedback
  }

  /** The arguments of `generateRecipes`. */
  datatype GenerationParams = GenerationParams(
    recipeName: string,
    feedback: string,
    ingredients: seq<string>,
    cookingMethod: string,
    utensil: string,
    language: Lang)

  datatype RecipeRequest = RecipeRequest(systemInstruction: string, prompt: string)

  /** What both recipe-request texts are promised to contain. */
  ghost predicate RequestMentions(req: RecipeRequest, p: GenerationParams) {
    && IsInfix(p.cookingMethod, req.systemInstruction)
    && IsInfix(p.utensil, req.systemInstruction)
    && IsInfix(LanguageName(p.language), req.systemInstruction)
    && IsInfix(p.recipeName, req.prompt)
    && IsInfix(FeedbackText(p.feedback), req.prompt)
    && IsInfix(IngredientText(p.ingredients), req.prompt)
    && IsInfix(p.cookingMethod, req.prompt)
    && IsInfix(p.utensil, req.prompt)
    && IsInfix(LanguageName(p.language), req.prompt)
  }

  /** The system instruction; only the pieces that vary with the parameters are spelled out. */
  function SystemInstruction(p: GenerationParams): (r: string)
    ensures IsInfix(p.cookingMethod, r)
    ensures IsInfix(p.utensil, r)
    ensures IsInfix(LanguageName(p.language), r)
  {
    var parts := [
      SystemOpening,
      p.cookingMethod, SystemUtensil, p.utensil,
      SystemLanguage, LanguageName(p.language), Period];
    PartInConcat(parts, 1);
    PartInConcat(parts, 3);
    PartInConcat(parts, 5);
    Concat(parts)
  }

  /** The user prompt; only the pieces that vary with the parameters are spelled out. */
  function UserPrompt(p: GenerationParams): (r: string)
    ensures IsInfix(p.recipeName, r)
    ensures IsInfix(FeedbackText(p.feedback), r)
    ensures IsInfix(IngredientText(p.ingredients), r)
    ensures IsInfix(p.cookingMethod, r)
    ensures IsInfix(p.utensil, r)
    ensures IsInfix(LanguageName(p.language), r)
  {
    var parts := [
      PromptName, p.recipeName,
      PromptFeedback, FeedbackText(p.feedback),
      PromptIngredients, IngredientText(p.ingredients),
      PromptEquipment, p.cookingMethod,
      PromptUtensil, p.utensil,
      PromptLanguage, LanguageName(p.language), Period];
    PartInConcat(parts, 1);
    PartInConcat(parts, 3);
    PartInConcat(parts, 5);
    PartInConcat(parts, 7);
    PartInConcat(parts, 9);
    PartInConcat(parts, 11);
    Concat(parts)
  }

  /** Why recipe generation throws. */
  datatype GenError =
    | NameRequired
    | EmptyResult
    | Unparsable
    | BackendError(message: string)

  /** The backend's answer to a text request: the reply's `text`, or a thrown transport error. */
  datatype TextReply = Answered(text: Option<string>) | TransportError(message: string)

  /** The request sent (if any) and what `generateRecipes` returns or throws. */
  datatype RecipeCall = RecipeCall(request: Option<RecipeRequest>, result: Result<RecipeResponse, GenError>)

  /**
   * `generateRecipes`: refuses an empty name before contacting the backend;
   * otherwise sends one request and turns the reply into the parsed envelope.
   */
  function GenerateRecipes(p: GenerationParams, reply: TextReply, decode: string -> Option<RecipeResponse>): (c: RecipeCall)
    ensures c.request.None? <==> p.recipeName == ""
    ensures p.recipeName == "" ==> c.result == Failure(NameRequired)
    ensures p.recipeName != "" && reply.TransportError? ==> c.result == Failure(BackendError(reply.message))
    ensures (p.recipeName != "" && reply.Answered? && (reply.text.None? || reply.text.value == ""))
              ==> c.result == Failure(EmptyResult)
    ensures (p.recipeName != "" && reply.Answered? && reply.text.Some? && reply.text.value != ""
             && decode(reply.text.value).None?) ==> c.result == Failure(Unparsable)
    ensures (p.recipeName != "" && reply.Answered? && reply.text.Some? && reply.text.value != ""
             && decode(reply.text.value).Some?) ==> c.result == Success(decode(reply.text.value).value)
    ensures c.result.Success? ==>
              reply.Answered? && reply.text.Some? && decode(reply.text.value) == Some(c.result.value)
  {
    if p.recipeName == "" then RecipeCall(None, Failure(NameRequired))
    else
      var request := RecipeRequest(SystemInstruction(p), UserPrompt(p));
      var result :=
        match reply
        case TransportError(m) => Failure(BackendError(m))
        case Answered(text) =>
          if text.None? || text.value == "" then Failure(EmptyResult)
          else
            match decode(text.value)
            case None => Failure(Unparsable)
            case Some(resp) => Success(resp);
      RecipeCall(Some(request), result)
  }

  /** Both texts of a request that is sent mention every parameter the user chose. */
  lemma RecipeRequestMentions(p: GenerationParams, reply: TextReply, decode: string -> Option<RecipeResponse>)
    ensures var c := GenerateRecipes(p, reply, decode);
      c.request.Some? ==> RequestMentions(c.request.value, p)
  {
    if p.recipeName != "" {
      var req := GenerateRecipes(p, reply, decode).request.value;
      assert req == RecipeRequest(SystemInstruction(p), UserPrompt(p));
    }
  }

  const ImageIngredientLimit: nat := 5

  /** The ingredients named in the image prompt: the first five, in their original order. */
  function ImageIngredients(ingredients: seq<string>): (r: seq<string>)
    ensures |r| <= ImageIngredientLimit
    ensures |r| == if |ingredients| < ImageIngredientLimit then |ingredients| else ImageIngredientLimit
    ensures forall i :: 0 <= i < |r| ==> r[i] == ingredients[i]
  {
    Take(ingredients, ImageIngredientLimit)
  }

  datatype ImageRequest = ImageRequest(prompt: string, aspectRatio: string)

  /** The image prompt; only the pieces that vary with the recipe are spelled out. */
  function ImagePrompt(name: string, ingredients: seq<string>): (r: string)
    ensures IsInfix(name, r)
    ensures forall i :: 0 <= i < |ImageIngredients(ingredients)| ==> IsInfix(ingredients[i], r)
  {
    var shown := ImageIngredients(ingredients);
    var list := Join(shown, ", ");
    var parts := [ImageOpening, name, ImageIngredientsLabel, list,
                  ImageStyle];
    PartInConcat(parts, 1);
    PartInConcat(parts, 3);
    assert forall i :: 0 <= i < |shown| ==> IsInfix(ingredients[i], Concat(parts)) by {
      forall i | 0 <= i < |shown|
        ensures IsInfix(ingredients[i], Concat(parts))
      {
        ItemInJoin(shown, ", ", i);
        InfixTransitive(shown[i], list, Concat(parts));
      }
    }
    Concat(parts)
  }

  /** An `inlineData` payload of a reply part. */
  datatype InlineData = InlineData(mimeType: string, data: string)

  datatype Part = Part(text: Option<string>, inlineData: Option<InlineData>)

  /**
   * The backend's answer to an image request: the first candidate's parts,
   * no candidate (or no content) at all, or a thrown transport error.
   */
  datatype ImageReply = Candidate(parts: seq<Part>) | NoCandidate | ImageTransportError(message: string)

  datatype ImageError = NoImageData | ImageBackendError(message: string)

  datatype ImageCall = ImageCall(request: ImageRequest, result: Result<string, ImageError>)

  /** The self-describing `data:` reference to an inline image. */
  function DataUri(d: InlineData): (u: string)
    ensures |u| > 5 && u[..5] == "data:"
  {
    "data:" + d.mimeType + ";base64," + d.data
  }

  /** The position of the first part that carries inline data. */
  function FirstInline(parts: seq<Part>): (r: Option<nat>)
    ensures r.Some? ==> r.value < |parts| && parts[r.value].inlineData.Some?
    ensures r.Some? ==> forall j :: 0 <= j < r.value ==> parts[j].inlineData.None?
    ensures r.None? ==> forall j :: 0 <= j < |parts| ==> parts[j].inlineData.None?
  {
    if |parts| == 0 then None
    else if parts[0].inlineData.Some? then Some(0)
    else
      match FirstInline(parts[1..])
      case None => None
      case Some(k) => Some(k + 1)
  }

  /** The loop over the reply's parts: the first inline part becomes a `data:` URI. */
  function ExtractImage(parts: seq<Part>): (r: Result<string, ImageError>)
    ensures r.Success? <==> exists i :: 0 <= i < |parts| && parts[i].inlineData.Some?
    ensures r.Success? ==>
              exists i :: (0 <= i < |parts| && parts[i].inlineData.Some?
                           && (forall j :: 0 <= j < i ==> parts[j].inlineData.None?)
                           && r.value == DataUri(parts[i].inlineData.value))
    ensures r.Failure? ==> r.error == NoImageData
  {
    match FirstInline(parts)
    case None => Failure(NoImageData)
    case Some(i) => Success(DataUri(parts[i].inlineData.value))
  }

  /** `generateRecipeImage`: always one request, at aspect ratio 4:3. */
  function GenerateImage(name: string, ingredients: seq<string>, reply: ImageReply): (c: ImageCall)
    ensures IsInfix(name, c.request.prompt) && c.request.aspectRatio == "4:3"
    ensures reply.ImageTransportError? ==> c.result == Failure(ImageBackendError(reply.message))
    ensures reply.NoCandidate? ==> c.result == Failure(NoImageData)
    ensures reply.Candidate? ==> c.result == ExtractImage(reply.parts)
  {
    var request := ImageRequest(ImagePrompt(name, ingredients), "4:3");
    match reply
    case ImageTransportError(m) => ImageCall(request, Failure(ImageBackendError(m)))
    case NoCandidate => ImageCall(request, ExtractImage([]))
    case Candidate(parts) => ImageCall(request, ExtractImage(parts))
  }

  /** The first position of `c` in `s`. */
  function IndexOf(s: string, c: char): (r: Option<nat>)
    ensures r.Some? ==> r.value < |s| && s[r.value] == c && c !in s[..r.value]
    ensures r.None? ==> c !in s
  {
    if |s| == 0 then None
    else if s[0] == c then Some(0)
    else
      match IndexOf(s[1..], c)
      case None => None
      case Some(k) =>
        assert s[..k + 1] == [s[0]] + s[1..][..k];
        Some(k + 1)
  }

  /** Reads the MIME type and payload back out of a `data:` reference. */
  function ParseDataUri(u: string): Option<InlineData> {
    if |u| < 5 || u[..5] != "data:" then None
    else
      var rest := u[5..];
      var k :- IndexOf(rest, ';');
      if |rest| - k >= 8 && rest[k..k + 8] == ";base64," then Some(InlineData(rest[..k], rest[k + 8..]))
      else None
  }

  /** The data reference is self-describing: its MIME type and payload can be read back. */
  lemma DataUriRoundTrip(d: InlineData)
    requires ';' !in d.mimeType
    ensures ParseDataUri(DataUri(d)) == Some(d)
  {
    var u := DataUri(d);
    var rest := u[5..];
    assert rest == d.mimeType + ";base64," + d.data;
    assert rest[|d.mimeType|] == ';';
    assert rest[..|d.mimeType|] == d.mimeType;
    var k := IndexOf(rest, ';');
    assert k == Some(|d.mimeType|);
    assert rest[|d.mimeType| + 8..] == d.data;
  }

  /** The safety prompt; only the pieces that vary with the recipe are spelled out. */
  function SafetyPrompt(name: string, ingredients: seq<string>, steps: seq<string>, language: Lang): (r: string)
    ensures IsInfix(name, r)
    ensures IsInfix(Join(ingredients, ", "), r)
    ensures IsInfix(Join(steps, " "), r)
    ensures IsInfix(LanguageName(language), r)
  {
    var parts := [SafetyOpening, name,
                  SafetyIngredients, Join(ingredients, ", "),
                  SafetySteps, Join(steps, " "),
                  SafetyLanguage, LanguageName(language),
                  SafetyClosing];
    PartInConcat(parts, 1);
    PartInConcat(parts, 3);
    PartInConcat(parts, 5);
    PartInConcat(parts, 7);
    Concat(parts)
  }

  datatype SafetyCall = SafetyCall(prompt: string, tips: seq<string>)

  /**
   * `generateSafetyTips`: never throws. A transport or parse failure
   * yields the single fallback tip; an empty reply text parses as `"[]"`.
   */
  function GenerateSafetyTips(
    name: string, ingredients: seq<string>, steps: seq<string>, language: Lang,
    reply: TextReply, decode: string -> Option<seq<string>>): (c: SafetyCall)
    ensures IsInfix(name, c.prompt) && IsInfix(LanguageName(language), c.prompt)
    ensures reply.TransportError? ==> c.tips == [SafetyFallback]
    ensures reply.Answered? && (reply.text.None? || reply.text.value == "") ==> c.tips == []
    ensures reply.Answered? && reply.text.Some? && reply.text.value != "" ==>
              c.tips == decode(reply.text.value).GetOr([SafetyFallback])
  {
    var prompt := SafetyPrompt(name, ingredients, steps, language);
    match reply
    case TransportError(_) => SafetyCall(prompt, [SafetyFallback])
    case Answered(text) =>
      if text.None? || text.value == "" then SafetyCall(prompt, [])
      else
        match decode(text.value)
        case None => SafetyCall(prompt, [SafetyFallback])
        case Some(tips) => SafetyCall(prompt, tips)
  }
}
