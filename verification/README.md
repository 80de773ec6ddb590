# Chef em Casa — a verified model of the recipe generator's core

Chef em Casa is a single-page React application. The user names a dish,
lists the ingredients at hand, and picks a cooking method, a utensil and an
interface language. A generative backend answers with three variations of
the recipe (Easy, Medium, Hard), each with metadata drawn from fixed
vocabularies. Recipes can be saved to a notebook kept in the browser's
storage, renamed, removed and remixed back into the form. They can also be
enriched on demand with a generated photo and with safety tips.

This project models that core in Dafny:

- **Text** — the pieces of JavaScript string behaviour the application relies on: the `\s` class, `trim`, ASCII `toLowerCase`, `join`, `slice(0, n)`, and an "occurs in" relation.
- **Types** — `Difficulty`, `Recipe`, the response envelope, the eight interface languages, and the effects a handler issues: parent callbacks, backend requests, alerts.
- **Schema** — the structured-output contract sent with the generation request, as a predicate over parsed JSON. Objects may carry members the schema does not name. A member-by-member decoder is proved to accept exactly the conforming values. Decoder and encoder are proved inverse up to the members outside the schema, which decoding drops.
- **Service** — the three backend operations:
  - `generateRecipes`: the empty-name refusal, what the request texts contain, and the error paths;
  - `generateRecipeImage`: the first inline image part becomes a `data:` reference;
  - `generateSafetyTips`: never fails, with a fallback tip.

  Backend replies and `JSON.parse` are inputs.
- **App** — the application state and every handler of the top-level component, each as one step from state to state. The invariant has five parts: notebook identities are unique, the ingredient list has no repeats, the storage slot mirrors the notebook, the method and utensil are picker keys, and a request is recorded exactly while a generation runs. Every user action preserves the invariant, with one exception: a remix copies the recipe's ingredients as they are, so the invariant is proved only for remixes of recipes whose ingredients do not repeat. While a generation runs, the form's controls are disabled and change nothing. The generate click fixes the request's arguments, language included, and the completion answers that request, whatever the user does in between.
- **NameEditor**, **RecipeCard**, **MiniCard**, **Notebook**, **IngredientForm**, **ImageModal** — the components' handlers. Each returns its new local state plus the effects it issues. The model proves:
  - enrichment is reused once present;
  - at most one photo request and one tips request are in flight on a card;
  - a rename made elsewhere is kept by the full card's editor, but the notebook card's editor can undo it (see Findings);
  - the open recipe in the notebook overlay stays in step with the notebook;
  - an enabled generate button never hits the missing-name error;
  - the download name is computed correctly by a one-pass scan.

Two behaviours of the code are modelled as written:

- Safety tips are requested in English or Spanish only when the interface is in one of those languages; every other interface language gets Portuguese (`RecipeCard.SafetyLanguageOfInterface`).
- The notebook's count badge always uses a Portuguese noun.

The application never checks a reply against the schema: it casts the parsed text (services/geminiService.ts:140). `Schema` therefore states the contract the cast relies on. The service model takes `decode` as a parameter. Its `None` covers two cases. Either `JSON.parse` threw, or the parsed value has no `recipes` array. The service returns such a value, `data.recipes.map` then throws in the application (App.tsx:141), and the application shows the same error (App.tsx:146-147).

## Model

| member | source | states |
|---|---|---|
| Text.IsSpace | components/IngredientInput.tsx:42 | the white-space class `trim` strips: the ASCII blanks, no-break space, the Unicode space separators, line and paragraph separators and the byte-order mark |
| Text.Trim | components/IngredientInput.tsx:42-43 | `trim` yields the empty string iff the input is all `\s` white space; otherwise the result neither starts nor ends with white space and is the input minus white-space prefix and suffix |
| Text.TrimIdempotent | components/RecipeCard.tsx:111-112 | trimming an already trimmed name changes nothing |
| Text.LowerAll | components/ImageModal.tsx:48 | `toLowerCase` keeps the length and lowers each character position by position |
| Text.Take | services/geminiService.ts:149 | `slice(0, n)` is the prefix of length min(n, length) |
| Text.Join | services/geminiService.ts:81 | `join(sep)`: an empty list gives the empty text, one item gives that item, more items are separated by `sep` |
| Text.ItemInJoin | services/geminiService.ts:81 | every item of a list occurs in the joined text |
| Types.DifficultyName | types.ts:2-6 | every difficulty's string value is one of "Easy", "Medium", "Hard" |
| Types.ParseDifficulty | types.ts:2-6 | a string names a difficulty iff it is one of the three enum values, and it names the one whose value it is |
| Types.DifficultyRoundTrip | types.ts:2-6 | the enum's string value reads back as the same difficulty |
| Types.DifficultyNamesDistinct | types.ts:2-6 | the three enum values are distinct, so the value determines the difficulty |
| Schema.RecipeConforms | services/geminiService.ts:16-49 | an item is an object holding all fourteen required properties with the declared types and enum values; other members are allowed |
| Schema.Conforms | services/geminiService.ts:9-54 | a reply is an object whose required `recipes` member is an array of conforming items; other members are allowed |
| Schema.DecodeRecipes | services/geminiService.ts:12-51 | the `recipes` array decodes iff every item does, position by position, with the same length |
| Schema.Decode | services/geminiService.ts:9-54 | a reply is read through its `recipes` member, item by item; a missing member, a non-array or a bad item gives nothing, and other members are ignored |
| Schema.Encode | services/geminiService.ts:9-54 | a reply is written as an object whose one member `recipes` holds the encoded items in order |
| Schema.EncodedConforms | services/geminiService.ts:16-49 | a recipe with all required metadata from the enum lists encodes to an item the schema admits |
| Schema.RecipeRoundTrip | services/geminiService.ts:16-49 | such a recipe survives encoding then decoding unchanged |
| Schema.RecipeDecodeEncode | services/geminiService.ts:16-49 | every conforming item decodes, and is the encoding of the recipe it yields once its members outside the schema are dropped, and exactly that encoding when it has none |
| Schema.DecodedIsGenerated | services/geminiService.ts:35-49 | a conforming item yields a recipe with all five metadata fields present and from their lists, and with no id, image or tips |
| Schema.RecipeConformsIffDecodes | services/geminiService.ts:16-49 | the member-by-member reader accepts an item iff the schema predicate admits it, and what it reads has all metadata and no id, image or tips |
| Schema.ExtraMemberIgnored | services/geminiService.ts:16-49 | a member the schema does not name changes nothing about what an item decodes to |
| Schema.DecodeEncode | services/geminiService.ts:9-54 | a reply of well-shaped recipes survives encoding then decoding |
| Schema.EncodeDecode | services/geminiService.ts:9-54 | every reply that decodes is the encoding of what it decodes to, up to the members the schema does not describe |
| Schema.ConformsIffDecodes | services/geminiService.ts:9-54 | a whole reply conforms to the schema iff it decodes |
| Schema.FreshlyGeneratedShape | types.ts:8-32 | every recipe of a conforming reply carries all metadata and lacks the fields attached later (id, imageUrl, safetyTips) |
| Schema.RejectsUnknownDifficulty | services/geminiService.ts:20 | an item whose difficulty is not one of the three enum values does not decode |
| Schema.RejectsMissingField | services/geminiService.ts:49 | an item missing any required property does not decode |
| Service.LanguageNameInjective | services/geminiService.ts:57-66 | the eight languages have eight different names, so a prompt names the wanted language unambiguously |
| Service.IngredientText | services/geminiService.ts:81 | an empty list becomes "Not specified"; otherwise the comma-joined list, which contains every ingredient |
| Service.FeedbackText | services/geminiService.ts:83 | empty feedback becomes the neutral instruction, other feedback passes through, and the result is never empty |
| Service.SystemInstruction | services/geminiService.ts:85-110 | the system instruction mentions the cooking method, the utensil and the language name |
| Service.UserPrompt | services/geminiService.ts:112-120 | the prompt mentions the name, the feedback line, the ingredient line, method, utensil and language name |
| Service.GenerateRecipes | services/geminiService.ts:68-144 | an empty name fails with no request sent; otherwise one request is sent; a transport error, an empty or absent text, and an unparsable text each fail with their own error; a non-empty text that parses gives success with exactly the parsed reply, and success arises only that way |
| Service.RecipeRequestMentions | services/geminiService.ts:84-120 | every request that is sent mentions all the user's parameters |
| Service.ImageIngredients | services/geminiService.ts:149 | the image prompt names at most five ingredients: the first ones, in order |
| Service.ImagePrompt | services/geminiService.ts:149-155 | the image prompt mentions the recipe name and each of the first five ingredients |
| Service.FirstInline | services/geminiService.ts:172-176 | finds the first part that carries inline data, or reports that none does |
| Service.ExtractImage | services/geminiService.ts:172-184 | succeeds iff some part carries inline data, with the `data:` reference of the first such part; otherwise fails with "no image data" |
| Service.DataUri | services/geminiService.ts:174 | every photo reference starts with the `data:` scheme, so it is a truthy, non-empty `imageUrl` |
| Service.GenerateImage | services/geminiService.ts:147-189 | one request at aspect ratio 4:3 whose prompt mentions the name; transport errors propagate; a reply without candidates fails with "no image data" |
| Service.IndexOf | services/geminiService.ts:174 | the first position of a character, or its absence |
| Service.DataUriRoundTrip | services/geminiService.ts:174 | the `data:` reference built from an inline part reads back as the same MIME type and payload |
| Service.SafetyPrompt | services/geminiService.ts:198-207 | the safety prompt mentions the name, the comma-joined ingredients, the space-joined steps and the language name |
| Service.GenerateSafetyTips | services/geminiService.ts:191-226 | never fails: a transport or parse failure yields the single fallback tip; an empty or absent text parses as an empty list; otherwise the parsed list |
| Translations.SaveButtonLabelInjective | constants/translations.ts:158-711 | the eight save-button labels are pairwise different, so the label determines the interface language |
| App.Initial | App.tsx:18-34 | the application starts on the generator with an empty form, no results, no error, Portuguese, the default method and utensil among the pickers' keys, an empty notebook and an unwritten storage slot; this state satisfies the invariant |
| App.WriteSaved | App.tsx:84-87 | the list becomes the notebook and the storage slot holds the same list; nothing else changes |
| App.Save | App.tsx:89-93 | a recipe whose id is already saved changes nothing; otherwise it is prepended and stored; afterwards the id is in the notebook |
| App.SaveIdempotent | App.tsx:89-93 | saving twice is saving once |
| App.SavePreservesUnique | App.tsx:89-93 | saving keeps notebook ids unique |
| App.SaveLeavesOneEntry | App.tsx:89-93 | after saving, however often, exactly one notebook entry has that id |
| App.FilterOut | App.tsx:96 | the filter keeps exactly the entries with a different id, in order; an absent id changes nothing |
| App.FilterOutAppend | App.tsx:96 | the filter distributes over concatenation, so the relative order of kept entries is preserved |
| App.FilterOutCounts | App.tsx:96 | the filter keeps each entry without the id exactly as often as it occurs, and no entry with it |
| App.Remove | App.tsx:95-97 | the notebook becomes the id filter of the old one: every entry with the id is gone, every other entry is kept as often as it occurred and in order; the result is stored |
| App.RemoveAfterSave | App.tsx:89-97 | removing a recipe just saved restores the previous notebook exactly |
| App.RemovePreservesUnique | App.tsx:95-97 | removing keeps notebook ids unique |
| App.ReplaceById | App.tsx:103-104 | the map keeps length and every id position by position; entries with the update's id become the update, the others stay |
| App.Update | App.tsx:100-112 | the working list is always mapped; the notebook is mapped and stored only when it holds the id, and is otherwise untouched |
| App.UpdatePropagates | App.tsx:100-112 | the update appears in each list that held its id, and a working list without the id is unchanged |
| App.UpdatePreservesUnique | App.tsx:100-112 | updating keeps notebook ids unique |
| App.Remix | App.tsx:115-122 | the form takes the recipe's name and ingredients, the feedback and results are cleared, and the generator is shown; nothing else changes |
| App.AddIngredient | App.tsx:124-128 | the ingredient is in the list afterwards; a repeat changes nothing, a new one is appended; a repeat-free list stays repeat-free |
| App.DropIndex | App.tsx:131 | the index filter deletes exactly that position; any index outside the list changes nothing |
| App.RemoveIngredient | App.tsx:130-132 | removing a valid position shortens the list by one, through the index filter, and nothing else changes |
| App.RemoveIngredientPreservesNoDuplicates | App.tsx:130-132 | removing a position keeps a repeat-free list repeat-free |
| App.StartGenerate | App.tsx:134-139 | while the request is pending: loading, no error, no results, and the request's arguments are those of the click |
| App.AssignIds | App.tsx:141-144 | each result gets the fresh identifier of its position; no other field changes |
| App.Generate | App.tsx:134-151 | loading ends and no request is pending; on success the results are the service's recipes with fresh ids and the error is cleared; on any failure the error is the `error` text of the request's language and there are no results; nothing else changes |
| App.GeneratedIdsFresh | App.tsx:141-144 | with a non-repeating identifier supply, generated results have distinct ids, none of them already in the notebook |
| App.GeneratedFollowSchema | App.tsx:138-144 | when replies are parsed and read against the generation schema, each result carries its fresh id and otherwise has all metadata from the fixed lists and no image or tips |
| App.ChangeLanguage | App.tsx:165-171 | the language changes and the results are empty afterwards; nothing else changes |
| App.Startup | App.tsx:72-81 | a stored value that is present, non-empty and parses becomes the notebook; otherwise the notebook is empty; everything else is the initial state |
| App.StartupValid | App.tsx:72-81 | startup from a stored list with unique ids yields a state satisfying the invariant |
| App.Valid | App.tsx:84-151 | the invariant: unique notebook ids, a repeat-free ingredient list, a storage slot that, once written, holds the notebook, a method and utensil that are picker keys, and a recorded request exactly while loading |
| App.Apply | components/IngredientInput.tsx:55-203 | each user action dispatches to its handler; the form's actions do nothing while a generation runs, the pickers hand on only option keys, the generate click does nothing for a blank name, and a completion answers the running request |
| App.FormLockedWhileLoading | components/IngredientInput.tsx:81-203 | while a generation runs, typing, picking, adding, removing ingredients and clicking generate change nothing |
| App.RequestUsesKeys | components/IngredientInput.tsx:55-63 | in every valid state the generation request names the method and utensil by their picker keys |
| App.ApplyPreservesValid | App.tsx:84-171 | every user action preserves the invariant (unique notebook ids, repeat-free ingredients, storage mirroring the notebook once written, picker keys, a request recorded exactly while loading); a remix must bring repeat-free ingredients |
| App.ClickStarts | components/IngredientInput.tsx:203 | an enabled generate click starts a generation |
| App.InFlightKept | App.tsx:216-220 | every action other than the completion, a language change included, leaves a running generation running with the same request |
| App.InFlightKeptAll | App.tsx:134-151 | any run of actions without a completion keeps the running request |
| App.CompletionAnswersPending | App.tsx:134-151 | a completion answers the running request |
| App.CompletionAnswersClick | App.tsx:134-151 | whatever actions come between the click and the reply, the completion answers the click's request, and a failure shows the error text of the click's language |
| NameEditor.Closed | components/RecipeCard.tsx:43-44 | a card's editor starts closed with the recipe's name as its draft |
| NameEditor.Commit | components/RecipeCard.tsx:110-115 | the update callback receives the recipe renamed to the trimmed draft iff that differs from the name and a callback exists; editing always ends |
| NameEditor.KeyDown | components/RecipeCard.tsx:117-125 | Enter commits; Escape restores the name and closes without any effect; other keys do nothing |
| NameEditor.CommitSettles | components/RecipeCard.tsx:110-115 | a committed name is already trimmed, only the name changed, and committing the same draft again issues nothing |
| NameEditor.BlankDraftRenamesToEmpty | components/RecipeCard.tsx:110-115 | a draft of only white space renames a named recipe to the empty name |
| RecipeCard.Initial | components/RecipeCard.tsx:35-44 | a card starts with its editor closed and no request or view open |
| RecipeCard.NameChanged | components/RecipeCard.tsx:53-56 | a change of the recipe's name resets the draft to it and leaves the rest of the card as it was |
| RecipeCard.RenameKeepsDraftInStep | components/RecipeCard.tsx:53-56 | after a rename made elsewhere, committing the editor without typing issues no update |
| RecipeCard.SaveClick | components/RecipeCard.tsx:94-101 | a saved recipe is removed and an unsaved one saved, each only when its callback exists; otherwise nothing happens |
| RecipeCard.SaveClickToggles | App.tsx:382-393 | with the saved flag and callbacks the application passes, a click saves an unsaved recipe so that its id is then in the notebook, and removes a saved one so that its id is then gone |
| RecipeCard.RemixClick | components/RecipeCard.tsx:103-108 | remix is requested iff the callback exists |
| RecipeCard.ImageClick | components/RecipeCard.tsx:127-135 | while a photo request runs the disabled button does nothing; otherwise a recipe with a photo opens it with no request, and one without gets a request and the card shows progress |
| RecipeCard.ImageOneRequestInFlight | components/RecipeCard.tsx:131-135 | two photo clicks in a row issue at most one request |
| RecipeCard.ImageDone | components/RecipeCard.tsx:136-149 | progress ends; success opens the photo, changes nothing else on the card, and updates the recipe with only its photo changed; failure alerts and updates nothing |
| RecipeCard.ImageCachedAfterSuccess | components/RecipeCard.tsx:129-143 | after a successful photo request, only the photo field changed and the next click asks the backend for nothing |
| RecipeCard.GuessLanguage | components/RecipeCard.tsx:161-163 | the language is English iff the save label is the English one, Spanish iff it is the Spanish one, otherwise Portuguese |
| RecipeCard.SafetyLanguageOfInterface | constants/translations.ts:158-711 | over the eight save labels, tips come in the interface language for pt, en and es, and in Portuguese for the other five |
| RecipeCard.SafetyClick | components/RecipeCard.tsx:152-165 | while a tips request runs the disabled button does nothing; otherwise non-empty cached tips are shown with no request, and missing or empty tips are requested in the guessed language |
| RecipeCard.SafetyOneRequestInFlight | components/RecipeCard.tsx:154-165 | two safety clicks in a row issue at most one request |
| RecipeCard.SafetyDone | components/RecipeCard.tsx:165-176 | progress ends and the tips view opens, with nothing else on the card changed; the recipe with the tips attached goes to the update callback when there is one |
| RecipeCard.SafetyCachedIffNonEmpty | components/RecipeCard.tsx:154-171 | after a request, the next click is served from the recipe iff the tips are non-empty; a transport failure caches the fallback; an empty reply is asked again |
| MiniCard.Initial | components/RecipeMiniCard.tsx:17-19 | a mini card starts with its editor closed and no request running |
| MiniCard.StartEditing | components/RecipeMiniCard.tsx:37-40 | opening the editor keeps the draft and the request state |
| MiniCard.StaleDraftUndoesRename | components/RecipeMiniCard.tsx:18 | with no reset of the draft, a rename made elsewhere is undone by opening the editor and committing without typing |
| MiniCard.NameChanged | components/RecipeMiniCard.tsx:18 | the draft follows a change of the recipe's name, keeping the editor open or closed as it was |
| MiniCard.SyncedDraftKeepsRename | components/RecipeMiniCard.tsx:37-49 | with the draft kept in step, opening the editor and committing without typing after a rename issues no update |
| MiniCard.SaveName | components/RecipeMiniCard.tsx:42-49 | the mini card commits through the shared editor, and editing ends |
| MiniCard.KeyDown | components/RecipeMiniCard.tsx:51-63 | Enter commits, Escape restores the name with no effect, other keys do nothing |
| MiniCard.ImageClick | components/RecipeMiniCard.tsx:69-73 | nothing happens when the recipe has a photo or a request is running; otherwise one request starts |
| MiniCard.ImageDone | components/RecipeMiniCard.tsx:74-83 | the request ends; success updates the photo when a callback exists; failure is silent |
| MiniCard.OneRequestInFlight | components/RecipeMiniCard.tsx:71-73 | two clicks in a row issue at most one request |
| MiniCard.NoRequestAfterSuccess | components/RecipeMiniCard.tsx:69-78 | once a request succeeded, the updated recipe's button requests nothing more |
| MiniCard.ShownTags | components/RecipeMiniCard.tsx:232 | at most three diet tags are shown, the first ones in order; none when the field is absent |
| Notebook.SelectedId | components/RecipeNotebook.tsx:24 | the open recipe's id, undefined when nothing is open |
| Notebook.Select | components/RecipeNotebook.tsx:92 | clicking a mini card opens that recipe |
| Notebook.Close | components/RecipeNotebook.tsx:112 | closing the overlay leaves nothing open |
| Notebook.HandleRemove | components/RecipeNotebook.tsx:21-27 | removes through the application and closes the overlay iff it showed that id |
| Notebook.HandleUpdate | components/RecipeNotebook.tsx:29-37 | updates through the application and replaces the open recipe iff it has the updated id |
| Notebook.RemoveKeepsSync | components/RecipeNotebook.tsx:21-27 | after a removal, the open recipe is still a notebook entry |
| Notebook.UpdateKeepsSync | components/RecipeNotebook.tsx:29-37 | after an update, the open recipe is still a notebook entry and shows the update |
| Notebook.SelectKeepsSync | components/RecipeNotebook.tsx:92 | opening a notebook card keeps the overlay in step with the notebook |
| Notebook.CountWord | components/RecipeNotebook.tsx:76-80 | no badge for an empty notebook, "Receita" for exactly one recipe, "Receitas" for more |
| IngredientForm.HandleAdd | components/IngredientInput.tsx:41-46 | a field that is not all white space hands on its trimmed text and empties; a blank field does nothing |
| IngredientForm.HandleKeyDown | components/IngredientInput.tsx:48-52 | Enter adds, other keys do nothing, and the field takes no keys while generating |
| IngredientForm.AddDisabled | components/IngredientInput.tsx:166 | the add button is disabled for a blank field or while generating |
| IngredientForm.GenerateDisabled | components/IngredientInput.tsx:203 | the generate button is disabled for a blank recipe name or while generating |
| IngredientForm.AddedIngredientIsTrimmed | components/IngredientInput.tsx:41-46 | an added ingredient is non-empty and has no white space at either end |
| IngredientForm.AddThroughApp | App.tsx:124-128 | an ingredient added through the form lands in the application's list and keeps it repeat-free |
| IngredientForm.EnabledGenerateHasName | components/IngredientInput.tsx:203 | when the generate button is enabled, the service sends its request and never fails for a missing name |
| IngredientForm.BlankNameStopsAtButton | components/IngredientInput.tsx:203 | a name of only white space, which the service itself would accept, keeps the button disabled |
| ImageModal.Collapse | components/ImageModal.tsx:48 | each white-space run becomes one dash: the result has no white space, is no longer than the input, and a name without white space is unchanged |
| ImageModal.Slug | components/ImageModal.tsx:48 | the name part of the download has no white space and no ASCII capitals, and equals the lowered name when that has no white space |
| ImageModal.DownloadName | components/ImageModal.tsx:48 | the download name has no white space and ends in ".png" |
| ImageModal.SlugFrom | components/ImageModal.tsx:48 | the one-pass scan: a white-space character opens a run that yields one dash, any other character is lowered |
| ImageModal.ScanAgrees | components/ImageModal.tsx:48 | a character-by-character scan gives the same result as collapsing the runs and then lowering |
| ImageModal.DownloadFileName | components/ImageModal.tsx:48 | a single left-to-right pass computes exactly the download name |

## Left out

- Rendering, styling, animations, the dark-mode toggle, the language menu's visibility, scrolling and focus effects: they have no effect on the data.
- The backend SDK is left out: model names, temperature, the MIME type and the schema object sent with each request. Each call is a reply input (`TextReply`, `ImageReply`).
- `JSON.parse`, `JSON.stringify` and the storage API are left out. The storage slot is the list last written in the session, and parsing is an injected function.
- `crypto.randomUUID` is left out. It is an injected identifier supply indexed by position.
- Console logging and the warning about text-only image replies are left out: they are not observable state.
- Asynchronous interleaving is left out. Each handler's start and completion are separate atomic steps. The generation's completion uses the arguments and language of its click, but a completion that reads a notebook captured at an earlier render is not modelled.
- Service.SystemInstruction: states only that the varying pieces occur in the text, not the full template wording, which is instruction text for the backend.
- Service.UserPrompt: states only that the varying pieces occur in the text, not the full template wording.
- Service.ImagePrompt: states only that the name and the first five ingredients occur, not the styling paragraph.
- Service.SafetyPrompt: states only that the varying pieces occur, not the full wording and example list.
- Schema: the "3 variations" requirement and the field descriptions live in the prompt and the descriptions, not in the schema's structure, so `Conforms` does not bound the array length.
- Schema: JSON numbers, booleans and null are represented but never accepted. Duplicate object members collapse to one key.
- Schema.Decode: members the schema does not name are dropped. The application's cast keeps them on the object it returns, so a reply item carrying, say, an `imageUrl` member would keep it.
- Service.GenerateRecipes: text that parses to an envelope whose items lack members, give a member the wrong type, or hold a value outside its list (a difficulty of "Insane", say) cannot be represented. The cast lets such items through as they are, but a `Recipe` has every field, typed, with enum values from the lists. `decode` either yields complete recipes or fails.
- Service.GenerateSafetyTips: text that parses to something other than a list of strings, such as a number or an object, cannot be represented. `JSON.parse` returns it as it is (services/geminiService.ts:220), but the injected parser either yields a list of strings or fails.
- App.ApplyPreservesValid: a remix can bring back repeated ingredients, because `handleRemix` copies the recipe's ingredients as they are (App.tsx:115-122). The invariant is proved only for remixes whose ingredients do not repeat.
- Translations.CookingMethodKeys and Translations.UtensilKeys: these constants are the option keys. What the pickers hand on is typed by them, and their contract is carried by App.Initial, App.ApplyPreservesValid and App.RequestUsesKeys.
- App.Startup: a stored value that parses to something other than a recipe list cannot be represented. The injected parser either fails or yields a list.
- App.StartupValid: loading does not remove duplicate ids. The invariant holds only for a stored list whose ids are unique, which is what the application itself writes.
- RecipeCard.SafetyDone: the handler's catch branch is not modelled, because the safety service returns the fallback tip instead of failing.
- Text.LowerAll: lower-cases ASCII letters only. Unicode case mapping is not modelled.
- Translations: only the save-button labels, the generation error texts and the picker keys are modelled. The other interface strings and the option labels are display text.
- The safety-tips modal and the image modal's markup are left out. Only the download name is modelled.

## Findings

| source | as written | input that shows it | evidently intended | confidence | as-written member | corrected member |
|---|---|---|---|---|---|---|
| components/RecipeMiniCard.tsx:18 | the mini card sets its draft from the name once and never updates it, unlike the full card (components/RecipeCard.tsx:53-56) | open a saved recipe named "Bolo", rename it to "Torta" in the overlay and close it; then click the mini card's pencil and press Enter without typing: the update callback receives the recipe named "Bolo" again | the draft follows the recipe's name, as on the full card, so committing without typing changes nothing | medium; not executed | MiniCard.StaleDraftUndoesRename | MiniCard.NameChanged, MiniCard.SyncedDraftKeepsRename |
