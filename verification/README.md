# Branded page generator core, modelled in Dafny

This project models the logic inside the `App` component of the materials
generator (`src/App.tsx`). The app turns a markdown text into a branded
HTML landing page through a generative model, in one language or in
Portuguese, English and Spanish in turn. It keeps the generated pages as
"materials", and it keeps a library of style prompts. The model is
purely functional. Each Supabase or Gemini call is replaced by an outcome
value passed in as a parameter. Each UI dialog (`prompt`, `confirm`) is
replaced by the string or boolean it would return.

Modules, one per concern of the component:

- `Common` (common.dfy): `Option`, `Result` and the session (`SignedOut` or `SignedIn(userId)`).
- `JsText` (text.dfy): `String.prototype.trim` with the ECMAScript whitespace class, string truthiness, prefix and suffix tests.
  The trimming lemmas are proved once for any character class (`TrimBy`) and then instantiated.
- `Normalize` (normalize.dfy): how the model's reply becomes the page html.
- `Credentials` (credentials.dfy): key selection for a generation, and the merge of stored key rows on sign-in.
- `PromptComposer` (prompt.dfy): the `parts` array sent to the model.
  The literal wording is a `PromptTemplate` value, and `AppTemplate` holds the app's exact text.
- `MaterialStore` (materials.dfy): load, create, optimistic rename with rollback, and two-step delete of materials.
- `BuiltinStyles` (default_prompts.dfy): the twelve `DEFAULT_PROMPTS` entries (titles, descriptions and contents).
- `PromptLibrary` (library.dfy): save a prompt to the library, import the built-in styles, select a style.
- `Orchestrator` (orchestrator.dfy): `generateSinglePage` and `generatePage`, modelled as a fold over the chosen languages.
  The fold records every remote call it issues, in order.
- `DownloadName` (download.dfy): the file name a download gets.
- `AppSession` (session.dfy): what `loadUserData` and the session effect do to the app state.

Where a remote answer decides the behaviour, the contracts cover the failure cases:
- the insert that fails;
- the update that changes zero rows;
- the delete that fails;
- the query that errors.

One answer is not modelled: a style save whose insert returns an empty array (see "## Left out").

## Model

| member | source | states |
|---|---|---|
| JsText.Trim | src/App.tsx:893 | the trimmed string never starts or ends with ECMAScript whitespace and is no longer than the input |
| JsText.TrimIsSlice | src/App.tsx:893 | the trimmed string is the contiguous slice of the input that starts right after its leading whitespace |
| JsText.TrimDropsOnlySpace | src/App.tsx:893 | everything before and after that slice is whitespace, so trimming removes nothing else |
| JsText.TrimFixesTrimmed | src/App.tsx:893 | trimming leaves a string unchanged if and only if it neither starts nor ends with whitespace |
| JsText.TrimIdempotent | src/App.tsx:893 | trimming twice is the same as trimming once |
| JsText.BlankIffAllSpace | src/App.tsx:929 | the `!markdownText.trim()` test holds exactly when every character is whitespace |
| JsText.TrimSplits | src/App.tsx:893 | a string is its `trim()` with a run of whitespace before and after it |
| JsText.TrimDropsSpaceFrame | src/App.tsx:893 | surrounding a string with whitespace on both sides does not change its trim |
| Normalize.StripLeadingFence | src/App.tsx:893 | `^```html` removes the marker only when the reply starts with it, and removes it exactly once |
| Normalize.StripTrailingFence | src/App.tsx:893 | ```` ```$ ```` removes the closing fence only when it is the very end of the reply, and exactly once |
| Normalize.NormalizeResponse | src/App.tsx:892-893 | a missing reply gives the empty page with no error; otherwise the page is trimmed, occurs inside the reply, and is the fence-stripped reply with only whitespace removed at both ends |
| Normalize.BareReplyUnchanged | src/App.tsx:892-893 | a trimmed reply with neither fence marker is returned unchanged |
| Normalize.FenceBlockRoundTrip | src/App.tsx:892-893 | wrapping trimmed markup in a ```` ```html ```` fenced block and normalising gives the markup back |
| Normalize.NotIdempotent | src/App.tsx:893 | only one opening marker is removed: a doubled marker leaves one, so normalising is not idempotent |
| Normalize.TrailingNewlineKeepsClosingFence | src/App.tsx:893 | a fenced block followed by a newline keeps its closing fence, because `$` is matched before trimming |
| Normalize.LeadingSpaceKeepsOpeningFence | src/App.tsx:893 | a reply that starts with whitespace keeps its opening marker, because `^` is matched before trimming |
| Credentials.Resolve | src/App.tsx:850-853 | a non-empty stored key for the provider is used; only Gemini falls back to the environment key; otherwise the credential is missing; a non-Gemini client is built from `apiKeys.gemini`, else the environment key |
| Credentials.ResolveSucceedsIff | src/App.tsx:850-851 | a generation passes the key check exactly when the provider has a key, or it is Gemini and the environment has one |
| Credentials.LastIndex | src/App.tsx:549-553 | it finds the last row stored under a service name: that row carries the name and no later row does |
| Credentials.LastValue | src/App.tsx:549-553 | there is no value for a provider exactly when no row names its service |
| Credentials.ApplyRow | src/App.tsx:549-553 | one row overwrites the key of the provider it names and no other; a row naming no provider changes nothing |
| Credentials.MergeKeys | src/App.tsx:547-555 | after the merge each provider holds the value of the last row naming it, or its previous key when no row does |
| Credentials.LastValueSnoc | src/App.tsx:549-553 | the last value under a name is the final row's when it names the service, else the last among the earlier rows |
| Credentials.MergeKeysFrontFirst | src/App.tsx:549-553 | the merge applies the rows front to back: the first row, then the rest |
| Credentials.UnknownRowsIgnored | src/App.tsx:550 | rows naming no known service leave the keys unchanged |
| Credentials.ProviderNamed | src/App.tsx:550 | a service name denotes a provider exactly when it is one of the four known names |
| PromptComposer.ComposeParts | src/App.tsx:857-882 | there is one text part, plus one `application/pdf` part carrying the brand PDF exactly when `pdfBase64` is truthy; in that case the text ends with the PDF instruction |
| PromptComposer.PdfSentenceIffAttached | src/App.tsx:873-881 | with the app's wording, the text part ends with the PDF sentence if and only if a PDF is attached |
| PromptComposer.PdfOnlyAppends | src/App.tsx:881 | attaching a PDF changes the text part only by appending the PDF sentence |
| PromptComposer.LanguageBeforeStyle | src/App.tsx:857-870 | in the text part, the markdown comes first, then the language and translation lines, then the style prompt |
| PromptComposer.TextPartLayout | src/App.tsx:857-870 | the text starts with the markdown and brand lines, followed directly by the language lines, and after the instruction heading comes the style prompt |
| MaterialStore.Load | src/App.tsx:557-570 | a loaded list replaces the materials row for row, in the store's order; a failed query keeps the list |
| MaterialStore.RowRoundTrip | src/App.tsx:564-569 | mapping a row to a material and back is the identity in both directions |
| MaterialStore.LoadKeepsNewestFirst | src/App.tsx:557-570 | rows ordered newest first give a newest-first list |
| MaterialStore.CreateRequest | src/App.tsx:895-903 | an insert is sent exactly when signed in, with the user's id, the material name and the html |
| MaterialStore.Create | src/App.tsx:895-923 | signed out, or signed in with a stored row, the new material is first and the old list follows; signed in, the stored row's id and time are kept; a failed insert leaves the list unchanged |
| MaterialStore.CreateKeepsOld | src/App.tsx:895-923 | the old list is always the tail of the new one, with at most one material added |
| MaterialStore.CreateKeepsNewestFirst | src/App.tsx:895-923 | prepending a material no older than the first keeps the list newest first |
| MaterialStore.RenameAll | src/App.tsx:775 | exactly the materials with the given id get the new name; the rest stay as they were |
| MaterialStore.Rename | src/App.tsx:764-803 | a blank name only closes the editor; otherwise the editor closes and its text clears; a signed-in failure or zero-row update restores the whole snapshot, reported as a failed call or as no row updated respectively; otherwise the trimmed name is applied |
| MaterialStore.RenameChangesOnlyNames | src/App.tsx:764-803 | a rename keeps the length, ids, order, html and timestamps; only entries with the id can change name, and then to the trimmed name |
| MaterialStore.RenameAllIdempotent | src/App.tsx:775 | renaming twice to the same name is the same as renaming once |
| MaterialStore.RenamedNameIsTrimmed | src/App.tsx:765-775 | a rename that changes the list gives a non-empty, trimmed name |
| MaterialStore.RemoveId | src/App.tsx:749 | a material remains exactly when it was there and its id is not the deleted one |
| MaterialStore.RemoveIdAppend | src/App.tsx:749 | the filter distributes over concatenation, so kept entries keep their relative order |
| MaterialStore.RemoveAbsentId | src/App.tsx:749 | deleting an id no material has changes nothing |
| MaterialStore.RemoveKeepsNewestFirst | src/App.tsx:749 | deleting keeps a newest-first list newest first |
| MaterialStore.RequestDelete | src/App.tsx:730-732 | a delete request only sets the pending id; the list does not change |
| MaterialStore.CancelDelete | src/App.tsx:1650 | cancelling clears the pending id and keeps the list |
| MaterialStore.ConfirmDelete | src/App.tsx:734-756 | no pending id (or an empty one) is a no-op; a signed-in failure keeps both the list and the pending id and reports the error; otherwise the list is filtered by `RemoveId`, so exactly the entries with that id go, and pending is cleared |
| MaterialStore.RequestThenResolve | src/App.tsx:730-756 | signed out, request and confirm remove that id and clear pending; request then cancel restores the state with nothing pending |
| PromptLibrary.AddRequest | src/App.tsx:655-670 | a save is sent exactly when signed in with a truthy title, carrying the current style prompt and the description |
| PromptLibrary.Add | src/App.tsx:654-683 | a stored row is prepended and selected, otherwise the library is unchanged; the alert is the sign-in request exactly when signed out, none exactly for a cancelled title, the error exactly for a failed insert, and success otherwise |
| PromptLibrary.SeedRows | src/App.tsx:692-697 | the import sends twelve rows, the built-in styles in order, each under the user's id |
| PromptLibrary.SeedRequest | src/App.tsx:685-687 | the import is sent exactly when signed in and confirmed |
| PromptLibrary.SeedMessageUndercounts | src/App.tsx:687 | the confirmation text announces 11 styles while 12 rows are inserted |
| PromptLibrary.Seed | src/App.tsx:685-714 | returned rows are prepended in order ahead of the existing library and the selection is kept, otherwise nothing changes; the alert is the sign-in request exactly when signed out, none exactly for a declined import, the error exactly for a failed insert, and success otherwise |
| PromptLibrary.FindById | src/App.tsx:1382 | it finds the first entry with the id, and nothing exactly when no entry has it |
| PromptLibrary.Select | src/App.tsx:1379-1386 | the selected id is always set; a found entry replaces only `systemPrompt` with its content; an unknown id leaves the brand unchanged |
| PromptLibrary.SelectTakesFirstMatch | src/App.tsx:1382-1384 | with duplicate ids, the first matching entry supplies the style prompt |
| PromptLibrary.AddThenSelect | src/App.tsx:672-675 | a saved template is selected at once, and choosing it sets the style prompt to the returned row's content; the save sent the current style prompt |
| PromptLibrary.SeedThenSelect | src/App.tsx:692-706 | after an import, choosing the i-th returned row (no earlier returned row sharing its id) sets the style prompt to that row's content; the i-th row sent is the i-th built-in style |
| Orchestrator.RequestFor | src/App.tsx:853-890 | the request carries the transport key, the composed parts, and the configured model and system instruction |
| Orchestrator.AppRequestUsesFixedModel | src/App.tsx:884-889 | with the application's settings, a generation whose key resolves sends its first request to `gemini-3-flash-preview` under the fixed system instruction, with the transport key |
| Orchestrator.GenerateSingle | src/App.tsx:849-926 | a missing key stops before any call; otherwise exactly one request is sent first; a failed reply stops the step with the list unchanged and the generation error, which is returned exactly then; a reply is normalised, inserted when signed in, and recorded via `Create` |
| Orchestrator.StepKeepsOldTail | src/App.tsx:895-923 | a step keeps the old list as its tail and adds at most one material |
| Orchestrator.StepRecordsPage | src/App.tsx:895-923 | a success that is signed out, or signed in with a stored row, puts a material with the page in front |
| Orchestrator.Steps | src/App.tsx:933-944 | one language runs under the current file name; all runs pt, en, es in that order as `filename-pt`, `filename-en`, `filename-es` |
| Orchestrator.Run | src/App.tsx:936-939 | the steps run in order and the first failure ends the run with that step's error |
| Orchestrator.RunLoop | src/App.tsx:934-939 | the loop over the languages computes the same result as the fold |
| Orchestrator.GenerationKeepsTail | src/App.tsx:895-923 | every generation step keeps the old list as its tail |
| Orchestrator.RunKeepsOldTail | src/App.tsx:936-939 | a run adds at most one material per step and keeps the old list as its tail |
| Orchestrator.RunSplit | src/App.tsx:936-939 | running `a + b` is running `a` and then `b` from where it stopped; a failure in `a` means nothing of `b` runs |
| Orchestrator.RunStopsAtFailure | src/App.tsx:936-950 | a failure at step k keeps what the earlier steps recorded, and no step after k issues a call |
| Orchestrator.RunThree | src/App.tsx:936-939 | a run of three steps, spelled out for each step that can fail |
| Orchestrator.GeneratePage | src/App.tsx:928-954 | blank markdown does nothing; a success shows the last page in the preview and, for all languages, renames the file to `filename-es`; a failure keeps the page, file name and view but keeps recorded materials |
| Orchestrator.StepCalls | src/App.tsx:849-926 | a step past the key check sends its one request, plus one insert under its name when it succeeds signed in |
| Orchestrator.MissingCredentialIssuesNoCall | src/App.tsx:850-851 | with no usable key, generation issues no call, records nothing and reports the missing key, whatever the language choice |
| Orchestrator.SingleLanguageRun | src/App.tsx:942-948 | one language succeeds exactly when the key resolves and the model answers; then it sends one request, inserts under the file name when signed in, and shows the normalised reply |
| Orchestrator.AllLanguagesSteps | src/App.tsx:933-939 | the three-language run is the pt, en and es steps chained; a failing step ends the run with its list, the calls made so far, and its error |
| Orchestrator.GenerationSendsOneRequest | src/App.tsx:849-926 | each successful generation step sends one request for its own language and inserts under its own name when signed in |
| Orchestrator.RunCalls | src/App.tsx:936-939 | a successful run sends one request per step, in step order, and inserts the step names in order when signed in |
| Orchestrator.AllLanguagesCalls | src/App.tsx:933-939 | a successful three-language run sends the pt, en and es requests in that order and inserts `-pt`, `-en`, `-es` when signed in |
| Orchestrator.AllLanguagesRun | src/App.tsx:933-948 | all languages succeed exactly when the key resolves and all three replies arrive; then the calls are in pt, en, es order, the es page is shown, and the file name becomes `filename-es` |
| DownloadName.StripExtension | src/App.tsx:723 | the result is a prefix of the name; what is removed is a `.ext` with no dot or slash after the dot; nothing is removed only when no suffix is such an extension |
| DownloadName.ExtensionIsUnique | src/App.tsx:723 | at most one suffix of a name matches `\.[^/.]+$`, so the replacement is determined |
| DownloadName.NoExtensionWhenNotStripped | src/App.tsx:723 | when the scan finds no dot before the trailing run, no suffix is an extension |
| DownloadName.DownloadName | src/App.tsx:723 | the download name is exactly the name minus its extension followed by `.html` |
| DownloadName.DownloadNameIdempotent | src/App.tsx:723 | renaming an already renamed file changes nothing |
| DownloadName.ReplacesExtension | src/App.tsx:723 | `base.ext` becomes `base.html` |
| DownloadName.NoDotAppendsHtml | src/App.tsx:723 | a name without a dot just gets `.html` appended |
| DownloadName.SlashStopsExtension | src/App.tsx:723 | a dot before a slash is not an extension, so the whole name is kept |
| AppSession.BrandFromRow | src/App.tsx:532-540 | the loaded branding takes the row's colours, description and PDF name, drops the PDF data, and keeps the current style prompt when the row's is empty |
| AppSession.LoadUserData | src/App.tsx:520-586 | signed out, nothing changes; signed in, each of branding, keys, materials and library is replaced exactly when its query succeeded; keys follow the last-row-wins merge |
| AppSession.SessionChanged | src/App.tsx:510-518 | signing out clears the materials and the keys only, keeping branding and library; signing in loads the user's data |
| AppSession.SignOutThenInForgetsPrevious | src/App.tsx:510-570 | after signing out and in, the keys come only from the stored rows and the materials only from the loaded list |
| AppSession.FailedLoadKeepsState | src/App.tsx:520-586 | if every query fails, signing in changes only the session |

## Left out

- React rendering, view animations and modals are UI only. The UI state modelled is the state the core logic sets: the view `generatePage` switches to, the page and file name it shows, the rename editor, the pending delete id and the selected style id.
- The materials tab markup (src/App.tsx:1597-1617) refers to fields that do not exist. It is broken UI, not logic.
- Supabase auth, the auth subscription, and `saveBranding`/`saveApiKeys` are remote plumbing. Every store call appears only as an outcome parameter.
- The `convertToMarkdown` step (the first model call) is left out, and so are all GoogleGenAI calls. A model's reply is an input (`GenOutcome`).
- `FileReader` PDF upload and the Blob/DOM side of `downloadHtml` are host effects. Only the file-name rule is kept.
- `alert`, `prompt` and `confirm` are dialogs. Their answers are parameters. The wording of the alerts is not modelled. For the style library the model keeps which alert is shown (`Notice`). For rename and generation it keeps which error is reported.
- `Math.random` ids and `Date.now` are inputs (`LocalStamp`). The model makes no claim that local ids are unique.
- Parsing `created_at` into a timestamp is not modelled. The row carries the number already.
- The hard-coded project URL and key (src/App.tsx:438-439) do not affect behaviour.
- The `loading` flag and its messages are presentation only.
- A thrown exception inside `loadUserData` only logs, and every query result is already an outcome that may fail, so no separate throw path is modelled.
- JavaScript `in` also accepts inherited property names such as `toString`. Such a row would add an unused property to the key object, which no code reads; the model treats those rows as unknown and ignores them.
- An empty file name is blocked only by the generate button (src/App.tsx:1462). `GeneratePage` accepts any file name, as `generatePage` does.
- PromptLibrary.Add: a save whose insert returns an empty array without an error is not modelled. The app then queues an `undefined` entry in front of the library, which `PromptEntry` cannot represent. It then throws on `data[0].id` and shows the error alert (src/App.tsx:672-679). A save or import answered with no data at all (`AddNoData`, `SeedNoData`) is modelled: nothing changes and success is reported. An import answered with an empty array prepends nothing.
- A material insert (a `.single()` select) whose `data` comes back null without an error is modelled like a failed insert. In both cases the app leaves the list unchanged.
- Credentials.LastValue: its contract states only when a value exists. Which row supplies the value is stated by `LastIndex` and `LastValueSnoc`, and `MergeKeys` is stated through them.
- Code and design differ in a few places, and the model follows the code:
  - The import confirmation says 11 styles but inserts 12.
  - A signed-in generation whose insert fails still returns and shows the page without recording it.
  - A failed delete keeps the pending id.
  - A failed rename restores the whole snapshot taken before the edit.
  - Loading branding drops the PDF data.
  - Signing out keeps the branding, the style library and the selected style.
