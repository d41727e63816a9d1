# CineLaunch TV catalogue — a Dafny model

CineLaunch TV is a small React app that keeps a personal catalogue of video
links. Under its JSX sits a compact state layer, and this project models it:

- **The catalogue store** (`App.tsx`). It holds an ordered movie list, a
  category list, the add/edit form's open state and the search filter.
  Saving an edit replaces the edited id's entries in place. Adding a movie
  puts it at the front. Deleting drops every entry with the id. The visible
  list is a category filter plus a case-insensitive search. On load, the
  saved categories are merged behind the built-in ones without repeats.
- **The add/edit form** (`components/MovieForm.tsx`). This covers the
  initial and edit-prefilled contents, the required-field check, category
  resolution and the record a submission builds. It also covers the AI
  auto-fill merge, which overwrites only non-empty fields.
- **The card** (`components/MovieCard.tsx`). One boolean,
  `isConfirmingDelete`, decides whether a click launches the video and
  whether a delete request is sent. The card also has the poster fallback.
- **The records** (`types.ts`): `Movie`, `DEFAULT_CATEGORIES` and the
  all-optional `AIResponse`.

Files: `wrappers.dfy` (Option), `seqs.dfy` (no-duplicates, subsequence),
`text.dfy` (JavaScript `trim`, `toLowerCase`, `includes`), `types.dfy`,
`catalog.dfy` (the pure list transforms), `app_store.dfy` (class
`CatalogStore`), `movie_form.dfy` (form logic and class `Form`),
`movie_card.dfy` (class `Card` and the handler-sequence model).

Each handler is one atomic state update. Three things are inputs to the
methods: the AI's answer (`Option<AIResponse>`, None for a failed call),
`crypto.randomUUID()` (`freshId`) and `Date.now()` (`now`). The parsed
`localStorage` contents are also inputs, as `Option` values where None means
missing or unparsable.

The add path (App.tsx:49) always prepends and never looks for an existing id,
so it is not an upsert; `SaveNewTwiceDuplicates` shows that adding twice
gives two entries.

## Model

| member | source | states |
|---|---|---|
| `Types.DefaultCategoriesShape` | types.ts:12-21 | the built-in list has eight distinct names; it starts with `Action` (the form's fallback) and contains `Other` (the submit fallback) |
| `Text.Trim` | components/MovieForm.tsx:75 | the trimmed name is no longer than the input and has no whitespace at either end |
| `Text.TrimStartDropsWhitespace` | components/MovieForm.tsx:75 | everything dropped from the front is whitespace |
| `Text.TrimEndDropsWhitespace` | components/MovieForm.tsx:75 | everything dropped from the back is whitespace |
| `Text.TrimSlice` | components/MovieForm.tsx:75 | trim keeps a contiguous slice and removes only whitespace before and after it |
| `Text.TrimEmptyIff` | components/MovieForm.tsx:75 | a name trims to empty exactly when it is all whitespace |
| `Text.TrimIdempotent` | components/MovieForm.tsx:75 | trimming twice is trimming once |
| `Text.ToLower` | App.tsx:73-74 | lower-casing keeps the length and maps each character independently |
| `Text.ToLowerIdempotent` | App.tsx:73-74 | lower-casing twice is lower-casing once |
| `Text.IncludesAt` | App.tsx:73-74 | `includes` holds exactly when the term occurs at some index |
| `Catalog.Ids` | App.tsx:47 | the id list has one entry per movie, position by position |
| `Catalog.ReplaceById` | App.tsx:47 | the edit keeps the length; every position with the edited id holds the saved movie and every other position is unchanged |
| `Catalog.ReplaceKeepsIds` | App.tsx:47 | if the saved movie keeps the edited id, the id list is unchanged, so unique ids stay unique |
| `Catalog.ReplaceAbsentIsNoop` | App.tsx:47 | editing an id that is not listed leaves the list unchanged |
| `Catalog.ReplaceIdempotent` | App.tsx:47 | saving the same edit twice equals saving it once |
| `Catalog.RemoveById` | App.tsx:62 | after delete, a movie is present iff it was present and has another id; the id is gone; the rest keep their relative order |
| `Catalog.RemoveByIdCounts` | App.tsx:62 | delete removes every copy of the id's entries and keeps every other entry as often as it occurred |
| `Catalog.RemoveAbsentIsNoop` | App.tsx:62 | deleting an absent id leaves the list exactly as it was |
| `Catalog.RemoveKeepsUnique` | App.tsx:62 | deleting keeps ids unique |
| `Catalog.RemoveIdempotent` | App.tsx:62 | deleting twice is deleting once |
| `Catalog.IdsOfSubsequence` | App.tsx:62 | the ids of an order-preserving sublist are an order-preserving sublist of the ids |
| `Catalog.SaveMovie` | App.tsx:45-50 | while editing, the list keeps its length and every entry with the edited id becomes the saved movie; otherwise the saved movie is put in front of the unchanged old list |
| `Catalog.SaveNewUnique` | App.tsx:49 | adding keeps ids unique exactly when the new id is not already listed |
| `Catalog.SaveEditKeepsIds` | App.tsx:46-47 | an edit that keeps the edited id leaves the id list and its uniqueness unchanged |
| `Catalog.SaveNewTwiceDuplicates` | App.tsx:45-50 | adding the same movie twice gives two entries with the same id, so the add path is not an upsert |
| `Catalog.Matches` | App.tsx:71-75 | a match is in the active category unless it is `All`; with an empty term the match is the category test alone, and under `All` everything matches |
| `Catalog.Visible` | App.tsx:70-77 | a movie is visible iff it is listed and matches (category `All` or equal; lower-cased term in lower-cased title or description); the visible list keeps list order |
| `Catalog.VisibleCounts` | App.tsx:71-76 | each matching entry is shown as many times as it occurs in the list, and no other entry is shown |
| `Catalog.VisibleAllUnfiltered` | App.tsx:72-74 | category `All` with an empty term shows the whole list unchanged |
| `Catalog.VisibleByCategory` | App.tsx:72 | with an empty term, a category tab shows exactly that category's movies |
| `Catalog.VisibleIgnoresTermCase` | App.tsx:73-74 | lower-casing the term does not change what is shown |
| `Catalog.DedupInto` | App.tsx:27 | the Set-based dedup keeps what was already kept as a prefix; it holds exactly the inputs, adds no repeats, and appends new names in their input order |
| `Catalog.DedupIntoIsFirstSeen` | App.tsx:27 | the dedup appends exactly the first occurrence of each name not yet kept, in first-seen order |
| `Catalog.SubsequenceCons` | App.tsx:27 | an order-preserving sublist stays one when an element is put in front of the whole |
| `Catalog.DedupIntoDistinct` | App.tsx:27 | a list without repeats passes through the dedup unchanged |
| `Catalog.DedupIntoAppend` | App.tsx:27 | deduplicating a concatenation is deduplicating its parts in turn |
| `Catalog.MergeCategories` | App.tsx:27 | the loaded list is the defaults followed by the saved names that are first occurrences and not defaults |
| `Catalog.MergeCategoriesSpec` | App.tsx:27 | the loaded list starts with the defaults in order, has no repeats, holds exactly defaults plus saved names, and keeps the saved names in first-seen order |
| `Catalog.AddCategory` | App.tsx:53-54 | after a save the category is listed; existing entries stay in place, and the list grows by one only when the category was absent |
| `Catalog.AddCategoryKeepsDistinct` | App.tsx:53-54 | adding a category never introduces a repeat |
| `App.CatalogStore.constructor` | App.tsx:8-13 | the first render has no movies, the built-in categories, a closed form, tab `All` and an empty search |
| `App.CatalogStore.LoadSaved` | App.tsx:16-31 | stored movies replace the list; stored categories are merged behind the defaults; a missing or unparsable value leaves its part unchanged; the store invariant holds |
| `App.CatalogStore.AddOrUpdateMovie` | App.tsx:45-59 | the list is updated by edit-in-place or prepend; the category is appended if new; the form closes with no movie being edited; the invariant holds |
| `App.CatalogStore.DeleteMovie` | App.tsx:61-63 | the list loses every entry with the id and nothing else changes |
| `App.CatalogStore.EditClick` | App.tsx:65-68 | the form opens on the clicked movie |
| `App.CatalogStore.OpenAddForm` | App.tsx:105-108 | the form opens blank |
| `App.CatalogStore.OpenFormFromEmptyState` | App.tsx:153 | only the open flag is set, yet the form opens blank because a closed form never has a movie being edited |
| `App.CatalogStore.CloseForm` | App.tsx:177-180 | the form closes and forgets the edited movie |
| `App.CatalogStore.SetActiveCategory` | App.tsx:119-131 | the chosen tab becomes the active category |
| `App.CatalogStore.SetSearchTerm` | App.tsx:100 | the typed text becomes the search term |
| `App.CatalogStore.FilteredMovies` | App.tsx:70-77 | the shown movies are exactly the matching ones, each as often as it is listed, in list order; under `All` with no term, the whole list |
| `App.EditSubmitKeepsIds` | components/MovieForm.tsx:79 | submitting an edit of a movie with a non-empty id and saving it keeps the id list, so unique ids stay unique |
| `App.AddSubmitKeepsUnique` | components/MovieForm.tsx:79 | saving a new submission whose fresh id is unlisted keeps ids unique and grows the list by one |
| `App.ConfirmedDeleteRemovesCard` | components/MovieCard.tsx:30-34 | confirming on a card deletes that card's movie and keeps every movie with another id |
| `MovieForm.InitialFormData` | components/MovieForm.tsx:14-20 | a blank form has empty text fields; its category is the first listed one, or `Action` when the list is empty or starts with an empty name |
| `MovieForm.FormFromMovie` | components/MovieForm.tsx:28-34 | the edit form holds the movie's title, URL, poster, description and category; it passes the required-field check exactly when the movie has a title and a URL |
| `MovieForm.MissingRequired` | components/MovieForm.tsx:69 | a form without a URL is refused, and so is any form for which auto-fill has no input |
| `MovieForm.ResolveCategory` | components/MovieForm.tsx:74-76 | in new-category mode: the trimmed custom name, or `Other` when blank, never empty or space-padded; otherwise the selected category |
| `MovieForm.BuildMovie` | components/MovieForm.tsx:78-83 | the record copies the form's fields with the resolved category; it keeps the edited movie's id and `createdAt` when they are non-empty/non-zero, else uses the fresh id and current time |
| `MovieForm.EditUnchangedRoundTrip` | components/MovieForm.tsx:26-35 | opening a movie for edit and submitting it untouched saves that same movie |
| `MovieForm.AutoFillInput` | components/MovieForm.tsx:39-43 | no AI request is made iff both URL and title are empty; otherwise the URL is preferred over the title |
| `MovieForm.Prefer` | components/MovieForm.tsx:53-55 | a present, non-empty suggestion wins; otherwise the previous value stays, so a non-empty field never becomes empty |
| `MovieForm.MergeSuggestion` | components/MovieForm.tsx:51-56 | only non-empty suggested title, description and category replace the form's; the URL and photo are never touched |
| `MovieForm.MergeSuggestionIdempotent` | components/MovieForm.tsx:51-56 | merging a suggestion twice is merging it once, and an empty suggestion changes nothing |
| `MovieForm.SuggestsNewCategory` | components/MovieForm.tsx:58 | a suggestion switches to new-category mode exactly when its category is not listed, and always when it has none |
| `MovieForm.CustomFromSuggestion` | components/MovieForm.tsx:58-61 | corrected: the custom name is the suggested category, or empty when it is absent |
| `MovieForm.SuggestionThenSubmitResolves` | components/MovieForm.tsx:58-76 | corrected: after a suggestion that switches to new-category mode, submit yields a non-empty category (`Other` when none was suggested) |
| `MovieForm.CustomFromSuggestionAsWritten` | components/MovieForm.tsx:60 | as written, the stored custom name is absent exactly when the suggestion has no category |
| `MovieForm.ResolveCategoryAsWritten` | components/MovieForm.tsx:74-76 | as written, resolution throws exactly in new-category mode with no stored name; otherwise it agrees with the corrected resolution |
| `MovieForm.MissingCategoryThrowsAsWritten` | components/MovieForm.tsx:58-75 | as written, a suggestion without a category switches to new-category mode and the next submit throws |
| `MovieForm.Form.constructor` | components/MovieForm.tsx:14-24 | a freshly mounted form is blank, in select mode, with no error and no pending AI call |
| `MovieForm.Form.PrefillForEdit` | components/MovieForm.tsx:26-36 | when editing, the form takes the movie's five editable fields; otherwise it is unchanged |
| `MovieForm.Form.SetField` | components/MovieForm.tsx:120-202 | typing into a field changes that field only |
| `MovieForm.Form.ToggleNewCategory` | components/MovieForm.tsx:163 | the new-category switch flips |
| `MovieForm.Form.SetCustomCategory` | components/MovieForm.tsx:177 | the typed name becomes the custom category |
| `MovieForm.Form.AutoFill` | components/MovieForm.tsx:38-65 | corrected: with no input: error set, no request, form unchanged. With a failed AI call: error set, form unchanged. With a result: the merge is applied, and an unlisted or absent category switches to new-category mode with that name (empty when absent). The busy flag is false once a request was made |
| `MovieForm.Form.Submit` | components/MovieForm.tsx:67-86 | corrected (never throws, see Findings): an empty title or URL sets the required-fields error and saves nothing; otherwise the built record is handed to the parent and the error is left as it was |
| `MovieCard.PosterSource` | components/MovieCard.tsx:52 | the poster is the photo URL when non-empty, otherwise the fixed placeholder; it is never empty |
| `MovieCard.Step` | components/MovieCard.tsx:14-39 | only confirm emits a delete, with the card's id; a launch opens the URL exactly when not confirming; edit hands over the card's movie; trigger and cancel emit nothing; the card is confirming afterwards exactly after a trigger, or after a launch or edit made while confirming |
| `MovieCard.Offered` | components/MovieCard.tsx:69-87 | while confirming every handler is reachable; otherwise only launch, edit and the delete trigger are |
| `MovieCard.DeletesNeedTriggers` | components/MovieCard.tsx:14-39 | in any sequence of handlers the screen offers, there are no more delete requests than delete triggers, each request names the card's own movie id, and no link opens while a confirmation is pending |
| `MovieCard.Card.constructor` | components/MovieCard.tsx:12 | a card starts with no pending confirmation |
| `MovieCard.Card.LaunchVideo` | components/MovieCard.tsx:14-18 | while a confirmation is pending nothing opens; otherwise the movie's URL is handed to the browser |
| `MovieCard.Card.RequestEdit` | components/MovieCard.tsx:20-23 | the card's own movie is handed to the edit handler |
| `MovieCard.Card.TriggerDelete` | components/MovieCard.tsx:25-28 | the card moves to confirming and deletes nothing |
| `MovieCard.Card.ConfirmDelete` | components/MovieCard.tsx:30-34 | the card's movie id is handed to the delete handler and the card returns to idle |
| `MovieCard.Card.CancelDelete` | components/MovieCard.tsx:36-39 | the card returns to idle and nothing is deleted |

## Findings

| source | as written | input that shows it | evidently intended | confidence | as-written member | corrected member |
|---|---|---|---|---|---|---|
| components/MovieForm.tsx:58-60, 75 | `setCustomCategory(result.category)` stores `undefined` when the suggestion has no category, and the test `!categories.includes(undefined)` always switches to new-category mode; the next submit calls `customCategory.trim()` on `undefined` and throws, so nothing is saved | an AI result `{title: "Alpha", description: ""}` with no `category`, then Submit without typing a category | a missing suggested category leaves an empty custom name, which submit resolves to `Other` | not executed; medium (the AI request's schema asks for a category, so only an answer that ignores it triggers this) | `MovieForm.MissingCategoryThrowsAsWritten` | `MovieForm.SuggestionThenSubmitResolves` |

## Left out

- `localStorage` reads and writes and JSON (de)serialisation (App.tsx:17-43): the write-through effects are not modelled. The parsed stored values are the `Option` inputs of `LoadSaved`.
- `services/geminiService.ts` (the Gemini call and the parsing of its JSON answer) is not part of this model. Its answer is the `suggestion` input of `Form.AutoFill`.
- `services/syncService.ts` and `capacitor.config.ts` are not part of this model: they are network/download I/O and packaging configuration that the modelled files never call.
- `crypto.randomUUID()`, `Date.now()` and `window.open` are inputs or outputs of the methods (`freshId`, `now`, the `launched` URL). `Catalog.SaveNewUnique` and `App.AddSubmitKeepsUnique` take the id's freshness as a hypothesis; the code does not check it.
- `Text.ToLower`: lower-cases ASCII letters only, not the full Unicode mapping of `toLowerCase`.
- `MovieForm.BuildMovie`: treats only `0` as a falsy `createdAt` and only `""` as a falsy id; `NaN` is not modelled.
- `MovieForm.Form.AutoFill`: models the corrected branch for a suggestion without a category, storing an empty custom name where the code stores `undefined`. So `Form.Submit` never reaches the throwing path. That path is modelled only by `MovieForm.CustomFromSuggestionAsWritten`, `MovieForm.ResolveCategoryAsWritten` and `MovieForm.MissingCategoryThrowsAsWritten` (see Findings).
- `MovieForm.Form.AutoFill`: the await inside `handleAutoFill` is not modelled, because each handler is atomic. The `isAIThinking` field is therefore false after every handler in the model. The model cannot express form edits made while the AI request is in flight, or the button being disabled during it.
- React scheduling: a stale `categories` closure in `handleAddOrUpdateMovie` (App.tsx:53) and batching of state setters are not modelled.
- The poster's `onError` fallback (components/MovieCard.tsx:56-58) depends on the image actually failing to load. Only the empty-URL fallback is modelled.
- `MovieForm.Form.Submit`: the browser's own validation runs before the handler and is not modelled. The title and video-URL inputs are `required` (components/MovieForm.tsx:121, 154), and the video-URL and poster inputs are `type="url"` (components/MovieForm.tsx:116, 127). So the model accepts any non-empty URL text, such as `hello`, where the browser would refuse the submission. Its empty-field branch models the handler's own check, which the submit button cannot reach.
- JSX rendering, CSS and animations are left out. Where rendering matters, it appears as `MovieCard.Offered`: the confirm/cancel buttons exist only while confirming.
