# Anime list tracker: client-side form and view logic

The application lets a signed-in user keep named collections of anime,
search a public anime catalogue and add entries with tracking fields
(status, progress, score, dates, notes). Storage, authentication and the
catalogue are remote services; what the browser code decides by itself is
small. This project models that part in Dafny and proves what it promises:

- the preview-image list of the create and edit collection dialogs, with
  its three edits, its bound of three entries and the filter that keeps
  non-blank URLs (`ImageList`, `CollectionForms`);
- the in-memory status rewrite of a collection's table (`AnimeListView`);
- the display name and avatar initials of the navigation bar (`NavBar`,
  over the string operations in `Text`);
- the status enumeration, its labels, options and the fallback for stored
  values (`StatusSelect`);
- the add-to-list dialog: ten-star rating, required collection, the
  denormalised row it inserts and its open/error state (`AddAnime`);
- the search and detail hooks' loading/error/result state (`AnimeHooks`).

Component state that the source updates handler by handler is a class
whose methods say the whole new state; pure expressions are functions
with lemmas. Every remote call (create, update, insert, search, lookup)
is replaced by an `Outcome` parameter (`Succeeded(data)` or `Failed`)
given to the step that follows the call; a form's parent refresh callback
is a returned `notified` flag.

Three behaviours of the code are worth stating:

- A failed search keeps the previous results and sets the error; it does
  not empty them (src/hooks/useAnimes.ts:22-23).
- The edit dialog keeps a stored empty image list as it is, and it does not
  cut a stored list of more than three; it only refuses to append then
  (src/components/collections/EditCollection.tsx:27, 43-47).
- A status drop-down change is not persisted; only the in-memory list
  changes (src/components/anime/AnimeList.tsx:55-63).

## Model

| member | source | states |
|---|---|---|
| `Text.IsWhitespace` | src/components/collections/CreateCollectionModal.tsx:56 | the characters `trim` removes: the ECMAScript white-space characters (tab, vertical tab, form feed, space, no-break space, byte-order mark, the Unicode space separators) and the four line terminators |
| `Text.TrimStart` | src/components/collections/CreateCollectionModal.tsx:56 | the leading-whitespace cut of `trim`: a suffix of the input, all dropped characters whitespace, the rest not starting with whitespace |
| `Text.TrimEnd` | src/components/collections/CreateCollectionModal.tsx:56 | the trailing-whitespace cut of `trim`: a prefix, all dropped characters whitespace, the rest not ending with whitespace |
| `Text.Trim` | src/components/collections/CreateCollectionModal.tsx:56 | `url.trim()` is no longer than the input and has no whitespace at either end |
| `Text.IsBlank` | src/components/collections/CreateCollectionModal.tsx:56 | the entries the filter drops, defined by recursion on the string; its meaning is fixed by `Text.BlankIffAllWhitespace` and `Text.BlankIffTrimEmpty` |
| `Text.BlankIffAllWhitespace` | src/components/collections/CreateCollectionModal.tsx:56 | a string is blank exactly when every character is JavaScript whitespace |
| `Text.AllWhitespaceTrimsAway` | src/components/collections/CreateCollectionModal.tsx:56 | a string of whitespace only trims to the empty string |
| `Text.TrimmedAwayIsWhitespace` | src/components/collections/CreateCollectionModal.tsx:56 | a string that trims to the empty string is whitespace only |
| `Text.BlankIffTrimEmpty` | src/components/collections/CreateCollectionModal.tsx:56 | `url.trim() !== ""` fails exactly for the strings made only of JavaScript whitespace |
| `Text.Split` | src/components/common/NavBar.tsx:20 | `split` on one character: never an empty list, no piece contains the separator |
| `Text.SplitCount` | src/components/common/NavBar.tsx:20 | a split has one more piece than the string has separators |
| `Text.SplitCons` | src/components/common/NavBar.tsx:20 | a leading non-separator character begins the first piece |
| `Text.SplitSep` | src/components/common/NavBar.tsx:20 | a leading separator gives an empty first piece |
| `Text.SplitAlone` | src/components/common/NavBar.tsx:20 | a string without the separator splits into itself alone |
| `Text.Join` | src/components/common/NavBar.tsx:20 | the inverse of `split` on one character, used to build a name from its words: begins with the first piece and is that piece alone for one piece; `Text.JoinSplit` and `Text.SplitJoin` prove the inverse; the `join('')` of line 21 is `NavBar.Firsts` |
| `Text.JoinSplit` | src/components/common/NavBar.tsx:20 | joining the pieces of a split with the separator gives the string back |
| `Text.SplitJoin` | src/components/common/NavBar.tsx:20 | splitting the join of separator-free pieces gives the pieces back |
| `Text.SplitWord` | src/components/common/NavBar.tsx:20 | a separator-free prefix followed by a separator is the first piece of the split |
| `Text.ToUpper` | src/components/common/NavBar.tsx:22 | `toUpperCase` over ASCII: same length, no lower-case letter left, equal ignoring case |
| `Text.Prefix` | src/components/common/NavBar.tsx:22 | `slice(0, n)`: a prefix of at most n characters, the whole string when shorter |
| `ImageList.Initial` | src/components/collections/CreateCollectionModal.tsx:26 | the list starts as one blank entry |
| `ImageList.Replace` | src/components/collections/CreateCollectionModal.tsx:30-34 | an in-range change keeps the length, sets that entry and leaves every other entry |
| `ImageList.AddEntry` | src/components/collections/CreateCollectionModal.tsx:36-40 | exactly one empty entry appended when there are fewer than three, the list unchanged otherwise |
| `ImageList.RemoveAt` | src/components/collections/CreateCollectionModal.tsx:42-45 | the position filter never lengthens the list |
| `ImageList.RemoveAtDropsOne` | src/components/collections/CreateCollectionModal.tsx:43 | an in-range removal drops exactly that entry and keeps the rest in order; an out-of-range one changes nothing |
| `ImageList.RemoveAtLength` | src/components/collections/CreateCollectionModal.tsx:43 | an in-range removal shortens the list by one, an out-of-range one keeps its length |
| `ImageList.Submitted` | src/components/collections/CreateCollectionModal.tsx:56 | the submitted images are never more than the entries and none of them is blank |
| `ImageList.SubmittedCons` | src/components/collections/CreateCollectionModal.tsx:56 | the first entry is submitted exactly when it is not blank, ahead of the rest |
| `ImageList.SubmittedAppend` | src/components/collections/CreateCollectionModal.tsx:56 | the filter distributes over concatenation, so it keeps the original order |
| `ImageList.SubmittedCounts` | src/components/collections/CreateCollectionModal.tsx:56 | every non-blank entry is submitted as often as it occurs, no blank one at all |
| `ImageList.SubmittedKeepsNonBlank` | src/components/collections/CreateCollectionModal.tsx:56 | a list without blank entries is submitted unchanged; filtering twice is filtering once |
| `ImageList.SubmittedEmpty` | src/components/collections/CreateCollectionModal.tsx:56 | nothing is submitted exactly when every entry is blank |
| `ImageList.StepBounded` | src/components/collections/CreateCollectionModal.tsx:30-45 | no single edit takes a list of at most three entries above three |
| `ImageList.ReplayBounded` | src/components/collections/CreateCollectionModal.tsx:30-45 | no sequence of change/add/remove edits takes a list of at most three entries above three |
| `ImageList.FromInitialBounded` | src/components/collections/CreateCollectionModal.tsx:26-45 | from the initial list no sequence of edits gives more than three entries |
| `ImageList.OfferedTraceKeepsOneToThree` | src/components/collections/CreateCollectionModal.tsx:124-139 | through the rendered controls (remove only with more than one entry, add only below three) a list of one to three entries keeps one to three |
| `CollectionForms.PayloadOf` | src/components/collections/CreateCollectionModal.tsx:53-57 | the payload is the current name and description and the non-blank images, never more images than entries |
| `CollectionForms.PayloadBounded` | src/components/collections/CreateCollectionModal.tsx:53-57 | a form of at most three entries sends at most three images |
| `CollectionForms.CreateFormBounded` | src/components/collections/CreateCollectionModal.tsx:26-57 | a fresh create form driven by its controls holds one to three entries and sends at most three images |
| `CollectionForms.CreateCollectionForm.constructor` | src/components/collections/CreateCollectionModal.tsx:23-28 | closed dialog, empty name and description, images `['']`, not loading, no error |
| `CollectionForms.CreateCollectionForm.SetOpen` | src/components/collections/CreateCollectionModal.tsx:75 | the dialog's open flag becomes the given value |
| `CollectionForms.CreateCollectionForm.SetName` | src/components/collections/CreateCollectionModal.tsx:101 | the name becomes the typed value |
| `CollectionForms.CreateCollectionForm.SetDescription` | src/components/collections/CreateCollectionModal.tsx:113 | the description becomes the typed value |
| `CollectionForms.CreateCollectionForm.HandleImageChange` | src/components/collections/CreateCollectionModal.tsx:30-34 | the images become the in-range replacement, the three-entry bound is kept |
| `CollectionForms.CreateCollectionForm.AddImageInput` | src/components/collections/CreateCollectionModal.tsx:36-40 | the images become the guarded append, the bound is kept |
| `CollectionForms.CreateCollectionForm.RemoveImageInput` | src/components/collections/CreateCollectionModal.tsx:42-45 | the images become the list without that position, the bound is kept |
| `CollectionForms.CreateCollectionForm.BeginCreate` | src/components/collections/CreateCollectionModal.tsx:47-57 | loading on, error cleared, payload from the current fields with at most three images |
| `CollectionForms.CreateCollectionForm.FinishCreate` | src/components/collections/CreateCollectionModal.tsx:59-71 | success: loading off, closed, refresh requested, name, description and images reset; failure: the create error, loading off, fields kept |
| `CollectionForms.CreateCollectionForm.HandleCreateCollection` | src/components/collections/CreateCollectionModal.tsx:47-72 | the whole submit: payload from the fields before it, then the success reset or the failure error |
| `CollectionForms.InitialImages` | src/components/collections/EditCollection.tsx:27 | the collection's images when the field is present (an empty list included), `['']` only when it is absent |
| `CollectionForms.EditCollectionForm.constructor` | src/components/collections/EditCollection.tsx:24-29 | closed dialog holding the collection's name, description and initial images, not loading, no error |
| `CollectionForms.EditCollectionForm.Resync` | src/components/collections/EditCollection.tsx:31-35 | a new collection re-sets name, description and images and leaves the rest |
| `CollectionForms.EditCollectionForm.SetOpen` | src/components/collections/EditCollection.tsx:77 | the dialog's open flag becomes the given value |
| `CollectionForms.EditCollectionForm.SetName` | src/components/collections/EditCollection.tsx:99 | the name becomes the typed value |
| `CollectionForms.EditCollectionForm.SetDescription` | src/components/collections/EditCollection.tsx:111 | the description becomes the typed value |
| `CollectionForms.EditCollectionForm.HandleImageChange` | src/components/collections/EditCollection.tsx:37-41 | the images become the in-range replacement |
| `CollectionForms.EditCollectionForm.AddImageInput` | src/components/collections/EditCollection.tsx:43-47 | the images become the guarded append; a list of at most three stays at most three |
| `CollectionForms.EditCollectionForm.RemoveImageInput` | src/components/collections/EditCollection.tsx:49-52 | the images become the list without that position |
| `CollectionForms.EditCollectionForm.BeginUpdate` | src/components/collections/EditCollection.tsx:54-64 | loading on, error cleared, the update addressed to the collection's id with the current fields and non-blank images |
| `CollectionForms.EditCollectionForm.FinishUpdate` | src/components/collections/EditCollection.tsx:66-73 | success: loading off, closed, refresh requested; failure: the update error, loading off |
| `CollectionForms.EditCollectionForm.HandleUpdateCollection` | src/components/collections/EditCollection.tsx:54-74 | the whole submit with the given outcome |
| `AnimeListView.UpdateRow` | src/components/anime/AnimeList.tsx:58 | one row of the map: nothing but the status may change; a matching row gets the new status key, any other row is returned as it is |
| `AnimeListView.HandleStatusChange` | src/components/anime/AnimeList.tsx:55-60 | length and order kept; every row with the id gets the new status key with all else unchanged; other rows unchanged |
| `AnimeListView.DisplayedCount` | src/components/anime/AnimeList.tsx:88 | the count shown above the table, the list's length; `AnimeListView.StatusChangeKeepsCountAndIds` proves a status change keeps it |
| `AnimeListView.StatusChangeKeepsCountAndIds` | src/components/anime/AnimeList.tsx:88 | the displayed count and every row's id are unchanged by a status change |
| `AnimeListView.StatusChangeShown` | src/components/anime/AnimeList.tsx:185-190 | after the change each matching row's drop-down shows the new status, under both the fallback as written and the corrected one |
| `AnimeListView.StatusChangeIdempotent` | src/components/anime/AnimeList.tsx:56-60 | the same change twice equals it once |
| `AnimeListView.StatusChangeLastWins` | src/components/anime/AnimeList.tsx:56-60 | two changes of one id leave the later status |
| `AnimeListView.StatusChangesCommute` | src/components/anime/AnimeList.tsx:56-60 | changes of different ids commute |
| `AnimeListView.StatusChangeOfAbsentId` | src/components/anime/AnimeList.tsx:58 | a change for an id no row has leaves the list as it is |
| `NavBar.FirstChar` | src/components/common/NavBar.tsx:21 | `n[0]` joined: the first character of a word, nothing for an empty word |
| `NavBar.Firsts` | src/components/common/NavBar.tsx:21 | at most one character per word, and the first character of every non-empty word is present |
| `NavBar.FirstsAppend` | src/components/common/NavBar.tsx:21 | the first characters of two runs of words are those of the first run followed by those of the second |
| `NavBar.FirstsOfWords` | src/components/common/NavBar.tsx:21 | for words that are all non-empty, exactly one first character per word, in order, and nothing else |
| `NavBar.GetInitials` | src/components/common/NavBar.tsx:19-23 | at most two characters and no lower-case letter |
| `NavBar.InitialsEmptyIffOnlySpaces` | src/components/common/NavBar.tsx:19-23 | the initials are empty exactly when the name is only spaces |
| `NavBar.FirstsEmptyIffOnlySpaces` | src/components/common/NavBar.tsx:20-21 | the joined first characters are empty exactly when the name is only spaces |
| `NavBar.FirstInitial` | src/components/common/NavBar.tsx:19-23 | a name not starting with a space has its upper-cased first character as first initial |
| `NavBar.SingleWordInitial` | src/components/common/NavBar.tsx:19-23 | a non-empty single word yields exactly one character |
| `NavBar.TwoWordInitials` | src/components/common/NavBar.tsx:19-23 | two words joined by a space yield both upper-cased first characters |
| `NavBar.WordThenRest` | src/components/common/NavBar.tsx:20-21 | a non-empty space-free word followed by a space contributes its first character ahead of the first characters of what follows |
| `NavBar.LeadingSpaceInitials` | src/components/common/NavBar.tsx:19-23 | a leading space makes an empty word that contributes nothing: `" " + s` has the initials of `s` |
| `NavBar.RepeatedSpaceFirsts` | src/components/common/NavBar.tsx:20-21 | a doubled space after a word makes an empty word that adds no first character |
| `NavBar.RepeatedSpaceInitials` | src/components/common/NavBar.tsx:19-23 | a doubled space after a word gives the same initials as a single one |
| `NavBar.WordsFirsts` | src/components/common/NavBar.tsx:20-21 | for any number of non-empty words joined by single spaces, the first characters are those of the words, one each, in order |
| `NavBar.WordsInitials` | src/components/common/NavBar.tsx:19-23 | such a name's initials are the upper-cased first characters of its words, cut to two |
| `NavBar.UpperPrefix` | src/components/common/NavBar.tsx:22 | `toUpperCase().slice(0, 2)` of one character is that character upper-cased, of two or more the first two upper-cased |
| `NavBar.FirstTwoWordsInitials` | src/components/common/NavBar.tsx:19-23 | one word gives its upper-cased first character; two or more words give the upper-cased first characters of the first two, whatever follows |
| `NavBar.Heads` | src/components/common/NavBar.tsx:19-23 | an independent description of the initials: the non-space characters at the start of the name or right after a space, never more than the name's length and never a space |
| `NavBar.FirstsIsHeads` | src/components/common/NavBar.tsx:20-21 | for every name, the first characters of the split words are exactly those heads, in order |
| `NavBar.InitialsAreHeads` | src/components/common/NavBar.tsx:19-23 | for every name (leading, trailing and repeated spaces included), the initials are its heads upper-cased and cut to two |
| `NavBar.LocalPart` | src/components/common/NavBar.tsx:28 | the address part before the first `@`, the whole address without one |
| `NavBar.LocalPartIsFirstPiece` | src/components/common/NavBar.tsx:28 | `email.split('@')[0]` is that local part |
| `NavBar.UserNameField` | src/components/common/NavBar.tsx:28 | `user?.user_metadata?.user_name`: a non-empty result is the stored profile name; a missing user or metadata gives the falsy empty string |
| `NavBar.UserName` | src/components/common/NavBar.tsx:28 | the profile name if non-empty, else the local part if non-empty, else "Usuario"; never empty |
| `NavBar.EmailField` | src/components/common/NavBar.tsx:29 | the user's e-mail, or empty when there is no user or no address |
| `NavBar.FallbackInitials` | src/components/common/NavBar.tsx:28 | the fallback name's initials are "U" |
| `NavBar.NameFromEmail` | src/components/common/NavBar.tsx:28 | a name taken from the address is non-empty and has no `@` |
| `StatusSelect.Key` | src/components/common/StatusSelect.tsx:7-22 | the three keys of the status table; each is non-empty, so `value &&` passes it, and none is a name every object inherits |
| `StatusSelect.Label` | src/components/common/StatusSelect.tsx:9-22 | the table's labels Viendo, Completado, Pendiente, each non-empty |
| `StatusSelect.FromKey` | src/components/common/StatusSelect.tsx:9-22 | a lookup among the table's own keys finds the status of that key or reports that no status has it |
| `StatusSelect.KeyRoundTrip` | src/components/common/StatusSelect.tsx:7-22 | every key is read back as its own status |
| `StatusSelect.KeysAndLabelsDistinct` | src/components/common/StatusSelect.tsx:9-22 | keys and labels ("Viendo", "Completado", "Pendiente") are pairwise distinct |
| `StatusSelect.Options` | src/components/common/StatusSelect.tsx:33-37 | three items, one per status, in the order watching, completed, plan_to_watch, with distinct values and labels |
| `StatusSelect.Select` | src/components/common/StatusSelect.tsx:28 | choosing an item passes its value on as the status of that key |
| `StatusSelect.CurrentStatus` | src/components/common/StatusSelect.tsx:25 | corrected fallback: a key is shown as itself, any other value (empty included) as plan_to_watch |
| `StatusSelect.CurrentStatusOfKey` | src/components/common/StatusSelect.tsx:25 | a stored key is shown as its own status |
| `StatusSelect.CurrentStatusAsWritten` | src/components/common/StatusSelect.tsx:25 | the fallback as written: a non-empty key or inherited object property name passes through, anything else becomes plan_to_watch |
| `StatusSelect.AsWrittenLeaksInheritedName` | src/components/common/StatusSelect.tsx:25 | the written fallback shows "constructor", which is no status; the corrected one shows plan_to_watch |
| `StatusSelect.AsWrittenAgreesOffInheritedNames` | src/components/common/StatusSelect.tsx:25 | off the inherited names the written and the corrected fallbacks agree |
| `AddAnime.Range` | src/components/anime/AddAnimeModal.tsx:36-37 | consecutive integers from lo below hi |
| `AddAnime.StarValues` | src/components/anime/AddAnimeModal.tsx:36-37 | exactly ten stars with values 1..10 in order |
| `AddAnime.Highlighted` | src/components/anime/AddAnimeModal.tsx:42 | a star is lit when its value is at most the rating; `AddAnime.HighlightedInRange` and `AddAnime.HighlightedStars` count the lit stars |
| `AddAnime.HighlightedAmong` | src/components/anime/AddAnimeModal.tsx:42 | no more stars lit than drawn |
| `AddAnime.HighlightedInRange` | src/components/anime/AddAnimeModal.tsx:42 | among consecutive values exactly those up to the rating are lit |
| `AddAnime.HighlightedStars` | src/components/anime/AddAnimeModal.tsx:36-47 | the lit stars are the rating clamped to 0..10 |
| `AddAnime.OptionalDate` | src/components/anime/AddAnimeModal.tsx:104-105 | an empty or missing date becomes absent, any other value is kept |
| `AddAnime.MissingCollection` | src/components/anime/AddAnimeModal.tsx:80-82 | `!collectionId`: the collection field is absent or empty; `AddAnime.AddAnimeDialog.BeginSubmit` states what follows from it |
| `AddAnime.ToRow` | src/components/anime/AddAnimeModal.tsx:88-107 | the catalogue fields copied verbatim, the two default image URLs, status, score, progress, dates and notes from the form, and the chosen collection's id |
| `AddAnime.ToRowIgnoresUncopiedFields` | src/components/anime/AddAnimeModal.tsx:88-100 | the catalogue's status, score and other image sizes never reach the row |
| `AddAnime.AddAnimeDialog.constructor` | src/components/anime/AddAnimeModal.tsx:53-57 | closed, the given initial rating, not submitting, no error |
| `AddAnime.AddAnimeDialog.ClickStar` | src/components/anime/AddAnimeModal.tsx:44 | clicking star v sets the rating to v, within 1..10 |
| `AddAnime.AddAnimeDialog.OnOpenChange` | src/components/anime/AddAnimeModal.tsx:121-126 | the open flag follows the dialog, closing clears the error |
| `AddAnime.AddAnimeDialog.BeginSubmit` | src/components/anime/AddAnimeModal.tsx:74-107 | a missing collection sets its error, ends submitting and inserts nothing; otherwise the row to insert, submitting on |
| `AddAnime.AddAnimeDialog.FinishSubmit` | src/components/anime/AddAnimeModal.tsx:109-117 | success closes the dialog; failure sets the insert error and keeps it open; submitting ends |
| `AddAnime.AddAnimeDialog.HandleSubmit` | src/components/anime/AddAnimeModal.tsx:74-118 | the whole submit: validation, row, and the outcome's effect only when the insert is made |
| `AnimeHooks.AnimeSearchState.constructor` | src/hooks/useAnimes.ts:6-8 | no results, not loading, no error |
| `AnimeHooks.AnimeSearchState.BeginSearch` | src/hooks/useAnimes.ts:17-18 | loading on, error cleared |
| `AnimeHooks.AnimeSearchState.FinishSearch` | src/hooks/useAnimes.ts:19-26 | success stores exactly the data; failure sets the search error and keeps the old results; loading off |
| `AnimeHooks.AnimeSearchState.OnQueryChange` | src/hooks/useAnimes.ts:10-30 | an empty query empties the results with no call and loading and error untouched; otherwise one search |
| `AnimeHooks.AnimeDetailState.constructor` | src/hooks/useAnimes.ts:36-38 | no anime, loading, no error |
| `AnimeHooks.AnimeDetailState.BeginDetail` | src/hooks/useAnimes.ts:44-45 | loading on, error cleared |
| `AnimeHooks.AnimeDetailState.FinishDetail` | src/hooks/useAnimes.ts:46-54 | success stores the record; failure sets the detail error and keeps the old record; loading off |
| `AnimeHooks.AnimeDetailState.OnIdChange` | src/hooks/useAnimes.ts:40-56 | nothing for an empty id; otherwise one lookup |

## Findings

| source | as written | input that shows it | evidently intended | confidence | as-written member | corrected member |
|---|---|---|---|---|---|---|
| src/components/common/StatusSelect.tsx:25 | `value && statusConfig[value]` is a property lookup on a plain object, which also succeeds for names inherited from `Object.prototype` | a stored status "constructor" (or "toString", "__proto__", ...) is shown as itself, no status of the table, and `statusConfig[currentStatus].className` is then undefined | only the three own keys pass; every other value falls back to plan_to_watch | not executed; follows from JavaScript property lookup | `StatusSelect.AsWrittenLeaksInheritedName` | `StatusSelect.CurrentStatus` |

## Left out

- The browser's own form checks before a submit handler runs: `required` on the name inputs (src/components/collections/CreateCollectionModal.tsx:102, src/components/collections/EditCollection.tsx:100) and `type="url"` on the image inputs (src/components/collections/CreateCollectionModal.tsx:122, src/components/collections/EditCollection.tsx:120), which block malformed URLs and strip surrounding ASCII whitespace; `HandleCreateCollection` and `HandleUpdateCollection` therefore accept inputs the page never submits.
- Remote calls: the collection and list store (src/api/collections.ts, src/api/animes.ts), the catalogue client (src/api/jikan.ts) and authentication are not part of this model; each call is an outcome parameter, and ownership filtering and ordering belong to the store.
- Asynchronous interleaving: overlapping searches whose answers arrive out of order, the debounce of the search box, and user edits made while a submit is in flight between the Begin and Finish steps are not modelled.
- The fetch effects of the list table (src/components/anime/AnimeList.tsx:37-53) and of the add dialog's collection picker (src/components/anime/AddAnimeModal.tsx:60-72): loading/error plumbing around a remote call, with no logic of their own.
- Console logging, JSX and class names, the collection count display of cards and the other presentation components.
- `AddAnime.AddAnimeDialog.constructor`: the initial rating `Math.round(anime.score || 0)` is floating point; the model takes the rounded integer as a parameter.
- `AddAnime.FormFields`: `Number()` conversion of the progress field is floating-point parsing and is taken as an already converted integer; the score sent equals `selectedScore`, since it comes from the hidden input bound to it.
- `AddAnime.ToRow`: a status missing from the form data (null) is represented as the empty string; both are shown as plan_to_watch.
- `ImageList.Replace`: requires an in-range index, as the inputs are rendered one per entry; a JavaScript write past the end (which would leave holes) is not modelled.
- `Text.ToUpper`: upper-cases ASCII letters only; full Unicode case mapping (which can change length) and UTF-16 code units in `n[0]` and `slice` are not modelled.
- `NavBar.UserName`: a profile name of a non-string type is not modelled; the name is an optional string.
