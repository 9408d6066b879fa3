# ProjetAEMT front end: a verified model of its logic core

This project models the client-side logic of the ProjetAEMT note-taking front end (a React
and TypeScript application for folders of Markdown notes). It covers:

- **`buildFolderTree`**: turns the flat lists of folders and notes into a tree.
- **`FakeFolderService`**: an in-memory folder store with an auto-increment id.
- **`authReducer`**: the login/logout state machine.
- **The `AlertProvider` alert queue.**
- **The `@mention` dropdown**: its `selectedIndex` state machine and the suggestion filter.
- **`AddNote`'s `handleSubmit`**: what it does, plus the note counters it computes.
- **The `QuickSearch` panel's handlers.**
- **The export services' download-file-name derivation.**
- **`ApiError`**: its message format and its `fromResponse` fallback chain.

React state is modelled as the fields of a Dafny class where the source updates it step by
step: `FakeFolderService`, the alert store, the mention list, the add-note form and the
quick-search panel. Each handler is a method that states its whole new state. The pure
parts are functions, with lemmas relating them to independent definitions. Those pure
parts are the tree construction's specification, the reducer, the filters, the counters,
the regular-expression match and the error fallbacks.

Modules:

- `Wrappers`: `Option` and `Result`.
- `Seqs`: `Filter` (JavaScript `Array.prototype.filter`) and `Take` (`slice(0, n)`), with
  lemmas: appending, all-pass, distinctness, subsequence, and "shorter iff something fails".
- `Strings`: ASCII whitespace, `trim`, `toLowerCase`, `includes`, `split` on a character,
  and integer-to-decimal conversion.
- `Entities`: the `Folder` and `NoteDto` records.
- `FolderTree`, `FakeFolders`, `Auth`, `Alerts`, `MentionList`, `MentionSuggestion`,
  `AddNote`, `QuickSearch`, `ExportFilename`, `ApiErrors`: one per source file.

Where a simpler reading of the behaviour and the code differ, the model follows the code:

- **Download name.** The pattern `/filename=([^;]+)/` is searched left to right. A
  `filename=` that is followed directly by `;` or by the end of the header is not a match,
  so the search goes on to a later `filename=`. A plain "default kept" reading misses this.
- **Arrow keys with no items.** With an empty item list an arrow key stores `NaN`
  (`x % 0`), and no later arrow key recovers from it. The model keeps that case rather than
  requiring a non-empty list.
- **Note counters.** `size_bytes`, `char_count`, `line_count` and `word_count` are computed
  from the untrimmed content, while the stored content is trimmed. `size_bytes` is the
  string's `.length`, as `char_count` is, not a byte count.

## Model

| member | source | states |
|---|---|---|
| FolderTree.BuildFolderTree | src/features/folder/utils/buildFolderTree.tsx:6-39 | There is one node per distinct folder id, holding the last folder given with that id. Its notes are exactly the notes whose `id_folder` is that id, in input order. Its children are exactly the folders whose parent id is that id, in `Map` insertion order. The roots are exactly the parentless folders, in the same order. |
| FolderTree.MakeNodes | src/features/folder/utils/buildFolderTree.tsx:8-16 | Step 1 gives one empty node per id, with the folder that was set last. The key order is that of first insertion, with no id twice. |
| FolderTree.AttachNotes | src/features/folder/utils/buildFolderTree.tsx:18-22 | Step 2 gives each existing node exactly its notes, in order. A note whose folder is missing is dropped. |
| FolderTree.LinkNodes | src/features/folder/utils/buildFolderTree.tsx:24-36 | Step 3 walks the nodes in key order. A node goes to the roots when it has no parent, and to its parent's children when that parent exists. |
| FolderTree.BuildFolderTreeWithoutNotes | src/features/folder/utils/buildFolderTree.tsx:6 | With `notes` defaulted to `[]`, every node has an empty notes list. The roots are the same. |
| FolderTree.Index | src/features/folder/utils/buildFolderTree.tsx:8-16 | Every folder's id is a key. Each key maps to a folder of the input that carries that id. |
| FolderTree.KeyOrder | src/features/folder/utils/buildFolderTree.tsx:8-16 | The `Map`'s iteration order holds no id twice and has exactly the same ids as the map. |
| FolderTree.KeyOrderPrefix | src/features/folder/utils/buildFolderTree.tsx:8-16 | Setting further folders never reorders the keys already inserted: the key order of a prefix of the input is a prefix of the key order. |
| FolderTree.KeyOrderFirstOccurrence | src/features/folder/utils/buildFolderTree.tsx:8-16 | Keys are in order of first occurrence: when `fs[j]` is the first folder with its id, that id comes right after the ids of all earlier folders. |
| FolderTree.IndexKeepsLast | src/features/folder/utils/buildFolderTree.tsx:11-15 | When ids repeat, the last folder with a given id wins. |
| FolderTree.Placement | src/features/folder/utils/buildFolderTree.tsx:27-35 | An id is a root iff its folder has a null parent. It is a child of `p` iff its parent id is `p`. |
| FolderTree.PlacedAtMostOnce | src/features/folder/utils/buildFolderTree.tsx:27-35 | No id appears twice among the roots or in one children list. A root is nobody's child. No id has two parents. |
| FolderTree.DanglingParentIsDropped | src/features/folder/utils/buildFolderTree.tsx:33-34 | A folder whose parent id names no folder appears nowhere in the tree. |
| FolderTree.NotesAttachment | src/features/folder/utils/buildFolderTree.tsx:19-22 | A folder's notes are exactly the input notes with its id, kept as a subsequence of the input. |
| FakeFolders.FakeFolderService.constructor | src/features/folder/services/fakeFolderService.tsx:5-22 | The store is seeded with folder 1 (a root) and folder 2 (inside 1), each with its own `created_at` reading, and the counter is at 3. |
| FakeFolders.FakeFolderService.GetFoldersByUser | src/features/folder/services/fakeFolderService.tsx:25-33 | Returns the user's folders, in stored order. |
| FakeFolders.FakeFolderService.GetChildren | src/features/folder/services/fakeFolderService.tsx:36-44 | Returns the folders whose parent id equals `parentId`, where `null` selects the top level, in stored order. |
| FakeFolders.FakeFolderService.CreateFolder | src/features/folder/services/fakeFolderService.tsx:47-56 | The new folder gets the counter's value as its id and is appended. The counter grows by one. |
| FakeFolders.FakeFolderService.UpdateFolder | src/features/folder/services/fakeFolderService.tsx:59-70 | The first folder with the id is replaced by the merge of its fields with the patch, and that folder is returned. If no folder has the id, it returns null and the store is unchanged. |
| FakeFolders.FakeFolderService.DeleteFolder | src/features/folder/services/fakeFolderService.tsx:73-87 | Every folder with the id is removed and the others are kept in order. It returns true iff the store shrank, iff some folder had the id. |
| FakeFolders.KeepOthers | src/features/folder/services/fakeFolderService.tsx:74-83 | The loop keeps exactly the folders with another id, in order, and reports a deletion iff some folder had the id. |
| FakeFolders.SomethingDeletedIff | src/features/folder/services/fakeFolderService.tsx:77-86 | The store shrinks on deletion iff some folder carries the id, which is what the returned flag reports. |
| FakeFolders.FirstWithId | src/features/folder/services/fakeFolderService.tsx:60-61 | Gives the index of the first folder with the id. It is None iff no folder has the id. |
| FakeFolders.Apply | src/features/folder/services/fakeFolderService.tsx:62-65 | The spread `{...folder, ...updates}` takes each field from the patch when present and from the folder otherwise. An empty patch gives back the folder. |
| FakeFolders.Updated | src/features/folder/services/fakeFolderService.tsx:59-70 | The store after an update has the same length. Only the first folder with the id is replaced, by its merge with the patch. A missing id leaves the store as it was. |
| FakeFolders.QueriesSelectExactly | src/features/folder/services/fakeFolderService.tsx:25-44 | Both queries return exactly the matching folders, as a subsequence of the store. |
| FakeFolders.UpdateTouchesOnlyFirst | src/features/folder/services/fakeFolderService.tsx:59-70 | Only the first folder with the id changes. The length is the same. A missing id changes nothing. |
| FakeFolders.DeleteDoesNotCascade | src/features/folder/services/fakeFolderService.tsx:73-87 | A sub-folder of the deleted folder stays in the store. |
| FakeFolders.IssuedIdsIncrease | src/features/folder/services/fakeFolderService.tsx:22-49 | Ids that were handed out are at least 3 and strictly increasing, so they never clash with the seeds. |
| FakeFolders.NextIdIsFresh | src/features/folder/services/fakeFolderService.tsx:22-56 | While every stored id is a seed id or one the counter issued, the id the next `createFolder` hands out is carried by no stored folder. |
| Auth.AuthReducer | src/features/auth/contexts/AuthContext.tsx:25-34 | `login` sets the user and the flag. `logout` clears both. Any other action returns the state unchanged. |
| Auth.RunKeepsConsistent | src/features/auth/contexts/AuthContext.tsx:25-34 | Every dispatch keeps "authenticated iff a user is present". |
| Auth.ReachableStatesAreConsistent | src/features/auth/contexts/AuthContext.tsx:19-22 | From `initialState`, every reachable state is consistent. |
| Auth.ReducerLaws | src/features/auth/contexts/AuthContext.tsx:25-34 | Login and logout ignore the old state. A second login overrides the first. Logout is idempotent. Other actions are identities. |
| Auth.LastLoginOrLogoutDecides | src/features/auth/contexts/AuthContext.tsx:25-34 | Only the last `login`/`logout` matters. Actions of other types after it change nothing. |
| Auth.OthersChangeNothing | src/features/auth/contexts/AuthContext.tsx:31-32 | A run made only of unknown actions leaves the state as it was. |
| Alerts.AlertStore.constructor | src/features/alert/contexts/AlertContext.tsx:44-45 | The store starts with no alerts and `nextId` equal to 1. |
| Alerts.AlertStore.ShowAlert | src/features/alert/contexts/AlertContext.tsx:48-52 | One alert with id `nextId` is appended and `nextId` grows by one. Ids stay increasing and below `nextId`. |
| Alerts.AlertStore.ShowError | src/features/alert/contexts/AlertContext.tsx:61-63 | `showAlert` with type `error`. |
| Alerts.AlertStore.ShowSuccess | src/features/alert/contexts/AlertContext.tsx:65-67 | `showAlert` with type `success`. |
| Alerts.AlertStore.RemoveAlert | src/features/alert/contexts/AlertContext.tsx:70-72 | The alerts with the id are dropped. `nextId` is unchanged. The invariant is kept. |
| Alerts.WithoutAlert | src/features/alert/contexts/AlertContext.tsx:71 | The filtered list is no longer than before and holds no alert with the removed id. |
| Alerts.Appended | src/features/alert/contexts/AlertContext.tsx:52 | The old alerts are a prefix and the new alert is last. |
| Alerts.RemoveAlertSpec | src/features/alert/contexts/AlertContext.tsx:71 | An alert remains iff it was there and its id differs, and the order is kept. |
| Alerts.RemoveUnknownIsIdentity | src/features/alert/contexts/AlertContext.tsx:71 | Removing an id that no alert carries changes nothing. |
| Alerts.RemoveKeepsIdsBelow | src/features/alert/contexts/AlertContext.tsx:71 | Removal keeps ids increasing and below `nextId`. |
| Alerts.AppendKeepsIdsBelow | src/features/alert/contexts/AlertContext.tsx:49-52 | Appending id `nextId` and then incrementing keeps that invariant. |
| MentionList.JsRem | src/features/folder/components/MentionList.tsx:31-38 | JavaScript `%` agrees with the Euclidean remainder on non-negative operands, and is not positive for a negative dividend. |
| MentionList.RemBelowTwice | src/features/folder/components/MentionList.tsx:31-38 | A remainder of a value below twice the divisor subtracts the divisor at most once. |
| MentionList.ArrowsStayInRange | src/features/folder/components/MentionList.tsx:31-38 | With n > 0 items, ArrowUp moves to i-1, wrapping from 0 to n-1. ArrowDown moves to i+1, wrapping from n-1 to 0. |
| MentionList.ArrowsAreInverse | src/features/folder/components/MentionList.tsx:31-38 | Up after Down and Down after Up return to the same index. |
| MentionList.EmptyListGivesNaN | src/features/folder/components/MentionList.tsx:31-45 | With 0 items an arrow key gives `NaN`. `NaN` is absorbing, and Enter finds no item there. |
| MentionList.ArrowUpIndex | src/features/folder/components/MentionList.tsx:31-34 | ArrowUp gives `NaN` iff the index was `NaN` or there are no items. From a non-negative index with items it lands in `[0, n)`. |
| MentionList.ArrowDownIndex | src/features/folder/components/MentionList.tsx:35-38 | ArrowDown gives `NaN` iff the index was `NaN` or there are no items. From an index of at least -1 with items it lands in `[0, n)`. |
| MentionList.Selected | src/features/folder/components/MentionList.tsx:39-41 | `items[selectedIndex]` is an item iff the index is a number within the list, and then it is the item at that index. An empty list selects nothing. |
| MentionList.CommandFor | src/features/folder/components/MentionList.tsx:41-42 | Enter passes the item's title as the label and `String(id)` as the id: a `-` iff the id is negative, then decimal digits only, and the string reads back as the id. |
| Strings.IntToString | src/features/folder/components/MentionList.tsx:42 | `String(n)` is non-empty and starts with `-` iff `n` is negative. Every other character is a decimal digit, and the string reads back as `n`. |
| Strings.NatToStringValue | src/features/folder/components/MentionList.tsx:42 | The decimal digits of a natural number read back as that number. |
| Strings.IntToStringInjective | src/features/folder/components/MentionList.tsx:42 | Distinct ids are spelled differently, so distinct notes get distinct mention ids. |
| MentionList.MentionListState.constructor | src/features/folder/components/MentionList.tsx:21 | The index starts at 0. |
| MentionList.MentionListState.SetItems | src/features/folder/components/MentionList.tsx:24-26 | New items reset the index to 0. |
| MentionList.MentionListState.OnKeyDown | src/features/folder/components/MentionList.tsx:30-47 | The arrows move the index. Enter calls `command` with `{id: String(id), label: title}` exactly when an item is selected. These three are handled. Any other key is unhandled and changes nothing. |
| MentionSuggestion.Items | src/features/folder/components/mentionSuggestion.tsx:14-21 | There are at most 8 suggestions. Each is one of the notes, has a title, and its lower-cased title contains the lower-cased query. |
| MentionSuggestion.TitleMatches | src/features/folder/components/mentionSuggestion.tsx:17-19 | A note without a title never matches. The empty query matches every titled note. A title equal to the query up to case matches. |
| MentionSuggestion.ItemsArePrefixOfMatches | src/features/folder/components/mentionSuggestion.tsx:16-20 | The suggestions are the first (up to 8) matches in the getter's order, and all of them when there are at most 8. |
| MentionSuggestion.MatchingIsExact | src/features/folder/components/mentionSuggestion.tsx:17-19 | A note matches iff it has a title that contains the query, ignoring case. A note without a title is never suggested. |
| MentionSuggestion.EmptyQueryMatchesEveryTitle | src/features/folder/components/mentionSuggestion.tsx:17-20 | The empty query selects the first 8 notes that have a title. |
| AddNote.LineCount | src/features/note/components/addNote.tsx:34 | `split("\n").length` is the number of newlines plus one. |
| AddNote.SplitOnSpaces | src/features/note/components/addNote.tsx:35 | `split(/\s+/)` gives at least one piece, and the first is the text before the first whitespace. |
| AddNote.SplitOnSpacesPiece | src/features/note/components/addNote.tsx:35 | No piece holds whitespace, and only the first and the last piece can be empty. |
| AddNote.WordCount | src/features/note/components/addNote.tsx:35 | The word count is at most the number of pieces, and at least 1 when the content starts with a non-space. `WordCountIsRunCount` gives its exact value. |
| AddNote.WordCountIsRunCount | src/features/note/components/addNote.tsx:35 | `split(/\s+/).filter(w => w).length` equals the number of maximal non-whitespace runs. |
| AddNote.BlankContentHasNoWords | src/features/note/components/addNote.tsx:35 | Blank content has word count 0. |
| AddNote.NewNote | src/features/note/components/addNote.tsx:25-37 | The note carries the given id, the user and folder ids, the trimmed title and content, and the two timestamp readings as `created_at` and `updated_at`. `char_count` = `size_bytes` = the untrimmed length, and there are newlines + 1 lines and as many words as maximal non-whitespace runs. |
| AddNote.CountersUseUntrimmedContent | src/features/note/components/addNote.tsx:30-36 | Content with leading or trailing whitespace is stored shorter than its `char_count`. |
| AddNote.AddNoteForm.constructor | src/features/note/components/addNote.tsx:14-15 | Both inputs start empty. |
| AddNote.AddNoteForm.Edit | src/features/note/components/addNote.tsx:57-63 | Typing sets the inputs and leaves the store alone. |
| AddNote.AddNoteForm.HandleSubmit | src/features/note/components/addNote.tsx:17-49 | A blank title changes nothing. Otherwise the new note is appended to the store and both inputs are cleared. |
| AddNote.BlankTitleIsRefused | src/features/note/components/addNote.tsx:22 | The title is refused iff it is empty or all whitespace. |
| QuickSearch.SearchDecision | src/features/search/components/QuickSearch.tsx:58-73 | A request is sent iff the panel is open, the user id is positive and the trimmed query has at least 2 characters, and it is sent trimmed. When the panel is open for a positive user id, a shorter query clears the results. |
| QuickSearch.SentQueryIsTrimmed | src/features/search/components/QuickSearch.tsx:64-73 | A sent query has at least 2 characters and no whitespace at either end. |
| QuickSearch.BlankQueryIsNotSent | src/features/search/components/QuickSearch.tsx:64 | An all-whitespace query is never sent. |
| QuickSearch.Route | src/features/search/components/QuickSearch.tsx:90-95 | A `FOLDER` item opens the folder. Any other type opens the note with its folder id. |
| QuickSearch.ErrorText | src/features/search/components/QuickSearch.tsx:77 | Shows the thrown error's message, or "Erreur inconnue". |
| QuickSearch.QuickSearchPanel.constructor | src/features/search/components/QuickSearch.tsx:19-28 | The panel starts closed, with an empty query, no results, not loading, no error, and the last Shift at 0. |
| QuickSearch.QuickSearchPanel.HandleKeyDown | src/features/search/components/QuickSearch.tsx:32-50 | Escape closes an open panel. Every Shift records the time. A second Shift within 400 ms with a truthy user id opens a cleared panel. Anything else changes nothing. |
| QuickSearch.QuickSearchPanel.SetQuery | src/features/search/components/QuickSearch.tsx:117 | Only the query changes. |
| QuickSearch.QuickSearchPanel.RunSearchEffect | src/features/search/components/QuickSearch.tsx:57-81 | Skip changes nothing. Clear empties the results and stops loading. Send starts loading and issues the trimmed request. |
| QuickSearch.QuickSearchPanel.CompleteSearch | src/features/search/components/QuickSearch.tsx:72-80 | On success the results are replaced and the error cleared. On a throw the error text is set. Either way loading stops. |
| QuickSearch.QuickSearchPanel.HandleResultClick | src/features/search/components/QuickSearch.tsx:90-97 | Navigates as `Route` says and closes the panel. |
| QuickSearch.QuickSearchPanel.HandleInputEnter | src/features/search/components/QuickSearch.tsx:118-122 | Enter opens the first result when there is one. Otherwise nothing happens. |
| QuickSearch.QuickSearchPanel.CloseOverlay | src/features/search/components/QuickSearch.tsx:102 | A click on the overlay closes the panel and changes nothing else. |
| ExportFilename.FindMatch | src/features/folder/services/export-zip-service.tsx:31 | Finds the leftmost index where `filename=` is followed by a non-`;` character, or reports that there is none. |
| ExportFilename.MatchesAt | src/features/folder/services/export-zip-service.tsx:31 | The pattern matches at `i` iff `filename=` starts at `i` and the greedy `[^;]+` after it captures at least one character. |
| ExportFilename.RunToSemicolon | src/features/folder/services/export-zip-service.tsx:31 | The greedy `[^;]+` capture is the text up to the next `;` or the end. |
| ExportFilename.Capture | src/features/folder/services/export-zip-service.tsx:31-32 | A capture, when there is one, is non-empty and has no `;`. |
| ExportFilename.WithoutQuotes | src/features/folder/services/export-zip-service.tsx:33 | Removes every `"` and keeps every other character. The result is shorter by the number of quotes. |
| ExportFilename.QuotesDropped | src/features/folder/services/export-zip-service.tsx:33 | Removing the quotes shortens the text by exactly the number of `"` in it. |
| ExportFilename.Filename | src/features/folder/services/export-zip-service.tsx:28-35 | A missing or empty header, or one that does not match, keeps the default. A match gives a name without quotes. |
| ExportFilename.NameFromMatch | src/features/folder/services/export-zip-service.tsx:30-35 | The name is the leftmost capture without its quotes, in order, with every other character kept. |
| ExportFilename.EmptyParamIsSkipped | src/features/folder/services/export-zip-service.tsx:31 | A `filename=` followed by `;` or the end is not where the match is taken. |
| ExportFilename.OnlyQuotesGiveEmptyName | src/features/folder/services/export-zip-service.tsx:32-33 | A capture made only of quotes gives the empty name, not the default. |
| ExportFilename.DownloadName | src/features/folder/services/export-note-service.tsx:19-35 | A failed response throws before any name is derived. Otherwise the name comes from the header or is the default. |
| ExportFilename.ZipDownloadName | src/features/folder/services/export-zip-service.tsx:19-35 | Throws "Erreur lors de l'export ZIP", or falls back to `folder_<id>.zip`. |
| ExportFilename.PdfDownloadName | src/features/folder/services/export-note-service.tsx:19-35 | Throws "Error during PDF export", or falls back to `note_<id>.pdf`. |
| ApiErrors.NewApiError | src/shared/exceptions/ApiError.ts:7-11 | Keeps `status` and `detail`. The message is the title, `": "` and the detail. |
| ApiErrors.Or | src/shared/exceptions/ApiError.ts:17-18 | `a \|\| b` on a string field is `a` when it is a non-empty string, and `b` when it is absent, `null` or empty. |
| ApiErrors.MessageSplitsBack | src/shared/exceptions/ApiError.ts:8 | The message splits back into the title, `": "` and the detail. |
| ApiErrors.FromResponse | src/shared/exceptions/ApiError.ts:13-20 | The status always comes from the response. A `null` body throws. An unparsable or non-object body gives the defaults. An object body gives the `title \|\| 'Erreur'` and `detail \|\| message \|\| 'Une erreur est survenue'` fallbacks. |
| ApiErrors.FallbackChain | src/shared/exceptions/ApiError.ts:15-19 | Spells out each branch of the detail fallback and the resulting message. |
| ApiErrors.UnparsableBodyUsesDefaults | src/shared/exceptions/ApiError.ts:14 | An unparsable body is read as `{}`, which gives "Erreur: Une erreur est survenue". |

## Left out

- The rendering (JSX, CSS classes, the `typeLabel` chips, scores, snippets and hint texts) is not modelled. It is presentation only.
- Network calls (`fetchWithAuth`, `searchService.quickSearch`) are not modelled. The search request is returned as a value and its outcome is a parameter.
- Blobs, object URLs and the invisible download link are not modelled. The model stops at the file name.
- Timers are not modelled: the alert's 5-second auto-removal, the 250 ms search debounce with its `clearTimeout`, and the 40 ms input focus. Clock readings (`Date.now()`, `new Date().toISOString()`) are parameters, one per reading, so two readings in the source are two independent values in the model.
- Alerts.AlertStore.ShowAlert: the callbacks are modelled as sequential calls, each seeing the latest state. React's `useCallback` closures can capture a stale `nextId`, and `removeAlert` is referenced before its declaration. That interleaving, and the duplicate ids it can produce, are not modelled.
- The `globalShowError` hook and the `useAuth`/`useAlert` "must be used within a provider" errors are wiring, not logic.
- The `@mention` popup lifecycle (tippy `onStart`, `onUpdate`, `onExit`) and Escape handling in `onKeyDown` are not modelled. They only show, move and destroy the popup.
- Mouse selection in the mention dropdown is not modelled. It calls `command` with the same argument as Enter, which `CommandFor` gives.
- `User`, `folder.ts`, `folderDto.ts` and `user.ts` are not part of this model. `Auth` is generic in the user type. The folder fields are taken from the service's seeds.
- FakeFolders.FakeFolderService.UpdateFolder: a `Partial<Folder>` key that is present with the value `undefined` is not modelled. Each patch field is either absent or a value.
- ApiErrors.FromResponse: JSON fields holding non-string values (numbers, booleans, objects) are not modelled. A field is a string, `null` or absent.
- Strings.ToLower: only ASCII letters are lower-cased. Unicode case mapping is not modelled. `\s` and `trim` are taken as ASCII whitespace, without the Unicode space separators.
- AddNote.NewNote: `char_count` and `size_bytes` count Unicode code points, since a Dafny string is a sequence of code points. JavaScript's `.length` counts UTF-16 code units, so the two differ for content with characters outside the Basic Multilingual Plane (an emoji counts 2 in the source and 1 here). Encodings are not modelled.
- QuickSearch.SearchDecision: the two-character minimum counts code points, while the source's `query.trim().length` counts UTF-16 code units. A query of a single character outside the Basic Multilingual Plane is sent by the source but clears the results in the model.
- FakeFolders.FakeFolderService.CreateFolder: the model follows the declared `Omit<Folder, "id" | "created_at">` type of `data`. An object that still carries `id` or `created_at` would override the counter value or the timestamp through the spread, which this model cannot express.
- `addNote` of the fake note service, and its seed notes, are modelled only as appending to a list.
- The `onNoteAdded` callback is declared but never called, and the `try`/`catch` around note creation cannot fail in the model.
