# Journal app: entry store and entry form

A Dafny model of the logic inside a small React journal application. The
app keeps an ordered list of journal entries (`id`, `title`, `body`,
`important`, `userId`) in the state of its top-level `App` component and
changes it only by handing pure transforms to `setEntries`: prepend on
create, `filter` on delete, `map` on edit and on the importance toggle, a
`filter` projection for the "Important Only" view, and wholesale
replacement by ten built-in entries or by the first ten posts of a
placeholder REST API. New entries come from `JournalForm`, which
validates that both fields are non-blank after `String.prototype.trim`,
shows a per-field message otherwise, and clears a field's message when the
user types into it.

Modules:

- `Seqs` (`seqs.dfy`): `Array.prototype.filter` and `Array.prototype.map`
  as recursive functions, and the subsequence relation their contracts use.
- `Text` (`text.dfy`): `String.prototype.trim` over the ECMAScript white
  space and line terminator characters, and blankness.
- `Journal` (`journal.dfy`): the `Entry` datatype and every list transform
  of `App`, the built-in entries, the API post conversion, and the lemmas
  relating the transforms.
- `App` (`app.dfy`): the `Store` class holding the `entries` and
  `filterImportant` state cells, one method per handler.
- `Form` (`form.dfy`): the form data, the error object `validateForm`
  builds, and the `JournalForm` class with `handleChange`, `validateForm`
  and `handleSubmit`.
- `Wrappers` (`wrappers.dfy`): an `Option` datatype.

The model follows the code, which does less than a keyed entry store
would: delete removes every entry carrying the id, not
"the" entry; nothing makes ids unique (a clock reading is used as the id
and API ids are taken as they come), so uniqueness appears only as a
hypothesis of the preservation lemmas; the PUT and POST responses are never
read, so no merge of a remote entry into a local one exists; and a remote
load always draws the `important` flags at random. Unlike create and
edit, which change the list before their request, delete waits for its
DELETE request to settle and only then removes the entry; the model
removes it at once.

The clock reading used as a new id (`Date.now()`), the random draws of
`Math.random() > 0.7` and the outcome of the GET request are parameters
of the methods that use them.

## Model

| member | source | states |
|---|---|---|
| Seqs.Filter | journal-app/src/App.jsx:183 | `filter` keeps exactly the elements that pass, in order (a subsequence), never grows the list, and is the identity when every element passes |
| Seqs.FilterCounts | journal-app/src/App.jsx:220 | `filter` keeps every copy of a passing element and no copy of a failing one (multiset counts) |
| Seqs.Map | journal-app/src/App.jsx:189-193 | `map` keeps the length and applies the callback at every position |
| Seqs.SubsequenceReflexive | journal-app/src/App.jsx:221 | the unfiltered view is trivially an order-preserving view of the list |
| Text.IsWhitespace | journal-app/src/components/JournalForm.jsx:37 | the characters `trim()` removes: the ECMAScript white space (including every space separator) and line terminator code points |
| Text.IsBlank | journal-app/src/components/JournalForm.jsx:41 | `!s.trim()`: the trimmed string is empty, which by `Trim`'s contract holds exactly when every character is white space |
| Form.HasError | journal-app/src/components/JournalForm.jsx:26 | the truthiness of `errors[name]`: the key is present and its message is not the empty string |
| Text.LeadingWhitespace | journal-app/src/components/JournalForm.jsx:37 | counts the leading white space: all of it is white space and the next character is not |
| Text.TrailingWhitespace | journal-app/src/components/JournalForm.jsx:41 | counts the trailing white space: all of it is white space and the character before it is not |
| Text.Trim | journal-app/src/components/JournalForm.jsx:37-41 | `trim()` yields a contiguous piece of the input with only white space outside it, neither starting nor ending with white space, and empty exactly when the input is all white space |
| Journal.Create | journal-app/src/App.jsx:139-147 | the new list is the new entry followed by the old list unchanged; the entry has the submitted title and body, `important` false and owner 1; length grows by one |
| Journal.Delete | journal-app/src/App.jsx:183 | the result is a subsequence of the list holding exactly the entries whose id differs; an absent id changes nothing |
| Journal.DeleteCounts | journal-app/src/App.jsx:183 | every copy of an entry with another id survives and no entry with the id does |
| Journal.DeleteRemovesExactlyOne | journal-app/src/App.jsx:183 | with distinct ids, deleting the id at position k gives the list without position k, the rest in order |
| Journal.DeleteUndoesCreate | journal-app/src/App.jsx:147-183 | deleting a just-created entry by its id restores the previous list when the id was not in use |
| Journal.Update | journal-app/src/App.jsx:189-193 | length and order kept; matching entries get the new title and body and keep id, flag and owner; other entries identical; absent id is a no-op |
| Journal.UpdateIdempotent | journal-app/src/App.jsx:189-193 | saving the same edit twice equals saving it once |
| Journal.ToggleImportant | journal-app/src/App.jsx:213-216 | length and order kept; matching entries differ only in the flipped flag; other entries identical; absent id is a no-op |
| Journal.ToggleTwice | journal-app/src/App.jsx:214-215 | toggling the same id twice returns the original list |
| Journal.View | journal-app/src/App.jsx:219-221 | with the filter on, an order-preserving subsequence holding exactly the important entries; with it off, the list itself |
| Journal.ImportantViewCounts | journal-app/src/App.jsx:220 | the important-only view keeps every copy of every important entry and nothing else |
| Journal.SeedEntries | journal-app/src/App.jsx:10-81 | ten entries with ids 1..10 in order, pairwise distinct, owner 1, entries 1, 4, 5 and 9 important |
| Journal.Kept | journal-app/src/App.jsx:108 | `slice(0, 10)` keeps min(10, number of posts) items |
| Journal.FromPosts | journal-app/src/App.jsx:108-111 | at most ten entries, the first posts in order with id, title, body and owner copied and `important` set to the draw for that position |
| Journal.Fetch | journal-app/src/App.jsx:101-123 | a remote load yields at most ten entries: on success exactly the converted posts (`FromPosts`, every field copied and the drawn flag), on failure exactly the built-in entries |
| Journal.CreateKeepsDistinctIds | journal-app/src/App.jsx:140-147 | creating with an id not in use keeps ids distinct |
| Journal.DeleteKeepsDistinctIds | journal-app/src/App.jsx:183 | deleting never introduces a shared id |
| Journal.MapsKeepDistinctIds | journal-app/src/App.jsx:189-216 | editing and toggling keep ids distinct |
| Form.WithField | journal-app/src/components/JournalForm.jsx:21-24 | the named field takes the new value, the other field keeps its value |
| Form.ValidationErrors | journal-app/src/components/JournalForm.jsx:35-43 | a key for exactly the blank fields, holding "Title is required" or "Body is required" |
| Form.ValidIffFilled | journal-app/src/components/JournalForm.jsx:46 | validation passes iff neither trimmed field is empty, i.e. iff each field has a non-white-space character |
| Form.JournalForm.constructor | journal-app/src/components/JournalForm.jsx:3-17 | a new form starts empty with no errors, or with the edited entry's title and body |
| Form.JournalForm.HandleChange | journal-app/src/components/JournalForm.jsx:19-32 | only the named field changes; its shown error is cleared to the empty string; other errors stay |
| Form.JournalForm.ValidateForm | journal-app/src/components/JournalForm.jsx:34-47 | errors are replaced wholesale by those of the current fields; the verdict is true iff both fields are non-blank |
| Form.JournalForm.HandleSubmit | journal-app/src/components/JournalForm.jsx:49-59 | data is handed on only when valid; fields reset after a valid new-entry submit, kept for an edit or a failed submit |
| App.Store.constructor | journal-app/src/App.jsx:84-87 | the list starts empty and the filter off |
| App.Store.LoadDemo | journal-app/src/App.jsx:125-134 | the list becomes exactly the built-in entries (also what the mount effect at line 93 does) |
| App.Store.FetchEntries | journal-app/src/App.jsx:101-123 | the list becomes the converted posts, at most ten, or the built-in entries on failure |
| App.Store.CreateEntry | journal-app/src/App.jsx:136-171 | the list becomes the new entry followed by the old list, whatever the POST does |
| App.Store.DeleteEntry | journal-app/src/App.jsx:173-184 | the list loses the entries with the id, keeping the rest in order, whatever the DELETE does |
| App.Store.UpdateEntry | journal-app/src/App.jsx:186-211 | the edit is applied locally, length unchanged |
| App.Store.ToggleImportant | journal-app/src/App.jsx:213-217 | the flag of the matching entries flips, length unchanged |
| App.Store.ToggleFilter | journal-app/src/App.jsx:245-250 | the important-only filter flips |
| App.Store.FilteredEntries | journal-app/src/App.jsx:219-221 | the rendered list is `View` of the entries (so, with `ImportantViewCounts`, every copy of every important entry in order when filtering, all entries otherwise); the store is not changed |
| App.Store.SubmitNewEntry | journal-app/src/App.jsx:271-277 | the new-entry form wired to `createEntry`: an invalid submit changes neither list nor fields; a valid one prepends an entry with non-blank title and body and empties the form; either way the shown errors become those of the submitted data |

## Left out

- The network calls (GET, POST, PUT, DELETE), `response.json()` and the `console.log`/`console.error` reporting: their outcome never changes the list except through the GET failure, which is the `FetchFailed` case of the fetch result parameter.
- The `loading`, `showForm` and `dataSource` state cells, the `setTimeout` delays, `clearTimeout`, and the cleanup function `useDemoData` returns: timer and UI plumbing with no effect on the list's contents.
- App.Store.DeleteEntry: removes the entries at once, whereas `deleteEntry` first awaits the DELETE request and removes them only after it settles (App.jsx:176-183); other handlers may run in between, and a request that never settles never removes anything. The model does not capture that delay or that interleaving, because the network is not modelled.
- React's scheduling: handlers are modelled as running to completion one after the other, so batched or stale-closure state reads (`errors[name]` in `handleChange`) read the current state.
- Rendering, the `loading` prop that disables the form's inputs, and the components `JournalList` and `JournalEntry` (edit modal, `window.confirm` before delete); their calls into the store are `UpdateEntry`, `DeleteEntry` and `ToggleImportant`.
- Fields other than `userId`, `id`, `title` and `body` in an API post: the spread would copy them, but the placeholder API sends only these four.
- `handleChange` with an input name other than `title` or `body`: the form has no such input.
- Uniqueness of ids: the code does not guarantee it, so it is a hypothesis of the lemmas that need it rather than an invariant of `Store`.
