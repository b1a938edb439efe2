# Notes app: a Dafny model of the note store and the notes page

The notes app has two pieces of logic. The first is an Express server. It keeps an
in-memory, insertion-ordered list of notes and an id counter, and it answers
`GET /api/notes` (list) and `POST /api/notes` (create). The second is the React `HomePage`.
It holds the page state (`notes`, the add form, the editing state, `loading`, `error`),
and its handlers move that state when the user adds, deletes or edits a note, or when
the list is (re)loaded.

The model is split into these files:

- `notes.dfy` (module `Notes`): the `Note` record. It also holds `Option` (the JavaScript
  `null`) and `Reply`, the outcome of one network request: a parsed body, or a failure.
- `server.dfy` (module `NotesServer`): the store as the class `NoteStore`.
  - Fields: `notes` and `nextId`, plus a ghost log of the accepted submissions.
  - Methods: `List` and `Create`.
  - `Valid()` is the invariant. The notes are exactly the accepted submissions numbered
    1, 2, … in order. Ids are at least 1, strictly increasing, and below `nextId`.
  - A request field is `Missing` or `Given(string)`. The server's check `!title || !text`
    is `Falsy`.
- `text.dfy` (module `Text`): JavaScript's `trim()` over the ECMAScript WhiteSpace and
  LineTerminator characters, and the page's `s.trim() === ''` check, `IsBlank`.
- `note_list.dfy` (module `NoteList`): the page's pure list transforms.
  - `WithoutId` is `filter` by id; `ReplaceById` is `map`-replace by id.
  - `Cards` gives the cards the main view renders.
- `home_page.dfy` (module `HomePage`): the page as the class `Page`.
  - Each handler is a method. The server's answer to a request is a `Reply` parameter.
    `window.confirm` is a boolean parameter.
  - `AddNote`, `DeleteNote` and `SaveEditedNote` return the POST, DELETE or PUT they would
    send, or `None` when they send nothing. The GET of `FetchNotes` is not represented; its
    outcome is the `reply` parameter.
  - `isCrudEnabled` is the constant `crudEnabled`, set by the constructor.
  - `fetchNotes` is split at its `await`. `FetchStart` is the state while the request is
    in flight, `FetchFinish` is the rest, and `FetchNotes` runs both.
- `validation.dfy` (module `Validation`): how the page's blank-after-trim check relates to
  the server's falsy check.

`server/server.js:29` rejects only a missing or empty title or text, so a title of spaces
is accepted. The page (`src/page/HomePage.js:67`) refuses such a title.
`Validation.ServerAcceptsBlankTitle` records the difference.
As written, the two pieces do not call each other: the page talks to json-server or to a
read-only file (src/page/HomePage.js:8-16), while the server listens on `/api/notes`
(server/server.js:20, 25). The `Validation` lemmas compare the two checks as predicates,
not along a call path.

## Model

| member | source | states |
|---|---|---|
| `NotesServer.Falsy` | server/server.js:29 | JavaScript falsiness of a body field: missing or the empty string, so a string of spaces is not falsy; pinned down by the rejection clauses of `NoteStore.Create` and by `Validation.ServerAcceptsBlankTitle` |
| `NotesServer.Accepts` | server/server.js:29-31 | the negation of the either-field-falsy test: both fields present and non-empty; `NoteStore.Create` answers 201 exactly when it holds, and `Validation.PageGuardImpliesServerAccepts` shows the page's guard implies it |
| `NotesServer.Numbered` | server/server.js:33-39 | replaying accepted submissions gives one note per submission, in order, the k-th with id k + 1 and that submission's title and text |
| `NotesServer.NumberedIdsBelow` | server/server.js:15-39 | a replayed store has ids that are at least 1, strictly increasing (so pairwise distinct) and below the counter |
| `NotesServer.NumberedSnoc` | server/server.js:34-39 | accepting one more submission appends exactly one note carrying the next id and leaves every earlier note in place |
| `NotesServer.NoteStore.constructor` | server/server.js:14-15 | the store starts with no notes and the counter at 1 |
| `NotesServer.NoteStore.List` | server/server.js:20-22 | listing returns the stored notes in insertion order, with the id invariant, and changes nothing |
| `NotesServer.NoteStore.Create` | server/server.js:25-41 | a missing or empty title or text gives status 400 (and only then: 201 exactly for a created note) and leaves notes, counter and log untouched; otherwise the note gets the old counter as id, the counter goes up by exactly 1, the note is appended at the end, the response is 201 with that very note and the request's title and text, its id exceeds every earlier id, and the invariant is kept |
| `Text.TrimStartDropsLeadingWhitespace` | src/page/HomePage.js:67 | trimming the start removes a prefix made only of whitespace and stops at the first other character |
| `Text.TrimEndDropsTrailingWhitespace` | src/page/HomePage.js:67 | trimming the end removes a suffix made only of whitespace and stops at the last other character |
| `Text.Trim` | src/page/HomePage.js:67 | `s.trim()` is no longer than `s` and neither starts nor ends with whitespace; `TrimIsInfix` places it in `s` |
| `Text.IsBlank` | src/page/HomePage.js:67 | `s.trim() === ''` holds if and only if every character of `s` is whitespace (so the empty string and a string of spaces are blank); the guard at src/page/HomePage.js:136 is the same check |
| `Text.TrimIsInfix` | src/page/HomePage.js:67 | `trim()` yields the infix left after dropping only whitespace on both ends, and it neither starts nor ends with whitespace |
| `NoteList.WithoutId` | src/page/HomePage.js:113 | the filtered list is no longer than the original, holds no note with the deleted id, and holds only notes of the original |
| `NoteList.WithoutIdCounts` | src/page/HomePage.js:113 | the filter drops every occurrence of a note with the deleted id and keeps every other note exactly as often as it occurred |
| `NoteList.WithoutIdAppend` | src/page/HomePage.js:113 | filtering commutes with concatenation, so surviving notes keep their relative order |
| `NoteList.WithoutIdAbsent` | src/page/HomePage.js:113 | deleting an id no note carries leaves the list unchanged |
| `NoteList.DeleteUnique` | src/page/HomePage.js:113 | with distinct ids, deleting the id of the note at position k removes exactly that note and the list shrinks by one |
| `NoteList.ReplaceById` | src/page/HomePage.js:159-163 | the mapped list has the same length; each position whose id equals the edited id holds the saved note and every other position is unchanged; a null target replaces nothing |
| `NoteList.ReplaceKeepsIds` | src/page/HomePage.js:159-163 | when the saved note carries the edited id, every position keeps its id |
| `NoteList.Cards` | src/page/HomePage.js:227-272 | one card per note in list order; a card is the edit form, showing the edit buffers, exactly when its note's id is the one being edited, and otherwise shows the note |
| `NoteList.AtMostOneEditForm` | src/page/HomePage.js:233 | with distinct ids at most one card is an edit form |
| `HomePage.Page.constructor` | src/page/HomePage.js:19-29 | the page starts with no notes, empty fields, no note being edited, loading, no error, and the given CRUD flag |
| `HomePage.Page.View` | src/page/HomePage.js:179-198 | the loading view exactly while loading; otherwise the error view exactly while an error is set, showing that error; otherwise the main view whose cards are `Cards` of the notes and the editing state: one per note in list order, the edit form on the edited note |
| `HomePage.Page.FetchStart` | src/page/HomePage.js:31-33 | a fetch begins with loading on, the error cleared and the loading view shown, nothing else changed |
| `HomePage.Page.FetchFinish` | src/page/HomePage.js:44-55 | on success the list becomes the response's `notes`, or empty when absent; on failure the error is set and the list kept; loading ends either way |
| `HomePage.Page.FetchNotes` | src/page/HomePage.js:31-56 | a whole fetch ends not loading, on the main view with the fetched list and no error, or on the error view with the old list |
| `HomePage.Page.AddNote` | src/page/HomePage.js:62-97 | read-only mode or a blank title or text sends nothing and changes nothing; otherwise it posts the two fields; success appends the returned note and clears the fields; failure sets the error and keeps list and fields; editing state and loading untouched |
| `HomePage.Page.DeleteNote` | src/page/HomePage.js:99-119 | read-only mode or a declined confirmation sends nothing and changes nothing; otherwise it sends the delete; success filters the id out of the list; failure sets the error and keeps the list |
| `HomePage.Page.StartEditing` | src/page/HomePage.js:121-129 | read-only mode changes nothing; otherwise the edited id becomes the note's id and the buffers its title and text |
| `HomePage.Page.SaveEditedNote` | src/page/HomePage.js:131-171 | read-only mode or a blank buffer sends nothing and changes nothing; otherwise it puts the buffers to the edited id; success replaces the notes with that id by the returned note and leaves editing mode with empty buffers; failure sets the error and keeps the list, the id and the buffers; outside editing mode nothing is sent, by the page invariant |
| `HomePage.Page.CancelEditing` | src/page/HomePage.js:173-177 | in either mode, leaves editing mode with empty buffers and changes nothing else |
| `HomePage.Page.ChangeNewNoteTitle` | src/page/HomePage.js:204-210 | typing into the enabled title field sets it and keeps the page invariant |
| `HomePage.Page.ChangeNewNoteText` | src/page/HomePage.js:211-216 | typing into the enabled text field sets it and keeps the page invariant |
| `HomePage.Page.ChangeEditedTitle` | src/page/HomePage.js:235-240 | typing into the shown edit title field sets the buffer and keeps the page invariant |
| `HomePage.Page.ChangeEditedText` | src/page/HomePage.js:241-245 | typing into the shown edit text field sets the buffer and keeps the page invariant |
| `Validation.PageGuardImpliesServerAccepts` | src/page/HomePage.js:67 | every title and text the page lets through would be accepted by the falsy check of server/server.js:29 |
| `Validation.ServerAcceptsBlankTitle` | server/server.js:29 | the server accepts a title of one space, which the page's blank check refuses |

Every page handler keeps `Page.Valid()`. Outside editing mode the edit buffers are empty.
A read-only page never enters editing mode and never holds text in the add form.

## Left out

- Express setup, body parsing, static files and `app.listen` (server/server.js:1-11, 43-47) are framework wiring. The error body of a 400 answer is not modelled; only the status is.
- Request fields that are present but not strings (numbers, booleans, `null`) are left out. A field is either missing or a string.
- The server has no update or delete routes, so the model has none. The page's PUT and DELETE requests are modelled only as requests it sends.
- `fetch`, URL construction, status checks and JSON parsing are left out. Each request's outcome is an input `Reply`. An answer the page cannot parse is a failure.
- The production-only 404 branch of `fetchNotes` (src/page/HomePage.js:38-43) sets a message and then falls through to parsing the body. It is modelled as a load failure.
- `alert`, `window.confirm` and `console.error` are left out. Confirmation is a boolean parameter. The error messages are reduced to a `Failure` tag naming the failed request.
- Markup, CSS, `disabled` attributes and the `Header` component are presentation. The disabled and hidden inputs appear only as the preconditions of the typing handlers.
- React's asynchrony is left out. Handlers read `notes` from the render closure, so a stale list is possible in the source. Each handler is one atomic step on the current state, except `fetchNotes`, which is split at its request.
- Mounting runs `fetchNotes` once through `useEffect`. The model does not run it automatically; a client calls `FetchNotes` after the constructor.
- `NoteStore`'s counter and collection, and every note id, are unbounded integers and sequences here. JavaScript numbers are exact only up to 2^53, so `nextId++` (server/server.js:34) would eventually repeat ids. `notes.push` (server/server.js:39) throws beyond 2^32 - 1 elements, after the counter has already advanced, which gives a 500 answer that the model has no case for.
- Concurrent server requests are left out. Node runs handlers one at a time, so `Create` is atomic.
