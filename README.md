# LinkHub in Dafny

LinkHub is a single-page bookmark manager. It keeps its bookmarks ("links") as one JSON file,
`/linkhub-data.json`, in a repository the user owns on GitHub, and it reads and writes that file
through GitHub's contents API. All of its logic is in `app.js`. The application object keeps a
mutable `state` record:

- the three credentials (user name, token, repository);
- the list of links;
- the two edit-mode flags, `isEditing` and `currentEditId`.

The event handlers change that record.

This project models that logic and proves properties of it:

- **The link record and the list operations** (`links.dfy`): the delete filter,
  `findIndex`/`find`, `Array.prototype.filter` as `Keep`, and what prepending and replacing by
  id do to the uniqueness of ids.
- **The string functions the handlers use** (`text.dfy`): ECMAScript `trim` with its exact set
  of white-space and line-terminator characters, `toLowerCase`, `includes`, `split` on a
  character, `join`, and the decimal rendering of a status code.
- **The tags field** (`tags.dfy`): parsing on submit (split at commas, trim, drop empties) and
  formatting when an edit opens (join with ", "), with the round trip between them.
- **The link form** (`forms.dfy`): its pre-filled fields, the record a submitted form
  becomes in add and in edit mode, and the replacement by id in place that an edit makes.
- **The search box** (`search.dfy`).
- **The outcome rules of the API wrapper, of a load and of a save** (`remote.dfy`):
  - the error message `GitHub API error: <status> <statusText>`;
  - `Array.isArray` on the decoded content;
  - the `"404"` test on the error message;
  - the revision token taken from the read before a write;
  - `btoa` refusing characters above U+00FF.
- **The application object** (`app.dfy`): class `App.LinkHub`, with the fields of `state` and
  the visible screen.
  - Its methods are `_checkAuthState`, `_handleAuthSubmit`, `_loadLinksFromGitHub`,
    `_saveLinksToGitHub`, `_openModal`, `_closeModal`, `_handleLinkSubmit` and the delete
    button's handler.
  - Every reply from GitHub is a method argument.
  - A method returns the write request it sends.
  - Each method is proved equal to a step function on a `Session` value. The step for a
    submit in add mode prepends the new link.
  - The properties of the handlers are lemmas about those step functions.

Behaviour of the code that the model keeps, and that a reader might not expect:

- **What loads as the empty list.** A failed load gives the empty list whenever the error
  message contains `404` (`app.js:133`). `Remote.ApiErrorMentions404` and
  `Remote.LoadOtherStatusRejected` show what that test matches:
  - status 404, and no other three-digit status;
  - any failing status whose status text contains `404`;
  - a transport or decoding failure whose message contains `404`.
- **A missing edit target.** Submitting an edit whose link is gone reads `createdAt` of
  `undefined` (`app.js:302`). That throws a `TypeError` before anything changes. The model gives
  `None` and leaves the state as it was.
- **The read before a write.** Every failure of this read is ignored (`app.js:158`), not only
  404. Any failed read sends the write without a token.
- **The order inside a save.** The list is encoded before that read (`app.js:150`). When
  encoding throws, no request at all is sent.
- **The commit message.** It is chosen only by `isEditing` (`app.js:162`). So a delete made
  outside edit mode is committed as "Add new link to LinkHub" (`App.DeleteIsSent`).

## Model

| member | source | states |
|---|---|---|
| Text.TrimOffset | app.js:300 | the kept text starts at the first character that is not white space |
| Text.Trim | app.js:300 | the result has no leading or trailing white space, starts where the leading white space ends, and only white space is cut from either end |
| Text.TrimNoNewChars | app.js:300 | trimming brings in no character that was not in the input |
| Text.TrimTrimmed | app.js:300 | a string with no white space at either end is its own trim |
| Text.TrimAfterSpace | app.js:300 | the piece after ", " trims back to the tag that followed the comma |
| Text.TrimAllSpace | app.js:320-321 | a string of white space only trims to the empty string |
| Text.LowerChar | app.js:320 | upper-case ASCII letters move to lower case; every other character is unchanged |
| Text.ToLower | app.js:320 | lower-casing keeps the length |
| Text.ToLowerIdempotent | app.js:320 | lower-casing twice is lower-casing once |
| Text.ToLowerKeepsSpace | app.js:320 | lower-casing keeps a white-space-only string white space only |
| Text.ContainsTrim | app.js:320-328 | a string contains its own trim |
| Text.FirstCharAbsent | app.js:327-329 | a string without the query's first character does not contain the query |
| Text.Contains | app.js:327-329 | `includes`: the empty string is in every string, and no string is in a shorter one |
| Text.NoDigitsNoRun | app.js:133 | a string without digits contains no non-empty run of digits |
| Text.RunAroundSeparator | app.js:117 | a run of digits occurs in a+c+b, for a non-digit c, exactly when it occurs in a or in b |
| Text.Split | app.js:300 | `split` on a character gives at least one piece, and no piece holds the separator |
| Text.Join | app.js:273 | `join` of no parts is empty and of one part is that part; JoinSplit and SplitJoin relate it to Split |
| Text.JoinSplit | app.js:300 | joining the pieces of a split with the separator gives the input back |
| Text.SplitJoin | app.js:273 | splitting a join of separator-free pieces gives the pieces back |
| Text.Decimal | app.js:117 | the decimal numeral of a status is a non-empty string of digits |
| Text.DecimalThreeDigits | app.js:117 | a three-digit status is written with its three digits, most significant first |
| Text.ThreeDigitsMention404 | app.js:117 | a three-digit status's numeral contains "404" exactly when the status is 404 |
| Links.Keep | app.js:326 | `filter` keeps exactly the elements that pass the test, and no more of them than there were |
| Links.KeepIsSubsequence | app.js:326 | `filter` keeps the survivors in their original order |
| Links.KeepAppend | app.js:246 | filtering a concatenation filters each part |
| Links.KeepAll | app.js:246 | filtering gives the list back exactly when every element passes |
| Links.KeepIdempotent | app.js:246 | filtering twice by the same test is filtering once |
| Links.FirstIndex | app.js:308 | `findIndex` gives the first position with the id, and none exactly when no link has it |
| Links.Find | app.js:269 | `find` gives the first link of the list with the id (the one at FirstIndex), and none exactly when no link has it |
| Links.Without | app.js:246 | deleting keeps exactly the links with another id, in order, and leaves none with the id |
| Links.WithoutAbsent | app.js:246 | deleting an id that no link has changes nothing |
| Links.WithoutIdempotent | app.js:246 | deleting twice is deleting once |
| Links.WithoutAppend | app.js:246 | deleting from a concatenation deletes from each part |
| Links.WithoutKeepsUnique | app.js:246 | a delete keeps ids unique |
| Links.AddFreshKeepsUnique | app.js:312 | putting a link with a fresh id in front keeps ids unique |
| Links.ReplaceKeepsUnique | app.js:309 | replacing a link with one of the same id keeps ids unique |
| Tags.CleanPieces | app.js:300 | after `map(trim)` and `filter(tag !== '')`, every tag is non-empty and trimmed, and there are no more tags than pieces |
| Tags.TrimEach | app.js:300 | `map(trim)` keeps the number of pieces and trims each one |
| Tags.CleanPiecesIsChain | app.js:300 | trimming and dropping empties is exactly `map(trim)` followed by `filter(tag !== '')` |
| Tags.CleanPiecesNoComma | app.js:300 | trimming the pieces of a comma split brings in no comma |
| Tags.ParseTags | app.js:300 | an empty field gives no tags; otherwise the tags are exactly the comma pieces of the field, trimmed, with the empty ones dropped, in left-to-right order; each is non-empty, trimmed and free of commas |
| Tags.FormatTags | app.js:273 | the edit form shows the tags joined by ", "; ParseFormatRoundTrip parses that text back |
| Tags.JoinSpaced | app.js:273 | joining with ", " is joining the space-prefixed tags with "," |
| Tags.CleanSpaced | app.js:300 | trimming and filtering space-prefixed well-formed tags gives the tags back |
| Tags.ParseFormatRoundTrip | app.js:273 | parsing the edit form's tags text gives back the link's tags, for tags the parser could have produced |
| Tags.ParseIsStable | app.js:300 | re-parsing the formatted result of a parse changes nothing |
| Forms.Prefill | app.js:270-274 | the edit form holds the link's title, URL and notes, and its tags joined by ", " |
| Forms.NewLink | app.js:296-304 | a new record has the given id and timestamps, the form's title, URL and notes, and the tags parsed from the field, so each tag is non-empty, trimmed and free of commas |
| Forms.EditedLink | app.js:297-303 | an edited record keeps the id and creation time of the link it replaces, takes the new update time, the form's title, URL and notes, and the tags parsed from the field |
| Forms.EditList | app.js:306-309 | an edit fails exactly when no link has the id; otherwise the length and every id are kept, every link with another id is unchanged, and exactly the first link with the id (the one at FirstIndex) is replaced by the edited record |
| Forms.ResubmitUnchanged | app.js:271-303 | submitting the edit form as it was opened changes only the update time |
| Forms.EditKeepsUnique | app.js:309 | an edit keeps ids unique |
| Search.Normalize | app.js:320 | the query is the typed text lower-cased, with only white space cut from either end: no white space at either end, no upper-case letter |
| Search.Matches | app.js:326-330 | a link matches when its lower-cased title, some lower-cased tag or its lower-cased notes contain the query |
| Search.Shown | app.js:319-333 | a blank query shows the whole list; otherwise exactly the links whose lower-cased title, some lower-cased tag or lower-cased notes contain the query, in the list's order |
| Search.BlankQueryShowsAll | app.js:320-323 | a query of white space only shows every link |
| Search.SearchIgnoresCase | app.js:320 | a query and its lower-case form show the same links |
| Search.SearchAppend | app.js:326-330 | searching a concatenation searches each part |
| Search.TagClickShowsLink | app.js:253-258 | putting one of a link's tags in the search box shows that link |
| Search.TitleQueryShowsLink | app.js:320-332 | a link whose lower-cased title is the lower-cased, trimmed query is shown |
| Search.GoDocsFoundByDocs | app.js:326-330 | the query "docs" finds a link tagged "docs" |
| Search.GoDocsMissedByRust | app.js:326-330 | the query "rust" finds nothing in a list holding only the "Go Docs" link |
| Remote.CallApi | app.js:115-119 | an API call returns the body exactly when the status is 2xx; otherwise it throws "GitHub API error: <status> <statusText>", or the request failure's own message |
| Remote.ApiErrorMessage | app.js:117 | the error message starts with "GitHub API error:" and ends with the status text |
| Remote.ApiErrorMentions404 | app.js:117 | the API error message contains "404" exactly when the status numeral or the status text does |
| Remote.ReadLinks | app.js:127-130 | a failed call throws its error; a successful read gives the decoded array, the empty list for any other JSON value, or the decoding error |
| Remote.LoadResult | app.js:125-141 | a successful read of an array loads that array, and of any other JSON value the empty list; a load is rejected exactly when reading throws with a message lacking "404"; a non-empty loaded list is the decoded array of a successful read |
| Remote.LoadNonArray | app.js:130 | content that is not an array loads as the empty list |
| Remote.LoadNotFound | app.js:133-136 | a 404 status loads as the empty list |
| Remote.LoadOtherStatusRejected | app.js:137-141 | any other failing three-digit status, with a status text lacking "404", is rejected |
| Remote.RevisionToken | app.js:151-158 | the token is the read file's sha when the read succeeds, and null otherwise |
| Remote.Encodable | app.js:150 | `btoa` of the list's JSON succeeds exactly when every string field of every link holds only characters up to U+00FF |
| Remote.KeepKeepsEncodable | app.js:246-247 | dropping links never makes a list impossible to encode |
| Remote.CommitMessage | app.js:162 | the commit message is "Update link in LinkHub" in edit mode and "Add new link to LinkHub" otherwise |
| Remote.SaveRequest | app.js:148-170 | a write is sent exactly when the list can be base64-encoded; it carries the whole list, the revision token and the commit message of the edit flag |
| Remote.FirstSaveCreates | app.js:154-164 | with no data file yet, the write carries no token |
| Remote.LaterSaveUpdates | app.js:154-164 | with a data file in place, the write carries its sha |
| App.Truthy | app.js:264 | a string or null is truthy exactly when it is a non-empty string |
| App.Loading | app.js:123-145 | a load changes only the list and the screen; a rejected load keeps the list and shows the credentials screen; any other load makes the list the loaded one and keeps the screen |
| App.CheckingAuth | app.js:37-44 | with all three credentials, start-up shows the list screen and then loads; without them it shows the credentials screen and changes nothing else |
| App.Initial | app.js:30-55 | start-up begins in add mode, with no edited id, an empty list and the stored credentials (none when nothing is stored) |
| App.SigningIn | app.js:77-86 | the typed credentials are kept; the list screen shows unless the load is rejected; the list is the loaded one, or unchanged after a rejected load; the edit flags stay |
| App.Closed | app.js:284-289 | closing the modal clears both edit flags and keeps the list, the credentials and the screen |
| App.Saving | app.js:148-178 | a save whose encoding or write fails changes nothing; after a successful write the modal is closed and the list reloaded from the reload's reply; no save changes the credentials |
| App.Opened | app.js:263-265 | opening the modal sets the edited id to the given one and the edit flag to its truthiness, and changes nothing else |
| App.OpenedForm | app.js:263-281 | the add form is blank; the edit form fails exactly when no link has the id, and otherwise holds the first such link's fields with its tags joined by ", " |
| App.Submitted | app.js:292-313 | a submit fails exactly when in edit mode with a missing target; adding puts the new link at index 0 and shifts the old ones up by one; editing replaces exactly the first link with the edited id by the edited record, in place |
| App.Submitting | app.js:292-316 | a submit with a missing edit target changes nothing; otherwise its local change is saved: kept when encoding or the write fails, then closed and reloaded after a successful write; no submit changes the credentials |
| App.Deleting | app.js:245-247 | an unconfirmed delete changes nothing; a confirmed delete saves the list without the id's links: kept when encoding or the write fails, then closed and reloaded after a successful write; no delete changes the credentials |
| App.StartupView | app.js:37-44 | the list screen shows after start-up exactly when all three credentials are there and the first load is not rejected |
| App.FirstRunStartsEmpty | app.js:37-44 | a signed-in first run without a data file shows an empty list on the list screen |
| App.SignInWithoutFile | app.js:77-86 | signing in against a repository without the data file shows an empty list |
| App.LoadFailureSignsOut | app.js:137-141 | a failed load keeps the list and returns to the credentials screen |
| App.SaveThenReloadRoundTrip | app.js:167-173 | a successful write followed by reading it back keeps the list and closes the modal |
| App.FailedSaveKeepsLocalChange | app.js:174-177 | a failed write keeps the local change; nothing is rolled back |
| App.SubmitMissingTarget | app.js:302 | submitting with a missing edit target changes nothing |
| App.SubmitKeepsUnique | app.js:296-313 | a submit keeps ids unique when a new link's id is fresh |
| App.ResubmitOpenedForm | app.js:263-313 | opening a link's edit form and submitting it unchanged renews only that link's update time, in place |
| App.DeleteRoundTrip | app.js:245-247 | a confirmed delete that is written and read back leaves no link with the id and is exactly a close of the modal over the list without the id's links, in order |
| App.DeleteIsSent | app.js:245-247 | a confirmed delete of a list that could be saved is always sent, and outside edit mode its commit message is the add message |
| App.HandlersKeepConsistent | app.js:263-289 | every handler keeps `isEditing` equal to the truthiness of `currentEditId`: start-up, sign-in, opening and closing the modal, submit and delete |
| App.LinkHub.constructor | app.js:30-34 | start-up reads the stored credentials, then makes the start-up decision |
| App.LinkHub.CheckAuthState | app.js:37-44 | the state after `_checkAuthState` is the start-up decision |
| App.LinkHub.HandleAuthSubmit | app.js:77-86 | the typed credentials are kept, the list screen is shown and the list is loaded |
| App.LinkHub.Load | app.js:123-145 | the state after `_loadLinksFromGitHub` is the load step |
| App.LinkHub.Save | app.js:148-178 | the write sent is the save request, and the new state is the save step |
| App.LinkHub.OpenModal | app.js:263-281 | the flags are set and the returned form is the one the modal shows |
| App.LinkHub.CloseModal | app.js:284-289 | the modal closes back to add mode |
| App.LinkHub.HandleLinkSubmit | app.js:292-316 | the write sent is exactly the save request for the local change (none when the edit target is missing): the old list with the new link in front, or with the edited link replaced; the new state is the submit step |
| App.LinkHub.DeleteLink | app.js:241-249 | the write sent is exactly the save request for the list without the id's links when confirmed, and none otherwise; the new state is the delete step |

## Left out

- A clicked tag reaches the search box through the unescaped HTML attribute `data-tag="${tag}"`
  (`app.js:222`, `255`). A tag holding `"` or an HTML character reference arrives altered. The
  model puts the tag itself in the search box.
- `_renderLinks` is assumed never to throw. In the source it runs inside the load's `try`
  (`app.js:131`), so a throw there, for instance from an undefined `feather` (`app.js:230`) or a
  `null` element of the stored array (`app.js:207`), is caught at `app.js:132`: the user lands on
  the credentials screen with the new list already in `state.links`. `App.Loading` keeps the
  screen in that case.
- Rendering is not modelled: `_renderLinks`, the HTML templates, `feather.replace`, the loading
  indicator, event binding and the showing and hiding of the modal (`app.js:17-27`, `68-74`,
  `183-260`). The visible screen is a field. The form a modal shows is `OpenModal`'s result.
- No network request is modelled. The URL, the headers and the Basic authorisation string of
  `_callGitHubApi` (`app.js:103-115`) are not modelled; each reply is an argument.
  - A request that fails before or during `fetch` is a `RequestFailure` carrying its message.
    This covers `btoa` throwing on non-Latin-1 credentials.
  - `response.json()` failing on a 2xx response is not modelled.
- `localStorage` is not modelled. The stored credentials are the constructor's argument.
  `_saveConfigToStorage` (`app.js:58-65`) and a stored config that `JSON.parse` rejects are not
  modelled.
- Base64 and JSON are not modelled concretely. A read's decoded content is an argument: an
  array of links, another JSON value, or text that fails to decode with its error message.
  - A stored record lacking a field is taken with that field empty. On such a record the source
    would instead skip missing tags or notes, or throw on a missing title during a search.
- `Date.now()` and `toISOString()` are not modelled. The new id and the two timestamps are
  arguments.
- `alert`, `console.error` and `confirm` are not modelled; the answer to `confirm` is a boolean
  argument.
- Async interleaving is not modelled.
  - `_handleLinkSubmit` does not await its save, and a save does not await its reload. The model
    runs each handler to completion, one after the other.
  - A second handler running while a request is in flight is not modelled.
- Text.LowerChar and Text.ToLower: fold only the ASCII letters A-Z. JavaScript's `toLowerCase` folds every Unicode
  letter, so the model's search is exact only for queries and fields whose letters are ASCII.
- App.SubmitKeepsUnique: assumes the new id (`Date.now().toString()`) is not already in the list.
  The source does not guarantee that, since two adds in the same millisecond share an id.
- Remote.LoadOtherStatusRejected: covers three-digit statuses only, which are the ones HTTP
  defines.
