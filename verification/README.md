# Healthcare dashboard and auth routes — a Dafny model

This project models the few pieces of real decision logic in a small healthcare web application. The application has a React front end with a patient and a doctor dashboard, and an Express back end with signup, login and logout routes. Everything is modelled as immutable datatypes and pure functions:

- **Patient list query** (`PatientList`). The table filters patients by a case-insensitive search on name or id, then by an optional exact status, then sorts by name (ascending) or by last log (newest first). The id is optional, and the model keeps JavaScript's short-circuit `||`. For a patient without an id whose name misses the search, the as-written filter reads `id.toLowerCase()` of `undefined`. That is a thrown error (`Err(UndefinedId)`). `SafeQuery` is the corrected pipeline, in which a missing id simply does not match.
- **Doctor messaging** (`DoctorDashboard`). It covers the `selectedConversation` lookup, `sendMessage` over the conversation list, and the message box's blank-input guard. The selection is `null` or a numeric id. The guard `!selectedConversationId` treats both `null` and the id `0` as "no selection".
- **Patient dashboard state** (`PatientDashboard`). It covers the daily-log form's save and reset rules, the expand/collapse toggle of the saved logs, and the chat's send rule. A run of arbitrary user actions is modelled too, and the model proves that only complete logs are ever stored.
- **Auth routes** (`Auth`). The three routes are transitions over a store mapping email to user record. The bcrypt digest is a `Digest` value that only `Compare` inspects. A JWT is represented by its claim (user id, lifetime "1h"). Randomness, namely the bcrypt salt, is a request parameter.

Shared modules:
- `Common` holds `Option`, `Result` and the chat message record.
- `JsText` holds ASCII `toLowerCase`, `includes`, `trim`, and a code-point (Unicode scalar value) string order that stands in for `localeCompare`.
- `Seqs` holds `Select`, the reference filter with order, membership and multiplicity stated, and a subsequence relation.

The recent-logs toggle differs from a naive reading. Two clicks on the same log do not always restore the prior state. If a different log was open, the first click moves the expansion and the second closes everything. `ToggleTwice` states the exact condition. A save prepends the new log without adjusting `expanded`, so the open panel then shows a different log. `SaveShiftsExpandedLog` states this.

## Model

| member | source | states |
|---|---|---|
| `PatientList.TestText` | frontend/src/components/PatientListPage.jsx:42-44 | throws exactly when the name misses and the id is absent; otherwise true iff the lower-cased name or id includes the lower-cased search |
| `PatientList.FilterByText` | frontend/src/components/PatientListPage.jsx:41-45 | fails iff some patient lacks an id and misses by name; otherwise equals the reference filter `Select` by the text predicate |
| `PatientList.FilterByStatus` | frontend/src/components/PatientListPage.jsx:46 | empty filter is the identity; otherwise every kept patient has exactly that status, every such input patient is kept with all its copies, order is preserved |
| `PatientList.ParseSortKey` | frontend/src/components/PatientListPage.jsx:47-48 | only "name" and "lastLog" select a sort, each its own key |
| `PatientList.SortBy` | frontend/src/components/PatientListPage.jsx:47-48 | the result is sorted under the key's comparator and is a permutation of the input |
| `PatientList.ArrangeCounts` | frontend/src/components/PatientListPage.jsx:46-48 | status filter plus any sort keeps each passing patient with its full multiplicity and nothing else |
| `PatientList.QueryFailsIff` | frontend/src/components/PatientListPage.jsx:41-45 | the page throws iff some patient has no id and a name the search misses |
| `PatientList.QueryListsExactlyWanted` | frontend/src/components/PatientListPage.jsx:41-48 | a result lists exactly the patients matching text and status, each as often as in the input (sorting is a permutation) |
| `PatientList.QueryUnsortedKeepsOrder` | frontend/src/components/PatientListPage.jsx:41-46 | without a recognised sort key the result is an order-preserving subsequence of the input |
| `PatientList.QuerySortedByName` | frontend/src/components/PatientListPage.jsx:47 | `sort == "name"` gives names in non-decreasing order |
| `PatientList.QuerySortedByLastLog` | frontend/src/components/PatientListPage.jsx:48 | `sort == "lastLog"` gives last-log dates in non-increasing order |
| `PatientList.QueryEmptySearch` | frontend/src/components/PatientListPage.jsx:43 | an empty search never throws and passes every patient to the status filter, even those without id |
| `PatientList.QueryIgnoresCase` | frontend/src/components/PatientListPage.jsx:43-44 | search texts differing only in letter case give identical outcomes, errors included |
| `PatientList.DoctorPatientsSearchThrows` | frontend/src/components/DoctorDashboard.jsx:291-305 | with the doctor dashboard's id-less patients, the search "x" throws |
| `PatientList.SafeQuery` | frontend/src/components/PatientListPage.jsx:41-48 | corrected pipeline: never throws, lists exactly the wanted patients, keeps order unsorted, is sorted when asked, and agrees with the as-written query whenever that succeeds |
| `JsText.IncludesIffOccurs` | frontend/src/components/PatientListPage.jsx:43-44 | the `includes` scan is true iff the search text occurs at some position |
| `JsText.LowerEqIffSameUpToCase` | frontend/src/components/PatientListPage.jsx:43-44 | two strings lower-case alike iff they differ only in ASCII letter case |
| `JsText.TrimEmptyIffBlank` | frontend/src/components/DoctorDashboard.jsx:181 | `trim()` yields the empty string iff the text is all white space |
| `DoctorDashboard.FindFrom` | frontend/src/components/DoctorDashboard.jsx:351-353 | returns the first index at or after `from` whose id is selected, or none when no later one is |
| `DoctorDashboard.SelectedConversation` | frontend/src/components/DoctorDashboard.jsx:351-353 | none iff no conversation has the selected id; otherwise the first conversation with that id |
| `DoctorDashboard.SendMessage` | frontend/src/components/DoctorDashboard.jsx:355-372 | no-op without a truthy selection; keeps length and order; others unchanged; each selected one gets the doctor message appended, `lastMessage` set, `unread` zeroed, id, name and online kept |
| `DoctorDashboard.SendKeepsIds` | frontend/src/components/DoctorDashboard.jsx:358-369 | ids stay in place across a send |
| `DoctorDashboard.SendThenSelected` | frontend/src/components/DoctorDashboard.jsx:351-372 | after a send, the selected conversation ends with the new doctor message, shows it as last message, has nothing unread |
| `DoctorDashboard.SendToMissingIsNoOp` | frontend/src/components/DoctorDashboard.jsx:357-370 | sending to an id no conversation carries changes nothing |
| `DoctorDashboard.HandleSend` | frontend/src/components/DoctorDashboard.jsx:180-185 | forwards the untrimmed text and clears the box iff the text is not all white space; otherwise keeps the text |
| `DoctorDashboard.ClickSend` | frontend/src/components/DoctorDashboard.jsx:180-185 | blank input changes nothing; otherwise the box clears and the conversations receive the message |
| `DoctorDashboard.InitialPanelScenario` | frontend/src/components/DoctorDashboard.jsx:313-372 | on the initial conversations, no selection means no chat and no change; selecting 2 sends only to Jane Roe |
| `PatientDashboard.Save` | frontend/src/components/PatientDashboard.jsx:138-148 | rejected with the alert and nothing changed iff a required field is falsy; otherwise exactly one log carrying the form's fields and today's date is prepended and the form returns to pain level 5, empty strings and no photo |
| `PatientDashboard.Reset` | frontend/src/components/PatientDashboard.jsx:150-157 | form back to defaults; logs and expansion untouched |
| `PatientDashboard.ResetIdempotent` | frontend/src/components/PatientDashboard.jsx:142-157 | reset is idempotent and leaves the same form a successful save does |
| `PatientDashboard.Toggle` | frontend/src/components/PatientDashboard.jsx:227 | clicking the expanded log collapses it; any other click expands the clicked log |
| `PatientDashboard.ToggleTwice` | frontend/src/components/PatientDashboard.jsx:227 | two clicks on one log restore the state iff nothing or that log was expanded; otherwise everything ends collapsed |
| `PatientDashboard.SaveShiftsExpandedLog` | frontend/src/components/PatientDashboard.jsx:129-141 | a save keeps the expanded index, so the previously open log moves one place down |
| `PatientDashboard.ApplyKeepsLogsComplete` | frontend/src/components/PatientDashboard.jsx:138-157 | one user action stores only complete logs and keeps earlier logs, in order, after any new one |
| `PatientDashboard.RunKeepsLogsComplete` | frontend/src/components/PatientDashboard.jsx:138-157 | over any run of user actions only logs with all required fields are stored, and earlier logs survive in order |
| `PatientDashboard.InitialRunStoresOnlyComplete` | frontend/src/components/PatientDashboard.jsx:122-157 | from the initial empty page, any run of user actions stores only logs with every required field filled |
| `PatientDashboard.SendChat` | frontend/src/components/PatientDashboard.jsx:260-265 | blank input changes nothing; otherwise one patient message with the untrimmed input is appended and the box clears |
| `PatientDashboard.SendChatAppendsOnly` | frontend/src/components/PatientDashboard.jsx:263 | old messages are a prefix of the new ones and at most one is added |
| `Auth.Hash` | backend/routes/auth.js:20 | the digest uses cost factor 10 and the drawn salt |
| `Auth.CompareHashIff` | backend/routes/auth.js:61 | a digest accepts its own password and no other |
| `Auth.Signup` | backend/routes/auth.js:10-49 | existing email: 400 "User already exists", store unchanged; fresh email: exactly one record added under it, hashed password, role "patient", others untouched, 201 and a token for the new id |
| `Auth.Login` | backend/routes/auth.js:52-78 | unknown email and wrong password both give the same 400 "Invalid credentials"; success iff the password matches, returning id, name, email and a token |
| `Auth.Logout` | backend/routes/auth.js:81-83 | 200 "Logout successful" with no cookie |
| `Auth.OnlySignupWrites` | backend/routes/auth.js:52-83 | login and logout leave the store unchanged |
| `Auth.SignupKeepsValid` | backend/routes/auth.js:15-29 | signup keeps emails as keys and ids distinct |
| `Auth.SignupIgnoresRole` | backend/routes/auth.js:27 | the submitted role has no effect |
| `Auth.SignupTwice` | backend/routes/auth.js:15-17 | a second signup with the same email is refused and creates nothing |
| `Auth.SignupThenLogin` | backend/routes/auth.js:20-74 | after signup, the same password logs in and reveals the new user; any other is refused |
| `Auth.FailedLoginsLookAlike` | backend/routes/auth.js:57-63 | an unknown email and a wrong password produce identical responses |
| `Auth.HandleInvariant` | backend/routes/auth.js:10-83 | one request keeps the store valid, keeps existing records, creates only patients |
| `Auth.RunInvariant` | backend/routes/auth.js:10-83 | any sequence of requests keeps the store valid, never alters a record, and keeps an all-patient store all-patient |
| `Auth.NoDoctorsFromRoutes` | backend/routes/auth.js:27 | from the empty store, every user the routes create is a patient |
| `Auth.DoctorSignupScenario` | backend/routes/auth.js:10-63 | a signup asking for "doctor" records a patient with 201; a wrong password then gets "Invalid credentials" |

## Left out

- Rendering, styling, animation and the `scrollIntoView` effects are presentation only.
- The ancillary files are not modelled. The login/signup form is only network calls and toasts. The router and the Express/CORS/MongoDB wiring are plumbing. The unused doctor schema is referenced by no route.
- backend/models/user.js is not part of this model. The model assumes its schema does not normalise emails and accepts any role string.
- The model does not implement bcrypt. `Compare` is exact equality on the password kept inside the `Digest`. The salt's randomness, the one-wayness and bcrypt's 72-byte truncation of long passwords are not modelled.
- The model does not sign tokens. Token signing, the secret, expiry checking and the cookie attributes are out of scope: the signup cookie's httpOnly flag, its path and its 7-day expiry, and the login cookie's httpOnly flag. A response only records which token claim it sets.
- Request fields are assumed to be strings, and `User.findOne({ email })` is modelled as a lookup by that string key. The JSON and URL-encoded body parsers accept any value for `email`, such as an object with a query operator or an array. Such a value turns the lookup into a database query, so login could then check the password of, and reveal, whichever user matches first. Those inputs are outside the model.
- The 500 error paths and the concurrent duplicate-email race are left out. Database faults are outside sequential logic.
- Mongo's `_id` is modelled as a counter `nextId` that the store advances.
- `toLowerCase` is modelled on ASCII letters only, because Unicode case mapping is out of scope.
- `localeCompare` is replaced by lexicographic order on code points (Unicode scalar values). That order agrees with JavaScript's UTF-16 code-unit order only for characters up to U+FFFF.
- `new Date(lastLog)` is replaced by an integer day number (yyyymmdd), so unparsable dates and the NaN comparator are not modelled.
- Formatted dates and times (`toLocaleDateString`, `toLocaleTimeString`) are opaque string parameters of `Save` and `SendChat`.
- Photo upload is only modelled as a form edit. Its object URL is an opaque string.
- React's asynchronous state updates are modelled as one sequential step per click.
- The doctor dashboard's other components hold no logic: the patient table, the notifications, and the conversation list's search box (which has no handler).
- PatientList.SortBy: states sortedness and permutation but not stability. The insertion order it uses keeps equal keys in input order, as `Array.prototype.sort` does.
- Auth.Hash: states only the cost factor and salt of the digest. That the digest differs from the plaintext holds by type, because the record's password field is a `Digest`, not a string.

## Findings

| source | as written | input that shows it | evidently intended | confidence | as-written member | corrected member |
|---|---|---|---|---|---|---|
| frontend/src/components/PatientListPage.jsx:44 | the id test calls `p.id.toLowerCase()` whenever the name misses, but the doctor dashboard passes patients without `id` (frontend/src/components/DoctorDashboard.jsx:291-305) | the doctor dashboard's three patients with search text "x" | a patient without an id does not match by id, and the list is filtered instead of the page throwing | not executed | `PatientList.DoctorPatientsSearchThrows` | `PatientList.SafeQuery` |
