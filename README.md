# Festival fund manager: a Dafny model of its decision and aggregation core

The festival fund manager records the income and expenditure of festival
events. Users enter transactions, and a report page lists them by date or
by amount, with subtotals and a summary. This project models the
deterministic core behind those pages and proves properties about it:

- **Ledger** (`ledger.dfy`): the query layer.
  - The filtered, ordered fetch of an event's transactions.
  - The amount re-sort, a stable sort.
  - The date grouping loop with its per-date income and expenditure subtotals.
  - The per-type summary.
  - The newest-first recent-entries list.
- **Token** and **Session** (`token.dfy`, `session.dfy`): the signed session token and the cookie store.
  - The token is `base64url(JSON(payload)) "." base64url(HMAC-SHA256(secret, segment))`, using the URL-safe alphabet of section 5 of RFC 4648.
  - The cookie store is modelled as a class whose methods create, delete and verify the session cookie.
- **EdgeGuard** (`edgeguard.dfy`): the request guard for `/entry` pages.
  - Its own base64url helpers: a byte loop and a padding loop.
  - Its re-verification of the token.
  - Its three-way decision: pass, redirect to the login page, or redirect and clear the cookie.
- **Validators** (`validators.dfy`): the transaction and event schemas.
  - Each field is checked by a predicate.
  - Parsing gives either the cleaned data or the issues for exactly the failing fields.
- **Actions** (`actions.dfy`): the server actions on a `Store` class that holds the events, transactions and users tables.
  - Each action's guards are checked in the source's order: the superadmin or session guard, then the id check, then validation, then the write.
  - The form-error dictionary is built in a loop.
  - Also modelled: login and logout, the event-delete cascade, password reset, and the user list.
- **Dates** (`dates.dfy`): the `YYYY-MM-DD` ⇄ `DD/MM/YYYY` conversions (section 4.1.2.2 of ISO 8601:2004 for the first form) and today's display date.
- **Reports** (`reports.dfy`): the reports page as a function of its query parameters.
  - Parameter normalisation.
  - The event lookup.
  - The emptiness test, the export list and the empty-state message.
- **Strings**, **Schema**, **Wrappers**: shared support.
  - String split, join and lexicographic order, and decimal text.
  - The table rows.
  - `Option` and `Result`.

Foreign primitives are fields of a `Token.Primitives` value, and their laws are stated by the ghost predicate `Token.Sound`. The primitives are HMAC-SHA256, standard base64 encoding and decoding, JSON serialisation, and the payload's expiry field. SHA-256 password hashing, `Number()` coercion and number-to-text rendering are function parameters of the operations that use them. The current time, the session user (`getSessionUser`) and the session check (`verifySession`) are plain inputs.

Amounts are `real` numbers. The `amount` column is declared `real` (src/db/schema.ts:23), and the schema accepts any positive number. An integer model would exclude fractional amounts that the application stores and sums. Exact rationals keep every sum and comparison exact. See "Left out".

## Model

| member | source | states |
|---|---|---|
| Ledger.Select | src/lib/queries.ts:77-84 | every returned row belongs to the event and passes the type and payment-mode filters when given; every matching stored row is returned with its multiplicity and nothing else |
| Ledger.InsertSorted | src/lib/queries.ts:90 | inserting a row into an ordered list keeps it ordered under the fetch, amount and newest-first orders |
| Ledger.SortByCorrect | src/lib/queries.ts:90 | the sort used for ORDER BY and for the amount re-sort returns a permutation of its input, of the same length, in order |
| Ledger.PrecedesNegativelyTransitive | src/lib/queries.ts:90 | "not after" is transitive for each ordering (date then newest `createdAt`, amount, newest first), so the orders are strict weak orders |
| Ledger.FetchCorrect | src/lib/queries.ts:86-91 | the fetched rows are exactly the matching rows, ordered by date as requested and, within a date, newest `createdAt` first |
| Ledger.InsertKeepsTies | src/lib/queries.ts:94-96 | inserting a row by amount puts it before every row of the same amount and leaves the relative order of the other rows of each amount unchanged |
| Ledger.SortByAmountStable | src/lib/queries.ts:94-96 | the amount sort is stable: for every amount, the rows carrying it appear in fetch order |
| Ledger.QueryByAmount | src/lib/queries.ts:93-98 | in amount mode `grouped` is null and `sorted` is a permutation of the fetched rows, non-decreasing by amount for `asc` and non-increasing for `desc`, with equal amounts in fetch order |
| Ledger.Lookup | src/lib/queries.ts:104-107 | the `has`/`get` lookup returns the position of the bucket for the date, or the size of the map when no bucket has that date |
| Ledger.GroupingAppend | src/lib/queries.ts:103-113 | folding one more row into the grouping of a prefix (grow its date's bucket and subtotal, or append a new bucket) gives the grouping of the longer prefix |
| Ledger.GroupByDate | src/lib/queries.ts:101-116 | the grouping loop over the fetched rows builds exactly `Grouping(rows)`: one bucket per distinct date in first-seen order, holding that date's rows and their income and expenditure sums |
| Ledger.TransactionsGroupedByDate | src/lib/queries.ts:68-117 | the query returns the amount-sorted rows with a null grouping, or the date grouping of the fetched rows with a null list |
| Ledger.DatesDistinct | src/lib/queries.ts:104-106 | the grouping's keys are distinct |
| Ledger.DatesOrdered | src/lib/queries.ts:90 | on rows in fetch order, the distinct dates in first-seen order are strictly descending for `desc` and strictly ascending for `asc` |
| Ledger.FlattenGrouping | src/lib/queries.ts:103-108 | on rows in fetch order, concatenating the buckets' entries in bucket order gives back the rows |
| Ledger.GroupingOfSorted | src/lib/queries.ts:101-116 | the buckets' dates are strictly ordered; every row has a bucket for its date; each bucket holds exactly its date's rows (never none); the subtotals are the income sum and the sum of all non-income rows; the entries concatenate to the rows |
| Ledger.QueryByDate | src/lib/queries.ts:99-116 | in date mode `sorted` is null and `grouped` has all the grouping properties above for the fetched rows |
| Ledger.EmptyFetchEmptyGrouping | src/lib/queries.ts:101-116 | when no row matches, date mode returns an empty map, not an error |
| Ledger.AbsentTypeTotalsZero | src/lib/queries.ts:35-36 | the income (expenditure) sum is 0 when no row has that type |
| Ledger.FindTotalByType | src/lib/queries.ts:25-36 | looking a type up in the grouped sums finds that type's total exactly when the type occurs, and nothing otherwise |
| Ledger.GetSummary | src/lib/queries.ts:19-43 | a missing type bucket counts as 0, so the totals are the income and expenditure sums over the event's rows for the payment-mode filter; the net total is income minus expenditure and may be negative |
| Ledger.RecentEntries | src/lib/queries.ts:49-57 | returns `limit` rows (all of them when fewer, or when the limit is negative), all of the event, newest `createdAt` first, drawn from the event's rows, with no omitted row newer than a returned one |
| Ledger.DefaultRecentEntries | src/lib/queries.ts:49 | with the default limit: at most ten rows, all of the event, and fewer than ten only when the event has fewer rows |
| Ledger.LimitOfArrangement | src/lib/queries.ts:54-55 | taking the first `limit` rows of a newest-first arrangement of the event's rows gives the newest `limit` rows |
| Token.SessionSecret | src/lib/auth.ts:4-5 | the secret is the environment value when that is set and non-empty, and the fixed development secret when it is unset or empty; it is never empty |
| Token.StripPadding | src/proxy.ts:17 | removing trailing `=` leaves a prefix with no trailing `=`, and everything removed was `=` |
| Token.Base64UrlRoundTrip | src/lib/auth.ts:15 | converting well-formed padded base64 to base64url yields only URL-safe characters, and converting back restores the original text |
| Token.EncodeBytesUrlSafe | src/lib/auth.ts:16-19 | the signature segment consists of URL-safe characters only |
| Token.PayloadSegmentUrlSafe | src/lib/auth.ts:15 | the payload segment consists of URL-safe characters only |
| Token.SignShape | src/lib/auth.ts:14-21 | a signed token has exactly one `.` and splits into the payload segment and that segment's signature |
| Token.VerifySign | src/lib/auth.ts:23-44 | verifying a freshly signed token gives back its payload unless it has expired; `now == exp` is still valid |
| Token.VerifyRejectsSegmentCount | src/lib/auth.ts:24-25 | a token without exactly one `.` is rejected |
| Token.VerifyRejectsBadSignature | src/lib/auth.ts:28-33 | a token whose second segment is not the signature of its first is rejected |
| Token.VerifyRejectsExpired | src/lib/auth.ts:39 | a correctly signed token with `now > exp` is rejected |
| Token.VerifyAccepts | src/lib/auth.ts:23-44 | an accepted token has two segments, a matching signature, a payload that decodes and parses, and has not expired; a decode or parse failure therefore yields null |
| Token.EdgeAgreesOnSigned | src/proxy.ts:28-59 | on signed tokens the guard's check and the server's `verify` agree |
| Token.UrlSafeHasNoDot | src/lib/auth.ts:20 | URL-safe text contains no `.`, so the separator is unambiguous |
| Session.SessionCookieOptions | src/lib/auth.ts:54-60 | the cookie is `httpOnly`, `sameSite` lax and path `/`; its `maxAge` is 86400 seconds, the session duration in seconds; it is `secure` exactly in production |
| Session.CookieJar.CreateSession | src/lib/auth.ts:46-61 | sets the `session` cookie to the token signed with expiry `now + 86400000` ms and with the options above; other cookies are unchanged |
| Session.CookieJar.DeleteSession | src/lib/auth.ts:63-66 | removes the `session` cookie and nothing else |
| Session.CookieJar.VerifySession | src/lib/auth.ts:68-73 | false without a cookie, otherwise whether `verify` accepts the token |
| Session.SessionTokenNonEmpty | src/lib/auth.ts:51 | a session token is never the empty string |
| Session.ValidAfterCreate | src/lib/auth.ts:46-73 | right after a session is created it verifies until and including its expiry and fails after it |
| Session.InvalidAfterDelete | src/lib/auth.ts:63-73 | after the delete the session no longer verifies, and every other cookie keeps its value |
| EdgeGuard.BufferToBase64Url | src/proxy.ts:8-18 | the byte loop builds the binary string; the result is its base64 with `+`→`-`, `/`→`_` and trailing `=` removed |
| EdgeGuard.BufferToBase64UrlAlphabet | src/proxy.ts:14-17 | the output has no `+`, no `/` and no trailing `=` |
| EdgeGuard.PadLength | src/proxy.ts:22-24 | the padding count is below 4 and brings the length to a multiple of 4 |
| EdgeGuard.PadLengthLeast | src/proxy.ts:22-24 | no shorter padding reaches a multiple of 4 |
| EdgeGuard.Base64UrlToBase64 | src/proxy.ts:20-26 | maps `-`→`+` and `_`→`/` and leaves every other character unchanged, then appends `(4 - len % 4) % 4` copies of `=`, so the length is a multiple of 4 |
| EdgeGuard.VerifyToken | src/proxy.ts:28-59 | accepts exactly the tokens with two segments, a matching signature, a payload that decodes and parses, and no expiry before `now`, checked in that order |
| EdgeGuard.Proxy | src/proxy.ts:61-80 | paths outside `/entry` and `/entry/...` pass; on guarded paths the decision depends only on the `session` cookie, as stated by `Decide` |
| EdgeGuard.DecideOutcomes | src/proxy.ts:62-75 | no cookie redirects without clearing; a present token that is rejected redirects and clears the cookie; an accepted token passes, and these are the only three outcomes |
| EdgeGuard.GuardHonoursSession | src/proxy.ts:54 | a cookie issued at `created` passes up to and including `created + 86400000` and is cleared after that |
| EdgeGuard.GuardRejectsForgedSignature | src/proxy.ts:49-73 | a token with a wrong second segment redirects and clears the cookie |
| Validators.DateMessages | src/lib/validators.ts:4 | no message exactly when the date is a non-empty string |
| Validators.NameMessages | src/lib/validators.ts:5 | no message exactly when the name is a string of 1 to the maximum length (100 for a transaction, 200 for an event) |
| Validators.AmountMessages | src/lib/validators.ts:6 | no message exactly when the coerced amount is a finite number above 0 |
| Validators.TypeMessages | src/lib/validators.ts:7-9 | no message exactly when the type is `income` or `expenditure` |
| Validators.DescriptionMessages | src/lib/validators.ts:10 | no message exactly when the description is absent or a string of at most 500 characters |
| Validators.EventIdMessages | src/lib/validators.ts:11 | no message exactly when the coerced event id is a positive safe integer |
| Validators.EventIdMessagesChain | src/lib/validators.ts:11 | a fraction gets the not-an-integer message alone, because that check stops the later positivity check; an integer never gets it, and gets "Event is required" exactly when it is not positive |
| Validators.TagAllNamesFailures | src/lib/validators.ts:3-12 | the issues are empty exactly when no field fails; every issue names a failing field, and every failing field has an issue |
| Validators.TransactionFailures | src/lib/validators.ts:3-12 | the set of failing fields is empty exactly when the form is valid |
| Validators.TransactionChecksFailures | src/lib/validators.ts:3-12 | the fields with messages are exactly the failing fields |
| Validators.ParseTransaction | src/lib/validators.ts:3-12 | success exactly when every field passes; then the data carries the date and name, the positive coerced amount, the type, the description defaulting to empty and the positive integer event id; on failure the issues are non-empty, each names a failing field, and each failing field is named |
| Validators.TagPaths | src/lib/validators.ts:3-12 | every issue of a field carries that field's path, and a failing field has at least one issue |
| Validators.ParseEvent | src/lib/validators.ts:16-19 | success exactly when the name has 1 to 200 characters and the description is absent or at most 500, with the description defaulting to empty; otherwise the issues name exactly the failing fields |
| Actions.RequireSuperadmin | src/lib/actions.ts:333-343 | denies exactly when the session user is not `superadmin` (including no user), with the superadmin-only error |
| Actions.IdOf | src/lib/actions.ts:112-113 | a missing `id` field reads as `Number(null)`, which the id check rejects; a present one is coerced |
| Actions.FieldErrorsGroups | src/lib/actions.ts:55-63 | the keys of the dictionary are exactly the first path elements of the issues, and each key holds exactly that key's messages, once each, in issue order |
| Actions.MessagesForNonEmpty | src/lib/actions.ts:58-60 | a key has messages exactly when some issue carries it |
| Actions.ParseFormErrors | src/lib/actions.ts:55-63 | the loop builds the dictionary `FieldErrors(issues)` |
| Actions.TransactionErrorKeys | src/lib/actions.ts:202-208 | after a failed parse, the error dictionary's keys are exactly the failing fields |
| Actions.FindUser | src/lib/actions.ts:30-34 | finds a user with that name exactly when one exists |
| Actions.OtherUsernames | src/lib/actions.ts:421-425 | the names listed are exactly the stored names other than `superadmin` |
| Actions.OtherUsernamesAppend | src/lib/actions.ts:421-425 | the filter keeps table order: filtering a concatenation concatenates the filtered parts |
| Actions.SetPassword | src/lib/actions.ts:398-401 | the user list keeps its length, and every user keeps its id and username; only the users with the target name get the new hash |
| Actions.FindAfterSetPassword | src/lib/actions.ts:398-401 | after the update, looking up the target finds the new hash and looking up anyone else finds the same user as before |
| Actions.LoginAfterReset | src/lib/actions.ts:396-405 | after a reset the target logs in with their username as password, and every other user's login is unaffected |
| Actions.RemoveTransactions | src/lib/actions.ts:165 | the delete keeps exactly the rows it does not hit |
| Actions.RemoveEvent | src/lib/actions.ts:166 | the delete keeps exactly the events with another id |
| Actions.SetEvent | src/lib/actions.ts:138-141 | the event list keeps its length, its ids in order, and every event's active flag and creation time; only the events with that id get the new name and description |
| Actions.SetTransaction | src/lib/actions.ts:277-280 | the transaction list keeps its length and its ids in order; every row keeps its payment mode and creation time; only the rows with that id are revised |
| Actions.InsertedTransaction | src/lib/actions.ts:214 | the inserted row always has payment mode cash (the column default) |
| Actions.ChosenMode | src/app/entry/_components/TransactionForm.tsx:165-185 | the form selects bank exactly when its `paymentMode` field is `bank` |
| Actions.InsertedTransactionWithMode | src/lib/actions.ts:214 | the corrected insert stores bank exactly when the form selects it |
| Actions.BankSelectionIsLost | src/lib/actions.ts:193-214 | when the form selects bank, the inserted row's mode differs from the selected one |
| Actions.SetTransactionWithMode | src/lib/actions.ts:256-280 | the corrected update keeps the length and the ids in order; the rows with that id take the mode the form selects, the others keep theirs; apart from the mode every row is as the as-written update leaves it |
| Actions.UpdateSelectionIsLost | src/lib/actions.ts:256-280 | when a cash row is edited with bank selected, the as-written update leaves it cash while the corrected one records bank |
| Actions.RemoveEventFresh | src/lib/actions.ts:166 | deleting events keeps the ids unique, increasing and below the next id |
| Actions.RemoveTransactionsFresh | src/lib/actions.ts:165 | deleting transactions keeps the ids unique, increasing and below the next id |
| Actions.FreshAppend | src/db/schema.ts:20 | an autoincrement insert keeps the ids unique, increasing and below the next id |
| Actions.Store.constructor | src/db/schema.ts:45-52 | an empty store over a users table with unique names |
| Actions.Store.Login | src/lib/actions.ts:21-46 | rejects with the invalid-credentials error, cookies untouched, exactly when no user has that name and password hash; otherwise sets the session cookie and redirects to `/events` |
| Actions.Store.Logout | src/lib/actions.ts:48-51 | removes the `session` cookie and redirects to `/login` |
| Actions.Store.CreateEvent | src/lib/actions.ts:65-103 | no session guard; on invalid input returns the validation error with the field errors and changes nothing; otherwise appends the active event with the next id and the creation time, and reports it |
| Actions.Store.UpdateEvent | src/lib/actions.ts:105-158 | denial, then invalid id, then validation errors, each leaving the store unchanged; otherwise updates the name and description of the event with that id |
| Actions.Store.DeleteEvent | src/lib/actions.ts:160-185 | denial leaves the store unchanged; otherwise removes the event's transactions and then the event, and nothing else |
| Actions.Store.AddTransaction | src/lib/actions.ts:189-232 | no session guard; on invalid input returns the validation error and changes nothing; otherwise appends the row with the next id, payment mode cash, and the creation time |
| Actions.Store.AddTransactionWithMode | src/lib/actions.ts:189-232 | as `AddTransaction`, but the appended row carries the payment mode the form selected |
| Actions.Store.UpdateTransaction | src/lib/actions.ts:234-298 | unauthorised, then invalid id, then validation errors, each leaving the store unchanged; otherwise revises the rows with that id, keeping their payment mode |
| Actions.Store.UpdateTransactionWithMode | src/lib/actions.ts:234-298 | as `UpdateTransaction`, with the same guards in the same order, but the revised rows take the payment mode the form selected |
| Actions.Store.DeleteTransaction | src/lib/actions.ts:300-329 | unauthorised leaves the store unchanged; otherwise removes the rows with that id and nothing else |
| Actions.Store.DeleteAllTransactions | src/lib/actions.ts:345-368 | denial leaves the store unchanged; otherwise removes every row of the event and nothing else |
| Actions.Store.ResetUserPassword | src/lib/actions.ts:370-415 | denial, then the `superadmin` target (refused even for the superadmin), then an unknown user, each leaving the store unchanged; otherwise only the target's hash becomes the hash of their username |
| Actions.Store.GetAllUsers | src/lib/actions.ts:417-426 | empty unless the caller is the superadmin; otherwise every user name except `superadmin`, in table order |
| Actions.DeletedEventHasNoRows | src/lib/actions.ts:165-166 | after the cascade, the query for the deleted event finds no rows under any filters |
| Dates.IsoToDdMmYyyyShape | src/lib/utils.ts:26-29 | `Y-M-D` becomes `D/M/Y` for separator-free components |
| Dates.DdMmYyyyToIsoShape | src/lib/utils.ts:31-34 | `D/M/Y` becomes `Y-M-D` for separator-free components |
| Dates.RoundTrips | src/lib/utils.ts:26-34 | the two conversions undo each other, in both orders |
| Dates.ConversionsKeepLength | src/lib/utils.ts:26-34 | with exactly two separators, each conversion keeps the length of the text |
| Dates.IsoMissingParts | src/lib/utils.ts:27-28 | text without `-` is taken as the year alone, and the missing day and month render as `undefined` |
| Dates.PadStart | src/lib/utils.ts:20-21 | pads on the left with the fill character up to the width and leaves longer text unchanged; the original text is the suffix |
| Dates.TwoDigitsExact | src/lib/utils.ts:20-21 | day and month numbers below 100 render as exactly two digits that read back as the number |
| Dates.TodayStringShape | src/lib/utils.ts:18-24 | today's display date has a two-digit day and month (the month counted from 1) and converts to `YYYY-MM-DD` |
| Reports.Normalize | src/app/reports/page.tsx:51-56 | each filter takes a non-default value exactly for its exact parameter text (`income`/`expenditure`, `amount`, `asc`, `cash`/`bank`) |
| Reports.FindEvent | src/lib/queries.ts:11-13 | finds an event whose id equals the number, and finds none exactly when no id does |
| Reports.EmptyMessage | src/app/reports/page.tsx:120-125 | the message starts with "No transactions found. " and names the type filter when one is set |
| Reports.ReportsPage | src/app/reports/page.tsx:15-70 | a missing, empty, zero or non-numeric `event` parameter gives the select-event prompt; a number that no event has gives "not found"; otherwise the report is for the stored event whose id equals the parameter, with the normalised filters |
| Reports.GroupingEmptyIff | src/app/reports/page.tsx:61-63 | in date mode the map is empty exactly when no row was fetched |
| Reports.ReportEntries | src/app/reports/page.tsx:61-94 | the export lists exactly the fetched rows in date mode and a reordering of them in amount mode; the page is empty exactly when no row was fetched, so the download is offered exactly when there is something to export |
| Reports.SummaryIgnoresTypeFilter | src/app/reports/page.tsx:59 | the summary depends on the event and the payment-mode filter, never on the type filter |

## Left out

- Floating point: amounts, sums and comparisons are exact `real` numbers. The model does not capture JavaScript's double rounding in the `+=` subtotals (src/lib/queries.ts:110-112), in the SQL `SUM` or in the amount comparator.
- `Ledger.SortByAmountStable` is proved for the stable insertion sort standing in for `Array.prototype.sort`. The in-place mutation of `rows` is modelled on values, since nothing else holds a reference to the array.
- `Ledger.Fetch`: SQL leaves rows tied on date and `createdAt` in an unspecified order. The model keeps them in store order.
- `Reports.ReportsPage`: `Number()` on the `event` text is a parameter. Its result may be NaN, infinite or finite, and an infinite or fractional id matches no event, as in SQL.
- Cryptography and encodings (HMAC-SHA256, SHA-256, `btoa`/`atob`, `Buffer` base64url, `JSON.stringify`/`parse`) are uninterpreted parameters, and no unforgeability claim is made. Their inverse laws are assumed as preconditions, and so is one further fact: the JSON text of every payload is ASCII. The model encodes a payload as `btoa` of its JSON text, while src/lib/auth.ts encodes it with `Buffer.from` (UTF-8) and decodes it as UTF-8, and src/proxy.ts decodes it with `atob` (Latin-1). These readings agree only on ASCII text. That holds for the `{role, exp}` payload the session token carries, but the model says nothing about payloads with other characters.
- `Buffer`'s lenient base64url decoding of malformed text is not modelled. Decoding is a parameter that may fail.
- The clock (`Date.now()`, `new Date()`) is a parameter. `Dates.TodayString` takes the calendar fields of the current date.
- `getSessionUser` and `createSession(username)`: `actions.ts` imports and calls them, but `auth.ts` defines neither. The session user is an input. The token payload is a generic value with an expiry, signed as `auth.ts` signs `{role, exp}`.
- The `catch` paths of the actions (database failures and their "Failed to ..." messages) are not modelled. Store writes always succeed.
- `revalidatePath` and `redirect` have no effect in the model. A redirect is an outcome value (`Actions.LoginOutcome`, the logout path).
- The `timestamp` field of the action state is left out, because it only reads the clock.
- `Actions.Store.Login`: a form without `username` or `password` makes the source throw while hashing. The model takes both as text.
- Text lengths count Dafny characters, not the UTF-16 code units of JavaScript strings.
- Foreign keys: the event reference of a transaction is not enforced, as in SQLite without `PRAGMA foreign_keys`.
- Crash atomicity of the two deletes in `deleteEvent` is not modelled. The model is sequential.
- Zod's built-in messages (the description length message, the coercion messages and the integer messages) are modelled as fixed texts. Only their presence or absence is specified.
- Rendering, PDF export, locale formatting (`formatCurrency`, `formatDate`), `getAllEvents`, `getTransactionById` and the client components are not part of this model.

## Findings

| source | as written | input that shows it | evidently intended | confidence | as-written member | corrected member |
|---|---|---|---|---|---|---|
| src/lib/actions.ts:193-214 | `addTransaction` builds the validated object without `paymentMode` and inserts it, so the column default `cash` is stored; `updateTransaction` (src/lib/actions.ts:256-280) likewise never changes the mode | a form whose payment-mode radio (src/app/entry/_components/TransactionForm.tsx:165-185) is set to `bank` | the row records the payment mode the user selected | not executed | Actions.Store.AddTransaction, Actions.BankSelectionIsLost, Actions.Store.UpdateTransaction, Actions.UpdateSelectionIsLost | Actions.Store.AddTransactionWithMode, Actions.InsertedTransactionWithMode, Actions.Store.UpdateTransactionWithMode, Actions.SetTransactionWithMode |
