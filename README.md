# strandbyme API core, modelled in Dafny

This project models four small pieces of the strandbyme puzzle-game backend and proves properties about them:

- **Puzzle-id window (`getPIDMonthStartEnd`).** It maps a `yyyyMM` month to the inclusive range of daily puzzle ids, counted from the anchor 2024-09-22 = puzzle 203. The date-fns calls are replaced by an explicit proleptic Gregorian calendar (`DaysFromCivil`, `DaysInMonth`, the leap rule). `differenceInDays` becomes its documented meaning: full days, truncated toward zero.
- **DynamoDB request builders (`GetItem`, `UpdateItem`).**
  - Both build the key, with the sort key included only when its name and value are both truthy.
  - `GetItem` adds a projection only when one is given, and answers null, the unmarshalled item, or a prefixed error (from the store or from `unmarshall`).
  - `UpdateItem`'s loop builds the `SET #a = :a, ...` expression and the name and value maps.
  - The client's `send` is a parameter of each helper.
- **User search (`/api/user/search` GET).** The handler checks for an empty query, derives the sort key (lower-cased, trimmed) and the partition prefix of at most three characters, and sends the index query. The exported GET is `withMiddleware(handlerGET, authMiddleware)`.
- **Authentication.**
  - `firebaseValidateToken` handles the test-token bypass and otherwise delegates to an abstract verifier.
  - `authMiddleware` does the `split("Bearer ")[1]` extraction and gives the three 401 outcomes. On success it sets `req.user`: `Auth.Request` is a class with a `user` field, and the `AuthMiddleware` method updates it.
  - `withMiddleware` sequences the middleware and the handler over a shared request state.

Modules: `Wrappers` (Option, Outcome = returned value or thrown error), `JsStrings` (truthiness, JavaScript white space, `trim`, ASCII `toLowerCase`, `indexOf`, `split`, `join`), `Http`, `PuzzleWindow`, `DynamoDb`, `FirebaseToken`, `Middleware`, `Auth`, `UserSearch`.

Where the expected behaviour and the code disagree, the model follows the code:
- One would expect puzzle ids of 1 or more, and an error for a malformed month. The code clamps nothing, so months well before the anchor get ids below 1. A malformed month does not throw: it gives `{PIDStart: NaN, PIDEnd: NaN}`, which the model represents as `None`.
- The comment at getPIDMonthStartEnd.js:8 says the input is `yyyy-mm`, but the code parses `yyyyMM`. The dashed form is invalid.
- UpdateItem's doc comment (UpdateItem.js:12-13) lists the sort key after `updateValues`, but the signature (lines 19-22) puts it before. The model follows the signature.

## Model

| member | source | states |
|---|---|---|
| `PuzzleWindow.ParseSixDigits` | app/lib/utils/getPIDMonthStartEnd.js:14 | six digits `yyyyMM` parse as year yyyy and month MM exactly when the year is positive and MM is 01..12; otherwise the input is invalid |
| `PuzzleWindow.ParseAnchorMonth` | app/lib/utils/getPIDMonthStartEnd.js:14 | "202409" parses as September 2024 |
| `PuzzleWindow.ParseRejectsDashedForm` | app/lib/utils/getPIDMonthStartEnd.js:8-14 | the `yyyy-mm` form "2024-09" named in the comment does not parse |
| `PuzzleWindow.ParseRejectsBadMonths` | app/lib/utils/getPIDMonthStartEnd.js:14 | month digits 13 and 00 do not parse |
| `PuzzleWindow.YearLength` | app/lib/utils/getPIDMonthStartEnd.js:14-15 | a year has 366 days exactly under the Gregorian leap rule (divisible by 4, not by 100 unless by 400), otherwise 365 |
| `PuzzleWindow.NextMonthFollows` | app/lib/utils/getPIDMonthStartEnd.js:14-15 | the next month's 1st is the day after this month's last day, December to January included; a month spans DaysInMonth days |
| `PuzzleWindow.FirstDayIncreasing` | app/lib/utils/getPIDMonthStartEnd.js:14 | a later month starts on a later day |
| `PuzzleWindow.WindowStart` | app/lib/utils/getPIDMonthStartEnd.js:11-19 | PIDStart = 203 + the signed number of calendar days from 2024-09-22 to the 1st of the month |
| `PuzzleWindow.WindowEnd` | app/lib/utils/getPIDMonthStartEnd.js:15-20 | PIDEnd = 203 + the days from the anchor to the last day, plus one when that day is before the anchor, because 23:59:59.999 is truncated toward zero |
| `PuzzleWindow.WindowLength` | app/lib/utils/getPIDMonthStartEnd.js:15-20 | PIDEnd − PIDStart + 1 is the month's length (28/29/30/31), plus one before the anchor; PIDStart ≤ PIDEnd for every month |
| `PuzzleWindow.WindowsTileFromAnchor` | app/lib/utils/getPIDMonthStartEnd.js:14-20 | from the anchor's month on, PIDEnd(m) + 1 = PIDStart(next(m)), December to January included |
| `PuzzleWindow.WindowsOverlapBeforeAnchor` | app/lib/utils/getPIDMonthStartEnd.js:15-20 | for a month ending before the anchor, PIDEnd(m) = PIDStart(next(m)): consecutive windows share an id |
| `PuzzleWindow.WindowStartIncreasing` | app/lib/utils/getPIDMonthStartEnd.js:17-20 | a later month has a strictly larger PIDStart |
| `PuzzleWindow.September2024` | app/lib/utils/getPIDMonthStartEnd.js:11-20 | "202409" gives exactly PIDStart 182 and PIDEnd 211, so 203 lies inside |
| `PuzzleWindow.January2024` | app/lib/utils/getPIDMonthStartEnd.js:17-20 | "202401" gives −62..−31: no clamping, so early months get ids below one |
| `PuzzleWindow.August2024` | app/lib/utils/getPIDMonthStartEnd.js:15-20 | "202408" gives exactly 151..182: 31 days in a window of 32 ids |
| `PuzzleWindow.AugustOverlapsSeptember` | app/lib/utils/getPIDMonthStartEnd.js:15-20 | both months parse, and the PIDEnd of "202408" equals the PIDStart of "202409" (182): id 182 falls in both |
| `PuzzleWindow.IntendedWindowsTile` | app/lib/utils/getPIDMonthStartEnd.js:14-20 | the corrected window holds exactly one id per day of the month, tiles every pair of consecutive months, and equals the source's window from the anchor's month on |
| `JsStrings.Trim` | app/api/user/search/route.js:32-33 | the result is the input with white space, and only white space, removed from both ends (a contiguous slice whose surrounding text is all white space); it has none left at either end; it is empty exactly when the input is all white space |
| `JsStrings.TrimIsPrefix` | app/api/user/search/route.js:33 | trimming a string that does not start with white space yields a prefix of it |
| `JsStrings.ToLowerAscii` | app/api/user/search/route.js:32 | lower-casing keeps the length, leaves no upper-case ASCII letter, and keeps every character that is not an upper-case ASCII letter |
| `JsStrings.LowerKeepsWhitespace` | app/api/user/search/route.js:32 | lower-casing neither creates nor removes white space |
| `JsStrings.IndexOf` | app/middleware/authMiddleware.js:9 | the result is the leftmost occurrence of the separator, and None exactly when it does not occur |
| `JsStrings.Split` | app/middleware/authMiddleware.js:9 | `split` gives at least one piece, no piece contains the separator, and joining the pieces with the separator gives the string back; there is one piece exactly when the separator does not occur, and otherwise the first piece ends at its leftmost occurrence |
| `JsStrings.SplitJoin` | app/lib/dynamodb/UpdateItem.js:47 | when no part contains the separator's first character, splitting the joined parts gives the parts back |
| `DynamoDb.BuildKey` | app/lib/dynamodb/GetItem.js:25-31 | the key holds the partition key as `{S: value}`, and holds the sort key iff both its name and value are truthy (an empty string drops it); nothing else |
| `DynamoDb.KeyIsDetermined` | app/lib/dynamodb/UpdateItem.js:24-30 | the key arguments determine the key, so GetItem and UpdateItem address the same item for the same arguments |
| `DynamoDb.GetItemResult` | app/lib/dynamodb/GetItem.js:44-51 | no Item gives null; an Item gives its unmarshalled form; a failure of the store or of `unmarshall` (both inside the `try`) is rethrown as "Failed to get item: " + message, and there is no other failure |
| `DynamoDb.GetItem` | app/lib/dynamodb/GetItem.js:16-52 | the request has exactly TableName, the key above, and a ProjectionExpression present iff `attributes` is truthy and then equal to it; the result is the handling of the store's answer to that request |
| `DynamoDb.BuildSetExpression` | app/lib/dynamodb/UpdateItem.js:32-47 | the expression is "SET " then the clauses joined by ", "; the names map is exactly `#a ↦ a` over the entry attributes; the values map is exactly `:a ↦ {S: v}` with v the attribute's last value |
| `DynamoDb.UpdateItemResult` | app/lib/dynamodb/UpdateItem.js:53-58 | the result is the raw Attributes or null; a failure is rethrown as "Failed to update item: " + message |
| `DynamoDb.UpdateItem` | app/lib/dynamodb/UpdateItem.js:16-59 | the request has the table, the key above, the SET expression and maps above, and ReturnValues "ALL_NEW"; empty `updateValues` give "SET " and empty maps; the result is the handling of the store's answer |
| `DynamoDb.SetExpressionSplitsIntoClauses` | app/lib/dynamodb/UpdateItem.js:36-47 | when no attribute contains a comma, splitting the expression after "SET " on ", " gives back exactly one clause per entry, in entry order |
| `FirebaseToken.ValidateToken` | app/lib/firebase/firebaseValidateToken.js:3-27 | the test token gives exactly `{uid: "testuid", email: "test@example.com"}`; any other token gives the verifier's decoded token, or the error "Unauthorized" if the verifier fails |
| `FirebaseToken.TestTokenBypassesVerifier` | app/lib/firebase/firebaseValidateToken.js:10-17 | for the test token the result is the same whatever the verifier would answer |
| `FirebaseToken.FailuresAreUnauthorized` | app/lib/firebase/firebaseValidateToken.js:19-26 | validation fails exactly when the token is not the test token and the verifier fails, and then always with "Unauthorized" |
| `FirebaseToken.UnconfiguredTestTokenDelegates` | app/lib/firebase/firebaseValidateToken.js:10-22 | with the test token unconfigured, strict equality matches nothing and validation is exactly the verifier's answer |
| `Middleware.WithMiddleware` | app/middleware/withMiddleware.js:2-10 | the middleware runs first; if it throws, the error propagates; otherwise the result is the handler's, called on the state the middleware left |
| `Middleware.MiddlewareResultIsDiscarded` | app/middleware/withMiddleware.js:5-8 | two middlewares that leave the same state lead to the same result, whatever each returned (a 401 included) |
| `Middleware.ThrowingMiddlewareSkipsHandler` | app/middleware/withMiddleware.js:5 | a throwing middleware gives the same result for every handler: the handler is not called |
| `Middleware.WithMiddlewareGuarded` | app/middleware/withMiddleware.js:3-9 | corrected wrapper: a middleware response is returned as the result; only a null lets the handler run |
| `Middleware.GuardedResponseSkipsHandler` | app/middleware/withMiddleware.js:5-8 | under the corrected wrapper, a middleware response makes the result independent of the handler |
| `Middleware.WrappersAgreeOnNull` | app/middleware/withMiddleware.js:5-8 | the two wrappers give the same outcome and the same state whenever the middleware returns null or throws |
| `Auth.BearerTokenAbsent` | app/middleware/authMiddleware.js:9-12 | `split("Bearer ")[1]` is undefined exactly when "Bearer " does not occur in the header |
| `Auth.BearerTokenLocation` | app/middleware/authMiddleware.js:9 | the token is the text after the first occurrence of "Bearer " (its `indexOf`), up to the next "Bearer " or the end; "Bearer " need not start the header, and neither the text before nor the token contains it |
| `Auth.StandardHeaderYieldsToken` | app/middleware/authMiddleware.js:9 | "Bearer " + t yields t when t does not contain "Bearer " |
| `Auth.Authenticate` | app/middleware/authMiddleware.js:3-25 | a missing or empty header gives 401 "No token provided"; no token, or an empty one, gives 401 "Invalid token format"; a failed validation gives 401 "Invalid or expired token"; success gives the decoded token; there are no other responses |
| `Auth.NoTokenMeansNoVerification` | app/middleware/authMiddleware.js:4-12 | without a usable token the decision is the same whatever the verifier would answer |
| `Auth.AuthStep` | app/middleware/authMiddleware.js:14-24 | the middleware never throws; it returns null and sets `user` to the decoded token exactly on success, and otherwise returns the 401 and leaves the request unchanged |
| `Auth.AuthMiddleware` | app/middleware/authMiddleware.js:3-25 | the returned value and the new `req.user` are those AuthStep gives for the old request |
| `UserSearch.PartitionKeyIsPrefix` | app/api/user/search/route.js:32-33 | the partition key has at most 3 characters and is a prefix of the sort-key value |
| `UserSearch.WhitespaceQueryGivesEmptyKeys` | app/api/user/search/route.js:24-33 | a whitespace-only query yields an empty partition key and an empty sort key |
| `UserSearch.PlanSearch` | app/api/user/search/route.js:21-46 | a missing or empty query gets the 400 answer; else a decode failure is raised with the decoder's error; else the query for the decoded value is sent |
| `UserSearch.AnswerQuery` | app/api/user/search/route.js:48-67 | a store answer gives 200 with the unmarshalled items; a failure gives 500 `{"error":"An error occurred while searching users"}` |
| `UserSearch.HandleGet` | app/api/user/search/route.js:13-68 | a missing or empty query gives 400 `{"error":"Search value is required"}`; a decode failure propagates as a throw and not as a 500; otherwise the store answer decides 200 or 500 |
| `UserSearch.MissingQueryMakesNoStoreCall` | app/api/user/search/route.js:21-29 | for a missing or empty query the result does not depend on the store or on the decoder |
| `UserSearch.QueryShape` | app/api/user/search/route.js:35-46 | the query uses table sbm-user, the GSISearchPK-GSISearchSK-index index, the `begins_with` key condition, Limit 10 and exactly the five projected attributes, with `:pk` a prefix of `:sk` of at most 3 characters |
| `UserSearch.GetIgnoresAuthentication` | app/api/user/search/route.js:70 | the exported GET answers exactly as the bare handler does, whatever the authorization header |
| `UserSearch.UnauthenticatedSearchReachesStore` | app/api/user/search/route.js:70 | a request with no authorization header draws the middleware's 401, yet the store is queried and its answer returned |
| `UserSearch.GuardedGetRejectsUnauthenticated` | app/api/user/search/route.js:70 | with the corrected wrapper, an unauthenticated request gets its 401 and the result does not depend on the store |
| `UserSearch.GuardedGetServesAuthenticated` | app/api/user/search/route.js:70 | with the corrected wrapper, an authenticated request is served by the handler with `user` set to the decoded token |

## Findings

| source | as written | input that shows it | evidently intended | confidence | as-written member | corrected member |
|---|---|---|---|---|---|---|
| app/lib/utils/getPIDMonthStartEnd.js:15-20 | PIDEnd counts full days from the anchor to 23:59:59.999 of the month's last day. For a month ending before the anchor this truncates toward zero, one day up, so PIDEnd equals the next month's PIDStart | "202408" gives 151..182 and "202409" gives 182..211: puzzle 182 lies in both months | PIDEnd = 203 + calendar days from the anchor to the last day, so months tile | not executed; high, given date-fns' documented truncation of differenceInDays | `PuzzleWindow.AugustOverlapsSeptember` | `PuzzleWindow.IntendedWindowsTile` |
| app/middleware/withMiddleware.js:5-8 | the middleware's result is awaited and discarded, so a 401 from authMiddleware does not stop the handler; no handler reads `req.user` | a search request with query "ann" and no authorization header: authMiddleware yields 401 "No token provided", and the handler still queries sbm-user and returns its 200 | return the middleware's response when it is not null | not executed; high | `UserSearch.UnauthenticatedSearchReachesStore` | `UserSearch.GuardedGetRejectsUnauthenticated` |

The exported GET (`UserSearch.Get`) is modelled as written. `UserSearch.GuardedGet` is the same route under the corrected wrapper `Middleware.WithMiddlewareGuarded`. `PuzzleWindow.IntendedWindow` is the corrected window.

## Left out

- The friend graph, the leaderboards and the interval aggregation are not part of this model.
- `ClientDynamoDB.send` and `unmarshall`, together with app/lib/dynamodb/ClientDynamoDB.js, are not modelled: they are network I/O and AWS SDK internals. `send` is a function parameter that returns an answer or throws. `unmarshall` is a parameter too; for GetItem it may throw.
- `JSON.stringify` of the items is a parameter. The two error bodies are written out as the strings `JSON.stringify` produces.
- `auth.verifyIdToken` and app/lib/firebase/firebaseAdmin.js are not modelled: they are a foreign call and SDK initialisation. The verifier is a parameter. The decoded token keeps only `uid` and `email`.
- The number of verifier calls is not stated as a property. `Authenticate` applies the validator at most once by construction. The independence lemmas state when the verifier is not consulted at all.
- `decodeURIComponent` is an abstract parameter that may throw. `toLowerCase` is ASCII-only. Strings are sequences of characters, not UTF-16 code units, so `slice(0, 3)` on astral characters is not modelled.
- `new URL(req.url).searchParams.get("query")` and `req.headers.get("authorization")` are taken as given values, so their percent-decoding and case-insensitive lookup are not modelled. The unused `context.params` of the search handler is left out. Search responses carry only the Content-Type header.
- `console.error` logging is not modelled.
- A throw from `unmarshall` inside the search handler's `try` is not modelled.
- date-fns is modelled by its documented semantics, not its code: `parse` with "yyyyMM", full-day `differenceInDays` truncated toward zero, and start/end of month. Time runs in local time with 24-hour days, so time-zone and daylight-saving effects are not modelled.
- `new Date()` as the reference date of `parse` is not modelled, because the year-and-month format overrides it.
- `DynamoDb.UpdateItem`: `updateValues` comes in as the sequence `Object.entries` yields, including its ordering rule for integer-like keys. Only string values are modelled: the source sends every value as `{S: value}`.
- `DynamoDb.UpdateItem`: a null or undefined `updateValues` is not modelled, because the entries are a sequence. In the source `Object.entries` runs before the `try` (UpdateItem.js:36), so it throws a TypeError without the "Failed to update item: " prefix, and no request is sent. That case arises for a caller who passes `updateValues` in its documented position, or a route that forwards a `null` body.
- app/lib/utils/getAESTTime.js depends on the wall clock and on time-zone conversion.
- app/api/report/route.js is a clock stamp plus a single PutItem.
- app/lib/template/middleware.js is an unused template. app/lib/template/GET.js and app/api/test/route.js only echo their input. app/api/auth/createToken/route.js is commented out. None of these carry logic the model needs.
