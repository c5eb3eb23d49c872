# Car report service, modelled in Dafny

A model of the core of a small web service for car-valuation reports. Users
sign up and sign in with an email and a password. They receive a signed bearer
token. With it they file reports about cars they have sold: make, model, year,
coordinates, mileage and price. An admin approves reports. Anyone can ask for a
price estimate, which is the average price of the approved reports comparable
to the query.

The model covers:

- **Password records** (`password_record.dfy`). A record is `salt + "." + hex(key)`.
  The key comes from a key derivation function of the salt text and the password.
  Sign-in splits the record on `.` and compares keys. The derivation function is a
  parameter, so the proofs hold for any such function.
- **Number parsing** (`js_parse.dfy`). JavaScript's `parseInt` and `parseFloat`
  as the service uses them on path ids and estimate queries. This covers leading
  white space, the sign, the `0x` prefix, the digit prefix, and NaN as `None`.
- **The account store** (`account_service.dfy`). `AccountService` is a class
  over the account table, a sequence of rows in id order. It has sign-up, sign-in,
  lookup by id (a falsy id gives no account), partial update (a non-empty new
  password is re-hashed with a fresh salt) and removal.
- **Token validation and the access decision** (`jwt_strategy.dfy`, `access.dfy`).
  A verified token becomes the stored account with the token's `id`. A route is
  either public or requires one of a set of roles. The role checked is the
  stored one, not the one in the token.
- **The report store and the estimate** (`reports_service.dfy`). `ReportsService`
  is a class over the report table. It has creation (owned by the caller, never
  approved), listing of the caller's reports, setting the approval flag, and
  the estimate. The estimate is the SQL average of the prices of every candidate,
  and NULL when there is none.
- **Request bodies and responses** (`report_dtos.dfy`, `account_dtos.dfy`). The
  estimate and report-creation validators, with their `parseInt`/`parseFloat`
  transforms and ranges. Also the response projections: an account shows only
  `id`, `email` and `role`; a report shows its columns and `ownerId`.
- **The routes** (`account_controller.dfy`, `reports_controller.dfy`). Each route's
  policy and success status. A `Serve` method runs one request: the access
  decision, then validation, then the handler, then the response shape.

In these places the model follows the code where one might expect otherwise:

- A token whose account was removed is answered with 404, not 401. The
  lookup by a non-zero id that has no row throws NotFound, and `validate`
  does not catch it. The 401 case happens only for a falsy id claim.
- The estimate is the average over **all** candidates. The query is one
  aggregate without GROUP BY, so it yields a single row. Its `ORDER BY
  ABS(mileage - :mileage) DESC` and `LIMIT 3` act on that one row and select
  nothing. With no candidate the answer is `{ price: null }` (SQL `AVG` of no
  rows), modelled as `None`.
- Sign-up and sign-in answer with `{ id, token }` only. The response class
  drops email, role and the password record.
- The estimate route answers 400 for a body that fails validation. The
  approval route answers 404 for an unknown id.

The code behaves in three ways worth noting, and the model keeps them as written:

- An update may give an account another account's email. Uniqueness is
  checked only at sign-up. Sign-in by email then finds the row with the
  smallest id.
- An update whose password is the empty string skips hashing. It stores the
  empty text as the record, after which no password signs in.
- Fetch and update do not compare the path id with the caller's id, so any
  signed-in user may read or change any account.

## Model

| member | source | states |
|---|---|---|
| `JsParse.ParseIntRoundTrip` | src/account/account.controller.ts:48 | `parseInt` reads back exactly the integer that `String` wrote, so a path id built from an account id reaches that id |
| `JsParse.ParseIntIgnoresSuffix` | src/account/account.controller.ts:83 | `parseInt` reads only the leading digits: a digit string followed by a non-digit (other than the `x` of a hex prefix) is read as that number |
| `JsParse.ParseFloatOfInteger` | src/reports/dtos/get-estimate.dto.ts:22-30 | `parseFloat` reads back exactly the integer that `String` wrote |
| `JsParse.DigitPrefix` | src/account/account.controller.ts:94 | the digits `parseInt` reads are the longest digit prefix of the text |
| `PasswordRecord.Hex` | src/account/account.service.ts:25 | hex text has two lower-case hex digits per byte, so it never holds the `.` separator |
| `PasswordRecord.HexInjective` | src/account/account.service.ts:45 | different keys give different hex text, so comparing hex compares keys |
| `PasswordRecord.Split` | src/account/account.service.ts:42 | the split parts contain no separator and join back to the input |
| `PasswordRecord.SplitPair` | src/account/account.service.ts:42 | splitting `a.b` gives exactly `a` and `b` when neither holds a `.` |
| `PasswordRecord.ParseMakeRecord` | src/account/account.service.ts:23-25 | splitting a written record recovers its salt and its key |
| `PasswordRecord.VerifyMakeRecord` | src/account/account.service.ts:42-46 | a password verifies against the record written for it |
| `PasswordRecord.VerifyIffSameKey` | src/account/account.service.ts:42-46 | an attempt verifies against a record exactly when the key function gives it the same key as the original password |
| `PasswordRecord.VerifyNeedsSeparator` | src/account/account.service.ts:42-45 | a record without `.` has no stored key, so no password verifies |
| `PasswordRecord.SaltText` | src/account/account.service.ts:23 | the salt text of 8 random bytes is 16 lower-case hex digits |
| `AccountStore.IndexOfEmail` | src/account/account.service.ts:17 | the lookup by email finds the first row in id order with that email, or none when no row has it |
| `AccountStore.IndexOfId` | src/account/account.service.ts:58 | the lookup by id finds a row with that id, or none when no row has it or the id is NaN |
| `AccountStore.IndexOfEmailAppend` | src/account/account.service.ts:27-29 | a new row with a fresh email is the row a later lookup by that email finds |
| `AccountStore.AccountService.constructor` | src/account/account.service.ts:14 | the store starts empty with the key function and token signer it is given |
| `AccountStore.AccountService.Signup` | src/account/account.service.ts:16-33 | a taken email fails with 400 "Account with this email already exists!" and changes nothing; otherwise one row is appended with the next id and the salted record, a token is signed for its id, email and role, unique emails stay unique, and signing in with the same email and password returns the same account and, with a signer that takes no clock, the same token |
| `AccountStore.AccountService.Signin` | src/account/account.service.ts:35-51 | unknown email and wrong password fail with the same 400 "Wrong Credentials!"; success returns a stored row with that email whose record verifies, with a token for its stored claims; the row consulted is the first in id order with that email, and sign-in succeeds exactly when its record verifies; with unique emails, success exactly when such a row exists |
| `AccountStore.AccountService.FindOne` | src/account/account.service.ts:53-65 | a falsy id (0 or NaN) gives no account; otherwise it succeeds exactly when a row has the id, returns the row the lookup by id finds, and fails with 404 "Account not found!" |
| `AccountStore.AccountService.Update` | src/account/account.service.ts:68-84 | an unknown id fails with 404 and changes nothing; otherwise only that row changes, each field present in the patch overwrites it, a non-empty password is stored as a fresh salted record, the id is kept, and the new password then signs in |
| `AccountStore.AccountService.Remove` | src/account/account.service.ts:86-95 | an unknown id fails with 404 and changes nothing; otherwise exactly the row with that id is removed, the others stay in order, and the id is returned |
| `AccountStore.RemoveAt` | src/account/account.service.ts:93 | deleting one row keeps ids ascending and keeps exactly the rows with another id |
| `AccountStore.UpdateCanDuplicateEmail` | src/account/account.service.ts:81 | an update can leave two rows with the same email |
| `AccountStore.EmptyPasswordUpdateLocksOut` | src/account/account.service.ts:75-81 | an update with an empty password stores the empty text, against which no password verifies |
| `JwtStrategy.Validate` | src/account/strategies/jwt.strategy.ts:17-24 | a falsy id claim fails 401; otherwise it succeeds exactly when a row has the id, returning that stored row, and fails 404 when none does |
| `JwtStrategy.ValidateIgnoresClaimedRole` | src/account/strategies/jwt.strategy.ts:18 | only the id claim matters: the email and role in the token do not change the account validation returns |
| `Access.Decide` | src/app.module.ts:36-47 | a public route is allowed with no caller; otherwise no good token gives 401, a failed lookup of the token's id is refused with that lookup's error (401 for a falsy id, 404 for an id with no row); a stored role in the route's set is allowed with that stored account as caller, and 403 happens exactly when the stored role is outside that set |
| `Access.RemovedAccountTokenRejected` | src/account/strategies/jwt.strategy.ts:18-21 | a token for a removed account is refused with 404 on every guarded route |
| `AccountDtos.AccountViewExposes` | src/account/dtos/account.dto.ts:5-17 | two accounts give the same response exactly when id, email and role agree; the password record never reaches it |
| `AccountDtos.TokenViewExposes` | src/account/dtos/token.dto.ts:4-12 | two sign-in results give the same response exactly when the account id and the token agree |
| `AccountDtos.UpdatedViewShowsPatch` | src/account/dtos/account.dto.ts:6-16 | after an update the response shows the patched email and role under the same id |
| `AccountController.PolicyOf` | src/account/account.controller.ts:39-88 | sign-up and sign-in are public, fetch and update need admin or user, removal needs admin |
| `AccountController.FetchAnyAccount` | src/account/account.controller.ts:47-49 | any caller the guard lets through fetches any account by the decimal text of its id |
| `AccountController.Serve` | src/account/account.controller.ts:39-95 | a denied request is answered with its error and changes nothing; a success status is the route's own; fetch and sign-in change nothing; sign-in answers with the store's result projected to `{ id, token }`; an allowed fetch answers with the row of `parseInt(id)` projected to `{ id, email, role }`; sign-up answers 400 for a taken email, otherwise appends the new row and answers 201 with its id and token; an allowed update or removal acts on the row of `parseInt(id)` whoever the caller is, answering 404 and changing nothing when there is none, otherwise replacing that row with the patched one and answering it, or deleting it and answering 204 |
| `AccountController.UserCannotRemove` | src/account/account.controller.ts:86-88 | a caller whose stored role is `user` is refused removal with 403 |
| `AccountController.PublicRoutesIgnoreToken` | src/account/account.controller.ts:51-71 | sign-up and sign-in are allowed whatever credential comes with them |
| `ReportStore.IndexOfId` | src/reports/reports.service.ts:24 | the lookup by id finds a row with that id, or none when no row has it or the id is NaN |
| `ReportStore.OwnedBy` | src/reports/reports.service.ts:20 | the listed reports are exactly the table's reports whose owner has the given id |
| `ReportStore.Candidates` | src/reports/reports.service.ts:37-42 | the kept reports are exactly those that are approved, of the same make and model, and within 5 of longitude, 5 of latitude and 3 of year |
| `ReportStore.Average` | src/reports/reports.service.ts:36 | the average is NULL exactly over no rows, and otherwise times the row count equals the sum of prices |
| `ReportStore.CandidatesAppend` | src/reports/reports.service.ts:37-42 | the filter works row by row: the candidates of two tables joined are the candidates of each, joined |
| `ReportStore.NonCandidateIgnored` | src/reports/reports.service.ts:37-42 | adding an unapproved or out-of-window report anywhere leaves the estimate unchanged |
| `ReportStore.NewReportLeavesEstimate` | src/reports/reports.service.ts:13-17 | a newly saved, unapproved report does not move the estimate |
| `ReportStore.EstimateNullIffNoCandidate` | src/reports/reports.service.ts:36 | the estimate is NULL exactly when no report is a candidate |
| `ReportStore.EstimateWithinPrices` | src/reports/reports.service.ts:36 | when every candidate's price lies in a range, so does the estimate |
| `ReportStore.TwoCandidatesAverage` | src/reports/reports.service.spec.ts:140-160 | two candidates give the mean of their two prices (200000 and 100000 give 150000) |
| `ReportStore.EstimateOrderIndependent` | src/reports/reports.service.ts:43-45 | any rearrangement of the same reports gives the same estimate, so the ordering selects nothing |
| `ReportStore.SumPricesPermutation` | src/reports/reports.service.ts:36 | the sum of prices does not depend on the order of the rows |
| `ReportStore.ReportsService.constructor` | src/reports/reports.service.ts:11 | the report store starts empty |
| `ReportStore.ReportsService.Create` | src/reports/reports.service.ts:13-17 | one report is appended with the next id, the body's fields, the given owner and `approved` false; nothing else changes |
| `ReportStore.ReportsService.List` | src/reports/reports.service.ts:19-21 | the result holds exactly the stored reports whose owner has the caller's id |
| `ReportStore.ReportsService.UpdateApproval` | src/reports/reports.service.ts:23-32 | an id whose `parseInt` matches no row fails with 404 "Report not found!" and changes nothing; otherwise only that row's approval flag changes and the updated row is returned |
| `ReportStore.ReportsService.CreateEstimate` | src/reports/reports.service.ts:34-47 | the price is NULL exactly when no stored report is a candidate, and otherwise times the candidate count equals the sum of their prices |
| `ReportDtos.Trunc` | src/reports/dtos/get-estimate.dto.ts:15 | a number's integer part, rounded toward zero |
| `ReportDtos.ValidateEstimate` | src/reports/dtos/get-estimate.dto.ts:6-38 | the body passes exactly when make and model are strings, `parseInt(year)` is in [1930, 2023], `parseFloat(lng)` in [-180, 180], `parseFloat(lat)` in [-90, 90] and `parseInt(mileage)` in [0, 500000]; a passing body yields exactly those strings and parsed values; a failure is a 400 |
| `ReportDtos.EstimateBodyRoundTrip` | src/reports/dtos/get-estimate.dto.ts:15-37 | every query within the ranges passes and arrives unchanged, whether year and mileage are sent as numbers or as text |
| `ReportDtos.TruncOfInteger` | src/reports/dtos/get-estimate.dto.ts:32 | `parseInt` leaves an integral number unchanged |
| `ReportDtos.EstimateYearTruncated` | src/reports/dtos/get-estimate.dto.ts:15-20 | a fractional year is queried by its integer part |
| `ReportDtos.ValidateCreateReport` | src/reports/dtos/create-report.dto.ts:4-38 | the body passes exactly when make and model are strings, year is a number in [1950, 2023], lng in [-180, 180], lat in [-90, 90], mileage in [0, 1000000] and price in [0, 500000]; a failure is a 400 |
| `ReportDtos.CreateBodyIgnoresExtraFields` | src/app.module.ts:32-34 | a field the creation body does not declare, `approved` included, does not change what validation yields |
| `ReportDtos.CreateBodyRoundTrip` | src/reports/dtos/create-report.dto.ts:13-37 | every creation body within the ranges passes and arrives unchanged |
| `ReportDtos.ReportViewExposes` | src/reports/dtos/report.dto.ts:4-45 | two reports give the same response exactly when their columns and their owners' ids agree; nothing else of the owner is shown |
| `ReportDtos.ApprovalVisible` | src/reports/dtos/report.dto.ts:37-39 | setting the approval flag shows in the response and changes nothing else in it |
| `ReportDtos.ColumnsExpose` | src/reports/report.entity.ts:5-34 | the approval response carries every column of the report and nothing of its owner |
| `ReportsController.PolicyOf` | src/reports/reports.controller.ts:37-66 | the estimate is public, listing and creating need admin or user, approval needs admin |
| `ReportsController.Serve` | src/reports/reports.controller.ts:37-74 | a denied request is answered with its error and changes nothing; a success status is the route's own; the estimate is validated and answered over the current table; an allowed listing answers with exactly the caller's reports, in table order, each projected with the caller's id as `ownerId`; an allowed creation answers 400 for a body that fails validation and otherwise appends the validated report, owned by the caller and unapproved, answering 201 with it; an allowed approval answers 404 and changes nothing for an id whose `parseInt` matches no row, otherwise sets only that row's flag and answers with its columns |
| `ReportsController.EstimateIgnoresToken` | src/reports/reports.controller.ts:37-44 | the estimate is allowed whatever credential comes with it |
| `ReportsController.UserCannotApprove` | src/reports/reports.controller.ts:65-66 | a caller whose stored role is `user` is refused approval with 403 |
| `ReportsController.NoTokenNoReports` | src/reports/reports.controller.ts:46-56 | listing and creating without a good token are refused with 401 |

## Left out

- Token signing and checking are not modelled. The signature, secret and expiry checks of the bearer token are abstract. A request carries a `Credential`: no token, a token that fails the check, or the payload of a good one. The signer is a function given to the account store.
- The key derivation (scrypt with a 32-byte key) is a function parameter. The proofs hold for every such function. Claims that rest on its collision resistance are stated as "verifies exactly when the keys agree".
- Randomness: the 8 salt bytes are a parameter of sign-up and update.
- Persistence is a pair of in-memory sequences, one per table, with an id counter each. The ORM, SQL, migrations and asynchronous calls are not modelled.
- Deleting an account cascades to its reports in the database. That cascade is not modelled; `Remove` changes the account table only.
- The logging hooks of the account entity are not modelled.
- The guard source files (the JWT guard and the role guard) are not part of this model. `Access.Decide` models them as the module registers them: the token guard first, then the role guard.
- The thin body validators on the account routes and the approval route are not modelled: `IsEmail`, `IsString`, `IsOptional` and `IsBoolean`. Those bodies are plain typed fields, so their 400 answers are not modelled.
- The "three farthest reports by mileage" reading of the estimate query is not modelled. The SQL does not select that way.
- `ReportDtos.ValidateCreateReport`: a longitude or latitude sent as numeric text also passes `IsLongitude`/`IsLatitude`. The model accepts only JSON numbers there.
- `ReportDtos.ValidateCreateReport`: `IsLongitude`/`IsLatitude` match the number's text against a decimal pattern, so a coordinate that `String` writes in exponent notation (0 < |x| < 1e-6) is refused with 400. The model checks the range only and accepts it.
- `ReportDtos.ValidateEstimate`: likewise, a coordinate whose text is in exponent notation, or parses to such a number, is refused by `IsLongitude`/`IsLatitude`; the model checks the range only and accepts it.
- `AccountStore.AccountService.Signup`: the token signer is a function of the claims alone. The issue and expiry times the real signer adds are not modelled, so a later sign-in gets the same token in the model and a different one in the program; the account returned is the same in both.
- The estimate's aggregate query and the row order of lookups are modelled as SQLite runs them, the database of the development and test configurations (src/db.datasourceOptions.ts:7-25). Under the PostgreSQL production configuration the estimate query, whose `ORDER BY` names a column outside the aggregate, is refused by the database, and a lookup by email among duplicated emails need not find the smallest id.
- `JsParse.ParseFloat`: exponent notation (`1e3`) and `Infinity` are not read. A number that `String` writes in exponent notation (very large or very small) is not modelled either, for `parseInt` or for `parseFloat`.
- `ReportDtos.Json`: nested objects and arrays in a body are not modelled.
- Numbers are unbounded: ids are naturals and report fields are exact reals. The model has no IEEE rounding and no NaN in stored values.
- API documentation, the bootstrap and module wiring are not modelled.
