# Gap-analysis API: a verified model of the request handlers

This project models the core of the gap-analysis web API in Dafny and proves properties of the model. The API lets a user register and log in, then save a self-assessment of thirteen project-management sub-scores. It can also list that user's past assessments and record clicks on partner resources. The model covers six files:

- `lib/auth.js`: the bearer-token guard (`extractToken`, `verifyToken`, `requireAuth`, `requireAdmin`).
- `api/auth/register.js`: the validation chain, the duplicate check and the user insert.
- `api/auth/login.js`: lookup by lowercased email, the uniform 401 and the `updated_at` touch.
- `api/assessment/save.js`: the scoring rule, the result insert and the coalescing profile backfill.
- `api/assessment/history.js`: select, order, limit and reshape.
- `api/assessment/track-lead.js`: body validation and the append-only lead log.

Layout:

- `wrappers.dfy` (`Option`, `Coalesce`) and `text.dfy` (ASCII lowercasing, whitespace, `split('@')[0]`, JavaScript truthiness) are shared helpers.
- `schema.dfy` holds the rows of the three tables (`users`, `assessment_results`, `partner_leads`), the store's integrity predicate `Valid`, the JSON bodies and the verb check every handler starts with.
- `store.dfy` gives one pure function per SQL statement. It also defines the class `Database`, whose methods run those statements in place on its fields, and the class `Res`, the response object that `res.status(..).json(..)` writes.
- `auth.dfy`, `scoring.dfy`, `save.dfy`, `history.dfy`, `register.dfy`, `login.dfy` and `track_lead.dfy` follow the source files.
- `scenarios.dfy` relates several requests to each other.

Each handler is modelled twice:

- A pure function `XStep(tables, request, crypto, now)` returns the new tables and the response. The lemmas are stated about it.
- A method `Handle` runs the same decisions against a `Database` and a `Res`. Its postcondition says that the response written and the store afterwards are exactly what `XStep` gives, and that the store's invariant is kept.

The crypto libraries are a parameter `Crypto` of four functions: `jwt.sign` (given the claims and the issue time it stamps), `jwt.verify`, `bcrypt.hash` and `bcrypt.compare`. Properties that depend on them assume only what the handlers rely on:

- `HashSound`: a password matches its own hash.
- `TokensRoundTrip`: a token that was issued, at any time, is non-empty and verifies to its claims.

The clock is the parameter `now`.

Three behaviours of the code worth stating:

- The profile backfill is `COALESCE(new, old)` (`api/assessment/save.js:60-62`): a submitted non-null value overwrites the stored one. It does not fill only the missing fields.
- `gapCount + strengthCount` is the number of submitted values (`Object.values`), which is 13 only for a full submission.
- A header that does not start with `Bearer ` is answered "Authentication required", the same as a missing header.

## Model

| member | source | states |
|---|---|---|
| Wrappers.Coalesce | api/assessment/save.js:60-62 | SQL `COALESCE(new, old)`: the new value when non-null, else the old one; `Store.BackfillUserExact` states it per column |
| Text.ToLower | api/auth/register.js:32 | lowercasing keeps the length, maps `A`..`Z` to `a`..`z`, keeps every other character and leaves no uppercase letter |
| Text.ToLowerIdempotent | api/auth/login.js:25 | lowercasing an already lowercased email changes nothing, so the stored key and the lookup key agree |
| Text.BeforeAt | api/auth/register.js:41 | `email.split('@')[0]` is the longest prefix without `@`: a prefix, free of `@`, and followed by `@` unless it is the whole string |
| Text.Truthy | api/auth/register.js:17 | JavaScript truthiness of an optional string: present and non-empty; `Register.ValidateSpec` and `TrackLead.TrackLeadRejections` state the 400s it decides |
| Text.OrNull | api/auth/register.js:41 | a string or else null: an empty or missing string becomes null; `Register.RegisterSuccess` and `Save.SaveSuccess` state the columns it fills |
| Schema.Lookup | api/assessment/save.js:46-48 | reading a property gives nothing exactly when no entry has the key, and otherwise the value of the first entry with that key |
| Schema.Preflight | api/assessment/save.js:9-12 | `OPTIONS` gives 200 with an empty body, any verb other than the endpoint's own gives 405, and only the endpoint's verb carries on |
| Schema.Project | api/auth/register.js:54-61 | the `user` object of the register and login replies, without the password hash; `Register.RegisterSuccess` and `Login.LoginSuccess` state it |
| Schema.Claims | api/auth/register.js:47-51 | the `{userId, email, name}` passed to `createToken`; `Register.RegisterSuccess` and `Login.LoginSuccess` state the token signed over it |
| Auth.VerifyToken | lib/auth.js:10-16 | the result is null exactly when `jwt.verify` throws, and otherwise it is the decoded claims |
| Auth.ExtractToken | lib/auth.js:18-24 | a token exists exactly when the header is present and starts with `Bearer `, and the header is then `Bearer ` followed by the token |
| Auth.ExtractTokenRoundTrip | lib/auth.js:23 | for every string `t`, the header `Bearer ` + `t` yields `t` |
| Auth.ExtractTokenExactPrefix | lib/auth.js:20 | the prefix is case-sensitive with exactly one space: `bearer x` and `Bearer` yield nothing, and `Bearer  x` yields ` x` |
| Auth.CreateToken | lib/auth.js:6-8 | `jwt.sign` over the given claims at the given time; `Auth.AuthenticateIssued` states that such a token authenticates as its claims |
| Auth.Authenticate | lib/auth.js:26-40 | 401 "Authentication required" exactly when there is no non-empty bearer token; 401 "Invalid or expired token" exactly when the token does not verify; the claims exactly when it does |
| Auth.AuthenticateIssued | lib/auth.js:6-40 | a token from `createToken(p)` sent as `Bearer <token>` authenticates as exactly `p` |
| Auth.AdminCheck | lib/auth.js:42-53 | an authentication rejection passes through unchanged; the claims come back exactly when a user row with that id has `is_admin`; 403 exactly when authenticated but not an admin; no other status |
| Auth.RequireAuth | lib/auth.js:26-40 | returns the claims and writes no response, or writes the rejection and returns null, as `Authenticate` decides |
| Auth.RequireAdmin | lib/auth.js:42-53 | returns the claims and writes nothing, or writes exactly the 401 or 403 `AdminCheck` decides and returns null; the store, which must be valid so that user ids are unique, is only read |
| Store.UserByEmail | api/auth/login.js:22-26 | the row filed under the key, or none; `Login.LoginFailures` and `Login.LoginCaseInsensitive` state what the lookup decides |
| Store.IsAdmin | lib/auth.js:46-47 | a row with that id exists and has `is_admin` set; `Store.IsAdminOfRow` ties it to the one row the primary key allows and `Auth.AdminCheck` states the 403 it decides |
| Store.TouchUser | api/auth/login.js:40 | the `UPDATE ... SET updated_at` by id; `Store.TouchUserExact` states what it changes |
| Store.BackfillUser | api/assessment/save.js:58-65 | the `COALESCE` update by id; `Store.BackfillUserExact` states what it changes |
| Store.IsAdminOfRow | lib/auth.js:46-47 | in a valid store a user is an admin exactly when the one row with their id has `is_admin` set, as the guard's read of the first row gives |
| Store.NewUserRow | api/auth/register.js:39-43 | the row the user INSERT creates, with the column defaults; `Store.Database.InsertUser` and `Register.RegisterSuccess` state its fields |
| Store.WithUser | api/auth/register.js:39-43 | the store after that INSERT; `Store.InsertUserValid` states that it adds exactly the one key and stays valid |
| Store.NewResultRow | api/assessment/save.js:33-52 | the row the results INSERT creates, with the next id, the time and `pdf_downloaded` false; `Save.SaveSuccess` states its columns |
| Store.WithResult | api/assessment/save.js:33-52 | the store after that INSERT; `Store.InsertRowsValid` states that it stays valid |
| Store.NewLeadRow | api/assessment/track-lead.js:24-27 | the row the lead INSERT creates; `TrackLead.TrackLeadAppends` states its columns |
| Store.WithLead | api/assessment/track-lead.js:24-27 | the store after that INSERT; `Store.InsertRowsValid` states that it stays valid |
| Store.InsertUserValid | api/auth/register.js:39-43 | adding a user under a fresh lowercase email with the next id keeps the store valid and adds exactly that key |
| Store.TouchUserExact | api/auth/login.js:40 | `UPDATE users SET updated_at` by id changes only `updated_at` of that one user, keeps every key and keeps the store valid |
| Store.BackfillUserExact | api/assessment/save.js:58-65 | each of job title, organization and experience takes the submitted value when non-null and keeps the old one otherwise; `updated_at` is set; no other user changes; the store stays valid |
| Store.InsertRowsValid | api/assessment/save.js:33-52 | appending a result or a lead with the next id keeps the store valid |
| Store.Database.InsertUser | api/auth/register.js:39-43 | the new row gets the next id, the email it is given (the handler passes the lowercased one), `is_admin` false and no experience level; the tables become the old ones plus that row |
| Store.Database.TouchUpdatedAt | api/auth/login.js:40 | the users table becomes the touched one and nothing else changes |
| Store.Database.BackfillProfile | api/assessment/save.js:58-65 | the users table becomes the coalesced one and nothing else changes |
| Store.Database.InsertResult | api/assessment/save.js:33-52 | the returned row has the next id, `pdf_downloaded` false and `completed_at` now; it is appended and nothing else changes |
| Store.Database.InsertLead | api/assessment/track-lead.js:24-27 | the returned row has the next id and the click time; it is appended and nothing else changes |
| Store.Res.Send | lib/auth.js:29 | the response written is exactly the given status and body |
| Scoring.Values | api/assessment/save.js:25 | `Object.values(scores)`, in order; `Scoring.GapsPlusStrengths` and `Save.Summarize` state the counts over it |
| Scoring.Sum | api/assessment/save.js:26 | the `reduce` sum; `Scoring.SumBounds` bounds it |
| Scoring.Gaps | api/assessment/save.js:30 | the values below the target; `Scoring.GapsPlusStrengths` and `Scoring.GapsMonotone` state its properties |
| Scoring.Strengths | api/assessment/save.js:31 | the values at or above the target; `Scoring.GapsPlusStrengths` states that together with the gaps they count every value once |
| Scoring.OverallScore | api/assessment/save.js:26 | the result is within a half of 20 × sum / n, with halves rounded up, as `Math.round` gives on the exact mean |
| Scoring.OverallScoreUnique | api/assessment/save.js:26 | any integer within a half of 20 × sum / n is the overall score, so the rounding is determined |
| Scoring.SumBounds | api/assessment/save.js:26 | sub-scores in 0..5 sum to between 0 and 5 n |
| Scoring.OverallScoreInRange | api/assessment/save.js:26 | sub-scores in 0..5 give an overall score in 0..100 |
| Scoring.Target | api/assessment/save.js:28-29 | the target is 3 exactly for `exploring` and `support`, 5 exactly for `pmp`, and 4 for `job`, `improve`, any other goal and no goal |
| Scoring.GapsPlusStrengths | api/assessment/save.js:30-31 | every submitted value is counted once, as a gap or as a strength |
| Scoring.GapsMonotone | api/assessment/save.js:30 | a higher target never gives fewer gaps |
| Scoring.GoalGapOrder | api/assessment/save.js:28-30 | `pmp` gives at least as many gaps as `job`, and `job` at least as many as `exploring` |
| Scoring.WorkedExample | api/assessment/save.js:25-31 | thirteen scores of 3 with goal `job` give overall 60, target 4, 13 gaps and no strength |
| Scoring.ConstantCounts | api/assessment/save.js:30-31 | n equal scores below the target sum to n times that score and are all gaps |
| Save.NamedScore | api/assessment/save.js:46-48 | a stored sub-score is 0 exactly when the key is missing or its value is 0, and otherwise it is the submitted value |
| Save.StoredScores | api/assessment/save.js:38-48 | each of the thirteen `score_*` columns holds the named sub-score of its key |
| Save.Summarize | api/assessment/save.js:25-31 | gaps and strengths add up to the number of submitted values; the overall score is the rounded 20 × mean of all of them; it lies in 0..100 when they lie in 0..5; the target is 3..5 |
| Save.Draft | api/assessment/save.js:43-49 | the columns the INSERT supplies; `Save.SaveSuccess` states each of them in the appended row |
| Save.UpdatesProfile | api/assessment/save.js:57 | title, organization or experience is truthy; `Save.SaveSuccess` states that the backfill runs exactly when it holds |
| Save.SaveStep | api/assessment/save.js:9-80 | the answer is one of 200, 201, 400, 401, 405 and 500; `Save.SaveRejections` and `Save.SaveSuccess` state which and what it stores |
| Save.SaveRejections | api/assessment/save.js:9-21 | the verb is answered first, then authentication, then a missing profile, objectives or scores (400 exactly then); no answer other than 201 changes the store |
| Save.SaveSuccess | api/assessment/save.js:33-75 | one row is appended with the token's user, the submitted profile and objectives (a blank organization as null, missing certifications as the empty list), `pdf_downloaded` false, the scoring of all values and the named sub-scores; leads stay unchanged; users change only by the backfill, which runs exactly when title, organization or experience is truthy; the 201 body echoes the row; the store stays valid |
| Save.SavedScoreInRange | api/assessment/save.js:26-49 | with sub-scores in 0..5 the stored overall score lies in 0..100 |
| Save.Handle | api/assessment/save.js:9-75 | writes exactly the response `SaveStep` gives, leaves the store as `SaveStep` gives and keeps it valid |
| History.OwnedBy | api/assessment/history.js:29 | keeps exactly the rows of the user, each as often as the table holds it |
| History.InsertByTime | api/assessment/history.js:30 | inserting into a newest-first sequence gives a newest-first sequence with one more element, the same multiset plus that row |
| History.SortNewestFirst | api/assessment/history.js:30 | the result is newest first and a permutation of its input |
| History.Limit | api/assessment/history.js:31 | the first twenty rows, or all rows when there are fewer; order is kept |
| History.SortedOwned | api/assessment/history.js:28-30 | every ordered row belongs to the user and is stored in the table |
| History.SelectHistoryShape | api/assessment/history.js:29-31 | at most twenty rows, exactly twenty when the user has more, all the user's own, newest first |
| History.SelectHistoryNewest | api/assessment/history.js:30-31 | the selection is a prefix of an ordering of all the user's rows, and no row left out is later than any row returned |
| History.SelectHistorySubset | api/assessment/history.js:18-32 | the ordering holds each of the user's rows as often as the table does, and the selection returns no row more often than it is stored |
| History.SelectHistory | api/assessment/history.js:18-32 | the `WHERE`, `ORDER BY` and `LIMIT` of the query; `History.SelectHistoryShape`, `History.SelectHistoryNewest` and `History.SelectHistorySubset` state what it returns |
| History.ScoreEntries | api/assessment/history.js:47-61 | the scores object has the thirteen keys in order, each with its column |
| History.ScoreEntriesLookup | api/assessment/history.js:47-61 | reading a score key from the reshaped object gives that column |
| History.ToViewsSpec | api/assessment/history.js:34-67 | one object per row, in order, with every selected column in its nested field and thirteen score keys, each reading back its column |
| History.ToView | api/assessment/history.js:34-67 | one row reshaped into nested objects; `History.ToViewsSpec` states every field |
| History.ToViews | api/assessment/history.js:34 | `result.rows.map(...)`; `History.ToViewsSpec` states one view per row in order |
| History.HistoryStep | api/assessment/history.js:9-15 | the store never changes; `OPTIONS` gives 200 with an empty body and any verb other than GET 405; for a GET an authentication rejection is the answer |
| History.HistoryAnswer | api/assessment/history.js:18-69 | an authenticated GET answers 200 with the reshaped selection of that user's rows |
| History.HistoryViewsOrdered | api/assessment/history.js:30-34 | the client receives at most twenty assessments with `completedAt` non-increasing |
| History.SelectedIsStored | api/assessment/history.js:28-31 | every selected row is a stored row |
| History.HistoryViewsOwned | api/assessment/history.js:29-34 | every returned assessment is the view of a stored row of the authenticated user |
| History.Handle | api/assessment/history.js:9-69 | writes exactly the response `HistoryStep` gives and modifies only the response |
| Register.MatchesEmailPattern | api/auth/register.js:26 | `/^[^\s@]+@[^\s@]+\.[^\s@]+$/` read off its structure; `Register.EmailFormatMatchesPattern` states its equivalence with the format rule |
| Register.EmailFormatOk | api/auth/register.js:26 | the format rule the handler checks; `Register.EmailFormatMatchesPattern` states that it holds exactly when the pattern matches |
| Register.Validate | api/auth/register.js:17-29 | the validation chain; `Register.ValidateSpec` states what it lets through and which 400 it answers |
| Register.NewUser | api/auth/register.js:39-43 | the row the INSERT adds; `Register.RegisterSuccess` and `Register.DefaultName` state each of its fields |
| Register.RegisterStep | api/auth/register.js:10-69 | the answer is one of 200, 201, 400, 405 and 409; `Register.RegisterConflict` and `Register.RegisterSuccess` state which and what it stores |
| Register.PatternImpliesFormat | api/auth/register.js:26 | every string the email regular expression matches satisfies the handler's format rule |
| Register.FormatImpliesPattern | api/auth/register.js:26 | every string that satisfies the rule is a match: a run of non-space non-`@` characters, `@`, a run, `.`, a run |
| Register.EmailFormatMatchesPattern | api/auth/register.js:26-29 | the format rule (no whitespace, one `@`, a non-empty local part, a `.` neither first nor last in the domain) holds exactly when the regular expression matches |
| Register.ValidateSpec | api/auth/register.js:17-29 | the chain lets a body through exactly when email and password are present, the password has at least 8 characters and the email matches; otherwise a 400 names the first failing check |
| Register.PasswordBoundary | api/auth/register.js:21 | a 7-character password is too short and an 8-character one passes the length check |
| Register.RegisterConflict | api/auth/register.js:10-35 | `OPTIONS` gives 200 with an empty body and any verb other than POST 405; a validated request is answered 409 exactly when its lowercased email is present; no answer other than 201 changes the store |
| Register.RegisterSuccess | api/auth/register.js:37-63 | exactly one user is added, under the lowercased email, with a fresh id, the password's hash, `email_verified` true, the default name, a blank organization or job title as null and no experience level; the reply is a projection without the hash and a token over exactly `{userId, email, name}` |
| Register.DefaultName | api/auth/register.js:41 | without a name the user's name is the part of the submitted email before `@` |
| Register.Handle | api/auth/register.js:10-63 | writes exactly the response `RegisterStep` gives, leaves the store as `RegisterStep` gives and keeps it valid |
| Login.LoginStep | api/auth/login.js:10-64 | the answer is one of 200, 400, 401 and 405; `Login.LoginFailures` and `Login.LoginSuccess` state which and what it changes |
| Login.LoginFailures | api/auth/login.js:10-37 | `OPTIONS` gives 200 with an empty body and any verb other than POST 405; 400 exactly when email or password is missing; then 401 exactly when no user has that email or the password does not match; every 401 is the same; only a 200 changes the store |
| Login.UnknownEmailLooksLikeWrongPassword | api/auth/login.js:28-37 | an unknown email and a wrong password give identical outcomes |
| Login.LoginCaseInsensitive | api/auth/login.js:22-26 | two emails with the same lowercase form give the same outcome |
| Login.LoginSuccess | api/auth/login.js:40-58 | a 200 answers the matched user's projection and a token over `{userId, email, name}`, and changes only that user's `updated_at` |
| Login.Handle | api/auth/login.js:10-58 | writes exactly the response `LoginStep` gives, leaves the store as `LoginStep` gives and keeps it valid |
| TrackLead.IdOrNull | api/assessment/track-lead.js:26 | the assessment id or else null: 0 and a missing id become null; `TrackLead.TrackLeadAppends` states the stored value |
| TrackLead.TrackLeadStep | api/assessment/track-lead.js:9-35 | the answer is one of 200, 201, 400, 401 and 405; `TrackLead.TrackLeadRejections` and `TrackLead.TrackLeadAppends` state which and what it stores |
| TrackLead.TrackLeadRejections | api/assessment/track-lead.js:9-21 | `OPTIONS` gives 200; other verbs give 405; authentication is answered before the body; 400 exactly when partner code or resource is falsy; no answer other than 201 changes the store |
| TrackLead.TrackLeadAppends | api/assessment/track-lead.js:24-29 | a 201 `{success: true}` appends exactly one row with the token's user id, the assessment id (null when falsy), the partner code and the resource; nothing else changes; the store stays valid |
| TrackLead.TrackLeadTwice | api/assessment/track-lead.js:24-27 | the same successful call made at two times appends two rows with different ids that differ in nothing else but their click times |
| TrackLead.Handle | api/assessment/track-lead.js:9-29 | writes exactly the response `TrackLeadStep` gives, leaves the store as `TrackLeadStep` gives and keeps it valid |
| Scenarios.RegisterThenLogin | api/auth/login.js:22-48 | after a registration, a login with the same password and the email in any letter case answers 200 with the same user projection; both tokens are signed over that user's `{userId, email, name}`, each at its own request's time |
| Scenarios.RegisterTwice | api/auth/register.js:32-35 | registering the same email twice, in any letter case, gives 409 the second time and changes nothing |
| Scenarios.SaveThenHistory | api/assessment/history.js:18-61 | a user with fewer than twenty results who saves finds the new assessment in the next history, each sub-score reading back as saved (0 when not sent) |
| Scenarios.LatestOnTop | api/assessment/history.js:29-31 | a row later than every stored row of its user is the first row of that user's selection |
| Scenarios.SaveThenHistoryFirst | api/assessment/history.js:18-61 | a user whose stored results are all older than the save finds the new assessment first in the next history, however many results they have, each sub-score reading back as saved |
| Scenarios.RegisterExample | api/auth/register.js:17-43 | `a@b.com` with `password123` passes every check and is registered |
| Scenarios.SaveExample | api/assessment/save.js:14-75 | saving thirteen scores of 3 with goal `job` under an issued token answers 201 with overall 60, 13 gaps and no strength |
| Scenarios.RegisterThenSave | api/assessment/save.js:14-75 | registering `a@b.com`, then saving thirteen scores of 3 with goal `job` under the token received, answers 201 with 60, 13 and 0 at any later time, since the model has no token expiry |

## Left out

- SQL and the `@vercel/postgres` client: each table is a Dafny value (a map of users keyed by the lowercased email, and sequences of results and leads). Each statement is the function it computes. Database-generated ids are taken from counters, timestamps come from the `now` parameter, and the column defaults are assumed (`is_admin` false, `experience_level` null, `pdf_downloaded` false).
- The 500 answers for a failing query or insert (the `catch` blocks) are not modelled, except for the empty `scores` object below. Every statement is assumed to succeed.
- Save.SaveStep: an empty but present `scores` object makes the mean NaN (`api/assessment/save.js:26`). The model assumes the integer `overall_score` column rejects NaN, so the insert fails: 500 "Failed to save assessment" and nothing is stored. The source does not fix the column type, so this is an assumption.
- Floating point: the overall score uses exact integer arithmetic (`Math.round` of the exact rational mean). Float representation error is not modelled, and sub-scores are assumed to be integers. Non-numeric values in `scores` (string concatenation in `reduce`) are not modelled.
- The goal lookup is a five-entry map with default 4. Keys inherited from the JavaScript object prototype are not modelled.
- Crypto: `jsonwebtoken` and `bcryptjs` are the oracle parameter `Crypto`. `sign` receives the issue time, so tokens issued at different times may differ, but the `exp` claim it derives, salting, the cost factor, signatures and the 7-day token expiry (`lib/auth.js:4`) are not modelled. An expired token is one for which `verify` fails.
- Request headers and bodies that are not strings or objects (arrays, numbers) are not modelled. An absent field and `null` are both `None`.
- A `scores` object is a sequence of key–value entries, which could hold one key twice; a parsed JSON object cannot (`JSON.parse` keeps the last value). The model does not exclude repeated keys: with one, `Object.values` would count the key once and the read would give the last value, while the model counts both entries and `Schema.Lookup` gives the first.
- Unicode: `toLowerCase` is ASCII lowercasing, the regex class `\s` is the ASCII whitespace set, and string length counts characters rather than UTF-16 code units.
- The email regular expression is modelled by the predicate `MatchesEmailPattern`, read off the expression's structure rather than by a regex engine. It is proved equivalent to the handler's format rule.
- History.SortNewestFirst: PostgreSQL does not fix the order of rows with equal `completed_at`. The model keeps table order among them, and its lemmas are stated only up to that choice.
- The race between the duplicate SELECT and the INSERT in registration: each request is atomic in the model.
- CORS headers, `process.env` configuration and `console.error` logging.
- `lib/email.js` (provider HTTP calls and templates), `api/admin/stats.js` (aggregate SQL over dates and averages) and `api/auth/me.js` are not part of this model. `requireAdmin` is modelled, although no modelled handler calls it.
- Rate limiting and lockout: the source has none, and the model adds none.
