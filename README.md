# Huffaz portal: request decision logic

This project models the request decision logic of the Huffaz / GiatMARA job
portal, a Next.js application: the API route handlers, the shared
credential helpers and the page middleware. The database is an in-memory
store: one sequence each of users, profiles, job postings and applications,
plus a counter that issues fresh identifiers.

Each handler walks its guard chain and ends in one result kind:

- `Ok` (200);
- `Created` (201);
- `Fail` with 401 (`NotAuthenticated`, `InvalidToken`), 403 (`Forbidden`),
  404 (`NotFound` of a record kind), 400 (`BadRequest` with a reason) or
  500 (`InternalError`, the handlers' catch blocks).

Only the success branches touch the store.

Layout:

- `common.dfy`, `collections.dfy`, `sorting.dfy`: `Option` and JavaScript
  truthiness; the store's `findFirst`, `findMany` and `count` over a table;
  the `orderBy: { createdAt: 'desc' }` ordering.
- `entities.dfy`: the rows, the role and status label sets, lookups, and
  the store invariant `WellFormed`. The invariant requires unique ids and
  emails, one profile per user, at most one application per (user, job)
  pair, and a fresh id counter.
- `store.dfy`: the mutable store, `Store.Database`, a class with one
  sequence field per table.
- `auth.dfy`, `requests.dfy`, `http.dfy`: the token helpers of
  `app/lib/auth.ts`, the guards several routes share, and result kinds.
- `middleware.dfy`: the redirect decision.
- One module per route:
  - `applications.dfy`, `application_status.dfy`, `register.dfy`;
  - `employer_jobs.dfy`, `employer_counts.dfy`;
  - `profile.dfy`, `me.dfy`, `session.dfy`, `admin_users.dfy`.

Every route that changes the store has two parts:

- a specification function from the old store to a `Step` (the reply plus
  the new store);
- a `method` on `Database` with `modifies db`. The method walks the same
  guards and is proved to reply and update exactly as the function says,
  keeping `Valid()`.

The lemmas then state each route's properties on the function.

**External services are parameters:**

- The JWT library's `verify` is `Verifier.jwtVerify`. It is uninterpreted: it
  returns a payload or throws.
- bcrypt's `hash` is a parameter `hash: string -> string`.
- The date parser of the job form is `parseDate: string -> Option<int>`.
- The clock is the integer `now`.
- The ambient `cookies()` store is a `CookieStore` value. It may be
  unavailable, in which case `cookies()` throws.

**A token payload may lack an `id`.** The employer routes check `!user.id`
and answer 403; the session route answers `null`. The admin users route
never reads the id. The applications, status, profile and me routes pass
the missing id to a store query, which throws. They are modelled as
reaching their catch block, `InternalError`. The status route's `P2025`
branch is only reached for an unknown record id.

## Model

| member | source | states |
|---|---|---|
| Auth.JwtSecret | huffaz-portal/app/lib/auth.ts:6 | the secret is never empty, and is the environment's value whenever that value is truthy |
| Auth.GenerateToken | huffaz-portal/app/lib/auth.ts:16-18 | a token is signed with the configured secret, carries the payload, and expires exactly 24 hours (86400 s) after issue |
| Auth.VerifyToken | huffaz-portal/app/lib/auth.ts:20-37 | the result is a payload exactly when the library accepts the token; every thrown error becomes `None`; an accepted payload is returned unchanged |
| Auth.GetTokenFromCookies | huffaz-portal/app/lib/auth.ts:43-68 | a non-empty request cookie wins; otherwise the store's non-empty cookie; `None` exactly when neither exists, including when the store is unavailable; a result is never empty |
| Auth.GetCurrentUser | huffaz-portal/app/lib/auth.ts:73-87 | `None` exactly when there is no token or verification fails; otherwise the verified payload, with no store lookup |
| Auth.RequestCookieWins | huffaz-portal/app/lib/auth.ts:46-51 | when the request carries a token, the cookie store's contents cannot change the token or the user |
| Requests.DecodeStoreToken | huffaz-portal/app/api/applications/route.ts:87-101 | 401 'Not authenticated' exactly when the store has no token; the guard passes exactly when the store token verifies, yielding its payload |
| Requests.EmployerCaller | huffaz-portal/app/api/employer/jobs/route.ts:10-13 | 401 exactly without a user; passes exactly with an id and the role claim EMPLOYER; every other case is 403 |
| Requests.AdminIsNotEmployer | huffaz-portal/app/api/employer/jobs/route.ts:56-59 | a token whose role claim is ADMIN is refused by the employer guard with 403 |
| Middleware.Decide | huffaz-portal/middleware.ts:6-40 | the redirect to /login happens iff there is no token and the path is neither public nor under `/api/`, and carries the pathname as `redirectedFrom`; the redirect to /dashboard happens iff there is a token and the path is exactly `/login` or `/register`; both redirects are 307 |
| Middleware.PublicPathsExactly | huffaz-portal/middleware.ts:8-15 | a path is public iff it is `/`, `/login` or `/register`, or starts with `/login/` or `/register/` |
| Middleware.PublicPathExamples | huffaz-portal/middleware.ts:13-15 | `/loginx`, `/registered` and `/dashboard` are not public; `/login/reset` is |
| Middleware.LoginRedirectExactly | huffaz-portal/middleware.ts:20-25 | the redirect to /login happens iff there is no token and the path is neither public nor under `/api/`; it carries the original pathname as `redirectedFrom` and status 307, the framework's default |
| Middleware.ApiPathsNotRedirectedToLogin | huffaz-portal/middleware.ts:11-20 | a path under `/api/` is never redirected to /login |
| Middleware.DashboardRedirectExactly | huffaz-portal/middleware.ts:30-36 | the 307 redirect to /dashboard happens iff there is a token and the path is exactly `/login` or `/register` |
| Middleware.SubPathsPassWithToken | huffaz-portal/middleware.ts:30-39 | with a token, `/login/x` and `/register/x` pass through |
| Middleware.OnlyTokenPresenceMatters | huffaz-portal/middleware.ts:17-30 | two tokens that are both present, or both absent, give the same decision |
| Middleware.PublicPathsNeverToLogin | huffaz-portal/middleware.ts:20 | a public path is never redirected to /login |
| Entities.ParseRole | huffaz-portal/app/api/auth/register/route.ts:11-12 | a label is accepted iff it is one of STUDENT, EMPLOYER, ADMIN, and it parses to the role it names |
| Entities.RoleLabelRoundTrip | huffaz-portal/app/api/auth/register/route.ts:11 | each role's label is accepted and parses back to that role |
| Entities.ParseStatus | huffaz-portal/app/api/applications/status/route.ts:53-54 | a label is accepted iff it is one of the four statuses, and it parses to the status it names |
| Entities.StatusLabelRoundTrip | huffaz-portal/app/api/applications/status/route.ts:53 | each status's label is accepted and parses back to that status |
| Entities.OpenJob | huffaz-portal/app/api/applications/route.ts:136-144 | a job is found iff one with that id is ACTIVE and its deadline is not before now |
| Entities.ExistingApplication | huffaz-portal/app/api/applications/route.ts:154-159 | an application is found iff one exists for that (user, job) pair |
| Entities.UserIdNamesOneUser | huffaz-portal/app/api/auth/me/route.ts:28-29 | in a consistent store a user id names at most one user |
| Entities.UserIdNamesOneProfile | huffaz-portal/app/api/profile/route.ts:74-75 | in a consistent store a user id names at most one profile |
| Sorting.SortByKeyDesc | huffaz-portal/app/api/applications/route.ts:68-70 | the result is ordered newest first and is a permutation of the input |
| Sorting.SortCommutesWithMap | huffaz-portal/app/api/admin/users/route.ts:19-33 | ordering and then projecting the rows equals projecting and then ordering, when the projection keeps `createdAt` |
| Collections.CountIsCardinality | huffaz-portal/app/api/employer/jobs/count/route.ts:15-20 | over a table with no repeated row, a filtered count is the size of the set of matching rows |
| ApplicationsRoute.Get | huffaz-portal/app/api/applications/route.ts:11-83 | on success the list is every application, ordered newest first, as a permutation of the table; failures are only 401, 403 or 500, and a missing or invalid token gets exactly the token guard's 401 |
| ApplicationsRoute.GetOnlyForStoredAdmins | huffaz-portal/app/api/applications/route.ts:30-40 | the list is returned iff the token verifies and its id names a stored user whose role is ADMIN; a missing user or another role gives 403 |
| ApplicationsRoute.AbsentDocuments | huffaz-portal/app/api/applications/route.ts:120-123 | the list names exactly the absent documents, the résumé before the certificate, and is empty iff both are present |
| ApplicationsRoute.MissingDocumentNames | huffaz-portal/app/api/applications/route.ts:121-123 | the `missingDocuments` strings are the labels of the absent documents, one per document, in the same order |
| ApplicationsRoute.MissingDocumentNamesExactly | huffaz-portal/app/api/applications/route.ts:121-123 | the answer lists `resume` iff the résumé is absent and `GiatMARA Skills Certificate` iff the certificate is absent; with both absent it is exactly those two, résumé first |
| ApplicationsRoute.NewApplication | huffaz-portal/app/api/applications/route.ts:169-175 | the inserted row belongs to the caller and the requested job, is PENDING without notes, and is stamped with the current time under the given id |
| ApplicationsRoute.Submit | huffaz-portal/app/api/applications/route.ts:85-188 | every non-success answer leaves the store unchanged; success appends one row whose id is the counter's fresh id, which is also returned, and advances the counter |
| ApplicationsRoute.Post | huffaz-portal/app/api/applications/route.ts:85-188 | the handler replies and updates the store exactly as `Submit` does, and keeps the store consistent |
| ApplicationsRoute.SubmitNeedsValidToken | huffaz-portal/app/api/applications/route.ts:87-101 | no token or a failing token gives 401 and leaves the store unchanged |
| ApplicationsRoute.SubmitNeedsProfile | huffaz-portal/app/api/applications/route.ts:107-117 | a verified caller without a profile gets 404 and nothing is created |
| ApplicationsRoute.SubmitNeedsDocuments | huffaz-portal/app/api/applications/route.ts:120-133 | a profile missing a document gives 400 MISSING_DOCUMENTS with exactly the absent documents, whatever the job |
| ApplicationsRoute.SubmitNeedsOpenJob | huffaz-portal/app/api/applications/route.ts:136-151 | with both documents, a job that is absent, INACTIVE or past its deadline gives 404 |
| ApplicationsRoute.SubmitRejectsDuplicate | huffaz-portal/app/api/applications/route.ts:154-166 | an existing application for the pair gives 400 and the store is unchanged |
| ApplicationsRoute.SubmitSucceedsWhenAllChecksPass | huffaz-portal/app/api/applications/route.ts:85-180 | a verified caller with both documents, an open job and no earlier application for the pair succeeds and gets the fresh id |
| ApplicationsRoute.SubmitInsertsOnePending | huffaz-portal/app/api/applications/route.ts:169-180 | success appends exactly one PENDING row with the caller's id and the requested job, and returns its fresh id |
| ApplicationsRoute.SubmitPreservesWellFormed | huffaz-portal/app/api/applications/route.ts:154-175 | submission keeps the store consistent, including at most one application per (user, job) pair |
| ApplicationsRoute.SecondSubmissionFails | huffaz-portal/app/api/applications/route.ts:154-166 | after a success, the same caller's next submission for that job, at any time, is refused: 400 already applied, or 404 once the job has closed |
| ApplicationStatusRoute.Restamp | huffaz-portal/app/api/applications/status/route.ts:62-67 | only status, notes (when the given notes are truthy) and the update time change; id, user, job and creation time are kept |
| ApplicationStatusRoute.ReplaceApplication | huffaz-portal/app/api/applications/status/route.ts:62-63 | the row with the given id is replaced and every other row is kept, in place |
| ApplicationStatusRoute.UpdateStatus | huffaz-portal/app/api/applications/status/route.ts:11-110 | every non-success answer leaves the store unchanged; a missing or invalid token gets exactly the token guard's 401; success changes only the applications table |
| ApplicationStatusRoute.Post | huffaz-portal/app/api/applications/status/route.ts:11-110 | the handler replies and updates the store exactly as `UpdateStatus` does, and keeps the store consistent |
| ApplicationStatusRoute.OnlyStoredAdminsUpdate | huffaz-portal/app/api/applications/status/route.ts:13-40 | an update succeeds only for a verified caller whose stored role is ADMIN; the others get 401, 403 or 500 |
| ApplicationStatusRoute.MissingFieldsRefused | huffaz-portal/app/api/applications/status/route.ts:45-50 | an administrator's request without an id or a truthy status gives 400 and nothing changes |
| ApplicationStatusRoute.UnknownLabelRefused | huffaz-portal/app/api/applications/status/route.ts:53-59 | a status label outside the four gives 400 and nothing changes |
| ApplicationStatusRoute.UnknownApplicationNotFound | huffaz-portal/app/api/applications/status/route.ts:97-103 | an unknown application id gives 404 and nothing changes |
| ApplicationStatusRoute.AnyTransitionAccepted | huffaz-portal/app/api/applications/status/route.ts:53-67 | any of the four labels is accepted whatever the current status, including the same one |
| ApplicationStatusRoute.UpdateIsIdempotent | huffaz-portal/app/api/applications/status/route.ts:62-67 | repeating an update at the same time is accepted again and leaves the store as the first did |
| ApplicationStatusRoute.UpdatePreservesWellFormed | huffaz-portal/app/api/applications/status/route.ts:62-67 | the update keeps the store consistent |
| RegisterRoute.RoleRequested | huffaz-portal/app/api/auth/register/route.ts:8 | an omitted role is STUDENT and a given one is used as it is |
| RegisterRoute.NewProfile | huffaz-portal/app/api/auth/register/route.ts:44-50 | the new profile belongs to the new user and takes the form's names; phone, MBTI type and both documents are absent and the MBTI test is not completed |
| RegisterRoute.Register | huffaz-portal/app/api/auth/register/route.ts:5-66 | success happens iff the role (STUDENT when omitted) is one of the three and no stored user has the email; the two refusals are 400 InvalidRole and 400 UserAlreadyExists and leave the store unchanged; success appends the user, with the hashed password and the parsed role, and its profile, both under the fresh id that is returned |
| RegisterRoute.Post | huffaz-portal/app/api/auth/register/route.ts:5-66 | the handler replies and updates the store exactly as `Register` does, in one atomic step, and keeps the store consistent |
| RegisterRoute.OmittedRoleIsStudent | huffaz-portal/app/api/auth/register/route.ts:8 | a registration without a role and with an unused email succeeds and creates a STUDENT |
| RegisterRoute.InvalidRoleRefusedFirst | huffaz-portal/app/api/auth/register/route.ts:11-29 | an invalid role gives 400 InvalidRole whether or not the email is taken, and creates nothing |
| RegisterRoute.TakenEmailRefused | huffaz-portal/app/api/auth/register/route.ts:20-29 | a valid role with an email already stored gives 400 and the store is unchanged |
| RegisterRoute.RegisterAddsUserAndProfile | huffaz-portal/app/api/auth/register/route.ts:35-58 | success appends one user and one profile with `profile.userId` equal to the new id, which is returned |
| RegisterRoute.StoredPasswordIsNotPlaintext | huffaz-portal/app/api/auth/register/route.ts:32-39 | the stored password is the hash of the input, and never the plaintext when the hasher never returns its input |
| RegisterRoute.RegisterPreservesWellFormed | huffaz-portal/app/api/auth/register/route.ts:35-53 | registration keeps ids and emails unique and one profile per user |
| EmployerJobsRoute.OwnedJobsNewestFirst | huffaz-portal/app/api/employer/jobs/route.ts:17-23 | the caller's postings are ordered by creation time, newest first, as a permutation of the filtered table |
| EmployerJobsRoute.Summarize | huffaz-portal/app/api/employer/jobs/route.ts:34-42 | an entry copies the posting's id, title, company, location, deadline and status, and counts the applications that reference it |
| EmployerJobsRoute.Get | huffaz-portal/app/api/employer/jobs/route.ts:6-49 | an answer is given exactly when the employer guard passes, otherwise the guard's own 401 or 403; it summarises each owned posting in order |
| EmployerJobsRoute.GetListsExactlyOwnedJobs | huffaz-portal/app/api/employer/jobs/route.ts:17-20 | the listed postings are exactly those whose adminId is the caller's id |
| EmployerJobsRoute.SummaryCountsApplications | huffaz-portal/app/api/employer/jobs/route.ts:24-41 | each entry's `applications` is the number of stored applications referencing that posting |
| EmployerJobsRoute.CreateJob | huffaz-portal/app/api/employer/jobs/route.ts:52-113 | a posting is created iff the employer guard passes, every required field is present and the deadline parses; a guard refusal is the guard's 401 or 403, other refusals are the two 400s, and none changes the store; success is 201 with one new ACTIVE posting owned by the caller under the fresh id, built from the form |
| EmployerJobsRoute.NewJob | huffaz-portal/app/api/employer/jobs/route.ts:92-108 | the new posting takes the form's fields as given, the parsed deadline, status ACTIVE, the caller as owner and the fresh id |
| EmployerJobsRoute.Post | huffaz-portal/app/api/employer/jobs/route.ts:92-113 | the handler replies and inserts exactly as `CreateJob` does, and keeps the store consistent |
| EmployerJobsRoute.MissingFieldRefused | huffaz-portal/app/api/employer/jobs/route.ts:77-79 | a missing or empty title, company, location, description, requirements or deadline gives 400 and creates nothing |
| EmployerJobsRoute.UnparseableDeadlineRefused | huffaz-portal/app/api/employer/jobs/route.ts:82-90 | a deadline the date parser rejects gives 400 and creates nothing |
| EmployerJobsRoute.CreateJobPreservesWellFormed | huffaz-portal/app/api/employer/jobs/route.ts:92-108 | job creation keeps posting ids unique and the counter fresh |
| EmployerJobCountRoute.Get | huffaz-portal/app/api/employer/jobs/count/route.ts:5-20 | an answer is given exactly when the employer guard passes, otherwise the guard's own 401 or 403; a positive count means an ACTIVE posting of the caller exists |
| EmployerJobCountRoute.CountIsActiveOwnedJobs | huffaz-portal/app/api/employer/jobs/count/route.ts:15-20 | the count is the number of ACTIVE postings whose adminId is the caller's, so INACTIVE and others' postings are excluded |
| EmployerApplicationCountRoute.OwnedJobIds | huffaz-portal/app/api/employer/applications/count/route.ts:15-24 | the id list holds exactly the ids of postings whose adminId is the caller's |
| EmployerApplicationCountRoute.Get | huffaz-portal/app/api/employer/applications/count/route.ts:5-34 | an answer is given exactly when the employer guard passes, otherwise the guard's own 401 or 403; it never exceeds the number of applications |
| EmployerApplicationCountRoute.CountIsPendingOnOwnedJobs | huffaz-portal/app/api/employer/applications/count/route.ts:15-34 | the count is the number of PENDING applications on postings of the caller's, whatever the posting's status |
| EmployerApplicationCountRoute.NoJobsNoCount | huffaz-portal/app/api/employer/applications/count/route.ts:24-31 | an employer who owns no posting gets 0 |
| ProfileRoute.Get | huffaz-portal/app/api/profile/route.ts:5-57 | 401 exactly without a session; 404 'User not found' exactly when the token's id names no stored user; 404 'Profile not found' exactly when it names a user without a profile; success returns the caller's stored profile and only the id, email and role of their stored user |
| ProfileRoute.GetUnknownUserNotFound | huffaz-portal/app/api/profile/route.ts:24-29 | a signed-in caller whose id names no stored user gets 404 |
| ProfileRoute.GetMissingProfileNotFound | huffaz-portal/app/api/profile/route.ts:31-37 | a stored user without a profile gets 404 |
| ProfileRoute.GetReturnsOwnRows | huffaz-portal/app/api/profile/route.ts:17-49 | in a consistent store a signed-in user with a profile gets exactly that profile and their own id, email and role |
| ProfileRoute.ApplyPatch | huffaz-portal/app/api/profile/route.ts:74-83 | each of the five editable fields is overwritten when given (an explicit null included) and kept when omitted; the user id and both document URLs never change |
| ProfileRoute.EmptyPatchIsIdentity | huffaz-portal/app/api/profile/route.ts:77-81 | a body that gives no field changes nothing |
| ProfileRoute.PatchIsIdempotent | huffaz-portal/app/api/profile/route.ts:74-83 | applying the same body twice equals applying it once |
| ProfileRoute.LaterPatchWins | huffaz-portal/app/api/profile/route.ts:74-83 | two bodies in a row act like one body in which the later given value wins, field by field |
| ProfileRoute.ReplaceProfile | huffaz-portal/app/api/profile/route.ts:74-75 | the caller's profile row is replaced and every other row is kept, in place |
| ProfileRoute.UpdateProfile | huffaz-portal/app/api/profile/route.ts:59-100 | 401 exactly without a session; a refusal leaves the store unchanged; success replaces only the caller's profile |
| ProfileRoute.Put | huffaz-portal/app/api/profile/route.ts:59-100 | the handler replies and updates exactly as `UpdateProfile` does, and keeps the store consistent |
| ProfileRoute.UpdateTouchesOnlyCallersProfile | huffaz-portal/app/api/profile/route.ts:74-83 | a successful update returns the caller's profile with the body applied and keeps every other user's profile |
| ProfileRoute.UpdateWithoutProfileNotFound | huffaz-portal/app/api/profile/route.ts:92-94 | a caller without a profile gets 404 and nothing changes |
| ProfileRoute.UpdatePreservesWellFormed | huffaz-portal/app/api/profile/route.ts:74-83 | the update keeps one profile per user |
| MeRoute.StripPassword | huffaz-portal/app/api/auth/me/route.ts:44 | the answer keeps every column of the user and its profile, and has no password field |
| MeRoute.StripRestoreRoundTrip | huffaz-portal/app/api/auth/me/route.ts:44-49 | restoring the removed hash gives back the stored user exactly, so only the password is dropped |
| MeRoute.StripIgnoresPassword | huffaz-portal/app/api/auth/me/route.ts:44 | two rows that differ only in their password hash give the same answer |
| MeRoute.Get | huffaz-portal/app/api/auth/me/route.ts:5-57 | the cookie is deleted exactly for the 401 'Invalid token'; 401 'Not authenticated' exactly when there is no token; 404 exactly when the verified id names no stored user; success returns a stored user with the token's id and their profile, minus the password |
| MeRoute.UnknownUserNotFound | huffaz-portal/app/api/auth/me/route.ts:35-41 | a verified token whose id names no stored user gets 404 and the cookie is kept |
| MeRoute.UnauthorizedIffNoSession | huffaz-portal/app/api/auth/me/route.ts:8-24 | a 401 is answered exactly when the session helper finds no signed-in user |
| MeRoute.GetReturnsStoredUser | huffaz-portal/app/api/auth/me/route.ts:28-49 | in a consistent store the answer is the token's stored user, minus the password and otherwise complete |
| SessionRoute.DisplayName | huffaz-portal/app/api/auth/session/route.ts:44 | the name is the first name, one space, then the last name |
| SessionRoute.Get | huffaz-portal/app/api/auth/session/route.ts:5-51 | a user is returned only for a verified store token; it carries the stored id, email and role, and a name exactly when a profile exists |
| SessionRoute.SessionIffKnownUser | huffaz-portal/app/api/auth/session/route.ts:7-37 | the answer is a user iff the store token verifies, carries an id, and names a stored user; all else is `null` |
| SessionRoute.RequestCookieIgnored | huffaz-portal/app/api/auth/session/route.ts:7 | the request's own cookie plays no part |
| SessionRoute.SessionNamesStoredUser | huffaz-portal/app/api/auth/session/route.ts:20-46 | in a consistent store the session is the token's stored user, named after their profile |
| AdminUsersRoute.Summary | huffaz-portal/app/api/admin/users/route.ts:21-28 | a profile is projected to first name, last name, MBTI type and completion flag |
| AdminUsersRoute.GetAsWritten | huffaz-portal/app/api/admin/users/route.ts:5-36 | an answer is given exactly for an ADMIN role claim, otherwise 403, also without a session; it holds one row per stored user, each the whole user row with its profile summary, newest first |
| AdminUsersRoute.ListingExposesPasswords | huffaz-portal/app/api/admin/users/route.ts:19-36 | as written, every stored user row, password hash included, appears in the answer |
| AdminUsersRoute.AsWrittenAnswerDependsOnPassword | huffaz-portal/app/api/admin/users/route.ts:19-36 | two stores that differ only in one password hash get different answers as written |
| AdminUsersRoute.Get | huffaz-portal/app/api/admin/users/route.ts:5-36 | an answer is given exactly for an ADMIN role claim, otherwise 403; the rows are ordered newest first |
| AdminUsersRoute.GetIsAsWrittenWithoutPasswords | huffaz-portal/app/api/admin/users/route.ts:19-33 | the corrected listing is the written one, row for row, with only the hash dropped |
| AdminUsersRoute.GetIgnoresPasswords | huffaz-portal/app/api/admin/users/route.ts:19-36 | the corrected answer does not depend on any stored password hash |
| AdminUsersRoute.ClaimDecidesAccess | huffaz-portal/app/api/admin/users/route.ts:8-16 | a verified token whose role claim is not ADMIN gets 403, whatever role is stored |

## Left out

- JWT signing and verification, and bcrypt hashing and comparison (`app/lib/auth.ts` lines 1-2, 8-14, 29): these are library calls. They are uninterpreted parameters here, and `verifyPassword` has no caller among the modelled routes.
- Auth.GenerateToken: the signed string itself is not modelled; the model keeps the payload, the secret and the issue and expiry times.
- Middleware.Decide: the `config.matcher` pattern (`middleware.ts` lines 42-57) is not modelled. The decision is stated for every path, including the static and upload paths on which the middleware never runs.
- The `cookies()` and `NextRequest` plumbing, the JSON shapes of the answers, the error message texts and `console` logging: only result kinds, reasons, ids and the returned fields are kept.
- Date parsing and the wall clock: the job form's deadline parser is a parameter, and `now` is an integer.
- Joined fields of the list answers: the user email, names and document URLs on the applications list and the status answer, and the posting fields on both. The model returns the application rows.
- Malformed JSON bodies, which make `request.json()` throw (500), are not modelled. Neither are body fields of the wrong JSON type, such as a null first name; field types are taken as the model's.
- Store-level unique and foreign-key constraints, concurrent requests and transactions: requests are sequential. Registration's transaction is one atomic method.
- Errors the store could raise on a consistent store, other than an undefined key, are not modelled.
- The session route's catch block (`app/api/auth/session/route.ts` lines 47-50) is not modelled. No modelled step of that route throws.
- Default column values are taken to be: a new profile has no phone, MBTI type or documents and `mbtiCompleted` false, and `updatedAt` is refreshed on every update. The database schema is not part of this model.
- Field values are taken as given: the profile update writes whatever the body gives, and ids are naturals rather than generated strings.
- ApplicationsRoute.Get: returns rows sorted by creation time; the tie order between equal timestamps, which the database leaves open, is fixed by the insertion sort.
- EmployerJobsRoute.Get: as with the applications list, equal creation times are ordered by the sort rather than by the database.
- `app/lib/session.tsx`, `app/lib/session.ts` and `app/layout.tsx` (client state, fetching and UI), the employer debug routes, and `prisma/add-employer.js` (a seed script) are not part of this model.
- The employer detail routes, admin user detail routes and page components are not part of this model.

## Findings

| source | as written | input that shows it | evidently intended | confidence | as-written member | corrected member |
|---|---|---|---|---|---|---|
| huffaz-portal/app/api/admin/users/route.ts:19-36 | `findMany` with `include: { profile }` returns every scalar column of each user, including the stored bcrypt `password` hash, and the rows are sent unchanged | any request whose cookie token carries the role claim ADMIN: each listed user has a `password` field holding the stored hash | the listing drops the password, as `/api/auth/me` (line 44) and `/api/auth/session` (lines 22-33) do | not executed; relies on the store's documented `include` semantics | AdminUsersRoute.GetAsWritten, AdminUsersRoute.ListingExposesPasswords, AdminUsersRoute.AsWrittenAnswerDependsOnPassword | AdminUsersRoute.Get, AdminUsersRoute.GetIgnoresPasswords, AdminUsersRoute.GetIsAsWrittenWithoutPasswords |
