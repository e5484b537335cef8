# Job portal data layer, modelled in Dafny

A job-board single-page application keeps all of its data in the browser's
local storage. Under its user interface sits a small data layer: a session
manager (login, student and recruiter registration, logout, role checks),
a job catalog (a one-time seed, reads, recruiter postings), an application
service (one application per job and user, resume size checks), a map of
job ids marked as applied, and the route gate that decides whether a page
renders or redirects.

This project models that layer. The store is a class, `Storage.LocalStore`,
with one typed field per storage key; `None` stands for an absent key. Each
service is a module whose methods read the fields they need and assign the
ones the source writes, and nothing else (their `modifies` clauses name
single fields). Each such method is tied by its postcondition to a pure
function of the old contents (`AuthService.LoginOutcome`,
`AuthService.RegisterStudentOutcome`, `JobService.InitializedJobs`,
`ApplicationService.SubmitOutcome`, `LocalStorageUtil.MarkApplied`), and the
properties the source promises are proved as lemmas about those functions.

Files: `wrappers.dfy` (Option, Result), `search.dfy` (the array searches
`find`, `some`, `includes`), `decimal.dfy` (decimal rendering of numeric ids,
with its inverse), `records.dfy` (the stored records), `storage.dfy` (the
store), `auth_service.dfy`, `job_service.dfy`, `application_service.dfy`,
`local_storage.dfy`, `app_routes.dfy`.

Inputs the source takes from the environment are parameters: `now`
(`Date.now()`, used as record id), the ISO timestamp text (`toISOString()`),
the object URL of an uploaded file, and the seed fixture as an
`Option<seq<Job>>` (`None` when fetching or parsing `/company.json` fails).

Two behaviours of the source worth knowing, both modelled as written: a
recruiter who logs in gets a session without company fields (only
registration copies companyName, phoneNumber and the logo), and the
remote-work option `hybrid` is recorded as `Onsite`.

## Model

| member | source | states |
|---|---|---|
| `Search.Find` | src/services/authService.js:11-12 | the index of the first element satisfying the predicate, or none exactly when no element does |
| `Search.Any` | src/services/authService.js:34 | true exactly when some element satisfies the predicate |
| `Search.Includes` | src/App.jsx:25 | true exactly when the value occurs in the sequence |
| `Decimal.Digits` | src/services/applicationService.js:24 | the decimal text of an id is non-empty, all digits, and one character long exactly below 10 |
| `Decimal.ValueOfDigits` | src/services/applicationService.js:24 | reading the decimal text back gives the number |
| `Decimal.DigitsInjective` | src/utilities/LocalStorage.jsx:4-6 | distinct numbers render as distinct texts |
| `Records.OrDefault` | src/services/authService.js:81 | the value when defined and non-empty, the fallback otherwise |
| `Storage.LocalStore.Students` | src/services/authService.js:8 | the `students` collection, or `[]` when the key is absent |
| `Storage.LocalStore.Recruiters` | src/services/authService.js:9 | the `recruiters` collection, or `[]` when the key is absent |
| `Storage.LocalStore.Jobs` | src/services/jobService.js:23-26 | the `company_jobs` collection, or `[]` when the key is absent |
| `Storage.LocalStore.Applications` | src/services/applicationService.js:10 | the `applications` collection, or `[]` when the key is absent |
| `AuthService.LoginOutcome` | src/services/authService.js:11-27 | what login returns or throws: a failure is always "Invalid email or password", and a session carries the given email and no company fields; see LoginSucceedsIff, LoginStudentWins, LoginRecruiterMatch, LoginSessionIsProjection |
| `AuthService.LoginSucceedsIff` | src/services/authService.js:11-27 | login succeeds iff a student or a recruiter has both the email and the password; otherwise the error is "Invalid email or password" |
| `AuthService.LoginStudentWins` | src/services/authService.js:14-21 | when a student matches, the session is the first matching student's, role student, whatever recruiters match |
| `AuthService.LoginRecruiterMatch` | src/services/authService.js:12-23 | without a student match, the first matching recruiter's id, name and email with role recruiter and no company fields |
| `AuthService.LoginSessionIsProjection` | src/services/authService.js:17-23 | a login session's id, name (from fullName) and email come from a record holding both credentials, with the matching role |
| `AuthService.Login` | src/services/authService.js:6-28 | returns the login outcome of the stored collections; writes it under `auth_user` on success and writes nothing on failure |
| `AuthService.RecruiterRegistrationSession` | src/services/authService.js:75-83 | a registration session carries the record's id, fullName as name, email, role recruiter, and its companyName, phoneNumber and logo, the logo defaulting to the placeholder URL |
| `AuthService.RegisterStudentOutcome` | src/services/authService.js:30-55 | what student registration returns or throws: a failure is always "Email already registered"; success appends exactly one record after the old ones and yields a student session with the form's email and id `now`; see RegisterStudentSpec |
| `AuthService.RegisterRecruiterOutcome` | src/services/authService.js:58-85 | the same for recruiters, with a recruiter session; see RegisterRecruiterSpec |
| `AuthService.RegisterStudentSpec` | src/services/authService.js:30-55 | fails with "Email already registered" iff a student has the email; otherwise appends one record carrying the form with id `now`, keeps earlier records, and the session is id, name, email, role student |
| `AuthService.RegisterRecruiterSpec` | src/services/authService.js:58-85 | the same for recruiters; the session adds companyName, phoneNumber and the defaulted logo |
| `AuthService.RegisterStudentKeepsEmailsUnique` | src/services/authService.js:34-45 | unique emails among students stay unique after a registration |
| `AuthService.RegisterRecruiterKeepsEmailsUnique` | src/services/authService.js:61-72 | unique emails among recruiters stay unique after a registration |
| `AuthService.SecondStudentRegistrationFails` | src/services/authService.js:34-36 | a second student registration with the same email fails |
| `AuthService.EmailCheckIsPerCollection` | src/services/authService.js:30-72 | an email held by a recruiter does not block a student registration, and the reverse |
| `AuthService.RecruiterThenStudent` | src/services/authService.js:30-86 | on one store, an email registered as a recruiter still registers as a student where no student holds it; the recruiter record stays and the student session is current |
| `AuthService.RegisterThenLogin` | src/services/authService.js:11-21 | after a student registers, logging in with the same credentials yields that session, role student, id `now` |
| `AuthService.RegisterStudent` | src/services/authService.js:30-56 | the store's `students` and `auth_user` become the registration outcome, or stay as they were on failure |
| `AuthService.RegisterRecruiter` | src/services/authService.js:58-86 | the store's `recruiters` and `auth_user` become the registration outcome, or stay as they were on failure |
| `AuthService.RolesExclusive` | src/services/authService.js:96-104 | no session is both student and recruiter; only an absent session has neither role |
| `AuthService.Logout` | src/services/authService.js:88-90 | `auth_user` is absent afterwards |
| `AuthService.GetCurrentUser` | src/services/authService.js:92-94 | returns the stored session or none |
| `AuthService.IsRecruiter` | src/services/authService.js:96-99 | true iff a session is stored and its role is recruiter |
| `AuthService.IsStudent` | src/services/authService.js:101-104 | true iff a session is stored and its role is student |
| `AuthService.LogoutThenQuery` | src/services/authService.js:88-104 | after logout there is no current user and neither role predicate holds |
| `JobService.InitializedJobs` | src/services/jobService.js:9-21 | the value `company_jobs` holds after initialisation: always present, and the stored value when there was one; see InitializeSpec, InitializeIdempotent |
| `JobService.InitializeSpec` | src/services/jobService.js:9-21 | a present `company_jobs` is kept; an absent one gets the seed verbatim, or `[]` when the seed failed |
| `JobService.InitializeIdempotent` | src/services/jobService.js:10-11 | initialising again, with any seed outcome, changes nothing |
| `JobService.InitializeStorage` | src/services/jobService.js:9-21 | `company_jobs` becomes the initialised value of its old value |
| `JobService.GetAllJobs` | src/services/jobService.js:23-26 | the stored jobs, or `[]` when the key is absent |
| `JobService.NewJob` | src/services/jobService.js:30-47 | the record a posting is stored as: id `now`, the form's title and location, one of the two work-mode and two schedule labels, the recruiter's phone and email as contact; see NewJobMapping, HybridIsOnsite |
| `JobService.NewJobMapping` | src/services/jobService.js:30-47 | Remote iff remoteWork is yes, Fulltime iff employmentType is full-time, salary `min - max`, experiences `level level position`, defaulted logo, the recruiter's phone and email as contact |
| `JobService.HybridIsOnsite` | src/services/jobService.js:35 | the hybrid option is recorded as Onsite |
| `JobService.AddJob` | src/services/jobService.js:28-51 | the collection grows by exactly one, the returned job is last, earlier jobs are unchanged |
| `JobService.SeedThenRead` | src/services/jobService.js:9-26 | reading after seeding an empty store gives the fixture in order |
| `JobService.AddThenRead` | src/services/jobService.js:23-51 | reading after a posting gives the old jobs unchanged followed by the mapped posting, so one more job with the posting last |
| `ApplicationService.Rethrown` | src/services/applicationService.js:32-33 | a non-empty message is rethrown unchanged; an empty one becomes the fallback message |
| `ApplicationService.ApplicationIdInjective` | src/services/applicationService.js:24 | submissions at different times get different `app_` ids |
| `ApplicationService.NewApplication` | src/services/applicationService.js:22-27 | the stored application: pending, the form's job id, user id and fields, the given date, and an id starting with `app_` |
| `ApplicationService.SubmitOutcome` | src/services/applicationService.js:13-29 | what submission returns or throws: a failure is always the duplicate message; success appends exactly one pending application after the old ones; see SubmitSpec, SubmitKeepsAtMostOnePerPair, SecondSubmitRejected |
| `ApplicationService.SubmitSpec` | src/services/applicationService.js:13-29 | rejected with the duplicate message iff the pair has applied; otherwise one pending record with the form's data and an `app_` id is appended after the earlier ones |
| `ApplicationService.SubmitKeepsAtMostOnePerPair` | src/services/applicationService.js:13-27 | at most one record per (jobId, userId) before a submission means the same after it |
| `ApplicationService.SecondSubmitRejected` | src/services/applicationService.js:13-19 | submitting twice for the same pair rejects the second |
| `ApplicationService.SubmitApplication` | src/services/applicationService.js:4-35 | `applications` becomes the submission outcome, or is unchanged on rejection; success returns `{success: true}` with the fixed message |
| `ApplicationService.UploadResume` | src/services/applicationService.js:37-56 | no file fails with "No file provided"; a size over 10 MiB fails; otherwise success with the given URL and the file's name |
| `ApplicationService.UploadBoundary` | src/services/applicationService.js:45-48 | exactly 10 MiB is accepted, one byte more is not, 15 MiB fails, 1 MiB keeps the name |
| `LocalStorageUtil.MarkApplied` | src/utilities/LocalStorage.jsx:4-7 | the applied-jobs map after marking: the id's key maps to true and the keys are the old ones plus that key; see MarkAppliedSpec, MarkAppliedKeepsOtherIds, MarkAppliedIdempotent |
| `LocalStorageUtil.MarkAppliedSpec` | src/utilities/LocalStorage.jsx:4-7 | afterwards the id maps to true, the keys are the old ones plus the id's, other values are unchanged |
| `LocalStorageUtil.MarkAppliedKeepsOtherIds` | src/utilities/LocalStorage.jsx:4-7 | marking one job id leaves every other job id's entry as it was |
| `LocalStorageUtil.MarkAppliedIdempotent` | src/utilities/LocalStorage.jsx:4-8 | marking twice equals marking once |
| `LocalStorageUtil.GetStoredJobApplication` | src/utilities/LocalStorage.jsx:11-19 | the stored map, or the empty map when `job-applications` is absent |
| `LocalStorageUtil.GetShoppingCart` | src/utilities/LocalStorage.jsx:21-30 | the stored cart, or the empty map when `shopping-cart` is absent |
| `LocalStorageUtil.AddToDb` | src/utilities/LocalStorage.jsx:1-9 | `job-applications` becomes the marked map of its old value (empty if absent); no other key is written |
| `LocalStorageUtil.AddTwice` | src/utilities/LocalStorage.jsx:1-9 | two calls with one id leave the store as one call does |
| `App.ProtectedRoute` | src/App.jsx:20-29 | no session redirects to `/login`; given roles without the user's redirect to `/`; otherwise, or with no roles given, the page renders |
| `App.RouteGuard` | src/App.jsx:38-73 | the route table: exactly `/appliedjobs`, `/job-application/:jobId`, `/post-job` and `/profile` are protected, each with a non-empty role list |
| `App.Access` | src/App.jsx:38-73 | the decision for a path and a session: open routes render, protected routes redirect a visitor without a session to `/login`, and only a protected route redirects to `/`; see StudentRoutes, RecruiterRoute, ProfileRoute, LoggedOutVisitor |
| `App.StudentRoutes` | src/App.jsx:42-57 | `/appliedjobs` and `/job-application/:jobId` render exactly for a student session |
| `App.RecruiterRoute` | src/App.jsx:58-65 | `/post-job` renders exactly for a recruiter session |
| `App.ProfileRoute` | src/App.jsx:68-72 | `/profile` renders exactly for a logged-in user of either role |
| `App.LoggedOutVisitor` | src/App.jsx:38-73 | without a session every protected route redirects to `/login` and every open route renders |

## Left out

- JSON serialisation: the store holds typed values, so malformed stored text and the parse errors it would raise are not modelled.
- Browser I/O: `Date.now()`, `toISOString()`, `URL.createObjectURL` and the fetch of `/company.json` are parameters; the simulated `delay()` calls are dropped.
- Storage failures: `getItem` and `setItem` never throw in the model. A quota or security error, the partial write it can leave between a registration's two `setItem` calls, and the storage errors that `submitApplication`'s catch rethrows are not modelled, so `ApplicationService.Rethrown`'s fallback message is never reached by `SubmitOutcome`.
- Concurrency: every operation is modelled as atomic; the race of two tabs past the duplicate checks is not modelled.
- `JobService`'s constructor starting an unawaited initialisation: ordering between that and later calls is not modelled.
- The type check of the uploaded file (PDF or Word) happens in the application form component, not in the service, and is not modelled.
- Optional fields: `companyLogo` (read with a placeholder default) and the posting recruiter's `phoneNumber` (absent when that recruiter's session came from login, which copies no company fields) are optional; every other field is a present string.
- Ids are unbounded naturals: the width of JavaScript numbers (exact only below 2^53, printed in exponent notation from 1e21) is not modelled.
- The stored records' remaining form fields are an opaque `map<string, string>`; the shopping cart's values, which the data layer never writes, are modelled as numbers.
- The user interface components, form validation schemas, `src/services/api.js` and `src/services/profileService.js` are not part of this model.
