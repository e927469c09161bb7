# Job-hunting tracker: a Dafny model of its server logic

The application is a Next.js front end over Supabase. Students record the companies
they apply to, tick off the documents they have prepared and upload files for each
application. Administrators search all students and applications and edit student
profiles. This project models the logic behind those screens and proves
properties of it:

- the zod validation schemas;
- the sign-in, sign-up and password-reset actions, including the translation of
  provider errors;
- the e-mail confirmation endpoint;
- the middleware's role-based redirects and the root page's redirect;
- the student and administrator server actions against a model of the store;
- the store queries and figures of both dashboards;
- the admin search bar, the student's application list filter and the attachment
  handling of the edit dialog;
- the activity logger and the request-origin check.

Module by module:

- `Js` (js.dfy): the JavaScript semantics the code depends on.
  - `Option` (null/undefined) and JS values with truthiness.
  - `FormData` and its `get`.
  - `includes`, `startsWith` and `split`.
  - `parseInt`, which gives `None` for NaN, and `String(n)`.
  - `filter` and `Math.round` of a percentage.
- `QueryParams` (query_params.dfy): `URLSearchParams` as an ordered list of pairs
  with `get`, `set` and `delete`, following section 6.2 of the WHATWG URL Standard.
- `Schemas` (schemas.dfy): each zod schema as a function from an input value to the
  issues zod reports, in zod's order.
- `Db` (db.dfy): the rows the actions touch and a `Store` class.
  - The store holds the `applications`, `application_attachments`, `profiles` and
    `students` tables as maps, and the storage bucket as a set of paths.
  - It has two invariants. `RowsBacked`: every attachment row's file is in the
    bucket. `PathsDistinct`: no two rows share a path.
- One module per core source file: `Logger`, `Security`, `UpdatePasswordActions`,
  `LoginActions`, `ConfirmRoute`, `Middleware`, `HomePage`, `AdminDashboard`,
  `AdminActions`, `StudentDashboard`, `StudentActions`, `AdminSearchFilter`,
  `ApplicationList` and `EditModal`.
- `Navigation`: the middleware and the page gates put together, so that following
  redirects can be reasoned about.

How things are represented:

- Code that only computes is written as functions. Code that changes state is
  written as methods over classes or over the `Store`.
- Answers from the outside world are parameters. This covers the store's answer to
  each call, either as success or error or as the data it returned. It also covers
  the sign-in provider, `verifyOtp`, the new row ids and the
  time-and-random part of a stored file name.
- Validation messages are zod 3's default wording, such as "Required" and "Expected string, received number". That version is assumed.
- Library functions whose code is not part of the model are also function-typed
  parameters with no assumed properties: `toLowerCase`, zod's e-mail test,
  `encodeURIComponent`, the URL parser and the form serialiser's percent-encoding.

## Model

| member | source | states |
|---|---|---|
| Logger.MaskEmailSpec | src/utils/logger.ts:6-11 | A text without '@' comes back unchanged. Otherwise the local part becomes "*" when it is at most one character long, or its first character plus "***". The domain is the text between the first and the second '@'. |
| Logger.MaskEmailReveals | src/utils/logger.ts:6-11 | A masked address shows at most one character of the local part and contains exactly one '@'. Whatever followed a second '@' is dropped. |
| Logger.MaskEmailIdempotent | src/utils/logger.ts:6-11 | Masking an already masked address changes nothing. |
| Logger.Redacted | src/utils/logger.ts:16-30 | Falsy details are returned as they are. A truthy e-mail that is not a string throws. Otherwise exactly `password` and `token` are removed and every other top-level key keeps its value, except `email`. |
| Logger.SanitizeDetails | src/utils/logger.ts:16-30 | The copy-and-update implementation gives the result `Redacted` describes. |
| Logger.RedactedEmailMasked | src/utils/logger.ts:20-23 | A truthy string e-mail is replaced by its masked form. Redacting again keeps that form. |
| Logger.LogActivityAnonymous | src/utils/logger.ts:60-74 | On success exactly one row with a null user and the redacted details is appended. A failed or throwing insert, or a redaction that throws, leaves the table unchanged and is only reported. |
| Logger.LogActivity | src/utils/logger.ts:35-55 | With a user, the appended row carries the user's id. Without one, the call behaves as the anonymous writer. It never throws. |
| Security.ElideDefaultPort | src/utils/security.ts:18 | A port equal to the scheme's default is dropped. Nothing else in the record changes. |
| Security.HostOf | src/utils/security.ts:22 | The host is the hostname, followed by ":port" only when a port is stored. |
| Security.ValidateRequestOrigin | src/utils/security.ts:7-27 | Returns true exactly when both headers are present and non-empty, the origin parses, and its host equals the Host header. A missing header or a parse failure gives false. |
| Security.OnlyHostMatters | src/utils/security.ts:18-22 | Two origins with the same hostname and port get the same verdict, whatever their scheme, path or query. |
| Security.HostnameOnlyHeader | src/utils/security.ts:18-22 | A Host header without a port accepts exactly the origins on that hostname whose port is absent or the scheme's default. |
| Schemas.ApplicationStatusExactly | src/utils/schemas.ts:4-12 | The status enum accepts exactly its seven values. |
| Schemas.DocumentResultExactly | src/utils/schemas.ts:14 | The document-result enum accepts exactly 通過, 不合格, 待ち and "". |
| Schemas.AttachmentCategoryExactly | src/utils/schemas.ts:16 | The category enum accepts exactly resume, cv, portfolio and other. |
| Schemas.LoginAccepts | src/utils/schemas.ts:19-22 | The login schema accepts exactly an e-mail-shaped string e-mail and a non-empty string password. |
| Schemas.LoginEmailReportedFirst | src/utils/schemas.ts:19-22 | A malformed e-mail is the first reported message, even when the password is empty too. |
| Schemas.SignupAccepts | src/utils/schemas.ts:24-29 | The sign-up schema accepts exactly an e-mail-shaped e-mail, a password of at least 6 characters, and a non-empty name and course. |
| Schemas.UpdateStudentProfileAccepts | src/utils/schemas.ts:32-36 | Accepts exactly a name of 1 to 100 characters and a course id of 1 to 50. The graduation date may be absent, null or any string. |
| Schemas.CreateApplicationAccepts | src/utils/schemas.ts:39-44 | Accepts exactly a non-empty company and position, a source that is absent or a string, and a date that is absent, null or a string. |
| Schemas.CreateAcceptedByUpdate | src/utils/schemas.ts:46-54 | Whatever the create schema accepts, the update schema accepts too, when none of the added fields is present. |
| Schemas.UpdateExtendsCreate | src/utils/schemas.ts:46-54 | On input the create schema accepts, the update schema accepts exactly when each added field is absent or valid. |
| Schemas.UploadAttachmentAccepts | src/utils/schemas.ts:56-59 | Accepts exactly a known category and a numeric count of at most 10. The bound is inclusive: 10 passes and 11 fails. |
| UpdatePasswordActions.PasswordAccepts | src/app/auth/update-password/actions.ts:7-13 | The schema accepts exactly two equal strings of at least six characters. |
| UpdatePasswordActions.PasswordFirstMessage | src/app/auth/update-password/actions.ts:7-13 | The message reported first is the short password, then the short confirmation, and only then the mismatch. |
| UpdatePasswordActions.UpdatePassword | src/app/auth/update-password/actions.ts:15-39 | Invalid input returns the first issue's message and never reaches the provider. Valid input hands the password to the provider. A provider error becomes a fixed message; success redirects to "/". |
| UpdatePasswordActions.UpdatePasswordMessages | src/app/auth/update-password/actions.ts:18-31 | A password that reaches the provider is a string of at least six characters. |
| LoginActions.TranslateIsFirstMatch | src/app/login/actions.ts:12-30 | The chain of `includes` tests equals a lookup in the five-row table of phrases, tried in order. |
| LoginActions.FirstMatchPicksEarliest | src/app/login/actions.ts:12-27 | When several phrases occur, the earliest row decides the text. |
| LoginActions.FirstMatchFallback | src/app/login/actions.ts:28-29 | When no phrase occurs, the whole message is shown after the generic prefix. |
| LoginActions.FirstMatchCases | src/app/login/actions.ts:12-30 | The result is the prefixed message when no phrase occurs. Otherwise it is the text of a row whose phrase occurs. |
| LoginActions.TranslatePrefixed | src/app/login/actions.ts:12-30 | A translation starts with the generic prefix if and only if none of the known phrases occurs. |
| LoginActions.Login | src/app/login/actions.ts:32-89 | Every path ends in a redirect. Invalid input gives the first message and nothing is logged. A rejection gives the translated reason and a LOGIN_FAILED warning. An exception gives the server-error text and a LOGIN_ERROR entry. Success logs LOGIN_SUCCESS, revalidates the layout and redirects to "/". |
| LoginActions.LoginMessageNonEmpty | src/app/login/actions.ts:40-42 | The first issue's message is never empty, so the fallback text is never used. |
| LoginActions.Signup | src/app/login/actions.ts:91-94 | Sign-up always redirects to the login page with the invitation-only message. |
| QueryParams.GetParam | src/app/auth/confirm/route.ts:6-8 | `get` is null exactly when no pair has the name, and otherwise gives the first value. |
| QueryParams.DeletedValues | src/app/auth/confirm/route.ts:12-14 | After `delete` the name has no values, and every other name keeps its values in order. |
| QueryParams.SetValues | src/components/AdminSearchFilter.tsx:18-22 | After `set` the name has exactly the new value, and every other name keeps its values in order. |
| QueryParams.GetAfterEdit | src/components/AdminSearchFilter.tsx:18-22 | `get` after `set` gives the new value and after `delete` gives null. Other names are unaffected. |
| QueryParams.SetKeepsOthers | src/components/AdminSearchFilter.tsx:18-22 | `set` leaves the pairs of all other names in place. Deleting the name afterwards gives the same list as deleting it from the original. |
| QueryParams.DeletedTwice | src/app/auth/confirm/route.ts:12-14 | Deleting a name twice is the same as deleting it once. |
| QueryParams.DeletedAbsent | src/components/AdminSearchFilter.tsx:18-22 | `delete` of a name that no pair has changes nothing. |
| QueryParams.SetSettled | src/components/AdminSearchFilter.tsx:18-22 | `set` of a name whose only value is already the new value changes nothing. |
| QueryParams.SearchParams.Set | src/components/AdminSearchFilter.tsx:18-22 | The object's list becomes the `set` of the old list. |
| QueryParams.SearchParams.Delete | src/app/auth/confirm/route.ts:12-14 | The object's list becomes the `delete` of the old list. |
| ConfirmRoute.StrippedValues | src/app/auth/confirm/route.ts:10-14 | `token_hash`, `type` and `next` are removed, and every other parameter keeps its values. |
| ConfirmRoute.Get | src/app/auth/confirm/route.ts:4-37 | The step-by-step edits of the cloned URL give the redirect target. `verifyOtp` is called exactly when both the token and the type are non-empty, and with those two values. |
| ConfirmRoute.ConfirmTarget | src/app/auth/confirm/route.ts:8-36 | A pathname other than /login is `next` (by default "/"), reached only through a verified token. A missing token or type gives error=missing-token; a failed verification gives error=invalid-token. Other parameters keep their values, and the consumed ones are gone. |
| AdminSearchFilter.ApplyValues | src/components/AdminSearchFilter.tsx:18-22 | A non-empty field sets its parameter to exactly its value, and an empty one removes it. Other parameters are untouched. A settled parameter is left as it is. |
| AdminSearchFilter.SearchQueryValue | src/components/AdminSearchFilter.tsx:17-22 | After a search each filter parameter holds exactly its field's value, or nothing when the field is empty. Every other parameter, `tab` included, keeps its values. |
| AdminSearchFilter.SearchQueryValues | src/components/AdminSearchFilter.tsx:17-24 | The same statement for all parameters at once. |
| AdminSearchFilter.SearchIdempotent | src/components/AdminSearchFilter.tsx:16-25 | Searching again with unchanged fields gives the same query. |
| AdminSearchFilter.SearchFilter.constructor | src/components/AdminSearchFilter.tsx:10-14 | Each field starts from its query parameter, or "" when the parameter is absent. |
| AdminSearchFilter.SearchFilter.HandleSearch | src/components/AdminSearchFilter.tsx:16-25 | The pushed URL is the dashboard followed by the serialised search query. |
| AdminSearchFilter.SearchFilter.HandleReset | src/components/AdminSearchFilter.tsx:27-35 | Navigates to the current tab (by default "students") and clears all five fields. |
| Middleware.UpdateSession | src/utils/supabase/middleware.ts:43-116 | A redirect changes only the pathname, and only to /login, /admin/dashboard, /student/dashboard or "/". |
| Middleware.SignedOut | src/utils/supabase/middleware.ts:43-52 | Without a session, public paths pass and every other path goes to /login, whatever the role. |
| Middleware.SignedInEntry | src/utils/supabase/middleware.ts:55-74 | On "/" or a /login path, an admin goes to the admin dashboard and a student to the student dashboard. Any other role passes. |
| Middleware.ProtectedPaths | src/utils/supabase/middleware.ts:77-113 | An /admin path admits exactly admins. A /student path admits exactly students and admins. Everyone else is sent to "/". |
| Middleware.PrefixNotSegment | src/utils/supabase/middleware.ts:77-93 | The test is a plain prefix test, so /administrator is guarded like /admin. |
| HomePage.Home | src/app/page.tsx:4-24 | Goes to /login exactly when signed out, to /admin/dashboard exactly for an admin, and otherwise to /student/dashboard. |
| AdminDashboard.Gate | src/app/admin/dashboard/page.tsx:19-32 | The page renders exactly for a signed-in admin. Signed out goes to /login; any other role goes to "/". |
| AdminDashboard.StudentsQuery | src/app/admin/dashboard/page.tsx:38-57 | The query built step by step has exactly the course, month and name-pattern constraints for the parameters that are given. |
| AdminDashboard.ApplicationsQuery | src/app/admin/dashboard/page.tsx:62-89 | The query built step by step has the course, month, status and result filters for the given parameters, in that order, followed by the newest-first order. |
| AdminDashboard.ApplicationFilters | src/app/admin/dashboard/page.tsx:82-89 | The query filters on status and on document result exactly when those parameters are given, and only with their values. It always ends newest first. |
| AdminDashboard.MonthFilter | src/app/admin/dashboard/page.tsx:50-52 | A given month bounds the graduation date by its "-01" and "-31" days. Without a month nothing bounds the date. |
| AdminDashboard.KeywordFiltered | src/app/admin/dashboard/page.tsx:94-105 | Without a keyword all rows are kept, and none when the query gave null. |
| AdminDashboard.KeywordFilteredMembers | src/app/admin/dashboard/page.tsx:95-104 | With a keyword, a row is kept exactly when the keyword occurs in the student name, company, position or an attachment name. The order of rows is kept. |
| AdminDashboard.KpiBounds | src/app/admin/dashboard/page.tsx:117-123 | Passed and offer counts lie within the total, and both rates within 0..100. A rate is 0 when there is nothing to count and 100 when everything counts. |
| AdminDashboard.CarriedExactly | src/app/admin/dashboard/page.tsx:169 | A tab link carries exactly the non-empty parameters other than `tab`, in the order of the query. |
| AdminDashboard.TabLinkShape | src/app/admin/dashboard/page.tsx:169-175 | Both tab links start with their tab and a `&`. When no parameter other than `tab` has a value, the link ends in that bare `&`. |
| AdminDashboard.FilteredKpis | src/app/admin/dashboard/page.tsx:93-123 | The figures above the list count the rows shown after the keyword filter. They never exceed what the query returned, cover every row without a keyword, and keep the `KpiBounds` bounds. |
| AdminDashboard.StudentKpisBounds | src/app/admin/dashboard/page.tsx:205-210 | A student whose join gave null shows all zeros. Otherwise the total is the number of joined applications. Counts lie within the total and rates within 0..100, both 0 with no applications. |
| AdminDashboard.NoTab | src/app/admin/dashboard/page.tsx:169 | The carried parameters never include a `tab`. |
| ApplicationList.Filtered | src/components/SearchableApplicationList.tsx:17-28 | The filter throws exactly when some row has no company. Otherwise it shows at most the whole list. |
| ApplicationList.FilteredMembers | src/components/SearchableApplicationList.tsx:17-28 | An application is shown exactly when it passes every filter, in the list's order. |
| ApplicationList.NoFiltersShowAll | src/components/SearchableApplicationList.tsx:8-28 | In the initial filter state the whole list is shown. |
| ApplicationList.TighterShowsFewer | src/components/SearchableApplicationList.tsx:17-28 | Tightening any filter gives a sub-list of the looser result. |
| StudentActions.DateOrNull | src/app/student/dashboard/actions.ts:23 | An absent or empty date is stored as null; any other value is stored as given. |
| StudentActions.NewApplication | src/app/student/dashboard/actions.ts:14-26 | The new row belongs to the caller, has status 応募中 and takes its fields from the form. The flags and document result are the store's defaults (false and null). |
| StudentActions.AddApplication | src/app/student/dashboard/actions.ts:6-35 | Without a user it throws Unauthorized. A failed insert returns the store's message. Otherwise exactly one new row is added, and no other table changes. |
| StudentActions.Edited | src/app/student/dashboard/actions.ts:45-71 | The owner stays. Each flag is true exactly when the form value is "on", and the date follows `DateOrNull`. |
| StudentActions.UpdateApplication | src/app/student/dashboard/actions.ts:37-82 | Only the caller's own row with that id is rewritten. Any other row, or a missing one, is left unchanged. |
| StudentActions.UpdateTouchesOwnRowOnly | src/app/student/dashboard/actions.ts:57-73 | A row that is another student's, or has another id, keeps its value. |
| StudentActions.Extension | src/app/student/dashboard/actions.ts:121 | The extension is never empty and contains no '.'. |
| StudentActions.ExtensionOf | src/app/student/dashboard/actions.ts:121 | The extension is "bin" for an empty name or one ending in '.', the whole name when it has no '.', and otherwise the text after the last '.'. |
| StudentActions.StoragePathInjective | src/app/student/dashboard/actions.ts:120-123 | For ids and categories without `/` and stamps without `.`, two uploads share a path exactly when application, category, stamp and extension all agree. Uploads with different stamps never collide. |
| StudentActions.UploadRejectionIff | src/app/student/dashboard/actions.ts:92-118 | An upload goes ahead exactly when file and category are present, a file is at most 5 MB, the count is below 10 or NaN, and the caller owns the application. The checks are reported in that order. |
| StudentActions.UploadAttachment | src/app/student/dashboard/actions.ts:84-155 | The checks run in the source's order, and a failed ownership select counts as not owned. The object is stored before the row is inserted, and a failed insert leaves the object in the bucket. RowsBacked and PathsDistinct are preserved, and the application row never changes. |
| StudentActions.StoreAndRecord | src/app/student/dashboard/actions.ts:125-154 | A failed or conflicting upload changes nothing. A failed insert adds only the object. Success adds the object and the row. |
| StudentActions.DeleteAttachment | src/app/student/dashboard/actions.ts:157-203 | A failed lookup or a missing row gives the not-found reply. The object is removed before the row. A failed removal changes nothing. A failed row delete leaves the row without its object, which is the only way RowsBacked is lost. PathsDistinct is always kept. |
| AdminActions.Renamed | src/app/admin/dashboard/actions.ts:13-17 | Only the full name changes, and the role is kept. |
| AdminActions.Reassigned | src/app/admin/dashboard/actions.ts:21-28 | The course comes from the form. An empty graduation date is stored as null; any other value is stored as given. |
| AdminActions.UpdateWhere | src/app/admin/dashboard/actions.ts:14-28 | An update keyed by id changes only that row and never adds one. |
| AdminActions.UpdateStudentProfile | src/app/admin/dashboard/actions.ts:6-34 | The name is written first. If that fails its message is returned and the student row is untouched. Otherwise the course and date are written, or that write's error is returned. |
| AdminActions.DeleteStudent | src/app/admin/dashboard/actions.ts:36-51 | Only the profile row is removed, or nothing when the store reports an error. |
| StudentDashboard.Gate | src/app/student/dashboard/page.tsx:13-15 | The page renders exactly for a signed-in user. Otherwise it redirects to /login. |
| StudentDashboard.GoalRemainder | src/app/student/dashboard/page.tsx:93 | The remainder is 0 exactly from 20 applications on. Below 20, count plus remainder is 20. |
| StudentDashboard.SummaryBounds | src/app/student/dashboard/page.tsx:59-62 | Passed and pending never overlap, so together they are at most the count. The pass rate lies within 0..100: it is 0 with nothing passed and 100 when all passed. |
| StudentDashboard.StudentPage | src/app/student/dashboard/page.tsx:7-63 | Shows the error panel exactly when signed in with no students row. Its message is the error's text or the not-found text, never empty. Otherwise it shows the figures. |
| StudentDashboard.RecoverStudentRow | src/app/student/dashboard/page.tsx:45-54 | A successful insert adds an empty students row with the caller's id. Nothing else changes. |
| EditModal.WithCount | src/components/EditApplicationModal.tsx:47-49 | The count is appended after every existing entry of the form. |
| EditModal.SentCountRead | src/components/EditApplicationModal.tsx:47-49 | The server reads the appended count back as that same number. |
| Js.ParseDecimal | src/components/EditApplicationModal.tsx:48-49 | `parseInt` of `n.toString()` is `n`. |
| EditModal.RemovedExactly | src/components/EditApplicationModal.tsx:74-75 | Removing an id keeps exactly the entries with another id, in order. |
| EditModal.DeleteUndoesUpload | src/components/EditApplicationModal.tsx:56-75 | Deleting the entry an upload just prepended restores the previous list. |
| EditModal.CategoryLabel | src/components/EditApplicationModal.tsx:81-88 | resume, cv and portfolio get 履歴書, 職務経歴書 and ポートフォリオ. Any other string is returned unchanged, and only those three change. |
| EditModal.CategoryLabelsDistinct | src/components/EditApplicationModal.tsx:81-88 | The four categories the schema accepts get four different labels. |
| EditModal.Modal.constructor | src/components/EditApplicationModal.tsx:14 | The local list starts as the prop, or empty when the prop is missing. |
| EditModal.Modal.SentCount | src/components/EditApplicationModal.tsx:48 | The count sent is the prop's length, or 0 when the prop is missing. |
| EditModal.Modal.EnabledPassesCountCheck | src/components/EditApplicationModal.tsx:309 | While the prop and the local list agree, an enabled button sends a count the server's limit lets through. |
| EditModal.Modal.HandleFileUpload | src/components/EditApplicationModal.tsx:33-64 | A file over 5 MB is refused with an alert and the server is not called. Otherwise the form is sent with the count. An error alerts and leaves the list. A success prepends the returned row. A rejected call leaves `uploading` set. |
| EditModal.Modal.HandleDeleteFile | src/components/EditApplicationModal.tsx:66-77 | The server is called exactly when the user confirms. An error alerts and leaves the list; success removes every entry with that id. |
| Navigation.Serve | src/utils/supabase/middleware.ts:43-116 | A rendered page is always the requested path. |
| Navigation.RedirectLoop | src/utils/supabase/middleware.ts:96-113 | A signed-in user whose role is neither admin nor student alternates forever between "/" and /student/dashboard. "/" sends them there (src/app/page.tsx:19-23) and the middleware sends them back. |
| Navigation.NeverRendered | src/app/page.tsx:19-23 | For such a user no number of followed redirects ends in a rendered page. |
| Navigation.EntryPoints | src/app/page.tsx:8-23 | From "/" an admin reaches the admin dashboard, a student the student dashboard, and a visitor without a session the login page, each after one redirect. |
| Navigation.CrossAccess | src/utils/supabase/middleware.ts:77-113 | An admin may open the student dashboard. A student is sent away from the admin dashboard. |

## Left out

- The cookie copying of the middleware's session refresh and the `NextResponse` objects are not modelled. The model keeps only the redirect decision.
- Middleware.UpdateSession: the profile is read up to three times per request. The model takes all three reads to return the same role.
- Row-level security is not modelled. `deleteAttachment` looks the row up by id alone, and who may read it is left to the store.
- The store's cascading deletes are not modelled. `deleteStudent` removes only the profile row.
- The bucket is taken to refuse an upload to a path that already exists, as an upload without overwrite does.
- Signed URLs, `revalidatePath`, `router.refresh`, `console.error`, `alert` dialogs and form resets have no effect in the model beyond what the members above state.
- The structured `Logger` class used by `login` is not part of this model. Its calls appear only as the log effects `login` returns.
- The URL parser, `toLowerCase`, zod's e-mail regular expression, `encodeURIComponent` and the form serialiser's percent-encoding are function parameters with no assumed properties.
- ApplicationList.NoFiltersShowAll: assumes `toLowerCase("") == ""`, a fact about the parameter.
- ApplicationList.TighterShowsFewer: assumes `toLowerCase("") == ""`, as above.
- ConfirmRoute.Get: assigning `pathname` on a URL normalises the text, for example by percent-encoding. The model stores `next` as given.
- AdminSearchFilter.SearchFilter.HandleSearch: the copy of the current query is taken to parse back to the same list of pairs.
- AdminDashboard.TabLink, AdminDashboard.StudentConstraints, AdminDashboard.ApplicationConstraints, AdminDashboard.KeywordFiltered: a query key that repeats reaches the page as an array. The model treats every parameter as a single string and reads the first value.
- AdminDashboard.CarriedExactly: `Object.entries` lists integer-like keys first, in ascending order, and then the other keys in insertion order. The model keeps the query's order, so for `?b=1&2=x` it gives `b=1&2=x` where the page builds `2=x&b=1`. The page's own parameters are never integer-like.
- AdminDashboard.MonthFilter: the "-31" bound is not a calendar date for short months. How the store treats it is not modelled.
- AdminDashboard.KpiBounds, AdminDashboard.StudentKpisBounds, StudentDashboard.Summarize, StudentDashboard.SummaryBounds: the rates are `Math.round` of a floating-point quotient. The model rounds the exact rational half-up. The two differ only where floating-point rounding does: for 23 passed out of 40, the page computes `Math.round(57.49999999999999)` = 57, and the model gives 58. The stated bounds hold either way.
- StudentActions.NewApplication: the insert sends no flags and no document result. The model fills in the store's column defaults, false and null. Every reader tests these columns by truthiness, so a null flag would behave the same.
- StudentActions.NewApplication, StudentActions.Edited, AdminActions.Renamed, AdminActions.Reassigned: a file entry in a text field is stored as the text "[object File]". In the source the payload goes through `JSON.stringify`, which sends a file as `{}`. How the store converts that for a text column is not modelled.
- `validateRequestOrigin` is not called by any action. `UpdateApplicationSchema` is not used by `updateApplication`, which writes unvalidated form values. Both are modelled as written.
- The auth callback page, the admin client, the Supabase server client and the rendering-only components are not part of this model. Those components are the add-application, student-edit and invite dialogs and the login and password pages.
- Lengths are sequence lengths, which stand for JavaScript's UTF-16 code-unit lengths.
