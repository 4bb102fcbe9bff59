# Crime Alert Portal — a verified model of its decision logic

The Crime Alert Portal is a React front end over a Supabase store. Citizens
register with their CNIC (national identity card number), sign in and report
crimes. An administrator, behind a shared password, triages the reports and
browses the registered users. This project models in Dafny the logic those
pages hold, and proves what it promises:

- **Report triage** (`admin_reports.dfy`). This covers:
  - the projection that hides the owner of an anonymous report;
  - the search, status and crime-type filter chain;
  - the local status update of one report;
  - the guard and reset around sending an administrator's response;
  - the status labels, the list of crime types offered by the filter, and the empty-list message.
- **User search** (`admin_users.dfy`): the mixed case-insensitive and exact
  substring filter, the report-count default, the plural badge and the
  no-match message.
- **Report submission** (`report_form.dfy`): the upload path of an image, the
  record handed to the insert, and the form's state across a submission.
- **Credentials** (`auth.dfy`):
  - the lowercase hex rendering of a SHA-256 digest;
  - sign-up into a `users` table whose CNICs are unique;
  - login with one uniform error.
- **Admin gate** (`admin_gate.dfy`): the authenticated state of the admin page,
  mirrored into a `localStorage` flag.
- **Login page** (`login_page.dfy`): the CNIC input sanitiser and the submit
  handler.

Shared pieces:

- `types.dfy` holds the records of `lib/types.ts`.
- `text.dfy` holds the string primitives: ASCII `toLowerCase`, `includes`, `trim` and decimal rendering.
- `seqs.dfy` holds JavaScript's stable `filter`, stated as an order-preserving subsequence, and the iteration order of `[...new Set(xs)]`, stated as each distinct element once, in order of first occurrence.

React state that handlers rewrite is modelled as classes whose fields the methods update:

- `AdminReportsView`, `ReportCrimeForm`, `AdminPage` and `LoginForm`;
- `UsersTable` for the store's `users` table;
- `LocalStorage` for the browser storage.

Expressions become functions with lemmas. Every call into the store, its
outcome and the clock are parameters:

- `storeOk`, `insertOk`, `uploadOk` and `fault` are the store's outcomes;
- `FetchOutcome` is what a fetch returns;
- `timestamp` and `now` are the clock.

SHA-256 is a parameter `sha: string -> Digest`, a deterministic function with a 32-byte result.

## Model

| member | source | states |
|---|---|---|
| Types.ParseStatus | lib/types.ts:32 | a name is read as a status only if that status is stored under that name |
| Types.StatusNameRoundTrip | lib/types.ts:32 | the three stored status names are read back as their own status |
| AdminReports.Anonymise | components/admin-reports.tsx:80-83 | an anonymous report has no owner, any other gets the joined `users` record; every other field is unchanged |
| AdminReports.AnonymiseAll | components/admin-reports.tsx:80-83 | the fetched list is projected row by row, same length and order |
| AdminReports.AnonymousOwnersHidden | components/admin-reports.tsx:80-83 | no report held after a fetch (`AfterFetch`) shows the owner of an anonymous report; non-anonymous reports show their joined owner |
| AdminReports.FilterReportsIsOnePass | components/admin-reports.tsx:38-60 | `FilterReports`, the three successive filters (skipped for an empty term or "all") with the search predicate `MatchesSearch`, is one stable filter by the conjunction `Kept` |
| AdminReports.FilterReportsSpec | components/admin-reports.tsx:38-60 | the list `FilterReports` gives is an order-preserving subsequence of the reports, and holds a report exactly when search, status and crime-type conditions all hold |
| AdminReports.SearchExample | components/admin-reports.tsx:41-48 | searching "lahore" over a theft in Lahore and a harassment in Karachi keeps only the theft |
| AdminReports.StatusAndTypeExample | components/admin-reports.tsx:51-57 | the status filter "resolved" keeps only the resolved report; a crime type that no report has keeps none |
| AdminReports.SearchWithoutLocationOrOwner | components/admin-reports.tsx:46-47 | a report without location (or without owner) is matched on its remaining fields only |
| AdminReports.EmptyStateSpec | components/admin-reports.tsx:402-408 | `EmptyStateMessage` is "No crime reports submitted yet." exactly when there are no reports and no filter is active; the no-match message exactly when a filter is active and no report passes it |
| AdminReports.WithStatus | components/admin-reports.tsx:102-104 | only the status of reports with that id changes; length, order and all other fields are kept; an unknown id changes nothing |
| AdminReports.StatusLastWriteWins | components/admin-reports.tsx:271-279 | any status may follow any other: a second update overrides the first entirely |
| AdminReports.StatusText | components/admin-reports.tsx:145-156 | the three statuses get the labels "Pending", "In Progress", "Resolved"; any other string is shown as it is |
| AdminReports.StatusTextDistinguishesStatuses | components/admin-reports.tsx:145-156 | two statuses get the same label only if they are the same status |
| AdminReports.CrimeTypesOf | components/admin-reports.tsx:158 | the crime types of the reports, position by position |
| AdminReports.UniqueCrimeTypesSpec | components/admin-reports.tsx:158 | the offered crime types, `UniqueCrimeTypes`, have no duplicates, are exactly those occurring in the reports, and come in order of first occurrence |
| AdminReports.AdminReportsView.constructor | components/admin-reports.tsx:24-32 | the initial state: no reports, empty term, both filters "all", loading, nothing selected |
| AdminReports.AdminReportsView.SetSearchTerm | components/admin-reports.tsx:189 | the search box sets the term and nothing else |
| AdminReports.AdminReportsView.SetStatusFilter | components/admin-reports.tsx:194 | the status select sets the status filter and nothing else |
| AdminReports.AdminReportsView.SetCrimeTypeFilter | components/admin-reports.tsx:206 | the crime-type select sets the crime-type filter and nothing else |
| AdminReports.AdminReportsView.FetchReports | components/admin-reports.tsx:62-91 | a fetch replaces the list by the anonymised rows (none when `data` is null), keeps it on error, and ends loading |
| AdminReports.AdminReportsView.UpdateReportStatus | components/admin-reports.tsx:93-108 | sends the status with `updated_at` set to the clock; the local list changes as `WithStatus` only when the store accepts |
| AdminReports.AdminReportsView.FilteredReports | components/admin-reports.tsx:38-60 | the list the view shows is an order-preserving subsequence of its reports, holding exactly those kept by its current term and filters |
| AdminReports.AdminReportsView.EditResponse | components/admin-reports.tsx:378-381 | typing a response sets the text and selects that report |
| AdminReports.AdminReportsView.SubmitEnabled | components/admin-reports.tsx:384-386 | the button is enabled exactly when the text is not whitespace-only, no submission runs and this report is the selected one |
| AdminReports.AdminReportsView.SubmitResponse | components/admin-reports.tsx:110-130 | no selection or a whitespace-only text changes nothing and sends nothing; otherwise the response is sent for the selected report, and after a successful insert the list is re-fetched, the text cleared and the selection reset; a failed insert keeps all of them |
| AdminUsers.FilterUsersSpec | components/admin-users.tsx:22-31 | the users `FilterUsers` keeps are an order-preserving subsequence holding exactly the users (`UserMatches`) whose name or present e-mail contains the term ignoring case, or whose CNIC or phone contains it exactly |
| AdminUsers.EmptyTermKeepsAll | components/admin-users.tsx:22-31 | an empty search term keeps every user in order |
| AdminUsers.MatchWithoutEmail | components/admin-users.tsx:28 | a user without e-mail matches only through name, CNIC or phone |
| AdminUsers.ReportCount | components/admin-users.tsx:51 | the store's count, or 0 when there is none; never negative |
| AdminUsers.WithCounts | components/admin-users.tsx:49-52 | each user is paired with the count fetched for it, in order |
| AdminUsers.PluralSuffixOfCount | components/admin-users.tsx:107 | the badge's `PluralSuffix` is "s" exactly when the count is not 1 |
| AdminUsers.NoMatchSpec | components/admin-users.tsx:144 | the no-match card (`ShowsNoMatch`) shows exactly when a term is typed and no user matches it |
| ReportForm.Extension | components/report-crime-form.tsx:53 | the text after the last dot, with no dot in it, or the whole name exactly when the name has no dot |
| ReportForm.ExtensionAfterDot | components/report-crime-form.tsx:53 | whatever precedes the last dot, the extension is what follows it |
| ReportForm.UploadPathSpec | components/report-crime-form.tsx:53-55 | the path `UploadPath` builds lies in `crime-reports/`, is named by the decimal upload time and keeps the file's extension |
| ReportForm.UploadedImageUrl | components/report-crime-form.tsx:51-69 | a successful upload gives the public URL of its path; a failed one gives null instead of an error |
| ReportForm.VideoLinkValue | components/report-crime-form.tsx:90 | an empty video link is stored as null, any other verbatim |
| ReportForm.BuildInsert | components/report-crime-form.tsx:82-92 | the record takes the user id from the session, the "Other" free text or the selection as crime type, and copies location, description, flag and image URL |
| ReportForm.CrimeTypeValue | components/report-crime-form.tsx:82 | "Other" is stored as the free text, any other selection as it is |
| ReportForm.StoredCrimeType | components/report-crime-form.tsx:17 | a crime type picked from the list is stored either as the free text or as one of the four listed types other than "Other" |
| ReportForm.ReportCrimeForm.constructor | components/report-crime-form.tsx:21-32 | the form starts empty, with no file, not loading, no success and no error |
| ReportForm.ReportCrimeForm.Edit | components/report-crime-form.tsx:150-235 | the inputs set the form values and the chosen file |
| ReportForm.ReportCrimeForm.HandleSubmit | components/report-crime-form.tsx:71-113 | sends an upload, to the `UploadTarget` path, exactly when a file is chosen, and the image URL only ever names that path; inserts even when the upload fails, so a failed insert can leave a stored upload behind; success resets the form and file and sets `success`; failure shows the fixed message and keeps the form; loading ends either way |
| ReportForm.ReportCrimeForm.SubmitAnother | components/report-crime-form.tsx:124 | leaves the success card |
| Auth.PadStart | lib/auth.ts:8 | pads on the left with the fill character up to the width and keeps the string as its tail |
| Auth.ByteHexDigits | lib/auth.ts:8 | `ByteHex` (a byte in `Radix16`, padded to two) gives exactly two lowercase hex digits, high nibble first |
| Auth.Hex | lib/auth.ts:7-9 | the rendering has two characters per byte, all lowercase hex digits |
| Auth.HexRoundTrip | lib/auth.ts:7-9 | reading the rendering back two digits at a time gives the bytes |
| Auth.HexInjective | lib/auth.ts:7-9 | distinct byte sequences have distinct renderings |
| Auth.PasswordHash | lib/auth.ts:4-10 | the digest's rendering is 64 lowercase hex characters |
| Auth.NewUserRow | lib/auth.ts:18-24 | the stored row holds the password's digest, never the password, and copies name, CNIC, phone and e-mail |
| Auth.UsersTable.constructor | lib/auth.ts:16-17 | a table whose CNICs are unique |
| Auth.UsersTable.Insert | lib/auth.ts:16-28 | appends the row unless the store fails or the CNIC is taken, in which case the table is unchanged and an error returned; CNICs stay unique |
| Auth.SignUp | lib/auth.ts:12-34 | exactly one of user and error; a user exactly when the store accepts a new CNIC, and then the stored row is returned and appended; on error the table is unchanged |
| Auth.Profile | lib/auth.ts:45-46 | the profile carries id, name, CNIC, phone, e-mail and creation time, and no password digest |
| Auth.Login | lib/auth.ts:36-50 | exactly one of user and error; the only error is "Invalid credentials"; a user is returned only for a row with that CNIC whose digest matches the password's, as its profile |
| Auth.LoginRejectsUniformly | lib/auth.ts:38-43 | a failing lookup, an unknown CNIC and a wrong password all give "Invalid credentials" and no user |
| Auth.OnlyMatch | lib/auth.ts:38-40 | in a table with unique CNICs, looking up a stored row's CNIC finds that row and no other |
| Auth.LoginSucceeds | lib/auth.ts:38-46 | in a table with unique CNICs, any stored row's CNIC and password log in to that row's profile when the lookup does not fail |
| Auth.LoginAfterSignUp | lib/auth.ts:14-46 | after signing up with a new CNIC, logging in with that CNIC and password returns the new user's profile |
| AdminGate.AdminPage.constructor | app/admin/page.tsx:19-21 | the page starts unauthenticated with empty password and error |
| AdminGate.AdminPage.Restore | app/admin/page.tsx:24-29 | authenticated after mounting exactly when it was already or the stored flag is exactly "true"; keeps authenticated ⇒ flag set |
| AdminGate.AdminPage.SetPassword | app/admin/page.tsx:73 | the input sets the password field |
| AdminGate.AdminPage.HandleLogin | app/admin/page.tsx:31-40 | the exact admin password authenticates, stores the flag "true" and clears the error; any other sets "Invalid password" and leaves state and storage unchanged |
| AdminGate.AdminPage.HandleLogout | app/admin/page.tsx:42-46 | logout leaves the panel, removes the flag and clears the password |
| AdminGate.AdminPage.ShowsPanel | app/admin/page.tsx:48 | the panel is shown only while the stored flag is set, as long as this page is the only writer of its storage |
| LoginPage.SanitizeCnic | app/login/page.tsx:71 | only digits, at most 13: the first min(13, k) of the input's k digits (`Digits`) |
| LoginPage.SanitizeCnicKeepsOrder | app/login/page.tsx:71 | the sanitised CNIC is an order-preserving subsequence of the input |
| LoginPage.SanitizeCnicIdempotent | app/login/page.tsx:71 | sanitising twice is sanitising once |
| LoginPage.LoginForm.constructor | app/login/page.tsx:17-22 | the form starts empty, not loading, with no effects |
| LoginPage.LoginForm.OnCnicInput | app/login/page.tsx:71 | the CNIC field holds the sanitised input |
| LoginPage.LoginForm.OnPasswordInput | app/login/page.tsx:83 | the password field holds the input as typed |
| LoginPage.LoginForm.HandleSubmit | app/login/page.tsx:26-45 | a login error is shown and no session login or navigation happens; a user is handed to the session before navigating to /dashboard; loading ends false |

## Left out

- Supabase queries, inserts, uploads and `getPublicUrl` are network I/O. Each becomes an outcome parameter: `storeOk`, `insertOk`, `uploadOk`, `fault`, `FetchOutcome` or `publicUrlOf`. The store's ordering by `created_at` is part of the fetched data.
- SHA-256 (`crypto.subtle.digest`) is a foreign call. It is the parameter `sha`, a deterministic function returning 32 bytes. Only the hex rendering is modelled.
- `Date.now()` and `new Date().toISOString()` are parameters: `timestamp` and `now`. All date formatting for display is left out.
- Geolocation and its floating-point "lat, lon" string are a browser API and are left out.
- `Promise.all` in the user list runs the per-user counts concurrently. Only the pairing of each user with its count and the `count || 0` default are modelled.
- `toLowerCase` folds only the ASCII letters. Unicode case mapping is outside the model.
- `getStatusColor` (Tailwind class strings), JSX rendering, dialogs and tabs are presentation only.
- components/my-reports.tsx is not part of this model. It is a query plus rendering, and its status helpers repeat those of the admin view.
- The about, home, dashboard, header, footer and hero pages are not part of this model. They are presentation only.
- The session context (`contexts/auth-context`) is not part of this model. The login page records its call to the context's `login` and to the router, in order, as `Effect` values.
- AdminReports.Anonymise: the runtime object still carries the joined `users` property after the projection. The model's `CrimeReport` has no such field, so only `user` is stated.
- AdminReports.AdminReportsView.UpdateReportStatus: the local list keeps the report's old `updated_at`. Only the row sent to the store carries the new time. The model follows the code here.
- Intermediate React states (`isLoading` and `isSubmittingResponse` set to true while a request runs) are set and cleared within one method. Only the final state is stated.
- LoginPage.LoginForm.HandleSubmit: the `catch` branch ("An unexpected error occurred") is not modelled, because the modelled `login` never throws.
- Auth.SignUp and Auth.Login: the fallback messages "Sign up failed" and "Login failed" are used only when something other than an `Error` is thrown. The modelled operations never do that.
- Auth.UsersTable.Insert: the duplicate-CNIC error text is the store's own message. The model uses a fixed stand-in, `DuplicateCnic`.
- Auth.SignUp returns the whole inserted row, `password_hash` included, as the code does. Only `login` strips the digest.
- AdminGate.AdminPage.ShowsPanel: the invariant that the panel is shown only while the stored flag is set covers this page's own restore, login and logout only. `localStorage` is shared by every tab of the site, and the user can clear it. Another tab's logout, or the user, can remove the flag while this page stays authenticated and keeps showing the panel. The model has one page per storage and no outside writer.
- The `console.error` calls in the caught failures are logging only and are left out: fetch, status update and response submit in components/admin-reports.tsx, and the image upload in components/report-crime-form.tsx. Each failure is modelled by the state it leaves behind.
- The HTML `required` attributes are enforced by the browser before a submit handler runs. They block an empty description or "Other" text (components/report-crime-form.tsx:173 and :201), an empty admin password (app/admin/page.tsx:74) and an empty CNIC or password (app/login/page.tsx:73 and :84). The model has no browser validation: its handlers accept every form state. An empty description or "Other" text is inserted as it is, an empty admin password gets "Invalid password", and an empty CNIC or password goes through the same lookup and comparison as any other.
- ReportForm.ReportCrimeForm.HandleSubmit: an image upload failure does not fail the submission. It is caught, the image URL becomes null and the report is still inserted. The model follows the code.
