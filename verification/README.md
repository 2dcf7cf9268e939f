# Project-tracking dashboard: CSV import pipeline and session layer, in Dafny

This project models two pieces of sequential logic in the connectivity-project dashboard:

- **The CSV import pipeline** (`js/app.js`), in module `CsvImport` (`csv_import.dfy`). It covers:
  - the file-type check of the upload handler;
  - `validateCSVData`, which folds the row validator over the parsed rows into valid projects, errors, warnings and a `hasErrors` flag;
  - the counts and the capped error list that `showValidationResults` displays;
  - the pending batch that `importValidatedData` appends to the project store.
- **The session layer** (`js/auth.js`), in modules `AuthSession` (`session.dfy`) and `Rbac` (`rbac.dfy`).
  - The session is local storage (`access_token`, `refresh_token`, `user`) plus the current page.
  - It is driven by the page-load check, token verification, one tick of the refresh timer, logout and the 401 handling of the API wrapper.
  - On top sit the role-to-capability table with deny-by-default, and the visibility of the gated controls.

`base.dfy` holds the shared `Option` type and JavaScript's `endsWith`.

Code outside js/app.js and js/auth.js, and the browser and backend, enter as parameters:
- The row validator (`Validator.validateCSVRow`), the project sanitizer (`Sanitizer.sanitizeProject`) and the HTML escaper (`Sanitizer.sanitizeHTML`) are function parameters. So every property of the pipeline holds whatever the row rules are.
- The outcome of reading and parsing the file is a parameter.
- Each backend answer is a parameter: a successful response with its payload, a non-ok status, or a thrown error. Each session step returns the requests it sent, so "the logout call is issued" is a statement about the returned request list.
- Decoding the stored `user` JSON is a parameter `parse`. Its `None` stands for a decoded value that is falsy.

JavaScript truthiness is modelled exactly where the code relies on it. A storage entry counts as present only when it exists and is not the empty string (`Present`).

Two behaviours of the code worth knowing:
- `validateCSVData` checks every row against one snapshot of the store, so a site code repeated within one file is not caught here (`DuplicateRowsBothAccepted`).
- `verifyToken` logs out on any failure, including an unreachable backend or an undecodable body (`Reply.Thrown`).

As written, js/auth.js:203-207 applies `.bind(this)` directly to an arrow-function literal, which JavaScript's grammar does not allow, so the file does not parse and `AuthService` never loads. The session modules describe the functions as if the file parsed.

## Model

| member | source | states |
|---|---|---|
| CsvImport.AnyTypeMatches | js/app.js:148-149 | the file is accepted iff some listed type is a suffix of its name or equals its MIME type |
| CsvImport.CsvNameAccepted | js/app.js:148-149 | a name ending in `.csv` is accepted whatever the MIME type |
| CsvImport.ExcelTypeAccepted | js/app.js:148-149 | either Excel MIME type is accepted whatever the name |
| CsvImport.TextCsvWithoutExtensionRefused | js/app.js:148-152 | a file named `data` reported as `text/csv` is refused: only suffixes and exact MIME types count |
| CsvImport.VerdictsIgnoreLaterRows | js/app.js:188-189 | the verdicts of a file's leading rows are the ones those rows get on their own: rows after them change nothing |
| CsvImport.ValidateCsvData | js/app.js:183-204 | the loop yields the row-by-row reference result; at most one project per row; `hasErrors` iff some invalid row carried an error message |
| CsvImport.AcceptedLength | js/app.js:188-195 | no more valid projects than rows; exactly as many iff every row is valid |
| CsvImport.AcceptedAppend | js/app.js:188-195 | the valid projects of two consecutive slices of rows are those of the first followed by those of the second, so row order is kept |
| CsvImport.AcceptedMember | js/app.js:191-193 | a project is in the batch iff it is the sanitized project of some valid row |
| CsvImport.AcceptedAllValid | js/app.js:188-195 | when every row is valid the batch is every row's sanitized project, in file order |
| CsvImport.RejectionsMember | js/app.js:191-196 | an error is reported iff it is in the error list of some invalid row; a valid row contributes none |
| CsvImport.RejectionsEmpty | js/app.js:194-203 | no error is reported iff every row is valid or was rejected without a message |
| CsvImport.AllWarningsMember | js/app.js:198-200 | a warning is reported iff some row, valid or invalid, produced it |
| CsvImport.DuplicateRowsBothAccepted | js/app.js:188-193 | a valid row repeated in one file, judged the same at both positions, puts two copies of its project in the batch |
| CsvImport.ShowValidationResults | js/app.js:206-244 | nothing is shown without the container; the error panel exists iff there are errors, lists the first min(n, 10) escaped, has an "and n-10 more" line iff n > 10, and together they account for all n; the warning panel shows the count and the first warning; the ready count is the number of valid projects |
| CsvImport.ShortErrorListShownWhole | js/app.js:216-223 | with one to ten errors, all of them are listed escaped, in order, with no "more" line |
| CsvImport.LongErrorListCapped | js/app.js:216-223 | with more than ten errors, exactly the first ten are listed escaped and the "more" line counts the other n-10 |
| CsvImport.HandleFileUpload | js/app.js:145-181 | the store never changes; the batch is validated and parked as pending iff a file was given, its type is accepted and it parsed; otherwise nothing changes |
| CsvImport.ImportValidatedData | js/app.js:246-265 | without a non-empty pending batch nothing changes and an error is reported; otherwise the store becomes the old store followed by the batch, pending is emptied and the reported count is the batch size |
| CsvImport.ImportConsumesPending | js/app.js:246-262 | a second import right after the first reports no data and changes nothing |
| CsvImport.UploadThenImport | js/app.js:246-264 | upload then import of a file with valid rows appends exactly the validated batch, in order, and reports its size |
| CsvImport.AllValidRowsImported | js/app.js:183-201 | a file of N rows that all pass validation adds N projects after the existing ones, in file order, and reports N |
| AuthSession.Logout | js/auth.js:87-108 | all three session keys are gone; the location is the login page; every other key is untouched; a backend logout carrying the refresh token is sent iff a refresh token was present |
| AuthSession.LogoutIdempotent | js/auth.js:87-108 | logging out again changes nothing and sends nothing |
| AuthSession.VerifyToken | js/auth.js:34-54 | the who-am-I request carries the bearer token; success stores the returned user and touches nothing else; any failure ends logged out |
| AuthSession.CheckAuth | js/auth.js:13-32 | on a page ending in landing.html or login.html nothing happens; elsewhere a missing token redirects to login.html without verifying, and a present token is verified |
| AuthSession.CheckAuthAfterLogout | js/auth.js:17-20 | the page-load check after logout lets the login page stay and sends nothing |
| AuthSession.RefreshTick | js/auth.js:57-84 | nothing happens unless both tokens are present; otherwise a refresh request carries the refresh token; success replaces both tokens with the returned pair and leaves the user and page alone; failure sends the logout call and ends logged out |
| AuthSession.RefreshAfterLogoutIsSilent | js/auth.js:58-61 | after logout the timer's ticks change nothing and send nothing |
| AuthSession.ApiCall | js/auth.js:217-236 | the request goes to the endpoint, with the bearer token in the default headers, or with the caller's headers in their place; a 401 logs out and raises Unauthorized; any other status is returned with the session untouched; a network failure raises with the session untouched |
| Rbac.GetUser | js/auth.js:110-113 | no user without a truthy stored entry; otherwise the decoded entry |
| Rbac.HasRole | js/auth.js:115-119 | true iff a user is stored and its role is among the given roles |
| Rbac.HasPermission | js/auth.js:121-132 | true iff a user is stored and the table grants the capability to its role; a role outside the table is granted nothing |
| Rbac.CapabilitiesNested | js/auth.js:125-129 | viewer capabilities are within editor's, and editor's within admin's |
| Rbac.OnlyAdminDeletesOrManages | js/auth.js:125-129 | only admin holds delete_project or manage_users |
| Rbac.TableIsHierarchy | js/auth.js:125-129 | the table is a three-level hierarchy: a role holds a capability iff both are known and the role ranks at least as high as the capability requires |
| Rbac.DenyWithoutUser | js/auth.js:115-123 | with no stored user both hasRole and hasPermission deny |
| Rbac.DenyUnknownRole | js/auth.js:131 | a stored user whose role is not in the table is denied every capability |
| Rbac.ApplyRbac | js/auth.js:134-160 | with no user nothing changes; otherwise the add button, import tab and manual-entry tab are shown iff add_project is granted, and delete buttons iff delete_project is granted, with the source's display values |
| Rbac.ControlsByRole | js/auth.js:138-159 | viewers see none of the add button, import tab and manual-entry tab; editors and admins see all three; only admins see delete buttons |
| Rbac.LogoutRevokesAccess | js/auth.js:101-136 | after logout every capability is denied and the access controls are left alone |
| Rbac.VerifiedUserGoverns | js/auth.js:46-49 | after successful verification the access checks read the user the backend returned |
| Rbac.RefreshKeepsAccess | js/auth.js:72-76 | a successful refresh does not change any capability |

## Left out

- DOM work, HTML strings, CSS and the logout button are not modelled. Only the visibility values of the gated controls are. These are UI side effects.
- `Papa.parse`, `Papa.unparse`, `FileReader`, `Blob` and download links are not modelled. They are foreign libraries and browser I/O. The parse outcome is a parameter.
- `downloadErrorReport` and `downloadTemplate` are not modelled. They only build CSV for download through `Papa.unparse`.
- The manual-entry form and `DataService.addProject` are not modelled. Their `parseFloat` is floating point, and the `DataService` bodies are not part of this model.
- `DataService.saveToStorage` after an import is not modelled. The store is the in-memory project list.
- The row rules of `Validator` and the escaping of `Sanitizer` are not modelled. Their bodies are not part of this model, so they are parameters.
- `fetch`, JSON bodies and the `setInterval` timer are not modelled. Backend answers are parameters and one timer firing is one atomic step. Overlapping asynchronous refreshes are concurrency and are not modelled.
- The in-memory `currentUser` field set by `verifyToken` is not modelled. No modelled operation reads it; `getUser` reads storage.
- Decoding the stored user is a parameter, so a `JSON.parse` that throws is not modelled.
- AuthSession.VerifyToken: does not model the `applyRBAC` call inside the `try` of `verifyToken`. In the source, a role that makes `hasPermission` throw (one naming an inherited property such as `constructor`) turns a successful verification into a logout after the user was stored. In the model the verification stays successful, because its role table never throws (see the next line).
- Rbac.HasPermission: does not model a role that names an inherited object property such as `constructor`. There the table lookup finds a non-array, so `includes` is missing and the call throws. The model denies instead, because roles come from the backend and the table is meant as a plain map.
- The seed project list, chart and map refreshes and toasts are not modelled. They are data and rendering only.
