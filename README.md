# HR portal: a Dafny model of its client-side logic

The HR portal is a small React application over a JSON REST store. Its sources provide screens for three roles:

- employees file leave and service requests;
- HR staff create employee records and approve, deny, start or resolve requests;
- an administrator sees aggregate figures.

The route table (`client/src/App.jsx`) mounts only part of these. It binds no path to the employee service-request screen, the HR service-request screen or the administrator dashboard. A sign-in as administrator navigates to `/admin` and HR's "Service Requests" button navigates to `/hr/service-requests`. Both paths fall through to `/login`. The three unmounted screens are modelled all the same, as the source defines them. The lemmas `AppRoutes.FallThrough`, `AppRoutes.UnroutedTargets` and `AppRoutes.AdminSeesOnlyOpenPages` state that they cannot be reached.

This project models the logic that runs in the browser and proves properties of it:

- **The request lifecycle and the store.** Creation always stamps `pending`. A status update patches one field of one record. The HR screens offer only forward transitions.
- **The list queries of the HR service-request screen:**
  - the two-field filter;
  - the stable comparator sort with its header-click toggle;
  - the sorted, de-duplicated request-type menu;
  - the CSV export.
- **The dashboards' status counts.**
- **Session and authorization:**
  - the signed-in user, kept in memory and in browser storage;
  - the route guard;
  - the route table;
  - the login dispatch;
  - the service-request form's validation.

Module layout, one file each:
- `wrappers`: `Option`, `Fetch` and `Result`.
- `text`: the JavaScript string operations used here.
- `counting`: `filter().length`.
- `records`: the record types and the pure record-list operations.
- `store`: the REST collections, as classes over a `seq` of records.
- `requests_api`, `employees_api`: the `api/` modules.
- `service_request_queries`: the pure parts of `HRServiceRequests.jsx`.
- One module per screen or component: `hr_service_requests`, `hr_leave_requests`, `employee_service_request`, `hr_dashboard`, `admin_dashboard`, `auth_context`, `protected_route`, `app_routes`, `login`, `status_badge`.

The component state of each screen is a class:
- its fields are the `useState` variables;
- its methods are the handlers, with `modifies` clauses;
- a handler's `await` on the store is a call to a store method that either succeeds or returns `Failed`.

How outside effects are modelled:
- **The clock.** `new Date().toISOString()` is the integer parameter `now`. `toLocaleDateString` is the function parameter `formatDate`.
- **Browser storage** is a class holding a `map` from keys to session users. The JSON round trip is treated as the identity.
- **The store** is modelled by its contract:
  - `POST` appends a record with a fresh id;
  - `PATCH` of an unknown id fails;
  - a query selects by exact match;
  - any request can fail, which the model writes as `available == false`.

Some descriptions of the portal list behaviour that the code does not have, and the model follows the code:
- Logging in does not write an activity log.
- Leave dates are not validated.
- The store does not refuse a status change from a terminal state. Only the screens' buttons keep to the lifecycle.
- HR and admin sign-in checks nothing beyond the fixed `admin`/`admin` pair.
- Employees needing attention are only counted, never sorted first.

## Model

| member | source | states |
|---|---|---|
| Records.WithStatus | client/src/pages/HRServiceRequests.jsx:32-34 | Same length. A record with the given id gets the new status and every other record is kept. |
| Records.WithStatusChangesOnlyStatus | client/src/api/serviceRequests.js:19-21 | The patch changes no id, owner, stamp or details, and ids stay unique, so at most one record is affected. |
| Records.WithStatusIdempotent | client/src/api/leaveRequests.js:19-21 | Patching the same status twice is the same as once. |
| Records.WithStatusAbsentId | client/src/pages/HRServiceRequests.jsx:32-34 | Patching an id that is not present changes nothing. |
| Records.SelectByEmployee | client/src/api/serviceRequests.js:7-9 | Selecting by `employeeId` never yields more records than the store holds. |
| Records.SelectByEmployeeSpec | client/src/api/serviceRequests.js:7-9 | Exact-match selection on `employeeId`: each record occurs as often as in the input if it matches, and not at all otherwise. |
| Records.SelectByEmployeeAppend | client/src/api/leaveRequests.js:7-9 | The selection keeps store order: it distributes over concatenation. |
| Records.SelectByEmail | client/src/api/employees.js:12 | Selecting by `email` never yields more records than the store holds. |
| Records.SelectByEmailSpec | client/src/api/employees.js:12 | Exact-match selection on `email`: each employee occurs as often as in the input if the address matches, and not at all otherwise. |
| Records.SelectByEmailAppend | client/src/api/employees.js:12 | The email selection distributes over concatenation. |
| Records.FindById | client/src/api/serviceRequests.js:20 | Finds the first index holding the id, and finds one exactly when the id is present. |
| Records.CountStatus2 | client/src/pages/EmployeeServiceRequest.jsx:147-155 | The counts of two different statuses add up to at most the number of requests. |
| Records.CountStatus3 | client/src/pages/AdminDashboard.jsx:29-32 | Three different status counts add up to at most the number of requests, and to exactly that number when every request has one of the three statuses. |
| Records.CountStatus | client/src/pages/HRDashboard.jsx:66-67 | `filter(r => r.status === s).length`. The count is at most the number of requests. Its exact values are stated by CountStatus2, CountStatus3 and CountStatusZeroIff. |
| Records.CountStatusZeroIff | client/src/pages/HRDashboard.jsx:66-67 | A status count is zero exactly when no request has that status. |
| Store.RequestStore.constructor | client/src/api/http.js:11-14 | A store starts with unique ids and a given availability. |
| Store.RequestStore.All | client/src/api/serviceRequests.js:3-5 | A read returns every record, or fails when the store is unavailable. |
| Store.RequestStore.ByEmployeeId | client/src/api/serviceRequests.js:7-9 | A read returns the exact-match selection on the owner, or fails. |
| Store.RequestStore.Create | client/src/api/http.js:16-23 | A `POST` appends the body under a fresh id and keeps ids unique. When the store is unavailable it fails and changes nothing. |
| Store.RequestStore.UpdateStatus | client/src/api/serviceRequests.js:19-21 | When the id is present and the store is available, a `PATCH` replaces the records by `WithStatus` and returns the patched record. Otherwise it fails and changes nothing. |
| Store.EmployeeStore.constructor | client/src/api/http.js:11-14 | An employee collection starts with unique ids. |
| Store.EmployeeStore.All | client/src/api/employees.js:3-5 | A read returns every employee, or fails. |
| Store.EmployeeStore.WithEmail | client/src/api/employees.js:12 | The `?email=` query returns the exact-match selection, or fails. |
| Store.EmployeeStore.Create | client/src/api/employees.js:16-18 | A `POST` appends the data under a fresh id, or fails and changes nothing. |
| RequestsApi.CreateBody | client/src/api/serviceRequests.js:11-17 | The spread-then-override body of both create calls, also at `client/src/api/leaveRequests.js:12-16`. Its contents are stated by CreateBodyContents and CreateBodyIgnoresCallerStatus. |
| RequestsApi.CreateBodyContents | client/src/api/serviceRequests.js:11-17 | A created body is pending and stamped with `now`, and keeps the caller's owner and details. |
| RequestsApi.CreateBodyIgnoresCallerStatus | client/src/api/leaveRequests.js:12-16 | The caller's own `status` and `createdAt` have no effect, because the overrides follow the spread. |
| RequestsApi.CreateRequest | client/src/api/serviceRequests.js:11-17 | When the store is available, the stored record is pending, stamped `now` and keeps the caller's fields. It is appended under an id no earlier record has. When the store is unavailable, the call fails and changes nothing. |
| RequestsApi.CreatedRequestListedLast | client/src/api/leaveRequests.js:7-17 | After a create, the owner's by-employee list is the old list plus the new record at the end. Every other list is unchanged. |
| RequestsApi.LeaveBodyKeepsFields | client/src/api/leaveRequests.js:11-17 | A leave body keeps the dates and the reason unchanged and is pending. |
| RequestsApi.ServiceBodyKeepsFields | client/src/api/serviceRequests.js:11-17 | A service body keeps the owner, name snapshot, type and description, and is pending. |
| EmployeesApi.FirstOrNull | client/src/api/employees.js:13 | The result is null exactly when the list is empty, and otherwise its first element. |
| EmployeesApi.GetEmployeeByEmail | client/src/api/employees.js:11-14 | The lookup is the first element of the exact-match email query, or null, or a failure when the store is unavailable. |
| EmployeesApi.FirstWithEmail | client/src/api/employees.js:12-13 | Finds the first index with the email, and finds none exactly when no employee has it. |
| EmployeesApi.LookupFindsFirst | client/src/api/employees.js:11-14 | The lookup returns the first employee in store order with that email, and null exactly when there is none. |
| EmployeesApi.CreateEmployee | client/src/api/employees.js:16-18 | The caller's data is stored unchanged under a fresh id. |
| ServiceRequestQueries.Matches | client/src/pages/HRServiceRequests.jsx:44-48 | The filter's test. Each filter is `all` or equals the request's field. |
| ServiceRequestQueries.FilterRequests | client/src/pages/HRServiceRequests.jsx:44-48 | Every kept request matches each filter not set to `all`, and the result is no longer than the input. |
| ServiceRequestQueries.FilterRequestsSpec | client/src/pages/HRServiceRequests.jsx:44-48 | Each request is kept exactly as often as it occurs if it matches both filters, and dropped otherwise. |
| ServiceRequestQueries.FilterAllIsIdentity | client/src/pages/HRServiceRequests.jsx:44-48 | With both filters at `all` the list is returned unchanged. |
| ServiceRequestQueries.FilterAppend | client/src/pages/HRServiceRequests.jsx:44-48 | The filter keeps input order: it distributes over concatenation. |
| ServiceRequestQueries.CountIsFilteredLength | client/src/pages/HRServiceRequests.jsx:133-142 | The Pending and Resolved cards equal the number of rows that the status filter would show for that status. |
| ServiceRequestQueries.NextSort | client/src/pages/HRServiceRequests.jsx:65-70 | The clicked column becomes the sort key. The direction is stated case by case by NextSortCases. |
| ServiceRequestQueries.NextSortCases | client/src/pages/HRServiceRequests.jsx:65-70 | A new column gives asc. The same column gives desc when it was asc and asc when it was desc, so a second click flips the direction. |
| ServiceRequestQueries.Less | client/src/pages/HRServiceRequests.jsx:60-61 | JavaScript's `<` on two key values: numbers numerically, strings by code unit, and false against `undefined`. LessAsymmetric and NotLessTransitive state its properties. |
| ServiceRequestQueries.LessAsymmetric | client/src/pages/HRServiceRequests.jsx:60-61 | JavaScript's `<` on key values is asymmetric. |
| ServiceRequestQueries.KeyOf | client/src/pages/HRServiceRequests.jsx:52-58 | The compared value of a column, with a missing `createdAt` read as 0 and a missing name as `undefined`. Its use in the order is stated by SortDirection. |
| ServiceRequestQueries.Compare | client/src/pages/HRServiceRequests.jsx:51-63 | The comparator returns -1, 0 or 1. Its meaning for each direction is stated by CompareMeaning. |
| ServiceRequestQueries.CompareMeaning | client/src/pages/HRServiceRequests.jsx:51-63 | The comparator lets `a` stay before `b` exactly when `b`'s key is not below `a`'s (asc), or not above it (desc). The sign is antisymmetric. |
| ServiceRequestQueries.NotLessTransitive | client/src/pages/HRServiceRequests.jsx:60-61 | "Not below" is transitive on the defined key values of one column. |
| ServiceRequestQueries.CompareTransitive | client/src/pages/HRServiceRequests.jsx:51-63 | When no key is `undefined`, the comparator's "not after" relation is transitive. |
| ServiceRequestQueries.InsertRequest | client/src/pages/HRServiceRequests.jsx:51 | An insertion step adds exactly one element to the multiset. |
| ServiceRequestQueries.SortRequests | client/src/pages/HRServiceRequests.jsx:51-63 | The sorted list is a permutation of the filtered list. |
| ServiceRequestQueries.InsertOrdered | client/src/pages/HRServiceRequests.jsx:51-63 | Inserting into an ordered list keeps it ordered. |
| ServiceRequestQueries.SortOrdered | client/src/pages/HRServiceRequests.jsx:51-63 | When the column has no missing value, the sorted list is ordered by the comparator. |
| ServiceRequestQueries.SortDirection | client/src/pages/HRServiceRequests.jsx:55-62 | When no key of the column is `undefined`, asc gives non-decreasing keys and desc gives non-increasing keys. A missing `createdAt` is instant 0. |
| ServiceRequestQueries.InsertStable | client/src/pages/HRServiceRequests.jsx:51 | An insertion step keeps the relative order of the elements that share a key value. |
| ServiceRequestQueries.SortStable | client/src/pages/HRServiceRequests.jsx:51-63 | The sort is stable: the requests sharing any one key value keep their filtered order. |
| ServiceRequestQueries.Visible | client/src/pages/HRServiceRequests.jsx:44-63 | The table rows are a permutation of the filtered list: each request appears as often as in the input when it matches the filters and not at all otherwise, and each row matches the filters. |
| ServiceRequestQueries.Dedup | client/src/pages/HRServiceRequests.jsx:41 | `new Set` gives a list free of duplicates with exactly the same members. |
| ServiceRequestQueries.NotLexLessTransitive | client/src/pages/HRServiceRequests.jsx:41 | "Not below" in string order is transitive. |
| ServiceRequestQueries.InsertString | client/src/pages/HRServiceRequests.jsx:41 | A string insertion step adds exactly one element. |
| ServiceRequestQueries.SortStrings | client/src/pages/HRServiceRequests.jsx:41 | The default sort permutes its input. |
| ServiceRequestQueries.InsertStringSorted | client/src/pages/HRServiceRequests.jsx:41 | Inserting keeps a list sorted. |
| ServiceRequestQueries.InsertStringDistinct | client/src/pages/HRServiceRequests.jsx:41 | Inserting an absent string keeps a list free of duplicates. |
| ServiceRequestQueries.SortStringsSorted | client/src/pages/HRServiceRequests.jsx:41 | The default sort gives a sorted list and keeps a duplicate-free list duplicate-free. |
| ServiceRequestQueries.Types | client/src/pages/HRServiceRequests.jsx:41 | The type column, position by position. |
| ServiceRequestQueries.UniqueTypes | client/src/pages/HRServiceRequests.jsx:41 | `[...new Set(types)].sort()`. What it holds and its order are stated by UniqueTypesSpec. |
| ServiceRequestQueries.UniqueTypesSpec | client/src/pages/HRServiceRequests.jsx:41 | The type menu is strictly increasing, so sorted and duplicate-free, and holds exactly the request types present. |
| ServiceRequestQueries.NameCell | client/src/pages/HRServiceRequests.jsx:87 | A missing or empty name becomes `Unknown`. Any other name is kept. |
| ServiceRequestQueries.CsvCells | client/src/pages/HRServiceRequests.jsx:85-92 | A row has one cell per header. |
| ServiceRequestQueries.Quote | client/src/pages/HRServiceRequests.jsx:96 | The template `"${cell}"`: the cell between two double quotes, with nothing inside escaped. CsvQuotesNotEscaped shows what that allows. |
| ServiceRequestQueries.QuoteAll | client/src/pages/HRServiceRequests.jsx:96 | Every cell is wrapped in double quotes. |
| ServiceRequestQueries.CsvRow | client/src/pages/HRServiceRequests.jsx:85-96 | One request's line: its six cells, each quoted, joined by commas. Its splitting is stated by CsvRowHasSixCells and CsvQuotesNotEscaped. |
| ServiceRequestQueries.CsvLines | client/src/pages/HRServiceRequests.jsx:94-97 | The header line is first, followed by the row of each sorted request in order. |
| ServiceRequestQueries.Csv | client/src/pages/HRServiceRequests.jsx:94-97 | The exported content: its lines joined by line breaks. Its line structure is stated by CsvSplitsIntoLines. |
| ServiceRequestQueries.CsvHeaderLine | client/src/pages/HRServiceRequests.jsx:84-95 | The header line has no quotes and splits into the six column names. |
| ServiceRequestQueries.CsvSplitsIntoLines | client/src/pages/HRServiceRequests.jsx:94-97 | When no cell holds a line break, the file splits back into exactly the header plus one line per request. |
| ServiceRequestQueries.RowAvoids | client/src/pages/HRServiceRequests.jsx:96 | A row holds a character other than `"` and `,` only where a cell holds it. |
| ServiceRequestQueries.JoinAvoids | client/src/pages/HRServiceRequests.jsx:95-96 | `join` introduces only its separator. |
| ServiceRequestQueries.CsvRowHasSixCells | client/src/pages/HRServiceRequests.jsx:96 | When no cell holds a comma, a row splits back into its six quoted cells. |
| ServiceRequestQueries.QuotedPairShift | client/src/pages/HRServiceRequests.jsx:96 | Moving text across a `","` between two quoted cells leaves the joined text unchanged. |
| ServiceRequestQueries.JoinShift | client/src/pages/HRServiceRequests.jsx:96 | The joined row depends only on the text, not on where the cell boundaries fall at a `","`. |
| ServiceRequestQueries.SameRowWhenShifted | client/src/pages/HRServiceRequests.jsx:96 | Two requests whose name and type differ only by a `","` shifted between them give the same row. |
| ServiceRequestQueries.CsvQuotesNotEscaped | client/src/pages/HRServiceRequests.jsx:96 | Two different requests produce the same CSV row, because embedded quotes are not doubled as RFC 4180 section 2 rule 7 requires. The row therefore cannot be decoded. |
| HRServiceRequests.ServiceActions | client/src/pages/HRServiceRequests.jsx:215-241 | At most two targets are offered. None of them is `pending` or the current status. The exact set is stated by OfferedTransitions. |
| HRServiceRequests.OfferedTransitions | client/src/pages/HRServiceRequests.jsx:215-241 | The offered changes are exactly pending→in-progress, pending→resolved and in-progress→resolved. `resolved` offers none. |
| HRServiceRequests.OfferedPathsMoveForward | client/src/pages/HRServiceRequests.jsx:215-241 | Along any chain of offered changes the stage strictly increases. A chain visits at most three statuses, and nothing follows `resolved`. |
| HRServiceRequests.ServiceRequestsScreen.constructor | client/src/pages/HRServiceRequests.jsx:7-12 | The initial state: no requests, loading, sort by `createdAt` desc, both filters `all`. |
| HRServiceRequests.ServiceRequestsScreen.FetchServiceRequests | client/src/pages/HRServiceRequests.jsx:18-27 | The list becomes the store's records, or on failure it is kept and the message is set. Loading ends either way. |
| HRServiceRequests.ServiceRequestsScreen.HandleStatusUpdate | client/src/pages/HRServiceRequests.jsx:29-38 | On success the store and the screen list are both patched by `WithStatus`, so a screen in step with the store stays in step. On failure the list is untouched and the message is set. |
| HRServiceRequests.ServiceRequestsScreen.HandleSort | client/src/pages/HRServiceRequests.jsx:65-70 | The sort config becomes `NextSort` of the old one. |
| HRServiceRequests.ServiceRequestsScreen.Shown | client/src/pages/HRServiceRequests.jsx:44-63 | The table rows are Visible of the screen's state. Their properties are stated by Visible, SortStable and SortOrdered. |
| HRServiceRequests.ServiceRequestsScreen.ExportCsv | client/src/pages/HRServiceRequests.jsx:83-97 | The export is built from the rows as shown, in their sorted order. |
| HRServiceRequests.ServiceRequestsScreen.Summary | client/src/pages/HRServiceRequests.jsx:131-144 | Total is the list length, and Pending and Resolved are exact status counts whose sum is at most the total. |
| HRLeaveRequests.LeaveActions | client/src/pages/HRLeaveRequests.jsx:78-93 | At most two targets are offered. None of them is `pending` or the current status. The exact set is stated by LeaveActionsSpec. |
| HRLeaveRequests.LeaveActionsSpec | client/src/pages/HRLeaveRequests.jsx:78-93 | Approve (`approved`) and Reject (`denied`) are offered exactly when the request is pending. Approved and denied requests offer nothing. |
| HRLeaveRequests.EmployeeName | client/src/pages/HRLeaveRequests.jsx:41-44 | The result is the name of the first employee with that id, or `Unknown` when none has it. |
| HRLeaveRequests.LeaveRequestsScreen.RowName | client/src/pages/HRLeaveRequests.jsx:41-44 | A row's Employee column is EmployeeName over the screen's employee list. |
| HRLeaveRequests.LeaveRequestsScreen.constructor | client/src/pages/HRLeaveRequests.jsx:7-10 | The initial state: empty lists, loading, no message. |
| HRLeaveRequests.LeaveRequestsScreen.FetchData | client/src/pages/HRLeaveRequests.jsx:16-30 | Both lists are replaced only when both reads succeed. Otherwise both are kept and the message is set. Loading ends either way. |
| HRLeaveRequests.LeaveRequestsScreen.HandleStatusUpdate | client/src/pages/HRLeaveRequests.jsx:32-39 | On success the store is patched and both lists are re-read, not patched locally. On failure the store and both lists are unchanged and the message is set. |
| EmployeeServiceRequest.Validate | client/src/pages/EmployeeServiceRequest.jsx:56-64 | The only messages are the type message and the description message. Their order and conditions are stated by ValidateSpec. |
| EmployeeServiceRequest.ValidateSpec | client/src/pages/EmployeeServiceRequest.jsx:56-64 | An empty type gives the type message, and it is checked first. An all-white-space description gives the description message. A form passes exactly when the type is non-empty and the description has a non-space character. |
| EmployeeServiceRequest.TypeNotCheckedAgainstMenu | client/src/pages/EmployeeServiceRequest.jsx:6-15 | A type that is not one of the menu's choices passes validation. |
| EmployeeServiceRequest.SubmittedInput | client/src/pages/EmployeeServiceRequest.jsx:69-74 | The submission carries the user's id, the user's name, the type and the untrimmed description. |
| EmployeeServiceRequest.ServiceRequestScreen.constructor | client/src/pages/EmployeeServiceRequest.jsx:20-28 | The initial state: an empty form, not submitting, no requests, requests loading. |
| EmployeeServiceRequest.ServiceRequestScreen.FetchRequests | client/src/pages/EmployeeServiceRequest.jsx:34-45 | For a user with a non-zero id, the list becomes their own requests, or is kept when the read fails, and loading ends. With no such user nothing changes. |
| EmployeeServiceRequest.ServiceRequestScreen.HandleSubmit | client/src/pages/EmployeeServiceRequest.jsx:52-84 | A validation failure sets only its message: no create, no loading. A successful create sets the success flag, resets the form and re-reads the user's list. A failed create, or one with no user, sets the failure message and keeps the form. `isLoading` is false afterwards. |
| EmployeeServiceRequest.ServiceRequestScreen.Submit | client/src/pages/EmployeeServiceRequest.jsx:68-81 | For a signed-in user: a successful create sets the success flag, resets the form and re-reads the user's list. A failed create sets the failure message and keeps the form. |
| EmployeeServiceRequest.ServiceRequestScreen.Summary | client/src/pages/EmployeeServiceRequest.jsx:147-155 | Total is the list length, and Pending plus Resolved is at most the total. |
| EmployeeServiceRequest.SubmittedRequestIsListed | client/src/pages/EmployeeServiceRequest.jsx:75-77 | After a submission, the re-read list ends with the new request, which is pending. |
| HRDashboard.NeedsAttention | client/src/pages/HRDashboard.jsx:60 | No status (`!emp.status`), or an empty one (`emp.status === ''`). CreatedStatusSpec and AttentionCardSpec use it. |
| HRDashboard.IsActive | client/src/pages/HRDashboard.jsx:61 | The status is exactly `Active`. ComputeStats counts it and AttentionCardSpec states when the count is zero. |
| HRDashboard.ComputeStats | client/src/pages/HRDashboard.jsx:52-75 | Total is the number of employees. Active is the number of employees whose status is `Active`. Needs-attention is the number with no status or an empty one. Their sum is at most the total. Each pending figure is the exact status count and at most its list's length. |
| HRDashboard.AttentionCardSpec | client/src/pages/HRDashboard.jsx:137 | The Needs Attention card appears exactly when some employee has no status or an empty one. |
| HRDashboard.CreatedStatusSpec | client/src/pages/HRDashboard.jsx:7-15 | The default status is a menu choice. An employee created with a menu status never needs attention, and one created with no status (a sign-up) always does. |
| HRDashboard.SetField | client/src/pages/HRDashboard.jsx:77-80 | `{ ...prev, [name]: value }` on the eight form fields. That it replaces one field and keeps a menu status is stated by HandleInputChange. |
| HRDashboard.HRDashboardScreen.constructor | client/src/pages/HRDashboard.jsx:26-46 | The initial state: dialog closed, zero figures, form at its defaults. |
| HRDashboard.HRDashboardScreen.FetchStats | client/src/pages/HRDashboard.jsx:52-75 | The figures are replaced only when all three reads succeed. Loading ends either way. |
| HRDashboard.HRDashboardScreen.HandleInputChange | client/src/pages/HRDashboard.jsx:77-80 | One field is replaced, and the status stays a menu choice. |
| HRDashboard.HRDashboardScreen.OpenModal | client/src/pages/HRDashboard.jsx:152 | The dialog opens. |
| HRDashboard.HRDashboardScreen.CloseModal | client/src/pages/HRDashboard.jsx:182 | The dialog closes and what was typed is kept. |
| HRDashboard.HRDashboardScreen.Added | client/src/pages/HRDashboard.jsx:89-100 | The dialog closes, the form returns to its defaults and the figures are refreshed: replaced when all three reads succeed, kept otherwise. |
| HRDashboard.HRDashboardScreen.HandleSubmit | client/src/pages/HRDashboard.jsx:82-106 | On success the form is stored unchanged, the dialog closes, the form resets and the figures are refreshed, and the new employee does not need attention. On failure the dialog and the form are kept and the message is set. |
| AdminDashboard.ComputeStats | client/src/pages/AdminDashboard.jsx:27-33 | The totals are the list lengths, and the other figures are exact status counts. |
| AdminDashboard.StatusFiguresSpec | client/src/pages/AdminDashboard.jsx:29-32 | Pending plus approved plus denied is at most the total, and equals it when every status is one of the three. |
| AdminDashboard.AfterFetch | client/src/pages/AdminDashboard.jsx:10-42 | A failed fetch leaves the figures at zero, and loading is off either way. |
| AuthContext.LocalStorage.constructor | client/src/context/AuthContext.jsx:9-26 | The browser's `localStorage` starts with the given entries. The provider reads, writes and removes its `hrPortalUser` entry (Restore, Login, Logout). |
| AuthContext.AuthProvider.constructor | client/src/context/AuthContext.jsx:6-7 | The provider starts with no user and loading. |
| AuthContext.AuthProvider.Restore | client/src/context/AuthContext.jsx:9-15 | The user becomes the stored session when the key is present, and otherwise stays none. Loading ends. Afterwards memory and storage agree. |
| AuthContext.AuthProvider.Login | client/src/context/AuthContext.jsx:17-21 | The user becomes the account with the given role, replacing any earlier session. That same value is stored under `hrPortalUser`. |
| AuthContext.AuthProvider.Logout | client/src/context/AuthContext.jsx:23-26 | The user becomes none and the key is removed. Other keys are kept. |
| AuthContext.AuthProvider.Value | client/src/context/AuthContext.jsx:28-34 | `isAuthenticated` holds exactly when there is a user. |
| AuthContext.ReloadAfterLogin | client/src/context/AuthContext.jsx:9-26 | A provider mounted after a login restores the same user, and one mounted after a logout restores none. |
| AuthContext.UseAuth | client/src/context/AuthContext.jsx:39-45 | The hook returns the provider's value, or the error outside a provider. |
| ProtectedRoute.Restricts | client/src/components/ProtectedRoute.jsx:15 | The truthiness of `allowedRole`: present and non-empty. GuardSpec states its effect. |
| ProtectedRoute.Guard | client/src/components/ProtectedRoute.jsx:7-19 | Every redirect goes to `/login`. The full decision is stated by GuardSpec. |
| ProtectedRoute.GuardSpec | client/src/components/ProtectedRoute.jsx:7-19 | While loading, only the placeholder is shown. The children render exactly when not loading, signed in, and any non-empty allowed role equals the user's role. Every redirect goes to `/login`. |
| ProtectedRoute.GuardKeepsRolesApart | client/src/components/ProtectedRoute.jsx:15-17 | A user with another role is redirected, with no role hierarchy, so `admin` is refused on `hr`. |
| AppRoutes.RouteFor | client/src/App.jsx:21-91 | The route each path matches. A redirect always targets `/login`. |
| AppRoutes.Visit | client/src/App.jsx:21-91 | The route's page, the guard's placeholder or a redirect. Which one is stated by VisitSpec. |
| AppRoutes.VisitSpec | client/src/App.jsx:21-91 | Employee pages are shown only to a restored `employee` session and HR pages only to an `hr` one. Open pages are shown to anyone. Every redirect goes to `/login`, and any path outside the eleven listed is redirected there whatever the session. |
| AppRoutes.FallThrough | client/src/App.jsx:89-90 | A path gets the `/login` redirect exactly when it is not one of the eleven listed paths. This covers `/` and the catch-all. |
| AppRoutes.UnroutedTargets | client/src/App.jsx:89-90 | `/`, `/admin` (where the administrator's sign-in lands) and `/hr/service-requests` (the HR dashboard's button target) all redirect to `/login`. |
| AppRoutes.AdminSeesOnlyOpenPages | client/src/App.jsx:25-90 | An `admin` session sees only the open pages, and `/admin` itself falls through to `/login`. |
| AppRoutes.GuardedRolesSpec | client/src/App.jsx:25-88 | Every guarded route asks for `employee` or `hr`, and `employee` exactly for the employee pages. |
| Login.Dispatch | client/src/pages/Login.jsx:21-47 | The branch a submission takes. Its order is stated by DispatchSpec. |
| Login.DispatchSpec | client/src/pages/Login.jsx:21-47 | `admin`/`admin` wins whatever the radio says. Otherwise the `hr` radio signs in HR with no credential check, and otherwise the username is looked up as an email. The password decides nothing outside the admin branch. |
| Login.LoginScreen.constructor | client/src/pages/Login.jsx:7-12 | The initial state: empty fields, role `employee`, no message. |
| Login.LoginScreen.HandleSubmit | client/src/pages/Login.jsx:16-52 | Admin and HR sign in their fixed identities. A found employee is signed in with role `employee`, and each of the three goes to its page with the spinner left on. An unknown email or a failed lookup sets its message, stops the spinner and leaves the session and storage unchanged. |
| StatusBadge.BadgeClass | client/src/components/StatusBadge.jsx:2-12 | `approved` and `denied` have their own class, and every other status has the pending one. |
| StatusBadge.Label | client/src/components/StatusBadge.jsx:14 | The label is the status upper-cased, character by character. |
| StatusBadge.BadgeSpec | client/src/components/StatusBadge.jsx:2-14 | There are three classes, and `in-progress`, `resolved` and `pending` share one. Upper-casing twice changes nothing more. |
| Text.TrimStart | client/src/pages/EmployeeServiceRequest.jsx:61 | The first half of `trim()`: a suffix of the input that does not start with white space, with only white space cut off. |
| Text.TrimEnd | client/src/pages/EmployeeServiceRequest.jsx:61 | The second half of `trim()`: a prefix of the input that does not end with white space, with only white space cut off. |
| Text.Trim | client/src/pages/EmployeeServiceRequest.jsx:61 | `trim()` is a slice of its input that neither starts nor ends with white space, and everything cut off on either side is white space. |
| Text.UpperChar | client/src/components/StatusBadge.jsx:14 | Upper-casing one character never leaves a lower-case ASCII letter, and any character that is not one is kept. |
| Text.ToUpper | client/src/components/StatusBadge.jsx:14 | `toUpperCase()` keeps the length and upper-cases character by character. |
| Counting.Count | client/src/pages/HRDashboard.jsx:60-61 | `filter(p).length` is at most the list's length. CountAppend and CountZeroIff state how it adds up and when it is zero. |
| Text.TrimEmptyIff | client/src/pages/EmployeeServiceRequest.jsx:61 | `trim()` gives the empty string exactly when every character is white space. |
| Text.NatToString | client/src/pages/HRServiceRequests.jsx:86 | An id's cell is a non-empty string of decimal digits. NatToStringRoundTrip states that it reads back as the id. |
| Text.Join | client/src/pages/HRServiceRequests.jsx:94-97 | `join(sep)`. SplitJoin states that splitting gives back the parts, and JoinAvoids that only the separator is added. |
| Text.NatToStringRoundTrip | client/src/pages/HRServiceRequests.jsx:86 | The decimal text of an id reads back as the id. |
| Text.SplitJoin | client/src/pages/HRServiceRequests.jsx:94-97 | Splitting a join at its separator gives back the parts, when no part holds the separator. |
| Text.LexTransitive | client/src/pages/HRServiceRequests.jsx:41 | JavaScript's string order is transitive. |
| Text.LexTotal | client/src/pages/HRServiceRequests.jsx:41 | Two different strings are ordered one way or the other. |

## Left out

- Transport. `fetch`, HTTP status handling and JSON decoding in `client/src/api/http.js` are I/O. The store is modelled by its contract, and any failure is the `Failed` outcome.
- The store's own behaviour. The model assigns ids by a counter; json-server's id scheme and query matching are outside the model.
- `client/src/api/activityLogs.js` is not part of this model. No modelled screen uses it.
- `getEmployeeById` (`client/src/api/employees.js:7-9`) is not called by any modelled screen and is left out.
- The clock and the locale are parameters. The CSV file name's date is left out.
- DOM effects are left out: the Blob download, timers for redirects and banners, the `navigate` calls, and the dismissal of the success banner.
- The login redirect is kept as the page the timer will navigate to.
- `Promise.all` runs its reads in parallel. The model reads them one after another, which gives the same outcome in a sequential model.
- Three re-reads after a write are started without `await`: `fetchData()` after a leave status change (`client/src/pages/HRLeaveRequests.jsx:32-39`), `fetchRequests()` after a service request is created (`client/src/pages/EmployeeServiceRequest.jsx:75-77`) and `fetchStats()` after an employee is added (`client/src/pages/HRDashboard.jsx:89-100`). The model runs each one to completion inside its handler (LeaveRequestsScreen.HandleStatusUpdate, ServiceRequestScreen.Submit and HRDashboardScreen.Added). The final state is the same in a sequential model. The interleaving of the pending re-read with later events is not captured.
- Rendering is left out. This covers the markup, the sort-direction icons and the HR service screen's own inline badge class (`client/src/pages/HRServiceRequests.jsx:77-80`). The NavBar is static links, and the display-only pages are About, the two policy pages, EmployeeProfile and HREmployees.
- The form-forwarding screens (Signup, EmployeeDashboard, EmployeeLeaveRequest) are left out. Their requests go through `RequestsApi.CreateRequest` and `EmployeesApi.CreateEmployee`, which are modelled.
- EmployeeEditProfile calls an `updateEmployee` that the employee API does not export, and it is not routed. It is left out.
- The admin dashboard's logout button is left out. It is `AuthProvider.Logout` followed by a navigation.
- Concurrency between sessions, stale reads and last-writer-wins are outside a sequential model.
- Route matching is exact string equality. React Router's case-insensitive matching and trailing-slash tolerance are not modelled.
- ServiceRequestQueries.SortDirection: the key order is proved only when no key of the column is `undefined`, for the reason given on the SortOrdered line below.
- ServiceRequestQueries.SortOrdered: ordering is proved only when no request in the column has `undefined` for that key, which only a missing `employeeName` can produce. With an `undefined` key the comparator is not a consistent order, and the engine's result then depends on its algorithm. Stability and permutation are proved for every input.
- Ids are natural numbers compared numerically. A store that returned string ids would sort and compare them as strings.
- Text.UpperChar: `toUpperCase` is modelled for ASCII letters only. Other characters are left unchanged, which differs from JavaScript for non-ASCII letters.
- Strings are sequences of Unicode characters, where JavaScript uses UTF-16 code units. String order and `trim` agree with JavaScript for characters in the Basic Multilingual Plane.
- HRDashboard.HRDashboardScreen.HandleInputChange requires the status and employment type to be choices of their menus. The handler accepts any value, but the form's `<select>` elements offer only those choices.
- A stored session whose JSON is malformed makes the restore effect throw. The model keeps only well-formed sessions in storage.
