# eval-360-react, modelled in Dafny

eval-360-react is a small 360-degree evaluation web application. An admin manages the
employee list and writes evaluations. One evaluation is flagged "current", and an
employee answers it. A dashboard charts the collected answers, and a calendar marks the
evaluations' due dates. All data lives in a hosted JSON store that is read with GET and
overwritten with PUT. Sign-in compares a SHA-256 password hash with the stored employee
records and issues a signed token that gates the routes.

This project models the logic inside the application's event handlers and services:

- the dashboard's yes/no tally and its per-author leadership averages;
- the calendar's due-date matching;
- the evaluation editor (drafting, saving, deleting, choosing the current evaluation);
- the response form (finding the current evaluation, the completeness check, the answer map);
- the employee page, service and hook (email pattern, form checks, the list a save sends,
  the delete filter, how each call settles);
- the session (credential check, login, logout, `useAuth`), the route guard, the route
  table, the side menu;
- the profile page's history filter and dark-mode switch.

Components whose state changes step by step are classes whose methods state the whole new
state. The calculations they rely on are functions, and lemmas prove what those
functions promise.

External effects are inputs:

- an HTTP call's outcome is a `Response` (ok with its `record`, not ok, or a rejected fetch);
- an `async` call's result is a `Settled` (a value, `undefined`, or a rejection);
- SHA-256 and JWT signing are function parameters;
- `Date.now()` is a number parameter;
- a calendar `Date` carries its `toISOString().slice(0, 10)` day key.

Each handler is one atomic step over the state it reads, as a React closure sees it.

Files, one module each:

- `js.dfy`: JavaScript's `filter`, `find`, `some` and `trim`/`\s`, plus the outcome types.
- `types.dfy`: the records of `src/types.ts`.
- The rest follow the source files: `dashboard.dfy`, `calendar.dfy`, `evaluations.dfy`,
  `evaluation_service.dfy`, `evaluation_form.dfy`, `employees.dfy`, `employee_service.dfy`,
  `use_employees.dfy`, `auth_context.dfy`, `private_route.dfy`, `app.dfy`, `header.dfy`,
  `profile.dfy`.

## Model

| member | source | states |
|---|---|---|
| Dashboard.GroupByAnswer | src/components/Dashboard.tsx:40-50 | The two counters together never exceed the number of responses. |
| Dashboard.GroupByAnswerCounts | src/components/Dashboard.tsx:43-45 | `yes` is the number of responses whose answer to the question is exactly the string 'si', and `no` the number answering exactly 'no'. A missing answer, 'Sí' or a number counts in neither. |
| Dashboard.GroupByAnswerNoMatches | src/components/Dashboard.tsx:41-49 | Without any 'si' or 'no' answer (in particular without responses) the tally is {yes: 0, no: 0}. |
| Dashboard.Score | src/components/Dashboard.tsx:57-60 | A response scores exactly when its leadership answer is a number other than NaN. A string such as '7' never scores. |
| Dashboard.ScoredAuthorsExact | src/components/Dashboard.tsx:60-76 | An author appears among the map's keys exactly when they gave at least one numeric answer. No author appears twice, so repeated authors are merged. |
| Dashboard.NoScoreNoTotal | src/components/Dashboard.tsx:60-74 | An author without a numeric answer has a total of zero. |
| Dashboard.AccumulateLeadership | src/components/Dashboard.tsx:53-76 | The `forEach` leaves the map's keys in first-appearance order of scoring authors. Each entry holds the author, the sum of their numeric answers and how many there were. |
| Dashboard.LeadershipScores | src/components/Dashboard.tsx:79-82 | There is one score per scoring author, in first-appearance order. Each value is total / count with count at least 1, so the 0 fallback is never taken. |
| Calendar.EvaluationsOn | src/components/CalendarComponent.tsx:45-47 | Only evaluations of the input whose due date is the day key are kept. |
| Calendar.EvaluationsOnExact | src/components/CalendarComponent.tsx:45-47 | Each evaluation due that day is kept as often as it occurs, every other one is dropped, and the original order is kept. |
| Calendar.TileContent | src/components/CalendarComponent.tsx:60-66 | The red dot is shown exactly when some evaluation is due on the tile's day; otherwise null. |
| Calendar.TileClassName | src/components/CalendarComponent.tsx:68-78 | The class is 'highlight-red' exactly when some evaluation is due on the tile's day; otherwise null. |
| Calendar.MarkersAgree | src/components/CalendarComponent.tsx:42-78 | For one day, the dot is shown exactly when the class is set, and exactly when clicking the day lists at least one evaluation. |
| Calendar.CalendarView.constructor | src/components/CalendarComponent.tsx:11-14 | Initially there are no evaluations, no selected day, no listed evaluations, and the modal is closed. |
| Calendar.CalendarView.Load | src/components/CalendarComponent.tsx:17-39 | An ok response replaces the evaluations; a failure changes nothing. |
| Calendar.CalendarView.HandleDateClick | src/components/CalendarComponent.tsx:42-52 | Lists exactly the evaluations due on the clicked day, selects that day and opens the modal. The evaluations are unchanged. |
| Calendar.CalendarView.CloseModal | src/components/CalendarComponent.tsx:55-57 | Only the modal closes; the selection and the listed evaluations are unchanged. |
| EvaluationService.WithoutEvaluation | src/services/evaluationService.ts:26 | Every kept evaluation comes from the input and has another id. |
| EvaluationService.WithoutEvaluationExact | src/services/evaluationService.ts:26 | Exactly the evaluations with another id are kept, each as often as it occurs, in order. |
| EvaluationService.WithoutAbsentEvaluation | src/services/evaluationService.ts:26 | Deleting an id no evaluation has returns the input unchanged. |
| EvaluationService.WithoutEvaluationIdempotent | src/services/evaluationService.ts:26 | Deleting the same id twice equals deleting it once. |
| EvaluationService.FetchEvaluations | src/services/evaluationService.ts:4-23 | Resolves to the record exactly when the response is ok. Any failure resolves to `undefined`; it never rejects. |
| EvaluationService.DeleteEvaluation | src/services/evaluationService.ts:25-47 | Resolves to the filtered list exactly when the response is ok. Otherwise it resolves to `undefined`; it never rejects. |
| Evaluations.EmptyEvaluation | src/components/Evaluations.tsx:142 | A reset draft evaluation has an empty title, no questions, is not current and has no due date. |
| Evaluations.EmptyQuestion | src/components/Evaluations.tsx:98 | A reset draft question is of type 'text', has an empty label and no options. |
| Evaluations.ClearCurrent | src/components/Evaluations.tsx:107-110 | Same length; each entry is the original with its flag cleared. |
| Evaluations.ToggleCurrent | src/components/Evaluations.tsx:201-206 | Same length and order; each entry is the original with its flag set exactly when its id is the chosen one. |
| Evaluations.ToggleCurrentSingle | src/components/Evaluations.tsx:202-206 | With distinct ids, the ids are unchanged and at most one evaluation is current. A current one has the chosen id, and when that id is present, exactly its position is current. |
| Evaluations.SaveBody | src/components/Evaluations.tsx:124 | The list sent is the stored list unchanged, followed by the draft. |
| Evaluations.SaveBodyKeepsOldCurrent | src/components/Evaluations.tsx:107-124 | Saving a draft whose flag was never set leaves the current evaluations exactly as stored, whatever the switch says. |
| Evaluations.SaveBodyCounterexample | src/components/Evaluations.tsx:107-124 | With one current stored evaluation and the switch on, the list sent keeps the old one current and the new one not. |
| Evaluations.IntendedSaveBody | src/components/Evaluations.tsx:106-110 | The intended save: the draft is appended carrying the switch's value. |
| Evaluations.IntendedSaveBodyCurrent | src/components/Evaluations.tsx:106-110 | With the switch on, the intended list has exactly one current evaluation, the new one. With it off, the current evaluations are those stored. |
| Evaluations.EvaluationsEditor.constructor | src/components/Evaluations.tsx:36-48 | Initial editor state: no evaluations, form closed, empty drafts, no error, switch off. |
| Evaluations.EvaluationsEditor.HandleCreateEvaluation | src/components/Evaluations.tsx:70-72 | Only opens the form. |
| Evaluations.EvaluationsEditor.SetTitle | src/components/Evaluations.tsx:231 | Only the draft's title changes. |
| Evaluations.EvaluationsEditor.ToggleCurrentSwitch | src/components/Evaluations.tsx:242 | The switch flips, and the draft's own flag stays false. |
| Evaluations.EvaluationsEditor.SetQuestionDraft | src/components/Evaluations.tsx:252 | Only the draft question's type and label change. |
| Evaluations.EvaluationsEditor.HandleOptionChange | src/components/Evaluations.tsx:74-76 | Only the option input changes. |
| Evaluations.EvaluationsEditor.HandleAddOption | src/components/Evaluations.tsx:78-86 | Whitespace-only input is ignored. Otherwise the untrimmed input is appended to the options (the list is created if absent) and the input is cleared. |
| Evaluations.EvaluationsEditor.HandleAddQuestion | src/components/Evaluations.tsx:88-102 | A whitespace-only label only sets the error. Otherwise the draft question is appended to the evaluation and to `questions`, the error and option input are cleared, and a fresh 'text' question is drafted. |
| Evaluations.EvaluationsEditor.HandleSaveEvaluation | src/components/Evaluations.tsx:104-147 | The title error is checked before the no-questions error, and neither sends anything. The list sent is the pre-clear list plus the draft. Only an ok response adopts it and resets the form. The flag-cleared copy stays on every other path. |
| Evaluations.EvaluationsEditor.HandleCancel | src/components/Evaluations.tsx:149-153 | Closes the form, resets the draft evaluation and clears the error; the draft question is kept. |
| Evaluations.EvaluationsEditor.HandleDeleteEvaluation | src/components/Evaluations.tsx:155-177 | Sends the list without that id and adopts it only on an ok response. |
| Evaluations.EvaluationsEditor.HandleToggleCurrent | src/components/Evaluations.tsx:179-208 | Sends the toggled list and adopts the stored record only on an ok response. |
| EvaluationForm.CurrentEvaluation | src/components/EvaluationForm.tsx:41-42 | A shown evaluation comes from the list and is current. |
| EvaluationForm.CurrentEvaluationFirst | src/components/EvaluationForm.tsx:41-42 | The form shows the first current evaluation, and none exactly when no evaluation is current. |
| EvaluationForm.FormShowsToggledEvaluation | src/components/EvaluationForm.tsx:41-42 | After the admin chooses an evaluation (with distinct ids), the form shows exactly that evaluation. |
| EvaluationForm.AnswersKeys | src/components/EvaluationForm.tsx:75-82 | A label is a key of the answers exactly when some question with that label has a non-empty response. |
| EvaluationForm.AnswersLastWins | src/components/EvaluationForm.tsx:75-81 | The value is the untrimmed response of the last question with that label and a non-empty response. |
| EvaluationForm.BuildAnswers | src/components/EvaluationForm.tsx:71-82 | The `forEach` builds exactly the answer map of the questions in order. |
| EvaluationForm.AsStored | src/components/EvaluationForm.tsx:91 | A sent record keeps its author and its answer labels, each answer a string. |
| EvaluationForm.StoredAnswersAreNotScores | src/components/EvaluationForm.tsx:71-91 | Records sent by the form never give the dashboard a leadership score, because every answer is a string. |
| EvaluationForm.SubmittedAnswersComplete | src/components/EvaluationForm.tsx:63-82 | When the check passes, every question's label is a key of the answers sent. |
| EvaluationForm.ResponseForm.constructor | src/components/EvaluationForm.tsx:26-28 | No evaluation, no responses, loading. |
| EvaluationForm.ResponseForm.Load | src/components/EvaluationForm.tsx:32-51 | An ok body shows its first current evaluation, or none. A body without a record and a rejected fetch leave it as it was. Loading ends either way. |
| EvaluationForm.ResponseForm.HandleResponseChange | src/components/EvaluationForm.tsx:54-56 | Sets one response; every other key and value is unchanged. |
| EvaluationForm.ResponseForm.Cancel | src/components/EvaluationForm.tsx:160 | All responses are dropped. |
| EvaluationForm.AllFieldsFilled | src/components/EvaluationForm.tsx:63-67 | The submit check fails without an evaluation. When it passes, every question's response is non-empty, so the answer loop keeps each one. |
| EvaluationForm.ResponseForm.HandleSubmit | src/components/EvaluationForm.tsx:59-91 | Blocked exactly when there is no evaluation or some question lacks a non-blank response; an empty question list passes. Otherwise it sends title, stored name (or '') and the answer map. |
| EmployeeService.WithoutEmployee | src/services/employeeService.ts:51 | Every kept employee comes from the input and has another id. |
| EmployeeService.WithoutEmployeeExact | src/services/employeeService.ts:51 | Exactly the employees with another id are kept, each as often as it occurs, in order. |
| EmployeeService.WithoutEmployeeKeepsUniqueIds | src/services/employeeService.ts:51 | Deleting from a list with distinct ids leaves distinct ids. |
| EmployeeService.NewEmployeeRecord | src/services/employeeService.ts:27-37 | The new record is the submitted employee, except that its id is length + 1 and its password is the hash of the typed one. |
| EmployeeService.SaveBody | src/services/employeeService.ts:35-38 | The list sent keeps the input as its prefix, followed by exactly one new record. |
| EmployeeService.SaveBodyKeepsPositionalIds | src/services/employeeService.ts:35-38 | While the ids are positional (no delete yet), a save keeps them positional and distinct. |
| EmployeeService.DeleteThenSaveDuplicatesId | src/services/employeeService.ts:37 | Employees 1, 2, 3: deleting 2 and then saving gives two employees with id 3. |
| EmployeeService.MaxId | src/services/employeeService.ts:37 | At least every id in use, and at least 0. |
| EmployeeService.NextId | src/services/employeeService.ts:37 | The intended id is positive and used by no employee. |
| EmployeeService.NextIdOnPositionalIds | src/services/employeeService.ts:37 | On positional ids the intended id is length + 1, so the fix only differs after a delete. |
| EmployeeService.IntendedSaveBody | src/services/employeeService.ts:35-38 | The intended save keeps the input as prefix and appends a record with the fresh id and the hashed password. |
| EmployeeService.IntendedSaveKeepsUniqueIds | src/services/employeeService.ts:35-38 | The intended save keeps ids distinct on every list. |
| EmployeeService.FetchEmployees | src/services/employeeService.ts:5-24 | Resolves to the record exactly when the response is ok. Otherwise it resolves to `undefined`; it never rejects. |
| EmployeeService.SaveEmployee | src/services/employeeService.ts:26-47 | Resolves to the stored record on an ok response. It rejects with 'Error al guardar el empleado' on a non-ok one and with the fetch's own error on a rejected fetch. It never resolves to `undefined`. |
| EmployeeService.DeleteEmployee | src/services/employeeService.ts:50-71 | Resolves to the filtered list exactly when the response is ok. Otherwise it resolves to `undefined`; it never rejects. |
| Employees.IsEmailValid | src/components/Employees.tsx:81-84 | The email pattern: the address splits into three non-empty runs around an '@' and a later '.'. An accepted address has at least five characters. |
| Employees.EmailParts | src/components/Employees.tsx:81-84 | Every accepted address is local '@' domain '.' tld, each a non-empty run without whitespace or '@'. |
| Employees.EmailFromParts | src/components/Employees.tsx:81-84 | Every such concatenation is accepted, including a domain that itself contains dots. |
| Employees.EmailHasOneAt | src/components/Employees.tsx:82 | An accepted address has no whitespace and exactly one '@'. |
| Employees.IsFormValid | src/components/Employees.tsx:86-95 | Guardar is enabled only when all five text fields are non-empty and the email passes the pattern; the email then has at least five characters. |
| Employees.PassesCreateCheck | src/components/Employees.tsx:51 | The handler's own check needs only name, email and position; a draft that passes it is never the empty form. |
| Employees.EnabledFormPassesCreateCheck | src/components/Employees.tsx:86-95 | A form that enables Guardar passes the handler's own check; the empty form passes neither. |
| Employees.EmployeesPage.constructor | src/components/Employees.tsx:19-22 | No employees, form hidden, empty draft with role 'employee', no error. |
| Employees.EmployeesPage.Load | src/components/Employees.tsx:25-44 | An ok response shows its record, or nothing when the body has none. A failure changes nothing. |
| Employees.EmployeesPage.SetShowForm | src/components/Employees.tsx:108 | The form is shown or hidden. |
| Employees.EmployeesPage.SetNewEmployee | src/components/Employees.tsx:124 | The draft is replaced. |
| Employees.EmployeesPage.HandleDeleteEmployee | src/components/Employees.tsx:46-48 | Only the local list loses the employees with that id; nothing is sent. |
| Employees.EmployeesPage.HandleCreateEmployee | src/components/Employees.tsx:50-79 | Without name, email or position: the required-fields error, nothing sent. Otherwise it sends the save list. Ok adopts the record, hides and empties the form and clears the error. Non-ok sets the save error. A rejected fetch changes nothing. |
| UseEmployees.Loaded | src/hooks/useEmployees.tsx:9-13 | The hook stores the list exactly when the response is ok, and `undefined` otherwise. |
| UseEmployees.EmployeesHook.constructor | src/hooks/useEmployees.tsx:6-7 | An empty list and no error. |
| UseEmployees.EmployeesHook.Load | src/hooks/useEmployees.tsx:9-13 | The list becomes whatever the service resolves to. The error is untouched, so the load error is never shown. |
| UseEmployees.EmployeesHook.AddEmployee | src/hooks/useEmployees.tsx:15-23 | Success adopts the returned list and clears the error. A failure, or an `undefined` list, keeps the list and sets 'Error al guardar el empleado'. |
| UseEmployees.EmployeesHook.RemoveEmployee | src/hooks/useEmployees.tsx:25-38 | Success (an empty list included) adopts the filtered list and clears the error. A failure, or an `undefined` list, keeps the list and sets 'Error al eliminar el empleado'. |
| UseEmployees.EmployeesHook.SetError | src/hooks/useEmployees.tsx:40 | The error becomes the given message. |
| AuthContext.NatToString | src/contexts/AuthContext.tsx:71 | A non-empty string of decimal digits, a single digit exactly below 10. |
| AuthContext.IntToString | src/contexts/AuthContext.tsx:71 | Starts with '-' exactly for a negative id. |
| AuthContext.NatToStringInjective | src/contexts/AuthContext.tsx:71 | Distinct numbers have distinct decimal strings. |
| AuthContext.SubjectsAreDistinct | src/contexts/AuthContext.tsx:71 | Different employee ids give different token subjects. |
| AuthContext.ClaimsFor | src/contexts/AuthContext.tsx:70-76 | sub is the id as a string, name is the username (not the display name), and role is the user's role. `iat` is the current second and `exp` is one hour later. |
| AuthContext.FindUser | src/contexts/AuthContext.tsx:62 | A found user is in the list and has the username. |
| AuthContext.Authenticate | src/contexts/AuthContext.tsx:62-67 | An accepted user is in the list, has the username and stores the hash of the typed password. |
| AuthContext.AuthenticateFirstMatch | src/contexts/AuthContext.tsx:62-67 | Only the first employee with the username is checked; later duplicates are never tried. |
| AuthContext.AuthenticateUnknownUser | src/contexts/AuthContext.tsx:62-67 | An unknown username is always rejected. |
| AuthContext.GetItem | src/contexts/AuthContext.tsx:35-37 | The stored string exactly when the key is present, null otherwise. |
| AuthContext.StorageAfterLogin | src/contexts/AuthContext.tsx:83-85 | Token, role and name are written; every other key is kept. |
| AuthContext.StorageAfterLogout | src/contexts/AuthContext.tsx:91-93 | Token and role are removed; every other key, the name included, is kept. |
| AuthContext.LogoutLeavesName | src/contexts/AuthContext.tsx:83-93 | After a login and a logout the storage still holds the departed user's name but no token. |
| AuthContext.UserMember | src/contexts/AuthContext.tsx:7-13 | Reading `user` from the context value always gives `undefined`, whatever the session holds, since the value has no such member. |
| AuthContext.UseAuth | src/contexts/AuthContext.tsx:26-32 | Throws 'useAuth must be used within an AuthProvider' exactly outside a provider, and returns the value otherwise. |
| AuthContext.AuthProvider.constructor | src/contexts/AuthContext.tsx:34-37 | Token, role and name start from storage. |
| AuthContext.AuthProvider.Login | src/contexts/AuthContext.tsx:43-89 | Login rejects exactly when the response is not ok or the credential check finds no match. So valid credentials in an ok response always succeed. A non-ok fetch rejects with 'Error al cargar los empleados'; a rejected fetch rejects with its own error. Bad credentials reject with 'Credenciales inválidas'. A rejection changes neither state nor storage. Success signs the user's claims and stores token, role and name in state and storage. |
| AuthContext.AuthProvider.Context | src/contexts/AuthContext.tsx:100 | The value handed to children carries the provider's current token, role and name. |
| AuthContext.AuthProvider.Logout | src/contexts/AuthContext.tsx:91-97 | The state is cleared; token and role leave storage and the name stays. |
| PrivateRoute.Guard | src/PrivateRoute.tsx:14-24 | Redirects to /login exactly without a truthy token. Redirects to / exactly when there is a token and a truthy required role that differs from the user's role. Renders exactly otherwise. |
| Header.Menu | src/components/Header.tsx:13-35 | Dashboard is always first. Perfil appears exactly for a non-empty role, Evaluación exactly for 'employee', and Empleados and Crear Evaluaciones exactly for 'admin'. The employee's and the admin's links never appear together. |
| App.MatchRoute | src/App.tsx:25-35 | A path matches exactly when some route has it, and then yields that route. |
| App.MatchRouteAt | src/App.tsx:27-34 | Every route is the one its own path matches, since no two routes share a path. |
| App.SignedInVisit | src/App.tsx:27-34 | With a token, visiting a route's path shows its page unless the route names a role the session lacks; then it redirects to /. |
| App.Navigate | src/App.tsx:27-34 | A page other than /login shows only with a token; redirects go only to /login or /. |
| App.LoginIsTheOnlyPublicPage | src/App.tsx:27-34 | Without a token, every path shows the login page, redirects to /login, or matches nothing. |
| App.PagesFollowRoles | src/App.tsx:31-34 | The employee and evaluation editor pages show only to 'admin'; the profile and the response form only to 'employee'. So an admin never reaches /evaluation and an employee never reaches /evaluations. |
| App.RedirectsLand | src/App.tsx:27-34 | Every redirect lands on a shown page: no chains, no loops. |
| App.MenuLinksOpen | src/App.tsx:27-34 | For a signed-in session every menu link opens its page, except Perfil for a role other than 'employee', which redirects to /. |
| App.HeaderShownAsWritten | src/App.tsx:21 | The menu's condition as written: the context's `user` member must exist and carry a truthy token. |
| App.HeaderNeverShown | src/App.tsx:14-21 | As written, the side menu is never shown, for any session. |
| App.HeaderShownWithDashboard | src/App.tsx:21-30 | The intended menu shows exactly when the dashboard route renders. |
| Profile.History | src/components/Profile.tsx:30-32 | Every listed response comes from the store and was written by the given name. |
| Profile.HistoryExact | src/components/Profile.tsx:30-32 | Exactly that author's responses are listed, each as often as it occurs, in order. |
| Profile.HistoryWithoutName | src/components/Profile.tsx:30-32 | Filtering by `undefined` lists nothing. |
| Profile.NameAsWritten | src/components/Profile.tsx:10 | The name the page filters by is `undefined`. |
| Profile.HistoryAsWrittenIsEmpty | src/components/Profile.tsx:10-32 | As written, the history is empty for every session and store. |
| Profile.SubmittedAnswerListed | src/components/Profile.tsx:30-32 | Filtering by the session's name lists an answer the signed-in user sent from the form. |
| Profile.Mounted | src/components/Profile.tsx:16-20 | A stored 'dark' turns dark mode and the class on. Anything else leaves the mode off and the class as it was. |
| Profile.Toggled | src/components/Profile.tsx:42-51 | The mode flips; the class is present, and the stored theme is 'dark', exactly when the new mode is dark. |
| Profile.ToggleTwice | src/components/Profile.tsx:42-51 | From a synced state, two toggles restore mode, class and stored theme. A fresh page with nothing stored is not synced: two toggles there leave 'light' in storage. |
| Profile.MountedDarkIsSynced | src/components/Profile.tsx:16-20 | Mounting from a stored 'dark' leaves mode, class and storage in agreement. |
| Profile.ProfileView.constructor | src/components/Profile.tsx:16-20 | The theme starts as `Mounted` gives it, and no responses are listed. |
| Profile.ProfileView.LoadResponses | src/components/Profile.tsx:21-37 | An ok body is filtered by the given name. A body without a record and a rejected fetch change nothing. |
| Profile.ProfileView.ToggleDarkMode | src/components/Profile.tsx:42-51 | The new theme is `Toggled` of the old one. |

## Left out

- HTTP, request headers, the API key and JSON parsing: each call's outcome is an input.
  The store's contents after a PUT are not modelled. A record returned by an ok response
  is taken as given, not as the body that was sent.
- SHA-256 (crypto-js) and JWT signing (jose) are uninterpreted function parameters; nothing
  is proved about their output. The token is never verified anywhere in the application.
- `Date.now()` is a number parameter. The UTC day key `toISOString().slice(0, 10)` is
  carried by each calendar date as a given string.
- Dashboard.LeadershipScores: averages are exact real quotients, not IEEE doubles; NaN is a
  separate answer variant.
- Js.IsWhitespace: the ECMAScript whitespace and line-terminator code points are listed one by
  one; characters outside the Basic Multilingual Plane are not distinguished.
- The dashboard's own mount fetch (src/components/Dashboard.tsx:18-37) is not modelled: it
  stores `record` on an ok response, and its rejection on failure is unhandled. The
  aggregations take the response list as input.
- The evaluation editor's mount fetch (src/components/Evaluations.tsx:51-68) is not
  modelled. It does not check `ok`, so a failed response would store `undefined`, which the
  editor's `seq` state cannot hold.
- EvaluationForm.ResponseForm.HandleSubmit: the PUT sends one `{evaluationName, author,
  answers}` object and so replaces the whole answer store. Its effect on what the dashboard
  and profile read afterwards is not modelled, and its outcome only triggers an alert.
- Employees.EmployeesPage.Load: only a body whose `record` is missing or present is
  distinguished; any other falsy `record` is not.
- Matching of paths: react-router's case-insensitive and trailing-slash matching is not
  modelled; paths match exactly.
- React rendering, effect scheduling, state batching and interleaving of async handlers:
  each handler is one atomic step on the state it reads.
- The Login page, pending-evaluations list, chart wrapper, alert styling, bootstrap and
  configuration files are not part of this model. Neither is the answer service; no
  component calls it.

- EmployeeService.SaveEmployee: every ok response is taken to carry `record`. An ok body
  without one makes the source resolve to `undefined` (src/services/employeeService.ts:45-46),
  so "never resolves to `undefined`" holds only for bodies that carry `record`.
- EmployeeService.FetchEmployees: an ok body without `record` would resolve to `undefined`
  through the ok branch. The model's ok response always carries a list.
- EvaluationService.FetchEvaluations: the same; an ok body without `record` is not modelled.
- AuthContext.AuthProvider.Login: an ok body without `record` makes `employees.find` throw a
  TypeError (src/contexts/AuthContext.tsx:59-62). The model's ok response always carries a list,
  so this rejection is not modelled.
- EvaluationForm.AnswersKeys: the answers are a Dafny map. A question labelled `__proto__`
  would not create a key in the source's plain object (src/components/EvaluationForm.tsx:80),
  but it does in the model.
- EvaluationForm.AnswersLastWins: the same `__proto__` label is not modelled.
- AuthContext.ClaimsFor: reads the clock once. The source calls `Date.now()` separately for
  `iat` and `exp` (src/contexts/AuthContext.tsx:74-75), so across a second boundary `exp`
  can be `iat + 3601`. The model always gives `iat + 3600`.

## Findings

| source | as written | input that shows it | evidently intended | confidence | as-written member | corrected member |
|---|---|---|---|---|---|---|
| src/components/Evaluations.tsx:107-124 | The "current" switch only clears flags in local state. The list sent is the pre-clear list plus a draft whose own flag is never set. | A stored current evaluation, the switch on, saving a new one: the store keeps the old one current and the new one not. | With the switch on, the new evaluation is sent as the only current one. | not executed | Evaluations.SaveBodyCounterexample | Evaluations.IntendedSaveBodyCurrent |
| src/App.tsx:14-21 | The menu is shown when `user?.token` is truthy, but the auth context has no `user` member. | Any signed-in session: the menu never appears. | Show the menu when the session has a token. | not executed | App.HeaderNeverShown | App.HeaderShownWithDashboard |
| src/components/Profile.tsx:10-32 | The history is filtered by `user?.name`, which is always `undefined`. | Any session and any stored answers: the history is empty. | List the signed-in user's own answers, by the session's name. | not executed | Profile.HistoryAsWrittenIsEmpty | Profile.SubmittedAnswerListed |
| src/services/employeeService.ts:37 | A new employee's id is the list length plus one. | Employees 1, 2, 3; delete 2; add one: two employees have id 3. | A fresh id, one above the largest in use. | not executed | EmployeeService.DeleteThenSaveDuplicatesId | EmployeeService.IntendedSaveKeepsUniqueIds |
