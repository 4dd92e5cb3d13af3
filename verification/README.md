# Task-tracker core in Dafny

A model of the core of a small task-tracking web application. It has three parts:

- **Authentication** on the Express backend: the `authUser` middleware, `register`,
  `login`, `profile` and `logout`, and the token and password helpers of the User model.
- **The task API**: the controller handlers, the `createtaskk` service, the Task schema and
  the route table mounted at `/api/tasks`.
- **The React pages' pure logic**: the password-strength score and the registration,
  create-task and edit-task validators. Also search, filter, sort and counts over task lists,
  and avatar initials.

Each handler is a pure transition `State -> (Response, State)`:

- `State` holds the `users`, `tasks` and `blacklisttokens` collections as maps and a set.
  It also holds the scan order of the two document collections.
- `Response` is a status code, a JSON body and what the response does to the `token`
  cookie.

The modules follow the program's layout:

| module | models |
|---|---|
| `Common`, `Text`, `Seqs`, `Sorting` | ObjectIds, the ECMAScript `trim`/`toLowerCase`/`includes`/`split` the code relies on, `filter` and the stable `Array.prototype.sort` |
| `Crypto` | `jsonwebtoken` and `bcrypt` as oracles. Their guarantees are the ghost predicates `SoundJwt` and `SoundBcrypt`, which lemmas take as hypotheses |
| `Users`, `Tasks`, `Db` | the two schemas, the store, and the response type |
| `AuthGate` | `backend/middleware/authmiddleware.js` |
| `Accounts` | `backend/controller/user.controller.js` |
| `TaskService`, `TaskController` | `backend/services/task.service.js`, `backend/controller/task.controller.js` |
| `Routes` | `backend/routes/Tasks.routes.js`: first-match routing, the gate, then the handler |
| `TaskLists`, `MyTasksPage`, `PublicTasksPage`, `ProfilePage` | the list pages |
| `Forms`, `RegisterPage`, `CreateTaskPage`, `EditTaskPage` | the form pages |

Conventions:

- The clock is a `nat` of seconds.
- The random bcrypt salt, the id MongoDB assigns to a new document, and the outcome of the
  express-validator rules are all parameters.
- An id in a path that is not 24 hex digits makes mongoose throw inside the handler's `try`.
  The model answers 500 for it.
- Mongoose casts an id to an ObjectId before every lookup, so hex digits match in either case.
  Stored ids and owners are kept in the canonical lower-case spelling (`Common.CastId`).
- String `length` counts UTF-16 code units: a character outside the Basic Multilingual Plane
  counts 2 (`Text.JsLength`).

The model follows the code as written:

- `getOneTask`, `updateTask` and `deleteTask` check no ownership. `TaskController.RequesterIrrelevant`
  and `TaskController.ForeignTaskScenario` state this as a property, not as a defect to fix.
- A non-owner calling `togglePublic` or `completeTask` gets 401, not a separate "forbidden" code.
- The gate's four denials carry four distinct messages.
- A task created without a title or description gets the framework's default 500 page, not a validation error.
- `completeTask` reassigns `isPublic` its own value. The model keeps that assignment, and
  `TaskController.CompleteKeepsVisibility` proves it changes nothing.
- The literal messages of the pages are kept as written, including "requiblue" on the
  registration and create-task pages.

## Model

| member | source | states |
|---|---|---|
| `AuthGate.ExtractToken` | backend/middleware/authmiddleware.js:9 | A token is found only in a header starting with "Bearer"; it is the second space-separated piece, is non-empty and contains no space |
| `AuthGate.ExtractBearerToken` | backend/middleware/authmiddleware.js:9 | The header `"Bearer " + token` a client sends yields that same token back, for every compact token |
| `AuthGate.AuthUser` | backend/middleware/authmiddleware.js:6-49 | `next` is reached iff a token is present, not blacklisted, verifies, and names an id that casts to an ObjectId (hex digits in either case) of a stored user; `req.user` is then that user, read without password. The gate returns no new state: it only reads |
| `AuthGate.DenialResponse` | backend/middleware/authmiddleware.js:12-47 | Every denial of the gate is answered 401 |
| `AuthGate.MissingOrForeignHeaderDenied` | backend/middleware/authmiddleware.js:9-16 | A missing header, or one not starting with "Bearer", gives "no token" |
| `AuthGate.BareBearerDenied` | backend/middleware/authmiddleware.js:9-12 | A header of exactly "Bearer" has no second piece, so it gives "no token" |
| `AuthGate.BlacklistCheckedFirst` | backend/middleware/authmiddleware.js:19-28 | A blacklisted token is refused whatever the JWT library or the clock say: the result does not depend on them |
| `AuthGate.UnverifiedTokenDenied` | backend/middleware/authmiddleware.js:27-47 | A present, unrevoked token that fails verification (bad signature or expired) gives "expired or invalid" |
| `AuthGate.UnknownSubjectDenied` | backend/middleware/authmiddleware.js:29-35 | A verified token whose subject casts to an ObjectId that no user has gives "user not found" |
| `AuthGate.IssuedTokenAdmits` | backend/middleware/authmiddleware.js:28-39 | A token issued for a stored user admits exactly that user for 24 hours and is refused as expired from then on |
| `Crypto.VerifyToken` | backend/middleware/authmiddleware.js:28 | Verification gives the decoded claims iff the token decodes under the secret and `now < exp`; "invalid signature" iff decoding fails; "expired" iff it decodes with `now >= exp` |
| `Crypto.ExpiredStaysExpired` | backend/middleware/authmiddleware.js:28 | Expiry is permanent: an expired token stays expired later, and a token valid now was valid, with the same claims, at every earlier moment |
| `Crypto.IssuedTokenLifetime` | backend/models/user.model.js:33-37 | A token `generateAuthToken` signs verifies to its `_id` for 24 hours (86400 s) and is expired from then on |
| `Crypto.PasswordMatchesOwnDigest` | backend/models/user.model.js:40-51 | `comparePassword` appends the same pepper as `hashedPassword`, so a password matches its own digest under bcrypt's correctness |
| `Users.NamesAreOptional` | backend/models/user.model.js:7-17 | Because the first name's `required` is misspelled, a user with no name at all passes the schema |
| `Users.FindByEmail` | backend/controller/user.controller.js:22 | A found user is stored and has the address; when none is found, no user in scan order has it |
| `Users.FindByEmailExact` | backend/models/user.model.js:19-23 | Under the unique index the lookup by a stored user's address returns exactly that user |
| `Users.FindByEmailAbsent` | backend/controller/user.controller.js:22-26 | The lookup fails exactly when no stored user has the address |
| `Tasks.CreateDocument` | backend/models/tasks.model.js:4-37 | A document is created iff a title that is non-empty after trimming and an owner are given; title and description are stored trimmed and the owner as given |
| `Tasks.BlankTitleRejected` | backend/models/tasks.model.js:6-10 | A white-space-only title is trimmed to "" and fails `required` |
| `Tasks.DescriptionOptional` | backend/models/tasks.model.js:12-15 | A task without a description is created |
| `Tasks.FlagsDefaultToFalse` | backend/models/tasks.model.js:17-25 | Omitted `isCompleted` and `isPublic` are false; given ones are kept |
| `TaskService.CreateTaskRecord` | backend/services/task.service.js:4-25 | "All fields are required" iff title, description or owner is falsy (an empty string is falsy); success iff additionally the title is not blank; the record carries the trimmed title and description, the owner, `isPublic` or its default, and is pending |
| `TaskService.BlankTitleReachesSchema` | backend/services/task.service.js:11-15 | A white-space title is truthy, passes the service check and is rejected by the schema |
| `TaskService.UndefinedIsPublicDefaults` | backend/services/task.service.js:11-19 | An undefined `isPublic` is not checked and the task is created private |
| `Db.Select` | backend/controller/task.controller.js:25 | `find(filter)` returns a subsequence of the scan order holding every stored id that meets the filter and nothing else, without duplicates |
| `Db.SelectIsFilter` | backend/controller/task.controller.js:25 | `find` over the collection equals `Array.prototype.filter` of the scan order with the query as predicate |
| `Db.Without` | backend/controller/task.controller.js:101 | Deleting an id leaves exactly the other ids of the scan order, without duplicates |
| `TaskController.FindTask` | backend/controller/task.controller.js:45-51 | A task is found iff the id is an ObjectId whose lower-cased spelling is stored, and the stored spelling is returned; otherwise 404, or 500 for an id that cannot be cast |
| `TaskController.CreateTask` | backend/controller/task.controller.js:5-20 | 201 iff the service accepts the body with the requester as owner; the state is then the old one with the service's record appended under the new id (title, description, flags and owner as the service built them) and last in the scan order, and the reply carries that record; every failure is the framework's default 500 page with the state unchanged |
| `TaskController.OwnTaskIds` | backend/controller/task.controller.js:25 | The ids `find({owner})` yields: a subsequence of the scan order, only the requester's tasks, and, on a well-formed store, every one of them exactly once |
| `TaskController.GetAllTasks` | backend/controller/task.controller.js:22-39 | One element per id of `OwnTaskIds`, in that order, each projected to id, title, description and the two flags; on a well-formed store every task of the requester is listed |
| `TaskController.GetOneTask` | backend/controller/task.controller.js:42-58 | 200 with the stored task, under its stored id, iff the id casts to a stored ObjectId, whoever asks; 500 for an id that cannot be cast; 404 for an unknown one |
| `TaskController.Overwrite` | backend/controller/task.controller.js:71-75 | An update keeps `isPublic` and `owner`, sets the trimmed title and description and `isCompleted` as sent (false when absent), and saves iff the body's title is present and non-blank |
| `TaskController.UpdateTask` | backend/controller/task.controller.js:60-87 | 200 iff the id is stored and the body carries a non-blank title; then only that task changes, getting the trimmed title and description and the sent `isCompleted` while keeping `isPublic` and `owner`; otherwise 500 (uncastable id or failed validation) or 404, with the state unchanged |
| `TaskController.DeleteTask` | backend/controller/task.controller.js:90-108 | 200 iff the id casts to a stored ObjectId, and then exactly that task is removed; otherwise 500 or 404 with the state unchanged |
| `TaskController.TogglePublic` | backend/controller/task.controller.js:110-133 | 200 iff the id is stored, owned by the requester and the task passes validation on `save()`; otherwise 500 for an uncastable id, 404 for an unknown one, 401 for a non-owner and 500 for a failed save, always with the state unchanged |
| `TaskController.CompleteTask` | backend/controller/task.controller.js:135-164 | 200 iff the id is stored, owned by the requester and the task passes validation on `save()`; otherwise 500, 404, 401 or 500 as for the toggle, with the state unchanged |
| `TaskController.PublicUserIds` | backend/controller/task.controller.js:191-199 | The ids `UserModel.find({_id: {$in: owners}})` yields: a subsequence of the user scan order, only owners of a public task, and on a well-formed store each stored one exactly once |
| `TaskController.PublicTaskIds` | backend/controller/task.controller.js:171-173 | The ids `find({owner, isPublic: true})` yields: a subsequence of the scan order, only that owner's public tasks, and on a well-formed store each of them exactly once |
| `TaskController.ViewPublicTasks` | backend/controller/task.controller.js:167-185 | 200 iff the user id casts to an ObjectId; one element per id of `PublicTaskIds` for the cast id, in order, projected to title, description and completion; on a well-formed store every public task of that user is listed; 500 otherwise |
| `TaskController.ViewPUsers` | backend/controller/task.controller.js:187-207 | `[]` when no task is public; otherwise one element per id of `PublicUserIds`, in scan order, each the user read without password; on a well-formed store every stored owner of a public task is listed |
| `TaskController.ToggleTwiceRestores` | backend/controller/task.controller.js:125 | Toggling twice restores the state |
| `TaskController.ToggleChangesOnlyVisibility` | backend/controller/task.controller.js:115-129 | A toggle negates that task's `isPublic` and changes nothing else |
| `TaskController.CompleteKeepsVisibility` | backend/controller/task.controller.js:149-156 | Completing negates `isCompleted`, keeps `isPublic`, and completing twice restores the state |
| `TaskController.RequesterIrrelevant` | backend/controller/task.controller.js:42-108 | `getOneTask`, `updateTask` and `deleteTask` answer every requester alike |
| `TaskController.IdCaseIrrelevant` | backend/controller/task.controller.js:45-47 | Two spellings of an id that cast to the same ObjectId get the same answer and the same new state from every id-taking handler |
| `TaskController.UpperCaseIdFound` | backend/controller/task.controller.js:45-53 | A stored task is found through the upper-case spelling of its id, and the answer carries the stored id |
| `TaskController.ForeignTaskScenario` | backend/controller/task.controller.js:110-164 | Another user is refused toggle and completion, yet reads, rewrites and deletes the owner's task, and sees it among the owner's public tasks |
| `TaskController.UpdateIgnoresVisibilityAndOwner` | backend/controller/task.controller.js:71-78 | The `isPublic` and `owner` sent in an update body have no effect |
| `TaskController.CreateIgnoresBodyOwner` | backend/controller/task.controller.js:8-12 | An `owner` field in the create body changes nothing |
| `TaskController.CreateThenList` | backend/controller/task.controller.js:10-32 | A created task appears in its creator's list |
| `TaskController.DeleteThenNotFound` | backend/controller/task.controller.js:95-101 | A deleted task can no longer be fetched: 404 for everyone |
| `TaskController.ToggleListsOwner` | backend/controller/task.controller.js:125-127 | Making a private task public puts its owner among the users `viewPUsers` lists |
| `TaskController.CreateTaskPreservesWf` | backend/controller/task.controller.js:12-14 | Creating keeps the store invariant: canonical ObjectIds and owners, only valid tasks, a scan order listing each task once |
| `TaskController.DeleteTaskPreservesWf` | backend/controller/task.controller.js:101 | Deleting keeps the store invariant |
| `TaskController.UpdatesPreserveWf` | backend/controller/task.controller.js:78 | Update, toggle and complete keep the store invariant, since they save only tasks that pass validation and never change an owner |
| `Accounts.Register` | backend/controller/user.controller.js:9-51 | 201 iff validation passes, the address is new and the schema accepts the record; then exactly the new user with the peppered digest is added and a token for its id is returned; every other outcome leaves the state unchanged |
| `Accounts.Login` | backend/controller/user.controller.js:54-84 | 200 iff validation passes, the address is stored and the password matches its digest; the token is then also set as the cookie; every other valid request gets the same 401 |
| `Accounts.ProfileHidesPassword` | backend/controller/user.controller.js:90-95 | The profile body does not depend on the password field |
| `Accounts.Logout` | backend/controller/user.controller.js:103-121 | The cookie is always cleared; 200 iff a non-empty token is found (cookie first, then the header's second piece), and then exactly that token is added to the blacklist; otherwise the error reaches the framework's default 500 page and nothing changes |
| `Accounts.ValidationBeforeStore` | backend/controller/user.controller.js:12-16 | A validation failure answers 400 whatever the store holds, for register and login, and changes nothing |
| `Accounts.DuplicateEmailRejected` | backend/controller/user.controller.js:22-26 | Registering a stored address answers 400 "User already exists" with the state unchanged |
| `Accounts.RegisterStoresDigest` | backend/controller/user.controller.js:28-36 | The stored password is bcrypt's digest of the peppered password |
| `Accounts.RegisterPreservesWf` | backend/controller/user.controller.js:22-36 | Registration keeps the store invariant, including unique e-mails |
| `Accounts.RegisterTokenAuthenticates` | backend/controller/user.controller.js:38-44 | The token a registration returns admits the new user at the gate for 24 hours |
| `Accounts.RegisterThenLogin` | backend/controller/user.controller.js:54-82 | Logging in with the credentials just registered succeeds |
| `Accounts.LoginFailuresAlike` | backend/controller/user.controller.js:65-75 | An unknown address and a wrong password give the identical 401 |
| `Accounts.LoginSuccessShape` | backend/controller/user.controller.js:77-82 | A successful login returns and sets as cookie the token for the matching user, and sends the stored digest |
| `Accounts.LogoutRevokesBearer` | backend/controller/user.controller.js:112-114 | After logout with a bearer header the gate refuses that header as blacklisted |
| `Accounts.LogoutPrefersCookie` | backend/controller/user.controller.js:112 | With a cookie, logout revokes the cookie's token only: another bearer token fares exactly as before |
| `Accounts.LogoutIdempotent` | backend/controller/user.controller.js:114 | Logging out twice leaves the same state as once |
| `Routes.Captures` | backend/routes/Tasks.routes.js:19-25 | A path matches a pattern iff it has as many segments and every literal matches; there is then one capture per parameter |
| `Routes.CapturesAreParamSegments` | backend/routes/Tasks.routes.js:19-25 | The parameter at each pattern position captures the path segment at that position, in pattern order |
| `Routes.FirstMatch` | backend/routes/Tasks.routes.js:17-25 | Routing picks the first registered route that matches, and none when no route matches |
| `Routes.FirstMatchAt` | backend/routes/Tasks.routes.js:17-25 | A matching route with no matching route registered before it is the one chosen |
| `Routes.Serve` | backend/routes/Tasks.routes.js:17-25 | An unmatched request gets 404 and a request the gate refuses gets its 401, both with the state unchanged |
| `Routes.EveryRouteGuarded` | backend/routes/Tasks.routes.js:17-25 | All nine routes run `authUser` before their handler |
| `Routes.PublicListNotShadowed` | backend/routes/Tasks.routes.js:24-25 | `GET /public` reaches `viewPUsers`, not `getOneTask` |
| `Routes.PublicTasksRoute` | backend/routes/Tasks.routes.js:23 | `GET /public/:userId` reaches `viewPublicTasks` with the user id captured |
| `Routes.ObjectIdIsNotPublic` | backend/routes/Tasks.routes.js:25 | No ObjectId reads as "public", so every task id reaches the id routes |
| `Routes.GetOneRoute` | backend/routes/Tasks.routes.js:25 | `GET /:id` reaches `getOneTask` with the id for every id other than "public" |
| `Routes.PutRoute` | backend/routes/Tasks.routes.js:19 | `PUT /:id` reaches `updateTask` |
| `Routes.DeleteRoute` | backend/routes/Tasks.routes.js:20 | `DELETE /:id` reaches `deleteTask` |
| `Routes.PatchRoutes` | backend/routes/Tasks.routes.js:21-22 | `PATCH /:id/toggle` and `PATCH /:id/complete` reach `togglePublic` and `completeTask` |
| `Routes.DeniedRequestChangesNothing` | backend/routes/Tasks.routes.js:17-25 | A routed request the gate refuses is answered 401 and changes nothing |
| `Routes.LogoutThenListDenied` | backend/middleware/authmiddleware.js:19-25 | After logout, listing tasks with the revoked bearer token is refused as blacklisted |
| `Routes.CreatedTaskOwnedByCaller` | backend/routes/Tasks.routes.js:17 | A task created through the router with a fresh token is owned by the token's user |
| `Text.Trim` | frontend/src/pages/CreateTask.jsx:31 | `trim` removes exactly the leading and trailing white space; the result is empty iff the text is blank |
| `Text.TrimUnique` | frontend/src/pages/CreateTask.jsx:31 | Whatever infix has only white space outside it and none at either of its ends is exactly what `trim` returns |
| `Text.TrimIdempotent` | backend/models/tasks.model.js:9 | Trimming a trimmed text changes nothing, so the schema's trim leaves an already-trimmed title alone |
| `Text.ToLowerIdempotent` | frontend/src/pages/Register.jsx:121 | Lower-casing twice is lower-casing once |
| `Text.LowerTrimCommute` | frontend/src/pages/Register.jsx:121 | Lower-casing then trimming equals trimming then lower-casing |
| `Text.TrimIgnoresPadding` | frontend/src/pages/Register.jsx:118-121 | White space added at either end of a text is removed by `trim` |
| `Text.JsLengthAppend` | frontend/src/pages/CreateTask.jsx:39 | `length` counts UTF-16 code units, which add up over concatenation |
| `Text.TrimJsLength` | frontend/src/pages/EditTask.jsx:104-105 | Trimming never makes the `length` larger |
| `Text.SplitJoin` | backend/middleware/authmiddleware.js:9 | `split(" ")` loses nothing: joining the pieces with spaces gives the text back |
| `Text.SecondFieldOfJoined` | backend/middleware/authmiddleware.js:9 | The second piece of `p + " " + t`, for space-free `p` and `t`, is `t` |
| `Sorting.SortBy` | frontend/src/pages/MyTasks.jsx:61-67 | Sorting returns a permutation of the copy it is given |
| `Sorting.SortBySorted` | frontend/src/pages/MyTasks.jsx:65 | Under a total preorder the result is ordered |
| `Sorting.TwoRankSort` | frontend/src/pages/MyTasks.jsx:61-63 | A two-valued comparator yields the low group then the high group, each in original order (stability) |
| `Seqs.FilterPartition` | frontend/src/pages/PublicTasks.jsx:64-65 | A predicate and its negation split a list: their counts add up to its length |
| `Seqs.FilterIsSubsequence` | frontend/src/pages/PublicTasks.jsx:51 | `filter` returns an order-preserving subsequence |
| `TaskLists.EmptyTermMatches` | frontend/src/pages/MyTasks.jsx:82-87 | An empty search term matches every task |
| `TaskLists.SearchIgnoresTermCase` | frontend/src/pages/MyTasks.jsx:84-85 | The search gives the same answer for a term and its upper-cased form |
| `TaskLists.CompletionStats` | frontend/src/pages/PublicTasks.jsx:62-67 | total is the length, completed counts the completed tasks, pending counts exactly the others, and the two add up to total |
| `MyTasksPage.SearchTasks` | frontend/src/pages/MyTasks.jsx:82-87 | Keeps exactly the tasks whose title or description contains the term, case-insensitively, in order |
| `MyTasksPage.FilterTasks` | frontend/src/pages/MyTasks.jsx:71-80 | 'completed' keeps exactly the completed tasks, 'pending' exactly the others, any other value everything, in order |
| `MyTasksPage.SortTasks` | frontend/src/pages/MyTasks.jsx:58-69 | Every sort returns a permutation of a copy of its input |
| `MyTasksPage.Processed` | frontend/src/pages/MyTasks.jsx:89 | The displayed tasks are exactly the tasks matching search and filter; there are never more than the tasks |
| `MyTasksPage.TaskStats` | frontend/src/pages/MyTasks.jsx:91-96 | completed + pending == total, pending counting exactly the tasks not completed |
| `MyTasksPage.EmptySearchKeepsAll` | frontend/src/pages/MyTasks.jsx:82-87 | An empty search keeps the whole list in order |
| `MyTasksPage.StatusSortGroups` | frontend/src/pages/MyTasks.jsx:61 | The 'status' sort lists pending tasks, then completed ones, each group in original order |
| `MyTasksPage.PublicSortGroups` | frontend/src/pages/MyTasks.jsx:63 | The 'public' sort lists public tasks, then private ones, each group in original order |
| `MyTasksPage.DateSortKeepsOrder` | frontend/src/pages/MyTasks.jsx:66-67 | The default sort leaves the list unchanged, since every comparison is NaN |
| `MyTasksPage.DateSortIdentity` | frontend/src/pages/MyTasks.jsx:67 | A comparator that never orders two items apart leaves a stable sort's input unchanged |
| `MyTasksPage.TitleSortSorted` | frontend/src/pages/MyTasks.jsx:65 | The 'title' sort orders titles when `localeCompare` is a total preorder |
| `PublicTasksPage.FilteredTasks` | frontend/src/pages/PublicTasks.jsx:51-60 | A task is shown iff it matches search and status filter; the result is an order-preserving subsequence |
| `PublicTasksPage.PublicStats` | frontend/src/pages/PublicTasks.jsx:62-67 | pending = total - completed and completed <= total, completed counting the completed tasks |
| `PublicTasksPage.FindUser` | frontend/src/pages/PublicTasks.jsx:47 | `find` returns the first user with the selected id, or nothing when none has it |
| `PublicTasksPage.NameLabel` | frontend/src/pages/PublicTasks.jsx:48 | A user's label is "first last", with "undefined" for a missing part; it throws exactly when both parts are missing, since the user then has no `fullname` object |
| `PublicTasksPage.UserButtons` | frontend/src/pages/PublicTasks.jsx:122-131 | The user list renders iff every user can be labelled, and then holds one label per user in list order |
| `PublicTasksPage.SelectedUserName` | frontend/src/pages/PublicTasks.jsx:46-49 | "" exactly when no user has the selected id; otherwise the label of the first such user, or the exception it throws |
| `PublicTasksPage.AllFilterIsSearch` | frontend/src/pages/PublicTasks.jsx:55 | "all" imposes no status constraint |
| `PublicTasksPage.StatusFiltersPartition` | frontend/src/pages/PublicTasks.jsx:55-57 | "completed" and "pending" split what "all" shows |
| `PublicTasksPage.UnknownFilterShowsNothing` | frontend/src/pages/PublicTasks.jsx:55-57 | Any other filter value shows nothing |
| `PublicTasksPage.SelectedListedUserNamed` | frontend/src/pages/PublicTasks.jsx:46-49 | When the list renders, selecting a listed user gives a non-empty name |
| `PublicTasksPage.SelectedNameIsButtonLabel` | frontend/src/pages/PublicTasks.jsx:46-49 | With unique ids, the heading names the selected user exactly as that user's button does |
| `PublicTasksPage.NamelessUserCrashes` | frontend/src/pages/PublicTasks.jsx:48 | A user with neither name part makes the list throw, and the heading too once selected |
| `ProfilePage.FirstChar` | frontend/src/pages/Profile.jsx:71 | The first character of a name part, or "" when the part is missing or empty |
| `ProfilePage.Initials` | frontend/src/pages/Profile.jsx:70-72 | One character per present name part, at most two, none lower-case |
| `ProfilePage.GetUserStats` | frontend/src/pages/Profile.jsx:35-49 | completedTasks + pendingTasks == totalTasks and publicTasks <= totalTasks |
| `ProfilePage.InitialsOfLetters` | frontend/src/pages/Profile.jsx:70-72 | Two letter-initial names give two upper-case letters, first name first |
| `ProfilePage.MissingPartContributesNothing` | frontend/src/pages/Profile.jsx:71 | A missing or empty first name contributes nothing |
| `ProfilePage.ProfileAgreesWithMyTasks` | frontend/src/pages/Profile.jsx:42-43 | The profile's counts equal the "My Tasks" counts for the same list |
| `RegisterPage.Strength` | frontend/src/pages/Register.jsx:35-43 | The score is between 0 and 5; 0 iff the password is empty; 5 iff all five conditions hold, the length being counted in UTF-16 code units |
| `RegisterPage.StrengthText` | frontend/src/pages/Register.jsx:140-144 | The label is one of "Weak", "Medium" and "Strong" |
| `RegisterPage.StrengthColor` | frontend/src/pages/Register.jsx:134-138 | The colour is one of the three classes |
| `RegisterPage.StrengthMonotone` | frontend/src/pages/Register.jsx:35-43 | Appending characters never lowers the score |
| `RegisterPage.TextAndColorAgree` | frontend/src/pages/Register.jsx:134-144 | "Weak" for at most 2, "Medium" for 3, "Strong" for 4 or more, and the colour follows the same thresholds |
| `RegisterPage.LowercaseOnlyIsWeak` | frontend/src/pages/Register.jsx:37-39 | Any password of lower-case letters only is "Weak", scoring exactly 2 from 8 code units on |
| `RegisterPage.EmailShapeIsRegex` | frontend/src/pages/Register.jsx:85 | The page's e-mail check is exactly the unanchored `\S+@\S+\.\S+` match |
| `RegisterPage.NameError` | frontend/src/pages/Register.jsx:69-80 | No error iff the name is not blank and has a `length` of at least 2 code units |
| `RegisterPage.EmailError` | frontend/src/pages/Register.jsx:83-87 | No error iff the address is not blank and has the e-mail shape |
| `RegisterPage.PasswordError` | frontend/src/pages/Register.jsx:90-94 | No error iff the password has a `length` of at least 8 code units |
| `RegisterPage.ConfirmError` | frontend/src/pages/Register.jsx:97-101 | No error iff the confirmation is non-empty and equals the password |
| `RegisterPage.ValidateRegister` | frontend/src/pages/Register.jsx:65-105 | Each field has an error entry iff its rule fails |
| `RegisterPage.FormValidIff` | frontend/src/pages/Register.jsx:103-104 | The form is accepted iff every rule holds |
| `RegisterPage.BlankFirstNameMessage` | frontend/src/pages/Register.jsx:69-70 | A blank first name gets the "required" message as worded on the page |
| `RegisterPage.RegisterInput` | frontend/src/pages/Register.jsx:48-63 | Typing sets only the named field, clears only that field's error and clears the page error |
| `RegisterPage.Payload` | frontend/src/pages/Register.jsx:116-123 | Both names are sent, trimmed; the e-mail is trimmed, holds no upper-case ASCII letter and is never longer than typed; the password is sent unchanged |
| `RegisterPage.PayloadIgnoresPadding` | frontend/src/pages/Register.jsx:116-123 | White space typed around the names and the e-mail does not change what is posted |
| `RegisterPage.PayloadIgnoresEmailCase` | frontend/src/pages/Register.jsx:121 | E-mails differing only in ASCII letter case post the same address |
| `RegisterPage.PayloadNormalForm` | frontend/src/pages/Register.jsx:116-123 | A form already holding the payload's values posts the same payload |
| `RegisterPage.TrimKeepsEmailShape` | frontend/src/pages/Register.jsx:121 | Trimming keeps an accepted address's e-mail shape |
| `RegisterPage.LowerKeepsEmailShape` | frontend/src/pages/Register.jsx:121 | Lower-casing keeps an accepted address's e-mail shape |
| `RegisterPage.ValidFormPayload` | frontend/src/pages/Register.jsx:103-123 | An accepted form sends non-empty names, a non-empty address of the e-mail shape and a password of at least 8 code units |
| `RegisterPage.ShortNameAcceptedThenRejected` | frontend/src/pages/Register.jsx:71-72 | A name the page accepts whose trimmed `length` is below 3 is rejected by the User schema |
| `Forms.ClearFieldError` | frontend/src/pages/EditTask.jsx:66-71 | The named field's message becomes empty, every other entry stays |
| `Forms.LastInputWins` | frontend/src/pages/CreateTask.jsx:22-25 | Two inputs to one field leave only the second |
| `Forms.DistinctInputsCommute` | frontend/src/pages/CreateTask.jsx:22-25 | Inputs to different fields commute |
| `CreateTaskPage.ValidateCreate` | frontend/src/pages/CreateTask.jsx:30-48 | Accepted iff title and description are not blank and at most 100 and 500 UTF-16 code units long; otherwise the first failing check's message, in the page's order |
| `CreateTaskPage.CreateInput` | frontend/src/pages/CreateTask.jsx:20-28 | The input's field is set, other fields unchanged, and the page error cleared |
| `CreateTaskPage.LengthBoundaries` | frontend/src/pages/CreateTask.jsx:39-46 | A `length` of exactly 100 and 500 is accepted, one more character is rejected |
| `CreateTaskPage.SurrogatePairsCountTwice` | frontend/src/pages/CreateTask.jsx:39-41 | A title of 51 characters outside the Basic Multilingual Plane has `length` 102 and is refused |
| `CreateTaskPage.InputsUpdateOneField` | frontend/src/pages/CreateTask.jsx:20-25 | Typing a title, typing a description and ticking the box each change only that field of the form |
| `CreateTaskPage.AcceptedFormCreates` | frontend/src/pages/CreateTask.jsx:59 | A form the page accepts is created by `POST /tasks`, owned by the requester with the chosen visibility and the trimmed title |
| `EditTaskPage.FieldError` | frontend/src/pages/EditTask.jsx:78-88 | No error iff the value is not blank and its `length` is within the limit; the "required" message for blank, the length message otherwise |
| `EditTaskPage.ValidateEdit` | frontend/src/pages/EditTask.jsx:75-92 | A field has an entry iff its rule fails, with the page's message |
| `EditTaskPage.EditValidIff` | frontend/src/pages/EditTask.jsx:90-91 | The form is accepted iff both fields are non-blank and their `length` is within the limits |
| `EditTaskPage.EditInput` | frontend/src/pages/EditTask.jsx:58-73 | Sets only the named field, clears only that field's message, and clears the page error |
| `EditTaskPage.EditPayload` | frontend/src/pages/EditTask.jsx:103-108 | The payload forwards `isCompleted` and `isPublic` unchanged and names no owner |
| `EditTaskPage.ValidPayloadBounded` | frontend/src/pages/EditTask.jsx:78-105 | An accepted form sends a non-empty title of `length` at most 100 and a non-empty description of at most 500 |
| `EditTaskPage.AcceptedEditSaved` | frontend/src/pages/EditTask.jsx:103-108 | An accepted edit of a stored task is saved with the trimmed text and chosen completion; the visibility checkbox has no effect |
| `EditTaskPage.InputClearsOnlyItsError` | frontend/src/pages/EditTask.jsx:66-71 | Typing a title blanks the title message and keeps the description message |

## Left out

- I/O: HTTP parsing, Express wiring, MongoDB queries, axios calls, React rendering, hooks, loading flags, redirects and `localStorage`. Store reads and writes become map operations.
- Default error page: the framework's 500 page (HTML, with a stack trace outside production) is reduced to one body, `Db.DefaultErrorPage`, without content.
- Database failures: no store operation fails in the model. The handlers' catch paths are modelled only for the causes the code itself produces: a cast error, a failed validation, or a service error.
- `viewPUsers`: its 500 "nhi chla" path is not modelled, because it arises only from a database failure.
- Concurrency: the model has no concurrent requests and no read-modify-write races between toggles.
- Cryptography: bcrypt and JWT internals are not modelled. This covers bcrypt's 72-byte input truncation, the signature algorithm and the encoding of tokens. Only the properties in `SoundJwt` and `SoundBcrypt` are used.
- `user.service`, the blacklist model and the express-validator rules of the user routes are not part of this model:
  - validation is a boolean parameter;
  - `createUser` is taken to store the record when the User schema accepts it;
  - the blacklist model is taken to reject a missing or empty token.
- Natural order: MongoDB's natural order is taken to be insertion order.
- `createTask`: its catch calls `next(err)`, and the framework's default page answers 500 at once, since the request body has already been read. The handler's own `res.status(500).json(...)` then throws because the response was already sent; that second exception is not modelled.
- Text.ToLower: ASCII-only case mapping. JavaScript maps all of Unicode.
- ProfilePage.Initials: ASCII-only upper-casing.
- ProfilePage.FirstChar: returns the whole first character. For a name starting outside the Basic Multilingual Plane, `charAt(0)` returns only the high surrogate, which a Dafny `char` cannot hold.
- RegisterPage.Payload: ASCII-only lower-casing of the e-mail.
- The whitespace set of `trim` and `\S` is the ECMAScript one, but `\S` is only used through the e-mail shape.
- MyTasksPage.SortTasks: `localeCompare` is an abstract comparator. The 'title' sort is proved ordered only when the comparator is a total preorder.
- The 'date' sort compares `createdAt`, which the list never carries. The schema field is misspelled `creadtedAt`, so dates are not modelled: every comparison is NaN and counts as equal.
- EditTaskPage.EditForm: the description is always a string. A task saved without one makes `formData.description.trim()` throw (frontend/src/pages/EditTask.jsx:84); the model does not represent that crash.
- Search: a task without a description makes the page's search throw. The model gives every list item a description string.
- TaskController.Overwrite: an undefined `isCompleted` in an update is stored unset and read back as the schema default `false`. The model stores `false` directly.
- Routes.Serve: the contract does not state the handler's result for an admitted request. Separate lemmas state the route reached for each path.
- Routing: the framework's HTML 404 page, `HEAD` requests, trailing slashes and URL decoding are not modelled. The 404 body is reduced to a message.
- Routing: `Routes` covers only the task router. The user router file is not part of this model, so register, login, profile and logout are modelled as handlers directly.
- UI-only pages (Navbar, App, Home, Dashboard) hold no logic beyond navigation and are not modelled.
