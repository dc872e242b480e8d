# curt-task server core in Dafny

This project models the server of curt-task, a small task tracker. Users
register and log in, then manage projects and the tasks inside them through a
REST API under `/api/v1`. Every project and task route sits behind the
`protect` gate, which admits a request only with a valid bearer token for a
stored user. Failures reach one global error handler. That handler maps them
to a client reply and behaves differently in development and production.

The model covers these parts:

- **Schemas.** Task, project and user documents (`TaskModel`, `ProjectModel`,
  `UserModel`). Each is a datatype with its Mongoose rules written out:
  required fields, the status enum and its default, the `createdAt` default
  taken once at start-up, and the unique indexes. The user document is the
  `UserDoc` class, whose `pre('save')` hook rewrites its password in place.
- **The database.** The `Store.Db` class holds the users as a sequence (in
  the collection's natural order, which `findOne` depends on) and the
  projects and tasks as maps by id. Its `Valid` invariant is the unique
  indexes plus the two `createdAt` defaults. Every state-changing method
  keeps it.
- **Controllers.** `ProjectController` and `TaskController` are methods over
  `Db` that change the collections in place. The read-only queries are
  functions over the maps.
- **Authentication.** `AuthHeader` parses the bearer header with
  JavaScript's `split(' ')`. `Auth` holds the `protect` gate, login,
  registration and `createSendToken`.
- **Error handler.** `ErrorHandling` models defaulting, the production
  classification chain with its `{ ...err }` copy, `sendErrorProd` and
  `sendErrorDev`.
- **Routers.** `Routes` turns both routers into ordered layer tables with
  Express's first-match rule.
- **Request path.** `App` runs a request through the router, the gate and
  the controller.

Foreign code is passed in as function-valued parameters. No cryptographic or
library claim is made about it. It covers:

- bcrypt's hash and compare, and jsonwebtoken's sign and verify (`Auth.Crypto`);
- how AppError derives its `status` from its status code;
- the library error messages;
- the value the duplicate-key regular expression extracts (`ErrorHandling.Library`).

Fresh document ids are method parameters, each with a freshness precondition.

A stored task's status is always one of `ToDo`, `InProgress` and `Done`,
because `TaskModel.Status` has exactly those three values. Every stored
task, and every user, carries the single `createdAt` value its schema
captured at start-up. `Store.Db.Valid` states this, and every controller
keeps it.

## Model

| member | source | states |
|---|---|---|
| TaskModel.ParseStatus | server/models/taskModel.js:14-17 | a string is accepted as a status exactly when it is one of the three enum values, and the status read back names that string |
| TaskModel.StatusNameRoundTrip | server/models/taskModel.js:14-17 | every status's name is an enum value and parses back to the same status |
| TaskModel.CheckTitle | server/models/taskModel.js:6-9 | a title is accepted exactly when present and non-empty; otherwise the single error is "Please provide a title" |
| TaskModel.CheckStatus | server/models/taskModel.js:10-18 | `required` before `enum`: an empty status gets "A task must have a status", any other non-enum value gets the enum message, the three values are accepted |
| TaskModel.CheckProjectId | server/models/taskModel.js:23-27 | a projectId is accepted exactly when present; otherwise "Task must belong to a project" |
| TaskModel.NewTask | server/models/taskModel.js:4-28 | a new task is accepted iff title and projectId are present and the status is omitted or in the enum; it carries the given fields, status `ToDo` when omitted, the schema's `createdAt`; "Please provide a title", "Task must belong to a project", "A task must have a status" (status set to "") and the enum message are each reported iff their rule fails |
| TaskModel.TaskUpdate | server/controllers/taskController.js:52-55 | update validators run only on the fields being set: accepted iff the title is not set to "" and a set status is in the enum; the patch carries exactly what was given; each rule's message is reported iff it fails |
| TaskModel.UpdatedTaskFields | server/controllers/taskController.js:48-55 | an accepted update sets exactly the given title and status, keeps the others, and never changes `projectId` or `createdAt` |
| ProjectModel.NewProject | server/controllers/projectController.js:9-12 | a project is created iff the title is present, carrying the given title and description |
| ProjectModel.ProjectUpdate | server/controllers/projectController.js:42-46 | a project update is accepted iff it does not set the title to ""; the patch is exactly the given title and description |
| ProjectModel.UpdatedProjectFields | server/controllers/projectController.js:42-46 | an accepted update overwrites the given title and description, keeps the rest, and with nothing given leaves the project unchanged |
| UserModel.NewUserErrors | server/models/userModel.js:6-15 | a new user has no validation error iff username and password are both present; a missing username is reported on the `username` path and a missing password on the `password` path, each with the message "Please provide a username" the schema gives both, and nothing else is reported |
| UserModel.FindByUsername | server/controllers/authController.js:42 | `findOne({username})` returns a stored user with that name, and returns nothing iff no stored user has it |
| UserModel.FindById | server/controllers/authController.js:61 | `findById` returns a stored user with that id, and returns nothing iff none has it |
| UserModel.FindByUsernameOfMember | server/models/userModel.js:6-10 | with usernames unique, looking up a stored user's name finds exactly that user |
| UserModel.FindByUsernameAppended | server/controllers/authController.js:42 | a user appended under an unused name is what `findOne` finds for it |
| UserModel.UniqueUsernames | server/models/userModel.js:8 | the unique index on `username`: no two stored users share a username |
| UserModel.UniquePasswords | server/models/userModel.js:13 | the unique index on `password`, over the stored salted hashes: no two stored users share a hash |
| UserModel.CorrectPassword | server/models/userModel.js:33-35 | `correctPassword` is bcrypt's compare of the candidate against the stored hash, a foreign function with no claim made about it |
| UserModel.UserDoc.New | server/controllers/authController.js:28-31 | a document built by `create` holds the given fields and counts its password as modified |
| UserModel.UserDoc.Loaded | server/controllers/authController.js:42 | a loaded document holds the stored fields and counts nothing as modified |
| UserModel.UserDoc.PreSave | server/models/userModel.js:27-31 | a modified password becomes its hash at cost 12 with the salt drawn for this call; an unmodified one is left as it is, so there is no second hash |
| Routes.MatchPattern | server/routes/taskRoutes.js:16-22 | a pattern matches iff it has the path's length and every segment matches (a parameter matches one non-empty segment); every parameter is bound |
| Routes.FirstMatch | server/routes/taskRoutes.js:15-22 | no route iff no layer handles the verb and matches the path; otherwise the route is the chain and bindings of a matching layer |
| Routes.TablesGuarded | server/routes/projectRoutes.js:14-19 | every layer of both routers runs `protect` first, then exactly one controller |
| Routes.FirstMatchGuarded | server/routes/taskRoutes.js:15-22 | whatever layer a guarded table picks, its chain begins with `protect` |
| Routes.Dispatch | server/app.js:13-14 | every routed request's chain begins with `protect`, and only paths under `/api/v1/tasks` or `/api/v1/projects` are routed |
| Routes.MatchOneParam | server/routes/taskRoutes.js:16 | a `/:name` pattern binds exactly that parameter to the one segment |
| Routes.FirstMatchAt | server/routes/taskRoutes.js:15-22 | the router picks layer k when k is the first layer that handles the verb and matches |
| Routes.NoLayerMatches | server/routes/taskRoutes.js:15-22 | a path whose length fits no layer of the verb is not routed |
| Routes.ProjectRoot | server/routes/projectRoutes.js:14 | `GET /` goes to `[protect, getProjects]`, `POST /` to `[protect, createProject]`, other verbs nowhere |
| Routes.ProjectById | server/routes/projectRoutes.js:15-19 | GET, PATCH and DELETE on `/:id` go to getProjectById, updateProject and deleteProject behind `protect`, binding `id` |
| Routes.ProjectTableMeetsSpec | server/routes/projectRoutes.js:14-19 | the project router routes every verb and path exactly as the path-shape table says |
| Routes.TaskRoot | server/routes/taskRoutes.js:15 | `GET /` goes to `[protect, getTasks]`, `POST /` to `[protect, createTask]` |
| Routes.TaskById | server/routes/taskRoutes.js:16-20 | GET, PATCH and DELETE on `/:id` go to getTaskById, updateTask and deleteTask behind `protect` |
| Routes.TasksOfProjectRoute | server/routes/taskRoutes.js:22 | `GET /project/:projectId` goes to `[protect, getTasksForProject]`; since `:id` matches one segment it never takes this path |
| Routes.TaskTableMeetsSpec | server/routes/taskRoutes.js:15-22 | the task router routes every verb and path exactly as the path-shape table says |
| Store.Db.constructor | server/models/taskModel.js:19-22 | an empty database whose task and user `createdAt` defaults are fixed at start-up |
| Store.Db.Valid | server/models/userModel.js:6-19 | the invariant every controller keeps: ids, usernames and password hashes unique, and every stored user and task carrying its schema's single `createdAt` default |
| Store.TasksOf | server/controllers/taskController.js:30 | `find({projectId})` holds exactly the tasks of that project, unchanged |
| Store.RemoveTasksOf | server/controllers/projectController.js:59 | `deleteMany({projectId})` leaves exactly the tasks of other projects, unchanged |
| Store.CascadePartition | server/controllers/projectController.js:59 | the kept tasks and the project's tasks are disjoint and together are all the tasks |
| Store.CascadeLeavesOthers | server/controllers/projectController.js:59 | after the bulk delete the project has no tasks and every other project's tasks are as before |
| ProjectController.CreateProject | server/controllers/projectController.js:6-18 | adds exactly one project under the new id, with the given title and description, and answers 201; a missing title stores nothing and goes to `next` |
| ProjectController.GetProjects | server/controllers/projectController.js:20-26 | answers 200 with every stored project |
| ProjectController.GetProjectById | server/controllers/projectController.js:28-37 | answers 200 with the project iff it exists, else a 404 "Project not found" |
| ProjectController.UpdateProject | server/controllers/projectController.js:39-54 | validates first; a present target gets the patch and is answered 200 as updated; an absent one is a 404 with nothing changed; other projects, tasks and users are untouched |
| ProjectController.DeleteProject | server/controllers/projectController.js:56-71 | deletes the project's tasks first, even when the project is absent; then 204 or a 404 "No project found with that id"; no task of the project remains, other projects' tasks are untouched, and the project then reads as 404 |
| TaskController.CreateTask | server/controllers/taskController.js:5-18 | stores one task with the given fields and answers 201 iff title and projectId are present and the status is omitted or valid; the project's existence is never consulted |
| TaskController.GetTasks | server/controllers/taskController.js:20-27 | answers 200 with every stored task |
| TaskController.GetTasksForProject | server/controllers/taskController.js:29-35 | answers 200 with exactly the project's tasks, and an empty list (never an error) when there are none |
| TaskController.GetTaskById | server/controllers/taskController.js:37-46 | answers 200 with the task iff it exists, else a 404 "Task not found" |
| TaskController.UpdateTask | server/controllers/taskController.js:48-63 | validates first (an out-of-enum status is refused); a present target gets the new title and status, keeps `projectId` and `createdAt`, and is answered 200; an absent one is a 404; no other task changes |
| TaskController.DeleteTask | server/controllers/taskController.js:65-78 | removes exactly that task and answers 204, or a 404 "No task found with that id"; the task then reads as 404 |
| AuthHeader.Split | server/controllers/authController.js:55 | `split(' ')`: at least one piece, no piece has a space, the first piece runs to the first space, exactly one piece iff there is no space |
| AuthHeader.JoinSplit | server/controllers/authController.js:55 | joining the pieces with spaces restores the header |
| AuthHeader.SplitNoSpace | server/controllers/authController.js:55 | a space-free string splits into itself |
| AuthHeader.SplitWord | server/controllers/authController.js:55 | a word and a space split off as the first piece |
| AuthHeader.SplitJoin | server/controllers/authController.js:55 | splitting joined space-free pieces gives them back |
| AuthHeader.ExtractToken | server/controllers/authController.js:54-55 | a token exists iff the header starts with `Bearer `; it is the space-free text after the prefix, ending at the header's end or at a space |
| AuthHeader.ExtractTokenOfBearer | server/controllers/authController.js:54-55 | `Bearer <token>` yields exactly the token (so `Bearer ` yields the empty token) |
| Auth.Gate | server/controllers/authController.js:53-66 | no or empty token is a 401 "You are not logged in…"; token errors reject with jsonwebtoken's error; an unknown user id is a 401 "User does not exist anymore"; it passes iff the token verifies to a stored user, and with that user |
| Auth.Protect | server/controllers/authController.js:53-66 | attaches the gate's user to the request when it passes; otherwise the request is unchanged and the failure goes to `next` |
| Auth.CheckLogin | server/controllers/authController.js:36-51 | missing credentials are a 400 before any lookup; it logs in iff the username is stored and `correctPassword` accepts; every other refusal is the same 401 "Incorrect username or password." |
| Auth.LoginNextCalls | server/controllers/authController.js:44-48 | as written: `next` is called iff the login is refused, twice exactly for an unknown username (first with an AppError without a status code), and the last call always agrees with `CheckLogin` |
| Auth.UnknownUsernameAnswered500 | server/controllers/authController.js:45 | as written, an unknown username reaches the client as a 500 in either mode (its message shown only in development); the corrected check gives a 401 "Incorrect username or password." |
| Auth.CreateSendToken | server/controllers/authController.js:13-25 | signs a token over the user's id, clears the password, and answers with the token and the password-free user |
| Auth.LoginUser | server/controllers/authController.js:36-51 | a refusal goes to `next`; a login answers 200 with a token over the user's id and the user without a password |
| Auth.Register | server/controllers/authController.js:27-31 | validation first, then hashing at cost 12 with this call's salt, then the unique indexes: registers iff both fields are present, the username is unused and the salted hash is unused, storing that hash; a taken username is a duplicate key on `username`, and a taken hash (with a free username) one on `password` |
| Auth.RegisterKeepsUnique | server/models/userModel.js:6-15 | a registration keeps ids, usernames and passwords unique |
| Auth.SharedPasswordRegisters | server/models/userModel.js:11-15 | a second user choosing an already-used password, under another username, is registered whenever the two salts give different hashes |
| Auth.RegisterThenLogin | server/controllers/authController.js:27-51 | a user who just registered can log in with the same credentials, given that compare accepts a password against its own salted hash |
| Auth.RegisterUser | server/controllers/authController.js:27-34 | appends exactly the registered user (with the password hashed under the given salt) and answers 201 with a token and the password-free user; a refusal changes nothing |
| ErrorHandling.Defaulted | server/controllers/errorController.js:70-71 | a falsy status code becomes 500 and a falsy status becomes `'error'`; set values are kept; nothing else changes |
| ErrorHandling.SpreadAsWritten | server/controllers/errorController.js:76 | `{ ...err }` has no `message` and no `stack`, which are own but not enumerable on an Error; it keeps the other properties the handler reads from it |
| ErrorHandling.CopyKeepingMessage | server/controllers/errorController.js:76 | the intended copy keeps the message and differs from the copy as written in nothing else |
| ErrorHandling.HandleCastError | server/controllers/errorController.js:28-32 | an operational 400 whose message is "Invalid <path>: <value>" |
| ErrorHandling.HandleDuplicateFields | server/controllers/errorController.js:34-39 | yields an operational 400 "Duplicate field value: <value>. Please use another value" iff the driver's message has a quoted value, and throws otherwise |
| ErrorHandling.HandleValidationError | server/controllers/errorController.js:41-62 | succeeds iff `errors` is defined and no inner error's rendering throws, and then is an operational 400 whose message is the rendered texts joined with ". " |
| ErrorHandling.Renders | server/controllers/errorController.js:42-59 | the texts from index i on, one per inner error, in order, each that error's own text; it throws iff one of them throws |
| ErrorHandling.Render | server/controllers/errorController.js:43-58 | an inner validator error renders as its own message; only a nested duplicate-key or validation error can make rendering throw |
| ErrorHandling.HandleJWTError | server/controllers/errorController.js:64 | an operational 401 "Invalid token. Please log in again" |
| ErrorHandling.HandleExpiredTokenError | server/controllers/errorController.js:66-67 | an operational 401 "Your token has expired. Please log in again" |
| ErrorHandling.ProductionChain | server/controllers/errorController.js:76-88 | whatever the chain produces still has a status code and a status |
| ErrorHandling.SendProduction | server/controllers/errorController.js:12-26 | an operational error is echoed with its own code, status and message; anything else is 500 "Something went wrong"; never a stack |
| ErrorHandling.SendDevelopment | server/controllers/errorController.js:3-10 | sends the error's own code, status, message and stack, and the error itself, operational or not |
| ErrorHandling.RendersSameErrors | server/controllers/errorController.js:42-59 | rendering the inner errors reads only the list of inner errors, so two copies with the same list render alike |
| ErrorHandling.FinishIgnoresCopyName | server/controllers/errorController.js:76-89 | the handler's outcome does not depend on the copy's `name`, which `{ ...err }` loses for an error whose name is inherited: the chain tests the original error's name, and nothing reads the copy's |
| ErrorHandling.HandleAsWritten | server/controllers/errorController.js:69-91 | the handler as written: outside production it is the corrected handler; in production every classified error (cast, duplicate key, validation, token) gets the corrected handler's outcome, while an unclassified operational error is echoed with its code and status but no message, and a non-operational one is a generic 500 |
| ErrorHandling.Handle | server/controllers/errorController.js:69-91 | no reply iff the mode is neither development nor production; development sends message, stack and the error; production never sends a stack |
| ErrorHandling.ProductionPassThrough | server/controllers/errorController.js:12-26 | in production an unclassified operational error is echoed with its code and status, with its message by the corrected handler and without one as written; any other unclassified error is a generic 500 either way |
| ErrorHandling.CastErrorResponse | server/controllers/errorController.js:28-32 | a CastError becomes 400 "Invalid <path>: <value>" |
| ErrorHandling.DuplicateKeyResponse | server/controllers/errorController.js:34-39 | a code-11000 error becomes 400 "Duplicate field value: <value>. Please use another value" |
| ErrorHandling.DuplicateKeyThrows | server/controllers/errorController.js:35 | a code-11000 error without a quoted value, or one the cast handler ran on first, makes the handler throw |
| ErrorHandling.RendersValidatorMessages | server/controllers/errorController.js:42-59 | inner validator errors render as their own messages, in order |
| ErrorHandling.ValidationErrorResponse | server/controllers/errorController.js:41-62 | a ValidationError of validator errors becomes a 400 whose message is their messages joined with ". " |
| ErrorHandling.TokenErrorResponses | server/controllers/errorController.js:64-67 | JsonWebTokenError becomes 401 "Invalid token. Please log in again" and TokenExpiredError 401 "Your token has expired. Please log in again"; as the last tests, they win over earlier classifications |
| ErrorHandling.ToErr | server/controllers/errorController.js:41-45 | the error object behind a validation failure has one inner validator error per failed path, carrying its message |
| ErrorHandling.FailureResponses | server/controllers/errorController.js:69-91 | in production, each failure a controller raises gets its reply: an AppError keeps its code (500 when it has none) and, corrected, its message, while as written it arrives with no message; validation is 400 with the joined messages, a duplicate key is 400 or a throw, token errors are 401s, the same as written and corrected |
| App.Serve | server/app.js:12-16 | a request neither the project nor the task router matches gets no answer from them and changes nothing; a request the gate rejects goes to `next` before any controller, changing nothing; a passed request carries the route's params and the user and gets exactly the answer and new projects and tasks of the controller its route names; a GET changes nothing; users never change |
| App.RejectedRequestsAre401 | server/controllers/authController.js:53-66 | every gate rejection reaches a production client as a 401, as written and corrected |
| App.LoginRefusalResponse | server/controllers/authController.js:39-48 | corrected: 400 with its message for missing credentials, otherwise the same 401 and message for an unknown user or a wrong password; as written the first reply has no message and is 400, 500 or 401 respectively |
| App.DuplicateUsernameResponse | server/controllers/errorController.js:34-39 | registering a taken username reaches a production client as a 400 naming the value, as written and corrected alike |
| App.ProjectNotFoundMessage | server/controllers/errorController.js:76 | as written, `getProjectById` on an absent id is a production 404 without "Project not found"; the corrected handler sends it |

## Left out

- The HTTP transport, JSON bodies and serialisation, CORS, `express.json`, the Mongo connection and `listen` (server/index.js).
- `console.log` and `console.error` in the error handler.
- The React client.
- server/routes/userRoutes.js is not part of this model. Registration and login are modelled as methods, without their routes.
- server/models/projectsModel.js is not part of this model. The project title is assumed to be required, and the message of that rule is a database constant (`Store.Db.projectTitleRequired`).
- server/utils/appError.js is not part of this model:
  - how AppError derives `status` is a parameter;
  - its `name` is taken to be the inherited `"Error"`;
  - its `isOperational` is taken to be true.
- server/utils/catchAsync.js is not part of this model. A rejected promise is modelled as a failure handed to `next`.
- Malformed ids are not modelled. Ids are opaque strings, so no controller ever raises a CastError. This covers `findById`, `findByIdAndUpdate` and `findByIdAndDelete` on an id in the URL. It also covers `Task.find` and `Task.deleteMany` by a `projectId` in the URL. And it covers `Task.create`: `TaskModel.NewTask` accepts any non-empty `projectId`, while the source turns a projectId that is not an ObjectId (such as `abc`) into a ValidationError whose inner error is a CastError. The handler's CastError mapping, inner errors included, is still modelled.
- Requests outside the project and task routers: the users router's own paths and Express's final 404 for a path no router matches.
- Express routing details: case-insensitive and trailing-slash matching, URL decoding, HEAD and OPTIONS. Paths are given already split into segments.
- Request fields are strings or absent. `null`, numbers and objects in a body are not modelled.
- Updates assume Mongoose drops `undefined` fields from an update. Update validators are taken to run before the lookup, so an invalid update of an absent id is a validation failure, not a 404.
- Projects and tasks are maps, so the order in which lists are returned is not modelled.
- The salt bcrypt draws at random on every hash is a parameter of each registration (`salt` in `Auth.Register`, `Auth.RegisterUser` and `UserDoc.PreSave`), so the model does not say how likely two salted hashes are to collide. The JWT secret and the token lifetime are folded into `Auth.Crypto`'s functions. Token expiry timing is jsonwebtoken's `TokenExpiredError` outcome.
- Auth.Register: when both the username and the password hash are already taken, the model reports the username. The index MongoDB reports first is not modelled.
- When several paths of a document fail validation, they are reported in schema order. Mongoose's own order is not modelled.
- The text of the duplicate-key message and the regular expression that quotes its value are a parameter (`Library.duplicateMatch`).
- Development mode's `error: err` is the error value itself. JSON's choice of own enumerable properties is not modelled.
- Auth.LoginUser: models the single answer the handler evidently intends (`Auth.CheckLogin`). The double `next` of the code as written is `Auth.LoginNextCalls`. What Express does with the second call, after a reply has been sent, is not modelled.
- Concurrency: interleaved requests, and a crash between the two steps of the project-delete cascade. The cascade is two sequential updates within one method.

## Findings

| source | as written | input that shows it | evidently intended | confidence | as-written member | corrected member |
|---|---|---|---|---|---|---|
| server/controllers/errorController.js:76 | the production branch copies the error with `{ ...err }`, which leaves out the non-enumerable `message`, so an operational error is echoed without its message | `getProjectById` on an absent id in production: the reply is 404 with no "Project not found" | the reply carries the error's message, as `sendErrorProd` intends | medium: it rests on AppError passing its message to Error's constructor, and server/utils/appError.js is not part of this model; not executed | ErrorHandling.HandleAsWritten, shown by ErrorHandling.ProductionPassThrough and App.ProjectNotFoundMessage | ErrorHandling.Handle |
| server/controllers/authController.js:45 | for an unknown username, `400` is passed to `next` instead of to `AppError`, and `next` is called a second time; the first error has no status code, so the handler answers 500 | login with any password for a username no user has | a single 401 "Incorrect username or password.", the same as for a wrong password | high; not executed | Auth.LoginNextCalls, shown by Auth.UnknownUsernameAnswered500 | Auth.CheckLogin |
