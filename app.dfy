/** The application: a request under `/api/v1/projects` or `/api/v1/tasks`
    is routed, passes through `protect`, and reaches its controller; a
    failure on the way goes to the error handler. */
module App {
  import opened Common
  import opened ProjectModel
  import opened TaskModel
  import opened UserModel
  import opened Routes
  import opened Http
  import opened Store
  import opened Auth
  import opened ErrorHandling
  import PC = ProjectController
  import TC = TaskController

  /** What the controller a passed request reaches does, as that
      controller's own contract states it: its answer `r`, and the projects
      and tasks it leaves in `db`, given the `projects` and `tasks` it
      found. The read-only controllers change nothing. */
  ghost predicate Answered(h: Handler, body: Fields, params: map<string, string>, freshId: Id, db: Db,
                           projects: map<Id, Project>, tasks: map<Id, Task>, r: Response)
    reads db
  {
    var id := ParamValue(params, "id");
    match h
    case GetProjects =>
      r == PC.GetProjects(projects) && db.projects == projects && db.tasks == tasks
    case GetProjectById =>
      r == PC.GetProjectById(projects, id) && db.projects == projects && db.tasks == tasks
    case GetTasks =>
      r == TC.GetTasks(tasks) && db.projects == projects && db.tasks == tasks
    case GetTaskById =>
      r == TC.GetTaskById(tasks, id) && db.projects == projects && db.tasks == tasks
    case GetTasksForProject =>
      r == TC.GetTasksForProject(tasks, ParamValue(params, "projectId")) && db.projects == projects && db.tasks == tasks
    case CreateProject =>
      && db.tasks == tasks
      && (match NewProject(body.title, body.description, db.projectTitleRequired)
          case Accepted(p) => r == Respond(201, ProjectData(freshId, p)) && db.projects == projects[freshId := p]
          case Rejected(errors) => r == Next(Invalid(errors)) && db.projects == projects)
    case UpdateProject =>
      && db.tasks == tasks
      && (match ProjectUpdate(body.title, body.description, db.projectTitleRequired)
          case Rejected(errors) => r == Next(Invalid(errors)) && db.projects == projects
          case Accepted(patch) =>
            if id in projects then
              && db.projects == projects[id := ApplyProjectPatch(projects[id], patch)]
              && r == Respond(200, ProjectData(id, db.projects[id]))
            else
              db.projects == projects && r == Next(AppFailure(PC.ProjectNotFound, 404)))
    case DeleteProject =>
      && db.tasks == RemoveTasksOf(tasks, id)
      && db.projects == projects - {id}
      && r == if id in projects then Respond(204, NoData) else Next(AppFailure(PC.NoProjectWithId, 404))
    case CreateTask =>
      && db.projects == projects
      && (match NewTask(body.title, body.status, body.projectId, db.taskCreatedAt)
          case Accepted(t) => r == Respond(201, TaskData(freshId, t)) && db.tasks == tasks[freshId := t]
          case Rejected(errors) => r == Next(Invalid(errors)) && db.tasks == tasks)
    case UpdateTask =>
      && db.projects == projects
      && (match TaskUpdate(body.title, body.status)
          case Rejected(errors) => r == Next(Invalid(errors)) && db.tasks == tasks
          case Accepted(patch) =>
            if id in tasks then
              && db.tasks == tasks[id := ApplyTaskPatch(tasks[id], patch)]
              && r == Respond(200, TaskData(id, db.tasks[id]))
            else
              db.tasks == tasks && r == Next(AppFailure(TC.TaskNotFound, 404)))
    case DeleteTask =>
      && db.projects == projects
      && db.tasks == tasks - {id}
      && r == if id in tasks then Respond(204, NoData) else Next(AppFailure(TC.NoTaskWithId, 404))
    case Protect => false
  }

  /** Handling one project or task request. A request no layer matches gets
      no answer from these routers and changes nothing. A request the gate
      rejects is handed to the error handler with the gate's failure before
      any controller runs, so nothing changes. A request the gate passes has
      the route's parameters and the current user attached, and gets the
      answer and the new state of the controller its route names. A GET
      changes nothing, and no project or task request changes the users. */
  method Serve(db: Db, crypto: Crypto, req: Request, freshId: Id) returns (res: Option<Response>)
    requires db.Valid() && freshId !in db.projects && freshId !in db.tasks
    modifies db, req`params, req`user
    ensures db.Valid()
    ensures db.users == old(db.users)
    ensures Dispatch(req.verb, req.path).None? ==>
      res.None? && db.projects == old(db.projects) && db.tasks == old(db.tasks)
    ensures Dispatch(req.verb, req.path).Some? ==> req.params == Dispatch(req.verb, req.path).value.params
    ensures Dispatch(req.verb, req.path).Some? && Gate(req.authorization, crypto.verify, db.users).Reject? ==>
      && res == Some(Next(Gate(req.authorization, crypto.verify, db.users).failure))
      && db.projects == old(db.projects) && db.tasks == old(db.tasks)
    ensures Dispatch(req.verb, req.path).Some? && Gate(req.authorization, crypto.verify, db.users).Proceed? ==>
      && res.Some?
      && req.user == Some(Gate(req.authorization, crypto.verify, db.users).user)
      && Answered(Dispatch(req.verb, req.path).value.chain[1], req.body, req.params, freshId, db,
                  old(db.projects), old(db.tasks), res.value)
    ensures req.verb == Get ==> db.projects == old(db.projects) && db.tasks == old(db.tasks)
  {
    res := None;
    var route := Dispatch(req.verb, req.path);
    if route.None? {
      return;
    }
    if req.verb == Get {
      ProjectTableMeetsSpec(Get, req.path[3..]);
      TaskTableMeetsSpec(Get, req.path[3..]);
    }
    req.params := route.value.params;
    var rejection := Auth.Protect(req, crypto.verify, db.users);
    if rejection.Some? {
      return Some(Next(rejection.value));
    }
    var body := req.body;
    var r: Response;
    match route.value.chain[1] {
      case GetProjects =>
        r := PC.GetProjects(db.projects);
      case CreateProject =>
        r := PC.CreateProject(db, body.title, body.description, freshId);
      case GetProjectById =>
        r := PC.GetProjectById(db.projects, ParamValue(req.params, "id"));
      case UpdateProject =>
        r := PC.UpdateProject(db, ParamValue(req.params, "id"), body.title, body.description);
      case DeleteProject =>
        r := PC.DeleteProject(db, ParamValue(req.params, "id"));
      case GetTasks =>
        r := TC.GetTasks(db.tasks);
      case CreateTask =>
        r := TC.CreateTask(db, body.title, body.status, body.projectId, freshId);
      case GetTaskById =>
        r := TC.GetTaskById(db.tasks, ParamValue(req.params, "id"));
      case UpdateTask =>
        r := TC.UpdateTask(db, ParamValue(req.params, "id"), body.title, body.status);
      case DeleteTask =>
        r := TC.DeleteTask(db, ParamValue(req.params, "id"));
      case GetTasksForProject =>
        r := TC.GetTasksForProject(db.tasks, ParamValue(req.params, "projectId"));
      case Protect =>
        assert false;
    }
    res := Some(r);
  }

  /** Every rejection by the gate reaches a production client as a 401,
      whichever of its four reasons it was, with the handler as written as
      with the corrected one. */
  lemma RejectedRequestsAre401(header: Option<string>, verify: string -> Verified, users: seq<User>, lib: Library)
    requires Gate(header, verify, users).Reject?
    ensures var out := Handle(Production, ToErr(Gate(header, verify, users).failure, lib), lib.appStatus);
      out.Sent? && out.reply.statusCode == 401
    ensures var out := HandleAsWritten(Production, ToErr(Gate(header, verify, users).failure, lib), lib.appStatus);
      out.Sent? && out.reply.statusCode == 401
  {
  }

  /** How a login refusal reaches a production client. With the corrected
      check and handler: a 400 with its message when a credential is
      missing, and otherwise the same 401 with the same message, whether
      the username is unknown or the password wrong. As written, the first
      reply carries no message at all: a 400 for a missing credential, a
      500 for an unknown username and a 401 for a wrong password. */
  lemma LoginRefusalResponse(username: Option<string>, password: Option<string>, users: seq<User>,
                             compare: (string, string) -> bool, lib: Library)
    requires CheckLogin(username, password, users, compare).LoginRefused?
    ensures var out := Handle(Production, ToErr(CheckLogin(username, password, users, compare).failure, lib), lib.appStatus);
      && out.Sent?
      && (!Present(username) || !Present(password) ==> out.reply.statusCode == 400 && out.reply.message == Some(MissingCredentials))
      && (Present(username) && Present(password) ==> out.reply.statusCode == 401 && out.reply.message == Some(IncorrectCredentials))
    ensures var first := HandleAsWritten(Production, ToErr(LoginNextCalls(username, password, users, compare)[0], lib), lib.appStatus);
      && first.Sent? && first.reply.message.None?
      && (!Present(username) || !Present(password) ==> first.reply.statusCode == 400)
      && (Present(username) && Present(password) && FindByUsername(users, username.value).None? ==> first.reply.statusCode == 500)
      && (Present(username) && Present(password) && FindByUsername(users, username.value).Some? ==> first.reply.statusCode == 401)
  {
  }

  /** Registering a username that is already taken reaches a production
      client as a 400 naming the duplicate value, with the handler as
      written as with the corrected one. */
  lemma DuplicateUsernameResponse(users: seq<User>, username: Option<string>, password: Option<string>, id: Id,
                                  createdAt: Time, salt: string, hash: (string, nat, string) -> string, lib: Library)
    requires Present(username) && Present(password) && FindByUsername(users, username.value).Some?
    requires lib.duplicateMatch("username", username.value).Some?
    ensures var out := Handle(Production, ToErr(Register(users, username, password, id, createdAt, salt, hash).failure, lib), lib.appStatus);
      && out.Sent? && out.reply.statusCode == 400
      && out.reply.message == Some("Duplicate field value: " + lib.duplicateMatch("username", username.value).value + ". Please use another value")
    ensures var err := ToErr(Register(users, username, password, id, createdAt, salt, hash).failure, lib);
      HandleAsWritten(Production, err, lib.appStatus) == Handle(Production, err, lib.appStatus)
  {
    FailureResponses(Register(users, username, password, id, createdAt, salt, hash).failure, lib);
  }

  /** The concrete case of the lost message: `getProjectById` on an absent
      id. As written the production client is told 404 without "Project
      not found"; the corrected handler tells it. */
  lemma ProjectNotFoundMessage(lib: Library)
    ensures var err := ToErr(PC.GetProjectById(map[], "").failure, lib);
      && HandleAsWritten(Production, err, lib.appStatus).Sent?
      && HandleAsWritten(Production, err, lib.appStatus).reply.statusCode == 404
      && HandleAsWritten(Production, err, lib.appStatus).reply.message.None?
      && Handle(Production, err, lib.appStatus).reply.message == Some(PC.ProjectNotFound)
  {
  }
}
