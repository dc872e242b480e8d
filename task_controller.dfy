/** The task controller: create, list (all, or one project's), read,
    update and delete tasks. */
module TaskController {
  import opened Common
  import opened TaskModel
  import opened Http
  import opened Store

  const TaskNotFound: string := "Task not found"
  const NoTaskWithId: string := "No task found with that id"

  /** `createTask`: stores one new task with the given title, status (or
      `ToDo`) and project, stamped with the schema's `createdAt` default,
      and answers 201 with it. Whether the project exists is never
      consulted: the outcome depends on the request alone. */
  method CreateTask(db: Db, title: Option<string>, status: Option<string>, projectId: Option<Id>, id: Id) returns (res: Response)
    requires db.Valid() && id !in db.tasks
    modifies db
    ensures db.Valid()
    ensures db.users == old(db.users) && db.projects == old(db.projects)
    ensures match NewTask(title, status, projectId, db.taskCreatedAt)
      case Accepted(t) => res == Respond(201, TaskData(id, t)) && db.tasks == old(db.tasks)[id := t]
      case Rejected(errors) => res == Next(Invalid(errors)) && db.tasks == old(db.tasks)
    ensures res.Respond? <==> Present(title) && Present(projectId) && (status.None? || status.value in StatusValues)
  {
    match NewTask(title, status, projectId, db.taskCreatedAt)
    case Rejected(errors) =>
      res := Next(Invalid(errors));
    case Accepted(t) =>
      db.tasks := db.tasks[id := t];
      res := Respond(201, TaskData(id, t));
  }

  /** `getTasks`: every stored task, with 200. */
  function GetTasks(tasks: map<Id, Task>): (r: Response)
    ensures r.Respond? && r.statusCode == 200 && r.data == TaskList(tasks)
  {
    Respond(200, TaskList(tasks))
  }

  /** `getTasksForProject`: exactly the tasks of the project, with 200; a
      project without tasks gets an empty list, never an error. */
  function GetTasksForProject(tasks: map<Id, Task>, projectId: Id): (r: Response)
    ensures r.Respond? && r.statusCode == 200 && r.data.TaskList?
    ensures forall id :: id in r.data.tasks <==> id in tasks && tasks[id].projectId == projectId
    ensures forall id :: id in r.data.tasks ==> r.data.tasks[id] == tasks[id]
    ensures (forall id :: id in tasks ==> tasks[id].projectId != projectId) ==> r.data.tasks == map[]
  {
    var listed := TasksOf(tasks, projectId);
    assert (forall id :: id in tasks ==> tasks[id].projectId != projectId) ==> listed.Keys == {};
    Respond(200, TaskList(listed))
  }

  /** `getTaskById`: the task with 200, or a 404 when no task has that id. */
  function GetTaskById(tasks: map<Id, Task>, id: Id): (r: Response)
    ensures r.Respond? <==> id in tasks
    ensures r.Respond? ==> r == Respond(200, TaskData(id, tasks[id]))
    ensures r.Next? ==> r.failure == AppFailure(TaskNotFound, 404)
  {
    if id in tasks then Respond(200, TaskData(id, tasks[id]))
    else Next(AppFailure(TaskNotFound, 404))
  }

  /** `updateTask`: the update validators run first, so a status outside
      the enum is refused; then the target, if it exists, gets the title and
      status it was sent, keeps its project and creation time, and the
      updated record is answered with 200. No other task changes. */
  method UpdateTask(db: Db, id: Id, title: Option<string>, status: Option<string>) returns (res: Response)
    requires db.Valid()
    modifies db
    ensures db.Valid()
    ensures db.users == old(db.users) && db.projects == old(db.projects)
    ensures match TaskUpdate(title, status)
      case Rejected(errors) => res == Next(Invalid(errors)) && db.tasks == old(db.tasks)
      case Accepted(patch) =>
        if id in old(db.tasks) then
          && db.tasks == old(db.tasks)[id := ApplyTaskPatch(old(db.tasks)[id], patch)]
          && res == Respond(200, TaskData(id, db.tasks[id]))
        else
          db.tasks == old(db.tasks) && res == Next(AppFailure(TaskNotFound, 404))
    ensures id in db.tasks ==>
      db.tasks[id].projectId == old(db.tasks)[id].projectId && db.tasks[id].createdAt == old(db.tasks)[id].createdAt
    ensures forall other :: other in old(db.tasks) && other != id ==> other in db.tasks && db.tasks[other] == old(db.tasks)[other]
  {
    match TaskUpdate(title, status)
    case Rejected(errors) =>
      res := Next(Invalid(errors));
    case Accepted(patch) =>
      if id !in db.tasks {
        res := Next(AppFailure(TaskNotFound, 404));
        return;
      }
      var updated := ApplyTaskPatch(db.tasks[id], patch);
      db.tasks := db.tasks[id := updated];
      res := Respond(200, TaskData(id, updated));
  }

  /** `deleteTask`: removes exactly that task and answers 204, or answers
      404 when there is no such task. */
  method DeleteTask(db: Db, id: Id) returns (res: Response)
    requires db.Valid()
    modifies db
    ensures db.Valid()
    ensures db.users == old(db.users) && db.projects == old(db.projects)
    ensures db.tasks == old(db.tasks) - {id}
    ensures res == if id in old(db.tasks) then Respond(204, NoData) else Next(AppFailure(NoTaskWithId, 404))
    ensures GetTaskById(db.tasks, id) == Next(AppFailure(TaskNotFound, 404))
  {
    if id !in db.tasks {
      res := Next(AppFailure(NoTaskWithId, 404));
      return;
    }
    db.tasks := db.tasks - {id};
    res := Respond(204, NoData);
  }
}
