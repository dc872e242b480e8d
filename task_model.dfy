/** The Task schema: a required title, a status drawn from a three-value
    enum that defaults to `ToDo`, a `createdAt` default, and a required
    reference to the project the task belongs to. */
module TaskModel {
  import opened Common

  /** The three values the schema's enum admits. A stored task's status has
      this type, so no stored task can carry any other status. */
  datatype Status = ToDo | InProgress | Done

  /** The enum's values, in the order the schema lists them. */
  const StatusValues: seq<string> := ["ToDo", "InProgress", "Done"]

  /** The value the schema gives an omitted status. */
  const DefaultStatus: string := "ToDo"

  const TitleRequired: string := "Please provide a title"
  const StatusRequired: string := "A task must have a status"
  const StatusNotInEnum: string := "Status can only have 3 stats: ToDo, InProgress or Done"
  const ProjectIdRequired: string := "Task must belong to a project"

  /** A stored task. `createdAt` is whatever the schema default produced. */
  datatype Task = Task(title: string, status: Status, projectId: Id, createdAt: Time)

  function StatusName(s: Status): string
  {
    match s
    case ToDo => "ToDo"
    case InProgress => "InProgress"
    case Done => "Done"
  }

  /** The enum rule: the status a string names, if it is one of the three. */
  function ParseStatus(s: string): (r: Option<Status>)
    ensures r.Some? <==> s in StatusValues
    ensures r.Some? ==> StatusName(r.value) == s
  {
    if s == "ToDo" then Some(ToDo)
    else if s == "InProgress" then Some(InProgress)
    else if s == "Done" then Some(Done)
    else None
  }

  /** Naming a status and reading the name back gives the same status, and
      every name is one of the enum's values. */
  lemma StatusNameRoundTrip(s: Status)
    ensures StatusName(s) in StatusValues
    ensures ParseStatus(StatusName(s)) == Some(s)
  {
  }

  /** The errors of a validation, or none when it was accepted. */
  function Errors<T>(v: Validated<T>): seq<FieldError>
  {
    if v.Rejected? then v.errors else []
  }

  /** The title path's `required` rule. */
  function CheckTitle(title: Option<string>): (r: Validated<string>)
    ensures r.Accepted? <==> Present(title)
    ensures r.Accepted? ==> r.value == title.value
    ensures r.Rejected? ==> r.errors == [FieldError("title", TitleRequired)]
  {
    if Present(title) then Accepted(title.value)
    else Rejected([FieldError("title", TitleRequired)])
  }

  /** The status path's rules for a value that is being set: `required` runs
      before `enum`, and a path reports only its first failing rule. */
  function CheckStatus(s: string): (r: Validated<Status>)
    ensures r.Accepted? <==> s in StatusValues
    ensures r.Accepted? ==> StatusName(r.value) == s
    ensures r.Rejected? ==> r.errors == [FieldError("status", if s == "" then StatusRequired else StatusNotInEnum)]
  {
    if s == "" then Rejected([FieldError("status", StatusRequired)])
    else match ParseStatus(s)
      case Some(st) => Accepted(st)
      case None => Rejected([FieldError("status", StatusNotInEnum)])
  }

  /** The projectId path's `required` rule. */
  function CheckProjectId(projectId: Option<Id>): (r: Validated<Id>)
    ensures r.Accepted? <==> Present(projectId)
    ensures r.Accepted? ==> r.value == projectId.value
    ensures r.Rejected? ==> r.errors == [FieldError("projectId", ProjectIdRequired)]
  {
    if Present(projectId) then Accepted(projectId.value)
    else Rejected([FieldError("projectId", ProjectIdRequired)])
  }

  /** `Task.create({title, status, projectId})`: defaults first (an omitted
      status becomes `ToDo`, `createdAt` becomes the schema's default), then
      every path's validators; all failing paths are reported together.
      `createdAt` is the value of `Date.now()` taken once, when the schema
      was defined, so every task receives that same timestamp. */
  function NewTask(title: Option<string>, status: Option<string>, projectId: Option<Id>, createdAt: Time): (r: Validated<Task>)
    ensures r.Accepted? <==> Present(title) && Present(projectId) && (status.None? || status.value in StatusValues)
    ensures r.Accepted? ==> r.value.title == title.value && r.value.projectId == projectId.value
    ensures r.Accepted? ==> r.value.createdAt == createdAt
    ensures r.Accepted? ==> StatusName(r.value.status) == if status.None? then DefaultStatus else status.value
    ensures r.Accepted? && status.None? ==> r.value.status == ToDo
    ensures r.Rejected? ==> r.errors != []
    ensures r.Rejected? ==> (FieldError("title", TitleRequired) in r.errors <==> !Present(title))
    ensures r.Rejected? ==> (FieldError("projectId", ProjectIdRequired) in r.errors <==> !Present(projectId))
    ensures r.Rejected? ==> (FieldError("status", StatusRequired) in r.errors <==> status == Some(""))
    ensures r.Rejected? ==>
      (FieldError("status", StatusNotInEnum) in r.errors <==> status.Some? && status.value != "" && status.value !in StatusValues)
  {
    var t := CheckTitle(title);
    var s := CheckStatus(if status.None? then DefaultStatus else status.value);
    var p := CheckProjectId(projectId);
    if t.Accepted? && s.Accepted? && p.Accepted? then
      Accepted(Task(t.value, s.value, p.value, createdAt))
    else
      Rejected(Errors(t) + Errors(s) + Errors(p))
  }

  /** The fields an update sets; `None` leaves the stored field as it is. */
  datatype TaskPatch = TaskPatch(title: Option<string>, status: Option<Status>)

  /** The update validators of `findByIdAndUpdate(id, {title, status},
      {runValidators: true})`: only the fields the update sets are
      validated, with the same rules as on creation. */
  function TaskUpdate(title: Option<string>, status: Option<string>): (r: Validated<TaskPatch>)
    ensures r.Accepted? <==> title != Some("") && (status.None? || status.value in StatusValues)
    ensures r.Accepted? ==> r.value.title == title
    ensures r.Accepted? ==> (r.value.status.Some? <==> status.Some?)
    ensures r.Accepted? && status.Some? ==> StatusName(r.value.status.value) == status.value
    ensures r.Rejected? ==> (FieldError("title", TitleRequired) in r.errors <==> title == Some(""))
    ensures r.Rejected? ==> (FieldError("status", StatusRequired) in r.errors <==> status == Some(""))
    ensures r.Rejected? ==>
      (FieldError("status", StatusNotInEnum) in r.errors <==> status.Some? && status.value != "" && status.value !in StatusValues)
  {
    var titleErrors := if title == Some("") then [FieldError("title", TitleRequired)] else [];
    var statusCheck := if status.None? then None else Some(CheckStatus(status.value));
    var statusErrors := if statusCheck.Some? then Errors(statusCheck.value) else [];
    if titleErrors == [] && statusErrors == [] then
      Accepted(TaskPatch(title, if statusCheck.Some? then Some(statusCheck.value.value) else None))
    else
      Rejected(titleErrors + statusErrors)
  }

  /** The stored task after an accepted update. */
  function ApplyTaskPatch(t: Task, p: TaskPatch): Task
  {
    Task(if p.title.Some? then p.title.value else t.title,
         if p.status.Some? then p.status.value else t.status,
         t.projectId,
         t.createdAt)
  }

  /** An accepted update sets exactly the title and status it was given,
      keeps the others, and never touches `projectId` or `createdAt`. */
  lemma UpdatedTaskFields(t: Task, title: Option<string>, status: Option<string>)
    requires TaskUpdate(title, status).Accepted?
    ensures var u := ApplyTaskPatch(t, TaskUpdate(title, status).value);
      && u.projectId == t.projectId
      && u.createdAt == t.createdAt
      && u.title == (if title.Some? then title.value else t.title)
      && (status.Some? ==> StatusName(u.status) == status.value)
      && (status.None? ==> u.status == t.status)
  {
  }
}
