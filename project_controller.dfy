/** The project controller: create, list, read, update and delete projects.
    Deleting a project first deletes every task that points at it. */
module ProjectController {
  import opened Common
  import opened ProjectModel
  import opened TaskModel
  import opened Http
  import opened Store

  const ProjectNotFound: string := "Project not found"
  const NoProjectWithId: string := "No project found with that id"

  /** `createProject`: stores one new project under the freshly generated
      id, carrying the given title and description, and answers 201 with
      it; a missing title is a validation failure and stores nothing. */
  method CreateProject(db: Db, title: Option<string>, description: Option<string>, id: Id) returns (res: Response)
    requires db.Valid() && id !in db.projects
    modifies db
    ensures db.Valid()
    ensures db.users == old(db.users) && db.tasks == old(db.tasks)
    ensures match NewProject(title, description, db.projectTitleRequired)
      case Accepted(p) => res == Respond(201, ProjectData(id, p)) && db.projects == old(db.projects)[id := p]
      case Rejected(errors) => res == Next(Invalid(errors)) && db.projects == old(db.projects)
    ensures res.Respond? ==>
      db.projects.Keys == old(db.projects).Keys + {id} && db.projects[id] == Project(title.value, description)
  {
    match NewProject(title, description, db.projectTitleRequired)
    case Rejected(errors) =>
      res := Next(Invalid(errors));
    case Accepted(p) =>
      db.projects := db.projects[id := p];
      res := Respond(201, ProjectData(id, p));
  }

  /** `getProjects`: every stored project, with 200. */
  function GetProjects(projects: map<Id, Project>): (r: Response)
    ensures r.Respond? && r.statusCode == 200 && r.data == ProjectList(projects)
  {
    Respond(200, ProjectList(projects))
  }

  /** `getProjectById`: the project with 200, or a 404 when no project has
      that id. */
  function GetProjectById(projects: map<Id, Project>, id: Id): (r: Response)
    ensures r.Respond? <==> id in projects
    ensures r.Respond? ==> r == Respond(200, ProjectData(id, projects[id]))
    ensures r.Next? ==> r.failure == AppFailure(ProjectNotFound, 404)
  {
    if id in projects then Respond(200, ProjectData(id, projects[id]))
    else Next(AppFailure(ProjectNotFound, 404))
  }

  /** `updateProject`: the update validators run first; then the target,
      if it exists, gets the title and description it was sent and the
      updated record is answered with 200. Other projects and all tasks are
      untouched. */
  method UpdateProject(db: Db, id: Id, title: Option<string>, description: Option<string>) returns (res: Response)
    requires db.Valid()
    modifies db
    ensures db.Valid()
    ensures db.users == old(db.users) && db.tasks == old(db.tasks)
    ensures match ProjectUpdate(title, description, db.projectTitleRequired)
      case Rejected(errors) => res == Next(Invalid(errors)) && db.projects == old(db.projects)
      case Accepted(patch) =>
        if id in old(db.projects) then
          && db.projects == old(db.projects)[id := ApplyProjectPatch(old(db.projects)[id], patch)]
          && res == Respond(200, ProjectData(id, db.projects[id]))
        else
          db.projects == old(db.projects) && res == Next(AppFailure(ProjectNotFound, 404))
    ensures forall other :: other in old(db.projects) && other != id ==> other in db.projects && db.projects[other] == old(db.projects)[other]
  {
    match ProjectUpdate(title, description, db.projectTitleRequired)
    case Rejected(errors) =>
      res := Next(Invalid(errors));
    case Accepted(patch) =>
      if id !in db.projects {
        res := Next(AppFailure(ProjectNotFound, 404));
        return;
      }
      var updated := ApplyProjectPatch(db.projects[id], patch);
      db.projects := db.projects[id := updated];
      res := Respond(200, ProjectData(id, updated));
  }

  /** `deleteProject`: first deletes every task of the project, whether or
      not the project exists, then deletes the project itself; answers 204,
      or 404 when there was no such project. Afterwards the project cannot
      be read back and none of its tasks remain, while the tasks of other
      projects are exactly as they were. */
  method DeleteProject(db: Db, id: Id) returns (res: Response)
    requires db.Valid()
    modifies db
    ensures db.Valid()
    ensures db.users == old(db.users)
    ensures db.tasks == RemoveTasksOf(old(db.tasks), id)
    ensures db.projects == old(db.projects) - {id}
    ensures res == if id in old(db.projects) then Respond(204, NoData) else Next(AppFailure(NoProjectWithId, 404))
    ensures TasksOf(db.tasks, id) == map[]
    ensures forall q :: q != id ==> TasksOf(db.tasks, q) == TasksOf(old(db.tasks), q)
    ensures GetProjectById(db.projects, id) == Next(AppFailure(ProjectNotFound, 404))
  {
    ghost var before := db.tasks;
    db.tasks := RemoveTasksOf(db.tasks, id);
    forall q | q != id
      ensures TasksOf(db.tasks, q) == TasksOf(before, q)
    {
      CascadeLeavesOthers(before, id, q);
    }
    CascadeLeavesOthers(before, id, id);
    if id !in db.projects {
      res := Next(AppFailure(NoProjectWithId, 404));
      return;
    }
    db.projects := db.projects - {id};
    res := Respond(204, NoData);
  }
}
