/** The Project document: a title and an optional description, as the
    project controller creates and updates them. The project schema file
    (server/models/projectsModel.js) is not part of this model: the title is
    assumed to be required, and the message attached to that rule is a
    database constant. */
module ProjectModel {
  import opened Common

  /** A stored project. */
  datatype Project = Project(title: string, description: Option<string>)

  /** `Project.create({title, description})`: the title is required, the
      description is stored as given, absent or not. */
  function NewProject(title: Option<string>, description: Option<string>, titleRequired: string): (r: Validated<Project>)
    ensures r.Accepted? <==> Present(title)
    ensures r.Accepted? ==> r.value.title == title.value && r.value.description == description
    ensures r.Rejected? ==> r.errors == [FieldError("title", titleRequired)]
  {
    if Present(title) then Accepted(Project(title.value, description))
    else Rejected([FieldError("title", titleRequired)])
  }

  /** The fields an update sets; `None` leaves the stored field as it is. */
  datatype ProjectPatch = ProjectPatch(title: Option<string>, description: Option<string>)

  /** The update validators of `findByIdAndUpdate(id, {title, description},
      {runValidators: true})`: a title that is set must not be empty. */
  function ProjectUpdate(title: Option<string>, description: Option<string>, titleRequired: string): (r: Validated<ProjectPatch>)
    ensures r.Accepted? <==> title != Some("")
    ensures r.Accepted? ==> r.value == ProjectPatch(title, description)
    ensures r.Rejected? ==> r.errors == [FieldError("title", titleRequired)]
  {
    if title == Some("") then Rejected([FieldError("title", titleRequired)])
    else Accepted(ProjectPatch(title, description))
  }

  /** The stored project after an accepted update. */
  function ApplyProjectPatch(p: Project, patch: ProjectPatch): Project
  {
    Project(if patch.title.Some? then patch.title.value else p.title,
            if patch.description.Some? then patch.description else p.description)
  }

  /** An accepted update overwrites the title and description it was given
      and keeps the ones it was not given. */
  lemma UpdatedProjectFields(p: Project, title: Option<string>, description: Option<string>, titleRequired: string)
    requires ProjectUpdate(title, description, titleRequired).Accepted?
    ensures var u := ApplyProjectPatch(p, ProjectUpdate(title, description, titleRequired).value);
      && u.title == (if title.Some? then title.value else p.title)
      && u.description == (if description.Some? then description else p.description)
      && (title.None? && description.None? ==> u == p)
  {
  }
}
