/** What the controllers see of a request and what they do with it: answer
    with a status code and a `data` payload, or hand a failure to `next`. */
module Http {
  import opened Common
  import opened ProjectModel
  import opened TaskModel
  import opened UserModel
  import opened Routes

  /** The fields of `req.body` that the controllers destructure. */
  datatype Fields = Fields(
    title: Option<string>,
    description: Option<string>,
    status: Option<string>,
    projectId: Option<Id>,
    username: Option<string>,
    password: Option<string>)

  /** A user document as it is serialised into a response. */
  datatype UserView = UserView(id: Id, username: string, password: Option<string>, createdAt: Time)

  /** The `data` member of a success envelope. */
  datatype Data =
    | ProjectData(projectId: Id, project: Project)
    | ProjectList(projects: map<Id, Project>)
    | TaskData(taskId: Id, task: Task)
    | TaskList(tasks: map<Id, Task>)
    | Session(token: string, user: UserView)
    | NoData

  /** `res.status(code).json({status: 'success', data})`, or `next(failure)`. */
  datatype Response = Respond(statusCode: int, data: Data) | Next(failure: Failure)

  /** An incoming request. The router fills in `params`; `protect` fills in
      `user`. */
  class Request {
    const verb: Verb
    /** The URL path, split at `/`. */
    const path: seq<string>
    /** The `Authorization` header, if sent. */
    const authorization: Option<string>
    const body: Fields
    var params: map<string, string>
    var user: Option<User>

    constructor (verb: Verb, path: seq<string>, authorization: Option<string>, body: Fields)
      ensures this.verb == verb && this.path == path && this.authorization == authorization && this.body == body
      ensures params == map[] && user.None?
    {
      this.verb := verb;
      this.path := path;
      this.authorization := authorization;
      this.body := body;
      params := map[];
      user := None;
    }
  }

  /** `req.params[name]`, with a missing parameter read as the empty string. */
  function ParamValue(params: map<string, string>, name: string): string
  {
    if name in params then params[name] else ""
  }
}
