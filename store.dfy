/** The three MongoDB collections the server uses, held in memory, and the
    two bulk task queries the controllers run on them. */
module Store {
  import opened Common
  import opened ProjectModel
  import opened TaskModel
  import opened UserModel

  /** The database: users in the collection's natural order, projects and
      tasks by id. */
  class Db {
    var users: seq<User>
    var projects: map<Id, Project>
    var tasks: map<Id, Task>
    /** `Date.now()` when the task schema was defined: the `createdAt`
        default of every task. */
    const taskCreatedAt: Time
    /** `Date.now()` when the user schema was defined: the `createdAt`
        default of every user. */
    const userCreatedAt: Time
    /** The message the project schema attaches to its required title. */
    const projectTitleRequired: string

    /** The unique indexes on users, and the schema defaults every stored
        document carries. */
    ghost predicate Valid()
      reads this
    {
      && UniqueIds(users)
      && UniqueUsernames(users)
      && UniquePasswords(users)
      && (forall i :: 0 <= i < |users| ==> users[i].createdAt == userCreatedAt)
      && (forall id :: id in tasks ==> tasks[id].createdAt == taskCreatedAt)
    }

    /** An empty database, with the two schemas' defaults taken at start-up. */
    constructor (taskCreatedAt: Time, userCreatedAt: Time, projectTitleRequired: string)
      ensures Valid()
      ensures users == [] && projects == map[] && tasks == map[]
      ensures this.taskCreatedAt == taskCreatedAt && this.userCreatedAt == userCreatedAt
      ensures this.projectTitleRequired == projectTitleRequired
    {
      users := [];
      projects := map[];
      tasks := map[];
      this.taskCreatedAt := taskCreatedAt;
      this.userCreatedAt := userCreatedAt;
      this.projectTitleRequired := projectTitleRequired;
    }
  }

  /** `Task.find({projectId: p})`: exactly the tasks of project `p`. */
  function TasksOf(tasks: map<Id, Task>, p: Id): (r: map<Id, Task>)
    ensures forall id :: id in r <==> id in tasks && tasks[id].projectId == p
    ensures forall id :: id in r ==> r[id] == tasks[id]
  {
    map id | id in tasks && tasks[id].projectId == p :: tasks[id]
  }

  /** The tasks left by `Task.deleteMany({projectId: p})`: exactly those
      of other projects. */
  function RemoveTasksOf(tasks: map<Id, Task>, p: Id): (r: map<Id, Task>)
    ensures forall id :: id in r <==> id in tasks && tasks[id].projectId != p
    ensures forall id :: id in r ==> r[id] == tasks[id]
  {
    map id | id in tasks && tasks[id].projectId != p :: tasks[id]
  }

  /** The bulk delete splits the tasks in two: those it keeps and those
      `Task.find` lists for the project; nothing is lost or invented. */
  lemma CascadePartition(tasks: map<Id, Task>, p: Id)
    ensures RemoveTasksOf(tasks, p).Keys !! TasksOf(tasks, p).Keys
    ensures RemoveTasksOf(tasks, p) + TasksOf(tasks, p) == tasks
  {
  }

  /** After the bulk delete, listing the project's tasks yields nothing, and
      listing any other project's tasks yields what it did before. */
  lemma CascadeLeavesOthers(tasks: map<Id, Task>, p: Id, q: Id)
    ensures TasksOf(RemoveTasksOf(tasks, p), p) == map[]
    ensures q != p ==> TasksOf(RemoveTasksOf(tasks, p), q) == TasksOf(tasks, q)
  {
  }
}
