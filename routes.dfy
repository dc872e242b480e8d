/** The two Express routers as data: each is an ordered list of layers
    (verb, path pattern, handler chain), and a request goes to the first
    layer whose verb and pattern match, as Express's router does. The
    routers are mounted under `/api/v1/tasks` and `/api/v1/projects`. */
module Routes {
  import opened Common

  datatype Verb = Get | Post | Put | Patch | Delete

  /** The middleware and controller functions the routers name. */
  datatype Handler =
    | Protect
    | GetProjects | CreateProject | GetProjectById | UpdateProject | DeleteProject
    | GetTasks | CreateTask | GetTaskById | UpdateTask | DeleteTask | GetTasksForProject

  /** One segment of a route path: a literal such as `project`, or a
      parameter such as `:id`. */
  datatype Segment = Lit(text: string) | Param(name: string)

  /** `router.route(pattern).verb(...chain)` */
  datatype Layer = Layer(verb: Verb, pattern: seq<Segment>, chain: seq<Handler>)

  /** The chain a request is handed to, and the `req.params` it sees. */
  datatype Route = Route(chain: seq<Handler>, params: map<string, string>)

  /** A literal matches itself; a parameter matches any single non-empty
      segment (it cannot span a `/`). */
  predicate SegmentMatches(s: Segment, part: string)
  {
    if s.Lit? then part == s.text else part != ""
  }

  /** Matching a route path against the request path's segments, and the
      parameters it binds. */
  function MatchPattern(pattern: seq<Segment>, path: seq<string>): (r: Option<map<string, string>>)
    ensures r.Some? <==> |pattern| == |path| && forall k :: 0 <= k < |path| ==> SegmentMatches(pattern[k], path[k])
    ensures r.Some? ==> forall k :: 0 <= k < |pattern| && pattern[k].Param? ==> pattern[k].name in r.value
  {
    if |pattern| != |path| then None
    else if pattern == [] then Some(map[])
    else if !SegmentMatches(pattern[0], path[0]) then None
    else match MatchPattern(pattern[1..], path[1..])
      case None => None
      case Some(m) => Some(if pattern[0].Param? then map[pattern[0].name := path[0]] + m else m)
  }

  /** The first layer that handles the verb and matches the path. */
  function FirstMatch(table: seq<Layer>, verb: Verb, path: seq<string>): (r: Option<Route>)
    ensures r.None? <==> forall k :: 0 <= k < |table| ==> table[k].verb != verb || MatchPattern(table[k].pattern, path).None?
    ensures r.Some? ==> exists k :: 0 <= k < |table| && table[k].verb == verb && table[k].chain == r.value.chain
                                   && MatchPattern(table[k].pattern, path) == Some(r.value.params)
  {
    if table == [] then None
    else if table[0].verb == verb && MatchPattern(table[0].pattern, path).Some? then
      Some(Route(table[0].chain, MatchPattern(table[0].pattern, path).value))
    else
      FirstMatch(table[1..], verb, path)
  }

  /** A chain that runs `protect` first and then exactly one controller. */
  predicate Guarded(chain: seq<Handler>)
  {
    |chain| == 2 && chain[0] == Protect && chain[1] != Protect
  }

  const ProjectsMount: seq<string> := ["api", "v1", "projects"]
  const TasksMount: seq<string> := ["api", "v1", "tasks"]

  /** The project router, in declaration order. */
  const ProjectTable: seq<Layer> := [
    Layer(Get, [], [Protect, GetProjects]),
    Layer(Post, [], [Protect, CreateProject]),
    Layer(Get, [Param("id")], [Protect, GetProjectById]),
    Layer(Patch, [Param("id")], [Protect, UpdateProject]),
    Layer(Delete, [Param("id")], [Protect, DeleteProject])
  ]

  /** The task router, in declaration order: `/project/:projectId` comes last. */
  const TaskTable: seq<Layer> := [
    Layer(Get, [], [Protect, GetTasks]),
    Layer(Post, [], [Protect, CreateTask]),
    Layer(Get, [Param("id")], [Protect, GetTaskById]),
    Layer(Patch, [Param("id")], [Protect, UpdateTask]),
    Layer(Delete, [Param("id")], [Protect, DeleteTask]),
    Layer(Get, [Lit("project"), Param("projectId")], [Protect, GetTasksForProject])
  ]

  /** Every layer of both routers puts `protect` in front of its controller. */
  lemma TablesGuarded()
    ensures forall k :: 0 <= k < |ProjectTable| ==> Guarded(ProjectTable[k].chain)
    ensures forall k :: 0 <= k < |TaskTable| ==> Guarded(TaskTable[k].chain)
  {
  }

  /** Whatever layer a guarded table routes to, its chain is guarded. */
  lemma FirstMatchGuarded(table: seq<Layer>, verb: Verb, path: seq<string>)
    requires forall k :: 0 <= k < |table| ==> Guarded(table[k].chain)
    ensures FirstMatch(table, verb, path).Some? ==> Guarded(FirstMatch(table, verb, path).value.chain)
  {
  }

  /** The application's routing of a request path (split into segments) to
      the task or project router. Paths under other mounts, such as the
      users router, have no route in this model. */
  function Dispatch(verb: Verb, path: seq<string>): (r: Option<Route>)
    ensures r.Some? ==> Guarded(r.value.chain)
    ensures r.Some? ==> |path| >= 3 && (path[..3] == TasksMount || path[..3] == ProjectsMount)
  {
    TablesGuarded();
    if |path| >= 3 && path[..3] == TasksMount then
      FirstMatchGuarded(TaskTable, verb, path[3..]);
      FirstMatch(TaskTable, verb, path[3..])
    else if |path| >= 3 && path[..3] == ProjectsMount then
      FirstMatchGuarded(ProjectTable, verb, path[3..]);
      FirstMatch(ProjectTable, verb, path[3..])
    else None
  }

  /** The project router's behaviour, stated path shape by path shape. */
  function ProjectRouteSpec(verb: Verb, path: seq<string>): Option<Route>
  {
    if path == [] then
      match verb
      case Get => Some(Route([Protect, GetProjects], map[]))
      case Post => Some(Route([Protect, CreateProject], map[]))
      case _ => None
    else if |path| == 1 && path[0] != "" then
      match verb
      case Get => Some(Route([Protect, GetProjectById], map["id" := path[0]]))
      case Patch => Some(Route([Protect, UpdateProject], map["id" := path[0]]))
      case Delete => Some(Route([Protect, DeleteProject], map["id" := path[0]]))
      case _ => None
    else None
  }

  /** The task router's behaviour, stated path shape by path shape. A single
      segment, `project` included, is an `:id`; `/project/:projectId` is the
      only two-segment route and answers only GET. */
  function TaskRouteSpec(verb: Verb, path: seq<string>): Option<Route>
  {
    if path == [] then
      match verb
      case Get => Some(Route([Protect, GetTasks], map[]))
      case Post => Some(Route([Protect, CreateTask], map[]))
      case _ => None
    else if |path| == 1 && path[0] != "" then
      match verb
      case Get => Some(Route([Protect, GetTaskById], map["id" := path[0]]))
      case Patch => Some(Route([Protect, UpdateTask], map["id" := path[0]]))
      case Delete => Some(Route([Protect, DeleteTask], map["id" := path[0]]))
      case _ => None
    else if |path| == 2 && path[0] == "project" && path[1] != "" && verb == Get then
      Some(Route([Protect, GetTasksForProject], map["projectId" := path[1]]))
    else None
  }

  /** A one-parameter pattern binds exactly that parameter. */
  lemma MatchOneParam(name: string, part: string)
    requires part != ""
    ensures MatchPattern([Param(name)], [part]) == Some(map[name := part])
  {
    assert [Param(name)][1..] == [] && [part][1..] == [];
    assert map[name := part] + map[] == map[name := part];
  }

  /** The table routes to layer `k` when `k` is the first layer that
      handles the verb and matches the path. */
  lemma {:induction false} FirstMatchAt(table: seq<Layer>, verb: Verb, path: seq<string>, k: nat)
    requires k < |table| && table[k].verb == verb && MatchPattern(table[k].pattern, path).Some?
    requires forall j :: 0 <= j < k ==> table[j].verb != verb || MatchPattern(table[j].pattern, path).None?
    ensures FirstMatch(table, verb, path) == Some(Route(table[k].chain, MatchPattern(table[k].pattern, path).value))
  {
    if k > 0 {
      assert table[0].verb != verb || MatchPattern(table[0].pattern, path).None?;
      assert table[1..][k - 1] == table[k];
      FirstMatchAt(table[1..], verb, path, k - 1);
    }
  }

  /** No layer of a table matches a path whose length differs from every
      layer's pattern length. */
  lemma NoLayerMatches(table: seq<Layer>, verb: Verb, path: seq<string>)
    requires forall k :: 0 <= k < |table| ==> |table[k].pattern| != |path| || table[k].verb != verb
    ensures FirstMatch(table, verb, path).None?
  {
  }

  lemma ProjectRoot(verb: Verb)
    ensures FirstMatch(ProjectTable, verb, []) == ProjectRouteSpec(verb, [])
  {
  }

  lemma ProjectById(verb: Verb, id: string)
    requires id != ""
    ensures FirstMatch(ProjectTable, verb, [id]) == ProjectRouteSpec(verb, [id])
  {
    MatchOneParam("id", id);
    match verb
    case Get => FirstMatchAt(ProjectTable, verb, [id], 2);
    case Patch => FirstMatchAt(ProjectTable, verb, [id], 3);
    case Delete => FirstMatchAt(ProjectTable, verb, [id], 4);
    case _ => NoLayerMatches(ProjectTable, verb, [id]);
  }

  /** The project table routes exactly as the path-shape description says. */
  lemma ProjectTableMeetsSpec(verb: Verb, path: seq<string>)
    ensures FirstMatch(ProjectTable, verb, path) == ProjectRouteSpec(verb, path)
  {
    if path == [] {
      ProjectRoot(verb);
    } else if |path| == 1 && path[0] != "" {
      assert path == [path[0]];
      ProjectById(verb, path[0]);
    } else if |path| == 1 {
      assert !SegmentMatches(Param("id"), path[0]);
      assert forall k :: 0 <= k < |ProjectTable| ==> MatchPattern(ProjectTable[k].pattern, path).None?;
    } else {
      NoLayerMatches(ProjectTable, verb, path);
    }
  }

  lemma TaskRoot(verb: Verb)
    ensures FirstMatch(TaskTable, verb, []) == TaskRouteSpec(verb, [])
  {
  }

  lemma TaskById(verb: Verb, id: string)
    requires id != ""
    ensures FirstMatch(TaskTable, verb, [id]) == TaskRouteSpec(verb, [id])
  {
    MatchOneParam("id", id);
    match verb
    case Get => FirstMatchAt(TaskTable, verb, [id], 2);
    case Patch => FirstMatchAt(TaskTable, verb, [id], 3);
    case Delete => FirstMatchAt(TaskTable, verb, [id], 4);
    case _ => NoLayerMatches(TaskTable, verb, [id]);
  }

  lemma TasksOfProjectRoute(verb: Verb, first: string, projectId: string)
    ensures FirstMatch(TaskTable, verb, [first, projectId]) == TaskRouteSpec(verb, [first, projectId])
  {
    var path := [first, projectId];
    if verb == Get && first == "project" && projectId != "" {
      MatchOneParam("projectId", projectId);
      assert [Lit("project"), Param("projectId")][1..] == [Param("projectId")] && path[1..] == [projectId];
      FirstMatchAt(TaskTable, verb, path, 5);
    } else if verb == Get {
      assert !SegmentMatches(Lit("project"), first) || !SegmentMatches(Param("projectId"), projectId);
      assert MatchPattern(TaskTable[5].pattern, path).None?;
      assert forall k :: 0 <= k < 5 ==> |TaskTable[k].pattern| != 2;
    } else {
      NoLayerMatches(TaskTable, verb, path);
    }
  }

  /** The task table routes exactly as the path-shape description says. */
  lemma TaskTableMeetsSpec(verb: Verb, path: seq<string>)
    ensures FirstMatch(TaskTable, verb, path) == TaskRouteSpec(verb, path)
  {
    if path == [] {
      TaskRoot(verb);
    } else if |path| == 1 && path[0] != "" {
      assert path == [path[0]];
      TaskById(verb, path[0]);
    } else if |path| == 1 {
      assert !SegmentMatches(Param("id"), path[0]);
      assert forall k :: 0 <= k < |TaskTable| ==> MatchPattern(TaskTable[k].pattern, path).None?;
    } else if |path| == 2 {
      assert path == [path[0], path[1]];
      TasksOfProjectRoute(verb, path[0], path[1]);
    } else {
      NoLayerMatches(TaskTable, verb, path);
    }
  }
}
