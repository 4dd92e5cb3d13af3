/**
  The task router mounted at `/api/tasks`: nine routes, each guarded by `authUser`, tried
  in declaration order. A request path is given as its segments below the mount point.
 */
module Routes {
  import opened Common
  import opened Text
  import opened Crypto
  import opened Db
  import opened AuthGate
  import opened TaskController
  import Accounts

  datatype Verb = GET | POST | PUT | PATCH | DELETE

  /** A path pattern segment: a literal, or a named parameter (`:id`). */
  datatype Segment = Lit(text: string) | Param(name: string)

  datatype Middleware = AuthUserMw

  datatype Handler =
    | CreateTaskH | GetAllTasksH | UpdateTaskH | DeleteTaskH | TogglePublicH
    | CompleteTaskH | ViewPublicTasksH | ViewPUsersH | GetOneTaskH

  datatype Route = Route(verb: Verb, pattern: seq<Segment>, chain: seq<Middleware>, handler: Handler)

  /** The routes, in the order the router registers them. */
  const TaskRoutes: seq<Route> := [
    Route(POST, [], [AuthUserMw], CreateTaskH),
    Route(GET, [], [AuthUserMw], GetAllTasksH),
    Route(PUT, [Param("id")], [AuthUserMw], UpdateTaskH),
    Route(DELETE, [Param("id")], [AuthUserMw], DeleteTaskH),
    Route(PATCH, [Param("id"), Lit("toggle")], [AuthUserMw], TogglePublicH),
    Route(PATCH, [Param("id"), Lit("complete")], [AuthUserMw], CompleteTaskH),
    Route(GET, [Lit("public"), Param("userId")], [AuthUserMw], ViewPublicTasksH),
    Route(GET, [Lit("public")], [AuthUserMw], ViewPUsersH),
    Route(GET, [Param("id")], [AuthUserMw], GetOneTaskH)
  ]

  /** Literal segments match without regard to (ASCII) case, the router's default. */
  predicate SameIgnoringCase(a: string, b: string) {
    ToLower(a) == ToLower(b)
  }

  function ParamCount(pattern: seq<Segment>): nat {
    if pattern == [] then 0 else (if pattern[0].Param? then 1 else 0) + ParamCount(pattern[1..])
  }

  /** One path segment against one pattern segment; a parameter takes any non-empty
      segment. */
  predicate SegmentMatches(pattern: Segment, seg: string) {
    match pattern
    case Lit(text) => SameIgnoringCase(seg, text)
    case Param(_) => seg != ""
  }

  /** The parameter values captured when `path` matches `pattern`: one segment per pattern
      segment, a parameter taking any non-empty segment. */
  function Captures(pattern: seq<Segment>, path: seq<string>): (r: Option<seq<string>>)
    ensures r.Some? <==> |pattern| == |path| && forall k :: 0 <= k < |path| ==> SegmentMatches(pattern[k], path[k])
    ensures r.Some? ==> |r.value| == ParamCount(pattern)
  {
    if pattern == [] || path == [] then (if |pattern| == |path| then Some([]) else None)
    else
      match Captures(pattern[1..], path[1..])
      case None => None
      case Some(rest) =>
        if !SegmentMatches(pattern[0], path[0]) then None
        else if pattern[0].Param? then Some([path[0]] + rest)
        else Some(rest)
  }

  /** Splitting off the first segment of a pattern prefix. */
  lemma ParamCountCons(pattern: seq<Segment>, k: nat)
    requires 1 <= k <= |pattern|
    ensures ParamCount(pattern[..k]) == (if pattern[0].Param? then 1 else 0) + ParamCount(pattern[1..][..k - 1])
  {
    assert pattern[..k][0] == pattern[0];
    assert pattern[..k][1..] == pattern[1..][..k - 1];
  }

  /** The captures are the parameter segments in pattern order: the parameter at position
      `k` of the pattern, preceded by `ParamCount(pattern[..k])` others, takes the path
      segment at position `k`. */
  lemma {:induction false} CapturesAreParamSegments(pattern: seq<Segment>, path: seq<string>)
    requires Captures(pattern, path).Some?
    ensures var r := Captures(pattern, path).value;
            forall k :: 0 <= k < |path| && pattern[k].Param? ==>
              ParamCount(pattern[..k]) < |r| && r[ParamCount(pattern[..k])] == path[k]
    decreases |pattern|
  {
    if pattern != [] && path != [] {
      var r := Captures(pattern, path).value;
      var rest := Captures(pattern[1..], path[1..]).value;
      CapturesAreParamSegments(pattern[1..], path[1..]);
      forall k | 0 <= k < |path| && pattern[k].Param?
        ensures ParamCount(pattern[..k]) < |r| && r[ParamCount(pattern[..k])] == path[k]
      {
        if k == 0 {
          assert pattern[..0] == [];
        } else {
          ParamCountCons(pattern, k);
          assert pattern[1..][k - 1] == pattern[k] && path[1..][k - 1] == path[k];
        }
      }
    }
  }

  predicate Matches(route: Route, verb: Verb, path: seq<string>) {
    route.verb == verb && Captures(route.pattern, path).Some?
  }

  /** The index of the first route that matches: the one whose handler runs. */
  function FirstMatch(routes: seq<Route>, verb: Verb, path: seq<string>): (r: Option<nat>)
    ensures r.None? <==> forall j :: 0 <= j < |routes| ==> !Matches(routes[j], verb, path)
    ensures r.Some? ==> r.value < |routes| && Matches(routes[r.value], verb, path)
    ensures r.Some? ==> forall j :: 0 <= j < r.value ==> !Matches(routes[j], verb, path)
  {
    if routes == [] then None
    else if Matches(routes[0], verb, path) then Some(0)
    else
      match FirstMatch(routes[1..], verb, path)
      case None => None
      case Some(i) => Some(i + 1)
  }

  /** An HTTP request to the task router. */
  datatype Request = Request(verb: Verb, path: seq<string>, authorization: Option<string>, body: TaskRequest)

  function VerbName(v: Verb): string {
    match v
    case GET => "GET"
    case POST => "POST"
    case PUT => "PUT"
    case PATCH => "PATCH"
    case DELETE => "DELETE"
  }

  /** The answer when no route matches: the framework's 404. */
  function NoRoute(v: Verb): Response {
    Reply(404, Message("Cannot " + VerbName(v)))
  }

  /** Runs a handler for the authenticated `requester`; `param` is the first captured path
      parameter (":id" or ":userId"). */
  function Run(h: Handler, st: State, requester: Id, param: string, body: TaskRequest, newId: Id): (Response, State)
    requires newId !in st.tasks && newId !in st.taskOrder
  {
    match h
    case CreateTaskH => CreateTask(st, requester, body, newId)
    case GetAllTasksH => (GetAllTasks(st, requester), st)
    case UpdateTaskH => UpdateTask(st, requester, param, body)
    case DeleteTaskH => DeleteTask(st, requester, param)
    case TogglePublicH => TogglePublic(st, requester, param)
    case CompleteTaskH => CompleteTask(st, requester, param)
    case ViewPublicTasksH => (ViewPublicTasks(st, param), st)
    case ViewPUsersH => (ViewPUsers(st), st)
    case GetOneTaskH => (GetOneTask(st, requester, param), st)
  }

  /** Serving one request: route selection, then the route's `authUser` gate, then the
      handler. `newId` is the id the database would give a created task. */
  function Serve(st: State, req: Request, jwt: Jwt, now: nat, newId: Id): (r: (Response, State))
    requires newId !in st.tasks && newId !in st.taskOrder
    ensures FirstMatch(TaskRoutes, req.verb, req.path).None? ==> r == (NoRoute(req.verb), st)
    ensures FirstMatch(TaskRoutes, req.verb, req.path).Some? &&
            AuthUser(req.authorization, st.blacklist, st.users, jwt, now).Deny? ==>
              r == (DenialResponse(AuthUser(req.authorization, st.blacklist, st.users, jwt, now).reason), st)
  {
    match FirstMatch(TaskRoutes, req.verb, req.path)
    case None => (NoRoute(req.verb), st)
    case Some(i) =>
      var route := TaskRoutes[i];
      var params := Captures(route.pattern, req.path).value;
      match AuthUser(req.authorization, st.blacklist, st.users, jwt, now)
      case Deny(d) => (DenialResponse(d), st)
      case Next(user) =>
        Run(route.handler, st, user.id, if |params| > 0 then params[0] else "", req.body, newId)
  }

  // ---------------------------------------------------------------------------------------
  // Properties

  /** Every task route is behind the authentication gate. */
  lemma EveryRouteGuarded()
    ensures |TaskRoutes| == 9
    ensures forall i :: 0 <= i < |TaskRoutes| ==> TaskRoutes[i].chain == [AuthUserMw]
  {
  }

  /** `GET /public` reaches the public-owner listing, not `getOneTask` with id "public":
      it is registered before `GET /:id`. */
  lemma PublicListNotShadowed(seg: string)
    requires SameIgnoringCase(seg, "public")
    ensures FirstMatch(TaskRoutes, GET, [seg]) == Some(7)
    ensures TaskRoutes[7].handler == ViewPUsersH
  {
    assert seg != "" by {
      assert |ToLower(seg)| == |ToLower("public")|;
    }
    assert Matches(TaskRoutes[7], GET, [seg]);
    assert !Matches(TaskRoutes[1], GET, [seg]);
    assert !Matches(TaskRoutes[6], GET, [seg]);
    FirstMatchAt(TaskRoutes, GET, [seg], 7);
  }

  /** `GET /public/:userId` reaches the public-task listing with the user id captured. */
  lemma PublicTasksRoute(seg: string, userId: string)
    requires SameIgnoringCase(seg, "public") && userId != ""
    ensures FirstMatch(TaskRoutes, GET, [seg, userId]) == Some(6)
    ensures Captures(TaskRoutes[6].pattern, [seg, userId]) == Some([userId])
  {
    CaptureOne("userId", userId);
    assert [Param("userId")] == TaskRoutes[6].pattern[1..];
    assert Captures(TaskRoutes[6].pattern, [seg, userId]) == Some([userId]);
    FirstMatchAt(TaskRoutes, GET, [seg, userId], 6);
  }

  /** An ObjectId never reads as "public", so every task id reaches the id routes. */
  lemma ObjectIdIsNotPublic(id: string)
    requires IsObjectId(id)
    ensures !SameIgnoringCase(id, "public")
  {
    assert |ToLower(id)| == 24;
  }

  /** A single-parameter pattern captures the segment it matches. */
  lemma CaptureOne(name: string, seg: string)
    requires seg != ""
    ensures Captures([Param(name)], [seg]) == Some([seg])
  {
    assert Captures([], []) == Some([]);
    assert [seg] + [] == [seg];
  }

  /** A route is the first match when it matches and none registered before it does. */
  lemma FirstMatchAt(routes: seq<Route>, verb: Verb, path: seq<string>, i: nat)
    requires i < |routes| && Matches(routes[i], verb, path)
    requires forall j :: 0 <= j < i ==> !Matches(routes[j], verb, path)
    ensures FirstMatch(routes, verb, path) == Some(i)
  {
  }

  /** `GET /:id` reaches `getOneTask` for every id other than "public". */
  lemma GetOneRoute(id: string)
    requires id != "" && !SameIgnoringCase(id, "public")
    ensures FirstMatch(TaskRoutes, GET, [id]) == Some(8)
    ensures Captures(TaskRoutes[8].pattern, [id]) == Some([id])
  {
    assert !Matches(TaskRoutes[7], GET, [id]) by {
      assert !SegmentMatches(Lit("public"), id);
    }
    assert !Matches(TaskRoutes[6], GET, [id]);
    assert !Matches(TaskRoutes[1], GET, [id]);
    CaptureOne("id", id);
    FirstMatchAt(TaskRoutes, GET, [id], 8);
  }

  /** `PUT /:id` reaches `updateTask`. */
  lemma PutRoute(id: string)
    requires id != ""
    ensures FirstMatch(TaskRoutes, PUT, [id]) == Some(2)
  {
    FirstMatchAt(TaskRoutes, PUT, [id], 2);
  }

  /** `DELETE /:id` reaches `deleteTask`. */
  lemma DeleteRoute(id: string)
    requires id != ""
    ensures FirstMatch(TaskRoutes, DELETE, [id]) == Some(3)
  {
    FirstMatchAt(TaskRoutes, DELETE, [id], 3);
  }

  /** `PATCH /:id/toggle` and `PATCH /:id/complete` reach `togglePublic` and `completeTask`. */
  lemma PatchRoutes(id: string, action: string)
    requires id != ""
    ensures SameIgnoringCase(action, "toggle") ==> FirstMatch(TaskRoutes, PATCH, [id, action]) == Some(4)
    ensures SameIgnoringCase(action, "complete") ==> FirstMatch(TaskRoutes, PATCH, [id, action]) == Some(5)
  {
    if SameIgnoringCase(action, "toggle") {
      assert SegmentMatches(TaskRoutes[4].pattern[1], action);
      FirstMatchAt(TaskRoutes, PATCH, [id, action], 4);
    }
    if SameIgnoringCase(action, "complete") {
      assert !SameIgnoringCase(action, "toggle") by {
        assert |ToLower(action)| == 8;
      }
      assert !Matches(TaskRoutes[4], PATCH, [id, action]) by {
        assert !SegmentMatches(TaskRoutes[4].pattern[1], action);
      }
      assert SegmentMatches(TaskRoutes[5].pattern[1], action);
      FirstMatchAt(TaskRoutes, PATCH, [id, action], 5);
    }
  }

  /** A request the gate refuses is answered 401 and changes nothing. */
  lemma DeniedRequestChangesNothing(st: State, req: Request, jwt: Jwt, now: nat, newId: Id)
    requires newId !in st.tasks && newId !in st.taskOrder
    requires FirstMatch(TaskRoutes, req.verb, req.path).Some?
    requires AuthUser(req.authorization, st.blacklist, st.users, jwt, now).Deny?
    ensures Serve(st, req, jwt, now, newId).0.status == 401
    ensures Serve(st, req, jwt, now, newId).1 == st
  {
  }

  /** After logging out with a bearer token, listing tasks with that token is refused. */
  lemma LogoutThenListDenied(st: State, token: string, body: TaskRequest, jwt: Jwt, now: nat, newId: Id)
    requires IsCompactToken(token)
    requires newId !in st.tasks && newId !in st.taskOrder
    ensures var st1 := Accounts.Logout(st, None, Some("Bearer " + token)).1;
            Serve(st1, Request(GET, [], Some("Bearer " + token), body), jwt, now, newId) ==
              (DenialResponse(Blacklisted), st1)
  {
    Accounts.LogoutRevokesBearer(st, token, jwt, now);
    FirstMatchAt(TaskRoutes, GET, [], 1);
  }

  /** A user holding a fresh token who creates a task through the router owns it, whatever
      owner the body names. */
  lemma CreatedTaskOwnedByCaller(st: State, jwt: Jwt, id: Id, issuedAt: nat, now: nat, body: TaskRequest, newId: Id)
    requires SoundJwt(jwt)
    requires IsCanonicalId(id) && id in st.users
    requires IssueToken(jwt, id, issuedAt) !in st.blacklist
    requires issuedAt <= now < issuedAt + TokenLifetime
    requires newId !in st.tasks && newId !in st.taskOrder
    ensures var r := Serve(st, Request(POST, [], Some("Bearer " + IssueToken(jwt, id, issuedAt)), body), jwt, now, newId);
            r.0.status == 201 ==> r.1.tasks[newId].owner == id
  {
    IssuedTokenAdmits(jwt, st.users, st.blacklist, id, issuedAt, now);
    FirstMatchAt(TaskRoutes, POST, [], 0);
  }
}
