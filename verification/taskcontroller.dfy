/**
  The task controller. Each handler is a transition on the state that returns the HTTP
  response; `requester` is `req.user._id` as set by the auth gate. Handlers that look a
  task up by a path id answer 500 when the id cannot be cast to an ObjectId (mongoose
  throws inside the `try`) and 404 when no task has it.
 */
module TaskController {
  import opened Common
  import opened Text
  import opened Users
  import opened Tasks
  import opened Seqs
  import opened Db
  import opened TaskService

  /** A JSON request body for the task routes; each field may be missing. */
  datatype TaskRequest = TaskRequest(
    title: Option<string>,
    description: Option<string>,
    isCompleted: Option<bool>,
    isPublic: Option<bool>,
    owner: Option<Id>)

  const NotFound: Response := Reply(404, Message("Task not found"))
  const NotOwner: Response := Reply(401, Message("You are not authorized to perform this action"))
  const Updated: string := "Task updated successfully"

  /** `TaskModel.findById(id)` with the handler's "not found" answer. Mongoose casts the
      path id to an ObjectId first, so the hex digits match whatever their case; the value
      is the stored task's canonical id. */
  function FindTask(st: State, id: string): (r: Result<Id, Response>)
    ensures r.Ok? <==> IsObjectId(id) && CastId(id) in st.tasks
    ensures r.Ok? ==> r.value == CastId(id) && r.value in st.tasks
    ensures r.Err? ==> r.error == (if IsObjectId(id) then NotFound else InternalError)
  {
    if !IsObjectId(id) then Err(InternalError)
    else if CastId(id) !in st.tasks then Err(NotFound)
    else Ok(CastId(id))
  }

  /** `id` names a stored task once cast to an ObjectId. */
  predicate Stored(st: State, id: string) {
    IsObjectId(id) && CastId(id) in st.tasks
  }

  /** The state with one task written back by `save()`. */
  function Save(st: State, key: Id, t: Task): State
    requires key in st.tasks
  {
    st.(tasks := st.tasks[key := t])
  }

  /** The state with a new task stored by `Task.create`, last in the scan order. */
  function Append(st: State, newId: Id, t: Task): (s2: State)
    requires newId !in st.tasks
    ensures s2.tasks.Keys == st.tasks.Keys + {newId}
    ensures newId in s2.tasks && s2.tasks[newId] == t
    ensures forall id :: id in st.tasks ==> id in s2.tasks && s2.tasks[id] == st.tasks[id]
    ensures s2.users == st.users && s2.blacklist == st.blacklist
    ensures s2.taskOrder == st.taskOrder + [newId] && s2.userOrder == st.userOrder
  {
    st.(tasks := st.tasks[newId := t], taskOrder := st.taskOrder + [newId])
  }

  /** `createTask`: the owner is the authenticated requester, never a body field. An error
      the service throws is passed to `next`, whose default page answers 500 at once; the
      JSON 500 the handler then tries to send finds the response already sent. */
  function CreateTask(st: State, requester: Id, body: TaskRequest, newId: Id): (r: (Response, State))
    requires newId !in st.tasks && newId !in st.taskOrder
    ensures r.0.status == 201 <==> CreateTaskRecord(body.title, body.description, body.isPublic, Some(requester)).Ok?
    ensures r.0.status != 201 ==> r == (ErrorPage, st)
    ensures r.0.status == 201 ==>
              r.1 == Append(st, newId, CreateTaskRecord(body.title, body.description, body.isPublic, Some(requester)).value)
    ensures r.0.status == 201 ==>
              && r.1.taskOrder == st.taskOrder + [newId] && r.1.userOrder == st.userOrder
              && r.1.tasks.Keys == st.tasks.Keys + {newId}
              && (forall id :: id in st.tasks ==> id in r.1.tasks && r.1.tasks[id] == st.tasks[id])
              && r.1.users == st.users && r.1.blacklist == st.blacklist
    ensures r.0.status == 201 ==>
              var t := CreateTaskRecord(body.title, body.description, body.isPublic, Some(requester)).value;
              && newId in r.1.tasks && r.1.tasks[newId] == t && t.owner == requester
              && r.0.body == TaskBody(Some("Task created successfully"), newId, t)
  {
    match CreateTaskRecord(body.title, body.description, body.isPublic, Some(requester))
    case Err(_) => (ErrorPage, st)
    case Ok(t) => (Reply(201, TaskBody(Some("Task created successfully"), newId, t)), Append(st, newId, t))
  }

  /** The ids `TaskModel.find({owner: requester})` returns: the requester's tasks, each
      once, in scan order. */
  function OwnTaskIds(st: State, requester: Id): (ids: seq<Id>)
    ensures IsSubsequence(ids, st.taskOrder)
    ensures forall i :: 0 <= i < |ids| ==> ids[i] in st.tasks && st.tasks[ids[i]].owner == requester
    ensures Wf(st) ==> forall id :: id in st.tasks && st.tasks[id].owner == requester ==> id in ids
    ensures Wf(st) ==> forall i, j :: 0 <= i < j < |ids| ==> ids[i] != ids[j]
  {
    Select(st.tasks, st.taskOrder, (id: Id, t: Task) => t.owner == requester)
  }

  /** `getAllTasks`: the requester's tasks in scan order, each reduced to id, title,
      description and the two flags. */
  function GetAllTasks(st: State, requester: Id): (r: Response)
    ensures r.status == 200 && r.body.OwnTasks?
    ensures var ids := OwnTaskIds(st, requester);
            |r.body.views| == |ids| &&
            forall i :: 0 <= i < |ids| ==> r.body.views[i] == ToOwnView(ids[i], st.tasks[ids[i]])
    ensures Wf(st) ==> forall id :: id in st.tasks && st.tasks[id].owner == requester ==>
              ToOwnView(id, st.tasks[id]) in r.body.views
  {
    var ids := OwnTaskIds(st, requester);
    var views := seq(|ids|, i requires 0 <= i < |ids| => ToOwnView(ids[i], st.tasks[ids[i]]));
    assert forall id :: id in ids ==> ToOwnView(id, st.tasks[id]) in views by {
      forall id | id in ids ensures ToOwnView(id, st.tasks[id]) in views {
        var k :| 0 <= k < |ids| && ids[k] == id;
        assert views[k] == ToOwnView(id, st.tasks[id]);
      }
    }
    Reply(200, OwnTasks(views))
  }

  /** `getOneTask`: no ownership check, so the requester plays no part. */
  function GetOneTask(st: State, requester: Id, id: string): (r: Response)
    ensures r.status == 200 <==> Stored(st, id)
    ensures !IsObjectId(id) ==> r == InternalError
    ensures IsObjectId(id) && CastId(id) !in st.tasks ==> r == NotFound
    ensures Stored(st, id) ==> r.body == TaskBody(None, CastId(id), st.tasks[CastId(id)])
  {
    match FindTask(st, id)
    case Err(resp) => resp
    case Ok(key) => Reply(200, TaskBody(None, key, st.tasks[key]))
  }

  /** The task `updateTask` saves: title, description and isCompleted are assigned from the
      body (through the trimming setters), everything else is kept. An undefined title
      unsets the field; an undefined isCompleted unsets it too, and the schema default
      reads it back as false. */
  function Overwrite(t: Task, body: TaskRequest): (u: Task)
    ensures u.isPublic == t.isPublic && u.owner == t.owner
    ensures body.title.Some? ==> u.title == Trim(body.title.value)
    ensures u.description == TrimmedDescription(body.description)
    ensures u.isCompleted == (body.isCompleted == Some(true))
    ensures SaveValid(u) <==> body.title.Some? && !IsBlank(body.title.value)
  {
    t.(title := if body.title.Some? then Trim(body.title.value) else "",
       description := TrimmedDescription(body.description),
       isCompleted := body.isCompleted.GetOr(false))
  }

  /** `updateTask`: no ownership check. A title that fails validation on `save()` is
      answered 500. */
  function UpdateTask(st: State, requester: Id, id: string, body: TaskRequest): (r: (Response, State))
    ensures r.0.status == 200 <==> Stored(st, id) && body.title.Some? && !IsBlank(body.title.value)
    ensures r.0.status != 200 ==> r.1 == st
    ensures !IsObjectId(id) ==> r.0 == InternalError
    ensures IsObjectId(id) && CastId(id) !in st.tasks ==> r.0 == NotFound
    ensures Stored(st, id) && !(body.title.Some? && !IsBlank(body.title.value)) ==> r.0 == InternalError
    ensures r.0.status == 200 ==>
              var key := CastId(id);
              var prev := st.tasks[key];
              && r.1 == st.(tasks := r.1.tasks)
              && r.1.tasks.Keys == st.tasks.Keys
              && (forall k :: k in st.tasks && k != key ==> r.1.tasks[k] == st.tasks[k])
              && r.1.tasks[key].title == Trim(body.title.value)
              && r.1.tasks[key].description == TrimmedDescription(body.description)
              && r.1.tasks[key].isCompleted == (body.isCompleted == Some(true))
              && r.1.tasks[key].isPublic == prev.isPublic && r.1.tasks[key].owner == prev.owner
  {
    match FindTask(st, id)
    case Err(resp) => (resp, st)
    case Ok(key) =>
      var u := Overwrite(st.tasks[key], body);
      if !SaveValid(u) then (InternalError, st)
      else (Reply(200, TaskBody(Some(Updated), key, u)), Save(st, key, u))
  }

  /** `deleteTask`: no ownership check. */
  function DeleteTask(st: State, requester: Id, id: string): (r: (Response, State))
    ensures r.0.status == 200 <==> Stored(st, id)
    ensures r.0.status != 200 ==> r.1 == st
    ensures !IsObjectId(id) ==> r.0 == InternalError
    ensures IsObjectId(id) && CastId(id) !in st.tasks ==> r.0 == NotFound
    ensures r.0.status == 200 ==>
              && r.1.tasks == st.tasks - {CastId(id)}
              && r.1.users == st.users && r.1.blacklist == st.blacklist
  {
    match FindTask(st, id)
    case Err(resp) => (resp, st)
    case Ok(key) =>
      (Reply(200, Message("Task deleted successfully")),
       st.(tasks := st.tasks - {key}, taskOrder := Without(st.taskOrder, key)))
  }

  /** `togglePublic`: only the owner may flip the visibility flag. The task is then saved,
      and a document that fails the schema's validation is answered 500. */
  function TogglePublic(st: State, requester: Id, id: string): (r: (Response, State))
    ensures r.0.status == 200 <==>
              Stored(st, id) && st.tasks[CastId(id)].owner == requester && SaveValid(st.tasks[CastId(id)])
    ensures r.0.status != 200 ==> r.1 == st
    ensures !IsObjectId(id) ==> r.0 == InternalError
    ensures IsObjectId(id) && CastId(id) !in st.tasks ==> r.0 == NotFound
    ensures Stored(st, id) && st.tasks[CastId(id)].owner != requester ==> r.0 == NotOwner
    ensures Stored(st, id) && st.tasks[CastId(id)].owner == requester && !SaveValid(st.tasks[CastId(id)]) ==>
              r.0 == InternalError
  {
    match FindTask(st, id)
    case Err(resp) => (resp, st)
    case Ok(key) =>
      var t := st.tasks[key];
      if t.owner != requester then (NotOwner, st)
      else
        var u := t.(isPublic := !t.isPublic);
        if !SaveValid(u) then (InternalError, st)
        else (Reply(200, TaskBody(Some(Updated), key, u)), Save(st, key, u))
  }

  /** `completeTask`: only the owner may flip the completion flag. The visibility flag is
      reassigned its own value by an if/else in both branches. The task is then saved, and
      a document that fails the schema's validation is answered 500. */
  function CompleteTask(st: State, requester: Id, id: string): (r: (Response, State))
    ensures r.0.status == 200 <==>
              Stored(st, id) && st.tasks[CastId(id)].owner == requester && SaveValid(st.tasks[CastId(id)])
    ensures r.0.status != 200 ==> r.1 == st
    ensures !IsObjectId(id) ==> r.0 == InternalError
    ensures IsObjectId(id) && CastId(id) !in st.tasks ==> r.0 == NotFound
    ensures Stored(st, id) && st.tasks[CastId(id)].owner != requester ==> r.0 == NotOwner
    ensures Stored(st, id) && st.tasks[CastId(id)].owner == requester && !SaveValid(st.tasks[CastId(id)]) ==>
              r.0 == InternalError
  {
    match FindTask(st, id)
    case Err(resp) => (resp, st)
    case Ok(key) =>
      var t := st.tasks[key];
      if t.owner != requester then (NotOwner, st)
      else
        var visible := if t.isPublic then true else false;
        var u := t.(isPublic := visible, isCompleted := !t.isCompleted);
        if !SaveValid(u) then (InternalError, st)
        else (Reply(200, TaskBody(Some(Updated), key, u)), Save(st, key, u))
  }

  /** The ids `TaskModel.find({owner, isPublic: true})` returns: the owner's public tasks,
      each once, in scan order. */
  function PublicTaskIds(st: State, owner: Id): (ids: seq<Id>)
    ensures IsSubsequence(ids, st.taskOrder)
    ensures forall i :: 0 <= i < |ids| ==>
              ids[i] in st.tasks && st.tasks[ids[i]].owner == owner && st.tasks[ids[i]].isPublic
    ensures Wf(st) ==> forall id :: id in st.tasks && st.tasks[id].owner == owner && st.tasks[id].isPublic ==> id in ids
    ensures Wf(st) ==> forall i, j :: 0 <= i < j < |ids| ==> ids[i] != ids[j]
  {
    Select(st.tasks, st.taskOrder, (id: Id, t: Task) => t.owner == owner && t.isPublic)
  }

  /** `viewPublicTasks`: the public tasks of `userId`, in scan order, reduced to title,
      description and isCompleted. The id is cast to an ObjectId, so its case does not
      matter; one that cannot be cast makes `find` throw. */
  function ViewPublicTasks(st: State, userId: string): (r: Response)
    ensures r.status == 200 <==> IsObjectId(userId)
    ensures r.status != 200 ==> r == InternalError
    ensures r.status == 200 ==> r.body.PublicTasks?
    ensures r.status == 200 ==>
              var ids := PublicTaskIds(st, CastId(userId));
              |r.body.items| == |ids| &&
              forall i :: 0 <= i < |ids| ==> r.body.items[i] == ToPublicView(st.tasks[ids[i]])
    ensures r.status == 200 && Wf(st) ==>
              forall id :: id in st.tasks && st.tasks[id].owner == CastId(userId) && st.tasks[id].isPublic ==>
                ToPublicView(st.tasks[id]) in r.body.items
  {
    if !IsObjectId(userId) then InternalError
    else
      var ids := PublicTaskIds(st, CastId(userId));
      var items := seq(|ids|, i requires 0 <= i < |ids| => ToPublicView(st.tasks[ids[i]]));
      assert forall id :: id in ids ==> ToPublicView(st.tasks[id]) in items by {
        forall id | id in ids ensures ToPublicView(st.tasks[id]) in items {
          var k :| 0 <= k < |ids| && ids[k] == id;
          assert items[k] == ToPublicView(st.tasks[id]);
        }
      }
      Reply(200, PublicTasks(items))
  }

  /** The distinct owners of public tasks: `TaskModel.distinct('owner', {isPublic: true})`. */
  function PublicOwnerIds(st: State): (owners: set<Id>)
    ensures forall o :: o in owners <==> exists id :: id in st.tasks && st.tasks[id].isPublic && st.tasks[id].owner == o
  {
    set id | id in st.tasks && st.tasks[id].isPublic :: st.tasks[id].owner
  }

  /** The ids `UserModel.find({_id: {$in: owners}})` returns: the users owning a public
      task, each once, in scan order. */
  function PublicUserIds(st: State): (ids: seq<Id>)
    ensures IsSubsequence(ids, st.userOrder)
    ensures forall i :: 0 <= i < |ids| ==> ids[i] in st.users && ids[i] in PublicOwnerIds(st)
    ensures Wf(st) ==> forall uid :: uid in st.users && uid in PublicOwnerIds(st) ==> uid in ids
    ensures Wf(st) ==> forall i, j :: 0 <= i < j < |ids| ==> ids[i] != ids[j]
  {
    var owners := PublicOwnerIds(st);
    Select(st.users, st.userOrder, (id: Id, u: User) => id in owners)
  }

  /** `viewPUsers`: `[]` when no task is public; otherwise the users, in scan order, whose id
      is among the public owners, with the default projection plus `fullname` and `email`. */
  function ViewPUsers(st: State): (r: Response)
    ensures r.status == 200 && r.body.PublicOwners?
    ensures PublicOwnerIds(st) == {} ==> r.body.owners == []
    ensures PublicOwnerIds(st) != {} ==>
              var ids := PublicUserIds(st);
              |r.body.owners| == |ids| &&
              forall i :: 0 <= i < |ids| ==> r.body.owners[i] == Read(ids[i], st.users[ids[i]])
    ensures forall i :: 0 <= i < |r.body.owners| ==>
              var d := r.body.owners[i];
              d.id in st.users && d.id in PublicOwnerIds(st) && d == Read(d.id, st.users[d.id])
    ensures Wf(st) ==> forall uid :: uid in st.users && uid in PublicOwnerIds(st) ==>
              Read(uid, st.users[uid]) in r.body.owners
  {
    var owners := PublicOwnerIds(st);
    if |owners| == 0 then Reply(200, PublicOwners([]))
    else
      var ids := PublicUserIds(st);
      var docs := seq(|ids|, i requires 0 <= i < |ids| => Read(ids[i], st.users[ids[i]]));
      assert forall uid :: uid in ids ==> Read(uid, st.users[uid]) in docs by {
        forall uid | uid in ids ensures Read(uid, st.users[uid]) in docs {
          var k :| 0 <= k < |ids| && ids[k] == uid;
          assert docs[k] == Read(uid, st.users[uid]);
        }
      }
      Reply(200, PublicOwners(docs))
  }

  /** Toggling twice restores the state: the second call finds the same owner and flips
      the flag back. */
  lemma {:induction false} ToggleTwiceRestores(st: State, requester: Id, id: string)
    requires TogglePublic(st, requester, id).0.status == 200
    ensures var st1 := TogglePublic(st, requester, id).1;
            st1.tasks[CastId(id)].isPublic == !st.tasks[CastId(id)].isPublic &&
            TogglePublic(st1, requester, id).1 == st
  {
    var key := CastId(id);
    var t := st.tasks[key];
    var st1 := TogglePublic(st, requester, id).1;
    assert st1.tasks == st.tasks[key := t.(isPublic := !t.isPublic)];
    var st2 := TogglePublic(st1, requester, id).1;
    assert st2.tasks == st.tasks[key := t];
    assert st.tasks[key := t] == st.tasks;
  }

  /** A successful toggle changes the visibility of that one task and nothing else. */
  lemma ToggleChangesOnlyVisibility(st: State, requester: Id, id: string, other: Id)
    requires TogglePublic(st, requester, id).0.status == 200
    ensures var st1 := TogglePublic(st, requester, id).1;
            var key := CastId(id);
            && st1.tasks.Keys == st.tasks.Keys
            && st1.tasks[key] == st.tasks[key].(isPublic := !st.tasks[key].isPublic)
            && (other in st.tasks && other != key ==> st1.tasks[other] == st.tasks[other])
            && st1.users == st.users && st1.taskOrder == st.taskOrder && st1.blacklist == st.blacklist
  {
  }

  /** Completing flips the completion flag and keeps the visibility flag: the if/else that
      reassigns `isPublic` is a no-op. Completing twice restores the state. */
  lemma {:induction false} CompleteKeepsVisibility(st: State, requester: Id, id: string)
    requires CompleteTask(st, requester, id).0.status == 200
    ensures var st1 := CompleteTask(st, requester, id).1;
            && st1.tasks[CastId(id)] == st.tasks[CastId(id)].(isCompleted := !st.tasks[CastId(id)].isCompleted)
            && CompleteTask(st1, requester, id).1 == st
  {
    var key := CastId(id);
    var t := st.tasks[key];
    var st1 := CompleteTask(st, requester, id).1;
    assert st1.tasks == st.tasks[key := t.(isCompleted := !t.isCompleted)];
    var st2 := CompleteTask(st1, requester, id).1;
    assert st2.tasks == st.tasks[key := t];
    assert st.tasks[key := t] == st.tasks;
  }

  /** `getOneTask`, `updateTask` and `deleteTask` never compare the task's owner with the
      requester: any authenticated user gets the same answer as the owner. */
  lemma RequesterIrrelevant(st: State, a: Id, b: Id, id: string, body: TaskRequest)
    ensures GetOneTask(st, a, id) == GetOneTask(st, b, id)
    ensures UpdateTask(st, a, id, body) == UpdateTask(st, b, id, body)
    ensures DeleteTask(st, a, id) == DeleteTask(st, b, id)
  {
  }

  /** Two spellings of an id that cast to the same ObjectId reach the same task: every
      handler that takes an id from the path answers them alike. */
  lemma IdCaseIrrelevant(st: State, requester: Id, a: string, b: string, body: TaskRequest)
    requires IsObjectId(a) && IsObjectId(b) && CastId(a) == CastId(b)
    ensures GetOneTask(st, requester, a) == GetOneTask(st, requester, b)
    ensures UpdateTask(st, requester, a, body) == UpdateTask(st, requester, b, body)
    ensures DeleteTask(st, requester, a) == DeleteTask(st, requester, b)
    ensures TogglePublic(st, requester, a) == TogglePublic(st, requester, b)
    ensures CompleteTask(st, requester, a) == CompleteTask(st, requester, b)
    ensures ViewPublicTasks(st, a) == ViewPublicTasks(st, b)
  {
  }

  /** Upper-casing a canonical id keeps it an ObjectId that casts back to the original. */
  lemma UpperCastsBack(id: Id)
    requires IsCanonicalId(id)
    ensures IsObjectId(ToUpper(id)) && CastId(ToUpper(id)) == id
  {
    var u := ToUpper(id);
    assert forall i :: 0 <= i < |id| ==> IsHexDigit(u[i]) && LowerHex(u[i]) == id[i];
  }

  /** A stored task is found through the upper-case spelling of its id, and the answer
      carries the stored spelling. */
  lemma UpperCaseIdFound(st: State, requester: Id, id: Id)
    requires Wf(st) && id in st.tasks
    ensures GetOneTask(st, requester, ToUpper(id)) == Reply(200, TaskBody(None, id, st.tasks[id]))
  {
    UpperCastsBack(id);
  }

  /** Two users, `alice` owning a public task: `bob` is refused the toggle and the
      completion, yet can read, rewrite and delete it, and sees it among alice's public
      tasks. */
  lemma ForeignTaskScenario(st: State, alice: Id, bob: Id, id: Id, body: TaskRequest)
    requires Wf(st) && alice != bob
    requires id in st.tasks && st.tasks[id].owner == alice && st.tasks[id].isPublic
    requires body.title.Some? && !IsBlank(body.title.value)
    ensures TogglePublic(st, bob, id) == (NotOwner, st)
    ensures CompleteTask(st, bob, id) == (NotOwner, st)
    ensures GetOneTask(st, bob, id).status == 200
    ensures UpdateTask(st, bob, id, body).0.status == 200
    ensures UpdateTask(st, bob, id, body).1.tasks[id].owner == alice
    ensures DeleteTask(st, bob, id).0.status == 200 && id !in DeleteTask(st, bob, id).1.tasks
    ensures ToPublicView(st.tasks[id]) in ViewPublicTasks(st, alice).body.items
  {
    CanonicalIsObjectId(id);
    CanonicalIsObjectId(alice);
  }

  /** `updateTask` reads only title, description and isCompleted from the body: the
      visibility and owner the client sends are ignored. */
  lemma UpdateIgnoresVisibilityAndOwner(st: State, requester: Id, id: string, body: TaskRequest, isPublic: Option<bool>, owner: Option<Id>)
    ensures UpdateTask(st, requester, id, body) == UpdateTask(st, requester, id, body.(isPublic := isPublic, owner := owner))
  {
  }

  /** `createTask` takes the owner from the authenticated user: an `owner` field in the body
      changes nothing. */
  lemma CreateIgnoresBodyOwner(st: State, requester: Id, body: TaskRequest, newId: Id, owner: Option<Id>)
    requires newId !in st.tasks && newId !in st.taskOrder
    ensures CreateTask(st, requester, body, newId) == CreateTask(st, requester, body.(owner := owner), newId)
  {
  }

  /** A created task appears in its creator's list, and a deleted one can no longer be
      fetched. */
  lemma CreateThenList(st: State, requester: Id, body: TaskRequest, newId: Id)
    requires Wf(st) && IsCanonicalId(requester) && IsCanonicalId(newId) && newId !in st.tasks
    requires CreateTask(st, requester, body, newId).0.status == 201
    ensures var st1 := CreateTask(st, requester, body, newId).1;
            Wf(st1) && ToOwnView(newId, st1.tasks[newId]) in GetAllTasks(st1, requester).body.views
  {
    CreateTaskPreservesWf(st, requester, body, newId);
  }

  lemma DeleteThenNotFound(st: State, requester: Id, id: string, anyone: Id)
    requires DeleteTask(st, requester, id).0.status == 200
    ensures GetOneTask(DeleteTask(st, requester, id).1, anyone, id) == NotFound
  {
  }

  /** Making a private task public lists its owner among the users with public tasks. */
  lemma ToggleListsOwner(st: State, requester: Id, id: string)
    requires Wf(st) && requester in st.users
    requires TogglePublic(st, requester, id).0.status == 200 && !st.tasks[CastId(id)].isPublic
    ensures var st1 := TogglePublic(st, requester, id).1;
            Read(requester, st.users[requester]) in ViewPUsers(st1).body.owners
  {
    var key := CastId(id);
    var st1 := TogglePublic(st, requester, id).1;
    UpdatesPreserveWf(st, requester, id, TaskRequest(None, None, None, None, None));
    assert key in st1.tasks && st1.tasks[key].isPublic && st1.tasks[key].owner == requester;
    assert requester in PublicOwnerIds(st1);
  }

  /** Every task handler keeps the state invariant. */
  lemma CreateTaskPreservesWf(st: State, requester: Id, body: TaskRequest, newId: Id)
    requires Wf(st) && IsCanonicalId(requester) && IsCanonicalId(newId) && newId !in st.tasks
    ensures Wf(CreateTask(st, requester, body, newId).1)
  {
    assert newId !in st.taskOrder;
    match CreateTaskRecord(body.title, body.description, body.isPublic, Some(requester))
    case Err(_) =>
    case Ok(t) => AppendPreservesWf(st, newId, t);
  }

  /** Storing a fresh, valid task at the end of the scan order keeps the invariant. */
  lemma AppendPreservesWf(st: State, newId: Id, t: Task)
    requires Wf(st) && IsCanonicalId(newId) && newId !in st.tasks
    requires IsCanonicalId(t.owner) && SaveValid(t)
    ensures Wf(Append(st, newId, t))
  {
    var st1 := Append(st, newId, t);
    assert newId !in st.taskOrder;
    assert forall id :: id in st1.tasks ==> id in st1.taskOrder by {
      forall id | id in st1.tasks ensures id in st1.taskOrder {
        if id != newId {
          assert id in st.taskOrder;
        }
      }
    }
  }

  /** Writing back a stored task, valid and with a canonical owner, keeps the invariant. */
  lemma SavePreservesWf(st: State, key: Id, t: Task)
    requires Wf(st) && key in st.tasks && IsCanonicalId(t.owner) && SaveValid(t)
    ensures Wf(Save(st, key, t))
  {
    assert Save(st, key, t).tasks.Keys == st.tasks.Keys;
  }

  lemma DeleteTaskPreservesWf(st: State, requester: Id, id: string)
    requires Wf(st)
    ensures Wf(DeleteTask(st, requester, id).1)
  {
    var st1 := DeleteTask(st, requester, id).1;
    if st1 != st {
      assert forall i :: 0 <= i < |st1.taskOrder| ==> st1.taskOrder[i] in st1.tasks by {
        forall i | 0 <= i < |st1.taskOrder| ensures st1.taskOrder[i] in st1.tasks {
          assert st1.taskOrder[i] in st1.taskOrder;
        }
      }
    }
  }

  lemma UpdatesPreserveWf(st: State, requester: Id, id: string, body: TaskRequest)
    requires Wf(st)
    ensures Wf(UpdateTask(st, requester, id, body).1)
    ensures Wf(TogglePublic(st, requester, id).1)
    ensures Wf(CompleteTask(st, requester, id).1)
  {
    if Stored(st, id) {
      var key := CastId(id);
      var t := st.tasks[key];
      if SaveValid(Overwrite(t, body)) {
        SavePreservesWf(st, key, Overwrite(t, body));
      }
      SavePreservesWf(st, key, t.(isPublic := !t.isPublic));
      SavePreservesWf(st, key, t.(isPublic := t.isPublic, isCompleted := !t.isCompleted));
    }
  }
}
