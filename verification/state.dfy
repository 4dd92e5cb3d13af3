/**
  The backend's persistent state, with MongoDB replaced by maps and a set, and the HTTP
  responses the handlers produce.
 */
module Db {
  import opened Common
  import opened Seqs
  import opened Users
  import opened Tasks

  /** The `users`, `tasks` and `blacklisttokens` collections. The two order sequences record
      the scan order of the first two. */
  datatype State = State(
    users: map<Id, User>,
    userOrder: seq<Id>,
    tasks: map<Id, Task>,
    taskOrder: seq<Id>,
    blacklist: set<string>)

  /** The state invariant: ids are ObjectIds in their canonical lower-case spelling, task
      owners too, every stored task passes the schema's validation, the scan orders list
      each stored document once, and the unique index on `email` holds. */
  ghost predicate Wf(st: State) {
    && (forall id :: id in st.users ==> IsCanonicalId(id))
    && (forall id :: id in st.tasks ==> IsCanonicalId(id) && IsCanonicalId(st.tasks[id].owner))
    && (forall id :: id in st.tasks ==> SaveValid(st.tasks[id]))
    && Enumerates(st.userOrder, st.users)
    && Enumerates(st.taskOrder, st.tasks)
    && UniqueEmails(st.users)
  }

  /** Ids, in scan order, of the documents satisfying `keep`: `Model.find(filter)`. */
  function Select<V>(m: map<Id, V>, order: seq<Id>, keep: (Id, V) -> bool): (r: seq<Id>)
    ensures IsSubsequence(r, order)
    ensures forall i :: 0 <= i < |r| ==> r[i] in m && keep(r[i], m[r[i]]) && r[i] in order
    ensures forall i :: 0 <= i < |order| && order[i] in m && keep(order[i], m[order[i]]) ==> order[i] in r
    ensures (forall i, j :: 0 <= i < j < |order| ==> order[i] != order[j]) ==>
              forall i, j :: 0 <= i < j < |r| ==> r[i] != r[j]
  {
    if order == [] then []
    else
      var rest := Select(m, order[1..], keep);
      assert forall i :: 0 <= i < |rest| ==> rest[i] in order[1..];
      if order[0] in m && keep(order[0], m[order[0]]) then
        assert ([order[0]] + rest)[1..] == rest;
        [order[0]] + rest
      else
        rest
  }

  /** `find` scans the collection as `Array.prototype.filter` scans an array: the result is
      the scan order filtered by the query. */
  lemma {:induction false} SelectIsFilter<V>(m: map<Id, V>, order: seq<Id>, keep: (Id, V) -> bool, p: Id -> bool)
    requires forall id :: p(id) == (id in m && keep(id, m[id]))
    ensures Select(m, order, keep) == Filter(order, p)
  {
    if order != [] {
      SelectIsFilter(m, order[1..], keep, p);
    }
  }

  /** The scan order with one id deleted. */
  function Without(order: seq<Id>, id: Id): (r: seq<Id>)
    ensures forall x :: x in r <==> x in order && x != id
    ensures (forall i, j :: 0 <= i < j < |order| ==> order[i] != order[j]) ==>
              forall i, j :: 0 <= i < j < |r| ==> r[i] != r[j]
  {
    if order == [] then []
    else
      var rest := Without(order[1..], id);
      assert (forall i, j :: 0 <= i < j < |order| ==> order[i] != order[j]) ==> order[0] !in order[1..];
      if order[0] == id then rest else [order[0]] + rest
  }

  /** What a response does to the client's `token` cookie. */
  datatype CookieOp = KeepCookie | SetTokenCookie(token: string) | ClearTokenCookie

  /** Bodies the handlers send: JSON documents, and the framework's default error page,
      which an error passed to `next` produces when no error middleware is installed. */
  datatype Body =
    | Message(text: string)
    | ValidationErrors
    | TaskBody(message: Option<string>, id: Id, task: Task)
    | OwnTasks(views: seq<OwnView>)
    | PublicTasks(items: seq<PublicView>)
    | PublicOwners(owners: seq<UserDoc>)
    | Session(token: string, user: UserDoc)
    | ProfileInfo(fullname: Fullname, email: string)
    | DefaultErrorPage

  datatype Response = Response(status: nat, body: Body, cookie: CookieOp)

  function Reply(status: nat, body: Body): Response {
    Response(status, body, KeepCookie)
  }

  const InternalError: Response := Reply(500, Message("Internal server error"))

  /** `next(err)` with no error middleware: the framework answers 500 with its own page. */
  const ErrorPage: Response := Reply(500, DefaultErrorPage)
}
