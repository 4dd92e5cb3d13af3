/**
  The "Public Tasks" page: the list of users with public tasks, the selected user's public
  tasks under a search term and a status filter, and the counts.
 */
module PublicTasksPage {
  import opened Common
  import opened Text
  import opened Seqs
  import opened Users
  import opened TaskLists

  /** One element of the `GET /tasks/public/:userId` response as the page holds it. */
  datatype PublicItem = PublicItem(title: string, description: string, isCompleted: bool)

  /** The status filter of `filteblueTasks`. Unlike the "My Tasks" page, a value other than
      "all", "completed" or "pending" matches nothing. */
  predicate MatchesFilter(t: PublicItem, filterBy: string) {
    || filterBy == "all"
    || (filterBy == "completed" && t.isCompleted)
    || (filterBy == "pending" && !t.isCompleted)
  }

  predicate Shown(t: PublicItem, term: string, filterBy: string) {
    MatchesSearch(t.title, t.description, term) && MatchesFilter(t, filterBy)
  }

  /** `filteblueTasks`: the selected user's tasks that match the search and the filter. */
  function FilteredTasks(tasks: seq<PublicItem>, term: string, filterBy: string): (r: seq<PublicItem>)
    ensures forall t :: t in r <==> t in tasks && Shown(t, term, filterBy)
    ensures IsSubsequence(r, tasks)
  {
    FilterIsSubsequence(tasks, (t: PublicItem) => Shown(t, term, filterBy));
    Filter(tasks, (t: PublicItem) => Shown(t, term, filterBy))
  }

  /** `getTaskStats(tasks)` over the unfiltered list. */
  function PublicStats(tasks: seq<PublicItem>): (s: Stats)
    ensures s.total == |tasks| && s.completed <= s.total
    ensures s.pending == s.total - s.completed
    ensures s.completed == Count(tasks, (t: PublicItem) => t.isCompleted)
  {
    CompletionStats(tasks, (t: PublicItem) => t.isCompleted)
  }

  /** A name part interpolated into a template literal: an absent part prints "undefined". */
  function Interpolate(part: Option<string>): string {
    match part
    case Some(s) => s
    case None => "undefined"
  }

  /** An exception that stops the page from rendering. */
  datatype Thrown = TypeError

  /** `${u.fullname.firstname} ${u.fullname.lastname}`. A user with neither name part is
      sent without a `fullname` object at all (an empty nested object is dropped when the
      document is serialised), so reading a part of it throws. */
  function NameLabel(f: Fullname): (r: Result<string, Thrown>)
    ensures r.Err? <==> f.firstname.None? && f.lastname.None?
    ensures r.Ok? ==> r.value != "" && ' ' in r.value
    ensures r.Ok? && f.firstname.Some? ==> StartsWith(r.value, f.firstname.value + " ")
  {
    if f.firstname.None? && f.lastname.None? then Err(TypeError)
    else
      var first := Interpolate(f.firstname);
      var text := first + " " + Interpolate(f.lastname);
      assert text[|first|] == ' ';
      assert text[..|first| + 1] == first + " ";
      Ok(text)
  }

  /** The user buttons: one label per user, in list order, or the exception of the first
      user the page cannot name. */
  function UserButtons(users: seq<UserDoc>): (r: Result<seq<string>, Thrown>)
    ensures r.Ok? <==> forall i :: 0 <= i < |users| ==> NameLabel(users[i].fullname).Ok?
    ensures r.Ok? ==> |r.value| == |users|
    ensures r.Ok? ==> forall i :: 0 <= i < |users| ==> r.value[i] == NameLabel(users[i].fullname).value
  {
    if users == [] then Ok([])
    else
      match NameLabel(users[0].fullname)
      case Err(e) => Err(e)
      case Ok(name) =>
        match UserButtons(users[1..])
        case Err(e) => Err(e)
        case Ok(rest) =>
          assert forall i :: 1 <= i < |users| ==> users[i] == users[1..][i - 1];
          Ok([name] + rest)
  }

  /** `users.find(u => u._id === selectedUser)`: the first user with the selected id. */
  function FindUser(users: seq<UserDoc>, selected: Option<Id>): (r: Option<nat>)
    ensures r.None? <==> selected.None? || forall i :: 0 <= i < |users| ==> users[i].id != selected.value
    ensures r.Some? ==> r.value < |users| && selected == Some(users[r.value].id)
    ensures r.Some? ==> forall i :: 0 <= i < r.value ==> users[i].id != selected.value
  {
    if selected.None? || users == [] then None
    else if users[0].id == selected.value then Some(0)
    else
      match FindUser(users[1..], selected)
      case None => None
      case Some(i) => Some(i + 1)
  }

  /** `getSelectedUserName`: "first last" of the selected user, "" when no user has the
      selected id (or nothing is selected), and the exception when that user has no name. */
  function SelectedUserName(users: seq<UserDoc>, selected: Option<Id>): (name: Result<string, Thrown>)
    ensures name == Ok("") <==> FindUser(users, selected).None?
    ensures FindUser(users, selected).Some? ==>
              name == NameLabel(users[FindUser(users, selected).value].fullname)
  {
    match FindUser(users, selected)
    case None => Ok("")
    case Some(i) => NameLabel(users[i].fullname)
  }

  // ---------------------------------------------------------------------------------------
  // Properties

  /** "all" imposes no status constraint: only the search decides. */
  lemma AllFilterIsSearch(tasks: seq<PublicItem>, term: string, t: PublicItem)
    ensures t in FilteredTasks(tasks, term, "all") <==> t in tasks && MatchesSearch(t.title, t.description, term)
  {
  }

  /** "completed" and "pending" split what "all" shows: every shown task is in exactly one
      of the two lists, and their lengths add up. */
  lemma {:induction false} StatusFiltersPartition(tasks: seq<PublicItem>, term: string)
    ensures |FilteredTasks(tasks, term, "completed")| + |FilteredTasks(tasks, term, "pending")|
         == |FilteredTasks(tasks, term, "all")|
  {
    if tasks != [] {
      StatusFiltersPartition(tasks[1..], term);
    }
  }

  /** A filter value outside the three the page offers shows nothing. */
  lemma UnknownFilterShowsNothing(tasks: seq<PublicItem>, term: string, filterBy: string)
    requires filterBy != "all" && filterBy != "completed" && filterBy != "pending"
    ensures FilteredTasks(tasks, term, filterBy) == []
  {
  }

  /** Selecting a user shown in the list always yields a non-empty name. */
  lemma SelectedListedUserNamed(users: seq<UserDoc>, k: nat)
    requires k < |users|
    requires UserButtons(users).Ok?
    ensures SelectedUserName(users, Some(users[k].id)).Ok?
    ensures SelectedUserName(users, Some(users[k].id)).value != ""
  {
    assert FindUser(users, Some(users[k].id)).Some?;
  }

  /** With ids unique, the user found for a clicked button's id is that button's user. */
  lemma SelectsClicked(users: seq<UserDoc>, k: nat)
    requires k < |users|
    requires forall i, j :: 0 <= i < j < |users| ==> users[i].id != users[j].id
    ensures FindUser(users, Some(users[k].id)) == Some(k)
  {
    assert forall j :: 0 <= j < k ==> users[j].id != users[k].id;
  }

  /** With ids unique, the selected user's name is the label on the button that was clicked. */
  lemma SelectedNameIsButtonLabel(users: seq<UserDoc>, k: nat)
    requires k < |users| && UserButtons(users).Ok?
    requires forall i, j :: 0 <= i < j < |users| ==> users[i].id != users[j].id
    ensures SelectedUserName(users, Some(users[k].id)) == Ok(UserButtons(users).value[k])
  {
    SelectsClicked(users, k);
  }

  /** One user without a name part stops the whole list from rendering, and selecting that
      user stops the heading too. */
  lemma NamelessUserCrashes(users: seq<UserDoc>, k: nat)
    requires k < |users| && users[k].fullname == Fullname(None, None)
    requires forall i, j :: 0 <= i < j < |users| ==> users[i].id != users[j].id
    ensures UserButtons(users) == Err(TypeError)
    ensures SelectedUserName(users, Some(users[k].id)) == Err(TypeError)
  {
    assert NameLabel(users[k].fullname).Err?;
    var r := UserButtons(users);
    assert !r.Ok?;
    assert r == Err(r.error);
    assert r.error == TypeError;
    SelectsClicked(users, k);
  }
}
