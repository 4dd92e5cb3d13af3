/**
  The "My Tasks" page: search, then status filter, then sort, over the list `GET /tasks`
  returns, and the counts shown above it.
 */
module MyTasksPage {
  import opened Text
  import opened Seqs
  import opened Sorting
  import opened TaskLists

  /** One element of the `GET /tasks` response as the page holds it. */
  datatype TaskItem = TaskItem(id: string, title: string, description: string, isCompleted: bool, isPublic: bool)

  predicate ItemMatches(t: TaskItem, term: string) {
    MatchesSearch(t.title, t.description, term)
  }

  /** `searchTasks`: the tasks whose title or description includes the term. */
  function SearchTasks(tasks: seq<TaskItem>, term: string): (r: seq<TaskItem>)
    ensures IsSubsequence(r, tasks)
    ensures forall t :: t in r <==> t in tasks && ItemMatches(t, term)
  {
    FilterIsSubsequence(tasks, (t: TaskItem) => ItemMatches(t, term));
    Filter(tasks, (t: TaskItem) => ItemMatches(t, term))
  }

  /** `filterTasks`: 'completed' keeps the completed tasks, 'pending' the others, and any
      other value keeps everything. */
  function FilterTasks(tasks: seq<TaskItem>, filterBy: string): (r: seq<TaskItem>)
    ensures IsSubsequence(r, tasks)
    ensures forall t :: t in r <==>
              t in tasks && (filterBy == "completed" ==> t.isCompleted) && (filterBy == "pending" ==> !t.isCompleted)
  {
    if filterBy == "completed" then
      FilterIsSubsequence(tasks, (t: TaskItem) => t.isCompleted);
      Filter(tasks, (t: TaskItem) => t.isCompleted)
    else if filterBy == "pending" then
      FilterIsSubsequence(tasks, (t: TaskItem) => !t.isCompleted);
      Filter(tasks, (t: TaskItem) => !t.isCompleted)
    else
      SubsequenceRefl(tasks);
      tasks
  }

  /** `cmp(a, b) <= 0` for `a.isCompleted - b.isCompleted`. */
  predicate StatusLe(a: TaskItem, b: TaskItem) {
    (if a.isCompleted then 1 else 0) - (if b.isCompleted then 1 else 0) <= 0
  }

  /** `cmp(a, b) <= 0` for `b.isPublic - a.isPublic`. */
  predicate PublicLe(a: TaskItem, b: TaskItem) {
    (if b.isPublic then 1 else 0) - (if a.isPublic then 1 else 0) <= 0
  }

  /** `cmp(a, b) <= 0` for `new Date(b.createdAt) - new Date(a.createdAt)`: the list has no
      `createdAt`, both dates are invalid, the difference is NaN, and the sort reads NaN as 0. */
  predicate DateLe(a: TaskItem, b: TaskItem) {
    true
  }

  /** `sortTasks` on a copy of the list. `titleLe` stands for `localeCompare(a.title, b.title) <= 0`. */
  function SortTasks(tasks: seq<TaskItem>, sortBy: string, titleLe: (TaskItem, TaskItem) -> bool): (r: seq<TaskItem>)
    ensures multiset(r) == multiset(tasks)
  {
    if sortBy == "status" then SortBy(tasks, StatusLe)
    else if sortBy == "public" then SortBy(tasks, PublicLe)
    else if sortBy == "title" then SortBy(tasks, titleLe)
    else SortBy(tasks, DateLe)
  }

  /** `processedTasks = sortTasks(filterTasks(searchTasks(tasks)))`. */
  function Processed(tasks: seq<TaskItem>, term: string, filterBy: string, sortBy: string, titleLe: (TaskItem, TaskItem) -> bool): (r: seq<TaskItem>)
    ensures |r| <= |tasks|
    ensures forall t :: t in r <==>
              && t in tasks && ItemMatches(t, term)
              && (filterBy == "completed" ==> t.isCompleted) && (filterBy == "pending" ==> !t.isCompleted)
  {
    var found := SearchTasks(tasks, term);
    var kept := FilterTasks(found, filterBy);
    var r := SortTasks(kept, sortBy, titleLe);
    assert forall t :: t in r <==> t in kept by {
      forall t ensures t in r <==> t in kept {
        assert t in r <==> t in multiset(r);
        assert t in kept <==> t in multiset(kept);
      }
    }
    SubsequenceLength(kept, found);
    SubsequenceLength(found, tasks);
    r
  }

  /** `getTaskStats` over the whole list. */
  function TaskStats(tasks: seq<TaskItem>): (s: Stats)
    ensures s.total == |tasks| && s.completed + s.pending == s.total
    ensures s.completed == Count(tasks, (t: TaskItem) => t.isCompleted)
    ensures s.pending == Count(tasks, (t: TaskItem) => !t.isCompleted)
  {
    FilterPartition(tasks, (t: TaskItem) => t.isCompleted, (t: TaskItem) => !t.isCompleted);
    CompletionStats(tasks, (t: TaskItem) => t.isCompleted)
  }

  // ---------------------------------------------------------------------------------------
  // Properties

  /** An empty search term keeps every task, in order. */
  lemma EmptySearchKeepsAll(tasks: seq<TaskItem>)
    ensures SearchTasks(tasks, "") == tasks
  {
    forall t: TaskItem ensures ItemMatches(t, "") {
      EmptyTermMatches(t.title, t.description);
    }
    FilterAll(tasks, (t: TaskItem) => ItemMatches(t, ""));
  }

  /** The 'status' sort lists pending tasks before completed ones, each group in its
      original order. */
  lemma StatusSortGroups(tasks: seq<TaskItem>, titleLe: (TaskItem, TaskItem) -> bool)
    ensures SortTasks(tasks, "status", titleLe)
         == Filter(tasks, (t: TaskItem) => !t.isCompleted) + Filter(tasks, (t: TaskItem) => t.isCompleted)
  {
    TwoRankSort(tasks, StatusLe, (t: TaskItem) => t.isCompleted, (t: TaskItem) => !t.isCompleted);
  }

  /** The 'public' sort lists public tasks before private ones, each group in its original
      order. */
  lemma PublicSortGroups(tasks: seq<TaskItem>, titleLe: (TaskItem, TaskItem) -> bool)
    ensures SortTasks(tasks, "public", titleLe)
         == Filter(tasks, (t: TaskItem) => t.isPublic) + Filter(tasks, (t: TaskItem) => !t.isPublic)
  {
    TwoRankSort(tasks, PublicLe, (t: TaskItem) => !t.isPublic, (t: TaskItem) => t.isPublic);
  }

  /** The default ('date') sort leaves the list as it is. */
  lemma {:induction false} DateSortKeepsOrder(tasks: seq<TaskItem>, sortBy: string, titleLe: (TaskItem, TaskItem) -> bool)
    requires sortBy != "status" && sortBy != "public" && sortBy != "title"
    ensures SortTasks(tasks, sortBy, titleLe) == tasks
  {
    DateSortIdentity(tasks);
  }

  lemma {:induction false} DateSortIdentity(tasks: seq<TaskItem>)
    ensures SortBy(tasks, DateLe) == tasks
  {
    if tasks != [] {
      var init := tasks[..|tasks| - 1];
      DateSortIdentity(init);
      InsertHigh(init, tasks[|tasks| - 1], DateLe);
      assert init + [tasks[|tasks| - 1]] == tasks;
    }
  }

  /** The 'title' sort orders the titles when `localeCompare` is a total preorder. */
  lemma TitleSortSorted(tasks: seq<TaskItem>, titleLe: (TaskItem, TaskItem) -> bool)
    requires TotalPreorder(titleLe)
    ensures Sorted(SortTasks(tasks, "title", titleLe), titleLe)
  {
    SortBySorted(tasks, titleLe);
  }
}
