/**
  What the task-list pages share: the case-insensitive search on title and description,
  and the completed/pending counts.
 */
module TaskLists {
  import opened Text
  import opened Seqs

  /** `title.toLowerCase().includes(term.toLowerCase()) ||
      description.toLowerCase().includes(term.toLowerCase())`. */
  predicate MatchesSearch(title: string, description: string, term: string) {
    Contains(ToLower(title), ToLower(term)) || Contains(ToLower(description), ToLower(term))
  }

  /** An empty search term matches every task. */
  lemma EmptyTermMatches(title: string, description: string)
    ensures MatchesSearch(title, description, "")
  {
    assert ToLower("") == "";
    ContainsEmpty(ToLower(title));
  }

  /** The search ignores ASCII case in the term. */
  lemma SearchIgnoresTermCase(title: string, description: string, term: string)
    ensures MatchesSearch(title, description, term) == MatchesSearch(title, description, ToUpper(term))
  {
    assert ToLower(ToUpper(term)) == ToLower(term) by {
      forall i | 0 <= i < |term|
        ensures ToLower(ToUpper(term))[i] == ToLower(term)[i]
      {
        var c := term[i];
        if IsAsciiLower(c) {
          assert UpperChar(c) as int == c as int - 32;
        }
      }
    }
  }

  datatype Stats = Stats(total: nat, completed: nat, pending: nat)

  /** `{total, completed, pending}` with `pending = total - completed`: the pending count is
      exactly the number of tasks not completed, and the two add up to the total. */
  function CompletionStats<T>(tasks: seq<T>, done: T -> bool): (s: Stats)
    ensures s.total == |tasks|
    ensures s.completed == Count(tasks, done) && s.completed <= s.total
    ensures s.pending == Count(tasks, (t: T) => !done(t))
    ensures s.completed + s.pending == s.total
  {
    FilterPartition(tasks, done, (t: T) => !done(t));
    Stats(|tasks|, Count(tasks, done), |tasks| - Count(tasks, done))
  }
}
