/**
  The profile page: the avatar initials and the task counts.
 */
module ProfilePage {
  import opened Common
  import opened Text
  import opened Seqs
  import opened MyTasksPage

  /** `part?.charAt(0) || ''`: the first character, or "" for a missing or empty part. */
  function FirstChar(part: Option<string>): (r: string)
    ensures |r| <= 1
    ensures r == [] <==> part.None? || part.value == []
    ensures r != [] ==> r[0] == part.value[0]
  {
    if part.None? || part.value == [] then "" else [part.value[0]]
  }

  /** `getInitials`: the two first characters, upper-cased. */
  function Initials(firstname: Option<string>, lastname: Option<string>): (r: string)
    ensures |r| == |FirstChar(firstname)| + |FirstChar(lastname)| && |r| <= 2
    ensures forall i :: 0 <= i < |r| ==> !IsAsciiLower(r[i])
  {
    ToUpper(FirstChar(firstname) + FirstChar(lastname))
  }

  datatype UserStats = UserStats(totalTasks: nat, completedTasks: nat, pendingTasks: nat, publicTasks: nat)

  /** `getUserStats` over the `GET /tasks` list: three independent filters. */
  function GetUserStats(tasks: seq<TaskItem>): (s: UserStats)
    ensures s.completedTasks + s.pendingTasks == s.totalTasks
    ensures s.publicTasks <= s.totalTasks && s.totalTasks == |tasks|
  {
    FilterPartition(tasks, (t: TaskItem) => t.isCompleted, (t: TaskItem) => !t.isCompleted);
    UserStats(
      |tasks|,
      Count(tasks, (t: TaskItem) => t.isCompleted),
      Count(tasks, (t: TaskItem) => !t.isCompleted),
      Count(tasks, (t: TaskItem) => t.isPublic))
  }

  // ---------------------------------------------------------------------------------------
  // Properties

  /** Two lower-case ASCII initials come out upper-case, first name first. */
  lemma InitialsOfLetters(firstname: string, lastname: string)
    requires firstname != [] && lastname != []
    requires IsAsciiLower(firstname[0]) || IsAsciiUpper(firstname[0])
    requires IsAsciiLower(lastname[0]) || IsAsciiUpper(lastname[0])
    ensures var r := Initials(Some(firstname), Some(lastname));
            |r| == 2 && IsAsciiUpper(r[0]) && IsAsciiUpper(r[1])
            && LowerChar(r[0]) == LowerChar(firstname[0]) && LowerChar(r[1]) == LowerChar(lastname[0])
  {
  }

  /** A missing or empty name part contributes nothing. */
  lemma MissingPartContributesNothing(lastname: Option<string>)
    ensures Initials(None, lastname) == Initials(Some(""), lastname) == ToUpper(FirstChar(lastname))
  {
    assert FirstChar(None) + FirstChar(lastname) == FirstChar(lastname);
  }

  /** The profile counts agree with the "My Tasks" counts on the same list. */
  lemma ProfileAgreesWithMyTasks(tasks: seq<TaskItem>)
    ensures GetUserStats(tasks).completedTasks == TaskStats(tasks).completed
    ensures GetUserStats(tasks).pendingTasks == TaskStats(tasks).pending
  {
  }
}
