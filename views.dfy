/**
 * The derived views of `App`: `applyFilters` (priority, then search) and the three buckets
 * the filtered list is split into by completion and by due date against today.
 */
module Views {
  import opened Wrappers
  import opened Text
  import opened Tasks

  /** The priority selector value that switches the priority filter off. */
  const AllPriorities: string := "All"

  /** The test `task => task.priority === priorityFilter`. */
  function PriorityIs(sel: string): Task -> bool {
    (t: Task) => t.priority == Some(sel)
  }

  /** `task.title && task.title.toLowerCase().includes(searchTerm.toLowerCase())`: the title is
      present and non-empty, and the lower-cased UNtrimmed term occurs in the lower-cased title. */
  predicate MatchesSearch(term: string, t: Task) {
    t.title.Some? && t.title.value != "" && Contains(Lower(t.title.value), Lower(term))
  }

  function SearchFor(term: string): Task -> bool {
    (t: Task) => MatchesSearch(term, t)
  }

  /** The priority stage: the identity for "All", otherwise the tasks of that priority. */
  function ByPriority(tasks: seq<Task>, priorityFilter: string): (r: seq<Task>)
    ensures IsSubseq(r, tasks)
    ensures forall t :: t in r <==> t in tasks && (priorityFilter == AllPriorities || t.priority == Some(priorityFilter))
  {
    FilterIsSubseq(PriorityIs(priorityFilter), tasks);
    IsSubseqRefl(tasks);
    if priorityFilter != AllPriorities then Filter(PriorityIs(priorityFilter), tasks) else tasks
  }

  /** The search stage: applied only when the trimmed term is non-empty. */
  function BySearch(tasks: seq<Task>, searchTerm: string): (r: seq<Task>)
    ensures IsSubseq(r, tasks)
    ensures forall t :: t in r <==> t in tasks && (IsBlank(searchTerm) || MatchesSearch(searchTerm, t))
  {
    FilterIsSubseq(SearchFor(searchTerm), tasks);
    IsSubseqRefl(tasks);
    if Trim(searchTerm) != "" then Filter(SearchFor(searchTerm), tasks) else tasks
  }

  /** A task passes both stages of the filter. */
  predicate Visible(t: Task, priorityFilter: string, searchTerm: string) {
    && (priorityFilter == AllPriorities || t.priority == Some(priorityFilter))
    && (IsBlank(searchTerm) || MatchesSearch(searchTerm, t))
  }

  /** `applyFilters`: priority first, then search. The result is an order-preserving
      subsequence of the list holding exactly the tasks that pass both stages. */
  function ApplyFilters(tasks: seq<Task>, priorityFilter: string, searchTerm: string): (r: seq<Task>)
    ensures IsSubseq(r, tasks)
    ensures forall t :: t in r <==> t in tasks && Visible(t, priorityFilter, searchTerm)
  {
    var p := ByPriority(tasks, priorityFilter);
    var r := BySearch(p, searchTerm);
    IsSubseqTrans(r, p, tasks);
    r
  }

  /** Each copy of a visible task survives the filter, and no copy of another one does. */
  lemma ApplyFiltersCount(tasks: seq<Task>, priorityFilter: string, searchTerm: string, t: Task)
    ensures multiset(ApplyFilters(tasks, priorityFilter, searchTerm))[t]
         == if Visible(t, priorityFilter, searchTerm) then multiset(tasks)[t] else 0
  {
    FilterCount(PriorityIs(priorityFilter), tasks, t);
    FilterCount(SearchFor(searchTerm), ByPriority(tasks, priorityFilter), t);
  }

  /** With the selector on "All" and a blank search term the filter is the identity. */
  lemma ApplyFiltersNeutral(tasks: seq<Task>, searchTerm: string)
    requires IsBlank(searchTerm)
    ensures ApplyFilters(tasks, AllPriorities, searchTerm) == tasks
  {
  }

  /** Filtering the filtered list again with the same selector and term changes nothing. */
  lemma ApplyFiltersIdempotent(tasks: seq<Task>, priorityFilter: string, searchTerm: string)
    ensures ApplyFilters(ApplyFilters(tasks, priorityFilter, searchTerm), priorityFilter, searchTerm)
         == ApplyFilters(tasks, priorityFilter, searchTerm)
  {
    var r := ApplyFilters(tasks, priorityFilter, searchTerm);
    FilterIdentity(PriorityIs(priorityFilter), r);
    FilterIdentity(SearchFor(searchTerm), ByPriority(r, priorityFilter));
  }

  /** The two stages may run in either order: searching first and then filtering by priority
      gives the same list. */
  lemma ApplyFiltersStagesCommute(tasks: seq<Task>, priorityFilter: string, searchTerm: string)
    ensures ApplyFilters(tasks, priorityFilter, searchTerm)
         == ByPriority(BySearch(tasks, searchTerm), priorityFilter)
  {
    FilterCommute(PriorityIs(priorityFilter), SearchFor(searchTerm), tasks);
  }

  /** The search is insensitive to the case of the term. */
  lemma ApplyFiltersIgnoresTermCase(tasks: seq<Task>, priorityFilter: string, searchTerm: string)
    ensures ApplyFilters(tasks, priorityFilter, Lower(searchTerm))
         == ApplyFilters(tasks, priorityFilter, searchTerm)
  {
    LowerIdempotent(searchTerm);
    LowerKeepsBlank(searchTerm);
    FilterCongruent(SearchFor(Lower(searchTerm)), SearchFor(searchTerm), ByPriority(tasks, priorityFilter));
  }

  /** A task appended to the list shows at the end of the filtered list when it passes both
      stages; the rest of the filtered list is unchanged. */
  lemma ApplyFiltersAppend(tasks: seq<Task>, t: Task, priorityFilter: string, searchTerm: string)
    ensures ApplyFilters(tasks + [t], priorityFilter, searchTerm)
         == ApplyFilters(tasks, priorityFilter, searchTerm)
            + (if Visible(t, priorityFilter, searchTerm) then [t] else [])
  {
    ByPriorityAppend(tasks, t, priorityFilter);
    var shown := if priorityFilter == AllPriorities || t.priority == Some(priorityFilter) then [t] else [];
    BySearchAppend(ByPriority(tasks, priorityFilter), shown, searchTerm);
  }

  /** The priority stage on an appended task. */
  lemma ByPriorityAppend(tasks: seq<Task>, t: Task, priorityFilter: string)
    ensures ByPriority(tasks + [t], priorityFilter)
         == ByPriority(tasks, priorityFilter)
            + if priorityFilter == AllPriorities || t.priority == Some(priorityFilter) then [t] else []
  {
    FilterAppend(PriorityIs(priorityFilter), tasks, [t]);
    FilterSingleton(PriorityIs(priorityFilter), t);
  }

  /** The search stage on a list followed by at most one task. */
  lemma BySearchAppend(tasks: seq<Task>, tail: seq<Task>, searchTerm: string)
    requires |tail| <= 1
    ensures BySearch(tasks + tail, searchTerm)
         == BySearch(tasks, searchTerm)
            + if tail != [] && (IsBlank(searchTerm) || MatchesSearch(searchTerm, tail[0])) then tail else []
  {
    FilterAppend(SearchFor(searchTerm), tasks, tail);
    if tail != [] {
      assert tail == [tail[0]];
      FilterSingleton(SearchFor(searchTerm), tail[0]);
    } else {
      assert tasks + tail == tasks;
    }
  }

  /** Not completed and due strictly after today. */
  predicate IsUpcoming(today: int, t: Task) {
    t.dueDate.Some? && t.dueDate.value > today && !t.completed
  }

  /** Not completed and due strictly before today. */
  predicate IsOverdue(today: int, t: Task) {
    t.dueDate.Some? && t.dueDate.value < today && !t.completed
  }

  /** Not completed, and due today or without a usable date: shown in no bucket. */
  predicate IsUnbucketed(today: int, t: Task) {
    !t.completed && (t.dueDate.None? || t.dueDate.value == today)
  }

  function Upcoming(today: int): Task -> bool {
    (t: Task) => IsUpcoming(today, t)
  }

  function Overdue(today: int): Task -> bool {
    (t: Task) => IsOverdue(today, t)
  }

  function Unbucketed(today: int): Task -> bool {
    (t: Task) => IsUnbucketed(today, t)
  }

  function Done(t: Task): bool {
    t.completed
  }

  /** `upcomingTasks`. */
  function UpcomingTasks(filtered: seq<Task>, today: int): (r: seq<Task>)
    ensures IsSubseq(r, filtered)
    ensures forall t :: t in r <==> t in filtered && IsUpcoming(today, t)
  {
    FilterIsSubseq(Upcoming(today), filtered);
    Filter(Upcoming(today), filtered)
  }

  /** `overdueTasks`. */
  function OverdueTasks(filtered: seq<Task>, today: int): (r: seq<Task>)
    ensures IsSubseq(r, filtered)
    ensures forall t :: t in r <==> t in filtered && IsOverdue(today, t)
  {
    FilterIsSubseq(Overdue(today), filtered);
    Filter(Overdue(today), filtered)
  }

  /** `completedTasks`. */
  function CompletedTasks(filtered: seq<Task>): (r: seq<Task>)
    ensures IsSubseq(r, filtered)
    ensures forall t :: t in r <==> t in filtered && t.completed
  {
    FilterIsSubseq(Done, filtered);
    Filter(Done, filtered)
  }

  /** Where one filtered task lands: completed tasks only in Completed; a pending task in
      Upcoming iff due after today, in Overdue iff due before today, and nowhere when it is due
      today or has no usable date. */
  lemma BucketPlacement(filtered: seq<Task>, today: int, t: Task)
    requires t in filtered
    ensures t in CompletedTasks(filtered) <==> t.completed
    ensures t in UpcomingTasks(filtered, today) <==> !t.completed && t.dueDate.Some? && t.dueDate.value > today
    ensures t in OverdueTasks(filtered, today) <==> !t.completed && t.dueDate.Some? && t.dueDate.value < today
    ensures (t !in CompletedTasks(filtered) && t !in UpcomingTasks(filtered, today) && t !in OverdueTasks(filtered, today))
        <==> IsUnbucketed(today, t)
  {
  }

  /** The three buckets are pairwise disjoint. */
  lemma BucketsDisjoint(filtered: seq<Task>, today: int)
    ensures multiset(UpcomingTasks(filtered, today)) !! multiset(OverdueTasks(filtered, today))
    ensures multiset(UpcomingTasks(filtered, today)) !! multiset(CompletedTasks(filtered))
    ensures multiset(OverdueTasks(filtered, today)) !! multiset(CompletedTasks(filtered))
  {
  }

  /** Every filtered task is counted in exactly one of the three buckets or among the
      unbucketed ones. */
  lemma {:induction false} BucketSizes(filtered: seq<Task>, today: int)
    ensures |UpcomingTasks(filtered, today)| + |OverdueTasks(filtered, today)|
            + |CompletedTasks(filtered)| + |Filter(Unbucketed(today), filtered)| == |filtered|
    decreases |filtered|
  {
    if filtered != [] {
      BucketSizes(filtered[1..], today);
    }
  }
}
