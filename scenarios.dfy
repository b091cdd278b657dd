/**
 * How the transitions of `App` show in its derived views, and the concrete behaviours the
 * component is meant to have (case-insensitive search, the untrimmed term, the default name).
 */
module Scenarios {
  import opened Wrappers
  import opened Text
  import opened Tasks
  import opened Views

  /** After a delete, no task with that id is left in the filtered list or in any bucket. */
  lemma DeleteHidesEverywhere(tasks: seq<Task>, id: int, priorityFilter: string, searchTerm: string, today: int)
    ensures var f := ApplyFilters(RemoveId(tasks, id), priorityFilter, searchTerm);
      forall t :: (t in f || t in UpcomingTasks(f, today) || t in OverdueTasks(f, today)
                   || t in CompletedTasks(f)) ==> t.id != id
  {
  }

  /** A created task that passes the filters shows at the end of the filtered list, and its
      submitted due date alone places it: overdue when before today, upcoming when after,
      never completed. */
  lemma CreateLandsInBucket(tasks: seq<Task>, task: Task, now: int, priorityFilter: string, searchTerm: string, today: int)
    requires Visible(task, priorityFilter, searchTerm)
    ensures var n := Created(task, now);
      var f := ApplyFilters(tasks + [n], priorityFilter, searchTerm);
      && f == ApplyFilters(tasks, priorityFilter, searchTerm) + [n]
      && (n in OverdueTasks(f, today) <==> task.dueDate.Some? && task.dueDate.value < today)
      && (n in UpcomingTasks(f, today) <==> task.dueDate.Some? && task.dueDate.value > today)
      && n !in CompletedTasks(f)
  {
    var n := Created(task, now);
    assert Visible(n, priorityFilter, searchTerm);
    ApplyFiltersAppend(tasks, n, priorityFilter, searchTerm);
  }

  /** Marking a visible task completed through `updateTask` puts it in the completed bucket
      and takes every task with its id out of the upcoming and overdue buckets. */
  lemma CompletingMovesToCompleted(tasks: seq<Task>, t: Task, priorityFilter: string, searchTerm: string, today: int)
    requires t in tasks && Visible(t, priorityFilter, searchTerm)
    ensures var f := ApplyFilters(ReplaceId(tasks, t.id, t.(completed := true)), priorityFilter, searchTerm);
      && t.(completed := true) in CompletedTasks(f)
      && forall u :: u in UpcomingTasks(f, today) || u in OverdueTasks(f, today) ==> u.id != t.id
  {
    var done := t.(completed := true);
    assert t.id in Ids(tasks);
    ReplaceIdLeavesOnly(tasks, t.id, done);
    assert Visible(done, priorityFilter, searchTerm);
  }

  /** Submitting the form on an edit target leaves, under the target's id, only the submitted
      record; so that record's own due date and completion decide its bucket. */
  lemma EditReclassifies(tasks: seq<Task>, target: Task, task: Task, priorityFilter: string, searchTerm: string, today: int)
    requires target.id in Ids(tasks) && Visible(task, priorityFilter, searchTerm)
    ensures var rec := task.(id := target.id);
      var f := ApplyFilters(ReplaceId(tasks, target.id, rec), priorityFilter, searchTerm);
      && rec in f
      && (forall u :: u in f && u.id == target.id ==> u == rec)
      && (rec in UpcomingTasks(f, today) <==> IsUpcoming(today, task))
      && (rec in OverdueTasks(f, today) <==> IsOverdue(today, task))
      && (rec in CompletedTasks(f) <==> task.completed)
  {
    ReplaceIdLeavesOnly(tasks, target.id, task.(id := target.id));
  }

  const BuyMilk: Task := Task(1, None, Some("Buy milk"), Some("Low"), None, false)
  const CleanHouse: Task := Task(2, None, Some("Clean house"), Some("Low"), None, false)
  /** The search term typed in upper case. */
  const MilkTerm: string := "MILK"

  /** The lower-cased title of BuyMilk. */
  lemma LowerBuyMilk()
    ensures Lower("Buy milk") == "buy milk"
  {
  }

  /** "buy milk" contains "milk", at position 4. */
  lemma MilkInBuyMilk()
    ensures Contains("buy milk", "milk")
  {
  }

  /** "MILK" matches the title "Buy milk". */
  lemma MilkMatchesBuyMilk()
    ensures MatchesSearch(MilkTerm, BuyMilk)
  {
    LowerBuyMilk();
    MilkInBuyMilk();
    var l := Lower("MILK");
    assert l == "milk" by {
      assert forall i :: 0 <= i < 4 ==> l[i] == "milk"[i];
    }
  }

  /** "MILK" does not match the title "Clean house". */
  lemma MilkMissesCleanHouse()
    ensures !MatchesSearch(MilkTerm, CleanHouse)
  {
    var l := Lower("MILK");
    assert l[0] == 'm';
    var c := Lower("Clean house");
    assert forall i :: 0 <= i < |c| ==> c[i] != 'm' by {
      assert forall i :: 0 <= i < |c| ==> c[i] == LowerChar("Clean house"[i]);
    }
    NotContains(c, l);
  }

  /** "MILK" turns the search on. */
  lemma MilkIsNotBlank()
    ensures Trim(MilkTerm) != []
  {
  }

  /** Trimming drops the trailing space of "milk ". */
  lemma TrimMilkSpace()
    ensures Trim("milk ") == "milk"
  {
    assert TrimStart("milk ") == "milk ";
    assert "milk "[..4] == "milk";
    assert TrimEnd("milk ") == TrimEnd("milk");
    assert TrimEnd("milk") == "milk";
  }

  /** With the selector on "All" and a non-blank term, only the search stage acts. */
  lemma SearchStageOnly(s: seq<Task>, term: string)
    requires Trim(term) != []
    ensures ApplyFilters(s, AllPriorities, term) == Filter(SearchFor(term), s)
  {
  }

  /** Of two tasks, the search keeps the one it matches. */
  lemma SearchPicks(a: Task, b: Task, term: string)
    requires MatchesSearch(term, a) && !MatchesSearch(term, b)
    ensures Filter(SearchFor(term), [a, b]) == [a]
  {
  }

  /** With the selector on "All", a non-blank term keeps of two tasks the one it matches. */
  lemma SearchKeepsMatch(a: Task, b: Task, term: string)
    requires Trim(term) != [] && MatchesSearch(term, a) && !MatchesSearch(term, b)
    ensures ApplyFilters([a, b], AllPriorities, term) == [a]
  {
    SearchStageOnly([a, b], term);
    SearchPicks(a, b, term);
  }

  /** Searching "MILK" among "Buy milk" and "Clean house" finds only "Buy milk". */
  lemma SearchIsCaseInsensitive()
    ensures ApplyFilters([BuyMilk, CleanHouse], AllPriorities, MilkTerm) == [BuyMilk]
  {
    MilkMatchesBuyMilk();
    MilkMissesCleanHouse();
    MilkIsNotBlank();
    SearchKeepsMatch(BuyMilk, CleanHouse, MilkTerm);
  }

  /** An empty term finds every task. */
  lemma EmptySearchFindsAll()
    ensures ApplyFilters([BuyMilk, CleanHouse], AllPriorities, "") == [BuyMilk, CleanHouse]
  {
  }

  /** "milk " with its trailing space does not match the title "Buy milk". */
  lemma MilkSpaceMissesBuyMilk()
    ensures !MatchesSearch("milk ", BuyMilk)
  {
  }

  /** The term is trimmed only to decide whether to search: "milk " trims to "milk", yet it does
      not find "Buy milk", whose lower-cased title contains "milk" but not "milk ". */
  lemma SearchTermNotTrimmed()
    ensures Trim("milk ") == "milk"
    ensures ApplyFilters([BuyMilk], AllPriorities, "milk ") == []
  {
    MilkSpaceMissesBuyMilk();
    TrimMilkSpace();
    SearchStageOnly([BuyMilk], "milk ");
    assert [BuyMilk][1..] == [];
  }

  /** A task created with an empty name is stored as "Untitled Task", but the search reads the
      title, so when no title was given no non-blank term ever finds it. */
  lemma UntitledIsNotSearchable(task: Task, now: int, priorityFilter: string, searchTerm: string)
    requires task.name == Some("") && task.title == None && !IsBlank(searchTerm)
    ensures Created(task, now).name == Some(UntitledName)
    ensures ApplyFilters([Created(task, now)], priorityFilter, searchTerm) == []
  {
  }
}
