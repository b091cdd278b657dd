/**
 * The task record and the list operations `App` builds its transitions from:
 * `Array.prototype.filter`, the replace-by-id `map`, and the record a create stores.
 */
module Tasks {
  import opened Wrappers

  /** One task. A field the record may lack is an Option; `dueDate` is a day number, None
      when the date is missing or does not parse. */
  datatype Task = Task(
    id: int,
    name: Option<string>,
    title: Option<string>,
    priority: Option<string>,
    dueDate: Option<int>,
    completed: bool)

  /** The name a created task gets when the submitted one is falsy. */
  const UntitledName: string := "Untitled Task"

  /** `a` is an order-preserving subsequence of `b`. */
  predicate IsSubseq(a: seq<Task>, b: seq<Task>)
    decreases |b|
  {
    a == [] || (b != [] && if a[0] == b[0] then IsSubseq(a[1..], b[1..]) else IsSubseq(a, b[1..]))
  }

  lemma {:induction false} IsSubseqRefl(a: seq<Task>)
    ensures IsSubseq(a, a)
    decreases |a|
  {
    if a != [] {
      IsSubseqRefl(a[1..]);
    }
  }

  /** A subsequence of the tail is a subsequence of the whole. */
  lemma {:induction false} IsSubseqCons(a: seq<Task>, b: seq<Task>)
    requires b != [] && IsSubseq(a, b[1..])
    ensures IsSubseq(a, b)
    decreases |b|, 0
  {
    if a != [] && a[0] == b[0] {
      IsSubseqTail(a, b[1..]);
    }
  }

  /** Dropping the first task of a subsequence leaves a subsequence. */
  lemma {:induction false} IsSubseqTail(a: seq<Task>, b: seq<Task>)
    requires a != [] && IsSubseq(a, b)
    ensures IsSubseq(a[1..], b)
    decreases |b|, 1
  {
    if a[0] == b[0] {
      if a[1..] != [] {
        IsSubseqCons(a[1..], b);
      }
    } else {
      IsSubseqTail(a, b[1..]);
      IsSubseqCons(a[1..], b);
    }
  }

  lemma {:induction false} IsSubseqTrans(a: seq<Task>, b: seq<Task>, c: seq<Task>)
    requires IsSubseq(a, b) && IsSubseq(b, c)
    ensures IsSubseq(a, c)
    decreases |c|
  {
    if a != [] {
      if b[0] == c[0] {
        if a[0] == b[0] {
          IsSubseqTrans(a[1..], b[1..], c[1..]);
        } else {
          IsSubseqTrans(a, b[1..], c[1..]);
        }
      } else {
        IsSubseqTrans(a, b, c[1..]);
        IsSubseqCons(a, c);
      }
    }
  }

  /** `s.filter(p)`: the tasks of `s` that satisfy `p`, in their original order. */
  function Filter(p: Task -> bool, s: seq<Task>): (r: seq<Task>)
    ensures |r| <= |s|
    ensures forall t :: t in r <==> t in s && p(t)
    ensures forall i :: 0 <= i < |r| ==> p(r[i])
  {
    if s == [] then []
    else if p(s[0]) then [s[0]] + Filter(p, s[1..])
    else Filter(p, s[1..])
  }

  /** The filter keeps its tasks in order. */
  lemma {:induction false} FilterIsSubseq(p: Task -> bool, s: seq<Task>)
    ensures IsSubseq(Filter(p, s), s)
    decreases |s|
  {
    if s != [] {
      FilterIsSubseq(p, s[1..]);
    }
  }

  /** The filter keeps every copy of a task that satisfies `p` and none of one that does not. */
  lemma {:induction false} FilterCount(p: Task -> bool, s: seq<Task>, t: Task)
    ensures multiset(Filter(p, s))[t] == if p(t) then multiset(s)[t] else 0
    decreases |s|
  {
    if s != [] {
      FilterCount(p, s[1..], t);
      assert s == [s[0]] + s[1..];
    }
  }

  /** Filtering changes nothing exactly when every task already satisfies `p`. */
  lemma {:induction false} FilterIdentity(p: Task -> bool, s: seq<Task>)
    ensures Filter(p, s) == s <==> forall i :: 0 <= i < |s| ==> p(s[i])
    decreases |s|
  {
    if s != [] {
      FilterIdentity(p, s[1..]);
      if !p(s[0]) {
        assert |Filter(p, s)| < |s| by {
          assert Filter(p, s) == Filter(p, s[1..]);
        }
      }
    }
  }

  /** Two tests that agree on every task filter alike. */
  lemma {:induction false} FilterCongruent(p: Task -> bool, q: Task -> bool, s: seq<Task>)
    requires forall t :: p(t) == q(t)
    ensures Filter(p, s) == Filter(q, s)
    decreases |s|
  {
    if s != [] {
      FilterCongruent(p, q, s[1..]);
    }
  }

  /** Filtering twice with the same test is filtering once. */
  lemma FilterIdempotent(p: Task -> bool, s: seq<Task>)
    ensures Filter(p, Filter(p, s)) == Filter(p, s)
  {
  }

  /** Two filters may be applied in either order. */
  lemma {:induction false} FilterCommute(p: Task -> bool, q: Task -> bool, s: seq<Task>)
    ensures Filter(q, Filter(p, s)) == Filter(p, Filter(q, s))
    decreases |s|
  {
    if s != [] {
      FilterCommute(p, q, s[1..]);
    }
  }

  /** Filtering a concatenation filters each part. */
  lemma {:induction false} FilterAppend(p: Task -> bool, a: seq<Task>, b: seq<Task>)
    ensures Filter(p, a + b) == Filter(p, a) + Filter(p, b)
    decreases |a|
  {
    if a == [] {
      assert a + b == b;
    } else {
      assert (a + b)[0] == a[0] && (a + b)[1..] == a[1..] + b;
      FilterAppend(p, a[1..], b);
      if p(a[0]) {
        calc {
          Filter(p, a + b);
          [a[0]] + Filter(p, a[1..] + b);
          [a[0]] + (Filter(p, a[1..]) + Filter(p, b));
          ([a[0]] + Filter(p, a[1..])) + Filter(p, b);
        }
      }
    }
  }

  /** Filtering one task keeps it exactly when it passes. */
  lemma FilterSingleton(p: Task -> bool, t: Task)
    ensures Filter(p, [t]) == if p(t) then [t] else []
  {
    assert [t][1..] == [];
  }

  /** No two tasks of `s` share an id. */
  predicate UniqueIds(s: seq<Task>) {
    forall i, j :: 0 <= i < j < |s| ==> s[i].id != s[j].id
  }

  /** The ids in use. */
  function Ids(s: seq<Task>): set<int> {
    set t | t in s :: t.id
  }

  /** A subsequence of a list with unique ids has unique ids. */
  lemma {:induction false} SubseqUniqueIds(a: seq<Task>, b: seq<Task>)
    requires IsSubseq(a, b) && UniqueIds(b)
    ensures UniqueIds(a)
    decreases |b|
  {
    if a != [] {
      if a[0] == b[0] {
        SubseqUniqueIds(a[1..], b[1..]);
        assert forall j :: 0 < j < |a| ==> a[j] in b[1..] by {
          forall j | 0 < j < |a| ensures a[j] in b[1..] {
            SubseqMember(a[1..], b[1..], a[j]);
          }
        }
      } else {
        SubseqUniqueIds(a, b[1..]);
      }
    }
  }

  /** Every task of a subsequence is a task of the whole. */
  lemma {:induction false} SubseqMember(a: seq<Task>, b: seq<Task>, t: Task)
    requires IsSubseq(a, b) && t in a
    ensures t in b
    decreases |b|
  {
    if a[0] == b[0] {
      if t != a[0] {
        SubseqMember(a[1..], b[1..], t);
      }
    } else {
      SubseqMember(a, b[1..], t);
    }
  }

  /** `task.name || 'Untitled Task'`: the submitted name unless it is missing or empty. */
  function NameOrUntitled(name: Option<string>): string {
    if name.Some? && name.value != "" then name.value else UntitledName
  }

  /** The record a create stores: the submitted fields, the fresh id, not completed, and a
      name that is never empty. */
  function Created(task: Task, freshId: int): (r: Task)
    ensures r.id == freshId && !r.completed
    ensures r.name.Some? && r.name.value != ""
    ensures r.name == (if task.name == None || task.name == Some("") then Some(UntitledName) else task.name)
    ensures r.title == task.title && r.priority == task.priority && r.dueDate == task.dueDate
  {
    task.(id := freshId, completed := false, name := Some(NameOrUntitled(task.name)))
  }

  /** `s.map(t => t.id === id ? rec : t)`: every task with that id becomes `rec`; the others
      keep their places. */
  function ReplaceId(s: seq<Task>, id: int, rec: Task): (r: seq<Task>)
    ensures |r| == |s|
    ensures forall i :: 0 <= i < |s| ==> r[i] == if s[i].id == id then rec else s[i]
  {
    if s == [] then [] else [if s[0].id == id then rec else s[0]] + ReplaceId(s[1..], id, rec)
  }

  /** Replacing twice with the same record is replacing once. */
  lemma ReplaceIdIdempotent(s: seq<Task>, id: int, rec: Task)
    ensures ReplaceId(ReplaceId(s, id, rec), id, rec) == ReplaceId(s, id, rec)
  {
  }

  /** After replacing by id, the replacement is the only task left under that id, and it is
      present exactly when the id was in use. */
  lemma ReplaceIdLeavesOnly(s: seq<Task>, id: int, rec: Task)
    ensures forall u :: u in ReplaceId(s, id, rec) && u.id == id ==> u == rec
    ensures rec in ReplaceId(s, id, rec) <== id in Ids(s)
  {
    var r := ReplaceId(s, id, rec);
    forall u | u in r && u.id == id ensures u == rec {
      var j :| 0 <= j < |r| && r[j] == u;
    }
    if id in Ids(s) {
      var i :| 0 <= i < |s| && s[i].id == id;
      assert r[i] == rec;
    }
  }

  /** A replacement that keeps the id keeps the ids unique. */
  lemma ReplaceIdUniqueIds(s: seq<Task>, id: int, rec: Task)
    requires UniqueIds(s) && rec.id == id
    ensures UniqueIds(ReplaceId(s, id, rec))
    ensures Ids(ReplaceId(s, id, rec)) == Ids(s)
  {
  }

  /** The test `t => t.id !== id`. */
  function IdIsNot(id: int): Task -> bool {
    (t: Task) => t.id != id
  }

  /** `s.filter(t => t.id !== id)`: no task keeps that id, every other task is kept in order. */
  function RemoveId(s: seq<Task>, id: int): (r: seq<Task>)
    ensures |r| <= |s| && IsSubseq(r, s)
    ensures forall t :: t in r <==> t in s && t.id != id
    ensures id !in Ids(r)
  {
    FilterIsSubseq(IdIsNot(id), s);
    Filter(IdIsNot(id), s)
  }

  /** Removing by id keeps the ids unique and takes out exactly that id. */
  lemma RemoveIdUniqueIds(s: seq<Task>, id: int)
    requires UniqueIds(s)
    ensures UniqueIds(RemoveId(s, id))
    ensures Ids(RemoveId(s, id)) == Ids(s) - {id}
  {
    SubseqUniqueIds(RemoveId(s, id), s);
  }

  /** Appending a task with an unused id keeps the ids unique. */
  lemma AppendUniqueIds(s: seq<Task>, t: Task)
    requires UniqueIds(s) && t.id !in Ids(s)
    ensures UniqueIds(s + [t])
    ensures Ids(s + [t]) == Ids(s) + {t.id}
  {
  }
}
