/** The projections the dashboard derives from the state for display: the
    completion percentage and the three focus tasks. Neither changes the state. */
module Projections {
  import opened Domain
  import Transitions

  /* ---------------- Completion percentage ---------------- */

  /** How many tasks are completed. */
  function CountCompleted(ts: seq<Task>): (c: nat)
    ensures c <= |ts|
    ensures c == 0 <==> forall i :: 0 <= i < |ts| ==> !ts[i].completed
    ensures c == |ts| <==> forall i :: 0 <= i < |ts| ==> ts[i].completed
  {
    if ts == [] then 0
    else (if ts[0].completed then 1 else 0) + CountCompleted(ts[1..])
  }

  /** The completion percentage, `Math.round(completed / total * 100)` with an
      empty list counted as a total of 1. For a non-negative x, `Math.round(x)`
      is floor(x + 1/2), which over the integers is (200c + t) / (2t). */
  function Progress(ts: seq<Task>): (p: int)
    ensures var t := Total(ts);
      2 * t * p <= 200 * CountCompleted(ts) + t < 2 * t * p + 2 * t
    ensures 0 <= p <= 100
  {
    RoundedPercent(CountCompleted(ts), Total(ts));
    (200 * CountCompleted(ts) + Total(ts)) / (2 * Total(ts))
  }

  /** `tasks.length || 1`: the divisor of the percentage. */
  function Total(ts: seq<Task>): (t: nat)
    ensures t >= 1 && t >= |ts|
  {
    if |ts| == 0 then 1 else |ts|
  }

  /** Over the integers, (200c + t) / (2t) rounds 100c/t half up. */
  lemma RoundedPercent(c: nat, t: nat)
    requires 0 < t && c <= t
    ensures var p := (200 * c + t) / (2 * t);
      2 * t * p <= 200 * c + t < 2 * t * p + 2 * t && 0 <= p <= 100
  {
    var d, n := 2 * t, 200 * c + t;
    var p := n / d;
    assert n == d * p + n % d && 0 <= n % d < d;
    if p < 0 {
      MulMonotone(d, p, -1);
    }
    if p > 100 {
      MulMonotone(d, 101, p);
    }
  }

  lemma MulMonotone(d: int, a: int, b: int)
    requires d > 0 && a <= b
    ensures d * a <= d * b
  {
    assert d * b - d * a == d * (b - a);
  }

  /** The edge cases: no tasks, or none completed, gives 0; all of a
      non-empty list completed gives 100. */
  lemma ProgressExtremes(ts: seq<Task>)
    ensures (forall i :: 0 <= i < |ts| ==> !ts[i].completed) ==> Progress(ts) == 0
    ensures |ts| > 0 && (forall i :: 0 <= i < |ts| ==> ts[i].completed) ==> Progress(ts) == 100
  {
    var t, p := Total(ts), Progress(ts);
    if CountCompleted(ts) == 0 && p >= 1 {
      MulMonotone(2 * t, 1, p);
    }
    if CountCompleted(ts) == |ts| > 0 && p <= 99 {
      MulMonotone(2 * t, p, 99);
    }
  }

  /** Toggling a task whose id is unique moves the completed count by exactly one. */
  lemma {:induction false} ToggleMovesCountByOne(ts: seq<Task>, i: nat)
    requires i < |ts| && UniqueBy(ts, TaskId)
    ensures var c := CountCompleted(Transitions.ToggleTasks(ts, ts[i].id));
      c == if ts[i].completed then CountCompleted(ts) - 1 else CountCompleted(ts) + 1
  {
    var id := ts[i].id;
    var r := Transitions.ToggleTasks(ts, id);
    assert r[1..] == Transitions.ToggleTasks(ts[1..], id);
    if i == 0 {
      forall j | 0 <= j < |ts| - 1 ensures ts[1..][j].id != id {
        assert ts[1..][j] == ts[j + 1];
        assert TaskId(ts[0]) != TaskId(ts[j + 1]);
      }
      UnmatchedCountSame(ts[1..], id);
    } else {
      assert ts[0].id != id by { assert TaskId(ts[0]) != TaskId(ts[i]); }
      assert ts[1..][i - 1] == ts[i];
      UniqueTail(ts, TaskId);
      ToggleMovesCountByOne(ts[1..], i - 1);
    }
  }

  /** Toggling an id no task carries keeps the completed count. */
  lemma {:induction false} UnmatchedCountSame(ts: seq<Task>, id: string)
    requires forall j :: 0 <= j < |ts| ==> ts[j].id != id
    ensures CountCompleted(Transitions.ToggleTasks(ts, id)) == CountCompleted(ts)
  {
    if ts != [] {
      var r := Transitions.ToggleTasks(ts, id);
      assert r[1..] == Transitions.ToggleTasks(ts[1..], id);
      UnmatchedCountSame(ts[1..], id);
    }
  }

  /* ---------------- Focus tasks ---------------- */

  /** The tasks not yet completed, in list order: every open task of the list
      is kept, nothing else, and nothing more often than the list holds it. */
  function Incomplete(ts: seq<Task>): (r: seq<Task>)
    ensures forall k :: 0 <= k < |r| ==> !r[k].completed && r[k] in ts
    ensures forall t :: t in ts && !t.completed ==> t in r
    ensures multiset(r) <= multiset(ts)
  {
    if ts == [] then []
    else
      assert ts == [ts[0]] + ts[1..];
      if ts[0].completed then Incomplete(ts[1..]) else [ts[0]] + Incomplete(ts[1..])
  }

  /** The filter keeps as many tasks as are not completed. */
  lemma {:induction false} IncompleteLength(ts: seq<Task>)
    ensures |Incomplete(ts)| == |ts| - CountCompleted(ts)
  {
    if ts != [] {
      IncompleteLength(ts[1..]);
    }
  }

  /** The filter works element by element: filtering a concatenation
      concatenates the filtered parts, so the kept tasks stay in list order. */
  lemma {:induction false} IncompleteAppend(a: seq<Task>, b: seq<Task>)
    ensures Incomplete(a + b) == Incomplete(a) + Incomplete(b)
  {
    if a == [] {
      assert a + b == b;
    } else {
      assert (a + b)[0] == a[0];
      assert (a + b)[1..] == a[1..] + b;
      IncompleteAppend(a[1..], b);
      if !a[0].completed {
        assert Incomplete(a) + Incomplete(b) == [a[0]] + (Incomplete(a[1..]) + Incomplete(b));
      }
    }
  }

  /** With nothing completed, the filter keeps the whole list. */
  lemma {:induction false} IncompleteKeepsOpenList(ts: seq<Task>)
    requires forall i :: 0 <= i < |ts| ==> !ts[i].completed
    ensures Incomplete(ts) == ts
  {
    if ts != [] {
      IncompleteKeepsOpenList(ts[1..]);
    }
  }

  function Rank(t: Task): nat {
    PriorityRank(t.priority)
  }

  /** The tasks of one priority, in list order. */
  function OfPriority(ts: seq<Task>, p: Priority): (r: seq<Task>)
    ensures forall k :: 0 <= k < |r| ==> r[k].priority == p
  {
    if ts == [] then []
    else if ts[0].priority == p then [ts[0]] + OfPriority(ts[1..], p)
    else OfPriority(ts[1..], p)
  }

  /** The reference ordering: the High tasks, then the Medium ones, then the
      Low ones, each group in list order. It neither drops nor adds tasks. */
  function RankOrder(ts: seq<Task>): (r: seq<Task>)
    ensures |r| == |ts|
  {
    GroupsCover(ts);
    OfPriority(ts, High) + OfPriority(ts, Medium) + OfPriority(ts, Low)
  }

  /** Every task lies in exactly one priority group. */
  lemma {:induction false} GroupsCover(ts: seq<Task>)
    ensures |OfPriority(ts, High)| + |OfPriority(ts, Medium)| + |OfPriority(ts, Low)| == |ts|
  {
    if ts != [] {
      GroupsCover(ts[1..]);
    }
  }

  /** Inserts `x` before the first element whose rank is not below its own. */
  function InsertByRank(x: Task, ys: seq<Task>): (r: seq<Task>)
    ensures |r| == |ys| + 1
  {
    if ys == [] || Rank(x) <= Rank(ys[0]) then [x] + ys
    else [ys[0]] + InsertByRank(x, ys[1..])
  }

  /** Array.prototype.sort with the comparator `rank(a) - rank(b)`; the
      JavaScript sort is stable, and so is this insertion sort (an element is
      inserted before the equal-ranked elements that came after it). */
  function SortByRank(ts: seq<Task>): (r: seq<Task>)
    ensures |r| == |ts|
  {
    if ts == [] then [] else InsertByRank(ts[0], SortByRank(ts[1..]))
  }

  /** The three focus tasks: the incomplete tasks, sorted by priority rank,
      cut to the first three. */
  function FocusTasks(ts: seq<Task>): (r: seq<Task>)
    ensures |r| <= 3
    ensures |r| == if |ts| - CountCompleted(ts) < 3 then |ts| - CountCompleted(ts) else 3
  {
    IncompleteLength(ts);
    var sorted := SortByRank(Incomplete(ts));
    sorted[..if |sorted| < 3 then |sorted| else 3]
  }

  /* -- the sort is the rank order -- */

  /** A task joins the front of its own priority group and no other. */
  lemma OfPriorityCons(x: Task, ts: seq<Task>, p: Priority)
    ensures x.priority == p ==> OfPriority([x] + ts, p) == [x] + OfPriority(ts, p)
    ensures x.priority != p ==> OfPriority([x] + ts, p) == OfPriority(ts, p)
  {
    assert ([x] + ts)[1..] == ts;
  }

  /** Inserting past a prefix whose ranks are all below the inserted one. */
  lemma {:induction false} InsertSkipsLower(x: Task, a: seq<Task>, b: seq<Task>)
    requires forall k :: 0 <= k < |a| ==> Rank(a[k]) < Rank(x)
    ensures InsertByRank(x, a + b) == a + InsertByRank(x, b)
  {
    if a == [] {
      assert a + b == b;
    } else {
      assert (a + b)[0] == a[0];
      assert (a + b)[1..] == a[1..] + b;
      InsertSkipsLower(x, a[1..], b);
      assert a + InsertByRank(x, b) == [a[0]] + (a[1..] + InsertByRank(x, b));
    }
  }

  /** Inserting into the rank order of the rest gives the rank order of the whole. */
  lemma InsertIntoRankOrder(x: Task, ts: seq<Task>)
    ensures InsertByRank(x, RankOrder(ts)) == RankOrder([x] + ts)
  {
    OfPriorityCons(x, ts, High);
    OfPriorityCons(x, ts, Medium);
    OfPriorityCons(x, ts, Low);
    match x.priority
    case High => InsertHigh(x, ts);
    case Medium => InsertMedium(x, ts);
    case Low => InsertLow(x, ts);
  }

  lemma InsertHigh(x: Task, ts: seq<Task>)
    requires x.priority == High
    ensures InsertByRank(x, RankOrder(ts)) == [x] + RankOrder(ts)
  {
  }

  lemma InsertMedium(x: Task, ts: seq<Task>)
    requires x.priority == Medium
    ensures InsertByRank(x, RankOrder(ts))
      == OfPriority(ts, High) + ([x] + OfPriority(ts, Medium)) + OfPriority(ts, Low)
  {
    var h, m, l := OfPriority(ts, High), OfPriority(ts, Medium), OfPriority(ts, Low);
    InsertBeforeHigherRanks(x, m, l);
    InsertSkipsLower(x, h, m + l);
    assert h + m + l == h + (m + l);
  }

  lemma InsertLow(x: Task, ts: seq<Task>)
    requires x.priority == Low
    ensures InsertByRank(x, RankOrder(ts))
      == OfPriority(ts, High) + OfPriority(ts, Medium) + ([x] + OfPriority(ts, Low))
  {
    var h, m, l := OfPriority(ts, High), OfPriority(ts, Medium), OfPriority(ts, Low);
    InsertBeforeHigherRanks(x, [], l);
    assert [] + l == l;
    InsertSkipsLower(x, h + m, l);
  }

  /** `x` goes in front of a list whose ranks are all at least its own. */
  lemma InsertBeforeHigherRanks(x: Task, a: seq<Task>, b: seq<Task>)
    requires forall k :: 0 <= k < |a| ==> Rank(x) <= Rank(a[k])
    requires forall k :: 0 <= k < |b| ==> Rank(x) <= Rank(b[k])
    ensures InsertByRank(x, a + b) == [x] + a + b
  {
    if a + b != [] {
      assert Rank(x) <= Rank((a + b)[0]) by {
        if a == [] { assert (a + b)[0] == b[0]; } else { assert (a + b)[0] == a[0]; }
      }
    }
  }

  /** The insertion sort computes exactly the rank order. */
  lemma {:induction false} SortIsRankOrder(ts: seq<Task>)
    ensures SortByRank(ts) == RankOrder(ts)
  {
    if ts != [] {
      SortIsRankOrder(ts[1..]);
      InsertIntoRankOrder(ts[0], ts[1..]);
      assert [ts[0]] + ts[1..] == ts;
    }
  }

  /* -- properties of the rank order -- */

  /** Sorted: ranks never decrease along the rank order. */
  lemma RankOrderSorted(ts: seq<Task>)
    ensures var r := RankOrder(ts);
      forall i, j :: 0 <= i < j < |r| ==> Rank(r[i]) <= Rank(r[j])
  {
    var h, m, l := OfPriority(ts, High), OfPriority(ts, Medium), OfPriority(ts, Low);
    var r := RankOrder(ts);
    forall k | 0 <= k < |r|
      ensures Rank(r[k]) == if k < |h| then 0 else if k < |h| + |m| then 1 else 2
    {
      if k < |h| { assert r[k] == h[k]; }
      else if k < |h| + |m| { assert r[k] == m[k - |h|]; }
      else { assert r[k] == l[k - |h| - |m|]; }
    }
  }

  /** Permutation: the rank order holds the same tasks, as often, as the list. */
  lemma {:induction false} RankOrderPermutes(ts: seq<Task>)
    ensures multiset(RankOrder(ts)) == multiset(ts)
  {
    if ts != [] {
      var x, rest := ts[0], ts[1..];
      assert ts == [x] + rest;
      RankOrderPermutes(rest);
      OfPriorityCons(x, rest, High);
      OfPriorityCons(x, rest, Medium);
      OfPriorityCons(x, rest, Low);
    }
  }

  lemma {:induction false} OfPriorityAppend(a: seq<Task>, b: seq<Task>, p: Priority)
    ensures OfPriority(a + b, p) == OfPriority(a, p) + OfPriority(b, p)
  {
    if a == [] {
      assert a + b == b;
    } else {
      assert (a + b)[0] == a[0];
      assert (a + b)[1..] == a[1..] + b;
      OfPriorityAppend(a[1..], b, p);
      if a[0].priority == p {
        assert OfPriority(a, p) + OfPriority(b, p)
          == [a[0]] + (OfPriority(a[1..], p) + OfPriority(b, p));
      }
    }
  }

  lemma {:induction false} OfPriorityOfGroup(ts: seq<Task>, p: Priority, q: Priority)
    ensures OfPriority(OfPriority(ts, q), p) == if p == q then OfPriority(ts, p) else []
  {
    if ts != [] {
      OfPriorityOfGroup(ts[1..], p, q);
      if ts[0].priority == q {
        assert OfPriority(ts, q)[1..] == OfPriority(ts[1..], q);
      }
    }
  }

  /** Filtering out the completed tasks and grouping by priority commute:
      the open tasks of one priority, in list order, whichever is done first. */
  lemma {:induction false} IncompleteOfPriority(ts: seq<Task>, p: Priority)
    ensures OfPriority(Incomplete(ts), p) == Incomplete(OfPriority(ts, p))
  {
    if ts != [] {
      var x, rest := ts[0], ts[1..];
      IncompleteOfPriority(rest, p);
      OfPriorityCons(x, Incomplete(rest), p);
      assert ([x] + OfPriority(rest, p))[1..] == OfPriority(rest, p);
    }
  }

  /** Stable: the tasks of each priority keep their relative order. */
  lemma RankOrderStable(ts: seq<Task>, p: Priority)
    ensures OfPriority(RankOrder(ts), p) == OfPriority(ts, p)
  {
    var h, m, l := OfPriority(ts, High), OfPriority(ts, Medium), OfPriority(ts, Low);
    OfPriorityAppend(h + m, l, p);
    OfPriorityAppend(h, m, p);
    OfPriorityOfGroup(ts, p, High);
    OfPriorityOfGroup(ts, p, Medium);
    OfPriorityOfGroup(ts, p, Low);
  }

  /* -- what the focus list is -- */

  /** The focus list is the first three of: the incomplete High tasks, then the
      incomplete Medium ones, then the incomplete Low ones, each in list order. */
  lemma FocusIsRankOrderPrefix(ts: seq<Task>)
    ensures var order := RankOrder(Incomplete(ts));
      FocusTasks(ts) == order[..if |order| < 3 then |order| else 3]
  {
    SortIsRankOrder(Incomplete(ts));
  }

  /** Every focus task is an incomplete task of the list, and the focus list
      is ordered by priority rank. */
  lemma FocusSortedAndIncomplete(ts: seq<Task>)
    ensures var r := FocusTasks(ts);
      && (forall k :: 0 <= k < |r| ==> r[k] in ts && !r[k].completed)
      && (forall i, j :: 0 <= i < j < |r| ==> Rank(r[i]) <= Rank(r[j]))
  {
    var inc := Incomplete(ts);
    var r := FocusTasks(ts);
    SortIsRankOrder(inc);
    RankOrderSorted(inc);
    RankOrderPermutes(inc);
    forall k | 0 <= k < |r| ensures r[k] in ts && !r[k].completed {
      assert r[k] in multiset(SortByRank(inc));
      assert r[k] in inc;
    }
  }

  /** The focus list really is a top three: an incomplete task left out of it
      leaves a full list of three, none of lower rank than itself. */
  lemma FocusIsTopThree(ts: seq<Task>, t: Task)
    requires t in ts && !t.completed && t !in FocusTasks(ts)
    ensures |FocusTasks(ts)| == 3
    ensures forall k :: 0 <= k < 3 ==> Rank(FocusTasks(ts)[k]) <= Rank(t)
  {
    var inc := Incomplete(ts);
    var sorted := SortByRank(inc);
    SortIsRankOrder(inc);
    RankOrderSorted(inc);
    RankOrderPermutes(inc);
    assert t in multiset(sorted);
    var j :| 0 <= j < |sorted| && sorted[j] == t;
    forall k | 0 <= k < 3 ensures Rank(FocusTasks(ts)[k]) <= Rank(t) {
      assert FocusTasks(ts)[k] == sorted[k];
    }
  }
}
