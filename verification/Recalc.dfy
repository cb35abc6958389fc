/**
 Recalculating a whole tenant in parallel (internal/usecase/balance_usecase.go, CalculateAll), and the
 parallel batch of the calculation engine (internal/calc/prodist_m7.go, CalculateBalanceBatch).

 The step system interleaves the loop that starts the workers with the workers themselves; `outcomes[i]`
 is what calculating transformer `i` comes to.
 */
module Recalc {
  datatype Status = Normal | Warning | Critical

  datatype Outcome = Calculated(status: Status) | Insufficient | Failed

  datatype Transformer = Transformer(active: bool, outcome: Outcome)

  datatype Summary = Summary(total: nat, calculated: nat, skipped: nat, failed: nat,
                             normal: nat, warning: nat, critical: nat, errors: seq<nat>)

  const WORKERS: nat := 8

  const EMPTY := Summary(0, 0, 0, 0, 0, 0, 0, [])

  /** What a worker writes while it holds the mutex. */
  function Counted(r: Summary, i: nat, o: Outcome): Summary {
    match o
    case Insufficient => r.(skipped := r.skipped + 1)
    case Failed => r.(failed := r.failed + 1, errors := r.errors + [i])
    case Calculated(Critical) => r.(calculated := r.calculated + 1, critical := r.critical + 1)
    case Calculated(Warning) => r.(calculated := r.calculated + 1, warning := r.warning + 1)
    case Calculated(Normal) => r.(calculated := r.calculated + 1, normal := r.normal + 1)
  }

  // ------------------------------------------------------------------ the interleavings

  /**
   next: the transformer the loop is at; announced: it has been counted and waits for a free slot;
   working: started, result not recorded; leaving: recorded, slot not given back; left: done.
   */
  datatype Sys = Sys(next: nat, announced: bool, working: set<nat>, leaving: set<nat>, left: set<nat>, result: Summary)

  datatype Action = Skip | Announce | Launch | Record(i: nat) | Leave(i: nat)

  const START := Sys(0, false, {}, {}, {}, EMPTY)

  ghost predicate Enabled(ts: seq<Transformer>, s: Sys, a: Action) {
    match a
    case Skip => s.next < |ts| && !s.announced && !ts[s.next].active
    case Announce => s.next < |ts| && !s.announced && ts[s.next].active
    case Launch => s.next < |ts| && s.announced && |s.working| + |s.leaving| < WORKERS
    case Record(i) => i in s.working && i < |ts|
    case Leave(i) => i in s.leaving
  }

  function Apply(ts: seq<Transformer>, s: Sys, a: Action): Sys
    requires Enabled(ts, s, a)
  {
    match a
    case Skip => s.(next := s.next + 1)
    case Announce => s.(announced := true, result := s.result.(total := s.result.total + 1))
    case Launch => s.(next := s.next + 1, announced := false, working := s.working + {s.next})
    case Record(i) =>
      s.(working := s.working - {i}, leaving := s.leaving + {i}, result := Counted(s.result, i, ts[i].outcome))
    case Leave(i) => s.(leaving := s.leaving - {i}, left := s.left + {i})
  }

  /** The loop is over and nobody is left to wait for. */
  predicate Finished(ts: seq<Transformer>, s: Sys) { s.next == |ts| && s.working == {} && s.leaving == {} }

  function ActiveBelow(ts: seq<Transformer>, n: nat): set<nat>
    requires n <= |ts|
  {
    set i | 0 <= i < n && ts[i].active
  }

  function With(ts: seq<Transformer>, s: set<nat>, o: Outcome): set<nat> {
    set i | i in s && i < |ts| && ts[i].outcome == o
  }

  /** The summary counts exactly the transformers of `s`. */
  ghost predicate Tallies(ts: seq<Transformer>, r: Summary, s: set<nat>) {
    && r.skipped == |With(ts, s, Insufficient)|
    && r.failed == |With(ts, s, Failed)|
    && r.normal == |With(ts, s, Calculated(Normal))|
    && r.warning == |With(ts, s, Calculated(Warning))|
    && r.critical == |With(ts, s, Calculated(Critical))|
    && r.calculated == r.normal + r.warning + r.critical
    && |r.errors| == r.failed
    && (forall i :: i in r.errors <==> i in With(ts, s, Failed))
  }

  lemma WithOneMore(ts: seq<Transformer>, s: set<nat>, i: nat, o: Outcome)
    requires i < |ts| && i !in s
    ensures |With(ts, s + {i}, o)| == |With(ts, s, o)| + if ts[i].outcome == o then 1 else 0
    ensures forall k :: k in With(ts, s + {i}, o) <==> k in With(ts, s, o) || (k == i && ts[i].outcome == o)
  {
    if ts[i].outcome == o {
      assert With(ts, s + {i}, o) == With(ts, s, o) + {i};
    } else {
      assert With(ts, s + {i}, o) == With(ts, s, o);
    }
  }

  lemma CountedTallies(ts: seq<Transformer>, r: Summary, s: set<nat>, i: nat)
    requires i < |ts| && i !in s && Tallies(ts, r, s)
    ensures Tallies(ts, Counted(r, i, ts[i].outcome), s + {i})
  {
    WithOneMore(ts, s, i, Insufficient);
    WithOneMore(ts, s, i, Failed);
    WithOneMore(ts, s, i, Calculated(Normal));
    WithOneMore(ts, s, i, Calculated(Warning));
    WithOneMore(ts, s, i, Calculated(Critical));
    hide With;
  }

  /** `whole` falls into three parts. */
  ghost predicate Parts(whole: set<nat>, a: set<nat>, b: set<nat>, c: set<nat>) {
    a + b + c == whole && a !! b && a !! c && b !! c
  }

  lemma PartsJoin(whole: set<nat>, a: set<nat>, b: set<nat>, c: set<nat>, x: nat)
    requires Parts(whole, a, b, c) && x !in whole
    ensures Parts(whole + {x}, a + {x}, b, c) && x !in a && |a + {x}| == |a| + 1
  {
  }

  lemma FirstToSecond(whole: set<nat>, a: set<nat>, b: set<nat>, c: set<nat>, x: nat)
    requires Parts(whole, a, b, c) && x in a
    ensures Parts(whole, a - {x}, b + {x}, c)
    ensures x !in b + c && (b + {x}) + c == (b + c) + {x}
    ensures |a - {x}| == |a| - 1 && |b + {x}| == |b| + 1
  {
  }

  lemma SecondToThird(whole: set<nat>, a: set<nat>, b: set<nat>, c: set<nat>, x: nat)
    requires Parts(whole, a, b, c) && x in b
    ensures Parts(whole, a, b - {x}, c + {x})
    ensures (b - {x}) + (c + {x}) == b + c
    ensures |b - {x}| == |b| - 1
  {
  }

  ghost predicate Inv(ts: seq<Transformer>, s: Sys) {
    && s.next <= |ts|
    && (s.announced ==> s.next < |ts| && ts[s.next].active)
    && Parts(ActiveBelow(ts, s.next), s.working, s.leaving, s.left)
    && s.result.total == |ActiveBelow(ts, s.next)| + (if s.announced then 1 else 0)
    && Tallies(ts, s.result, s.leaving + s.left)
    && |s.working| + |s.leaving| <= WORKERS
  }

  lemma ActiveOneMore(ts: seq<Transformer>, n: nat)
    requires n < |ts|
    ensures ActiveBelow(ts, n + 1) == if ts[n].active then ActiveBelow(ts, n) + {n} else ActiveBelow(ts, n)
    ensures n !in ActiveBelow(ts, n)
  {
  }

  lemma AnnounceKeepsInv(ts: seq<Transformer>, s: Sys)
    requires Inv(ts, s) && Enabled(ts, s, Announce)
    ensures Inv(ts, Apply(ts, s, Announce))
  {
    hide With, ActiveBelow, Parts;
  }

  lemma LaunchKeepsInv(ts: seq<Transformer>, s: Sys)
    requires Inv(ts, s) && Enabled(ts, s, Launch)
    ensures Inv(ts, Apply(ts, s, Launch))
  {
    hide Tallies, ActiveBelow, Parts;
    ActiveOneMore(ts, s.next);
    PartsJoin(ActiveBelow(ts, s.next), s.working, s.leaving, s.left, s.next);
  }

  lemma RecordKeepsInv(ts: seq<Transformer>, s: Sys, i: nat)
    requires Inv(ts, s) && Enabled(ts, s, Record(i))
    ensures Inv(ts, Apply(ts, s, Record(i)))
  {
    hide Tallies, ActiveBelow, Parts;
    FirstToSecond(ActiveBelow(ts, s.next), s.working, s.leaving, s.left, i);
    CountedTallies(ts, s.result, s.leaving + s.left, i);
  }

  lemma LeaveKeepsInv(ts: seq<Transformer>, s: Sys, i: nat)
    requires Inv(ts, s) && Enabled(ts, s, Leave(i))
    ensures Inv(ts, Apply(ts, s, Leave(i)))
  {
    hide Tallies, ActiveBelow, Parts;
    SecondToThird(ActiveBelow(ts, s.next), s.working, s.leaving, s.left, i);
  }

  lemma StepKeepsInv(ts: seq<Transformer>, s: Sys, a: Action)
    requires Inv(ts, s) && Enabled(ts, s, a)
    ensures Inv(ts, Apply(ts, s, a))
  {
    match a
    case Skip => ActiveOneMore(ts, s.next);
    case Announce => AnnounceKeepsInv(ts, s);
    case Launch => LaunchKeepsInv(ts, s);
    case Record(i) => RecordKeepsInv(ts, s, i);
    case Leave(i) => LeaveKeepsInv(ts, s, i);
  }

  ghost predicate Possible(ts: seq<Transformer>, s: Sys, run: seq<Action>)
    decreases |run|
  {
    run == [] || (Enabled(ts, s, run[0]) && Possible(ts, Apply(ts, s, run[0]), run[1..]))
  }

  ghost function After(ts: seq<Transformer>, s: Sys, run: seq<Action>): Sys
    requires Possible(ts, s, run)
    decreases |run|
  {
    if run == [] then s else After(ts, Apply(ts, s, run[0]), run[1..])
  }

  lemma {:induction false} RunKeepsInv(ts: seq<Transformer>, s: Sys, run: seq<Action>)
    requires Inv(ts, s) && Possible(ts, s, run)
    ensures Inv(ts, After(ts, s, run))
    decreases |run|
  {
    hide Inv, Apply, Enabled;
    if run != [] {
      StepKeepsInv(ts, s, run[0]);
      RunKeepsInv(ts, Apply(ts, s, run[0]), run[1..]);
    }
  }

  lemma StartIsFine(ts: seq<Transformer>)
    ensures Inv(ts, START)
  {
    assert ActiveBelow(ts, 0) == {};
  }

  /** In every interleaving at most eight workers hold a slot at any time. */
  lemma AtMostEightWorkers(ts: seq<Transformer>, run: seq<Action>)
    requires Possible(ts, START, run)
    ensures |After(ts, START, run).working| + |After(ts, START, run).leaving| <= 8
  {
    StartIsFine(ts);
    RunKeepsInv(ts, START, run);
  }

  // ------------------------------------------------------------------ the sequential loop

  /** The same work done by one worker. */
  function Sequential(ts: seq<Transformer>): Summary {
    if ts == [] then EMPTY
    else
      var n := |ts| - 1;
      var before := Sequential(ts[..n]);
      if !ts[n].active then before
      else Counted(before.(total := before.total + 1), n, ts[n].outcome)
  }

  /** Equal but for the order in which errors were appended. */
  ghost predicate SameReport(a: Summary, b: Summary) {
    && a.(errors := []) == b.(errors := [])
    && |a.errors| == |b.errors|
    && (forall i :: i in a.errors <==> i in b.errors)
  }

  lemma SequentialStep(ts: seq<Transformer>, n: nat)
    requires n < |ts|
    ensures var before := Sequential(ts[..n]);
            Sequential(ts[..n + 1]) == if !ts[n].active then before
                                       else Counted(before.(total := before.total + 1), n, ts[n].outcome)
  {
    assert ts[..n + 1][..n] == ts[..n];
  }

  lemma TalliesIgnoresTotal(ts: seq<Transformer>, r: Summary, s: set<nat>, total: nat)
    requires Tallies(ts, r, s)
    ensures Tallies(ts, r.(total := total), s)
  {
    hide With;
  }

  lemma {:induction false} SequentialTallies(ts: seq<Transformer>, n: nat)
    requires n <= |ts|
    ensures Tallies(ts, Sequential(ts[..n]), ActiveBelow(ts, n))
    ensures Sequential(ts[..n]).total == |ActiveBelow(ts, n)|
  {
    hide With, Tallies;
    if n == 0 {
      NothingTallies(ts);
      assert ActiveBelow(ts, 0) == {};
    } else {
      SequentialTallies(ts, n - 1);
      ActiveOneMore(ts, n - 1);
      SequentialStep(ts, n - 1);
      hide ActiveBelow, Sequential;
      var before := Sequential(ts[..n - 1]);
      if ts[n - 1].active {
        TalliesIgnoresTotal(ts, before, ActiveBelow(ts, n - 1), before.total + 1);
        CountedTallies(ts, before.(total := before.total + 1), ActiveBelow(ts, n - 1), n - 1);
      }
    }
  }

  lemma NothingTallies(ts: seq<Transformer>)
    ensures Tallies(ts, EMPTY, {})
  {
  }

  /**
   Every interleaving that runs to the end reports what the sequential loop reports: the same counters and
   the same errors, the latter in the order the workers finished.
   */
  lemma ParallelIsSequential(ts: seq<Transformer>, run: seq<Action>)
    requires Possible(ts, START, run) && Finished(ts, After(ts, START, run))
    ensures SameReport(After(ts, START, run).result, Sequential(ts))
  {
    var s := After(ts, START, run);
    StartIsFine(ts);
    RunKeepsInv(ts, START, run);
    assert s.left == s.leaving + s.left;
    SequentialTallies(ts, |ts|);
    assert ts[..|ts|] == ts;
    hide With, ActiveBelow;
  }

  /** The final counters add up, whatever the interleaving. */
  lemma CountersAddUp(ts: seq<Transformer>, run: seq<Action>)
    requires Possible(ts, START, run) && Finished(ts, After(ts, START, run))
    ensures var r := After(ts, START, run).result;
            && r.total == r.calculated + r.skipped + r.failed
            && r.calculated == r.normal + r.warning + r.critical
            && |r.errors| == r.failed
            && (forall i: nat :: i in r.errors <==> i < |ts| && ts[i].active && ts[i].outcome == Failed)
  {
    var s := After(ts, START, run);
    StartIsFine(ts);
    RunKeepsInv(ts, START, run);
    assert s.left == s.leaving + s.left;
    assert s.left == ActiveBelow(ts, |ts|);
    Partition(ts, s.left);
    assert forall i: nat :: i in With(ts, s.left, Failed) <==> i < |ts| && ts[i].active && ts[i].outcome == Failed;
    hide With, ActiveBelow;
  }

  lemma NobodyWith(ts: seq<Transformer>, o: Outcome)
    ensures With(ts, {}, o) == {}
  {
  }

  lemma {:induction false} Partition(ts: seq<Transformer>, s: set<nat>)
    requires forall i :: i in s ==> i < |ts|
    ensures |s| == |With(ts, s, Insufficient)| + |With(ts, s, Failed)| + |With(ts, s, Calculated(Normal))| +
                   |With(ts, s, Calculated(Warning))| + |With(ts, s, Calculated(Critical))|
  {
    if s == {} {
      NobodyWith(ts, Insufficient);
      NobodyWith(ts, Failed);
      NobodyWith(ts, Calculated(Normal));
      NobodyWith(ts, Calculated(Warning));
      NobodyWith(ts, Calculated(Critical));
    } else {
      var i :| i in s;
      Partition(ts, s - {i});
      assert s == s - {i} + {i};
      WithOneMore(ts, s - {i}, i, Insufficient);
      WithOneMore(ts, s - {i}, i, Failed);
      WithOneMore(ts, s - {i}, i, Calculated(Normal));
      WithOneMore(ts, s - {i}, i, Calculated(Warning));
      WithOneMore(ts, s - {i}, i, Calculated(Critical));
      hide With;
      match ts[i].outcome
      case Insufficient =>
      case Failed =>
      case Calculated(status) => assert status == Normal || status == Warning || status == Critical;
    }
  }

  // ------------------------------------------------------------------ it always comes to an end

  function StepsLeft(ts: seq<Transformer>, s: Sys): int {
    4 * (|ts| - s.next) + 2 * |s.working| + |s.leaving| - if s.announced then 1 else 0
  }

  /** No interleaving gets stuck, and every step brings the end nearer. */
  lemma NeverStuck(ts: seq<Transformer>, s: Sys)
    requires Inv(ts, s)
    ensures Finished(ts, s) <==> forall a :: !Enabled(ts, s, a)
    ensures StepsLeft(ts, s) >= 0
    ensures forall a :: Enabled(ts, s, a) ==> StepsLeft(ts, Apply(ts, s, a)) < StepsLeft(ts, s)
  {
    if s.working != {} {
      var i :| i in s.working;
      assert i in ActiveBelow(ts, s.next);
      assert Enabled(ts, s, Record(i));
    } else if s.leaving != {} {
      var i :| i in s.leaving;
      assert Enabled(ts, s, Leave(i));
    } else if s.next < |ts| {
      assert Enabled(ts, s, Skip) || Enabled(ts, s, Announce) || Enabled(ts, s, Launch);
    }
    forall a | Enabled(ts, s, a)
      ensures StepsLeft(ts, Apply(ts, s, a)) < StepsLeft(ts, s)
    {
      StepCounts(ts, s, a);
    }
  }

  lemma StepCounts(ts: seq<Transformer>, s: Sys, a: Action)
    requires Inv(ts, s) && Enabled(ts, s, a)
    ensures StepsLeft(ts, Apply(ts, s, a)) < StepsLeft(ts, s)
  {
    match a
    case Skip =>
    case Announce =>
    case Launch => assert s.next !in s.working by { assert s.next !in ActiveBelow(ts, s.next); }
    case Record(i) => assert |s.working - {i}| == |s.working| - 1 && |s.leaving + {i}| == |s.leaving| + 1;
    case Leave(i) => assert |s.leaving - {i}| == |s.leaving| - 1;
  }

  // ------------------------------------------------------------------ the parallel batch

  datatype Item<T> = Item(idx: nat, res: T)

  ghost predicate Arrives<T>(channel: seq<Item<T>>, i: nat) {
    exists k :: 0 <= k < |channel| && channel[k].idx == i
  }

  /** What the channel holds in the end: one item per input, in the order the workers finished. */
  ghost predicate Completes<T>(channel: seq<Item<T>>, results: seq<T>) {
    && |channel| == |results|
    && (forall k :: 0 <= k < |channel| ==> channel[k].idx < |results| && channel[k].res == results[channel[k].idx])
    && (forall i :: 0 <= i < |results| ==> Arrives(channel, i))
  }

  /** CalculateBalanceBatch: whatever the order of completion, result `i` is that of input `i`. */
  method CollectBatch<T(0)>(channel: seq<Item<T>>, ghost expected: seq<T>) returns (results: array<T>)
    requires Completes(channel, expected)
    ensures results[..] == expected
  {
    results := new T[|channel|];
    for k := 0 to |channel|
      invariant forall j :: 0 <= j < k ==> results[channel[j].idx] == expected[channel[j].idx]
    {
      var it := channel[k];
      results[it.idx] := it.res;
    }
    forall i | 0 <= i < |expected|
      ensures results[i] == expected[i]
    {
      assert Arrives(channel, i);
      var k :| 0 <= k < |channel| && channel[k].idx == i;
      assert results[channel[k].idx] == expected[channel[k].idx];
    }
  }
}
