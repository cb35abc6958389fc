/**
 Loads can be brought to their end: from any state, with nesting in layers, some continuation finishes a
 given load and returns everybody who waits for it. So an old entry in use does reach a later caller.
 */
module CacheProgress {
  import opened Prelude
  import opened SummaryCache
  import opened CacheRuns
  import opened CacheGuarantees
  import opened CacheLater

  // ------------------------------------------------------------------ every load can be brought to its end

  ghost predicate HasLoader(s: Sys, i: nat) {
    exists id :: id in s.calls && s.calls[id].pc == Loading(i)
  }

  /** Somebody is at work on every unfinished load. */
  ghost predicate Loaders(s: Sys)
    requires Shaped(s)
  {
    forall i :: 0 <= i < |s.loads| && !s.cache.heap[i].ready ==> HasLoader(s, i)
  }

  /** Nested calls ask for values of a lower rank: the dashboards are built over the summaries, which nest nothing. */
  ghost predicate Layered(s: Sys, rank: string -> nat) {
    forall id :: id in s.calls && s.calls[id].parent.Some? && s.calls[id].parent.value < |s.loads| ==>
      rank(s.calls[id].key.name) < rank(s.loads[s.calls[id].parent.value].key.name)
  }

  ghost predicate NestsBelow(s: Sys, a: Action, rank: string -> nat) {
    a.Begin? && a.parent.Some? && a.parent.value < |s.loads| ==>
      rank(a.key.name) < rank(s.loads[a.parent.value].key.name)
  }

  ghost predicate Forward(pc: Pc, pc': Pc) {
    match pc
    case Calling => true
    case Waiting(e) => pc' == pc || pc'.Returned?
    case Loading(e) => pc' == pc || pc' == Evicting(e) || pc'.Returned?
    case Evicting(e) => pc' == pc || pc'.Returned?
    case Returned(_) => pc' == pc
  }

  ghost predicate StillHolds(s: Sys, s': Sys, i: nat)
    requires i < |s.loads| <= |s'.loads|
  {
    s'.loads[i].key == s.loads[i].key && NoNewer(s'.loads[i].basis, s.loads[i].basis)
  }

  ghost predicate SameCall(s: Sys, s': Sys, id: nat)
    requires id in s.calls && id in s'.calls
  {
    && s'.calls[id].key == s.calls[id].key && s'.calls[id].parent == s.calls[id].parent
    && Forward(s.calls[id].pc, s'.calls[id].pc)
  }

  /** Loads keep what they have read, calls their identity, and calls only move on. */
  ghost predicate MovesOn(s: Sys, s': Sys) {
    && |s.loads| <= |s'.loads|
    && (forall i :: 0 <= i < |s.loads| ==> StillHolds(s, s', i))
    && (forall id :: id in s.calls ==> id in s'.calls && SameCall(s, s', id))
  }

  lemma DeliverMovesOn(s: Sys, id: nat, c: Call, e: nat)
    requires Shaped(s) && id in s.calls && e < |s.loads|
    requires c.key == s.calls[id].key && c.parent == s.calls[id].parent && !s.calls[id].pc.Returned?
    ensures MovesOn(s, Deliver(s, id, c, e))
    ensures Deliver(s, id, c, e).calls.Keys == s.calls.Keys
    ensures Deliver(s, id, c, e).calls[id].pc.Returned?
    ensures forall j :: j in s.calls && j != id ==> Deliver(s, id, c, e).calls[j] == s.calls[j]
  {
  }

  /** The steps of the calls themselves; `id` is the only one that moves. */
  ghost predicate Works(a: Action) { a.Lock? || a.Wake? || a.Read? || a.Finish? || a.Evict? }

  lemma LockMovesOn(s: Sys, id: nat, delay: nat)
    requires Shaped(s) && Enabled(s, Lock(id, delay))
    ensures var s' := Locked(s, id, delay);
            && MovesOn(s, s') && s'.calls.Keys == s.calls.Keys
            && (forall j :: j in s.calls && j != id ==> s'.calls[j] == s.calls[j])
            && (|s'.loads| > |s.loads| ==> |s'.loads| == |s.loads| + 1 && s'.calls[id].pc == Loading(|s.loads|))
  {
    hide SummaryCache.Started, Deliver;
    var c := Entering(s, id);
    match Lookup(s.cache, c.key, s.now)
    case Hit(e) =>
      if e < |s.loads| {
        DeliverMovesOn(s, id, c, e);
        assert |Deliver(s, id, c, e).loads| == |s.loads| by { DeliverSize(s, id, c, e); }
      }
    case Join(e) =>
    case Start(e) =>
  }

  lemma DeliverSize(s: Sys, id: nat, c: Call, e: nat)
    requires Shaped(s) && e < |s.loads|
    ensures |Deliver(s, id, c, e).loads| == |s.loads|
  {
  }

  lemma MovesOnSameCalls(s: Sys, p: Sys, s': Sys)
    requires |p.loads| == |s.loads| && p.calls == s.calls && MovesOn(p, s')
    requires forall i :: 0 <= i < |s.loads| ==> StillHolds(s, p, i)
    ensures MovesOn(s, s')
  {
    forall i | 0 <= i < |s.loads|
      ensures StillHolds(s, s', i)
    {
      assert StillHolds(s, p, i) && StillHolds(p, s', i);
    }
    forall id | id in s.calls
      ensures id in s'.calls && SameCall(s, s', id)
    {
      assert SameCall(p, s', id);
    }
  }

  lemma FinishMovesOn(s: Sys, id: nat, value: Value, err: Option<string>)
    requires Shaped(s) && Enabled(s, Finish(id, value, err))
    ensures var s' := Finished(s, id, value, err);
            && MovesOn(s, s') && s'.calls.Keys == s.calls.Keys && |s'.loads| == |s.loads|
            && (forall j :: j in s.calls && j != id ==> s'.calls[j] == s.calls[j])
            && s'.cache.heap[s.calls[id].pc.e].ready
  {
    hide Deliver;
    var c, e := s.calls[id], s.calls[id].pc.e;
    var p := s.(cache := Published(s.cache, e, value, err, s.now),
                loads := s.loads[e := s.loads[e].(finishedAt := s.now)]);
    if err.None? {
      DeliverMovesOn(p, id, c, e);
      DeliverSize(p, id, c, e);
      DeliverKeepsCache(p, id, c, e);
      MovesOnSameCalls(s, p, Deliver(p, id, c, e));
    }
  }

  lemma DeliverKeepsCache(s: Sys, id: nat, c: Call, e: nat)
    requires Shaped(s) && e < |s.loads|
    ensures Deliver(s, id, c, e).cache == s.cache && Deliver(s, id, c, e).now == s.now
    ensures Deliver(s, id, c, e).version == s.version
  {
  }

  /** What a step of a call does to everybody. */
  lemma WorkMovesOn(s: Sys, a: Action)
    requires Inv(s) && Shaped(s) && Enabled(s, a) && Works(a)
    ensures MovesOn(s, Apply(s, a)) && Apply(s, a).calls.Keys == s.calls.Keys
    ensures forall j :: j in s.calls && j != a.id ==> Apply(s, a).calls[j] == s.calls[j]
    ensures |Apply(s, a).loads| > |s.loads| ==>
              |Apply(s, a).loads| == |s.loads| + 1 && Apply(s, a).calls[a.id].pc == Loading(|s.loads|)
  {
    hide Inv, Locked, Finished, Deliver;
    match a
    case Lock(id, delay) => LockMovesOn(s, id, delay);
    case Wake(id) =>
      DeliverMovesOn(s, id, s.calls[id], s.calls[id].pc.e);
      DeliverSize(s, id, s.calls[id], s.calls[id].pc.e);
    case Read(id) =>
    case Finish(id, value, err) => FinishMovesOn(s, id, value, err);
    case Evict(id) =>
      var c := s.calls[id];
      var p := s.(cache := Evicted(s.cache, c.key, c.pc.e));
      DeliverMovesOn(p, id, c, c.pc.e);
      DeliverSize(p, id, c, c.pc.e);
      MovesOnSameCalls(s, p, Deliver(p, id, c, c.pc.e));
  }

  ghost predicate Good(s: Sys, rank: string -> nat) {
    Inv(s) && Shaped(s) && Loaders(s) && Layered(s, rank)
  }

  /** A load that is not finished keeps its loader until it is. */
  lemma WorkKeepsLoaders(s: Sys, a: Action)
    requires Inv(s) && Shaped(s) && Enabled(s, a) && Works(a) && Loaders(s) && Shaped(Apply(s, a))
    ensures Loaders(Apply(s, a))
  {
    hide Inv, Locked, Finished, Deliver, MovesOn;
    var s' := Apply(s, a);
    WorkMovesOn(s, a);
    assert a.id in s.calls;
    hide Apply, Enabled;
    assert |s.loads| <= |s'.loads| by { LoadsOnlyGrow(s, s'); }
    forall i | 0 <= i < |s.loads| && !s'.cache.heap[i].ready
      ensures HasLoader(s', i)
    {
      UnfinishedBefore(s, a, i);
      assert HasLoader(s, i);
      var id :| id in s.calls && s.calls[id].pc == Loading(i);
      assert id in s'.calls && s'.calls[id].pc == Loading(i) by { LoaderStays(s, a, i, id); }
    }
    if |s'.loads| > |s.loads| {
      assert s'.calls[a.id].pc == Loading(|s.loads|);
    }
  }

  lemma LoadsOnlyGrow(s: Sys, s': Sys)
    requires MovesOn(s, s')
    ensures |s.loads| <= |s'.loads|
  {
  }

  lemma UnfinishedBefore(s: Sys, a: Action, i: nat)
    requires Inv(s) && Shaped(s) && Enabled(s, a) && Works(a) && Shaped(Apply(s, a)) && i < |s.loads|
    requires |Apply(s, a).loads| >= |s.loads| && !Apply(s, a).cache.heap[i].ready
    ensures !s.cache.heap[i].ready
  {
    if s.cache.heap[i].ready {
      StepKeepsPublished(s, a, i);
    }
  }

  lemma LoaderStays(s: Sys, a: Action, i: nat, id: nat)
    requires Shaped(s) && Enabled(s, a) && Works(a) && Shaped(Apply(s, a)) && i < |s.loads| <= |Apply(s, a).loads|
    requires id in s.calls && s.calls[id].pc == Loading(i) && !Apply(s, a).cache.heap[i].ready
    requires Apply(s, a).calls.Keys == s.calls.Keys
    requires forall j :: j in s.calls && j != a.id ==> Apply(s, a).calls[j] == s.calls[j]
    ensures Apply(s, a).calls[id].pc == Loading(i)
  {
    hide Locked, Lookup, Deliver;
    if a.id == id && a.Finish? {
      FinishMovesOn(s, id, a.value, a.err);
    }
  }

  /** Nesting stays layered, since no call is added. */
  lemma LayersStay(s: Sys, s': Sys, rank: string -> nat)
    requires Inv(s) && Layered(s, rank) && MovesOn(s, s') && s'.calls.Keys == s.calls.Keys
    ensures Layered(s', rank)
  {
    forall id | id in s'.calls && s'.calls[id].parent.Some? && s'.calls[id].parent.value < |s'.loads|
      ensures rank(s'.calls[id].key.name) < rank(s'.loads[s'.calls[id].parent.value].key.name)
    {
      CallAt(s, id);
      assert SameCall(s, s', id);
      assert StillHolds(s, s', s.calls[id].parent.value);
    }
  }

  lemma WorkKeepsGood(s: Sys, a: Action, rank: string -> nat)
    requires Good(s, rank) && Enabled(s, a) && Works(a)
    ensures Good(Apply(s, a), rank) && MovesOn(s, Apply(s, a)) && Apply(s, a).calls.Keys == s.calls.Keys
  {
    hide Inv, Apply, Enabled, Loaders, Layered, MovesOn;
    StepKeepsInv(s, a);
    InvIsShaped(Apply(s, a));
    WorkMovesOn(s, a);
    WorkKeepsLoaders(s, a);
    LayersStay(s, Apply(s, a), rank);
  }

  ghost predicate AllWork(run: seq<Action>) {
    forall i :: 0 <= i < |run| ==> Works(run[i])
  }

  lemma MovesOnChains(s: Sys, t: Sys, u: Sys)
    requires MovesOn(s, t) && MovesOn(t, u)
    ensures MovesOn(s, u)
  {
    forall i | 0 <= i < |s.loads|
      ensures StillHolds(s, u, i)
    {
      assert StillHolds(s, t, i) && StillHolds(t, u, i);
    }
    forall id | id in s.calls
      ensures id in u.calls && SameCall(s, u, id)
    {
      assert SameCall(s, t, id) && SameCall(t, u, id);
    }
  }

  lemma {:induction false} WorkRunKeepsGood(s: Sys, run: seq<Action>, rank: string -> nat)
    requires Good(s, rank) && Possible(s, run) && AllWork(run)
    ensures Good(After(s, run), rank) && MovesOn(s, After(s, run)) && After(s, run).calls.Keys == s.calls.Keys
    decreases |run|
  {
    hide Good, Apply, Enabled, Shaped;
    if run == [] {
      NothingMoves(s);
    } else {
      assert Works(run[0]) && Enabled(s, run[0]);
      WorkKeepsGood(s, run[0], rank);
      assert AllWork(run[1..]);
      WorkRunKeepsGood(Apply(s, run[0]), run[1..], rank);
      MovesOnChains(s, Apply(s, run[0]), After(Apply(s, run[0]), run[1..]));
    }
  }

  lemma NothingMoves(s: Sys)
    ensures MovesOn(s, s)
  {
  }

  lemma {:induction false} Joined(s: Sys, run: seq<Action>, more: seq<Action>)
    requires Possible(s, run) && Possible(After(s, run), more)
    ensures Possible(s, run + more) && After(s, run + more) == After(After(s, run), more)
    decreases |run|
  {
    hide Apply, Enabled, Shaped;
    if run == [] {
      assert run + more == more;
    } else {
      Joined(Apply(s, run[0]), run[1..], more);
      assert (run + more)[1..] == run[1..] + more;
    }
  }

  /** One step, as a continuation. */
  lemma OneStep(s: Sys, a: Action)
    requires Inv(s) && Shaped(s) && Enabled(s, a)
    ensures Possible(s, [a]) && After(s, [a]) == Apply(s, a)
  {
    hide Inv, Apply, Enabled;
    StepKeepsInv(s, a);
    InvIsShaped(Apply(s, a));
    assert [a][1..] == [];
    assert Possible(Apply(s, a), []);
  }

  /** The nested calls a load still waits for. */
  ghost function OpenCalls(s: Sys, e: nat): set<nat> {
    set id | id in s.calls && s.calls[id].parent == Some(e) && !s.calls[id].pc.Returned?
  }

  lemma OpenCallsShrink(s: Sys, s': Sys, e: nat, id: nat)
    requires MovesOn(s, s') && s'.calls.Keys == s.calls.Keys
    requires id in OpenCalls(s, e) && s'.calls[id].pc.Returned?
    ensures OpenCalls(s', e) < OpenCalls(s, e) && |OpenCalls(s', e)| < |OpenCalls(s, e)|
  {
    forall j | j in OpenCalls(s', e)
      ensures j in OpenCalls(s, e) && j != id
    {
      assert SameCall(s, s', j);
    }
    SmallerSet(OpenCalls(s', e), OpenCalls(s, e));
  }

  lemma {:induction false} SmallerSet(a: set<nat>, b: set<nat>)
    requires a < b
    ensures |a| < |b|
  {
    var x :| x in b && x !in a;
    assert a <= b - {x};
    NotLarger(a, b - {x});
  }

  lemma {:induction false} NotLarger(a: set<nat>, b: set<nat>)
    requires a <= b
    ensures |a| <= |b|
  {
    if a != {} {
      var x :| x in a;
      NotLarger(a - {x}, b - {x});
    }
  }

  lemma CanFinish(s: Sys, e: nat) returns (id: nat)
    requires Shaped(s) && Loaders(s) && e < |s.loads| && !s.cache.heap[e].ready && OpenCalls(s, e) == {}
    ensures Enabled(s, Read(id)) && Shaped(Apply(s, Read(id))) && Enabled(Apply(s, Read(id)), Finish(id, 0, None))
    ensures Apply(s, Read(id)).calls[id].pc.e == e
  {
    assert HasLoader(s, e);
    id :| id in s.calls && s.calls[id].pc == Loading(e);
    forall j | j in s.calls && s.calls[j].parent == Some(e)
      ensures s.calls[j].pc.Returned?
    {
      assert j !in OpenCalls(s, e);
    }
  }

  /** The last steps of a load nobody is nested in any more: it queries the rows and is published. */
  lemma FinishNow(s: Sys, e: nat, rank: string -> nat) returns (run: seq<Action>)
    requires Good(s, rank) && e < |s.loads| && !s.cache.heap[e].ready && OpenCalls(s, e) == {}
    ensures Possible(s, run) && AllWork(run)
    ensures e < |After(s, run).cache.heap| && After(s, run).cache.heap[e].ready
  {
    hide Inv, Layered, Loaders, OpenCalls;
    var id := CanFinish(s, e);
    hide Enabled, Apply, Shaped;
    var read, finish := Read(id), Finish(id, 0, None);
    var mid := Apply(s, read);
    StepKeepsInv(s, read);
    OneStep(s, read);
    OneStep(mid, finish);
    FinishPublishes(mid, id, 0, None);
    hide Possible, After;
    Joined(s, [read], [finish]);
    run := [read] + [finish];
  }

  ghost function RankOf(s: Sys, e: nat, rank: string -> nat): nat
    requires e < |s.loads|
  {
    rank(s.loads[e].key.name)
  }

  /** A load in progress can be brought to its end, its nested calls first. */
  lemma {:induction false} Complete(s: Sys, e: nat, rank: string -> nat) returns (run: seq<Action>)
    requires Good(s, rank) && e < |s.loads| && !s.cache.heap[e].ready
    ensures Possible(s, run) && AllWork(run)
    ensures e < |After(s, run).cache.heap| && After(s, run).cache.heap[e].ready
    decreases RankOf(s, e, rank), 0, |OpenCalls(s, e)|
  {
    hide Good, MovesOn, Possible, After, AllWork;
    if OpenCalls(s, e) == {} {
      run := FinishNow(s, e, rank);
    } else {
      var child :| child in OpenCalls(s, e);
      ChildIsLower(s, e, child, rank);
      var first := Return(s, child, rank);
      var mid := After(s, first);
      WorkRunKeepsGood(s, first, rank);
      StillThere(s, mid, e, rank);
      if mid.cache.heap[e].ready {
        run := first;
      } else {
        OpenCallsShrink(s, mid, e, child);
        var more := Complete(mid, e, rank);
        Joined(s, first, more);
        WorkJoined(first, more);
        run := first + more;
      }
    }
  }

  lemma WorkJoined(first: seq<Action>, more: seq<Action>)
    requires AllWork(first) && AllWork(more)
    ensures AllWork(first + more)
  {
  }

  lemma StillThere(s: Sys, mid: Sys, e: nat, rank: string -> nat)
    requires Good(mid, rank) && MovesOn(s, mid) && e < |s.loads|
    ensures e < |mid.loads| == |mid.cache.heap| && RankOf(mid, e, rank) == RankOf(s, e, rank)
  {
    assert StillHolds(s, mid, e);
  }

  lemma ChildIsLower(s: Sys, e: nat, child: nat, rank: string -> nat)
    requires Good(s, rank) && e < |s.loads| && child in OpenCalls(s, e)
    ensures rank(s.calls[child].key.name) < RankOf(s, e, rank)
  {
  }

  /** A call that has not returned can be brought to return. */
  lemma {:induction false} Return(s: Sys, id: nat, rank: string -> nat) returns (run: seq<Action>)
    requires Good(s, rank) && id in s.calls && !s.calls[id].pc.Returned?
    ensures Possible(s, run) && AllWork(run)
    ensures id in After(s, run).calls && After(s, run).calls[id].pc.Returned?
    decreases rank(s.calls[id].key.name), 2, 0
  {
    if s.calls[id].pc.Calling? {
      var lock := Lock(id, 0);
      assert Enabled(s, lock);
      OneStep(s, lock);
      WorkKeepsGood(s, lock, rank);
      LockNotes(s, id, 0);
      hide Good, Apply, MovesOn, Locked;
      var mid := Apply(s, lock);
      assert mid == After(s, [lock]);
      run := [lock];
      if !mid.calls[id].pc.Returned? {
        var more := ReturnAttached(mid, id, rank);
        Joined(s, [lock], more);
        run := [lock] + more;
      }
    } else {
      run := ReturnAttached(s, id, rank);
    }
  }

  lemma AttachedTo(s: Sys, id: nat, rank: string -> nat)
    requires Good(s, rank) && id in s.calls && !s.calls[id].pc.Calling? && !s.calls[id].pc.Returned?
    ensures s.calls[id].pc.e < |s.loads| == |s.cache.heap|
    ensures s.loads[s.calls[id].pc.e].key == s.calls[id].key
    ensures s.calls[id].pc.Loading? ==> !s.cache.heap[s.calls[id].pc.e].ready
    ensures s.calls[id].pc.Evicting? ==> s.cache.heap[s.calls[id].pc.e].ready
  {
    CallAt(s, id);
  }

  /** The last step of a call whose load is finished. */
  lemma ReturnNow(s: Sys, id: nat, rank: string -> nat) returns (run: seq<Action>)
    requires Good(s, rank) && id in s.calls && (s.calls[id].pc.Waiting? || s.calls[id].pc.Evicting?)
    requires s.calls[id].pc.e < |s.loads| == |s.cache.heap| && s.cache.heap[s.calls[id].pc.e].ready
    ensures Possible(s, run) && AllWork(run)
    ensures id in After(s, run).calls && After(s, run).calls[id].pc.Returned?
  {
    var a := if s.calls[id].pc.Waiting? then Wake(id) else Evict(id);
    assert Enabled(s, a);
    OneStep(s, a);
    run := [a];
    hide Inv;
  }

  lemma {:induction false} ReturnAttached(s: Sys, id: nat, rank: string -> nat) returns (run: seq<Action>)
    requires Good(s, rank) && id in s.calls && !s.calls[id].pc.Calling? && !s.calls[id].pc.Returned?
    ensures Possible(s, run) && AllWork(run)
    ensures id in After(s, run).calls && After(s, run).calls[id].pc.Returned?
    decreases rank(s.calls[id].key.name), 1, 0
  {
    hide Good, MovesOn, Possible, After, AllWork;
    AttachedTo(s, id, rank);
    var e := s.calls[id].pc.e;
    if s.cache.heap[e].ready {
      run := ReturnNow(s, id, rank);
    } else {
      var first := Complete(s, e, rank);
      var mid := After(s, first);
      WorkRunKeepsGood(s, first, rank);
      MovedCall(s, mid, id);
      run := first;
      if !mid.calls[id].pc.Returned? {
        AttachedTo(mid, id, rank);
        var more := ReturnNow(mid, id, rank);
        Joined(s, first, more);
        WorkJoined(first, more);
        run := first + more;
      }
    }
  }

  lemma MovedCall(s: Sys, mid: Sys, id: nat)
    requires MovesOn(s, mid) && id in s.calls
    ensures id in mid.calls && SameCall(s, mid, id)
  {
  }

  // ------------------------------------------------------------------ a servable old entry is handed out

  /** The call that is handed entry `e` when it takes the lock returns what `e` holds in the end. */
  lemma JoinedCallReturns(s: Sys, id: nat, e: nat, rank: string -> nat) returns (rest: seq<Action>)
    requires Good(s, rank) && id in s.calls && s.calls[id].pc == Waiting(e)
    ensures Possible(s, rest) && id in After(s, rest).calls && After(s, rest).calls[id].pc.Returned?
    ensures After(s, rest).calls[id].pc.answer.from == e && MovesOn(s, After(s, rest))
  {
    hide Good, MovesOn;
    rest := ReturnAttached(s, id, rank);
    WorkRunKeepsGood(s, rest, rank);
    ContinuationKeepsAnswer(s, rest, id, e);
  }

  lemma {:induction false} ContinuationKeepsAnswer(s: Sys, run: seq<Action>, id: nat, e: nat)
    requires Possible(s, run) && id in s.calls
    requires s.calls[id].pc == Waiting(e) || (s.calls[id].pc.Returned? && s.calls[id].pc.answer.from == e)
    ensures id in After(s, run).calls
    ensures var pc := After(s, run).calls[id].pc; pc == Waiting(e) || (pc.Returned? && pc.answer.from == e)
    decreases |run|
  {
    hide Apply, Enabled, Shaped;
    if run != [] {
      assert Shaped(s) && Enabled(s, run[0]);
      StepKeepsCall(s, run[0], id);
      ContinuationKeepsAnswer(Apply(s, run[0]), run[1..], id, e);
    }
  }

  lemma {:induction false} NewId(s: set<nat>) returns (id: nat)
    ensures forall x :: x in s ==> x < id
  {
    if s == {} {
      id := 0;
    } else {
      var x :| x in s;
      assert s == s - {x} + {x};
      var n := NewId(s - {x});
      id := if n <= x then x + 1 else n;
    }
  }

  lemma BeginKeepsLoaders(s: Sys, id: nat, key: Key)
    requires Shaped(s) && Enabled(s, Begin(id, key, None)) && Loaders(s)
    ensures Loaders(Apply(s, Begin(id, key, None)))
  {
    var s' := Apply(s, Begin(id, key, None));
    forall i | 0 <= i < |s.loads| && !s.cache.heap[i].ready
      ensures HasLoader(s', i)
    {
      assert HasLoader(s, i);
      var j :| j in s.calls && s.calls[j].pc == Loading(i);
      assert j in s'.calls && s'.calls[j].pc == Loading(i);
    }
  }

  lemma BeginKeepsLayers(s: Sys, id: nat, key: Key, rank: string -> nat)
    requires Shaped(s) && Enabled(s, Begin(id, key, None)) && Layered(s, rank)
    ensures Layered(Apply(s, Begin(id, key, None)), rank)
  {
  }

  /** A new caller with the key. */
  lemma Arrives(s: Sys, key: Key, rank: string -> nat) returns (id: nat)
    requires Good(s, rank) && Servable(s, key)
    ensures Enabled(s, Begin(id, key, None))
    ensures var s' := Apply(s, Begin(id, key, None));
            && Good(s', rank) && Servable(s', key)
            && s'.cache == s.cache && s'.loads == s.loads && s'.now == s.now
            && id in s'.calls && s'.calls[id] == Call(key, None, Calling, 0, s.now)
  {
    hide Inv, Servable, Loaders, Layered;
    id := NewId(s.calls.Keys);
    assert id !in s.calls;
    var s' := Apply(s, Begin(id, key, None));
    StepKeepsInv(s, Begin(id, key, None));
    InvIsShaped(s');
    BeginKeepsLoaders(s, id, key);
    BeginKeepsLayers(s, id, key, rank);
    SameCacheServes(s, s', key);
  }

  lemma SameCacheServes(s: Sys, s': Sys, key: Key)
    requires Shaped(s) && Shaped(s') && s'.cache == s.cache && s'.now == s.now
    ensures Servable(s', key) <==> Servable(s, key)
  {
  }

  /** Taking the lock hands it the servable entry. */
  lemma TakesEntry(s: Sys, id: nat, key: Key, rank: string -> nat)
    requires Good(s, rank) && Servable(s, key) && id in s.calls && s.calls[id] == Call(key, None, Calling, 0, s.now)
    ensures Enabled(s, Lock(id, 0)) && Good(Apply(s, Lock(id, 0)), rank) && MovesOn(s, Apply(s, Lock(id, 0)))
    ensures var e, c := s.cache.entries[key], Apply(s, Lock(id, 0)).calls;
            id in c && (c[id].pc == Waiting(e) || (c[id].pc.Returned? && c[id].pc.answer.from == e))
  {
    LookupServes(s, key);
    WorkKeepsGood(s, Lock(id, 0), rank);
    hide Inv, Loaders, Layered, MovesOn, Lookup, Servable;
  }

  /** The caller that has just taken the lock returns the old entry `e`, now or in the end. */
  lemma HandedOut(s: Sys, id: nat, e: nat, v: nat, rank: string -> nat) returns (rest: seq<Action>)
    requires Good(s, rank) && e < |s.loads| && !Since(s.loads[e].basis, v) && id in s.calls
    requires s.calls[id].pc == Waiting(e) || (s.calls[id].pc.Returned? && s.calls[id].pc.answer.from == e)
    ensures Possible(s, rest) && !Sees(After(s, rest), id, v)
  {
    hide Inv, Loaders, Layered, MovesOn, Shaped;
    rest := [];
    assert Possible(s, []);
    if s.calls[id].pc.Waiting? {
      rest := JoinedCallReturns(s, id, e, rank);
      ContinuationKeepsInv(s, rest);
      StillOld(s, After(s, rest), e, v);
    }
    ReturnedBasis(After(s, rest), id);
  }

  lemma ReturnedBasis(s: Sys, id: nat)
    requires Inv(s) && id in s.calls && s.calls[id].pc.Returned?
    ensures s.calls[id].pc.answer.from < |s.loads|
    ensures s.calls[id].pc.answer.basis == s.loads[s.calls[id].pc.answer.from].basis
  {
    CallAt(s, id);
  }

  /** One continuation in which the caller that comes now returns an entry read before version `v`. */
  lemma OldAnswer(s: Sys, key: Key, v: nat, rank: string -> nat) returns (begin: Action, id: nat, rest: seq<Action>)
    requires Good(s, rank) && Servable(s, key)
    requires s.cache.entries[key] < |s.loads| && !Since(s.loads[s.cache.entries[key]].basis, v)
    ensures !LaterCallSees(s, key.tenant, v, [begin], id, 0, rest)
  {
    var e := s.cache.entries[key];
    hide Servable, Inv, Loaders, Layered, MovesOn, Enabled, Apply, Sees;
    id := Arrives(s, key, rank);
    begin := Begin(id, key, None);
    var arrived := Apply(s, begin);
    TakesEntry(arrived, id, key, rank);
    var locked := Apply(arrived, Lock(id, 0));
    StillOld(arrived, locked, e, v);
    OneStep(s, begin);
    hide Possible, After;
    rest := HandedOut(locked, id, e, v, rank);
  }

  /**
   An entry in use that has read a version before `v` reaches a caller that comes now: it is served, or
   waits for the load, which can be brought to its end since nesting is layered.
   */
  lemma ServableIsHandedOut(s: Sys, key: Key, v: nat, rank: string -> nat)
    requires Good(s, rank) && Servable(s, key)
    requires s.cache.entries[key] < |s.loads| && !Since(s.loads[s.cache.entries[key]].basis, v)
    ensures !AllLaterCallsSee(s, key.tenant, v)
  {
    hide Servable, Inv, Loaders, Layered, LaterCallSees;
    var begin, id, rest := OldAnswer(s, key, v, rank);
  }

  lemma StillOld(s: Sys, s': Sys, e: nat, v: nat)
    requires MovesOn(s, s') && e < |s.loads| && !Since(s.loads[e].basis, v)
    ensures e < |s'.loads| && !Since(s'.loads[e].basis, v)
  {
    assert StillHolds(s, s', e);
  }

  // ------------------------------------------------------------------ so is one that is about to hold something old

  lemma {:induction false} LaterCallsAfterStep(s: Sys, a: Action, tenant: string, v: nat)
    requires Shaped(s) && Enabled(s, a) && AllLaterCallsSee(s, tenant, v)
    ensures AllLaterCallsSee(Apply(s, a), tenant, v)
  {
    hide Apply, Enabled, Shaped, Sees;
    forall before: seq<Action>, id: nat, delay: nat, rest: seq<Action>
      ensures LaterCallSees(Apply(s, a), tenant, v, before, id, delay, rest)
    {
      assert ([a] + before)[1..] == before;
      assert LaterCallSees(s, tenant, v, [a] + before, id, delay, rest);
    }
  }

  lemma DeliverHands(s: Sys, id: nat, c: Call, d: nat, v: nat)
    requires Shaped(s) && d < |s.loads| && !Since(s.loads[d].basis, v)
    requires c.parent.Some? && c.parent.value < |s.loads|
    ensures var s' := Deliver(s, id, c, d);
            && s'.cache == s.cache && s'.now == s.now && |s'.loads| == |s.loads|
            && !Since(s'.loads[c.parent.value].basis, v)
  {
  }

  lemma EvictKeepsServable(s: Sys, key: Key, k: Key, d: nat)
    requires Shaped(s) && Servable(s, key) && s.cache.entries[key] != d
    ensures var p := s.(cache := Evicted(s.cache, k, d));
            Shaped(p) && key in p.cache.entries && p.cache.entries[key] == s.cache.entries[key] && Servable(p, key)
  {
  }

  /** Once the nested call has returned, the load it belongs to holds the old version itself, and is still in use. */
  lemma HandOver(s: Sys, key: Key, id: nat, v: nat) returns (a: Action)
    requires Inv(s) && Shaped(s) && Servable(s, key)
    requires s.cache.entries[key] < |s.loads| && HandsOld(s, id, s.cache.entries[key], v)
    ensures Enabled(s, a) && Works(a)
    ensures Shaped(Apply(s, a)) && Servable(Apply(s, a), key)
    ensures var s' := Apply(s, a);
            s'.cache.entries[key] < |s'.loads| && !Since(s'.loads[s'.cache.entries[key]].basis, v)
  {
    var c, d, e := s.calls[id], s.calls[id].pc.e, s.cache.entries[key];
    a := if c.pc.Waiting? then Wake(id) else Evict(id);
    OpenParent(s, id);
    StepKeepsInv(s, a);
    InvIsShaped(Apply(s, a));
    if c.pc.Waiting? {
      DeliverHands(s, id, c, d, v);
      hide Inv, Shaped, Deliver, Servable;
      SameCacheServes(s, Apply(s, a), key);
    } else {
      EvictKeepsServable(s, key, c.key, d);
      var p := s.(cache := Evicted(s.cache, c.key, d));
      DeliverHands(p, id, c, d, v);
      hide Inv, Shaped, Deliver, Servable, Evicted;
      SameCacheServes(p, Apply(s, a), key);
    }
  }

  /** The load a call that has not returned belongs to is not finished. */
  lemma OpenParent(s: Sys, id: nat)
    requires Inv(s) && id in s.calls && s.calls[id].parent.Some? && !s.calls[id].pc.Returned?
    ensures s.calls[id].parent.value < |s.loads| == |s.cache.heap| && !s.cache.heap[s.calls[id].parent.value].ready
  {
    CallAt(s, id);
  }

  /** A stale entry in use is handed to a call that comes later, in some continuation. */
  lemma StaleIsHandedOut(s: Sys, key: Key, v: nat, rank: string -> nat)
    requires Good(s, rank) && Servable(s, key) && Stale(s, s.cache.entries[key], v)
    ensures !AllLaterCallsSee(s, key.tenant, v)
  {
    var e := s.cache.entries[key];
    hide Servable, Inv, Loaders, Layered, Apply, Enabled, MovesOn, AllLaterCallsSee, HandsOld, Works;
    if Since(s.loads[e].basis, v) {
      var id :| HandsOld(s, id, e, v);
      var a := HandOver(s, key, id, v);
      WorkKeepsGood(s, a, rank);
      ServableIsHandedOut(Apply(s, a), key, v, rank);
      if AllLaterCallsSee(s, key.tenant, v) {
        LaterCallsAfterStep(s, a, key.tenant, v);
        assert false;
      }
    } else {
      ServableIsHandedOut(s, key, v, rank);
    }
  }
}
