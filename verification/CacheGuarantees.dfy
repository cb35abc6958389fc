/**
 What callers of the memo cache may rely on, over every interleaving of callers, loads, purges,
 evictions and invalidations.
 */
module CacheGuarantees {
  import opened Prelude
  import opened SummaryCache
  import opened CacheRuns

  datatype Run = Run(states: seq<Sys>, actions: seq<Action>)

  ghost predicate StepAt(r: Run, i: nat)
    requires i < |r.actions| && |r.states| == |r.actions| + 1
  {
    && Shaped(r.states[i]) && Enabled(r.states[i], r.actions[i])
    && r.states[i + 1] == Apply(r.states[i], r.actions[i])
  }

  ghost predicate IsRun(r: Run) {
    && |r.states| == |r.actions| + 1
    && r.states[0] == INITIAL
    && forall i :: 0 <= i < |r.actions| ==> StepAt(r, i)
  }

  lemma InitialInv()
    ensures Inv(INITIAL)
  {
  }

  /** Every reachable state satisfies the invariant. */
  lemma {:induction false} Reachable(r: Run, i: nat)
    requires IsRun(r) && i < |r.states|
    ensures Inv(r.states[i])
  {
    hide Inv, Apply, Enabled;
    InitialInv();
    if i > 0 {
      Reachable(r, i - 1);
      assert StepAt(r, i - 1);
      StepKeepsInv(r.states[i - 1], r.actions[i - 1]);
    }
  }

  // ------------------------------------------------------------------ what one step keeps

  lemma StepKeepsAcked(s: Sys, a: Action, tenant: string)
    requires Shaped(s) && Enabled(s, a)
    ensures At(s.acked, tenant) <= At(Apply(s, a).acked, tenant)
  {
    hide Lookup, SummaryCache.Started, Invalidated, Evicted, Published;
  }

  lemma LockSparesOthers(s: Sys, id: nat, delay: nat, other: nat)
    requires Shaped(s) && id in s.calls && other in s.calls && other != id
    ensures other in Locked(s, id, delay).calls && Locked(s, id, delay).calls[other] == s.calls[other]
  {
    hide Lookup, SummaryCache.Started;
  }

  /** Once it has held the lock, a call keeps its key, its parent and what it may rely on. */
  lemma StepKeepsCall(s: Sys, a: Action, id: nat)
    requires Shaped(s) && Enabled(s, a) && id in s.calls && !s.calls[id].pc.Calling?
    ensures var s' := Apply(s, a);
            && id in s'.calls && !s'.calls[id].pc.Calling?
            && s'.calls[id].key == s.calls[id].key && s'.calls[id].acked == s.calls[id].acked
            && (s.calls[id].pc.Returned? ==> s'.calls[id].pc == s.calls[id].pc)
            && (s.calls[id].pc.Waiting? ==>
                  s'.calls[id].pc == s.calls[id].pc ||
                  (s'.calls[id].pc.Returned? && s'.calls[id].pc.answer.from == s.calls[id].pc.e))
  {
    hide Lookup, SummaryCache.Started, Invalidated, Evicted, Published, Locked;
    if a.Lock? {
      LockSparesOthers(s, a.id, a.purgeDelay, id);
    }
  }

  /** A published value never changes again. */
  lemma StepKeepsPublished(s: Sys, a: Action, e: nat)
    requires Inv(s) && Shaped(s) && Enabled(s, a) && e < |s.cache.heap| && s.cache.heap[e].ready
    ensures e < |Apply(s, a).cache.heap| && Apply(s, a).cache.heap[e] == s.cache.heap[e]
  {
    hide Lookup, CacheOk, LoadsOk, WritesOk, OneLoader;
    if a.Finish? {
      CallAt(s, a.id);
    }
  }

  lemma {:induction false} AckedGrows(r: Run, i: nat, j: nat, tenant: string)
    requires IsRun(r) && i <= j < |r.states|
    ensures At(r.states[i].acked, tenant) <= At(r.states[j].acked, tenant)
    decreases j
  {
    if i < j {
      AckedGrows(r, i, j - 1, tenant);
      assert StepAt(r, j - 1);
      StepKeepsAcked(r.states[j - 1], r.actions[j - 1], tenant);
    }
  }

  lemma {:induction false} CallStays(r: Run, i: nat, j: nat, id: nat)
    requires IsRun(r) && i <= j < |r.states|
    requires id in r.states[i].calls && !r.states[i].calls[id].pc.Calling?
    ensures var c := r.states[i].calls[id];
            && id in r.states[j].calls && !r.states[j].calls[id].pc.Calling?
            && r.states[j].calls[id].key == c.key && r.states[j].calls[id].acked == c.acked
            && (c.pc.Returned? ==> r.states[j].calls[id].pc == c.pc)
            && (c.pc.Waiting? ==>
                  r.states[j].calls[id].pc == c.pc ||
                  (r.states[j].calls[id].pc.Returned? && r.states[j].calls[id].pc.answer.from == c.pc.e))
    decreases j
  {
    hide Apply, Enabled;
    if i < j {
      CallStays(r, i, j - 1, id);
      assert StepAt(r, j - 1);
      StepKeepsCall(r.states[j - 1], r.actions[j - 1], id);
    }
  }

  lemma {:induction false} PublishedStays(r: Run, i: nat, j: nat, e: nat)
    requires IsRun(r) && i <= j < |r.states|
    requires e < |r.states[i].cache.heap| && r.states[i].cache.heap[e].ready
    ensures e < |r.states[j].cache.heap| && r.states[j].cache.heap[e] == r.states[i].cache.heap[e]
    decreases j
  {
    hide Apply, Enabled, Inv;
    if i < j {
      PublishedStays(r, i, j - 1, e);
      Reachable(r, j - 1);
      assert StepAt(r, j - 1);
      StepKeepsPublished(r.states[j - 1], r.actions[j - 1], e);
    }
  }

  // ------------------------------------------------------------------ read your writes

  lemma AcknowledgedIsKnown(s: Sys, w: nat)
    requires Shaped(s) && w in s.writers
    ensures At(Acknowledged(s, w).acked, s.writers[w].tenant) >= s.writers[w].version
  {
  }

  lemma LockNotes(s: Sys, id: nat, delay: nat)
    requires Shaped(s) && id in s.calls && s.calls[id].pc.Calling?
    ensures var s' := Locked(s, id, delay);
            && id in s'.calls && !s'.calls[id].pc.Calling?
            && s'.calls[id].key == s.calls[id].key
            && s'.calls[id].acked == At(s.acked, s.calls[id].key.tenant)
  {
    hide SummaryCache.Started;
  }

  /**
   Whatever a call returns was read from rows that already held every autocommit write of its tenant whose
   repository call had returned before this call took the lock. The basis covers every query of the load
   itself and of everything it was built from through nested calls.
   */
  lemma ReadYourWrites(r: Run, i: nat, j: nat, m: nat, w: nat, id: nat, delay: nat)
    requires IsRun(r) && i < j < m < |r.states|
    requires r.actions[i] == Acknowledge(w) && w in r.states[i].writers
    requires r.actions[j] == Lock(id, delay) && id in r.states[j].calls
    requires r.states[j].calls[id].key.tenant == r.states[i].writers[w].tenant
    requires id in r.states[m].calls && r.states[m].calls[id].pc.Returned?
    ensures var answer := r.states[m].calls[id].pc.answer;
            && answer.from < |r.states[m].loads|
            && r.states[m].loads[answer.from].key == r.states[j].calls[id].key
            && r.states[m].loads[answer.from].started >= r.states[i].writers[w].version
            && Since(answer.basis, r.states[i].writers[w].version)
  {
    hide Inv, Locked, Acknowledged;
    var t := r.states[i].writers[w].tenant;
    assert StepAt(r, i) && StepAt(r, j);
    AcknowledgedIsKnown(r.states[i], w);
    AckedGrows(r, i + 1, j, t);
    LockNotes(r.states[j], id, delay);
    CallStays(r, j + 1, m, id);
    Reachable(r, m);
    ReturnedIsFresh(r.states[m], id);
  }

  lemma ReturnedIsFresh(s: Sys, id: nat)
    requires Inv(s) && id in s.calls && s.calls[id].pc.Returned?
    ensures var answer := s.calls[id].pc.answer;
            && answer.from < |s.loads| == |s.cache.heap| && s.cache.heap[answer.from].ready
            && s.loads[answer.from].key == s.calls[id].key
            && s.loads[answer.from].started >= s.calls[id].acked && Since(answer.basis, s.calls[id].acked)
            && answer.value == s.cache.heap[answer.from].value && answer.err == s.cache.heap[answer.from].err
  {
    assert CallOk(s, s.calls[id]);
  }

  // ------------------------------------------------------------------ single flight

  /** Two unfinished loads of one tenant and name never share a generation. */
  lemma AtMostOneLoad(r: Run, m: nat, d: nat, e: nat)
    requires IsRun(r) && m < |r.states|
    requires d < |r.states[m].loads| && e < |r.states[m].loads| && |r.states[m].loads| == |r.states[m].cache.heap|
    requires !r.states[m].cache.heap[d].ready && !r.states[m].cache.heap[e].ready
    requires r.states[m].loads[d].key == r.states[m].loads[e].key
    requires r.states[m].cache.heap[d].gen == r.states[m].cache.heap[e].gen
    ensures d == e
  {
    Reachable(r, m);
    var s := r.states[m];
    assert SingleFlight(s.cache, s.loads);
  }

  /** A caller that joined a load in progress returns exactly what that load produced, failure included. */
  lemma WaitersShareTheLoad(r: Run, i: nat, k: nat, m: nat, id: nat, loader: nat, e: nat,
                            value: Value, err: Option<string>)
    requires IsRun(r) && i < m < |r.states| && k < |r.actions|
    requires id in r.states[i].calls && r.states[i].calls[id].pc == Waiting(e)
    requires r.actions[k] == Finish(loader, value, err)
    requires loader in r.states[k].calls && r.states[k].calls[loader].pc == Loading(e)
    requires id in r.states[m].calls && r.states[m].calls[id].pc.Returned?
    ensures r.states[m].calls[id].pc.answer.from == e
    ensures r.states[m].calls[id].pc.answer.value == value
    ensures r.states[m].calls[id].pc.answer.err == err
  {
    hide Inv;
    CallStays(r, i, m, id);
    Reachable(r, m);
    ReturnedIsFresh(r.states[m], id);
    Reachable(r, k);
    LoadingIsOpen(r.states[k], loader);
    if m <= k {
      PublishedStays(r, m, k, e);
      assert false;
    }
    assert StepAt(r, k);
    FinishPublishes(r.states[k], loader, value, err);
    PublishedStays(r, k + 1, m, e);
  }

  lemma LoadingIsOpen(s: Sys, id: nat)
    requires Inv(s) && id in s.calls && s.calls[id].pc.Loading?
    ensures s.calls[id].pc.e < |s.cache.heap| && !s.cache.heap[s.calls[id].pc.e].ready
  {
    assert CallOk(s, s.calls[id]);
  }

  lemma FinishPublishes(s: Sys, id: nat, value: Value, err: Option<string>)
    requires Shaped(s) && Enabled(s, Finish(id, value, err))
    ensures var s', e := Apply(s, Finish(id, value, err)), s.calls[id].pc.e;
            && e < |s'.cache.heap| && s'.cache.heap[e].ready
            && s'.cache.heap[e].value == value && s'.cache.heap[e].err == err
  {
  }

  /** What the critical section of a call may take out of the map, or put in place of it. */
  lemma LockRemoves(s: Sys, id: nat, delay: nat, k: Key)
    requires Inv(s) && Shaped(s) && id in s.calls && k in s.cache.entries
    ensures var e, s' := s.cache.entries[k], Locked(s, id, delay);
            && (k !in s'.cache.entries ==> s.cache.heap[e].ready && s'.now > s.cache.heap[e].expires)
            && (k in s'.cache.entries && s'.cache.entries[k] != e ==>
                  && s.calls[id].key == k && s'.cache.entries[k] == |s.cache.heap|
                  && (!s.cache.heap[e].ready ==> s.cache.heap[e].gen < At(s.cache.gen, k.tenant)))
  {
    hide LoadsOk, CallsOk, WritesOk, SingleFlight, OneLoader, FreshOk;
    if Lookup(s.cache, s.calls[id].key, s.now).Start? && s.calls[id].key == k {
      var e := s.cache.entries[k];
      assert s.loads[e].key == k;
      if !s.cache.heap[e].ready {
        StartsAlone(s.cache, s.loads, k, s.now, e);
      }
    }
  }

  /**
   An entry leaves the map only when it is finished: purged past its expiry, or evicted by the very call
   whose load failed. A step that replaces an entry puts a newer one in its place, and an unfinished one
   is replaced only once its generation is outdated.
   */
  lemma RemovalsAreFinished(s: Sys, a: Action, k: Key)
    requires Inv(s) && Shaped(s) && Enabled(s, a) && k in s.cache.entries
    ensures var e, s' := s.cache.entries[k], Apply(s, a);
            && (k !in s'.cache.entries ==>
                  && s.cache.heap[e].ready
                  && ((a.Lock? && s'.now > s.cache.heap[e].expires) ||
                      (a.Evict? && s.calls[a.id].pc == Evicting(e) && s.cache.heap[e].err.Some?)))
            && (k in s'.cache.entries && s'.cache.entries[k] != e ==>
                  && a.Lock? && s.calls[a.id].key == k
                  && s'.cache.entries[k] == |s.cache.heap|
                  && (!s.cache.heap[e].ready ==> s.cache.heap[e].gen < At(s.cache.gen, k.tenant)))
  {
    hide LoadsOk, CallsOk, CacheOk, WritesOk, OneLoader, Locked;
    if a.Lock? {
      LockRemoves(s, a.id, a.purgeDelay, k);
    } else if a.Evict? {
      CallAt(s, a.id);
    }
  }

  // ------------------------------------------------------------------ staleness

  /**
   A value served without waiting was finished less than the TTL before, and every memoised value it was
   built from less than twice the TTL plus the time its own load took.
   */
  lemma NestedStaleness(r: Run, m: nat, id: nat, e: nat, nested: nat)
    requires IsRun(r) && m < |r.states| && Shaped(r.states[m])
    requires id in r.states[m].calls
    requires Lookup(r.states[m].cache, r.states[m].calls[id].key, r.states[m].now) == Hit(e)
    requires nested in r.states[m].calls && r.states[m].calls[nested].parent == Some(e)
    requires r.states[m].calls[nested].pc.Returned?
    ensures e < |r.states[m].loads| && r.states[m].calls[nested].pc.answer.from < |r.states[m].loads|
    ensures var s := r.states[m];
            var outer, inner := s.loads[e], s.loads[s.calls[nested].pc.answer.from];
            && s.now - outer.finishedAt < TTL
            && s.now - inner.finishedAt < 2 * TTL + (outer.finishedAt - outer.createdAt)
            && NoNewer(outer.basis, s.calls[nested].pc.answer.basis)
  {
    var s := r.states[m];
    Reachable(r, m);
    assert CallOk(s, s.calls[nested]);
    assert LoadOk(s, e);
  }

  /**
   Whoever returns, whether served, waiting or loading, returns what was finished less than the TTL before
   the call took the lock, or later; a failure is only handed to calls that came before it.
   */
  lemma AnswersAreRecent(r: Run, m: nat, id: nat)
    requires IsRun(r) && m < |r.states| && id in r.states[m].calls && r.states[m].calls[id].pc.Returned?
    ensures r.states[m].calls[id].pc.answer.from < |r.states[m].loads|
    ensures var s, c := r.states[m], r.states[m].calls[id];
            && c.lockedAt - s.loads[c.pc.answer.from].finishedAt < TTL
            && (c.pc.answer.err.Some? ==> c.lockedAt <= s.loads[c.pc.answer.from].finishedAt)
  {
    Reachable(r, m);
    CallAt(r.states[m], id);
  }

  /** A load that is served can no longer gain nested calls that are still running. */
  lemma ServedLoadsAreComplete(r: Run, m: nat, nested: nat, e: nat)
    requires IsRun(r) && m < |r.states| && e < |r.states[m].cache.heap| && r.states[m].cache.heap[e].ready
    requires nested in r.states[m].calls && r.states[m].calls[nested].parent == Some(e)
    ensures r.states[m].calls[nested].pc.Returned?
  {
    Reachable(r, m);
    assert CallOk(r.states[m], r.states[m].calls[nested]);
  }

  // ------------------------------------------------------------------ writers inside a transaction

  const NETWORK := Key("acme", "summaries")

  lemma RunExtends(r: Run, a: Action)
    requires IsRun(r)
    requires Shaped(r.states[|r.actions|]) && Enabled(r.states[|r.actions|], a)
    ensures IsRun(Run(r.states + [Apply(r.states[|r.actions|], a)], r.actions + [a]))
  {
    hide Apply, Enabled, Shaped;
    var r' := Run(r.states + [Apply(r.states[|r.actions|], a)], r.actions + [a]);
    forall i | 0 <= i < |r'.actions|
      ensures StepAt(r', i)
    {
      if i < |r.actions| {
        assert StepAt(r, i);
      }
    }
  }

  /** A caller starts to load the tenant's rows after the invalidation of a transaction. */
  lemma LoadStarts() returns (r: Run)
    ensures IsRun(r) && r.actions == [InvalidateOnly("acme"), Begin(0, NETWORK, None), Lock(0, 0)]
    ensures r.states[1].loads == []
    ensures var s := r.states[3];
            && s.cache.entries == map[NETWORK := 0] && At(s.cache.gen, "acme") == 1
            && s.cache.heap == [Entry(1, 0, 0, None, false)]
            && s.now == 0 && s.calls == map[0 := Call(NETWORK, None, Loading(0), 0, 0)] && At(s.version, "acme") == 0
            && s.loads == [Load(NETWORK, 0, 0, 0, 0, None, {})]
  {
    var s0 := INITIAL;
    var s1 := Apply(s0, InvalidateOnly("acme"));
    var s2 := Apply(s1, Begin(0, NETWORK, None));
    assert s2.calls[0] == Call(NETWORK, None, Calling, 0, 0);
    assert Lookup(s2.cache, NETWORK, 0) == Start(0);
    var s3 := Apply(s2, Lock(0, 0));
    assert s3.cache.entries == map[NETWORK := 0];
    r := Run([s0, s1, s2, s3], [InvalidateOnly("acme"), Begin(0, NETWORK, None), Lock(0, 0)]);
  }

  /** The load queries the rows, unchanged so far. */
  lemma LoadReads() returns (r: Run)
    ensures IsRun(r) && r.actions == [InvalidateOnly("acme"), Begin(0, NETWORK, None), Lock(0, 0), Read(0)]
    ensures var s := r.states[4];
            && s.cache.entries == map[NETWORK := 0] && At(s.cache.gen, "acme") == 1
            && s.cache.heap == [Entry(1, 0, 0, None, false)]
            && s.now == 0 && s.calls == map[0 := Call(NETWORK, None, Loading(0), 0, 0)] && At(s.version, "acme") == 0
            && s.loads == [Load(NETWORK, 0, 0, 0, 0, Some(0), {})]
  {
    var r3 := LoadStarts();
    RunExtends(r3, Read(0));
    r := Run(r3.states + [Apply(r3.states[3], Read(0))], r3.actions + [Read(0)]);
  }

  lemma LoadBetween() returns (r: Run)
    ensures IsRun(r)
    ensures r.actions == [InvalidateOnly("acme"), Begin(0, NETWORK, None), Lock(0, 0), Read(0), Finish(0, 7, None)]
    ensures var s := r.states[5];
            && s.cache.entries == map[NETWORK := 0] && At(s.cache.gen, "acme") == 1
            && s.cache.heap == [Entry(1, TTL, 7, None, true)]
            && s.now == 0 && s.calls.Keys == {0} && At(s.version, "acme") == 0
            && |s.loads| == 1 && s.loads[0].basis == Some(0)
  {
    var r4 := LoadReads();
    RunExtends(r4, Finish(0, 7, None));
    r := Run(r4.states + [Apply(r4.states[4], Finish(0, 7, None))], r4.actions + [Finish(0, 7, None)]);
  }

  /**
   A writer that invalidates inside its transaction gets no such promise: a load that runs between the
   invalidation and the commit is served to a caller that arrives after the commit.
   */
  lemma InTransactionWritesMayBeMissed() returns (r: Run)
    ensures IsRun(r) && |r.actions| == 8
    ensures r.actions[0] == InvalidateOnly("acme") && r.actions[5] == CommitInTransaction("acme")
    ensures r.actions[7].Lock? && r.actions[7].id in r.states[8].calls
    ensures r.states[8].calls[r.actions[7].id].key == NETWORK
    ensures r.states[8].calls[r.actions[7].id].pc.Returned?
    ensures !Since(r.states[8].calls[r.actions[7].id].pc.answer.basis, At(r.states[6].version, "acme"))
  {
    var r5 := LoadBetween();
    var s5 := r5.states[5];
    RunExtends(r5, CommitInTransaction("acme"));
    var s6 := Apply(s5, CommitInTransaction("acme"));
    var r6 := Run(r5.states + [s6], r5.actions + [CommitInTransaction("acme")]);
    RunExtends(r6, Begin(1, NETWORK, None));
    var s7 := Apply(s6, Begin(1, NETWORK, None));
    var r7 := Run(r6.states + [s7], r6.actions + [Begin(1, NETWORK, None)]);
    assert s7.calls[1] == Call(NETWORK, None, Calling, 0, 0);
    assert Lookup(s7.cache, NETWORK, 0) == Hit(0);
    RunExtends(r7, Lock(1, 0));
    r := Run(r7.states + [Apply(s7, Lock(1, 0))], r7.actions + [Lock(1, 0)]);
  }
}
