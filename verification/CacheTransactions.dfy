/**
 When a write is seen that does not invalidate after its commit: writers inside a transaction run their
 deferred invalidation first and commit later (UpsertByCode, CopyInsert, DeleteByImport).
 */
module CacheTransactions {
  import opened Prelude
  import opened SummaryCache
  import opened CacheRuns
  import opened CacheGuarantees
  import opened CacheLater
  import opened CacheProgress

  // ------------------------------------------------------------------ over runs

  /** In a run nested calls always ask for values of a lower rank. */
  ghost predicate LayeredRun(r: Run, rank: string -> nat)
    requires |r.states| == |r.actions| + 1
  {
    forall i :: 0 <= i < |r.actions| ==> NestsBelow(r.states[i], r.actions[i], rank)
  }

  lemma BeginNestsGood(s: Sys, a: Action, rank: string -> nat)
    requires Inv(s) && Shaped(s) && Loaders(s) && Layered(s, rank) && a.Begin? && Enabled(s, a) && NestsBelow(s, a, rank)
    ensures Loaders(Apply(s, a)) && Layered(Apply(s, a), rank)
  {
    var s' := Apply(s, a);
    hide Inv;
    forall i | 0 <= i < |s.loads| && !s.cache.heap[i].ready
      ensures HasLoader(s', i)
    {
      assert HasLoader(s, i);
      var j :| j in s.calls && s.calls[j].pc == Loading(i);
      assert j in s'.calls && s'.calls[j].pc == Loading(i);
    }
  }

  lemma WritesKeepLoads(s: Sys, a: Action)
    requires Shaped(s) && Enabled(s, a) && !Works(a) && !a.Begin?
    ensures Apply(s, a).loads == s.loads && Apply(s, a).calls == s.calls && Apply(s, a).cache.heap == s.cache.heap
  {
    hide BumpedAll;
  }

  lemma SameLoadsGood(s: Sys, s': Sys, rank: string -> nat)
    requires Shaped(s) && Loaders(s) && Layered(s, rank) && Shaped(s')
    requires s'.loads == s.loads && s'.calls == s.calls && s'.cache.heap == s.cache.heap
    ensures Loaders(s') && Layered(s', rank)
  {
    forall i | 0 <= i < |s.loads| && !s.cache.heap[i].ready
      ensures HasLoader(s', i)
    {
      assert HasLoader(s, i);
    }
  }

  lemma StepKeepsGood(s: Sys, a: Action, rank: string -> nat)
    requires Good(s, rank) && Enabled(s, a) && NestsBelow(s, a, rank)
    ensures Good(Apply(s, a), rank)
  {
    hide Inv, Loaders, Layered, Apply, Enabled, NestsBelow, MovesOn, Shaped, Works;
    StepKeepsInv(s, a);
    InvIsShaped(Apply(s, a));
    if Works(a) {
      WorkKeepsGood(s, a, rank);
    } else if a.Begin? {
      BeginNestsGood(s, a, rank);
    } else {
      WritesKeepLoads(s, a);
      SameLoadsGood(s, Apply(s, a), rank);
    }
  }

  lemma InitialGood(rank: string -> nat)
    ensures Good(INITIAL, rank)
  {
    InitialInv();
    hide Inv;
  }

  lemma {:induction false} RunKeepsGood(r: Run, i: nat, rank: string -> nat)
    requires IsRun(r) && LayeredRun(r, rank) && i < |r.states|
    ensures Good(r.states[i], rank)
  {
    hide Good, Apply, Enabled, NestsBelow;
    if i == 0 {
      InitialGood(rank);
    } else {
      RunKeepsGood(r, i - 1, rank);
      assert StepAt(r, i - 1) && NestsBelow(r.states[i - 1], r.actions[i - 1], rank);
      StepKeepsGood(r.states[i - 1], r.actions[i - 1], rank);
    }
  }

  /** Nothing was read at a version the tenant did not have yet. */
  ghost predicate ReadsInPast(s: Sys) {
    forall i :: 0 <= i < |s.loads| && s.loads[i].basis.Some? ==>
      s.loads[i].basis.value <= At(s.version, s.loads[i].key.tenant)
  }

  lemma DeliverKeepsPast(s: Sys, id: nat, c: Call, e: nat)
    requires Shaped(s) && ReadsInPast(s) && e < |s.loads| && s.loads[e].key == c.key
    requires c.parent.Some? && c.parent.value < |s.loads| ==> s.loads[c.parent.value].key.tenant == c.key.tenant
    ensures ReadsInPast(Deliver(s, id, c, e)) && Deliver(s, id, c, e).version == s.version
  {
  }

  lemma LockKeepsPast(s: Sys, id: nat, delay: nat)
    requires Inv(s) && Shaped(s) && Enabled(s, Lock(id, delay)) && ReadsInPast(s)
    ensures ReadsInPast(Locked(s, id, delay)) && Locked(s, id, delay).version == s.version
  {
    var c := Entering(s, id);
    CallAt(s, id);
    hide SummaryCache.Started, Deliver, LoadsOk, CallsOk, WritesOk, SingleFlight, OneLoader, FreshOk;
    match Lookup(s.cache, c.key, s.now)
    case Hit(e) => DeliverKeepsPast(s, id, c, e);
    case Join(e) =>
    case Start(e) =>
  }

  lemma FinishKeepsPast(s: Sys, id: nat, value: Value, err: Option<string>)
    requires Inv(s) && Shaped(s) && Enabled(s, Finish(id, value, err)) && ReadsInPast(s)
    ensures ReadsInPast(Finished(s, id, value, err)) && Finished(s, id, value, err).version == s.version
  {
    CallAt(s, id);
    hide Inv, Deliver;
    var p := PublishedIn(s, s.calls[id].pc.e, value, err);
    if err.None? {
      DeliverKeepsPast(p, id, s.calls[id], s.calls[id].pc.e);
    }
  }

  /** A call hands over what it waited for. */
  lemma ReturnKeepsPast(s: Sys, a: Action)
    requires Inv(s) && Shaped(s) && Enabled(s, a) && ReadsInPast(s) && (a.Wake? || a.Evict?)
    ensures ReadsInPast(Apply(s, a)) && Apply(s, a).version == s.version
  {
    CallAt(s, a.id);
    var c := s.calls[a.id];
    var p := if a.Evict? then s.(cache := Evicted(s.cache, c.key, c.pc.e)) else s;
    hide Inv, Deliver;
    DeliverKeepsPast(p, a.id, c, c.pc.e);
  }

  lemma StepKeepsPast(s: Sys, a: Action)
    requires Inv(s) && Shaped(s) && Enabled(s, a) && ReadsInPast(s)
    ensures ReadsInPast(Apply(s, a))
    ensures forall t :: At(s.version, t) <= At(Apply(s, a).version, t)
  {
    hide Inv, Locked, Finished, Deliver, Invalidated, Evicted;
    match a
    case Lock(id, delay) => LockKeepsPast(s, id, delay);
    case Wake(_) => ReturnKeepsPast(s, a);
    case Finish(id, value, err) => FinishKeepsPast(s, id, value, err);
    case Evict(_) => ReturnKeepsPast(s, a);
    case _ =>
  }

  lemma {:induction false} RunKeepsPast(r: Run, i: nat)
    requires IsRun(r) && i < |r.states|
    ensures ReadsInPast(r.states[i])
  {
    hide Inv, Apply, Enabled, ReadsInPast;
    if i == 0 {
      assert ReadsInPast(INITIAL) by { NothingRead(); }
    } else {
      RunKeepsPast(r, i - 1);
      Reachable(r, i - 1);
      assert StepAt(r, i - 1);
      StepKeepsPast(r.states[i - 1], r.actions[i - 1]);
    }
  }

  lemma NothingRead()
    ensures ReadsInPast(INITIAL)
  {
  }

  lemma {:induction false} VersionsGrow(r: Run, i: nat, j: nat, tenant: string)
    requires IsRun(r) && i <= j < |r.states|
    ensures At(r.states[i].version, tenant) <= At(r.states[j].version, tenant)
    decreases j
  {
    hide Inv, Apply, Enabled, ReadsInPast;
    if i < j {
      VersionsGrow(r, i, j - 1, tenant);
      Reachable(r, j - 1);
      RunKeepsPast(r, j - 1);
      assert StepAt(r, j - 1);
      StepKeepsPast(r.states[j - 1], r.actions[j - 1]);
    }
  }

  lemma StateIsShaped(r: Run, i: nat)
    requires IsRun(r) && i < |r.states|
    ensures Shaped(r.states[i])
  {
    Reachable(r, i);
    InvIsShaped(r.states[i]);
  }

  // ------------------------------------------------------------------ the commit

  /** The load has read something, or is about to be handed something that was read. */
  ghost predicate HoldsRows(s: Sys, e: nat)
    requires Shaped(s) && e < |s.loads|
  {
    s.loads[e].basis.Some? || exists id :: HandsRows(s, id, e)
  }

  ghost predicate HandsRows(s: Sys, id: nat, e: nat)
    requires Shaped(s)
  {
    && id in s.calls && s.calls[id].parent == Some(e)
    && (s.calls[id].pc.Waiting? || s.calls[id].pc.Evicting?) && s.calls[id].pc.e < |s.loads|
    && s.cache.heap[s.calls[id].pc.e].ready && s.loads[s.calls[id].pc.e].basis.Some?
  }

  lemma HandsOldOrNothing(s: Sys, id: nat, e: nat, v: nat)
    requires Inv(s) && Shaped(s) && ReadsInPast(s) && e < |s.loads| && v > At(s.version, s.loads[e].key.tenant)
    ensures HandsOld(s, id, e, v) <==> HandsRows(s, id, e)
  {
    if id in s.calls && s.calls[id].parent == Some(e) {
      CallAt(s, id);
    }
  }

  /**
   For a version yet to be committed an entry is stale exactly when it has read anything, or is about to be
   handed something that was read; an entry in use that is finished always is.
   */
  lemma StaleIsRead(s: Sys, tenant: string, e: nat, v: nat)
    requires Inv(s) && Shaped(s) && ReadsInPast(s) && v > At(s.version, tenant) && InUseEntry(s, tenant, e)
    ensures Stale(s, e, v) <==> HoldsRows(s, e)
    ensures s.cache.heap[e].ready ==> HoldsRows(s, e)
  {
    LoadAt(s, e);
    hide Inv, HandsOld, HandsRows;
    forall id
      ensures HandsOld(s, id, e, v) <==> HandsRows(s, id, e)
    {
      HandsOldOrNothing(s, id, e, v);
    }
  }

  /** The version that the commit at `k` makes. */
  function Committed(r: Run, k: nat, tenant: string): nat
    requires k < |r.states|
  {
    At(r.states[k].version, tenant) + 1
  }

  /** Some entry of the tenant is in use and holds rows, or is about to. */
  ghost predicate RowsInUse(s: Sys, tenant: string)
    requires Shaped(s)
  {
    exists e :: InUseEntry(s, tenant, e) && HoldsRows(s, e)
  }

  lemma RowsInUseIff(s: Sys, tenant: string, v: nat)
    requires Inv(s) && Shaped(s) && ReadsInPast(s) && v > At(s.version, tenant)
    ensures RowsInUse(s, tenant) <==> !NothingStale(s, tenant, v)
  {
    hide Inv, InUseEntry, Stale, HoldsRows, ReadsInPast;
    forall e: nat | InUseEntry(s, tenant, e)
      ensures e < |s.loads| && (Stale(s, e, v) <==> HoldsRows(s, e))
    {
      InUseExists(s, tenant, e);
      StaleIsRead(s, tenant, e, v);
    }
  }

  lemma StaleInUseIsHandedOut(s: Sys, tenant: string, v: nat, rank: string -> nat)
    requires Good(s, rank) && !NothingStale(s, tenant, v)
    ensures !AllLaterCallsSee(s, tenant, v)
  {
    var e: nat :| InUseEntry(s, tenant, e) && Stale(s, e, v);
    InUseExists(s, tenant, e);
    hide AllLaterCallsSee, Good, Servable, Stale;
    StaleIsHandedOut(s, s.loads[e].key, v, rank);
  }

  /** A commit leaves the cache, the loads and the calls as they are. */
  lemma CommitChangesNothing(s: Sys, s': Sys, tenant: string, v: nat)
    requires Shaped(s) && Shaped(s') && s'.cache == s.cache && s'.loads == s.loads && s'.calls == s.calls && s'.now == s.now
    ensures NothingStale(s', tenant, v) <==> NothingStale(s, tenant, v)
  {
    forall e
      ensures InUseEntry(s', tenant, e) <==> InUseEntry(s, tenant, e)
      ensures Stale(s', e, v) <==> Stale(s, e, v)
    {
      forall id
        ensures HandsOld(s', id, e, v) <==> HandsOld(s, id, e, v)
      {
      }
      hide HandsOld;
    }
    hide Stale, InUseEntry;
  }

  lemma CommitStepAt(r: Run, k: nat, tenant: string)
    requires IsRun(r) && k < |r.actions| && r.actions[k] == CommitInTransaction(tenant)
    ensures Shaped(r.states[k]) && Shaped(r.states[k + 1])
    ensures r.states[k + 1] == r.states[k].(version := r.states[k].version[tenant := Committed(r, k, tenant)])
    ensures At(r.states[k + 1].version, tenant) == Committed(r, k, tenant)
  {
    StateIsShaped(r, k);
    StateIsShaped(r, k + 1);
    assert StepAt(r, k);
  }

  /** A commit that finds nothing of the tenant in use that holds rows is seen, however calls nest. */
  lemma CommitNotStaleIsSeen(r: Run, k: nat, tenant: string)
    requires IsRun(r) && k < |r.actions| && r.actions[k] == CommitInTransaction(tenant)
    requires Shaped(r.states[k]) && !RowsInUse(r.states[k], tenant)
    ensures AllLaterCallsSee(r.states[k + 1], tenant, Committed(r, k, tenant))
  {
    CommitStepAt(r, k, tenant);
    Reachable(r, k);
    Reachable(r, k + 1);
    RunKeepsPast(r, k);
    hide AllLaterCallsSee, IsRun, Inv, ReadsInPast, Shaped, RowsInUse, NothingStale;
    RowsInUseIff(r.states[k], tenant, Committed(r, k, tenant));
    CommitChangesNothing(r.states[k], r.states[k + 1], tenant, Committed(r, k, tenant));
    NothingStaleAllSee(r.states[k + 1], tenant, Committed(r, k, tenant));
  }

  /**
   Exactly when a write committed inside a transaction is seen: at the commit no entry of the tenant that is in
   use (mapped under the current generation and unfinished, or finished well and not expired) may have read
   anything, nor be about to be handed anything by a nested call. A finished one always has read; a load whose
   queries are still to come has not. Then every later call in every continuation sees the write; otherwise
   some continuation hands rows without it to a call that comes after the commit.
   */
  lemma CommitIsSeenIff(r: Run, k: nat, tenant: string, rank: string -> nat)
    requires IsRun(r) && LayeredRun(r, rank) && k < |r.actions|
    requires r.actions[k] == CommitInTransaction(tenant)
    ensures Shaped(r.states[k])
    ensures AllLaterCallsSee(r.states[k + 1], tenant, Committed(r, k, tenant)) <==> !RowsInUse(r.states[k], tenant)
  {
    CommitStepAt(r, k, tenant);
    Reachable(r, k);
    RunKeepsPast(r, k);
    RunKeepsGood(r, k + 1, rank);
    var v := Committed(r, k, tenant);
    hide AllLaterCallsSee, IsRun, LayeredRun, Inv, Good, ReadsInPast, Shaped, RowsInUse, NothingStale;
    if RowsInUse(r.states[k], tenant) {
      RowsInUseIff(r.states[k], tenant, v);
      CommitChangesNothing(r.states[k], r.states[k + 1], tenant, v);
      StaleInUseIsHandedOut(r.states[k + 1], tenant, v, rank);
    } else {
      CommitNotStaleIsSeen(r, k, tenant);
    }
  }

  // ------------------------------------------------------------------ invalidations before and after

  /** An invalidation of the tenant, or of all, on its own or by a writer that returns. */
  ghost predicate Covers(s: Sys, a: Action, tenant: string) {
    || (a.InvalidateOnly? && a.identity in {tenant, ""})
    || (a.Acknowledge? && a.w in s.writers && s.writers[a.w].identity in {tenant, ""})
  }

  lemma OutdatedIsNotServable(s: Sys, s': Sys, identity: string, key: Key)
    requires EntriesOk(s.cache, s.loads) && Shaped(s')
    requires s'.cache == Invalidated(s.cache, identity) && identity in {key.tenant, ""}
    ensures !Servable(s', key)
  {
    InvalidationOutdates(s.cache, identity);
    InvalidationKeepsMap(s.cache, identity);
    hide Invalidated;
  }

  lemma InvalidationKeepsMap(c: Cache, identity: string)
    ensures Invalidated(c, identity).entries == c.entries && Invalidated(c, identity).heap == c.heap
  {
  }

  lemma CoveredIsNotInUse(s: Sys, a: Action, tenant: string)
    requires Inv(s) && Shaped(s) && Enabled(s, a) && Covers(s, a, tenant) && Shaped(Apply(s, a))
    ensures forall key: Key :: key.tenant == tenant ==> !Servable(Apply(s, a), key)
  {
    hide Servable, Invalidated, LoadsOk, CallsOk, WritesOk, OneLoader, EntriesOk;
    var identity := if a.Acknowledge? then s.writers[a.w].identity else a.identity;
    forall key: Key | key.tenant == tenant
      ensures !Servable(Apply(s, a), key)
    {
      OutdatedIsNotServable(s, Apply(s, a), identity, key);
    }
  }

  lemma {:induction false} RunKeepsSettled(r: Run, i: nat, j: nat, tenant: string, v: nat, m: Moment)
    requires IsRun(r) && i <= j < |r.states| && Settled(r.states[i], tenant, v, m)
    ensures Settled(r.states[j], tenant, v, m)
    decreases j
  {
    hide Inv, Settled, Apply, Enabled;
    if i < j {
      RunKeepsSettled(r, i, j - 1, tenant, v, m);
      Reachable(r, j - 1);
      assert StepAt(r, j - 1);
      StepKeepsSettled(r.states[j - 1], r.actions[j - 1], tenant, v, m);
    }
  }

  lemma CoveredAt(r: Run, i: nat, tenant: string)
    requires IsRun(r) && i < |r.actions| && Shaped(r.states[i]) && Covers(r.states[i], r.actions[i], tenant)
    ensures Shaped(r.states[i + 1]) && forall key: Key :: key.tenant == tenant ==> !Servable(r.states[i + 1], key)
  {
    hide Inv, Apply, Enabled, Shaped, Covers, Servable;
    Reachable(r, i);
    assert StepAt(r, i);
    StateIsShaped(r, i + 1);
    CoveredIsNotInUse(r.states[i], r.actions[i], tenant);
  }

  lemma SettledServesNew(s: Sys, key: Key, v: nat, m: Moment)
    requires Settled(s, key.tenant, v, m) && Servable(s, key)
    ensures key in s.cache.entries && m.New(s.cache.entries[key])
  {
  }

  lemma NothingOpen(s: Sys, tenant: string)
    requires Shaped(s) && forall key: Key :: key.tenant == tenant ==> !Servable(s, key)
    ensures OpenLoads(s, tenant) == {} && NothingStale(s, tenant, 0)
  {
    hide Servable, Stale;
    assert forall e: nat :: !InUseEntry(s, tenant, e);
    hide InUseEntry;
    assert forall id, d: nat :: !NestedInUse(s, tenant, id, d);
    hide NestedInUse;
  }

  /** What is in use after a covering invalidation was loaded since. */
  lemma InUseWasStartedSince(r: Run, i: nat, k: nat, tenant: string, e: nat)
    requires IsRun(r) && i < k < |r.states| && Shaped(r.states[i]) && Shaped(r.states[k])
    requires Covers(r.states[i], r.actions[i], tenant) && InUseEntry(r.states[k], tenant, e)
    ensures e >= |r.states[i + 1].loads|
  {
    hide Inv, Apply, Enabled, Shaped, Covers, Servable, Settled, OpenLoads;
    var s := r.states[i + 1];
    CoveredAt(r, i, tenant);
    Reachable(r, i + 1);
    NothingOpen(s, tenant);
    SettlesAt(s, tenant, 0);
    RunKeepsSettled(r, i + 1, k, tenant, 0, Now(s, tenant));
    SettledServesNew(r.states[k], r.states[k].loads[e].key, 0, Now(s, tenant));
  }

  /** A load of the tenant that was started after step `i`, is in use before step `k` and holds rows by then. */
  ghost predicate ReadSinceAndInUse(r: Run, i: nat, k: nat, tenant: string, e: nat)
    requires i + 1 < |r.states| && k < |r.states| && Shaped(r.states[k])
  {
    |r.states[i + 1].loads| <= e && InUseEntry(r.states[k], tenant, e) && HoldsRows(r.states[k], e)
  }

  /** Between the covering invalidation and the commit, in use means loaded since. */
  lemma RowsInUseIffReadSince(r: Run, i: nat, k: nat, tenant: string)
    requires IsRun(r) && i < k < |r.states| && Shaped(r.states[i]) && Shaped(r.states[k])
    requires Covers(r.states[i], r.actions[i], tenant)
    ensures RowsInUse(r.states[k], tenant) <==> exists e :: ReadSinceAndInUse(r, i, k, tenant, e)
  {
    hide Shaped, Covers, HoldsRows, IsRun;
    var s := r.states[k];
    if RowsInUse(s, tenant) {
      var e :| InUseEntry(s, tenant, e) && HoldsRows(s, e);
      InUseWasStartedSince(r, i, k, tenant, e);
      assert ReadSinceAndInUse(r, i, k, tenant, e);
    }
  }

  /**
   The writer that invalidates at `i` and commits at `k`: its write is seen by every call that takes the lock
   after the commit, in every continuation, if and only if no load started between the two is in use at the
   commit and has read, or is about to be handed, anything by then. Any covering invalidation before the commit
   may take the part of the writer's own.
   */
  lemma WriteIsSeenUnlessLoadedBetween(r: Run, i: nat, k: nat, tenant: string, rank: string -> nat)
    requires IsRun(r) && LayeredRun(r, rank) && i < k < |r.actions|
    requires Covers(r.states[i], r.actions[i], tenant) && r.actions[k] == CommitInTransaction(tenant)
    ensures Shaped(r.states[k])
    ensures AllLaterCallsSee(r.states[k + 1], tenant, Committed(r, k, tenant)) <==>
            !exists e :: ReadSinceAndInUse(r, i, k, tenant, e)
  {
    hide AllLaterCallsSee, LayeredRun, Covers, Shaped, StepAt, RowsInUse, ReadSinceAndInUse;
    CommitIsSeenIff(r, k, tenant, rank);
    StateIsShaped(r, i);
    RowsInUseIffReadSince(r, i, k, tenant);
  }

  /** In particular: without a load of the tenant in between, the write is always seen. */
  lemma WriteIsSeenWithoutLoads(r: Run, i: nat, k: nat, tenant: string)
    requires IsRun(r) && i < k < |r.actions|
    requires Covers(r.states[i], r.actions[i], tenant) && r.actions[k] == CommitInTransaction(tenant)
    requires forall e :: |r.states[i + 1].loads| <= e < |r.states[k].loads| ==> r.states[k].loads[e].key.tenant != tenant
    ensures AllLaterCallsSee(r.states[k + 1], tenant, Committed(r, k, tenant))
  {
    hide AllLaterCallsSee, Covers, Shaped, Servable, HoldsRows, RowsInUse, StepAt;
    StateIsShaped(r, i);
    StateIsShaped(r, k);
    RowsInUseIffReadSince(r, i, k, tenant);
    CommitNotStaleIsSeen(r, k, tenant);
  }

  /**
   The repair: a covering invalidation after the commit restores the guarantee. From then on every call that
   takes the lock sees the write, in every continuation.
   */
  lemma InvalidationRepairs(r: Run, k: nat, j: nat, tenant: string)
    requires IsRun(r) && k < j < |r.actions|
    requires r.actions[k] == CommitInTransaction(tenant) && Covers(r.states[j], r.actions[j], tenant)
    ensures AllLaterCallsSee(r.states[j + 1], tenant, Committed(r, k, tenant))
  {
    hide AllLaterCallsSee, Inv, Servable, Shaped, Covers;
    StateIsShaped(r, j);
    CoveredAt(r, j, tenant);
    Reachable(r, j + 1);
    CommitStepAt(r, k, tenant);
    VersionsGrow(r, k + 1, j + 1, tenant);
    NothingServableAllSee(r.states[j + 1], tenant, Committed(r, k, tenant));
  }

  // ------------------------------------------------------------------ loads in between that do no harm

  lemma NothingInUse(s: Sys, tenant: string)
    requires Shaped(s) && forall key: Key :: key.tenant == tenant ==> !Servable(s, key)
    ensures !RowsInUse(s, tenant)
  {
    hide Servable;
  }

  /** A load that has read and failed is not in use when the writer commits. */
  lemma FailedLoadDoesNoHarm() returns (r: Run)
    ensures IsRun(r) && |r.actions| == 6
    ensures r.actions[0] == InvalidateOnly("acme") && r.actions[5] == CommitInTransaction("acme")
    ensures |r.states[1].loads| == 0 && |r.states[5].loads| == 1 && r.states[5].loads[0].key.tenant == "acme"
    ensures r.states[5].loads[0].basis.Some?
    ensures AllLaterCallsSee(r.states[6], "acme", Committed(r, 5, "acme"))
  {
    var r4 := LoadReads();
    var finish := Finish(0, 0, Some("timeout"));
    RunExtends(r4, finish);
    var r5 := Run(r4.states + [Apply(r4.states[4], finish)], r4.actions + [finish]);
    assert r5.states[5].cache.heap == [Entry(1, TTL, 0, Some("timeout"), true)];
    RunExtends(r5, CommitInTransaction("acme"));
    r := Run(r5.states + [Apply(r5.states[5], CommitInTransaction("acme"))], r5.actions + [CommitInTransaction("acme")]);
    assert r.states[1].loads == [] by { assert StepAt(r, 0); }
    NothingInUse(r.states[5], "acme");
    hide AllLaterCallsSee, IsRun;
    CommitNotStaleIsSeen(r, 5, "acme");
  }

  /** A load in progress whose query is still to come at the commit is in use, and does no harm. */
  lemma UnreadLoadDoesNoHarm() returns (r: Run)
    ensures IsRun(r) && |r.actions| == 4
    ensures r.actions[0] == InvalidateOnly("acme") && r.actions[3] == CommitInTransaction("acme")
    ensures Shaped(r.states[3]) && InUseEntry(r.states[3], "acme", 0) && r.states[1].loads == []
    ensures AllLaterCallsSee(r.states[4], "acme", Committed(r, 3, "acme"))
  {
    var r3 := LoadStarts();
    RunExtends(r3, CommitInTransaction("acme"));
    r := Run(r3.states + [Apply(r3.states[3], CommitInTransaction("acme"))], r3.actions + [CommitInTransaction("acme")]);
    assert r.states[3] == r3.states[3];
    assert InUseEntry(r.states[3], "acme", 0);
    hide AllLaterCallsSee, IsRun;
    CommitNotStaleIsSeen(r, 3, "acme");
  }
}
