/**
 What the calls that come from some moment on are going to see: once the map holds no entry of the tenant
 that a caller would be served from or made to wait for and that has read, or is about to be handed, an older
 version, no step of anybody brings an older value back.
 */
module CacheLater {
  import opened Prelude
  import opened SummaryCache
  import opened CacheRuns
  import opened CacheGuarantees

  // ------------------------------------------------------------------ continuations

  ghost predicate Possible(s: Sys, run: seq<Action>)
    decreases |run|
  {
    Shaped(s) && (run == [] || (Enabled(s, run[0]) && Possible(Apply(s, run[0]), run[1..])))
  }

  ghost function After(s: Sys, run: seq<Action>): Sys
    requires Possible(s, run)
    decreases |run|
  {
    if run == [] then s else After(Apply(s, run[0]), run[1..])
  }

  lemma {:induction false} ContinuationKeepsInv(s: Sys, run: seq<Action>)
    requires Inv(s) && Possible(s, run)
    ensures Inv(After(s, run))
    decreases |run|
  {
    hide Inv, Apply, Enabled, Shaped;
    if run != [] {
      StepKeepsInv(s, run[0]);
      ContinuationKeepsInv(Apply(s, run[0]), run[1..]);
    }
  }

  /** Wherever a call has been, its key and tenant stay. */
  lemma {:induction false} ContinuationKeepsCall(s: Sys, run: seq<Action>, id: nat)
    requires Possible(s, run) && id in s.calls && !s.calls[id].pc.Calling?
    ensures id in After(s, run).calls && After(s, run).calls[id].key == s.calls[id].key
    ensures !After(s, run).calls[id].pc.Calling?
    decreases |run|
  {
    hide Apply, Enabled, Shaped;
    if run != [] {
      assert Shaped(s) && Enabled(s, run[0]);
      StepKeepsCall(s, run[0], id);
      ContinuationKeepsCall(Apply(s, run[0]), run[1..], id);
    }
  }

  // ------------------------------------------------------------------ what callers would be handed

  /** Not finished, or finished well and not expired. */
  predicate Usable(e: Entry, now: int) { e.ready ==> e.err == None && now < e.expires }

  /** A caller with this key would be served from the map or wait for a load in it. */
  ghost predicate Servable(s: Sys, key: Key)
    requires Shaped(s)
  {
    && key in s.cache.entries
    && s.cache.heap[s.cache.entries[key]].gen == At(s.cache.gen, key.tenant)
    && Usable(s.cache.heap[s.cache.entries[key]], s.now)
  }

  lemma LookupServes(s: Sys, key: Key)
    requires Shaped(s)
    ensures Lookup(s.cache, key, s.now).Start? <==> !Servable(s, key)
    ensures Servable(s, key) ==>
              Lookup(s.cache, key, s.now) == if s.cache.heap[s.cache.entries[key]].ready
                                             then Hit(s.cache.entries[key]) else Join(s.cache.entries[key])
  {
  }

  /** What call `id` returned, if it has returned, was read from rows of version `v` or later throughout. */
  ghost predicate Sees(s: Sys, id: nat, v: nat) {
    id in s.calls && s.calls[id].pc.Returned? ==> Since(s.calls[id].pc.answer.basis, v)
  }

  /** Of the calls of `tenant` that take the lock from now on, the one that takes it after `before`. */
  ghost predicate LaterCallSees(s: Sys, tenant: string, v: nat,
                                before: seq<Action>, id: nat, delay: nat, rest: seq<Action>)
  {
    Possible(s, before) ==>
      var mid := After(s, before);
      Shaped(mid) && Enabled(mid, Lock(id, delay)) && mid.calls[id].key.tenant == tenant ==>
        Possible(Apply(mid, Lock(id, delay)), rest) ==>
          Sees(After(Apply(mid, Lock(id, delay)), rest), id, v)
  }

  /** In every continuation every call of `tenant` that takes the lock from now on sees version `v`. */
  ghost predicate AllLaterCallsSee(s: Sys, tenant: string, v: nat) {
    forall before: seq<Action>, id: nat, delay: nat, rest: seq<Action> ::
      LaterCallSees(s, tenant, v, before, id, delay, rest)
  }

  // ------------------------------------------------------------------ entries that hold something old

  /** A nested call is about to hand the load of `e` a finished entry that was read before version `v`. */
  ghost predicate HandsOld(s: Sys, id: nat, e: nat, v: nat)
    requires Shaped(s)
  {
    && id in s.calls && s.calls[id].parent == Some(e)
    && (s.calls[id].pc.Waiting? || s.calls[id].pc.Evicting?) && s.calls[id].pc.e < |s.loads|
    && s.cache.heap[s.calls[id].pc.e].ready && !Since(s.loads[s.calls[id].pc.e].basis, v)
  }

  /** The entry holds, or its load is about to be handed, something older than version `v`. */
  ghost predicate Stale(s: Sys, e: nat, v: nat)
    requires Shaped(s)
  {
    e < |s.loads| && (!Since(s.loads[e].basis, v) || exists id :: HandsOld(s, id, e, v))
  }

  // ------------------------------------------------------------------ once nothing old can be handed out

  /**
   A moment: how many loads there were, those of them that later calls may get, and the calls that had had the
   lock and worked for none of these.
   */
  datatype Moment = Moment(loads: nat, open: set<nat>, early: set<nat>) {
    predicate New(e: nat) { e >= loads || e in open }
  }

  /** Nothing that a later call may get was read before version `v`. */
  ghost predicate NewLoadsSee(s: Sys, tenant: string, v: nat, m: Moment) {
    forall i :: 0 <= i < |s.loads| && m.New(i) && s.loads[i].key.tenant == tenant ==> Since(s.loads[i].basis, v)
  }

  ghost predicate OnlyNewServable(s: Sys, tenant: string, m: Moment)
    requires Shaped(s)
  {
    forall key: Key :: key in s.cache.entries && key.tenant == tenant && Servable(s, key) ==> m.New(s.cache.entries[key])
  }

  /** A call is attached to one of the new loads, or returned what was read since. */
  ghost predicate OnNew(c: Call, v: nat, m: Moment) {
    match c.pc
    case Calling => true
    case Waiting(e) => m.New(e)
    case Loading(e) => m.New(e)
    case Evicting(e) => m.New(e)
    case Returned(a) => Since(a.basis, v)
  }

  ghost predicate LateCallsOnNew(s: Sys, tenant: string, v: nat, m: Moment) {
    forall id :: id in s.calls && id !in m.early && s.calls[id].key.tenant == tenant ==> OnNew(s.calls[id], v, m)
  }

  /** Early calls have had the lock, and none of them works for a new load. */
  ghost predicate EarlyCalls(s: Sys, m: Moment) {
    forall id :: id in m.early ==>
      id in s.calls && !s.calls[id].pc.Calling? && (s.calls[id].parent.Some? ==> !m.New(s.calls[id].parent.value))
  }

  ghost predicate Settled(s: Sys, tenant: string, v: nat, m: Moment) {
    && Shaped(s) && m.loads <= |s.loads|
    && v <= At(s.version, tenant)
    && NewLoadsSee(s, tenant, v, m)
    && OnlyNewServable(s, tenant, m)
    && LateCallsOnNew(s, tenant, v, m)
    && EarlyCalls(s, m)
  }

  /** The entry is in the map and in use. */
  ghost predicate InUseEntry(s: Sys, tenant: string, e: nat)
    requires Shaped(s)
  {
    && e < |s.loads| && s.loads[e].key.tenant == tenant
    && s.loads[e].key in s.cache.entries && s.cache.entries[s.loads[e].key] == e
    && Servable(s, s.loads[e].key)
  }

  predicate AttachedCall(c: Call, e: nat) {
    c.pc in {Waiting(e), Loading(e), Evicting(e)}
  }

  /** A nested call of an entry in use is attached to `d`. */
  ghost predicate NestedInUse(s: Sys, tenant: string, id: nat, d: nat)
    requires Shaped(s)
  {
    && id in s.calls && s.calls[id].parent.Some? && InUseEntry(s, tenant, s.calls[id].parent.value)
    && AttachedCall(s.calls[id], d)
  }

  /** What a later call may get: entries in use, and what their nested calls are attached to. */
  ghost function OpenLoads(s: Sys, tenant: string): set<nat>
    requires Shaped(s)
  {
    set e | 0 <= e < |s.loads| && (InUseEntry(s, tenant, e) || exists id :: NestedInUse(s, tenant, id, e))
  }

  ghost function Now(s: Sys, tenant: string): Moment
    requires Shaped(s)
  {
    var open := OpenLoads(s, tenant);
    Moment(|s.loads|, open,
           set id | id in s.calls && !s.calls[id].pc.Calling? &&
                    !(s.calls[id].parent.Some? && s.calls[id].parent.value in open))
  }

  ghost predicate NothingStale(s: Sys, tenant: string, v: nat)
    requires Shaped(s)
  {
    forall e :: InUseEntry(s, tenant, e) ==> !Stale(s, e, v)
  }

  /** An unfinished load that a nested call of an entry in use is attached to is in use itself. */
  lemma {:induction false} UnfinishedIsInUse(s: Sys, tenant: string, id: nat, d: nat)
    requires Inv(s) && Shaped(s) && NestedInUse(s, tenant, id, d) && d < |s.loads| && !s.cache.heap[d].ready
    ensures InUseEntry(s, tenant, d)
  {
    CallAt(s, id);
    NeverAhead(s, d);
    hide LoadsOk, CallsOk, WritesOk, OneLoader, FreshOk, SingleFlight;
    assert Mapped(s.cache, s.loads[d].key, d);
  }

  /** Nested calls that have returned handed over nothing their load does not hold. */
  lemma {:induction false} ReturnedHanded(s: Sys, id: nat, v: nat)
    requires Inv(s) && id in s.calls && s.calls[id].parent.Some? && s.calls[id].pc.Returned?
    requires s.calls[id].parent.value < |s.loads| && Since(s.loads[s.calls[id].parent.value].basis, v)
    ensures Since(s.calls[id].pc.answer.basis, v)
  {
    CallAt(s, id);
  }

  lemma {:induction false} OpenIsSince(s: Sys, tenant: string, v: nat, e: nat)
    requires Inv(s) && Shaped(s) && NothingStale(s, tenant, v) && e in OpenLoads(s, tenant)
    ensures e < |s.loads| && Since(s.loads[e].basis, v)
  {
    hide Inv, InUseEntry;
    if !InUseEntry(s, tenant, e) {
      var id :| NestedInUse(s, tenant, id, e);
      var p := s.calls[id].parent.value;
      if s.cache.heap[e].ready {
        if s.calls[id].pc.Loading? {
          LoadingIsUnfinished(s, id);
        }
        assert !Stale(s, p, v);
        assert p < |s.loads| by { InUseExists(s, tenant, p); }
        assert !HandsOld(s, id, p, v);
      } else {
        UnfinishedIsInUse(s, tenant, id, e);
      }
    }
  }

  lemma InUseExists(s: Sys, tenant: string, e: nat)
    requires Shaped(s) && InUseEntry(s, tenant, e)
    ensures e < |s.loads|
  {
  }

  lemma LoadingIsUnfinished(s: Sys, id: nat)
    requires Inv(s) && id in s.calls && s.calls[id].pc.Loading?
    ensures s.calls[id].pc.e < |s.loads| == |s.cache.heap| && !s.cache.heap[s.calls[id].pc.e].ready
  {
    CallAt(s, id);
  }

  /** What a nested call of an open load is attached to is open. */
  lemma {:induction false} OpenIsClosed(s: Sys, tenant: string, id: nat, d: nat)
    requires Inv(s) && Shaped(s) && id in s.calls && s.calls[id].parent.Some?
    requires s.calls[id].parent.value in OpenLoads(s, tenant) && AttachedCall(s.calls[id], d)
    ensures d in OpenLoads(s, tenant)
  {
    var p := s.calls[id].parent.value;
    CallAt(s, id);
    if !InUseEntry(s, tenant, p) {
      var outer :| NestedInUse(s, tenant, outer, p);
      UnfinishedIsInUse(s, tenant, outer, p);
    }
    hide Inv, InUseEntry;
    assert NestedInUse(s, tenant, id, d);
  }

  lemma {:induction false} SettlesAt(s: Sys, tenant: string, v: nat)
    requires Inv(s) && Shaped(s) && v <= At(s.version, tenant) && NothingStale(s, tenant, v)
    ensures Settled(s, tenant, v, Now(s, tenant))
  {
    var m := Now(s, tenant);
    forall key: Key | key in s.cache.entries && key.tenant == tenant && Servable(s, key)
      ensures m.New(s.cache.entries[key])
    {
      MappedLoad(s, key);
      assert InUseEntry(s, tenant, s.cache.entries[key]);
    }
    forall i | 0 <= i < |s.loads| && m.New(i)
      ensures Since(s.loads[i].basis, v)
    {
      OpenIsSince(s, tenant, v, i);
    }
    forall id | id in s.calls && id !in m.early && s.calls[id].key.tenant == tenant
      ensures OnNew(s.calls[id], v, m)
    {
      LateAtFirst(s, id, tenant, v);
    }
    forall id | id in m.early && s.calls[id].parent.Some?
      ensures !m.New(s.calls[id].parent.value)
    {
      CallAt(s, id);
    }
  }

  lemma {:induction false} LateAtFirst(s: Sys, id: nat, tenant: string, v: nat)
    requires Inv(s) && Shaped(s) && NothingStale(s, tenant, v)
    requires id in s.calls && id !in Now(s, tenant).early
    ensures OnNew(s.calls[id], v, Now(s, tenant))
  {
    hide Inv, NothingStale, OpenLoads;
    var c := s.calls[id];
    match c.pc
    case Calling =>
    case Waiting(e) => OpenIsClosed(s, tenant, id, e);
    case Loading(e) => OpenIsClosed(s, tenant, id, e);
    case Evicting(e) => OpenIsClosed(s, tenant, id, e);
    case Returned(a) =>
      OpenIsSince(s, tenant, v, c.parent.value);
      ReturnedHanded(s, id, v);
  }

  lemma MappedLoad(s: Sys, key: Key)
    requires Inv(s) && key in s.cache.entries
    ensures s.cache.entries[key] < |s.loads| && s.loads[s.cache.entries[key]].key == key
  {
  }

  ghost predicate SameHistory(s: Sys, s': Sys) {
    && |s'.loads| == |s.loads|
    && (forall i :: 0 <= i < |s.loads| ==>
          (s'.loads[i].key, s'.loads[i].basis) == (s.loads[i].key, s.loads[i].basis))
  }

  ghost predicate ServesNoMore(s: Sys, s': Sys)
    requires Shaped(s) && Shaped(s')
  {
    forall key: Key :: key in s'.cache.entries && Servable(s', key) ==>
      key in s.cache.entries && Servable(s, key) && s'.cache.entries[key] == s.cache.entries[key]
  }

  /** No load was started, no call moved, and nothing became servable. */
  lemma SettledKept(s: Sys, s': Sys, tenant: string, v: nat, m: Moment)
    requires Settled(s, tenant, v, m) && Shaped(s')
    requires SameHistory(s, s') && s'.calls == s.calls && v <= At(s'.version, tenant)
    requires ServesNoMore(s, s')
    ensures Settled(s', tenant, v, m)
  {
    hide Servable;
    assert OnlyNewServable(s', tenant, m);
    forall i | 0 <= i < |s'.loads| && m.New(i) && s'.loads[i].key.tenant == tenant
      ensures Since(s'.loads[i].basis, v)
    {
      assert (s'.loads[i].key, s'.loads[i].basis) == (s.loads[i].key, s.loads[i].basis);
    }
  }

  lemma InvalidationServesLess(s: Sys, s': Sys, identity: string, key: Key)
    requires Inv(s) && Shaped(s) && Shaped(s')
    requires s'.cache == Invalidated(s.cache, identity) && s'.loads == s.loads && s'.now == s.now
    requires Servable(s', key)
    ensures key in s'.cache.entries && key in s.cache.entries
    ensures Servable(s, key) && s'.cache.entries[key] == s.cache.entries[key]
  {
    InvalidationOutdates(s.cache, identity);
  }

  lemma DeliverKeepsSettled(s: Sys, id: nat, c: Call, e: nat, tenant: string, v: nat, m: Moment)
    requires Settled(s, tenant, v, m) && e < |s.loads| && s.loads[e].key == c.key
    requires id !in m.early && c.key.tenant == tenant ==> m.New(e)
    requires id in m.early ==> id in s.calls && s.calls[id].parent == c.parent
    requires c.parent.Some? && c.parent.value < |s.loads| ==> s.loads[c.parent.value].key.tenant == c.key.tenant
    ensures Settled(Deliver(s, id, c, e), tenant, v, m)
  {
    var s' := Deliver(s, id, c, e);
    assert s'.cache == s.cache && s'.now == s.now && s'.version == s.version && |s'.loads| == |s.loads|;
    forall key | key in s.cache.entries
      ensures Servable(s', key) <==> Servable(s, key)
    {
    }
    hide Servable;
    forall i | 0 <= i < |s'.loads| && m.New(i) && s'.loads[i].key.tenant == tenant
      ensures Since(s'.loads[i].basis, v)
    {
      assert s.loads[i].key.tenant == tenant;
    }
  }

  lemma BeginKeepsSettled(s: Sys, id: nat, key: Key, parent: Option<nat>, tenant: string, v: nat, m: Moment)
    requires Settled(s, tenant, v, m) && Enabled(s, Begin(id, key, parent))
    ensures Settled(Apply(s, Begin(id, key, parent)), tenant, v, m)
  {
    var s' := Apply(s, Begin(id, key, parent));
    assert forall k: Key :: Servable(s', k) <==> Servable(s, k);
    hide Servable;
  }

  /** Joining a load or starting one, before the purge. */
  lemma AttachKeepsSettled(s: Sys, s': Sys, id: nat, c: Call, tenant: string, v: nat, m: Moment)
    requires Settled(s, tenant, v, m) && Shaped(s') && id !in m.early
    requires s'.calls == s.calls[id := c] && (c.key.tenant == tenant ==> OnNew(c, v, m))
    requires s'.version == s.version && |s.loads| <= |s'.loads| && s'.loads[..|s.loads|] == s.loads
    requires forall i :: |s.loads| <= i < |s'.loads| && s'.loads[i].key.tenant == tenant ==>
      Since(s'.loads[i].basis, v)
    requires forall key: Key :: Servable(s', key) ==>
      s'.cache.entries[key] >= |s.loads| || (Servable(s, key) && s'.cache.entries[key] == s.cache.entries[key])
    ensures Settled(s', tenant, v, m)
  {
    forall i | 0 <= i < |s'.loads| && m.New(i) && s'.loads[i].key.tenant == tenant
      ensures Since(s'.loads[i].basis, v)
    {
      if i < |s.loads| {
        assert s'.loads[..|s.loads|][i] == s.loads[i];
      }
    }
  }

  /** The state after a call has started a load and the map has been purged. */
  lemma StartKeepsSettled(s: Sys, id: nat, delay: nat, tenant: string, v: nat, m: Moment)
    requires Settled(s, tenant, v, m) && Enabled(s, Lock(id, delay))
    requires Lookup(s.cache, s.calls[id].key, s.now).Start?
    ensures Settled(Locked(s, id, delay), tenant, v, m)
  {
    var s' := Locked(s, id, delay);
    assert |s'.cache.heap| == |s.cache.heap| + 1;
    forall key: Key | Servable(s', key)
      ensures s'.cache.entries[key] >= |s.loads| ||
              (Servable(s, key) && s'.cache.entries[key] == s.cache.entries[key])
    {
      if key != s.calls[id].key {
        assert s'.cache.heap[s.cache.entries[key]] == s.cache.heap[s.cache.entries[key]];
      }
    }
    hide Servable, Lookup, SummaryCache.Started;
    AttachKeepsSettled(s, s', id, s'.calls[id], tenant, v, m);
  }

  lemma LockKeepsSettled(s: Sys, id: nat, delay: nat, tenant: string, v: nat, m: Moment)
    requires Inv(s) && Settled(s, tenant, v, m) && Enabled(s, Lock(id, delay))
    ensures Settled(Locked(s, id, delay), tenant, v, m)
  {
    var key := s.calls[id].key;
    LookupServes(s, key);
    CallAt(s, id);
    hide Inv, Lookup, Deliver, CallOk;
    match Lookup(s.cache, key, s.now)
    case Hit(e) =>
      DeliverKeepsSettled(s, id, Entering(s, id), e, tenant, v, m);
    case Join(e) =>
      var c := Entering(s, id).(pc := Waiting(e));
      var s' := s.(calls := s.calls[id := c]);
      assert forall k: Key :: Servable(s', k) <==> Servable(s, k);
      AttachKeepsSettled(s, s', id, c, tenant, v, m);
    case Start(e) =>
      StartKeepsSettled(s, id, delay, tenant, v, m);
  }

  lemma WakeKeepsSettled(s: Sys, id: nat, tenant: string, v: nat, m: Moment)
    requires Inv(s) && Settled(s, tenant, v, m) && Enabled(s, Wake(id))
    ensures Settled(Apply(s, Wake(id)), tenant, v, m)
  {
    CallAt(s, id);
    hide Inv, Deliver, Servable;
    DeliverKeepsSettled(s, id, s.calls[id], s.calls[id].pc.e, tenant, v, m);
  }

  lemma SameMapServes(s: Sys, s': Sys)
    requires Shaped(s) && Shaped(s') && s'.cache == s.cache && s'.now == s.now
    ensures ServesNoMore(s, s')
  {
  }

  /** A query of a new load sees what is committed by now. */
  lemma ReadKeepsSettled(s: Sys, id: nat, tenant: string, v: nat, m: Moment)
    requires Settled(s, tenant, v, m) && Enabled(s, Read(id))
    ensures Settled(Apply(s, Read(id)), tenant, v, m)
  {
    var s' := Apply(s, Read(id));
    SameMapServes(s, s');
    hide Servable;
    assert OnlyNewServable(s', tenant, m);
    forall i | 0 <= i < |s'.loads| && m.New(i) && s'.loads[i].key.tenant == tenant
      ensures Since(s'.loads[i].basis, v)
    {
      assert s.loads[i].key.tenant == tenant;
    }
  }

  lemma EvictServesNoMore(s: Sys, key: Key, e: nat)
    requires Shaped(s) && Shaped(s.(cache := Evicted(s.cache, key, e)))
    ensures ServesNoMore(s, s.(cache := Evicted(s.cache, key, e)))
  {
  }

  lemma EvictKeepsSettled(s: Sys, id: nat, tenant: string, v: nat, m: Moment)
    requires Inv(s) && Settled(s, tenant, v, m) && Enabled(s, Evict(id))
    ensures Settled(Apply(s, Evict(id)), tenant, v, m)
  {
    CallAt(s, id);
    var c := s.calls[id];
    var s' := s.(cache := Evicted(s.cache, c.key, c.pc.e));
    EvictServesNoMore(s, c.key, c.pc.e);
    hide Inv, Deliver, Servable, ServesNoMore, NewLoadsSee, OnlyNewServable, LateCallsOnNew, EarlyCalls;
    SettledKept(s, s', tenant, v, m);
    DeliverKeepsSettled(s', id, c, c.pc.e, tenant, v, m);
  }

  /** The state in which a load has just been published. */
  function PublishedIn(s: Sys, e: nat, value: Value, err: Option<string>): Sys
    requires Shaped(s) && e < |s.loads|
  {
    s.(cache := Published(s.cache, e, value, err, s.now), loads := s.loads[e := s.loads[e].(finishedAt := s.now)])
  }

  lemma PublishServesNoMore(s: Sys, e: nat, value: Value, err: Option<string>)
    requires Shaped(s) && e < |s.loads| && !s.cache.heap[e].ready
    ensures Shaped(PublishedIn(s, e, value, err)) && ServesNoMore(s, PublishedIn(s, e, value, err))
    ensures SameHistory(s, PublishedIn(s, e, value, err))
  {
  }

  /** A load finishes; its entry was servable before, so it is a new one if it is the tenant's and current. */
  lemma PublishKeepsSettled(s: Sys, id: nat, value: Value, err: Option<string>, tenant: string, v: nat, m: Moment)
    requires Inv(s) && Settled(s, tenant, v, m) && Enabled(s, Finish(id, value, err))
    ensures Settled(PublishedIn(s, s.calls[id].pc.e, value, err), tenant, v, m)
  {
    CallAt(s, id);
    hide Inv, Servable, ServesNoMore, SameHistory, NewLoadsSee, OnlyNewServable, LateCallsOnNew, EarlyCalls;
    PublishServesNoMore(s, s.calls[id].pc.e, value, err);
    SettledKept(s, PublishedIn(s, s.calls[id].pc.e, value, err), tenant, v, m);
  }

  lemma FinishKeepsSettled(s: Sys, id: nat, value: Value, err: Option<string>, tenant: string, v: nat, m: Moment)
    requires Inv(s) && Settled(s, tenant, v, m) && Enabled(s, Finish(id, value, err))
    ensures Settled(Finished(s, id, value, err), tenant, v, m)
  {
    var c, e := s.calls[id], s.calls[id].pc.e;
    var s' := PublishedIn(s, e, value, err);
    PublishKeepsSettled(s, id, value, err, tenant, v, m);
    CallAt(s, id);
    hide Inv, Servable, Published, Deliver, NewLoadsSee, OnlyNewServable, LateCallsOnNew, EarlyCalls;
    if err.Some? {
      EvictingKeepsSettled(s', id, tenant, v, m);
    } else {
      DeliverKeepsSettled(s', id, c, e, tenant, v, m);
    }
  }

  lemma EvictingKeepsSettled(s: Sys, id: nat, tenant: string, v: nat, m: Moment)
    requires Settled(s, tenant, v, m) && id in s.calls && s.calls[id].pc.Loading?
    ensures Settled(s.(calls := s.calls[id := s.calls[id].(pc := Evicting(s.calls[id].pc.e))]), tenant, v, m)
  {
    var s' := s.(calls := s.calls[id := s.calls[id].(pc := Evicting(s.calls[id].pc.e))]);
    assert forall key: Key :: Servable(s', key) <==> Servable(s, key);
    hide Servable;
  }

  lemma WritesKeepSettled(s: Sys, a: Action, tenant: string, v: nat, m: Moment)
    requires Inv(s) && Settled(s, tenant, v, m) && Enabled(s, a)
    requires a.Tick? || a.Commit? || a.Acknowledge? || a.CommitInTransaction? || a.InvalidateOnly?
    ensures Settled(Apply(s, a), tenant, v, m)
  {
    SettledVersion(s, tenant, v, m);
    WritesServeNoMore(s, a);
    hide Inv, Settled, ServesNoMore;
    SettledKept(s, Apply(s, a), tenant, v, m);
  }

  lemma InvalidationServesNoMore(s: Sys, s': Sys, identity: string)
    requires Inv(s) && Shaped(s) && Shaped(s')
    requires s'.cache == Invalidated(s.cache, identity) && s'.loads == s.loads && s'.now == s.now
    ensures ServesNoMore(s, s')
  {
    hide Inv, Servable, Invalidated;
    forall key: Key | key in s'.cache.entries && Servable(s', key)
      ensures key in s.cache.entries && Servable(s, key) && s'.cache.entries[key] == s.cache.entries[key]
    {
      InvalidationServesLess(s, s', identity, key);
    }
  }

  lemma LaterServesNoMore(s: Sys, s': Sys)
    requires Shaped(s) && Shaped(s') && s'.cache == s.cache && s.now <= s'.now
    ensures ServesNoMore(s, s')
  {
  }

  lemma WritesServeNoMore(s: Sys, a: Action)
    requires Inv(s) && Shaped(s) && Enabled(s, a)
    requires a.Tick? || a.Commit? || a.Acknowledge? || a.CommitInTransaction? || a.InvalidateOnly?
    ensures Shaped(Apply(s, a)) && ServesNoMore(s, Apply(s, a))
  {
    hide Inv, ServesNoMore;
    InvalidationShapes(s, if a.Acknowledge? then s.writers[a.w].identity else if a.InvalidateOnly? then a.identity else "");
    hide Invalidated;
    var s' := Apply(s, a);
    if a.Acknowledge? {
      InvalidationServesNoMore(s, s', s.writers[a.w].identity);
    } else if a.InvalidateOnly? {
      InvalidationServesNoMore(s, s', a.identity);
    } else {
      LaterServesNoMore(s, s');
    }
  }

  lemma InvalidationShapes(s: Sys, identity: string)
    requires Shaped(s)
    ensures Sound(Invalidated(s.cache, identity)) && Invalidated(s.cache, identity).heap == s.cache.heap
  {
  }

  lemma SettledVersion(s: Sys, tenant: string, v: nat, m: Moment)
    requires Settled(s, tenant, v, m)
    ensures v <= At(s.version, tenant)
  {
  }

  /** No step of anybody brings an old entry of the tenant back into use. */
  lemma StepKeepsSettled(s: Sys, a: Action, tenant: string, v: nat, m: Moment)
    requires Inv(s) && Settled(s, tenant, v, m) && Enabled(s, a)
    ensures Settled(Apply(s, a), tenant, v, m)
  {
    hide Inv, Settled, Locked, Finished, Deliver, Acknowledged, Enabled;
    match a
    case Begin(id, key, parent) => BeginKeepsSettled(s, id, key, parent, tenant, v, m);
    case Lock(id, delay) => LockKeepsSettled(s, id, delay, tenant, v, m);
    case Wake(id) => WakeKeepsSettled(s, id, tenant, v, m);
    case Read(id) => ReadKeepsSettled(s, id, tenant, v, m);
    case Finish(id, value, err) => FinishKeepsSettled(s, id, value, err, tenant, v, m);
    case Evict(id) => EvictKeepsSettled(s, id, tenant, v, m);
    case _ => WritesKeepSettled(s, a, tenant, v, m);
  }

  lemma {:induction false} ContinuationKeepsSettled(s: Sys, run: seq<Action>, tenant: string, v: nat, m: Moment)
    requires Inv(s) && Settled(s, tenant, v, m) && Possible(s, run)
    ensures Settled(After(s, run), tenant, v, m)
    decreases |run|
  {
    hide Inv, Settled, Apply, Enabled, Shaped;
    if run != [] {
      assert Shaped(s) && Enabled(s, run[0]);
      StepKeepsInv(s, run[0]);
      StepKeepsSettled(s, run[0], tenant, v, m);
      ContinuationKeepsSettled(Apply(s, run[0]), run[1..], tenant, v, m);
    }
  }

  lemma SettledCallSees(s: Sys, id: nat, tenant: string, v: nat, m: Moment)
    requires Inv(s) && Settled(s, tenant, v, m) && id in s.calls && id !in m.early
    requires s.calls[id].key.tenant == tenant
    ensures Sees(s, id, v)
  {
    CallAt(s, id);
  }

  /**
   From a state in which no entry of the tenant in use is stale for version `v`, every call that takes the lock
   later sees `v`.
   */
  lemma {:induction false} NothingStaleAllSee(s: Sys, tenant: string, v: nat)
    requires Inv(s) && Shaped(s) && v <= At(s.version, tenant) && NothingStale(s, tenant, v)
    ensures AllLaterCallsSee(s, tenant, v)
  {
    var m := Now(s, tenant);
    SettlesAt(s, tenant, v);
    hide Inv, Settled, Apply, Shaped, Now, LaterCallSees;
    forall before: seq<Action>, id: nat, delay: nat, rest: seq<Action>
      ensures LaterCallSees(s, tenant, v, before, id, delay, rest)
    {
      LateCallSees(s, tenant, v, m, before, id, delay, rest);
    }
  }

  /** In particular when nothing of the tenant can be served or waited for. */
  lemma {:induction false} NothingServableAllSee(s: Sys, tenant: string, v: nat)
    requires Inv(s) && Shaped(s) && v <= At(s.version, tenant)
    requires forall key: Key :: key.tenant == tenant ==> !Servable(s, key)
    ensures AllLaterCallsSee(s, tenant, v)
  {
    hide Servable, Stale, AllLaterCallsSee, Inv;
    NothingStaleAllSee(s, tenant, v);
  }

  lemma LateCallSees(s: Sys, tenant: string, v: nat, m: Moment,
                     before: seq<Action>, id: nat, delay: nat, rest: seq<Action>)
    requires Inv(s) && Settled(s, tenant, v, m)
    ensures LaterCallSees(s, tenant, v, before, id, delay, rest)
  {
    hide Inv, Settled, Shaped, Locked, Possible, After, Sees;
    if Possible(s, before) {
      var mid := After(s, before);
      ContinuationKeepsInv(s, before);
      ContinuationKeepsSettled(s, before, tenant, v, m);
      if Shaped(mid) && Enabled(mid, Lock(id, delay)) && mid.calls[id].key.tenant == tenant {
        var locked := Apply(mid, Lock(id, delay));
        if Possible(locked, rest) {
          CallingIsLate(mid, id, tenant, v, m);
          StepKeepsInv(mid, Lock(id, delay));
          StepKeepsSettled(mid, Lock(id, delay), tenant, v, m);
          LockNotes(mid, id, delay);
          ContinuationKeepsInv(locked, rest);
          ContinuationKeepsSettled(locked, rest, tenant, v, m);
          ContinuationKeepsCall(locked, rest, id);
          SettledCallSees(After(locked, rest), id, tenant, v, m);
        }
      }
    }
  }

  lemma CallingIsLate(s: Sys, id: nat, tenant: string, v: nat, m: Moment)
    requires Settled(s, tenant, v, m) && id in s.calls && s.calls[id].pc.Calling?
    ensures id !in m.early
  {
  }
}
