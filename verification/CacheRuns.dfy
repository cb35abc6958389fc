/**
 Concurrent runs of the memo cache: any number of callers, loads that call memo again (dashboards are
 built over the summaries), writers, and a clock, interleaved at the cache's critical sections.

 A run is a sequence of actions. Beside the cache itself the state records, for every entry, when its
 load was created and what the database looked like then, so that the claims can be stated.
 */
module CacheRuns {
  import opened Prelude
  import opened SummaryCache

  /** History of the load behind an entry. */
  datatype Load = Load(
    key: Key,
    createdAt: int,   // when its caller held the lock
    finishedAt: int,  // when it published; meaningful once the entry is ready
    floor: nat,       // newest acknowledged write of the tenant at creation
    started: nat,     // version of the tenant's rows at creation
    basis: Option<nat>, // oldest version it has read itself or through nested calls so far
    inner: set<nat>)  // entries it was built from through nested calls

  datatype Answer = Answer(value: Value, err: Option<string>, from: nat, basis: Option<nat>)

  datatype Pc = Calling | Waiting(e: nat) | Loading(e: nat) | Evicting(e: nat) | Returned(answer: Answer)

  /** One call of memo; `parent` is the entry whose load makes the call. */
  datatype Call = Call(key: Key, parent: Option<nat>, pc: Pc, acked: nat, lockedAt: int)

  /** An autocommit write that is committed but whose repository call has not returned. */
  datatype Writer = Writer(tenant: string, identity: string, version: nat)

  datatype Sys = Sys(
    cache: Cache, loads: seq<Load>, calls: map<nat, Call>, writers: map<nat, Writer>,
    version: map<string, nat>, acked: map<string, nat>, now: int)

  datatype Action =
    | Tick(elapsed: nat)
    | Begin(id: nat, key: Key, parent: Option<nat>)
    | Lock(id: nat, purgeDelay: nat)
    | Wake(id: nat)
    | Read(id: nat)                                    // a query of the load that call `id` carries out
    | Finish(id: nat, value: Value, err: Option<string>)
    | Evict(id: nat)
    | Commit(w: nat, tenant: string, identity: string) // the statement of an autocommit writer
    | Acknowledge(w: nat)                              // its deferred invalidation, then it returns
    | CommitInTransaction(tenant: string)              // a write that is never acknowledged here
    | InvalidateOnly(identity: string)

  function Least(a: nat, b: nat): nat { if a < b then a else b }

  function Most(a: nat, b: nat): nat { if a < b then b else a }

  /** The older of two versions read, if anything was. */
  function Older(a: Option<nat>, b: Option<nat>): Option<nat> {
    if a.Some? && b.Some? then Some(Least(a.value, b.value)) else if a.Some? then a else b
  }

  /** Nothing older than version `v` was read. */
  predicate Since(basis: Option<nat>, v: nat) { basis.Some? ==> basis.value >= v }

  predicate NoNewer(a: Option<nat>, b: Option<nat>) { b.Some? ==> a.Some? && a.value <= b.value }

  const INITIAL: Sys := Sys(Cache(map[], map[], []), [], map[], map[], map[], map[], 0)

  // ------------------------------------------------------------------ what an action does

  ghost predicate Shaped(s: Sys) {
    Sound(s.cache) && |s.loads| == |s.cache.heap|
  }

  ghost predicate Enabled(s: Sys, a: Action)
    requires Shaped(s)
  {
    match a
    case Tick(_) => true
    case Begin(id, key, parent) =>
      && id !in s.calls
      && (parent.Some? ==>
            && parent.value < |s.loads|
            && s.loads[parent.value].key.tenant == key.tenant
            && !s.cache.heap[parent.value].ready)
    case Lock(id, _) => id in s.calls && s.calls[id].pc.Calling?
    case Wake(id) =>
      id in s.calls && s.calls[id].pc.Waiting? && s.calls[id].pc.e < |s.loads| &&
      s.cache.heap[s.calls[id].pc.e].ready
    case Read(id) => id in s.calls && s.calls[id].pc.Loading? && s.calls[id].pc.e < |s.loads|
    case Finish(id, _, err) => // a value is made from something that was read
      && id in s.calls && s.calls[id].pc.Loading? && s.calls[id].pc.e < |s.loads|
      && (err.None? ==> s.loads[s.calls[id].pc.e].basis.Some?)
      && (forall j :: j in s.calls && s.calls[j].parent == Some(s.calls[id].pc.e) ==> s.calls[j].pc.Returned?)
    case Evict(id) => id in s.calls && s.calls[id].pc.Evicting? && s.calls[id].pc.e < |s.loads|
    case Commit(w, tenant, identity) => w !in s.writers && tenant != "" && identity in {tenant, ""}
    case Acknowledge(w) => w in s.writers
    case CommitInTransaction(_) => true
    case InvalidateOnly(_) => true
  }

  /** A call returns entry `e`; a nested call hands the result to the load it belongs to. */
  function Deliver(s: Sys, id: nat, c: Call, e: nat): Sys
    requires Shaped(s) && e < |s.loads|
  {
    var done := c.(pc := Returned(Answer(s.cache.heap[e].value, s.cache.heap[e].err, e, s.loads[e].basis)));
    var s' := s.(calls := s.calls[id := done]);
    if c.parent.Some? && c.parent.value < |s.loads| then
      var p := c.parent.value;
      var l := s.loads[p];
      s'.(loads := s.loads[p := l.(basis := Older(l.basis, s.loads[e].basis), inner := l.inner + {e})])
    else s'
  }

  function Locked(s: Sys, id: nat, purgeDelay: nat): Sys
    requires Shaped(s) && id in s.calls
  {
    var t := s.calls[id].key.tenant;
    var c := s.calls[id].(acked := At(s.acked, t), lockedAt := s.now);
    match Lookup(s.cache, c.key, s.now)
    case Hit(e) => if e < |s.loads| then Deliver(s, id, c, e) else s
    case Join(e) => s.(calls := s.calls[id := c.(pc := Waiting(e))])
    case Start(e) =>
      s.(cache := SummaryCache.Started(s.cache, c.key, s.now + purgeDelay),
         loads := s.loads + [Load(c.key, s.now, 0, At(s.acked, t), At(s.version, t), None, {})],
         calls := s.calls[id := c.(pc := Loading(e))],
         now := s.now + purgeDelay)
  }

  /** The query sees what is committed when it starts. */
  function HasRead(s: Sys, e: nat): Sys
    requires e < |s.loads|
  {
    var l := s.loads[e];
    s.(loads := s.loads[e := l.(basis := Older(l.basis, Some(At(s.version, l.key.tenant))))])
  }

  function Finished(s: Sys, id: nat, value: Value, err: Option<string>): Sys
    requires Shaped(s) && id in s.calls && s.calls[id].pc.Loading? && s.calls[id].pc.e < |s.loads|
  {
    var c := s.calls[id];
    var e := c.pc.e;
    var s' := s.(cache := Published(s.cache, e, value, err, s.now),
                 loads := s.loads[e := s.loads[e].(finishedAt := s.now)]);
    if err.Some? then s'.(calls := s.calls[id := c.(pc := Evicting(e))]) else Deliver(s', id, c, e)
  }

  function Acknowledged(s: Sys, w: nat): Sys
    requires w in s.writers
  {
    var wr := s.writers[w];
    s.(cache := Invalidated(s.cache, wr.identity),
       acked := s.acked[wr.tenant := Most(At(s.acked, wr.tenant), wr.version)],
       writers := s.writers - {w})
  }

  function Apply(s: Sys, a: Action): Sys
    requires Shaped(s) && Enabled(s, a)
  {
    match a
    case Tick(elapsed) => s.(now := s.now + elapsed)
    case Begin(id, key, parent) => s.(calls := s.calls[id := Call(key, parent, Calling, 0, s.now)])
    case Lock(id, delay) => Locked(s, id, delay)
    case Wake(id) => Deliver(s, id, s.calls[id], s.calls[id].pc.e)
    case Read(id) => HasRead(s, s.calls[id].pc.e)
    case Finish(id, value, err) => Finished(s, id, value, err)
    case Evict(id) =>
      var c := s.calls[id];
      Deliver(s.(cache := Evicted(s.cache, c.key, c.pc.e)), id, c, c.pc.e)
    case Commit(w, tenant, identity) =>
      var v := At(s.version, tenant) + 1;
      s.(version := s.version[tenant := v], writers := s.writers[w := Writer(tenant, identity, v)])
    case Acknowledge(w) => Acknowledged(s, w)
    case CommitInTransaction(tenant) => s.(version := s.version[tenant := At(s.version, tenant) + 1])
    case InvalidateOnly(identity) => s.(cache := Invalidated(s.cache, identity))
  }

  // ------------------------------------------------------------------ the invariant

  ghost predicate Mapped(c: Cache, k: Key, i: nat) { k in c.entries && c.entries[k] == i }

  /** Generations never run ahead, and an unfinished entry is either in the map or outdated. */
  ghost predicate EntriesOk(c: Cache, loads: seq<Load>) {
    && |loads| == |c.heap|
    && (forall k :: k in c.entries ==> c.entries[k] < |loads| && loads[c.entries[k]].key == k)
    && (forall i :: 0 <= i < |loads| ==> c.heap[i].gen <= At(c.gen, loads[i].key.tenant))
    && (forall i :: 0 <= i < |loads| && !c.heap[i].ready ==>
          Mapped(c, loads[i].key, i) || c.heap[i].gen < At(c.gen, loads[i].key.tenant))
  }

  /** At most one unfinished load per key and generation. */
  ghost predicate SingleFlight(c: Cache, loads: seq<Load>)
    requires |loads| == |c.heap|
  {
    forall i, j :: 0 <= i < j < |loads| && !c.heap[i].ready && !c.heap[j].ready && loads[i].key == loads[j].key
                   ==> c.heap[i].gen != c.heap[j].gen
  }

  /** An entry the map would still serve was created after every acknowledged write. */
  ghost predicate FreshOk(c: Cache, loads: seq<Load>, acked: map<string, nat>)
    requires EntriesOk(c, loads)
  {
    forall k :: k in c.entries && c.heap[c.entries[k]].gen == At(c.gen, k.tenant) ==>
      loads[c.entries[k]].floor >= At(acked, k.tenant)
  }

  ghost predicate Sized(s: Sys) { |s.loads| == |s.cache.heap| }

  ghost predicate LoadOk(s: Sys, i: nat)
    requires Sized(s) && i < |s.loads|
  {
    var l, e := s.loads[i], s.cache.heap[i];
    && Since(l.basis, l.floor) && l.floor <= l.started
    && l.floor <= At(s.acked, l.key.tenant)
    && l.createdAt <= s.now
    && (e.ready ==> l.createdAt <= l.finishedAt <= s.now && e.expires == l.finishedAt + TTL)
    && (e.ready && e.err.None? ==> l.basis.Some?)
    && (forall d :: d in l.inner ==>
          d < |s.loads| && s.cache.heap[d].ready && s.loads[d].finishedAt > l.createdAt - TTL)
  }

  /** A nested call runs while its parent's load does, for the same tenant, and after it was created. */
  ghost predicate ParentOk(s: Sys, c: Call)
    requires Sized(s)
  {
    c.parent.Some? ==>
      && c.parent.value < |s.loads|
      && s.loads[c.parent.value].key.tenant == c.key.tenant
      && (s.cache.heap[c.parent.value].ready ==> c.pc.Returned?)
      && (!c.pc.Calling? ==>
            s.loads[c.parent.value].floor <= c.acked && s.loads[c.parent.value].createdAt <= c.lockedAt)
  }

  /** What a call returns was finished less than the TTL before it took the lock; a failure, not before. */
  ghost predicate Recent(s: Sys, c: Call, e: nat)
    requires Sized(s) && e < |s.loads|
  {
    && c.lockedAt - TTL < s.loads[e].finishedAt
    && (s.cache.heap[e].err.Some? ==> c.lockedAt <= s.loads[e].finishedAt)
  }

  /** The entry a call is attached to is its own key's, new enough for it, and no older than its parent. */
  ghost predicate Attached(s: Sys, c: Call, e: nat)
    requires Sized(s)
  {
    && e < |s.loads|
    && s.loads[e].key == c.key
    && c.acked <= s.loads[e].floor
    && (c.parent.Some? && c.parent.value < |s.loads| ==> s.cache.heap[c.parent.value].gen <= s.cache.heap[e].gen)
    && (s.cache.heap[e].ready ==> Recent(s, c, e))
  }

  ghost predicate ReturnOk(s: Sys, c: Call, a: Answer)
    requires Sized(s)
  {
    && a.from < |s.loads| && s.cache.heap[a.from].ready
    && s.loads[a.from].key == c.key
    && a.value == s.cache.heap[a.from].value && a.err == s.cache.heap[a.from].err
    && c.acked <= s.loads[a.from].started
    && a.basis == s.loads[a.from].basis && Since(a.basis, c.acked)
    && Recent(s, c, a.from)
    && (c.parent.Some? && c.parent.value < |s.loads| ==>
          a.from in s.loads[c.parent.value].inner && NoNewer(s.loads[c.parent.value].basis, a.basis))
  }

  ghost predicate CallOk(s: Sys, c: Call)
    requires Sized(s)
  {
    && c.lockedAt <= s.now
    && ParentOk(s, c)
    && match c.pc
       case Calling => true
       case Waiting(e) => Attached(s, c, e)
       case Loading(e) => Attached(s, c, e) && !s.cache.heap[e].ready
       case Evicting(e) => Attached(s, c, e) && s.cache.heap[e].ready && s.cache.heap[e].err.Some?
       case Returned(a) => ReturnOk(s, c, a)
  }

  ghost predicate OneLoader(calls: map<nat, Call>) {
    forall i, j :: i in calls && j in calls && i != j && calls[i].pc.Loading? && calls[j].pc.Loading? ==>
      calls[i].pc.e != calls[j].pc.e
  }

  ghost predicate WritesOk(version: map<string, nat>, acked: map<string, nat>, writers: map<nat, Writer>) {
    && (forall t :: At(acked, t) <= At(version, t))
    && (forall w :: w in writers ==>
          && writers[w].tenant != "" && writers[w].identity in {writers[w].tenant, ""}
          && writers[w].version <= At(version, writers[w].tenant))
  }

  ghost predicate LoadsOk(s: Sys)
    requires Sized(s)
  {
    forall i :: 0 <= i < |s.loads| ==> LoadOk(s, i)
  }

  ghost predicate CallsOk(s: Sys)
    requires Sized(s)
  {
    forall id :: id in s.calls ==> CallOk(s, s.calls[id])
  }

  ghost predicate CacheOk(c: Cache, loads: seq<Load>, acked: map<string, nat>) {
    EntriesOk(c, loads) && SingleFlight(c, loads) && FreshOk(c, loads, acked)
  }

  ghost predicate Inv(s: Sys) {
    && Sized(s)
    && CacheOk(s.cache, s.loads, s.acked)
    && LoadsOk(s)
    && CallsOk(s)
    && OneLoader(s.calls)
    && WritesOk(s.version, s.acked, s.writers)
  }

  lemma InvIsShaped(s: Sys)
    requires Inv(s)
    ensures Shaped(s)
  {
  }

  // ------------------------------------------------------------------ what never goes back

  ghost predicate SameLoad(s: Sys, s': Sys, i: nat)
    requires Sized(s) && Sized(s') && i < |s.loads| <= |s'.loads|
  {
    var l, l', e, e' := s.loads[i], s'.loads[i], s.cache.heap[i], s'.cache.heap[i];
    && l'.key == l.key && l'.createdAt == l.createdAt && l'.floor == l.floor && l'.started == l.started
    && NoNewer(l'.basis, l.basis) && l.inner <= l'.inner && e'.gen == e.gen
    && (e.ready ==> e' == e && l'.finishedAt == l.finishedAt && l'.basis == l.basis)
    && (!e.ready && e'.ready ==> s.now <= l'.finishedAt)
  }

  /** Histories only grow: a finished entry keeps its value, a load its place in time. */
  ghost predicate Grows(s: Sys, s': Sys) {
    && Sized(s) && Sized(s')
    && |s.loads| <= |s'.loads|
    && (forall i :: 0 <= i < |s.loads| ==> SameLoad(s, s', i))
    && s.now <= s'.now
    && (forall t :: At(s.acked, t) <= At(s'.acked, t))
  }

  /** The step leaves call `c` and what it waits for alone. */
  ghost predicate Undisturbed(s': Sys, c: Call)
    requires Sized(s')
  {
    && (c.pc.Loading? && c.pc.e < |s'.loads| ==> !s'.cache.heap[c.pc.e].ready)
    && (c.parent.Some? && c.parent.value < |s'.loads| && s'.cache.heap[c.parent.value].ready ==> c.pc.Returned?)
  }

  lemma CallSurvives(s: Sys, s': Sys, c: Call)
    requires Grows(s, s') && CallOk(s, c) && Undisturbed(s', c)
    ensures CallOk(s', c)
  {
    if c.parent.Some? {
      assert SameLoad(s, s', c.parent.value);
    }
    match c.pc
    case Calling =>
    case Waiting(e) => assert SameLoad(s, s', e);
    case Loading(e) => assert SameLoad(s, s', e);
    case Evicting(e) => assert SameLoad(s, s', e);
    case Returned(a) => assert SameLoad(s, s', a.from);
  }

  lemma LoadSurvives(s: Sys, s': Sys, i: nat)
    requires Grows(s, s') && i < |s.loads| && LoadOk(s, i)
    requires s'.loads[i] == s.loads[i] && s'.cache.heap[i] == s.cache.heap[i]
    ensures LoadOk(s', i)
  {
    forall d | d in s.loads[i].inner
      ensures d < |s'.loads| && s'.cache.heap[d].ready && s'.loads[d].finishedAt > s.loads[i].createdAt - TTL
    {
      assert SameLoad(s, s', d);
    }
  }

  lemma LoadsSurvive(s: Sys, s': Sys)
    requires Grows(s, s') && LoadsOk(s)
    requires forall i :: 0 <= i < |s'.loads| ==>
      || LoadOk(s', i)
      || (i < |s.loads| && s'.loads[i] == s.loads[i] && s'.cache.heap[i] == s.cache.heap[i])
    ensures LoadsOk(s')
  {
    hide LoadOk, SameLoad;
    forall i | 0 <= i < |s'.loads|
      ensures LoadOk(s', i)
    {
      if !LoadOk(s', i) {
        LoadSurvives(s, s', i);
      }
    }
  }

  lemma CallsSurvive(s: Sys, s': Sys)
    requires Grows(s, s') && CallsOk(s)
    requires forall j :: j in s'.calls ==>
      || CallOk(s', s'.calls[j])
      || (j in s.calls && s'.calls[j] == s.calls[j] && Undisturbed(s', s.calls[j]))
    ensures CallsOk(s')
  {
    hide CallOk, SameLoad, Undisturbed;
    forall j | j in s'.calls
      ensures CallOk(s', s'.calls[j])
    {
      if !CallOk(s', s'.calls[j]) {
        CallSurvives(s, s', s.calls[j]);
      }
    }
  }

  /** Nothing that happens to the loads or the calls: only the clock, the writes or the map moved. */
  lemma UntouchedSurvive(s: Sys, s': Sys)
    requires Inv(s) && s'.loads == s.loads && s'.calls == s.calls && s'.cache.heap == s.cache.heap
    requires s.now <= s'.now && forall t :: At(s.acked, t) <= At(s'.acked, t)
    ensures LoadsOk(s') && CallsOk(s')
  {
    assert Grows(s, s');
    hide Grows;
    LoadsSurvive(s, s');
    forall j | j in s'.calls
      ensures Undisturbed(s', s.calls[j])
    {
      assert CallOk(s, s.calls[j]);
    }
    CallsSurvive(s, s');
  }

  // ------------------------------------------------------------------ invalidation

  /** Invalidation only raises generations, and outdates every mapped entry it is meant for. */
  lemma InvalidationOutdates(c: Cache, identity: string)
    ensures var c' := Invalidated(c, identity);
            && (forall t :: At(c'.gen, t) >= At(c.gen, t))
            && (forall k :: k in c.entries && (identity == "" || k.tenant == identity) ==>
                  At(c'.gen, k.tenant) > At(c.gen, k.tenant))
  {
    if identity == "" {
      forall t
        ensures At(Invalidated(c, identity).gen, t) >= At(c.gen, t)
      {
        BumpedAllAt(c.gen, c.entries.Keys, t);
      }
      forall k | k in c.entries
        ensures At(Invalidated(c, identity).gen, k.tenant) > At(c.gen, k.tenant)
      {
        BumpedAllAt(c.gen, c.entries.Keys, k.tenant);
        assert k in KeysOf(c.entries.Keys, k.tenant);
      }
    }
  }

  lemma InvalidationKeepsEntries(c: Cache, loads: seq<Load>, identity: string)
    requires EntriesOk(c, loads) && SingleFlight(c, loads)
    ensures EntriesOk(Invalidated(c, identity), loads) && SingleFlight(Invalidated(c, identity), loads)
  {
    InvalidationOutdates(c, identity);
    var c' := Invalidated(c, identity);
    assert c'.entries == c.entries && c'.heap == c.heap;
    forall i | 0 <= i < |loads| && !c.heap[i].ready
      ensures Mapped(c', loads[i].key, i) || c'.heap[i].gen < At(c'.gen, loads[i].key.tenant)
    {
      assert Mapped(c, loads[i].key, i) || c.heap[i].gen < At(c.gen, loads[i].key.tenant);
    }
  }

  lemma InvalidationKeepsFresh(c: Cache, loads: seq<Load>, acked: map<string, nat>, identity: string)
    requires EntriesOk(c, loads) && EntriesOk(Invalidated(c, identity), loads) && FreshOk(c, loads, acked)
    ensures FreshOk(Invalidated(c, identity), loads, acked)
  {
    InvalidationOutdates(c, identity);
  }

  /** Acknowledging a write outdates everything its tenant has in the map. */
  lemma AcknowledgeKeepsFresh(c: Cache, loads: seq<Load>, acked: map<string, nat>, wr: Writer)
    requires wr.identity in {wr.tenant, ""}
    requires EntriesOk(c, loads) && EntriesOk(Invalidated(c, wr.identity), loads) && FreshOk(c, loads, acked)
    ensures FreshOk(Invalidated(c, wr.identity), loads, acked[wr.tenant := Most(At(acked, wr.tenant), wr.version)])
  {
    InvalidationOutdates(c, wr.identity);
  }

  lemma AcknowledgeKeepsInv(s: Sys, w: nat)
    requires Inv(s) && w in s.writers
    ensures Inv(Acknowledged(s, w))
  {
    hide LoadsOk, CallsOk, SingleFlight, FreshOk;
    var wr, s' := s.writers[w], Acknowledged(s, w);
    InvalidationKeepsEntries(s.cache, s.loads, wr.identity);
    AcknowledgeKeepsFresh(s.cache, s.loads, s.acked, wr);
    UntouchedSurvive(s, s');
  }

  lemma InvalidateKeepsInv(s: Sys, identity: string)
    requires Inv(s)
    ensures Inv(s.(cache := Invalidated(s.cache, identity)))
  {
    hide LoadsOk, CallsOk, SingleFlight, FreshOk;
    var s' := s.(cache := Invalidated(s.cache, identity));
    InvalidationKeepsEntries(s.cache, s.loads, identity);
    InvalidationKeepsFresh(s.cache, s.loads, s.acked, identity);
    UntouchedSurvive(s, s');
  }

  lemma TickKeepsInv(s: Sys, elapsed: nat)
    requires Inv(s)
    ensures Inv(s.(now := s.now + elapsed))
  {
    hide LoadsOk, CallsOk, CacheOk;
    UntouchedSurvive(s, s.(now := s.now + elapsed));
  }

  lemma BeginKeepsInv(s: Sys, id: nat, key: Key, parent: Option<nat>)
    requires Inv(s) && Shaped(s) && Enabled(s, Begin(id, key, parent))
    ensures Inv(Apply(s, Begin(id, key, parent)))
  {
    hide LoadOk, CacheOk;
    var s' := Apply(s, Begin(id, key, parent));
    assert Grows(s, s');
    LoadsSurvive(s, s');
    forall j | j in s'.calls
      ensures CallOk(s', s'.calls[j])
    {
      if j != id {
        CallSurvives(s, s', s.calls[j]);
      }
    }
  }

  lemma CommitKeepsInv(s: Sys, version: map<string, nat>, writers: map<nat, Writer>)
    requires Inv(s) && WritesOk(version, s.acked, writers)
    ensures Inv(s.(version := version, writers := writers))
  {
    hide LoadsOk, CallsOk, CacheOk;
    UntouchedSurvive(s, s.(version := version, writers := writers));
  }

  // ------------------------------------------------------------------ entering, finishing, evicting

  lemma SameKeysKeepCache(c: Cache, loads: seq<Load>, loads': seq<Load>, acked: map<string, nat>)
    requires CacheOk(c, loads, acked) && |loads'| == |loads|
    requires forall i :: 0 <= i < |loads| ==> loads'[i].key == loads[i].key && loads'[i].floor == loads[i].floor
    ensures CacheOk(c, loads', acked)
  {
    forall i | 0 <= i < |loads'| && !c.heap[i].ready
      ensures Mapped(c, loads'[i].key, i) || c.heap[i].gen < At(c.gen, loads'[i].key.tenant)
    {
      assert loads'[i].key == loads[i].key;
    }
  }

  /** From `c` to `c'` loads may have finished, and only finished entries left the map. */
  ghost predicate Shrinks(c: Cache, c': Cache) {
    && c'.gen == c.gen && |c'.heap| == |c.heap|
    && (forall i :: 0 <= i < |c.heap| ==> c'.heap[i].gen == c.heap[i].gen && (c.heap[i].ready ==> c'.heap[i].ready))
    && (forall k :: k in c'.entries ==> k in c.entries && c'.entries[k] == c.entries[k])
    && (forall k :: k in c.entries && k !in c'.entries ==> c.entries[k] < |c.heap| && c'.heap[c.entries[k]].ready)
  }

  lemma ShrinkKeepsEntries(c: Cache, c': Cache, loads: seq<Load>)
    requires EntriesOk(c, loads) && Shrinks(c, c')
    ensures EntriesOk(c', loads)
  {
    forall i | 0 <= i < |loads| && !c'.heap[i].ready
      ensures Mapped(c', loads[i].key, i) || c'.heap[i].gen < At(c'.gen, loads[i].key.tenant)
    {
      assert Mapped(c, loads[i].key, i) || c.heap[i].gen < At(c.gen, loads[i].key.tenant);
    }
  }

  lemma ShrinkKeepsCache(c: Cache, c': Cache, loads: seq<Load>, acked: map<string, nat>)
    requires CacheOk(c, loads, acked) && Shrinks(c, c')
    ensures CacheOk(c', loads, acked)
  {
    ShrinkKeepsEntries(c, c', loads);
    assert SingleFlight(c', loads) by {
      hide EntriesOk, FreshOk;
    }
  }

  lemma PurgeShrinks(c: Cache, now: int)
    requires Sound(c)
    ensures Shrinks(c, Purged(c, now))
  {
  }

  lemma PublishShrinks(c: Cache, e: nat, value: Value, err: Option<string>, now: int)
    requires e < |c.heap|
    ensures Shrinks(c, Published(c, e, value, err, now))
  {
  }

  lemma EvictShrinks(c: Cache, key: Key, e: nat)
    requires e < |c.heap| && c.heap[e].ready
    ensures Shrinks(c, Evicted(c, key, e))
  {
  }

  function WithEntry(c: Cache, key: Key): Cache {
    c.(entries := c.entries[key := |c.heap|],
       heap := c.heap + [Entry(At(c.gen, key.tenant), 0, 0, None, false)])
  }

  /** A load starts only when every unfinished one of its key is outdated. */
  lemma StartsAlone(c: Cache, loads: seq<Load>, key: Key, now: int, i: nat)
    requires EntriesOk(c, loads) && Sound(c) && Lookup(c, key, now).Start?
    requires i < |loads| && !c.heap[i].ready && loads[i].key == key
    ensures c.heap[i].gen < At(c.gen, key.tenant)
  {
  }

  lemma StartKeepsEntries(c: Cache, loads: seq<Load>, l: Load, now: int)
    requires EntriesOk(c, loads) && Sound(c) && Lookup(c, l.key, now).Start?
    ensures EntriesOk(WithEntry(c, l.key), loads + [l])
  {
    hide Lookup;
    var c', n := WithEntry(c, l.key), |loads|;
    forall i | 0 <= i < n && !c.heap[i].ready
      ensures Mapped(c', loads[i].key, i) || c.heap[i].gen < At(c.gen, loads[i].key.tenant)
    {
      if loads[i].key == l.key {
        StartsAlone(c, loads, l.key, now, i);
      } else {
        assert Mapped(c, loads[i].key, i) ==> Mapped(c', loads[i].key, i);
      }
    }
    assert Mapped(c', l.key, n);
  }

  lemma StartKeepsSingleFlight(c: Cache, loads: seq<Load>, l: Load, now: int)
    requires EntriesOk(c, loads) && SingleFlight(c, loads) && Sound(c) && Lookup(c, l.key, now).Start?
    ensures SingleFlight(WithEntry(c, l.key), loads + [l])
  {
    hide Lookup;
    forall i | 0 <= i < |loads| && !c.heap[i].ready && loads[i].key == l.key
      ensures c.heap[i].gen < At(c.gen, l.key.tenant)
    {
      StartsAlone(c, loads, l.key, now, i);
    }
    hide EntriesOk;
  }

  lemma StartKeepsCache(c: Cache, loads: seq<Load>, acked: map<string, nat>, l: Load, now: int)
    requires CacheOk(c, loads, acked) && Sound(c)
    requires Lookup(c, l.key, now).Start? && l.floor == At(acked, l.key.tenant)
    ensures CacheOk(WithEntry(c, l.key), loads + [l], acked)
  {
    hide SingleFlight;
    StartKeepsEntries(c, loads, l, now);
    StartKeepsSingleFlight(c, loads, l, now);
    hide Lookup;
  }

  /** The call `id` is about to return entry `e`; `s` is the state without it. */
  ghost predicate Ready(s: Sys, id: nat, c: Call, e: nat) {
    && Inv(s) && id !in s.calls
    && c.lockedAt <= s.now
    && ParentOk(s, c.(pc := Waiting(e))) && (c.parent.Some? ==> !s.cache.heap[c.parent.value].ready)
    && Attached(s, c, e) && s.cache.heap[e].ready
  }

  lemma DeliverGrows(s: Sys, id: nat, c: Call, e: nat)
    requires Shaped(s) && e < |s.loads|
    requires c.parent.Some? && c.parent.value < |s.loads| ==> !s.cache.heap[c.parent.value].ready
    ensures Grows(s, Deliver(s, id, c, e))
  {
    var s' := Deliver(s, id, c, e);
    forall i | 0 <= i < |s.loads|
      ensures SameLoad(s, s', i)
    {
    }
  }

  lemma DeliverKeepsLoads(s: Sys, id: nat, c: Call, e: nat)
    requires Ready(s, id, c, e) && Shaped(s)
    ensures LoadsOk(Deliver(s, id, c, e))
  {
    hide CacheOk, CallsOk, WritesOk, OneLoader, Grows;
    var s' := Deliver(s, id, c, e);
    DeliverGrows(s, id, c, e);
    assert LoadOk(s, e);
    if c.parent.Some? {
      var p := c.parent.value;
      assert LoadOk(s, p);
      assert s'.loads[p].inner == s.loads[p].inner + {e};
      assert LoadOk(s', p);
    }
    LoadsSurvive(s, s');
  }

  lemma DeliverKeepsCalls(s: Sys, id: nat, c: Call, e: nat)
    requires Ready(s, id, c, e) && Shaped(s)
    ensures CallsOk(Deliver(s, id, c, e))
  {
    hide CacheOk, WritesOk, OneLoader, Grows;
    var s' := Deliver(s, id, c, e);
    DeliverGrows(s, id, c, e);
    assert LoadOk(s, e);
    assert CallOk(s', s'.calls[id]);
    forall j | j in s.calls
      ensures Undisturbed(s', s.calls[j])
    {
      assert CallOk(s, s.calls[j]);
    }
    CallsSurvive(s, s');
  }

  lemma DeliverKeepsInv(s: Sys, id: nat, c: Call, e: nat)
    requires Ready(s, id, c, e) && Shaped(s)
    ensures Inv(Deliver(s, id, c, e))
  {
    hide LoadsOk, CallsOk, CacheOk, WritesOk, ParentOk;
    var s' := Deliver(s, id, c, e);
    DeliverKeepsLoads(s, id, c, e);
    DeliverKeepsCalls(s, id, c, e);
    SameKeysKeepCache(s.cache, s.loads, s'.loads, s.acked);
  }

  function Without(s: Sys, id: nat): Sys { s.(calls := s.calls - {id}) }

  lemma WithoutKeepsInv(s: Sys, id: nat)
    requires Inv(s)
    ensures Inv(Without(s, id))
  {
    hide CacheOk, WritesOk;
    var s' := Without(s, id);
    assert Grows(s, s');
    LoadsSurvive(s, s');
    forall j | j in s'.calls
      ensures Undisturbed(s', s.calls[j])
    {
      assert CallOk(s, s.calls[j]);
    }
    CallsSurvive(s, s');
  }

  lemma DeliverIgnores(s: Sys, id: nat, c: Call, e: nat)
    requires Shaped(s) && e < |s.loads|
    ensures Deliver(Without(s, id), id, c, e) == Deliver(s, id, c, e)
  {
    var done := c.(pc := Returned(Answer(s.cache.heap[e].value, s.cache.heap[e].err, e, s.loads[e].basis)));
    assert (s.calls - {id})[id := done] == s.calls[id := done];
  }

  /** The call of `s` with id `id`, seen at its critical section. */
  function Entering(s: Sys, id: nat): Call
    requires id in s.calls
  {
    s.calls[id].(acked := At(s.acked, s.calls[id].key.tenant), lockedAt := s.now)
  }

  lemma EnteringParent(s: Sys, id: nat, pc: Pc)
    requires Inv(s) && id in s.calls && s.calls[id].pc.Calling?
    ensures ParentOk(s, Entering(s, id).(pc := pc))
    ensures s.calls[id].parent.Some? ==> !s.cache.heap[s.calls[id].parent.value].ready
  {
    assert CallOk(s, s.calls[id]);
    if s.calls[id].parent.Some? {
      assert LoadOk(s, s.calls[id].parent.value);
    }
  }

  lemma LoadAt(s: Sys, i: nat)
    requires Sized(s) && LoadsOk(s) && i < |s.loads|
    ensures LoadOk(s, i)
  {
  }

  lemma CallAt(s: Sys, id: nat)
    requires Sized(s) && CallsOk(s) && id in s.calls
    ensures CallOk(s, s.calls[id])
  {
  }

  lemma HitKeepsInv(s: Sys, id: nat, e: nat)
    requires Inv(s) && Shaped(s) && id in s.calls && s.calls[id].pc.Calling?
    requires Lookup(s.cache, s.calls[id].key, s.now) == Hit(e) && e < |s.loads|
    ensures Inv(Deliver(s, id, Entering(s, id), e))
  {
    hide LoadsOk, CallsOk, WritesOk, SingleFlight, OneLoader, Deliver;
    var c := Entering(s, id);
    LoadAt(s, e);
    EnteringParent(s, id, Waiting(e));
    assert Attached(s, c, e);
    WithoutKeepsInv(s, id);
    assert Ready(Without(s, id), id, c, e);
    DeliverKeepsInv(Without(s, id), id, c, e);
    DeliverIgnores(s, id, c, e);
  }

  /** One call changed; the loads did not. */
  lemma CallMoves(s: Sys, id: nat, c: Call)
    requires Inv(s) && CallOk(s, c) && !c.pc.Loading?
    ensures Inv(s.(calls := s.calls[id := c]))
  {
    hide CacheOk, WritesOk;
    var s' := s.(calls := s.calls[id := c]);
    assert Grows(s, s');
    LoadsSurvive(s, s');
    assert CallOk(s', c) by { assert Undisturbed(s', c); CallSurvives(s, s', c); }
    forall j | j in s'.calls && j != id
      ensures Undisturbed(s', s.calls[j])
    {
      assert CallOk(s, s.calls[j]);
    }
    CallsSurvive(s, s');
  }

  lemma JoinKeepsInv(s: Sys, id: nat, e: nat)
    requires Inv(s) && Shaped(s) && id in s.calls && s.calls[id].pc.Calling?
    requires Lookup(s.cache, s.calls[id].key, s.now) == Join(e)
    ensures Inv(s.(calls := s.calls[id := Entering(s, id).(pc := Waiting(e))]))
  {
    hide LoadsOk, CallsOk, WritesOk, SingleFlight, OneLoader;
    EnteringParent(s, id, Waiting(e));
    assert Attached(s, Entering(s, id).(pc := Waiting(e)), e);
    CallMoves(s, id, Entering(s, id).(pc := Waiting(e)));
  }

  /** The load a call starts, seen from the state it starts in. */
  function NewLoad(s: Sys, key: Key): Load {
    Load(key, s.now, 0, At(s.acked, key.tenant), At(s.version, key.tenant), None, {})
  }

  /** The state after a call has put its new entry in the map, before the purge. */
  function Opened(s: Sys, id: nat): Sys
    requires id in s.calls
  {
    var c := Entering(s, id);
    s.(cache := WithEntry(s.cache, c.key), loads := s.loads + [NewLoad(s, c.key)],
       calls := s.calls[id := c.(pc := Loading(|s.loads|))])
  }

  lemma OpenedGrows(s: Sys, id: nat)
    requires Inv(s) && id in s.calls
    ensures Grows(s, Opened(s, id))
  {
    hide LoadsOk, CallsOk, WritesOk, CacheOk, OneLoader;
  }

  lemma OpenedKeepsLoads(s: Sys, id: nat)
    requires Inv(s) && id in s.calls
    ensures LoadsOk(Opened(s, id))
  {
    hide CallsOk, CacheOk, OneLoader, Grows;
    var s' := Opened(s, id);
    OpenedGrows(s, id);
    assert LoadOk(s', |s.loads|);
    LoadsSurvive(s, s');
  }

  lemma NeverAhead(s: Sys, i: nat)
    requires Inv(s) && i < |s.loads|
    ensures s.cache.heap[i].gen <= At(s.cache.gen, s.loads[i].key.tenant)
  {
  }

  lemma OpenedKeepsCalls(s: Sys, id: nat)
    requires Inv(s) && id in s.calls && s.calls[id].pc.Calling?
    ensures CallsOk(Opened(s, id)) && OneLoader(Opened(s, id).calls)
  {
    hide LoadOk, CacheOk, Grows;
    var s' := Opened(s, id);
    OpenedGrows(s, id);
    EnteringParent(s, id, Loading(|s.loads|));
    if s.calls[id].parent.Some? {
      NeverAhead(s, s.calls[id].parent.value);
    }
    assert CallOk(s', s'.calls[id]);
    forall j | j in s.calls && j != id
      ensures Undisturbed(s', s.calls[j])
      ensures s.calls[j].pc.Loading? ==> s.calls[j].pc.e < |s.loads|
    {
      assert CallOk(s, s.calls[j]);
    }
    CallsSurvive(s, s');
  }

  lemma OpenedKeepsInv(s: Sys, id: nat)
    requires Inv(s) && Shaped(s) && id in s.calls && s.calls[id].pc.Calling?
    requires Lookup(s.cache, s.calls[id].key, s.now).Start?
    ensures Inv(Opened(s, id))
  {
    hide LoadsOk, CallsOk, WritesOk, CacheOk, OneLoader, Lookup;
    OpenedKeepsLoads(s, id);
    OpenedKeepsCalls(s, id);
    StartKeepsCache(s.cache, s.loads, s.acked, NewLoad(s, s.calls[id].key), s.now);
  }

  lemma PurgeKeepsInv(s: Sys, now: int)
    requires Inv(s) && Shaped(s) && s.now <= now
    ensures Inv(s.(cache := Purged(s.cache, now), now := now))
  {
    hide LoadsOk, CallsOk, WritesOk, CacheOk, OneLoader;
    PurgeShrinks(s.cache, now);
    ShrinkKeepsCache(s.cache, Purged(s.cache, now), s.loads, s.acked);
    UntouchedSurvive(s, s.(cache := Purged(s.cache, now), now := now));
  }

  lemma LockKeepsInv(s: Sys, id: nat, delay: nat)
    requires Inv(s) && Shaped(s) && id in s.calls && s.calls[id].pc.Calling?
    ensures Inv(Locked(s, id, delay))
  {
    hide Inv, Deliver, LoadsOk;
    match Lookup(s.cache, s.calls[id].key, s.now)
    case Hit(e) => HitKeepsInv(s, id, e);
    case Join(e) => JoinKeepsInv(s, id, e);
    case Start(e) =>
      OpenedKeepsInv(s, id);
      InvIsShaped(Opened(s, id));
      PurgeKeepsInv(Opened(s, id), s.now + delay);
  }

  lemma WakeKeepsInv(s: Sys, id: nat)
    requires Inv(s) && Shaped(s) && Enabled(s, Wake(id))
    ensures Inv(Deliver(s, id, s.calls[id], s.calls[id].pc.e))
  {
    hide LoadsOk, CallsOk, WritesOk, CacheOk, OneLoader, Deliver;
    var c := s.calls[id];
    CallAt(s, id);
    WithoutKeepsInv(s, id);
    assert Ready(Without(s, id), id, c, c.pc.e);
    DeliverKeepsInv(Without(s, id), id, c, c.pc.e);
    DeliverIgnores(s, id, c, c.pc.e);
  }

  lemma EvictKeepsInv(s: Sys, id: nat)
    requires Inv(s) && Shaped(s) && Enabled(s, Evict(id))
    ensures Inv(Apply(s, Evict(id)))
  {
    hide LoadsOk, CallsOk, WritesOk, CacheOk, OneLoader, Deliver;
    var c := s.calls[id];
    var s' := s.(cache := Evicted(s.cache, c.key, c.pc.e));
    CallAt(s, id);
    EvictShrinks(s.cache, c.key, c.pc.e);
    ShrinkKeepsCache(s.cache, s'.cache, s.loads, s.acked);
    UntouchedSurvive(s, s');
    WithoutKeepsInv(s', id);
    assert Ready(Without(s', id), id, c, c.pc.e);
    DeliverKeepsInv(Without(s', id), id, c, c.pc.e);
    DeliverIgnores(s', id, c, c.pc.e);
  }

  /** A query of a load in progress; what it sees holds every acknowledged write. */
  lemma ReadKeepsInv(s: Sys, id: nat)
    requires Inv(s) && Shaped(s) && Enabled(s, Read(id))
    ensures Inv(HasRead(s, s.calls[id].pc.e))
  {
    var e := s.calls[id].pc.e;
    var s' := HasRead(s, e);
    CallAt(s, id);
    LoadAt(s, e);
    ReadGrows(s, e);
    hide CacheOk, OneLoader, Grows;
    assert LoadOk(s', e) by { assert At(s.acked, s.loads[e].key.tenant) <= At(s.version, s.loads[e].key.tenant); }
    LoadsSurvive(s, s');
    forall j | j in s'.calls
      ensures Undisturbed(s', s.calls[j])
    {
      assert CallOk(s, s.calls[j]);
    }
    CallsSurvive(s, s');
    SameKeysKeepCache(s.cache, s.loads, s'.loads, s.acked);
  }

  lemma ReadGrows(s: Sys, e: nat)
    requires Sized(s) && e < |s.loads| && !s.cache.heap[e].ready
    ensures Grows(s, HasRead(s, e))
  {
  }

  /** The state in which the load of call `id` has just published, the call itself set aside. */
  function Shut(s: Sys, id: nat, value: Value, err: Option<string>): Sys
    requires Shaped(s) && id in s.calls && s.calls[id].pc.Loading? && s.calls[id].pc.e < |s.loads|
  {
    var e := s.calls[id].pc.e;
    s.(cache := Published(s.cache, e, value, err, s.now),
       loads := s.loads[e := s.loads[e].(finishedAt := s.now)],
       calls := s.calls - {id})
  }

  lemma ShutGrows(s: Sys, id: nat, value: Value, err: Option<string>)
    requires Inv(s) && Shaped(s) && Enabled(s, Finish(id, value, err))
    ensures Grows(s, Shut(s, id, value, err))
  {
    hide LoadsOk, WritesOk, CacheOk, OneLoader;
    assert CallOk(s, s.calls[id]);
  }

  lemma ShutKeepsLoads(s: Sys, id: nat, value: Value, err: Option<string>)
    requires Inv(s) && Shaped(s) && Enabled(s, Finish(id, value, err))
    ensures LoadsOk(Shut(s, id, value, err))
  {
    hide CallsOk, WritesOk, CacheOk, OneLoader, Grows;
    var s', e := Shut(s, id, value, err), s.calls[id].pc.e;
    ShutGrows(s, id, value, err);
    assert LoadOk(s, e);
    forall d | d in s.loads[e].inner
      ensures d < |s'.loads| && s'.cache.heap[d].ready && s'.loads[d].finishedAt > s.loads[e].createdAt - TTL
    {
    }
    LoadsSurvive(s, s');
  }

  lemma ShutKeepsCalls(s: Sys, id: nat, value: Value, err: Option<string>)
    requires Inv(s) && Shaped(s) && Enabled(s, Finish(id, value, err))
    ensures CallsOk(Shut(s, id, value, err)) && OneLoader(Shut(s, id, value, err).calls)
  {
    hide LoadsOk, WritesOk, CacheOk, Grows;
    var s', e := Shut(s, id, value, err), s.calls[id].pc.e;
    ShutGrows(s, id, value, err);
    forall j | j in s'.calls
      ensures Undisturbed(s', s.calls[j])
    {
      assert CallOk(s, s.calls[j]);
    }
    CallsSurvive(s, s');
  }

  lemma ShutKeepsInv(s: Sys, id: nat, value: Value, err: Option<string>)
    requires Inv(s) && Shaped(s) && Enabled(s, Finish(id, value, err))
    ensures Inv(Shut(s, id, value, err))
  {
    hide LoadsOk, CallsOk, WritesOk, CacheOk, OneLoader;
    var s', e := Shut(s, id, value, err), s.calls[id].pc.e;
    ShutKeepsLoads(s, id, value, err);
    ShutKeepsCalls(s, id, value, err);
    PublishShrinks(s.cache, e, value, err, s.now);
    ShrinkKeepsCache(s.cache, s'.cache, s.loads, s.acked);
    SameKeysKeepCache(s'.cache, s.loads, s'.loads, s.acked);
  }

  /** The finishing call can hand over what it loaded. */
  lemma FinishAttaches(s: Sys, id: nat, value: Value, err: Option<string>)
    requires Inv(s) && Shaped(s) && Enabled(s, Finish(id, value, err))
    ensures Ready(Shut(s, id, value, err), id, s.calls[id], s.calls[id].pc.e)
  {
    ShutKeepsInv(s, id, value, err);
    hide LoadsOk, CallsOk, WritesOk, CacheOk, OneLoader;
    CallAt(s, id);
    var c, s' := s.calls[id], Shut(s, id, value, err);
    assert c.parent != Some(c.pc.e);
    assert ParentOk(s', c.(pc := Waiting(c.pc.e)));
  }

  lemma FinishKeepsInv(s: Sys, id: nat, value: Value, err: Option<string>)
    requires Inv(s) && Shaped(s) && Enabled(s, Finish(id, value, err))
    ensures Inv(Finished(s, id, value, err))
  {
    hide Inv, LoadsOk, CallsOk, WritesOk, CacheOk, OneLoader, Deliver;
    var c, s' := s.calls[id], Shut(s, id, value, err);
    var p := s'.(calls := s.calls);
    FinishAttaches(s, id, value, err);
    if err.Some? {
      var failed := c.(pc := Evicting(c.pc.e));
      assert CallOk(s', failed);
      CallMoves(s', id, failed);
      assert s'.calls[id := failed] == s.calls[id := failed];
    } else {
      assert Shaped(p);
      DeliverKeepsInv(s', id, c, c.pc.e);
      DeliverIgnores(p, id, c, c.pc.e);
    }
  }

  /** Every step of every caller, load, writer and the clock keeps the invariant. */
  lemma StepKeepsInv(s: Sys, a: Action)
    requires Inv(s) && Shaped(s) && Enabled(s, a)
    ensures Inv(Apply(s, a))
  {
    hide Inv, Locked, Finished, Deliver, Acknowledged;
    match a
    case Tick(elapsed) => TickKeepsInv(s, elapsed);
    case Begin(id, key, parent) => BeginKeepsInv(s, id, key, parent);
    case Lock(id, delay) => LockKeepsInv(s, id, delay);
    case Wake(id) => WakeKeepsInv(s, id);
    case Read(id) => ReadKeepsInv(s, id);
    case Finish(id, value, err) => FinishKeepsInv(s, id, value, err);
    case Evict(id) => EvictKeepsInv(s, id);
    case Commit(w, tenant, identity) => CommitStep(s, w, tenant, identity);
    case Acknowledge(w) => AcknowledgeKeepsInv(s, w);
    case CommitInTransaction(tenant) =>
      InvGivesWrites(s);
      CommitKeepsInv(s, s.version[tenant := At(s.version, tenant) + 1], s.writers);
    case InvalidateOnly(identity) => InvalidateKeepsInv(s, identity);
  }

  lemma InvGivesWrites(s: Sys)
    requires Inv(s)
    ensures WritesOk(s.version, s.acked, s.writers)
  {
  }

  lemma CommitStep(s: Sys, w: nat, tenant: string, identity: string)
    requires Inv(s) && Shaped(s) && Enabled(s, Commit(w, tenant, identity))
    ensures Inv(Apply(s, Commit(w, tenant, identity)))
  {
    hide LoadsOk, CallsOk, CacheOk, OneLoader;
    var v := At(s.version, tenant) + 1;
    CommitKeepsInv(s, s.version[tenant := v], s.writers[w := Writer(tenant, identity, v)]);
  }
}
