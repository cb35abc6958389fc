/**
 The per-tenant memo cache (internal/repository/summary_cache.go).

 `MemoCache` holds the fields of the source; each method is one critical section of its mutex, or the
 moment a finished load publishes its entry by closing `ready`. Entries are references in the source:
 here they are indexes into `heap`, in allocation order. Times are nanoseconds.
 */
module SummaryCache {
  import opened Prelude

  datatype Key = Key(tenant: string, name: string)

  /** A memoised value; the cache never looks inside. */
  type Value = int

  datatype Entry = Entry(gen: nat, expires: int, value: Value, err: Option<string>, ready: bool)

  datatype Cache = Cache(entries: map<Key, nat>, gen: map<string, nat>, heap: seq<Entry>)

  /** What the first critical section of memo decides. */
  datatype Found = Hit(id: nat) | Join(id: nat) | Start(id: nat)

  const TTL: int := 15_000_000_000

  function At(m: map<string, nat>, tenant: string): nat {
    if tenant in m then m[tenant] else 0
  }

  ghost predicate Sound(c: Cache) {
    forall k :: k in c.entries ==> c.entries[k] < |c.heap|
  }

  function Lookup(c: Cache, key: Key, now: int): Found
    requires Sound(c)
  {
    if key in c.entries && c.heap[c.entries[key]].gen == At(c.gen, key.tenant) then
      var e := c.heap[c.entries[key]];
      if !e.ready then Join(c.entries[key])
      else if e.err == None && now < e.expires then Hit(c.entries[key])
      else Start(|c.heap|)
    else Start(|c.heap|)
  }

  /** Finished entries past their expiry leave the map. */
  function Purged(c: Cache, now: int): Cache
    requires Sound(c)
  {
    c.(entries := map k | k in c.entries &&
                          !(c.heap[c.entries[k]].ready && now > c.heap[c.entries[k]].expires) :: c.entries[k])
  }

  function Started(c: Cache, key: Key, now: int): Cache
    requires Sound(c)
  {
    var e := Entry(At(c.gen, key.tenant), 0, 0, None, false);
    Purged(c.(entries := c.entries[key := |c.heap|], heap := c.heap + [e]), now)
  }

  function Published(c: Cache, id: nat, value: Value, err: Option<string>, now: int): Cache
    requires id < |c.heap|
  {
    c.(heap := c.heap[id := c.heap[id].(value := value, err := err, expires := now + TTL, ready := true)])
  }

  function Evicted(c: Cache, key: Key, id: nat): Cache {
    if key in c.entries && c.entries[key] == id then c.(entries := c.entries - {key}) else c
  }

  function KeysOf(keys: set<Key>, tenant: string): set<Key> {
    set k | k in keys && k.tenant == tenant
  }

  function Tenants(keys: set<Key>): set<string> {
    set k | k in keys :: k.tenant
  }

  /** Invalidating without a tenant bumps a tenant once for every entry it has in the map. */
  function BumpedAll(gen: map<string, nat>, keys: set<Key>): map<string, nat> {
    map t | t in gen.Keys + Tenants(keys) :: At(gen, t) + |KeysOf(keys, t)|
  }

  function Invalidated(c: Cache, tenant: string): Cache {
    if tenant == "" then c.(gen := BumpedAll(c.gen, c.entries.Keys))
    else c.(gen := c.gen[tenant := At(c.gen, tenant) + 1])
  }

  lemma BumpedAllAt(gen: map<string, nat>, keys: set<Key>, tenant: string)
    ensures At(BumpedAll(gen, keys), tenant) == At(gen, tenant) + |KeysOf(keys, tenant)|
  {
    if tenant !in BumpedAll(gen, keys) {
      assert KeysOf(keys, tenant) == {};
    }
  }

  class MemoCache {
    var entries: map<Key, nat>
    var gen: map<string, nat>
    var heap: seq<Entry>

    ghost predicate Valid()
      reads this
    {
      Sound(Contents())
    }

    function Contents(): Cache
      reads this
    {
      Cache(entries, gen, heap)
    }

    constructor ()
      ensures Valid() && Contents() == Cache(map[], map[], [])
    {
      entries, gen, heap := map[], map[], [];
    }

    /** memo up to the first unlock: serve, join the load in progress, or start one. */
    method Enter(key: Key, now: int, purgeAt: int) returns (found: Found)
      requires Valid()
      modifies this
      ensures Valid()
      ensures found == Lookup(old(Contents()), key, now)
      ensures Contents() == if found.Start? then Started(old(Contents()), key, purgeAt) else old(Contents())
    {
      var current := At(gen, key.tenant);
      if key in entries {
        var e := heap[entries[key]];
        if e.gen == current {
          if e.ready {
            if e.err == None && now < e.expires {
              return Hit(entries[key]);
            }
          } else {
            return Join(entries[key]);
          }
        }
      }
      found := Start(|heap|);
      heap := heap + [Entry(current, 0, 0, None, false)];
      entries := entries[key := |heap| - 1];
      PurgeLocked(purgeAt);
    }

    method PurgeLocked(now: int)
      requires Valid()
      modifies this`entries
      ensures Valid()
      ensures Contents() == Purged(old(Contents()), now)
    {
      var todo := entries.Keys;
      while todo != {}
        invariant todo <= entries.Keys <= old(entries).Keys
        invariant forall k :: k in entries ==> entries[k] == old(entries)[k]
        invariant forall k :: k in old(entries) && k !in todo ==>
          (k in entries <==> !(heap[old(entries)[k]].ready && now > heap[old(entries)[k]].expires))
        decreases |todo|
      {
        var k :| k in todo;
        todo := todo - {k};
        var e := heap[entries[k]];
        if e.ready {
          if now > e.expires {
            entries := entries - {k};
          }
        }
      }
    }

    /** The load is done: fill the entry in and wake everybody waiting on it. */
    method Publish(id: nat, value: Value, err: Option<string>, now: int)
      requires Valid() && id < |heap|
      modifies this`heap
      ensures Valid()
      ensures Contents() == Published(old(Contents()), id, value, err, now)
    {
      var e := heap[id];
      heap := heap[id := e.(value := value, err := err, expires := now + TTL, ready := true)];
    }

    /** A failed load removes its own entry, unless a newer one took the key. */
    method EvictFailed(key: Key, id: nat)
      requires Valid()
      modifies this`entries
      ensures Valid()
      ensures Contents() == Evicted(old(Contents()), key, id)
    {
      if key in entries && entries[key] == id {
        entries := entries - {key};
      }
    }

    method Invalidate(tenant: string)
      requires Valid()
      modifies this`gen
      ensures Valid()
      ensures Contents() == Invalidated(old(Contents()), tenant)
    {
      if tenant == "" {
        BumpEveryEntry();
        return;
      }
      gen := gen[tenant := At(gen, tenant) + 1];
    }

    method BumpEveryEntry()
      modifies this`gen
      ensures gen == BumpedAll(old(gen), entries.Keys)
    {
      hide BumpedAll;
      var todo := entries.Keys;
      ghost var done: set<Key> := {};
      BumpNothing(gen);
      while todo != {}
        invariant done !! todo && done + todo == entries.Keys
        invariant gen == BumpedAll(old(gen), done)
        decreases |todo|
      {
        var k :| k in todo;
        BumpOneMore(old(gen), done, k);
        gen := gen[k.tenant := At(gen, k.tenant) + 1];
        todo, done := todo - {k}, done + {k};
      }
      assert done == entries.Keys;
    }
  }

  lemma BumpNothing(gen: map<string, nat>)
    ensures BumpedAll(gen, {}) == gen
  {
    assert gen.Keys + Tenants({}) == gen.Keys;
    forall t | t in gen
      ensures BumpedAll(gen, {})[t] == gen[t]
    {
      assert KeysOf({}, t) == {};
    }
  }

  lemma KeysOfAdds(done: set<Key>, k: Key, tenant: string)
    requires k !in done
    ensures |KeysOf(done + {k}, tenant)| == |KeysOf(done, tenant)| + if tenant == k.tenant then 1 else 0
  {
    if tenant == k.tenant {
      assert KeysOf(done + {k}, tenant) == KeysOf(done, tenant) + {k};
    } else {
      assert KeysOf(done + {k}, tenant) == KeysOf(done, tenant);
    }
  }

  lemma TenantsAdd(done: set<Key>, k: Key)
    ensures Tenants(done + {k}) == Tenants(done) + {k.tenant}
  {
    assert k in done + {k};
    forall t | t in Tenants(done)
      ensures t in Tenants(done + {k})
    {
      var j :| j in done && j.tenant == t;
      assert j in done + {k};
    }
  }

  lemma BumpOneMore(gen: map<string, nat>, done: set<Key>, k: Key)
    requires k !in done
    ensures BumpedAll(gen, done + {k}) ==
            BumpedAll(gen, done)[k.tenant := At(BumpedAll(gen, done), k.tenant) + 1]
  {
    var before, after := BumpedAll(gen, done), BumpedAll(gen, done + {k});
    TenantsAdd(done, k);
    assert after.Keys == before.Keys + {k.tenant};
    BumpedAllAt(gen, done, k.tenant);
    forall t | t in after
      ensures after[t] == before[k.tenant := At(before, k.tenant) + 1][t]
    {
      KeysOfAdds(done, k, t);
      BumpedAllAt(gen, done + {k}, t);
    }
  }
}
