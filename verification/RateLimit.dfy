/**
 Token-bucket rate limiter (internal/delivery/middleware/rate_limit.go).

 The limiter is a class whose methods are the two critical sections of the source: `Allow`, and one
 tick of the background cleanup. Whole runs are sequences of calls and sweeps over a clock that never
 goes back; seconds are reals.
 */
module RateLimit {
  import opened Prelude

  datatype Config = Config(requestsPerMinute: int, burst: int) {
    /** Tokens gained per second. */
    function Rate(): real { requestsPerMinute as real / 60.0 }

    /** Tokens gained between two instants. */
    function Earned(from: real, to: real): real { (to - from) * Rate() }

    /** A configuration that never takes tokens away and lets a first call through. */
    ghost predicate Sane() { requestsPerMinute >= 0 && burst >= 1 }

    /** An idle bucket is full again by the time cleanup may drop it. */
    ghost predicate RefillsWhileIdle() { 30 * requestsPerMinute >= burst }
  }

  datatype Bucket = Bucket(tokens: real, lastUpdate: real)

  type Buckets = map<string, Bucket>

  const IDLE_SECONDS: real := 1800.0

  function Refilled(c: Config, b: Bucket, now: real): real {
    var grown := b.tokens + c.Earned(b.lastUpdate, now);
    if grown > c.burst as real then c.burst as real else grown
  }

  function Lookup(bs: Buckets, fp: string): Option<Bucket> {
    if fp in bs then Some(bs[fp]) else None
  }

  /** The bucket left behind by one request, and whether the request passes. */
  function Visit(c: Config, b: Option<Bucket>, now: real): (Bucket, bool) {
    match b
    case None => (Bucket(c.burst as real - 1.0, now), true)
    case Some(bucket) =>
      var t := Refilled(c, bucket, now);
      if t >= 1.0 then (Bucket(t - 1.0, now), true) else (Bucket(t, now), false)
  }

  function Swept(bs: Buckets, now: real): Buckets {
    map fp | fp in bs && !(now - bs[fp].lastUpdate > IDLE_SECONDS) :: bs[fp]
  }

  class RateLimiter {
    const config: Config
    var buckets: Buckets

    constructor (requestsPerMinute: int, burst: int)
      ensures config == Config(requestsPerMinute, burst)
      ensures buckets == map[]
    {
      config := Config(requestsPerMinute, burst);
      buckets := map[];
    }

    method Allow(fingerprint: string, now: real) returns (allowed: bool)
      modifies this
      ensures allowed == Visit(config, Lookup(old(buckets), fingerprint), now).1
      ensures buckets ==
              old(buckets)[fingerprint := Visit(config, Lookup(old(buckets), fingerprint), now).0]
    {
      if fingerprint !in buckets {
        buckets := buckets[fingerprint := Bucket(config.burst as real - 1.0, now)];
        return true;
      }
      var bucket := buckets[fingerprint];
      var elapsed := now - bucket.lastUpdate;
      assert elapsed * (config.requestsPerMinute as real / 60.0) == config.Earned(bucket.lastUpdate, now);
      hide Config.Earned, Config.Rate;
      bucket := bucket.(tokens := bucket.tokens + elapsed * (config.requestsPerMinute as real / 60.0));
      if bucket.tokens > config.burst as real {
        bucket := bucket.(tokens := config.burst as real);
      }
      bucket := bucket.(lastUpdate := now);
      if bucket.tokens >= 1.0 {
        bucket := bucket.(tokens := bucket.tokens - 1.0);
        allowed := true;
      } else {
        allowed := false;
      }
      buckets := buckets[fingerprint := bucket];
    }

    /** One tick of the cleanup goroutine. */
    method Cleanup(now: real)
      modifies this
      ensures buckets == Swept(old(buckets), now)
    {
      var todo := buckets.Keys;
      while todo != {}
        invariant todo <= buckets.Keys <= old(buckets).Keys
        invariant forall fp :: fp in buckets ==> buckets[fp] == old(buckets)[fp]
        invariant forall fp :: fp in old(buckets) && fp !in todo ==>
          (fp in buckets <==> !(now - old(buckets)[fp].lastUpdate > IDLE_SECONDS))
        decreases |todo|
      {
        var fp :| fp in todo;
        todo := todo - {fp};
        if now - buckets[fp].lastUpdate > IDLE_SECONDS {
          buckets := buckets - {fp};
        }
      }
    }
  }

  // ------------------------------------------------------------------ runs

  datatype Event = Call(fp: string, at: real) | Sweep(at: real)

  function Step(c: Config, bs: Buckets, e: Event): Buckets {
    match e
    case Call(fp, now) => bs[fp := Visit(c, Lookup(bs, fp), now).0]
    case Sweep(now) => Swept(bs, now)
  }

  function After(c: Config, bs: Buckets, es: seq<Event>): Buckets
    decreases |es|
  {
    if es == [] then bs else After(c, Step(c, bs, es[0]), es[1..])
  }

  /** The answer of every call of the run, in order. */
  function Answers(c: Config, bs: Buckets, es: seq<Event>): seq<bool>
    decreases |es|
  {
    if es == [] then []
    else
      var rest := Answers(c, Step(c, bs, es[0]), es[1..]);
      match es[0]
      case Call(fp, now) => [Visit(c, Lookup(bs, fp), now).1] + rest
      case Sweep(_) => rest
  }

  /** The answers given to one fingerprint. */
  function AnswersTo(c: Config, bs: Buckets, es: seq<Event>, fp: string): seq<bool>
    decreases |es|
  {
    if es == [] then []
    else
      var rest := AnswersTo(c, Step(c, bs, es[0]), es[1..], fp);
      if es[0].Call? && es[0].fp == fp
      then [Visit(c, Lookup(bs, fp), es[0].at).1] + rest
      else rest
  }

  /** How many calls of `fp` made between `s` and `t` pass. */
  function Granted(c: Config, bs: Buckets, es: seq<Event>, fp: string, s: real, t: real): nat
    decreases |es|
  {
    if es == [] then 0
    else
      (if es[0].Call? && es[0].fp == fp && s <= es[0].at <= t && Visit(c, Lookup(bs, fp), es[0].at).1
       then 1 else 0) + Granted(c, Step(c, bs, es[0]), es[1..], fp, s, t)
  }

  /** The clock of a run starts at `from` and never goes back. */
  ghost predicate Timed(es: seq<Event>, from: real) {
    es != [] ==> from <= es[0].at && Timed(es[1..], es[0].at)
  }

  ghost predicate NeverSweeps(es: seq<Event>) {
    forall e :: e in es ==> e.Call?
  }

  function WithoutSweeps(es: seq<Event>): seq<Event> {
    if es == [] then []
    else (if es[0].Call? then [es[0]] else []) + WithoutSweeps(es[1..])
  }

  function CallsOf(es: seq<Event>, fp: string): seq<Event> {
    if es == [] then []
    else (if es[0].Sweep? || es[0].fp == fp then [es[0]] else []) + CallsOf(es[1..], fp)
  }

  // ------------------------------------------------------------------ tokens stay in range

  /** Every bucket holds between 0 and `burst` tokens and was not touched in the future. */
  ghost predicate InRange(c: Config, bs: Buckets, now: real) {
    forall fp :: fp in bs ==> 0.0 <= bs[fp].tokens <= c.burst as real && bs[fp].lastUpdate <= now
  }

  // The only arithmetic on products; everywhere else `Earned` stays folded.

  lemma EarnedAdds(c: Config, x: real, y: real, z: real)
    requires c.requestsPerMinute >= 0 && x <= y <= z
    ensures c.Earned(x, z) == c.Earned(x, y) + c.Earned(y, z)
    ensures 0.0 <= c.Earned(x, y) && 0.0 <= c.Earned(y, z)
  {
    var r := c.Rate();
    assert (y - x) * r >= 0.0;
    assert (z - y) * r >= 0.0;
    assert (z - x) * r == (y - x) * r + (z - y) * r;
  }

  lemma EarnedInSeconds(c: Config, now: real, seconds: int)
    ensures c.Earned(now, now + seconds as real) == (seconds * c.requestsPerMinute) as real / 60.0
  {
    assert now + seconds as real - now == seconds as real;
    Quotient(seconds, c.requestsPerMinute);
  }

  lemma Quotient(a: int, b: int)
    ensures a as real * (b as real / 60.0) == (a * b) as real / 60.0
  {
  }

  lemma EarnedWhileIdle(c: Config, x: real, y: real)
    requires c.requestsPerMinute >= 0 && y - x > IDLE_SECONDS
    ensures c.Earned(x, y) >= (30 * c.requestsPerMinute) as real
  {
    EarnedAdds(c, x, x + 1800 as real, y);
    EarnedInSeconds(c, x, 1800);
  }

  lemma RefillBounds(c: Config, b: Bucket, x: real, y: real)
    requires c.Sane() && 0.0 <= b.tokens <= c.burst as real && b.lastUpdate <= x <= y
    ensures 0.0 <= Refilled(c, b, x) <= Refilled(c, b, y) <= Refilled(c, b, x) + c.Earned(x, y)
    ensures Refilled(c, b, y) <= c.burst as real
  {
    hide Config.Earned;
    EarnedAdds(c, b.lastUpdate, x, y);
  }

  lemma NoTimeNoRefill(c: Config, b: Bucket, now: real)
    requires b.lastUpdate == now && b.tokens <= c.burst as real
    ensures Refilled(c, b, now) == b.tokens
  {
    hide Config.Earned;
    EarnedInSeconds(c, now, 0);
  }

  lemma StepInRange(c: Config, bs: Buckets, e: Event, now: real)
    requires c.Sane() && InRange(c, bs, now) && now <= e.at
    ensures InRange(c, Step(c, bs, e), e.at)
  {
    hide Config.Earned;
    if e.Call? && e.fp in bs {
      RefillBounds(c, bs[e.fp], e.at, e.at);
    }
  }

  /** In every reachable state of every run the tokens stay between 0 and the burst. */
  lemma {:induction false} TokensStayInRange(c: Config, bs: Buckets, es: seq<Event>, now: real)
    requires c.Sane() && InRange(c, bs, now) && Timed(es, now)
    ensures InRange(c, After(c, bs, es), if es == [] then now else es[|es| - 1].at)
    decreases |es|
  {
    hide Config.Earned;
    if es != [] {
      StepInRange(c, bs, es[0], now);
      TokensStayInRange(c, Step(c, bs, es[0]), es[1..], es[0].at);
    }
  }

  // ------------------------------------------------------------------ the token-bucket bound

  /** Tokens `fp` could spend at time `x` if nobody called before. */
  function Available(c: Config, bs: Buckets, fp: string, x: real): real {
    if fp in bs then Refilled(c, bs[fp], x) else c.burst as real
  }

  /** A bucket idle long enough to be dropped is full, so dropping it gives nothing away. */
  lemma IdleMeansFull(c: Config, b: Bucket, x: real)
    requires c.Sane() && c.RefillsWhileIdle() && b.tokens >= 0.0 && x - b.lastUpdate > IDLE_SECONDS
    ensures Refilled(c, b, x) == c.burst as real
  {
    hide Config.Earned;
    EarnedWhileIdle(c, b.lastUpdate, x);
  }

  lemma AvailableGrows(c: Config, bs: Buckets, fp: string, now: real, at: real)
    requires c.Sane() && InRange(c, bs, now) && now <= at
    ensures 0.0 <= Available(c, bs, fp, at) <= Available(c, bs, fp, now) + c.Earned(now, at)
  {
    hide Config.Earned;
    EarnedAdds(c, now, at, at);
    if fp in bs {
      RefillBounds(c, bs[fp], now, at);
    }
  }

  lemma VisitPays(c: Config, bs: Buckets, fp: string, at: real)
    requires fp in bs ==> Refilled(c, bs[fp], at) >= 0.0
    ensures Available(c, Step(c, bs, Call(fp, at)), fp, at) ==
            Available(c, bs, fp, at) - if Visit(c, Lookup(bs, fp), at).1 then 1.0 else 0.0
  {
    hide Config.Earned;
    NoTimeNoRefill(c, Visit(c, Lookup(bs, fp), at).0, at);
  }

  function Spends(c: Config, bs: Buckets, e: Event, fp: string): bool {
    e.Call? && e.fp == fp && Visit(c, Lookup(bs, fp), e.at).1
  }

  /** What one event costs and leaves: the grant is paid out of the available tokens. */
  lemma StepPays(c: Config, bs: Buckets, e: Event, fp: string, now: real)
    requires c.Sane() && InRange(c, bs, now) && now <= e.at
    requires e.Call? || c.RefillsWhileIdle()
    ensures Available(c, Step(c, bs, e), fp, e.at) ==
            Available(c, bs, fp, e.at) - if Spends(c, bs, e, fp) then 1.0 else 0.0
  {
    hide Config.Earned;
    AvailableGrows(c, bs, fp, now, e.at);
    if e.Sweep? {
      if fp in bs && e.at - bs[fp].lastUpdate > IDLE_SECONDS {
        IdleMeansFull(c, bs[fp], e.at);
      }
    } else if e.fp == fp {
      VisitPays(c, bs, fp, e.at);
    }
  }

  lemma {:induction false} GrantedFromState(
      c: Config, bs: Buckets, es: seq<Event>, fp: string, s: real, t: real, now: real)
    requires c.Sane() && InRange(c, bs, now) && Timed(es, now)
    requires s <= now <= t
    requires NeverSweeps(es) || c.RefillsWhileIdle()
    ensures Granted(c, bs, es, fp, s, t) as real <= Available(c, bs, fp, now) + c.Earned(now, t)
    decreases |es|
  {
    hide Config.Earned;
    AvailableGrows(c, bs, fp, now, now);
    EarnedAdds(c, now, t, t);
    if es != [] {
      var e := es[0];
      assert e in es;
      if e.at > t {
        NothingAfter(c, Step(c, bs, e), es[1..], fp, s, t, e.at);
      } else {
        AvailableGrows(c, bs, fp, now, e.at);
        StepPays(c, bs, e, fp, now);
        StepInRange(c, bs, e, now);
        GrantedFromState(c, Step(c, bs, e), es[1..], fp, s, t, e.at);
        EarnedAdds(c, now, e.at, t);
      }
    }
  }

  lemma {:induction false} NothingAfter(
      c: Config, bs: Buckets, es: seq<Event>, fp: string, s: real, t: real, now: real)
    requires Timed(es, now) && t < now
    ensures Granted(c, bs, es, fp, s, t) == 0
    decreases |es|
  {
    hide Config.Earned;
    if es != [] {
      NothingAfter(c, Step(c, bs, es[0]), es[1..], fp, s, t, es[0].at);
    }
  }

  lemma {:induction false} GrantedInWindow(
      c: Config, bs: Buckets, es: seq<Event>, fp: string, s: real, t: real, now: real)
    requires c.Sane() && InRange(c, bs, now) && Timed(es, now)
    requires s <= t
    requires NeverSweeps(es) || c.RefillsWhileIdle()
    ensures Granted(c, bs, es, fp, s, t) as real <= c.burst as real + c.Earned(s, t)
    decreases |es|
  {
    hide Config.Earned;
    EarnedAdds(c, s, t, t);
    if t < now {
      NothingAfter(c, bs, es, fp, s, t, now);
    } else if s <= now {
      GrantedFromState(c, bs, es, fp, s, t, now);
      AvailableAtMostBurst(c, bs, fp, now);
      EarnedAdds(c, s, now, t);
    } else if es != [] && es[0].at < s {
      assert es[0] in es;
      StepInRange(c, bs, es[0], now);
      GrantedInWindow(c, Step(c, bs, es[0]), es[1..], fp, s, t, es[0].at);
    } else {
      assert InRange(c, bs, s);
      assert Timed(es, s);
      GrantedFromState(c, bs, es, fp, s, t, s);
      AvailableAtMostBurst(c, bs, fp, s);
    }
  }

  lemma AvailableAtMostBurst(c: Config, bs: Buckets, fp: string, x: real)
    ensures Available(c, bs, fp, x) <= c.burst as real
  {
    hide Config.Earned;
  }

  ghost predicate WithinBound(c: Config, es: seq<Event>, fp: string, start: real, s: real, t: real) {
    Timed(es, start) && s <= t ==>
      Granted(c, map[], es, fp, s, t) as real <= c.burst as real + c.Earned(s, t)
  }

  /** The first request of a fingerprint passes whatever the configuration. */
  lemma OneCallPasses(c: Config, fp: string, t: real)
    requires t >= 0.0
    ensures Timed([Call(fp, 0.0)], 0.0)
    ensures Granted(c, map[], [Call(fp, 0.0)], fp, 0.0, t) == 1
  {
    hide Config.Earned;
    var es := [Call(fp, 0.0)];
    assert Granted(c, Step(c, map[], es[0]), es[1..], fp, 0.0, t) == 0;
  }

  /** Without cleanup the bound needs no relation between the rate and the burst. */
  lemma TokenBucketBoundWithoutCleanup(c: Config, es: seq<Event>, fp: string, start: real, s: real, t: real)
    requires c.Sane() && Timed(es, start) && s <= t && NeverSweeps(es)
    ensures Granted(c, map[], es, fp, s, t) as real <= c.burst as real + c.Earned(s, t)
  {
    GrantedInWindow(c, map[], es, fp, s, t, start);
  }

  // ------------------------------------------------------------------ fingerprints are independent

  /** The calls of the other fingerprints can be removed from a run without changing an answer. */
  lemma {:induction false} OthersDoNotInterfere(c: Config, bs: Buckets, bs': Buckets, es: seq<Event>, fp: string)
    requires Lookup(bs, fp) == Lookup(bs', fp)
    ensures AnswersTo(c, bs, es, fp) == AnswersTo(c, bs', CallsOf(es, fp), fp)
    decreases |es|
  {
    hide Config.Earned;
    if es != [] {
      var e := es[0];
      if e.Sweep? || e.fp == fp {
        assert CallsOf(es, fp)[0] == e && CallsOf(es, fp)[1..] == CallsOf(es[1..], fp);
        OthersDoNotInterfere(c, Step(c, bs, e), Step(c, bs', e), es[1..], fp);
      } else {
        assert CallsOf(es, fp) == CallsOf(es[1..], fp);
        OthersDoNotInterfere(c, Step(c, bs, e), bs', es[1..], fp);
      }
    }
  }

  // ------------------------------------------------------------------ cleanup cannot be observed

  /** `swept` is `kept` without some buckets that are full from `now` on. */
  ghost predicate SameToCallers(c: Config, swept: Buckets, kept: Buckets, now: real) {
    && InRange(c, swept, now) && InRange(c, kept, now)
    && (forall fp :: fp in swept ==> fp in kept && kept[fp] == swept[fp])
    && (forall fp :: fp in kept && fp !in swept ==> Refilled(c, kept[fp], now) == c.burst as real)
  }

  lemma CallKeepsSame(c: Config, swept: Buckets, kept: Buckets, fp: string, now: real, at: real)
    requires c.Sane() && SameToCallers(c, swept, kept, now) && now <= at
    ensures Visit(c, Lookup(swept, fp), at) == Visit(c, Lookup(kept, fp), at)
    ensures SameToCallers(c, Step(c, swept, Call(fp, at)), Step(c, kept, Call(fp, at)), at)
  {
    hide Config.Earned;
    StepInRange(c, swept, Call(fp, at), now);
    StepInRange(c, kept, Call(fp, at), now);
    forall f | f in kept && f !in swept
      ensures Refilled(c, kept[f], at) == c.burst as real
    {
      RefillBounds(c, kept[f], now, at);
    }
  }

  lemma SweepKeepsSame(c: Config, swept: Buckets, kept: Buckets, now: real, at: real)
    requires c.Sane() && c.RefillsWhileIdle() && SameToCallers(c, swept, kept, now) && now <= at
    ensures SameToCallers(c, Swept(swept, at), kept, at)
  {
    hide Config.Earned;
    forall f | f in kept && f !in Swept(swept, at)
      ensures Refilled(c, kept[f], at) == c.burst as real
    {
      if f in swept {
        IdleMeansFull(c, kept[f], at);
      } else {
        RefillBounds(c, kept[f], now, at);
      }
    }
  }

  lemma {:induction false} SameAnswers(c: Config, swept: Buckets, kept: Buckets, es: seq<Event>, now: real)
    requires c.Sane() && c.RefillsWhileIdle() && SameToCallers(c, swept, kept, now) && Timed(es, now)
    ensures Answers(c, swept, es) == Answers(c, kept, WithoutSweeps(es))
    decreases |es|
  {
    hide Config.Earned;
    if es != [] {
      var e := es[0];
      match e {
        case Call(fp, at) =>
          CallKeepsSame(c, swept, kept, fp, now, at);
          assert WithoutSweeps(es)[0] == e && WithoutSweeps(es)[1..] == WithoutSweeps(es[1..]);
          SameAnswers(c, Step(c, swept, e), Step(c, kept, e), es[1..], at);
        case Sweep(at) =>
          SweepKeepsSame(c, swept, kept, now, at);
          assert WithoutSweeps(es) == WithoutSweeps(es[1..]);
          SameAnswers(c, Step(c, swept, e), kept, es[1..], at);
      }
    }
  }

  /** `n` calls of one fingerprint at one instant. */
  function Volley(fp: string, at: real, n: nat): seq<Event> {
    if n == 0 then [] else [Call(fp, at)] + Volley(fp, at, n - 1)
  }

  lemma {:induction false} VolleyTimed(fp: string, at: real, n: nat, tail: seq<Event>)
    requires Timed(tail, at)
    ensures Timed(Volley(fp, at, n) + tail, at)
  {
    var whole := Volley(fp, at, n) + tail;
    if n == 0 {
      assert whole == tail;
    } else {
      VolleyTimed(fp, at, n - 1, tail);
      assert whole[0] == Call(fp, at) && whole[1..] == Volley(fp, at, n - 1) + tail;
    }
  }

  lemma {:induction false} VolleyStays(fp: string, at: real, n: nat, tail: seq<Event>)
    ensures WithoutSweeps(Volley(fp, at, n) + tail) == Volley(fp, at, n) + WithoutSweeps(tail)
  {
    var whole := Volley(fp, at, n) + tail;
    if n == 0 {
      assert whole == tail;
    } else {
      VolleyStays(fp, at, n - 1, tail);
      assert whole[0] == Call(fp, at) && whole[1..] == Volley(fp, at, n - 1) + tail;
    }
  }

  /** A volley drains a bucket one token per call; its last call passes iff there was a token for it. */
  lemma {:induction false} VolleyDrains(c: Config, bs: Buckets, fp: string, at: real, n: nat)
    requires n >= 1 && fp in bs && bs[fp].lastUpdate == at && bs[fp].tokens <= c.burst as real
    ensures |Answers(c, bs, Volley(fp, at, n))| == n
    ensures Answers(c, bs, Volley(fp, at, n))[n - 1] <==> bs[fp].tokens >= n as real
    ensures bs[fp].tokens >= n as real ==>
              After(c, bs, Volley(fp, at, n)) == bs[fp := Bucket(bs[fp].tokens - n as real, at)]
  {
    var v := Volley(fp, at, n);
    assert v[1..] == Volley(fp, at, n - 1);
    hide Config.Earned;
    NoTimeNoRefill(c, bs[fp], at);
    if n == 1 {
      assert v[1..] == [];
    } else {
      VolleyDrains(c, Step(c, bs, v[0]), fp, at, n - 1);
    }
  }

  /** The first call of a fresh fingerprint passes and leaves the rest of a burst. */
  lemma FirstOfVolley(c: Config, bs: Buckets, fp: string, at: real, n: nat)
    requires fp !in bs && n >= 1
    ensures var bs' := bs[fp := Bucket(c.burst as real - 1.0, at)];
            && Answers(c, bs, Volley(fp, at, n)) == [true] + Answers(c, bs', Volley(fp, at, n - 1))
            && After(c, bs, Volley(fp, at, n)) == After(c, bs', Volley(fp, at, n - 1))
  {
    hide Config.Earned, Refilled;
    var v := Volley(fp, at, n);
    assert v[0] == Call(fp, at) && v[1..] == Volley(fp, at, n - 1);
    assert Step(c, bs, v[0]) == bs[fp := Bucket(c.burst as real - 1.0, at)];
    hide Volley;
  }

  /** A full volley passes entirely when the fingerprint is unknown, and leaves an empty bucket. */
  lemma {:induction false} FreshVolley(c: Config, bs: Buckets, fp: string, at: real)
    requires c.Sane() && fp !in bs
    ensures |Answers(c, bs, Volley(fp, at, c.burst))| == c.burst
    ensures Answers(c, bs, Volley(fp, at, c.burst))[c.burst - 1]
    ensures After(c, bs, Volley(fp, at, c.burst)) == bs[fp := Bucket(0.0, at)]
  {
    FirstOfVolley(c, bs, fp, at, c.burst);
    var bs' := bs[fp := Bucket(c.burst as real - 1.0, at)];
    NoVolley(c, bs', fp, at);
    hide Config.Earned, Step, Visit, Volley, After, Answers;
    if c.burst > 1 {
      VolleyDrains(c, bs', fp, at, c.burst - 1);
      assert bs'[fp := Bucket(0.0, at)] == bs[fp := Bucket(0.0, at)];
    }
  }

  lemma NoVolley(c: Config, bs: Buckets, fp: string, at: real)
    ensures Answers(c, bs, Volley(fp, at, 0)) == [] && After(c, bs, Volley(fp, at, 0)) == bs
  {
  }

  /** The last call of a volley against a bucket that was left empty some time ago. */
  lemma StaleVolley(c: Config, bs: Buckets, fp: string, at: real)
    requires c.Sane() && fp in bs && bs[fp] == Bucket(0.0, 0.0) && at >= 0.0
    requires c.Earned(0.0, at) < c.burst as real
    ensures |Answers(c, bs, Volley(fp, at, c.burst))| == c.burst
    ensures !Answers(c, bs, Volley(fp, at, c.burst))[c.burst - 1]
  {
    hide Config.Earned;
    var v := Volley(fp, at, c.burst);
    assert v[0] == Call(fp, at) && v[1..] == Volley(fp, at, c.burst - 1);
    var bs' := Step(c, bs, v[0]);
    EarnedAdds(c, 0.0, at, at);
    if c.burst == 1 {
      assert v[1..] == [];
    } else {
      VolleyDrains(c, bs', fp, at, c.burst - 1);
    }
  }

  lemma {:induction false} RunConcat(c: Config, bs: Buckets, es: seq<Event>, fs: seq<Event>)
    ensures Answers(c, bs, es + fs) == Answers(c, bs, es) + Answers(c, After(c, bs, es), fs)
    decreases |es|
  {
    hide Config.Earned;
    if es == [] {
      assert es + fs == fs;
    } else {
      assert (es + fs)[0] == es[0] && (es + fs)[1..] == es[1..] + fs;
      RunConcat(c, Step(c, bs, es[0]), es[1..], fs);
    }
  }

  /** A burst, a sweep once the bucket is idle but not full, and a second burst. */
  function Probe(c: Config, at: real): seq<Event>
    requires c.burst >= 0
  {
    Volley("f", 0.0, c.burst) + ([Sweep(at)] + Volley("f", at, c.burst))
  }

  lemma ProbeShape(c: Config, at: real)
    requires c.burst >= 0 && at >= 0.0
    ensures Timed(Probe(c, at), 0.0)
    ensures WithoutSweeps(Probe(c, at)) == Volley("f", 0.0, c.burst) + Volley("f", at, c.burst)
  {
    var second := Volley("f", at, c.burst);
    VolleyTimed("f", at, c.burst, []);
    VolleyStays("f", at, c.burst, []);
    assert second + [] == second;
    var tail := [Sweep(at)] + second;
    assert tail[1..] == second;
    VolleyTimed("f", 0.0, c.burst, tail);
    VolleyStays("f", 0.0, c.burst, tail);
    assert WithoutSweeps(tail) == second;
  }

  lemma SweptProbe(c: Config, at: real)
    requires c.Sane() && at > IDLE_SECONDS
    ensures |Answers(c, map[], Probe(c, at))| == 2 * c.burst
    ensures Answers(c, map[], Probe(c, at))[2 * c.burst - 1]
  {
    hide Config.Earned;
    var first, second := Volley("f", 0.0, c.burst), Volley("f", at, c.burst);
    var drained: Buckets := map["f" := Bucket(0.0, 0.0)];
    FreshVolley(c, map[], "f", 0.0);
    RunConcat(c, map[], first, [Sweep(at)] + second);
    assert ([Sweep(at)] + second)[1..] == second;
    assert Swept(drained, at) == map[];
    FreshVolley(c, map[], "f", at);
  }

  lemma UnsweptProbe(c: Config, at: real)
    requires c.Sane() && at >= 0.0 && c.Earned(0.0, at) < c.burst as real
    ensures |Answers(c, map[], WithoutSweeps(Probe(c, at)))| == 2 * c.burst
    ensures !Answers(c, map[], WithoutSweeps(Probe(c, at)))[2 * c.burst - 1]
  {
    hide Config.Earned;
    var first, second := Volley("f", 0.0, c.burst), Volley("f", at, c.burst);
    ProbeShape(c, at);
    FreshVolley(c, map[], "f", 0.0);
    RunConcat(c, map[], first, second);
    StaleVolley(c, map["f" := Bucket(0.0, 0.0)], "f", at);
  }

  /** When a bucket is not full after 30 idle minutes, the probe tells a sweep from none. */
  lemma SweepShows(c: Config) returns (es: seq<Event>)
    requires c.Sane() && !c.RefillsWhileIdle()
    ensures Timed(es, 0.0)
    ensures Answers(c, map[], es) != Answers(c, map[], WithoutSweeps(es))
  {
    hide Config.Earned;
    var at := LateEnough(c);
    es := Probe(c, at);
    ProbeShape(c, at);
    SweptProbe(c, at);
    UnsweptProbe(c, at);
  }

  /** Just after the idle time the bucket is still short of a full burst. */
  lemma LateEnough(c: Config) returns (at: real)
    requires c.Sane() && !c.RefillsWhileIdle()
    ensures at > IDLE_SECONDS && c.Earned(0.0, at) < c.burst as real
  {
    var r := c.Rate();
    var d := 1.0 / (r + 1.0);
    at := IDLE_SECONDS + d;
    EarnedAdds(c, 0.0, IDLE_SECONDS, at);
    EarnedInSeconds(c, 0.0, 1800);
    assert (at - IDLE_SECONDS) * r == d * r == 1.0 - d;
  }

  ghost predicate HidesCleanup(c: Config, es: seq<Event>, start: real) {
    Timed(es, start) ==> Answers(c, map[], es) == Answers(c, map[], WithoutSweeps(es))
  }

  /**
   A limiter that drops idle buckets at arbitrary times answers every call sequence like one that
   never drops any, exactly when a bucket refills completely within the 30 idle minutes.
   */
  lemma CleanupUnobservable(c: Config)
    requires c.Sane()
    ensures (forall es: seq<Event>, start: real :: HidesCleanup(c, es, start)) <==> c.RefillsWhileIdle()
  {
    hide Config.Earned;
    if c.RefillsWhileIdle() {
      forall es: seq<Event>, start: real | Timed(es, start)
        ensures HidesCleanup(c, es, start)
      {
        SameAnswers(c, map[], map[], es, start);
      }
    } else {
      var es := SweepShows(c);
      assert !HidesCleanup(c, es, 0.0);
    }
  }

  // ------------------------------------------------------------------ exactly when the bound holds

  lemma {:induction false} GrantedConcat(
      c: Config, bs: Buckets, es: seq<Event>, fs: seq<Event>, fp: string, s: real, t: real)
    ensures Granted(c, bs, es + fs, fp, s, t) ==
            Granted(c, bs, es, fp, s, t) + Granted(c, After(c, bs, es), fs, fp, s, t)
    decreases |es|
  {
    hide Config.Earned;
    if es == [] {
      assert es + fs == fs;
    } else {
      assert (es + fs)[0] == es[0] && (es + fs)[1..] == es[1..] + fs;
      GrantedConcat(c, Step(c, bs, es[0]), es[1..], fs, fp, s, t);
    }
  }

  /** A volley passes entirely when the bucket has a token for each of its calls. */
  lemma {:induction false} VolleyPasses(c: Config, bs: Buckets, fp: string, at: real, n: nat, s: real, t: real)
    requires fp in bs && bs[fp].lastUpdate == at && n as real <= bs[fp].tokens <= c.burst as real
    requires s <= at <= t
    ensures Granted(c, bs, Volley(fp, at, n), fp, s, t) == n
  {
    hide Config.Earned;
    if n > 0 {
      var v := Volley(fp, at, n);
      assert v[0] == Call(fp, at) && v[1..] == Volley(fp, at, n - 1);
      NoTimeNoRefill(c, bs[fp], at);
      VolleyPasses(c, Step(c, bs, v[0]), fp, at, n - 1, s, t);
    }
  }

  /** An unknown fingerprint is granted a full burst at once. */
  lemma FreshVolleyPasses(c: Config, bs: Buckets, fp: string, at: real, s: real, t: real)
    requires c.burst >= 1 && fp !in bs && s <= at <= t
    ensures Granted(c, bs, Volley(fp, at, c.burst), fp, s, t) == c.burst
  {
    hide Config.Earned;
    var v := Volley(fp, at, c.burst);
    assert v[0] == Call(fp, at) && v[1..] == Volley(fp, at, c.burst - 1);
    VolleyPasses(c, Step(c, bs, v[0]), fp, at, c.burst - 1, s, t);
  }

  /** With a sweep in between, both bursts of the probe pass. */
  lemma ProbeGrantsTwice(c: Config, at: real)
    requires c.Sane() && at > IDLE_SECONDS
    ensures Granted(c, map[], Probe(c, at), "f", 0.0, at) == 2 * c.burst
  {
    hide Config.Earned;
    var first, second := Volley("f", 0.0, c.burst), Volley("f", at, c.burst);
    var drained: Buckets := map["f" := Bucket(0.0, 0.0)];
    FreshVolley(c, map[], "f", 0.0);
    FreshVolleyPasses(c, map[], "f", 0.0, 0.0, at);
    GrantedConcat(c, map[], first, [Sweep(at)] + second, "f", 0.0, at);
    assert ([Sweep(at)] + second)[1..] == second;
    assert Swept(drained, at) == map[];
    FreshVolleyPasses(c, map[], "f", at, 0.0, at);
  }

  /** When an idle bucket is dropped before it is full again, dropping it gives tokens away. */
  lemma SweepBreaksBound(c: Config) returns (at: real)
    requires c.Sane() && !c.RefillsWhileIdle()
    ensures !WithinBound(c, Probe(c, at), "f", 0.0, 0.0, at)
  {
    hide Config.Earned;
    at := LateEnough(c);
    ProbeShape(c, at);
    ProbeGrantsTwice(c, at);
  }

  /** The first request costs a token that is not there, or that a negative rate has taken away in time. */
  lemma FirstCallBreaksBound(c: Config) returns (t: real)
    requires !c.Sane()
    ensures !WithinBound(c, [Call("f", 0.0)], "f", 0.0, 0.0, t)
  {
    hide Config.Earned;
    var seconds := if c.burst >= 1 then 60 * c.burst else 0;
    t := 0.0 + seconds as real;
    OneCallPasses(c, "f", t);
    EarnedInSeconds(c, 0.0, seconds);
    hide Granted;
    if c.burst >= 1 {
      NegativeRateTakes(c.burst, c.requestsPerMinute);
    }
  }

  /** In as many minutes as the burst is high a negative rate takes at least the whole burst away. */
  lemma NegativeRateTakes(burst: int, rpm: int)
    requires burst >= 1 && rpm < 0
    ensures (60 * burst * rpm) as real / 60.0 <= -(burst as real)
  {
    assert 60 * burst * (rpm + 1) <= 0;
    assert 60 * burst * rpm <= -60 * burst;
  }

  /**
   The token-bucket bound holds of every run, cleanup included, every fingerprint and every window
   exactly when a first request costs no more than there is and an idle bucket is full again before
   cleanup may drop it.
   */
  lemma TokenBucketBound(c: Config)
    ensures (forall es: seq<Event>, fp, start: real, s: real, t: real :: WithinBound(c, es, fp, start, s, t))
            <==> c.burst >= 1 && 30 * c.requestsPerMinute >= c.burst
  {
    hide Config.Earned;
    if c.burst >= 1 && 30 * c.requestsPerMinute >= c.burst {
      forall es: seq<Event>, fp, start: real, s: real, t: real | Timed(es, start) && s <= t
        ensures WithinBound(c, es, fp, start, s, t)
      {
        GrantedInWindow(c, map[], es, fp, s, t, start);
      }
    } else if c.Sane() {
      var at := SweepBreaksBound(c);
      assert !WithinBound(c, Probe(c, at), "f", 0.0, 0.0, at);
    } else {
      var t := FirstCallBreaksBound(c);
      assert !WithinBound(c, [Call("f", 0.0)], "f", 0.0, 0.0, t);
    }
  }

  /** The five limiters of the server. */
  const STANDARD_LIMITS: seq<Config> :=
    [Config(5, 3), Config(30, 10), Config(20, 10), Config(30, 15), Config(300, 120)]

  /** Each of them keeps the bound over every run, cleanup included, and hides its cleanup. */
  lemma StandardLimits(c: Config, es: seq<Event>, fp: string, start: real, s: real, t: real)
    requires c in STANDARD_LIMITS && Timed(es, start) && s <= t
    ensures Granted(c, map[], es, fp, s, t) as real <= c.burst as real + c.Earned(s, t)
    ensures Answers(c, map[], es) == Answers(c, map[], WithoutSweeps(es))
  {
    hide Config.Earned;
    GrantedInWindow(c, map[], es, fp, s, t, start);
    SameAnswers(c, map[], map[], es, start);
  }

  // ------------------------------------------------------------------ the Retry-After header

  function RetryAfter(c: Config): int {
    if c.requestsPerMinute <= 0 then 60
    else if 60 / c.requestsPerMinute > 1 then 60 / c.requestsPerMinute else 1
  }

  /**
   A client that was just refused and waits the advertised number of seconds is served, whatever
   fraction of a token it had left, exactly when the rate divides 60 or is at least 60 per minute.
   The integer division rounds the wait down for every other rate.
   */
  lemma RetryAfterSuffices(c: Config, now: real)
    requires c.burst >= 1
    ensures (forall tokens: real :: 0.0 <= tokens < 1.0 ==>
               Visit(c, Some(Bucket(tokens, now)), now + RetryAfter(c) as real).1)
            <==> c.requestsPerMinute > 0 && (c.requestsPerMinute >= 60 || 60 % c.requestsPerMinute == 0)
  {
    hide Config.Earned;
    var rpm, wait := c.requestsPerMinute, RetryAfter(c);
    if rpm > 0 {
      assert wait * rpm >= 60 <==> (rpm >= 60 || 60 % rpm == 0) by {
        if rpm < 60 {
          assert 60 == 60 / rpm * rpm + 60 % rpm;
        }
      }
    }
    if wait * rpm >= 60 {
      forall tokens: real | 0.0 <= tokens < 1.0
        ensures Visit(c, Some(Bucket(tokens, now)), now + wait as real).1
      {
        RefillAfterWait(c, tokens, now, wait);
      }
    } else {
      RefillAfterWait(c, 0.0, now, wait);
      assert !Visit(c, Some(Bucket(0.0, now)), now + wait as real).1;
    }
  }

  /** Nor is it longer than needed: after fewer whole seconds an empty bucket still refuses. */
  lemma RetryAfterIsLeast(c: Config, now: real, wait: nat)
    requires c.burst >= 1 && c.requestsPerMinute > 0 && wait < RetryAfter(c)
    ensures !Visit(c, Some(Bucket(0.0, now)), now + wait as real).1
  {
    hide Config.Earned;
    var rpm := c.requestsPerMinute;
    assert wait * rpm < 60 by {
      if wait > 0 {
        assert 60 == 60 / rpm * rpm + 60 % rpm;
        assert wait <= 60 / rpm - 1;
        assert wait * rpm <= (60 / rpm - 1) * rpm;
      }
    }
    RefillAfterWait(c, 0.0, now, wait);
  }

  /**
   What the rounding costs is less than a second: one second more always suffices. A limiter that
   never refills advertises a minute.
   */
  lemma RetryAfterWithinASecond(c: Config, now: real)
    requires c.burst >= 1
    ensures c.requestsPerMinute > 0 ==> Visit(c, Some(Bucket(0.0, now)), now + (RetryAfter(c) + 1) as real).1
    ensures c.requestsPerMinute > 0 ==>
              RetryAfter(c) == 1 || (RetryAfter(c) > 1 && RetryAfter(c) * c.requestsPerMinute <= 60)
    ensures c.requestsPerMinute <= 0 ==> RetryAfter(c) == 60
  {
    hide Config.Earned;
    var rpm := c.requestsPerMinute;
    if rpm > 0 {
      assert 60 == 60 / rpm * rpm + 60 % rpm;
      assert (RetryAfter(c) + 1) * rpm >= 60 by {
        assert (60 / rpm + 1) * rpm > 60;
      }
      RefillAfterWait(c, 0.0, now, RetryAfter(c) + 1);
    }
  }

  lemma RefillAfterWait(c: Config, tokens: real, now: real, wait: int)
    requires c.burst >= 1 && tokens >= 0.0
    ensures Refilled(c, Bucket(tokens, now), now + wait as real) >= 1.0
            <==> tokens + (wait * c.requestsPerMinute) as real / 60.0 >= 1.0
  {
    hide Config.Earned;
    EarnedInSeconds(c, now, wait);
  }
}
