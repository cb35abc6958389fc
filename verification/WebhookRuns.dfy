/**
 Whole runs of webhook deliveries, retry jobs and anything else that changes tenants in between.
 */
module WebhookRuns {
  import opened Prelude
  import opened Webhooks

  datatype Action =
    | Deliver(ev: Event, faults: Faults, now: int)
    | RetryJob(ids: seq<string>, each: seq<Faults>, now: int)
    | Outside(change: Business -> Business)

  ghost predicate Enabled(db: Db, a: Action) {
    a.RetryJob? ==> IsRetryList(db.events, a.now, a.ids) && |a.each| == |a.ids|
  }

  ghost function Perform(db: Db, a: Action): Db
    requires Enabled(db, a)
  {
    match a
    case Deliver(ev, f, now) => Delivered(db, ev, f, now)
    case RetryJob(ids, each, now) => RetriedAll(db, ids, each, now)
    case Outside(change) => db.(business := change(db.business))
  }

  ghost predicate Possible(db: Db, run: seq<Action>)
    decreases |run|
  {
    run == [] || (Enabled(db, run[0]) && Possible(Perform(db, run[0]), run[1..]))
  }

  ghost function After(db: Db, run: seq<Action>): Db
    requires Possible(db, run)
    decreases |run|
  {
    if run == [] then db else After(Perform(db, run[0]), run[1..])
  }

  /** A row with an error has been processed: the two are written together. */
  ghost predicate Inv(db: Db) {
    forall id :: id in db.events ==> db.events[id].event.id == id &&
                                     (db.events[id].error.Some? ==> db.events[id].processedAt.Some?)
  }

  // ------------------------------------------------------------------ the retry job never finds anything

  lemma SomethingListed(events: map<string, EventRow>, now: int, ids: seq<string>)
    requires IsRetryList(events, now, ids) && ids != []
    ensures Retriable(events, now) != {}
  {
    assert ids[0] in Retriable(events, now);
  }

  lemma NothingToRetry(db: Db, now: int, ids: seq<string>)
    requires Inv(db) && IsRetryList(db.events, now, ids)
    ensures ids == []
  {
    assert Retriable(db.events, now) == {};
    hide Inv, Retriable;
    if ids != [] {
      SomethingListed(db.events, now, ids);
    }
  }

  lemma StepKeepsInv(db: Db, a: Action)
    requires Inv(db) && Enabled(db, a)
    ensures Inv(Perform(db, a))
    ensures a.RetryJob? ==> a.ids == [] && Perform(db, a) == db
  {
    if a.RetryJob? {
      NothingToRetry(db, a.now, a.ids);
    }
    hide Effect, IsRetryList;
  }

  lemma {:induction false} RunKeepsInv(db: Db, run: seq<Action>)
    requires Inv(db) && Possible(db, run)
    ensures Inv(After(db, run))
    decreases |run|
  {
    hide Inv, Perform, Enabled;
    if run != [] {
      StepKeepsInv(db, run[0]);
      RunKeepsInv(Perform(db, run[0]), run[1..]);
    }
  }

  /**
   Whatever was delivered and whatever failed before, the job that is to retry failed events finds none:
   it changes nothing and reports no success.
   */
  lemma RetryJobDoesNothing(business: Business, run: seq<Action>, ids: seq<string>, each: seq<Faults>, now: int)
    requires Possible(Db(business, map[]), run)
    requires IsRetryList(After(Db(business, map[]), run).events, now, ids) && |each| == |ids|
    ensures ids == []
    ensures RetriedAll(After(Db(business, map[]), run), ids, each, now) == After(Db(business, map[]), run)
    ensures RetriedOk(After(Db(business, map[]), run), ids, each, now) == 0
  {
    RunKeepsInv(Db(business, map[]), run);
    NothingToRetry(After(Db(business, map[]), run), now, ids);
  }

  /** The state after delivering events one after the other. */
  function AllDelivered(db: Db, evs: seq<Event>, faults: seq<Faults>, now: int): Db
    requires |faults| == |evs|
    decreases |evs|
  {
    if evs == [] then db else AllDelivered(Delivered(db, evs[0], faults[0], now), evs[1..], faults[1..], now)
  }

  /** How many of them are handled without an error. */
  function HandledWell(db: Db, evs: seq<Event>, faults: seq<Faults>, now: int): nat
    requires |faults| == |evs|
    decreases |evs|
  {
    if evs == [] then 0
    else
      HandledWell(Delivered(db, evs[0], faults[0], now), evs[1..], faults[1..], now) +
      if Effect(db.business, evs[0], faults[0], now).error == None then 1 else 0
  }

  /** Rows of these events that wait to be processed, each once. */
  ghost predicate Waiting(db: Db, ids: seq<string>, evs: seq<Event>) {
    && |evs| == |ids|
    && (forall k :: 0 <= k < |ids| ==>
          evs[k].id == ids[k] && ids[k] in db.events && db.events[ids[k]].event == evs[k] && !Processed(db, ids[k]))
    && forall j, k :: 0 <= j < k < |ids| ==> ids[j] != ids[k]
  }

  /**
   Were there something to retry, the job would do what delivering the events again does, up to and
   including the first whose mark fails, and count those before it that were handled without an error.
   */
  lemma {:induction false} RetryIsRedelivery(db: Db, ids: seq<string>, evs: seq<Event>, faults: seq<Faults>,
                                             now: int, m: nat)
    requires Waiting(db, ids, evs) && |faults| == |ids|
    requires forall f :: f in faults ==> !f.check && !f.create
    requires m <= |ids| && (forall k :: 0 <= k < m ==> !faults[k].mark) && (m < |ids| ==> faults[m].mark)
    ensures var n := if m < |ids| then m + 1 else m;
            RetriedAll(db, ids, faults, now) == AllDelivered(db, evs[..n], faults[..n], now)
    ensures RetriedOk(db, ids, faults, now) == HandledWell(db, evs[..m], faults[..m], now)
    decreases |ids|
  {
    hide Effect;
    if ids != [] {
      var n := if m < |ids| then m + 1 else m;
      var next := Delivered(db, evs[0], faults[0], now);
      assert faults[0] in faults;
      assert Pending(db.events, evs[0], now) == db.events;
      if m == 0 {
        assert evs[..1] == [evs[0]] && faults[..1] == [faults[0]];
      } else {
        RetryIsRedelivery(next, ids[1..], evs[1..], faults[1..], now, m - 1);
        assert evs[..n][1..] == evs[1..][..n - 1] && faults[..n][1..] == faults[1..][..n - 1];
        assert evs[..m][1..] == evs[1..][..m - 1] && faults[..m][1..] == faults[1..][..m - 1];
      }
    }
  }

  // ------------------------------------------------------------------ how often a handler runs

  /** A delivery that gets as far as the handler unless the event was processed before. */
  predicate Reaches(a: Action, id: string) {
    a.Deliver? && a.ev.id == id && !a.faults.check && !a.faults.create
  }

  /** How often the handler runs for events with this id. */
  ghost function Runs(db: Db, run: seq<Action>, id: string): nat
    requires Possible(db, run)
    decreases |run|
  {
    if run == [] then 0
    else
      (if Reaches(run[0], id) && !Processed(db, id) then 1 else 0) +
      (if run[0].RetryJob? && id in run[0].ids then 1 else 0) +
      Runs(Perform(db, run[0]), run[1..], id)
  }

  /** The deliveries that reach the handler, up to and including the first whose mark is written. */
  function Attempts(run: seq<Action>, id: string): nat {
    if run == [] then 0
    else if Reaches(run[0], id) then 1 + if run[0].faults.mark then Attempts(run[1..], id) else 0
    else Attempts(run[1..], id)
  }

  lemma StepProcesses(db: Db, a: Action, id: string)
    requires Inv(db) && Enabled(db, a)
    ensures Processed(Perform(db, a), id) <==>
            Processed(db, id) || (Reaches(a, id) && !a.faults.mark)
  {
    StepKeepsInv(db, a);
    hide Effect, IsRetryList;
  }

  /** The handler runs once for every attempt until the outcome is on record, and never after. */
  lemma {:induction false} RunsAreAttempts(db: Db, run: seq<Action>, id: string)
    requires Inv(db) && Possible(db, run)
    ensures Runs(db, run, id) == if Processed(db, id) then 0 else Attempts(run, id)
    decreases |run|
  {
    hide Inv, Perform, Enabled, Reaches, Processed;
    if run != [] {
      StepProcesses(db, run[0], id);
      StepKeepsInv(db, run[0]);
      RunsAreAttempts(Perform(db, run[0]), run[1..], id);
    }
  }

  /** Two attempts at one event, the first of them not recorded. */
  ghost predicate Repeats(run: seq<Action>, id: string, i: nat, j: nat)
    requires i < j < |run|
  {
    && Reaches(run[i], id) && run[i].faults.mark && Reaches(run[j], id)
    && forall k :: 0 <= k < i ==> !Reaches(run[k], id)
  }

  /** A handler runs at most once unless the first attempt's mark is lost and the event comes again. */
  lemma {:induction false} MoreThanOnce(run: seq<Action>, id: string)
    ensures Attempts(run, id) > 1 <==> exists i, j :: 0 <= i < j < |run| && Repeats(run, id, i, j)
    ensures Attempts(run, id) > 0 <==> exists i :: 0 <= i < |run| && Reaches(run[i], id)
    decreases |run|
  {
    if run != [] {
      MoreThanOnce(run[1..], id);
      if Reaches(run[0], id) {
        if j :| 0 <= j < |run[1..]| && Reaches(run[1..][j], id) {
          assert Reaches(run[j + 1], id);
          assert run[0].Deliver? && run[0].faults.mark ==> Repeats(run, id, 0, j + 1);
        }
        if i, j :| 0 <= i < j < |run| && Repeats(run, id, i, j) {
          assert i == 0 && run[1..][j - 1] == run[j];
        }
      } else {
        if i, j :| 0 <= i < j < |run[1..]| && Repeats(run[1..], id, i, j) {
          assert Repeats(run, id, i + 1, j + 1);
        }
        if i, j :| 0 <= i < j < |run| && Repeats(run, id, i, j) {
          assert run[1..][i - 1] == run[i] && run[1..][j - 1] == run[j];
          assert Repeats(run[1..], id, i - 1, j - 1);
        }
        if i :| 0 <= i < |run| && Reaches(run[i], id) {
          assert run[1..][i - 1] == run[i];
        }
        if i :| 0 <= i < |run[1..]| && Reaches(run[1..][i], id) {
          assert run[i + 1] == run[1..][i];
        }
      }
    }
  }

  /**
   Over any run from an empty table, an event's handler runs at most once exactly when no lost mark is followed
   by a redelivery.
  */
  lemma HandlersRunOnce(business: Business, run: seq<Action>, id: string)
    requires Possible(Db(business, map[]), run)
    ensures Runs(Db(business, map[]), run, id) <= 1 <==>
            forall i, j :: 0 <= i < j < |run| ==> !Repeats(run, id, i, j)
  {
    RunsAreAttempts(Db(business, map[]), run, id);
    MoreThanOnce(run, id);
  }

  // ------------------------------------------------------------------ only first deliveries count

  /** The run without repeated deliveries, deliveries that reach nothing, and retry jobs. */
  function Firsts(run: seq<Action>, seen: set<string>): seq<Action>
    decreases |run|
  {
    if run == [] then []
    else
      match run[0]
      case Deliver(ev, f, _) =>
        if f.check || f.create || ev.id in seen then Firsts(run[1..], seen)
        else [run[0]] + Firsts(run[1..], seen + {ev.id})
      case RetryJob(_, _, _) => Firsts(run[1..], seen)
      case Outside(_) => [run[0]] + Firsts(run[1..], seen)
  }

  ghost predicate MarksSucceed(run: seq<Action>) {
    forall i :: 0 <= i < |run| && run[i].Deliver? ==> !run[i].faults.mark
  }

  /** No event is delivered twice in what is left. */
  lemma {:induction false} FirstsAreDistinct(run: seq<Action>, seen: set<string>)
    ensures forall i :: 0 <= i < |Firsts(run, seen)| && Firsts(run, seen)[i].Deliver? ==>
              Firsts(run, seen)[i].ev.id !in seen
    ensures forall i, j ::
              (0 <= i < j < |Firsts(run, seen)| && Firsts(run, seen)[i].Deliver? && Firsts(run, seen)[j].Deliver?) ==>
                Firsts(run, seen)[i].ev.id != Firsts(run, seen)[j].ev.id
    ensures forall i :: 0 <= i < |Firsts(run, seen)| ==> !Firsts(run, seen)[i].RetryJob?
    decreases |run|
  {
    if run != [] {
      FirstsAreDistinct(run[1..], seen);
      if run[0].Deliver? {
        FirstsAreDistinct(run[1..], seen + {run[0].ev.id});
      }
    }
  }

  ghost predicate SeenIs(db: Db, seen: set<string>) {
    forall id :: id in seen <==> Processed(db, id)
  }

  lemma DroppedChangesNothing(db: Db, a: Action, seen: set<string>)
    requires Inv(db) && Enabled(db, a) && SeenIs(db, seen)
    requires a.RetryJob? || (a.Deliver? && (a.faults.check || a.faults.create || a.ev.id in seen))
    ensures Perform(db, a) == db
  {
    StepKeepsInv(db, a);
  }

  lemma KeptIsSeen(db: Db, a: Action, seen: set<string>)
    requires Inv(db) && Enabled(db, a) && SeenIs(db, seen)
    requires a.Deliver? && !a.faults.check && !a.faults.create && !a.faults.mark
    ensures SeenIs(Perform(db, a), seen + {a.ev.id})
  {
    forall id
      ensures id in seen + {a.ev.id} <==> Processed(Perform(db, a), id)
    {
      StepProcesses(db, a, id);
    }
  }

  /**
   When marks are written, the whole state after any run, duplicates, failed handlers, retry jobs and other
   changes included, is the state after the first deliveries alone.
   */
  lemma {:induction false} OnlyFirstDeliveriesCount(db: Db, run: seq<Action>, seen: set<string>)
    requires Inv(db) && Possible(db, run) && MarksSucceed(run) && SeenIs(db, seen)
    ensures Possible(db, Firsts(run, seen)) && After(db, Firsts(run, seen)) == After(db, run)
    decreases |run|
  {
    hide Inv, Perform, Enabled, SeenIs;
    if run != [] {
      var a, rest := run[0], run[1..];
      assert forall i :: 0 <= i < |rest| ==> rest[i] == run[i + 1];
      StepKeepsInv(db, a);
      if a.RetryJob? || (a.Deliver? && (a.faults.check || a.faults.create || a.ev.id in seen)) {
        DroppedChangesNothing(db, a, seen);
        OnlyFirstDeliveriesCount(db, rest, seen);
      } else {
        var seen' := if a.Deliver? then seen + {a.ev.id} else seen;
        if a.Deliver? {
          KeptIsSeen(db, a, seen);
        } else {
          OutsideIsUnseen(db, a, seen);
        }
        OnlyFirstDeliveriesCount(Perform(db, a), rest, seen');
        assert Firsts(run, seen) == [a] + Firsts(rest, seen');
        assert ([a] + Firsts(rest, seen'))[1..] == Firsts(rest, seen');
      }
    }
  }

  lemma OutsideIsUnseen(db: Db, a: Action, seen: set<string>)
    requires Enabled(db, a) && a.Outside? && SeenIs(db, seen)
    ensures SeenIs(Perform(db, a), seen)
  {
  }

  // ------------------------------------------------------------------ what handlers do

  /** What the tenant's standing becomes when the provider's status is known. */
  function StandingFor(status: ProviderStatus, before: Standing): Standing {
    match status
    case IsActive => Active
    case IsOverdue => PendingPayment
    case IsCancelled => Cancelled
    case IsExpired => Cancelled
    case IsOther => before
  }

  /** The tenant after an event about its subscription that nothing goes wrong with. */
  function TenantAfter(t: Tenant, ev: Event, now: int): Tenant {
    match ev.kind
    case PaymentReceived =>
      if t.standing in {Suspended, PendingPayment} then Tenant(t.id, Active, t.subscription, t.cancelledAt, now) else t
    case PaymentOverdue => Tenant(t.id, PendingPayment, t.subscription, t.cancelledAt, now)
    case SubscriptionDeleted => Tenant(t.id, Cancelled, None, Some(now), now)
    case SubscriptionUpdated =>
      if ev.status.None? then t
      else Tenant(t.id, StandingFor(ev.status.value, t.standing), t.subscription, t.cancelledAt, now)
    case OtherKind => t
  }

  /** What the first delivery of an event does when no call fails, and when one does. */
  lemma FirstDelivery(db: Db, ev: Event, f: Faults, now: int)
    requires !Processed(db, ev.id) && ev.subscription.Some? && !f.check && !f.create
    ensures var i := Subscriber(db.business.tenants, ev.subscription.value);
            var h, after := Effect(db.business, ev, f, now), Delivered(db, ev, f, now);
            && after.business == h.business
            && (i < |db.business.tenants| && !f.find && !f.dunning && !f.update ==>
                  && h.error == None
                  && h.business.tenants == db.business.tenants[i := TenantAfter(db.business.tenants[i], ev, now)])
            && (!f.mark ==> ev.id in after.events && after.events[ev.id].processedAt == Some(now) &&
                            (h.error.Some? ==> after.events[ev.id].error == h.error))
            && (h.error.Some? ==> h.business.tenants == db.business.tenants)
            && (h.error == Some("find tenant") <==> ev.kind != OtherKind && f.find)
            && (h.error == Some("create dunning") <==>
                  ev.kind == PaymentOverdue && !f.find && i < |db.business.tenants| && f.dunning)
            && (h.error.Some? ==> h.error.value in {"find tenant", "create dunning", "update tenant"})
  {
    var i := Subscriber(db.business.tenants, ev.subscription.value);
    if i < |db.business.tenants| {
      assert db.business.tenants == db.business.tenants[i := db.business.tenants[i]];
    }
  }

  /** A handler changes at most the tenant the subscription belongs to. */
  lemma OthersAreLeftAlone(b: Business, ev: Event, f: Faults, now: int, i: nat)
    requires i < |b.tenants| && b.tenants[i].subscription != ev.subscription
    ensures |Effect(b, ev, f, now).business.tenants| == |b.tenants|
    ensures Effect(b, ev, f, now).business.tenants[i] == b.tenants[i]
  {
  }

  /** No two tenants hold the subscription; the database does not forbid it. */
  ghost predicate HeldOnce(tenants: seq<Tenant>, sub: string) {
    forall i, j :: 0 <= i < j < |tenants| && tenants[i].subscription == Some(sub) ==> tenants[j].subscription != Some(sub)
  }

  /** No event about the subscription has any effect. */
  ghost predicate Ignored(b: Business, sub: string) {
    forall late: Event, g: Faults, later: int :: late.subscription == Some(sub) ==>
      Effect(b, late, g, later).business == b
  }

  /** Events about a subscription are without effect exactly when nobody holds it. */
  lemma IgnoredIffUnheld(b: Business, sub: string)
    ensures Ignored(b, sub) <==> Subscriber(b.tenants, sub) == |b.tenants|
  {
    if Subscriber(b.tenants, sub) < |b.tenants| {
      var overdue := Event("late", PaymentOverdue, Some(sub), None);
      var h := Effect(b, overdue, Faults(false, false, false, false, false, false), 0);
      assert |h.business.dunning| == |b.dunning| + 1;
    }
  }

  /**
   Once a subscription is deleted, nothing that still arrives for it has any effect, exactly if no two tenants
   held it: deletion takes it from the first one only.
   */
  lemma NothingAfterDeletion(b: Business, ev: Event, f: Faults, now: int)
    requires ev.kind == SubscriptionDeleted && ev.subscription.Some? && Effect(b, ev, f, now).error == None
    ensures Ignored(Effect(b, ev, f, now).business, ev.subscription.value) <==>
            HeldOnce(b.tenants, ev.subscription.value)
  {
    var after, sub := Effect(b, ev, f, now).business, ev.subscription.value;
    var i := Subscriber(b.tenants, sub);
    IgnoredIffUnheld(after, sub);
    hide Ignored;
    if HeldOnce(b.tenants, sub) {
      forall k | 0 <= k < |after.tenants|
        ensures after.tenants[k].subscription != Some(sub)
      {
        if i < k {
          assert b.tenants[i].subscription == Some(sub);
        }
      }
    } else {
      var x, y :| 0 <= x < y < |b.tenants| && b.tenants[x].subscription == Some(sub) == b.tenants[y].subscription;
      assert after.tenants[y].subscription == Some(sub);
    }
  }

  // ------------------------------------------------------------------ an overdue payment, half handled

  /** An overdue event that has not been processed, about a tenant it would change. */
  ghost predicate FreshOverdue(db: Db, ev: Event, now: int) {
    && ev.kind == PaymentOverdue && ev.subscription.Some? && !Processed(db, ev.id)
    && var i := Subscriber(db.business.tenants, ev.subscription.value);
       i < |db.business.tenants| && Overdue(db.business.tenants[i], now) != db.business.tenants[i]
  }

  function Overdue(t: Tenant, now: int): Tenant { t.(standing := PendingPayment, updatedAt := now) }

  function DunningOf(db: Db, ev: Event, now: int): Dunning
    requires FreshOverdue(db, ev, now)
  {
    Dunning(db.business.tenants[Subscriber(db.business.tenants, ev.subscription.value)].id, ev.subscription.value, 1, now)
  }

  /** The tenants once the overdue tenant has been saved. */
  function TenantsOverdue(db: Db, ev: Event, now: int): seq<Tenant>
    requires FreshOverdue(db, ev, now)
  {
    var i := Subscriber(db.business.tenants, ev.subscription.value);
    db.business.tenants[i := Overdue(db.business.tenants[i], now)]
  }

  /** One of the dunning record and the new standing was written, and the other was not. */
  ghost predicate HalfHandled(db: Db, after: Db, ev: Event, now: int)
    requires FreshOverdue(db, ev, now)
  {
    (after.business.dunning == db.business.dunning + [DunningOf(db, ev, now)]) !=
    (after.business.tenants == TenantsOverdue(db, ev, now))
  }

  /** An overdue payment is handled by halves if and only if everything before the tenant's update succeeds and that fails. */
  lemma HalfHandledIff(db: Db, ev: Event, f: Faults, now: int)
    requires FreshOverdue(db, ev, now)
    ensures HalfHandled(db, Delivered(db, ev, f, now), ev, now) <==>
            !f.check && !f.create && !f.find && !f.dunning && f.update
    ensures HalfHandled(db, Delivered(db, ev, f, now), ev, now) ==>
            Delivered(db, ev, f, now).business == Business(db.business.tenants, db.business.dunning + [DunningOf(db, ev, now)])
  {
    assert db.business.dunning + [DunningOf(db, ev, now)] != db.business.dunning;
    var i := Subscriber(db.business.tenants, ev.subscription.value);
    assert TenantsOverdue(db, ev, now)[i] != db.business.tenants[i];
  }

  /** Nothing but deliveries of the event, in whatever state of the network, and retry jobs. */
  ghost predicate OnlyAgain(run: seq<Action>, id: string) {
    forall k :: 0 <= k < |run| ==> !run[k].Outside? && (run[k].Deliver? ==> run[k].ev.id == id)
  }

  /** No such run changes what was written. */
  ghost predicate Permanent(db: Db, id: string) {
    forall run: seq<Action> :: Possible(db, run) && OnlyAgain(run, id) ==> After(db, run).business == db.business
  }

  lemma {:induction false} ProcessedStays(db: Db, run: seq<Action>, id: string)
    requires Inv(db) && Possible(db, run) && OnlyAgain(run, id) && Processed(db, id)
    ensures After(db, run) == db
    decreases |run|
  {
    if run != [] {
      assert !run[0].Outside? && (run[0].Deliver? ==> run[0].ev.id == id);
      StepKeepsInv(db, run[0]);
      assert Perform(db, run[0]) == db;
      assert forall k :: 0 <= k < |run[1..]| ==> run[1..][k] == run[k + 1];
      ProcessedStays(db, run[1..], id);
    }
  }

  /** A redelivery after a lost mark handles the event again: a second dunning record, and the standing if it can be saved. */
  lemma RedeliveryAfterLostMark(db: Db, ev: Event, f: Faults, now: int, g: Faults, later: int)
    requires FreshOverdue(db, ev, now)
    requires !f.check && !f.create && !f.find && !f.dunning && f.update && f.mark
    requires !g.check && !g.create && !g.find && !g.dunning
    ensures var once := Delivered(db, ev, f, now);
            var twice := Delivered(once, ev, g, later);
            var i := Subscriber(db.business.tenants, ev.subscription.value);
            var record := DunningOf(db, ev, now);
            && !Processed(once, ev.id)
            && twice.business.dunning == db.business.dunning + [record, record.(createdAt := later)]
            && twice.business.tenants == (if g.update then db.business.tenants
                                          else db.business.tenants[i := Overdue(db.business.tenants[i], later)])
            && (Processed(twice, ev.id) <==> !g.mark)
  {
    var once := Delivered(db, ev, f, now);
    assert once.business == Business(db.business.tenants, db.business.dunning + [DunningOf(db, ev, now)]);
  }

  /** The half state is permanent, under redeliveries and retry jobs, if and only if the failure was recorded. */
  lemma HalfStateIsPermanentIff(db: Db, ev: Event, f: Faults, now: int)
    requires Inv(db) && FreshOverdue(db, ev, now) && HalfHandled(db, Delivered(db, ev, f, now), ev, now)
    ensures Permanent(Delivered(db, ev, f, now), ev.id) <==> !f.mark
  {
    var once := Delivered(db, ev, f, now);
    HalfHandledIff(db, ev, f, now);
    assert Enabled(db, Deliver(ev, f, now));
    StepKeepsInv(db, Deliver(ev, f, now));
    StepProcesses(db, Deliver(ev, f, now), ev.id);
    hide Inv, Effect;
    if f.mark {
      var g := Faults(false, false, false, false, false, false);
      RedeliveryAfterLostMark(db, ev, f, now, g, now);
      var again := [Deliver(ev, g, now)];
      OneDelivery(once, ev, g, now);
      assert |Delivered(once, ev, g, now).business.dunning| == |once.business.dunning| + 1;
      assert OnlyAgain(again, ev.id) && After(once, again).business != once.business;
    } else {
      forall run: seq<Action> | Possible(once, run) && OnlyAgain(run, ev.id)
        ensures After(once, run).business == once.business
      {
        ProcessedStays(once, run, ev.id);
      }
    }
  }

  /**
   An instance: an overdue payment whose tenant cannot be saved leaves a dunning record behind without the new
   standing; with that failure on record, a redelivery or a retry job leaves it that way.
   */
  lemma OverdueMayStopHalfway(db: Db, ev: Event, f: Faults, now: int, a: Action)
    requires Inv(db) && ev.kind == PaymentOverdue && ev.subscription.Some? && !Processed(db, ev.id)
    requires f == Faults(false, false, false, false, true, false)
    requires Subscriber(db.business.tenants, ev.subscription.value) < |db.business.tenants|
    ensures var once := Delivered(db, ev, f, now);
            && once.business.tenants == db.business.tenants
            && |once.business.dunning| == |db.business.dunning| + 1
            && Processed(once, ev.id) && once.events[ev.id].error.Some?
            && (Enabled(once, a) && !a.Outside? && (a.Deliver? ==> a.ev.id == ev.id) ==> Perform(once, a) == once)
  {
    var once := Delivered(db, ev, f, now);
    assert Enabled(db, Deliver(ev, f, now));
    StepKeepsInv(db, Deliver(ev, f, now));
    assert once == Perform(db, Deliver(ev, f, now));
    if Enabled(once, a) {
      StepKeepsInv(once, a);
    }
  }

  lemma OneDelivery(db: Db, ev: Event, f: Faults, now: int)
    ensures Possible(db, [Deliver(ev, f, now)])
    ensures After(db, [Deliver(ev, f, now)]) == Delivered(db, ev, f, now)
  {
    var d := Deliver(ev, f, now);
    assert [d][1..] == [];
    assert Enabled(db, d) && Possible(Perform(db, d), []);
  }

  /** What an undisturbed event of this kind makes of the standing of its tenant. */
  function StandingAfter(b: Business, kind: Kind, sub: string, status: Option<ProviderStatus>, now: int): Standing
    requires Subscriber(b.tenants, sub) < |b.tenants|
  {
    var after := Effect(b, Event("", kind, Some(sub), status), Faults(false, false, false, false, false, false), now);
    after.business.tenants[Subscriber(b.tenants, sub)].standing
  }

  /**
   The events agree with each other: a payment after an overdue one makes the tenant active whatever it was
   before; a status notice from the provider has the standing of the matching event; a payment alone
   reactivates exactly the suspended and the pending.
   */
  lemma EventsAgree(b: Business, sub: string, now: int, later: int)
    requires Subscriber(b.tenants, sub) < |b.tenants|
    ensures var i := Subscriber(b.tenants, sub);
            var none := Faults(false, false, false, false, false, false);
            var overdue := Effect(b, Event("", PaymentOverdue, Some(sub), None), none, now).business;
            && Subscriber(overdue.tenants, sub) == i < |overdue.tenants|
            && StandingAfter(overdue, PaymentReceived, sub, None, later) == Active
            && |overdue.dunning| == |b.dunning| + 1
    ensures StandingAfter(b, PaymentOverdue, sub, None, now) ==
            StandingAfter(b, SubscriptionUpdated, sub, Some(IsOverdue), now)
    ensures StandingAfter(b, SubscriptionDeleted, sub, None, now) ==
            StandingAfter(b, SubscriptionUpdated, sub, Some(IsExpired), now)
    ensures StandingAfter(b, SubscriptionUpdated, sub, Some(IsCancelled), now) == Cancelled
    ensures (StandingAfter(b, PaymentReceived, sub, None, now) ==
             StandingAfter(b, SubscriptionUpdated, sub, Some(IsActive), now)) <==>
            b.tenants[Subscriber(b.tenants, sub)].standing in {Suspended, PendingPayment, Active}
  {
    var i, none := Subscriber(b.tenants, sub), Faults(false, false, false, false, false, false);
    var overdue := Effect(b, Event("", PaymentOverdue, Some(sub), None), none, now).business;
    SubscriberStays(b.tenants, i, overdue.tenants[i], sub);
  }

  lemma {:induction false} SubscriberStays(tenants: seq<Tenant>, i: nat, t: Tenant, sub: string)
    requires i == Subscriber(tenants, sub) < |tenants| && t.subscription == Some(sub)
    ensures Subscriber(tenants[i := t], sub) == i
  {
    if i > 0 {
      SubscriberStays(tenants[1..], i - 1, t, sub);
      assert tenants[i := t][1..] == tenants[1..][i - 1 := t];
    }
  }
}
