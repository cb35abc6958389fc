/**
 Payment webhooks (internal/usecase/billing_usecase.go, internal/repository/webhook_repository.go): the
 provider delivers events any number of times, anything may fail, and a job looks for events to retry.
 */
module Webhooks {
  import opened Prelude

  datatype Standing = Trial | Active | Suspended | PendingPayment | Cancelled

  datatype Tenant = Tenant(id: string, standing: Standing, subscription: Option<string>,
                           cancelledAt: Option<int>, updatedAt: int)

  datatype Dunning = Dunning(tenant: string, subscription: string, stage: nat, createdAt: int)

  /** What webhooks act on. */
  datatype Business = Business(tenants: seq<Tenant>, dunning: seq<Dunning>)

  datatype Kind = PaymentReceived | PaymentOverdue | SubscriptionDeleted | SubscriptionUpdated | OtherKind

  datatype ProviderStatus = IsActive | IsOverdue | IsCancelled | IsExpired | IsOther

  datatype Event = Event(id: string, kind: Kind, subscription: Option<string>, status: Option<ProviderStatus>)

  /** A row of payment_webhook_events. */
  datatype EventRow = EventRow(event: Event, createdAt: int, processedAt: Option<int>, error: Option<string>)

  datatype Db = Db(business: Business, events: map<string, EventRow>)

  /** Which database calls of one delivery fail. */
  datatype Faults = Faults(check: bool, create: bool, find: bool, dunning: bool, update: bool, mark: bool)

  datatype Handled = Handled(business: Business, error: Option<string>)

  // ------------------------------------------------------------------ the handlers

  /** The first tenant with the subscription, or the number of tenants. */
  function Subscriber(tenants: seq<Tenant>, sub: string): (i: nat)
    ensures i <= |tenants|
    ensures i < |tenants| ==> tenants[i].subscription == Some(sub)
    ensures forall j :: 0 <= j < i ==> tenants[j].subscription != Some(sub)
  {
    if tenants == [] then 0
    else if tenants[0].subscription == Some(sub) then 0
    else 1 + Subscriber(tenants[1..], sub)
  }

  function Saved(b: Business, i: nat, t: Tenant, f: Faults): Handled
    requires i < |b.tenants|
  {
    if f.update then Handled(b, Some("update tenant")) else Handled(b.(tenants := b.tenants[i := t]), None)
  }

  function Synced(standing: Standing, status: ProviderStatus): Standing {
    match status
    case IsActive => Active
    case IsOverdue => PendingPayment
    case IsCancelled => Cancelled
    case IsExpired => Cancelled
    case IsOther => standing
  }

  /** What handling an event does to the tenant it is about. */
  function HandledFor(b: Business, i: nat, ev: Event, sub: string, f: Faults, now: int): Handled
    requires i < |b.tenants|
  {
    var t := b.tenants[i];
    match ev.kind
    case PaymentReceived =>
      if t.standing == Suspended || t.standing == PendingPayment then
        Saved(b, i, t.(standing := Active, updatedAt := now), f)
      else Handled(b, None)
    case PaymentOverdue =>
      if f.dunning then Handled(b, Some("create dunning"))
      else Saved(b.(dunning := b.dunning + [Dunning(t.id, sub, 1, now)]), i,
                 t.(standing := PendingPayment, updatedAt := now), f)
    case SubscriptionDeleted =>
      Saved(b, i, t.(standing := Cancelled, cancelledAt := Some(now), subscription := None, updatedAt := now), f)
    case SubscriptionUpdated =>
      if ev.status.Some? then Saved(b, i, t.(standing := Synced(t.standing, ev.status.value), updatedAt := now), f)
      else Handled(b, None)
    case OtherKind => Handled(b, None)
  }

  /** processWebhookEvent; an event without a subscription of ours does nothing. */
  function Effect(b: Business, ev: Event, f: Faults, now: int): Handled {
    if ev.kind == OtherKind || ev.subscription == None then Handled(b, None)
    else if f.find then Handled(b, Some("find tenant"))
    else
      var i := Subscriber(b.tenants, ev.subscription.value);
      if i == |b.tenants| then Handled(b, None) else HandledFor(b, i, ev, ev.subscription.value, f, now)
  }

  // ------------------------------------------------------------------ deliveries

  predicate Processed(db: Db, id: string) { id in db.events && db.events[id].processedAt.Some? }

  /** CreatePending: a row that exists stays as it is. */
  function Pending(events: map<string, EventRow>, ev: Event, now: int): map<string, EventRow> {
    if ev.id in events then events else events[ev.id := EventRow(ev, now, None, None)]
  }

  function Marked(events: map<string, EventRow>, id: string, error: Option<string>, now: int): (marked: map<string, EventRow>)
    ensures marked.Keys == events.Keys
  {
    if id !in events then events
    else if error.Some? then events[id := events[id].(processedAt := Some(now), error := error)]
    else events[id := events[id].(processedAt := Some(now))]
  }

  function Delivered(db: Db, ev: Event, f: Faults, now: int): Db {
    if f.check || Processed(db, ev.id) || f.create then db
    else
      var events, h := Pending(db.events, ev, now), Effect(db.business, ev, f, now);
      Db(h.business, if f.mark then events else Marked(events, ev.id, h.error, now))
  }

  // ------------------------------------------------------------------ the retry job

  const MINUTE: int := 60 * 1_000_000
  const RETRY_WINDOW: int := 3 * 24 * 60 * MINUTE

  /** GetPendingRetries: failed, not processed, between five minutes and three days old. */
  function Retriable(events: map<string, EventRow>, now: int): set<string> {
    set id | id in events && events[id].processedAt.None? && events[id].error.Some? &&
             now - RETRY_WINDOW <= events[id].createdAt <= now - 5 * MINUTE
  }

  /** At most a hundred of them, oldest first. */
  ghost predicate IsRetryList(events: map<string, EventRow>, now: int, ids: seq<string>) {
    && (forall k :: 0 <= k < |ids| ==> ids[k] in Retriable(events, now))
    && (forall j, k :: 0 <= j < k < |ids| ==> ids[j] != ids[k] && events[ids[j]].createdAt <= events[ids[k]].createdAt)
    && |ids| <= 100
    && (|ids| < 100 ==> forall id :: id in Retriable(events, now) ==> id in ids)
  }

  /** The job stops at the first mark that cannot be written. */
  function RetriedAll(db: Db, ids: seq<string>, faults: seq<Faults>, now: int): Db
    requires |faults| == |ids| && forall id :: id in ids ==> id in db.events
    decreases |ids|
  {
    if ids == [] then db
    else
      var h := Effect(db.business, db.events[ids[0]].event, faults[0], now);
      if faults[0].mark then Db(h.business, db.events)
      else RetriedAll(Db(h.business, Marked(db.events, ids[0], h.error, now)), ids[1..], faults[1..], now)
  }

  /** How many of the listed events the job handles without an error before a mark fails. */
  function RetriedOk(db: Db, ids: seq<string>, faults: seq<Faults>, now: int): nat
    requires |faults| == |ids| && forall id :: id in ids ==> id in db.events
    decreases |ids|
  {
    if ids == [] then 0
    else
      var h := Effect(db.business, db.events[ids[0]].event, faults[0], now);
      if faults[0].mark then 0
      else (if h.error == None then 1 else 0) +
           RetriedOk(Db(h.business, Marked(db.events, ids[0], h.error, now)), ids[1..], faults[1..], now)
  }

  class BillingService {
    var tenants: seq<Tenant>
    var dunning: seq<Dunning>
    var events: map<string, EventRow>

    function Contents(): Db
      reads this
    {
      Db(Business(tenants, dunning), events)
    }

    method FindSubscriber(sub: string) returns (i: nat)
      ensures i == Subscriber(tenants, sub)
    {
      i := 0;
      while i < |tenants|
        invariant i <= |tenants|
        invariant Subscriber(tenants, sub) == i + Subscriber(tenants[i..], sub)
      {
        if tenants[i].subscription == Some(sub) {
          return;
        }
        assert tenants[i..][1..] == tenants[i + 1..];
        i := i + 1;
      }
    }

    method SaveTenant(i: nat, t: Tenant, f: Faults) returns (error: Option<string>)
      requires i < |tenants|
      modifies this`tenants
      ensures Handled(Contents().business, error) == Saved(old(Contents()).business, i, t, f)
    {
      if f.update {
        return Some("update tenant");
      }
      tenants := tenants[i := t];
      error := None;
    }

    method ProcessEvent(ev: Event, f: Faults, now: int) returns (error: Option<string>)
      modifies this`tenants, this`dunning
      ensures Handled(Contents().business, error) == Effect(old(Contents()).business, ev, f, now)
    {
      if ev.kind == OtherKind || ev.subscription == None {
        return None;
      }
      if f.find {
        return Some("find tenant");
      }
      var sub := ev.subscription.value;
      var i := FindSubscriber(sub);
      if i == |tenants| {
        return None;
      }
      var tenant := tenants[i];
      match ev.kind
      case PaymentReceived =>
        error := None;
        if tenant.standing == Suspended || tenant.standing == PendingPayment {
          error := SaveTenant(i, tenant.(standing := Active, updatedAt := now), f);
        }
      case PaymentOverdue =>
        tenant := tenant.(standing := PendingPayment, updatedAt := now);
        if f.dunning {
          return Some("create dunning");
        }
        dunning := dunning + [Dunning(tenant.id, sub, 1, now)];
        error := SaveTenant(i, tenant, f);
      case SubscriptionDeleted =>
        tenant := tenant.(standing := Cancelled, cancelledAt := Some(now));
        tenant := tenant.(subscription := None, updatedAt := now);
        error := SaveTenant(i, tenant, f);
      case SubscriptionUpdated =>
        error := None;
        if ev.status.Some? {
          tenant := tenant.(standing := Synced(tenant.standing, ev.status.value), updatedAt := now);
          error := SaveTenant(i, tenant, f);
        }
      case OtherKind =>
        error := None;
    }

    /** HandleWebhook: the errors of the final marks are ignored. */
    method HandleWebhook(ev: Event, f: Faults, now: int) returns (error: Option<string>)
      modifies this
      ensures Contents() == Delivered(old(Contents()), ev, f, now)
      ensures error == if f.check then Some("check event")
                       else if Processed(old(Contents()), ev.id) then None
                       else if f.create then Some("save event")
                       else Effect(old(Contents()).business, ev, f, now).error
    {
      if f.check {
        return Some("check event");
      }
      if ev.id in events && events[ev.id].processedAt.Some? {
        return None;
      }
      if f.create {
        return Some("save event");
      }
      if ev.id !in events {
        events := events[ev.id := EventRow(ev, now, None, None)];
      }
      error := ProcessEvent(ev, f, now);
      if !f.mark {
        events := Marked(events, ev.id, error, now);
      }
    }

    method RetryFailedWebhooks(ids: seq<string>, faults: seq<Faults>, now: int) returns (ok: nat)
      requires IsRetryList(events, now, ids) && |faults| == |ids|
      modifies this
      ensures Contents() == RetriedAll(old(Contents()), ids, faults, now)
      ensures ok == RetriedOk(old(Contents()), ids, faults, now)
    {
      hide Effect, Marked;
      ok := 0;
      ghost var begun := Contents();
      assert ids[0..] == ids && faults[0..] == faults;
      assert forall id :: id in ids ==> id in begun.events;
      for k := 0 to |ids|
        invariant events.Keys == begun.events.Keys
        invariant RetriedOk(begun, ids, faults, now) == ok + RetriedOk(Contents(), ids[k..], faults[k..], now)
        invariant RetriedAll(begun, ids, faults, now) == RetriedAll(Contents(), ids[k..], faults[k..], now)
      {
        assert ids[k..][0] == ids[k] && ids[k..][1..] == ids[k + 1..] && faults[k..][1..] == faults[k + 1..];
        var error := ProcessEvent(events[ids[k]].event, faults[k], now);
        if faults[k].mark {
          return;
        }
        events := Marked(events, ids[k], error, now);
        if error == None {
          ok := ok + 1;
        }
      }
    }
  }
}
