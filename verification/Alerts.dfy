/**
 Balances kept one per transformer and period, and the alerts a balance raises
 (internal/repository/balance_repository.go, internal/usecase/alert_usecase.go,
 internal/repository/alert_repository.go). Each upsert and each record of an alert is one step.
 */
module Alerts {
  import opened Prelude

  datatype Status = Normal | Warning | Critical

  datatype Span = Span(transformer: string, start: int, end: int)

  datatype Balance = Balance(id: string, span: Span, status: Status, lossPct: real, calculatedAt: int)

  datatype Channel = Email | Whatsapp

  datatype Level = WarningAlert | CriticalAlert

  datatype Recipient = Recipient(id: string, channel: Channel, address: string, minLevel: Level)

  datatype User = User(email: string, active: bool, manager: bool)

  datatype Sending = PendingSend | Sent | Errored(message: string)

  datatype Delivery = Delivery(id: string, balance: string, recipient: Option<string>, level: Level, channel: Channel,
                               address: string, lossPct: real, sending: Sending, attempts: nat)

  datatype Db = Db(balances: seq<Balance>, alerts: seq<Delivery>)

  // ------------------------------------------------------------------ balances

  /** The first row of the span, or the number of rows. */
  function RowOf(balances: seq<Balance>, span: Span): (i: nat)
    ensures i <= |balances|
    ensures i < |balances| ==> balances[i].span == span
    ensures forall j :: 0 <= j < i ==> balances[j].span != span
  {
    if balances == [] then 0
    else if balances[0].span == span then 0
    else 1 + RowOf(balances[1..], span)
  }

  /** The update rewrites every row of the span and keeps the ids. */
  function Rewritten(balances: seq<Balance>, b: Balance): (r: seq<Balance>)
    ensures |r| == |balances|
    ensures forall i :: 0 <= i < |balances| ==>
              r[i] == if balances[i].span == b.span then b.(id := balances[i].id) else balances[i]
  {
    seq(|balances|, i requires 0 <= i < |balances| =>
      if balances[i].span == b.span then b.(id := balances[i].id) else balances[i])
  }

  function Upserted(balances: seq<Balance>, b: Balance): seq<Balance> {
    if RowOf(balances, b.span) < |balances| then Rewritten(balances, b) else balances + [b]
  }

  /** The id the caller's balance has afterwards. */
  function UpsertedId(balances: seq<Balance>, b: Balance): string {
    if RowOf(balances, b.span) < |balances| then balances[RowOf(balances, b.span)].id else b.id
  }

  // ------------------------------------------------------------------ alerts

  predicate Same(a: Delivery, b: Delivery) {
    a.balance == b.balance && a.address == b.address && a.channel == b.channel && a.level == b.level
  }

  predicate Recorded(alerts: seq<Delivery>, d: Delivery) {
    exists i :: 0 <= i < |alerts| && Same(alerts[i], d)
  }

  predicate Wants(rc: Recipient, level: Level) {
    !(level == WarningAlert && rc.minLevel == CriticalAlert) && !(rc.channel == Whatsapp && level != CriticalAlert)
  }

  function DeliveryFor(id: string, balance: string, lossPct: real, level: Level, rc: Recipient): Delivery {
    Delivery(id, balance, if rc.id == "" then None else Some(rc.id), level, rc.channel, rc.address, lossPct, PendingSend, 0)
  }

  /** The alerts after the loop over the recipients; `failing` are those whose record cannot be written. */
  function Dispatched(alerts: seq<Delivery>, recipients: seq<Recipient>, ids: seq<string>, failing: set<nat>,
                      balance: string, lossPct: real, level: Level): seq<Delivery>
    requires |ids| == |recipients|
  {
    if recipients == [] then alerts
    else
      var n := |recipients| - 1;
      var before := Dispatched(alerts, recipients[..n], ids[..n], failing, balance, lossPct, level);
      var d := DeliveryFor(ids[n], balance, lossPct, level, recipients[n]);
      if Wants(recipients[n], level) && n !in failing && !Recorded(before, d) then before + [d] else before
  }

  /** Without configured recipients, the active owners and administrators by e-mail. */
  function Fallback(users: seq<User>): seq<Recipient> {
    if users == [] then []
    else
      var u := users[|users| - 1];
      Fallback(users[..|users| - 1]) + if u.active &&
          u.manager then [Recipient("", Email, u.email, WarningAlert)] else []
  }

  function Addressees(configured: seq<Recipient>, users: seq<User>): seq<Recipient> {
    if configured == [] then Fallback(users) else configured
  }

  function LevelOf(status: Status): Level { if status == Critical then CriticalAlert else WarningAlert }

  function Recalculated(db: Db, b: Balance, configured: seq<Recipient>, users: seq<User>, ids: seq<string>,
                        failing: set<nat>): Db
    requires |ids| == |Addressees(configured, users)|
  {
    var balances := Upserted(db.balances, b);
    if b.status == Normal then Db(balances, db.alerts)
    else Db(balances, Dispatched(db.alerts, Addressees(configured, users), ids, failing,
                                 UpsertedId(db.balances, b), b.lossPct, LevelOf(b.status)))
  }

  function MarkedAll(alerts: seq<Delivery>, id: string, result: Sending): (r: seq<Delivery>)
    ensures |r| == |alerts|
    ensures forall i :: 0 <= i < |alerts| ==>
              r[i] == if alerts[i].id == id then alerts[i].(sending := result, attempts := alerts[i].attempts + 1)
                      else alerts[i]
  {
    seq(|alerts|, i requires 0 <= i < |alerts| =>
      if alerts[i].id == id then alerts[i].(sending := result, attempts := alerts[i].attempts + 1) else alerts[i])
  }

  class AlertStore {
    var balances: seq<Balance>
    var alerts: seq<Delivery>

    function Contents(): Db
      reads this
    {
      Db(balances, alerts)
    }

    /** UpsertForPeriod: update, or insert when no row was there. */
    method UpsertForPeriod(b: Balance) returns (id: string)
      modifies this`balances
      ensures balances == Upserted(old(balances), b) && id == UpsertedId(old(balances), b)
    {
      var found := false;
      id := b.id;
      var rows := balances;
      for i := 0 to |balances|
        invariant |rows| == |balances|
        invariant found <==> RowOf(old(balances), b.span) < i
        invariant found ==> id == old(balances)[RowOf(old(balances), b.span)].id
        invariant !found ==> id == b.id
        invariant balances == old(balances)
        invariant forall j :: 0 <= j < |rows| ==>
          rows[j] == if j < i && balances[j].span == b.span then b.(id := balances[j].id) else balances[j]
      {
        if balances[i].span == b.span {
          if !found {
            found, id := true, balances[i].id;
          }
          rows := rows[i := b.(id := balances[i].id)];
        }
      }
      if found {
        balances := rows;
        assert balances == Rewritten(old(balances), b);
      } else {
        balances := balances + [b];
      }
    }

    method CreateDelivery(d: Delivery, fails: bool) returns (created: bool)
      modifies this`alerts
      ensures created <==> !fails && !Recorded(old(alerts), d)
      ensures alerts == if created then old(alerts) + [d] else old(alerts)
    {
      if fails || Recorded(alerts, d) {
        return false;
      }
      alerts := alerts + [d];
      created := true;
    }

    /** BalanceCalculated, up to handing the records over to be sent. */
    method BalanceCalculated(status: Status, balance: string, lossPct: real, configured: seq<Recipient>,
                             users: seq<User>, ids: seq<string>, failing: set<nat>)
      requires |ids| == |Addressees(configured, users)|
      modifies this`alerts
      ensures alerts == if status == Normal then old(alerts)
                        else Dispatched(old(alerts), Addressees(configured, users), ids, failing, balance, lossPct,
                                        LevelOf(status))
    {
      hide Recorded, Fallback;
      if status != Warning && status != Critical {
        return;
      }
      var level := WarningAlert;
      if status == Critical {
        level := CriticalAlert;
      }
      var recipients := configured;
      if |recipients| == 0 {
        recipients := FallbackRecipients(users);
      }
      for k := 0 to |recipients|
        invariant alerts == Dispatched(old(alerts), recipients[..k], ids[..k], failing, balance, lossPct, level)
      {
        assert recipients[..k + 1][..k] == recipients[..k] && ids[..k + 1][..k] == ids[..k];
        var rc := recipients[k];
        if level == WarningAlert && rc.minLevel == CriticalAlert {
          continue;
        }
        if rc.channel == Whatsapp && level != CriticalAlert {
          continue;
        }
        var created := CreateDelivery(DeliveryFor(ids[k], balance, lossPct, level, rc), k in failing);
      }
      assert recipients[..|recipients|] == recipients && ids[..|recipients|] == ids;
    }

    method FallbackRecipients(users: seq<User>) returns (out: seq<Recipient>)
      ensures out == Fallback(users)
    {
      out := [];
      for i := 0 to |users|
        invariant out == Fallback(users[..i])
      {
        assert users[..i + 1][..i] == users[..i];
        if users[i].active && users[i].manager {
          out := out + [Recipient("", Email, users[i].email, WarningAlert)];
        }
      }
      assert users[..|users|] == users;
    }

    method CalculateBalance(b: Balance, configured: seq<Recipient>, users: seq<User>, ids: seq<string>,
                            failing: set<nat>)
      requires |ids| == |Addressees(configured, users)|
      modifies this
      ensures Contents() == Recalculated(old(Contents()), b, configured, users, ids, failing)
    {
      var id := UpsertForPeriod(b);
      BalanceCalculated(b.status, id, b.lossPct, configured, users, ids, failing);
    }

    method MarkDelivery(id: string, result: Sending)
      modifies this`alerts
      ensures alerts == MarkedAll(old(alerts), id, result)
    {
      for i := 0 to |alerts|
        invariant |alerts| == |old(alerts)|
        invariant forall j :: 0 <= j < |alerts| ==>
          alerts[j] == if j < i && old(alerts)[j].id == id then
                         old(alerts)[j].(sending := result, attempts := old(alerts)[j].attempts + 1)
                       else old(alerts)[j]
      {
        if alerts[i].id == id {
          alerts := alerts[i := alerts[i].(sending := result, attempts := alerts[i].attempts + 1)];
        }
      }
    }
  }

  // ------------------------------------------------------------------ runs

  datatype Action =
    | Calculate(b: Balance, configured: seq<Recipient>, users: seq<User>, ids: seq<string>, failing: set<nat>)
    | Mark(id: string, result: Sending)

  /** A balance that is inserted gets a new id. */
  ghost predicate Enabled(db: Db, a: Action) {
    a.Calculate? ==>
      && |a.ids| == |Addressees(a.configured, a.users)|
      && forall i :: 0 <= i < |db.balances| ==> db.balances[i].id != a.b.id
  }

  function Perform(db: Db, a: Action): Db
    requires Enabled(db, a)
  {
    match a
    case Calculate(b, configured, users, ids, failing) => Recalculated(db, b, configured, users, ids, failing)
    case Mark(id, result) => db.(alerts := MarkedAll(db.alerts, id, result))
  }

  ghost predicate OneRowEach(balances: seq<Balance>) {
    forall i, j :: 0 <= i < j < |balances| ==>
      balances[i].span != balances[j].span && balances[i].id != balances[j].id
  }

  ghost predicate NoneTwice(alerts: seq<Delivery>) {
    forall i, j :: 0 <= i < j < |alerts| ==> !Same(alerts[i], alerts[j])
  }

  ghost predicate NoWarningByWhatsapp(alerts: seq<Delivery>) {
    forall i :: 0 <= i < |alerts| ==> !(alerts[i].channel == Whatsapp && alerts[i].level == WarningAlert)
  }

  ghost predicate HasRow(balances: seq<Balance>, id: string) {
    exists i :: 0 <= i < |balances| && balances[i].id == id
  }

  ghost predicate AboutRows(db: Db) {
    forall k :: 0 <= k < |db.alerts| ==> HasRow(db.balances, db.alerts[k].balance)
  }

  ghost predicate Inv(db: Db) {
    OneRowEach(db.balances) && NoneTwice(db.alerts) && NoWarningByWhatsapp(db.alerts) && AboutRows(db)
  }

  lemma UpsertHasRows(balances: seq<Balance>, b: Balance, id: string)
    ensures HasRow(Upserted(balances, b), UpsertedId(balances, b))
    ensures HasRow(balances, id) ==> HasRow(Upserted(balances, b), id)
  {
    if i :| 0 <= i < |balances| && balances[i].id == id {
      assert Upserted(balances, b)[i].id == id;
    }
    if RowOf(balances, b.span) == |balances| {
      assert Upserted(balances, b)[|balances|].id == b.id;
    } else {
      assert Upserted(balances, b)[RowOf(balances, b.span)].id == UpsertedId(balances, b);
    }
  }

  lemma UpsertKeepsRows(balances: seq<Balance>, b: Balance)
    requires OneRowEach(balances) && forall i :: 0 <= i < |balances| ==> balances[i].id != b.id
    ensures OneRowEach(Upserted(balances, b))
    ensures |balances| <= |Upserted(balances, b)|
    ensures forall i :: 0 <= i < |balances| ==>
              Upserted(balances, b)[i].id == balances[i].id && Upserted(balances, b)[i].span == balances[i].span
  {
  }

  lemma {:induction false} DispatchKeeps(alerts: seq<Delivery>, recipients: seq<Recipient>, ids: seq<string>,
                                         failing: set<nat>, balance: string, lossPct: real, level: Level)
    requires |ids| == |recipients| && NoneTwice(alerts) && NoWarningByWhatsapp(alerts)
    ensures var after := Dispatched(alerts, recipients, ids, failing, balance, lossPct, level);
            && NoneTwice(after) && NoWarningByWhatsapp(after)
            && alerts <= after
            && forall k :: |alerts| <= k < |after| ==> after[k].balance == balance
  {
    if recipients != [] {
      var n := |recipients| - 1;
      DispatchKeeps(alerts, recipients[..n], ids[..n], failing, balance, lossPct, level);
    }
  }

  lemma StepKeepsInv(db: Db, a: Action)
    requires Inv(db) && Enabled(db, a)
    ensures Inv(Perform(db, a))
    ensures |db.balances| <= |Perform(db, a).balances|
    ensures forall i :: 0 <= i < |db.balances| ==>
              Perform(db, a).balances[i].id == db.balances[i].id &&
                  Perform(db, a).balances[i].span == db.balances[i].span
  {
    if a.Calculate? {
      UpsertKeepsRows(db.balances, a.b);
      DispatchKeeps(db.alerts, Addressees(a.configured, a.users), a.ids, a.failing,
                    UpsertedId(db.balances, a.b), a.b.lossPct, LevelOf(a.b.status));
      hide Upserted, Dispatched, HasRow;
      forall k | 0 <= k < |Perform(db, a).alerts|
        ensures HasRow(Perform(db, a).balances, Perform(db, a).alerts[k].balance)
      {
        UpsertHasRows(db.balances, a.b, Perform(db, a).alerts[k].balance);
      }
    }
  }

  ghost predicate Possible(db: Db, run: seq<Action>)
    decreases |run|
  {
    run == [] || (Enabled(db, run[0]) && Possible(Perform(db, run[0]), run[1..]))
  }

  ghost function After(db: Db, run: seq<Action>): Db
    requires Possible(db, run)
    decreases |run|
  {
    if run == [] then db else After(Perform(db, run[0]), run[1..])
  }

  lemma {:induction false} RunKeepsInv(db: Db, run: seq<Action>)
    requires Inv(db) && Possible(db, run)
    ensures Inv(After(db, run)) && |db.balances| <= |After(db, run).balances|
    ensures forall i :: 0 <= i < |db.balances| ==>
              After(db, run).balances[i].id == db.balances[i].id &&
                  After(db, run).balances[i].span == db.balances[i].span
    decreases |run|
  {
    hide Inv, Perform, Enabled;
    if run != [] {
      StepKeepsInv(db, run[0]);
      RunKeepsInv(Perform(db, run[0]), run[1..]);
    }
  }

  /**
   However often a transformer and period are recalculated, the balance is one row with the id it first
   got, and between two points of any run nobody is recorded twice for it on one channel and level.
   */
  lemma OneRowOneAlert(earlier: seq<Action>, later: seq<Action>, span: Span)
    requires Possible(Db([], []), earlier) && Possible(After(Db([], []), earlier), later)
    ensures var before := After(Db([], []), earlier);
            var after := After(before, later);
            && Inv(after)
            && (RowOf(before.balances, span) < |before.balances| ==>
                  var i := RowOf(before.balances, span);
                  && RowOf(after.balances, span) == i < |after.balances|
                  && after.balances[i].id == before.balances[i].id)
  {
    var before := After(Db([], []), earlier);
    RunKeepsInv(Db([], []), earlier);
    RunKeepsInv(before, later);
  }

  /** Two alerts about one transformer and period to one address and channel differ in level. */
  lemma OneAlertPerLevel(run: seq<Action>, i: nat, j: nat, p: nat, q: nat)
    requires Possible(Db([], []), run)
    requires var db := After(Db([], []), run);
             && i < j < |db.alerts| && p < |db.balances| && q < |db.balances|
             && db.alerts[i].balance == db.balances[p].id && db.alerts[j].balance == db.balances[q].id
             && db.balances[p].span == db.balances[q].span
             && db.alerts[i].address == db.alerts[j].address && db.alerts[i].channel == db.alerts[j].channel
    ensures var db := After(Db([], []), run);
            && db.alerts[i].level != db.alerts[j].level
            && db.alerts[i].channel == Email
  {
    var db := After(Db([], []), run);
    RunKeepsInv(Db([], []), run);
    assert !Same(db.alerts[i], db.alerts[j]);
    assert p == q;
  }

  /** Everybody is told of a critical balance; of a warning, those who take warnings, by e-mail. */
  predicate Eligible(rc: Recipient, level: Level) {
    level == CriticalAlert || (rc.channel == Email && rc.minLevel == WarningAlert)
  }

  /** What a set of recipients asks for. */
  ghost predicate Asked(recipients: seq<Recipient>, failing: set<nat>, balance: string, level: Level, d: Delivery) {
    exists k :: 0 <= k < |recipients| && Eligible(recipients[k], level) && k !in failing &&
                d.balance == balance && d.level == level &&
                d.channel == recipients[k].channel && d.address == recipients[k].address
  }

  /** After the loop exactly those are on record that were before or that a recipient asks for. */
  lemma {:induction false} RecordedIffAsked(alerts: seq<Delivery>, recipients: seq<Recipient>, ids: seq<string>,
                                            failing: set<nat>, balance: string, lossPct: real, level: Level, d: Delivery)
    requires |ids| == |recipients|
    ensures Recorded(Dispatched(alerts, recipients, ids, failing, balance, lossPct, level), d) <==>
            Recorded(alerts, d) || Asked(recipients, failing, balance, level, d)
  {
    if recipients != [] {
      var n := |recipients| - 1;
      var rc := recipients[n];
      var before := Dispatched(alerts, recipients[..n], ids[..n], failing, balance, lossPct, level);
      RecordedIffAsked(alerts, recipients[..n], ids[..n], failing, balance, lossPct, level, d);
      AskedByOneMore(recipients, failing, balance, level, d);
      RecordedByOneMore(before, DeliveryFor(ids[n], balance, lossPct, level, rc), d);
      SameIsRecorded(before, DeliveryFor(ids[n], balance, lossPct, level, rc), d);
      hide Recorded, Asked;
    }
  }

  lemma AskedByOneMore(recipients: seq<Recipient>, failing: set<nat>, balance: string, level: Level, d: Delivery)
    requires recipients != []
    ensures var n := |recipients| - 1;
            Asked(recipients, failing, balance, level, d) <==>
            Asked(recipients[..n], failing, balance, level, d) ||
            (Eligible(recipients[n], level) && n !in failing &&
             Same(DeliveryFor("", balance, 0.0, level, recipients[n]), d))
  {
    var n := |recipients| - 1;
    if Asked(recipients[..n], failing, balance, level, d) {
      var k :| 0 <= k < n && Eligible(recipients[..n][k], level) && k !in failing &&
               d.balance == balance && d.level == level &&
               d.channel == recipients[..n][k].channel && d.address == recipients[..n][k].address;
      assert recipients[..n][k] == recipients[k];
    }
    if k :| 0 <= k < n && Eligible(recipients[k], level) && k !in failing &&
            d.balance == balance && d.level == level &&
            d.channel == recipients[k].channel && d.address == recipients[k].address {
      assert recipients[..n][k] == recipients[k];
    }
  }

  lemma RecordedByOneMore(before: seq<Delivery>, added: Delivery, d: Delivery)
    ensures Recorded(before + [added], d) <==> Recorded(before, d) || Same(added, d)
  {
    assert (before + [added])[|before|] == added;
    if i :| 0 <= i < |before| && Same(before[i], d) {
      assert (before + [added])[i] == before[i];
    }
  }

  lemma SameIsRecorded(before: seq<Delivery>, added: Delivery, d: Delivery)
    ensures Same(added, d) ==> (Recorded(before, added) <==> Recorded(before, d))
  {
  }

  /** A record made now, to recipient `k`: not sent yet, not attempted. */
  predicate MadeFor(d: Delivery, recipients: seq<Recipient>, ids: seq<string>, k: int) {
    && 0 <= k < |recipients| == |ids|
    && d.id == ids[k] && d.channel == recipients[k].channel && d.address == recipients[k].address
    && (d.recipient == None <==> recipients[k].id == "")
    && (d.recipient.Some? ==> d.recipient.value == recipients[k].id)
    && d.sending == PendingSend && d.attempts == 0
  }

  /** The loop only adds records, each for a recipient of the list. */
  lemma {:induction false} AddedAlerts(alerts: seq<Delivery>, recipients: seq<Recipient>, ids: seq<string>,
                                       failing: set<nat>, balance: string, lossPct: real, level: Level)
    requires |ids| == |recipients|
    ensures var after := Dispatched(alerts, recipients, ids, failing, balance, lossPct, level);
            && alerts <= after
            && forall i :: |alerts| <= i < |after| ==>
                 && after[i].balance == balance && after[i].level == level && after[i].lossPct == lossPct
                 && exists k :: MadeFor(after[i], recipients, ids, k)
  {
    if recipients != [] {
      var n := |recipients| - 1;
      var before := Dispatched(alerts, recipients[..n], ids[..n], failing, balance, lossPct, level);
      AddedAlerts(alerts, recipients[..n], ids[..n], failing, balance, lossPct, level);
      hide Recorded, Wants;
      forall i | |alerts| <= i < |before|
        ensures exists k :: MadeFor(before[i], recipients, ids, k)
      {
        var k :| MadeFor(before[i], recipients[..n], ids[..n], k);
        assert MadeFor(before[i], recipients, ids, k);
      }
      assert MadeFor(DeliveryFor(ids[n], balance, lossPct, level, recipients[n]), recipients, ids, n);
    }
  }

  // ------------------------------------------------------------------ by the status of the balance

  lemma {:induction false} FallbackHolds(users: seq<User>, rc: Recipient)
    ensures rc in Fallback(users) <==>
            exists u :: u in users && u.active && u.manager && rc == Recipient("", Email, u.email, WarningAlert)
  {
    if users != [] {
      FallbackHolds(users[..|users| - 1], rc);
      assert users == users[..|users| - 1] + [users[|users| - 1]];
    }
  }

  /** The configured recipients, or without any the active managers by e-mail, for warnings and above. */
  lemma AddresseesAre(configured: seq<Recipient>, users: seq<User>, rc: Recipient)
    ensures configured != [] ==> Addressees(configured, users) == configured
    ensures configured == [] ==>
              (rc in Addressees(configured, users) <==>
               exists u :: u in users && u.active && u.manager && rc == Recipient("", Email, u.email, WarningAlert))
  {
    FallbackHolds(users, rc);
  }

  /** A balance of this status concerns recipient `k`, whose record can be written. */
  ghost predicate Concerned(recipients: seq<Recipient>, failing: set<nat>, status: Status, d: Delivery, k: int) {
    && 0 <= k < |recipients| && k !in failing
    && d.channel == recipients[k].channel && d.address == recipients[k].address
    && match status
       case Normal => false
       case Warning => recipients[k].channel == Email && recipients[k].minLevel == WarningAlert
       case Critical => true
  }

  /**
   A recalculation records exactly what its status asks for: nothing for a normal balance; warnings, by e-mail
   and to those who want them, in case of a warning; critical alerts to everybody in a critical case. Each is
   about the stored balance.
   */
  lemma RecordedByStatus(db: Db, b: Balance, configured: seq<Recipient>, users: seq<User>, ids: seq<string>,
                         failing: set<nat>, d: Delivery)
    requires |ids| == |Addressees(configured, users)|
    ensures Recorded(Recalculated(db, b, configured, users, ids, failing).alerts, d) <==>
            Recorded(db.alerts, d) ||
            (&& d.balance == UpsertedId(db.balances, b)
             && d.level == (if b.status == Critical then CriticalAlert else WarningAlert)
             && exists k :: Concerned(Addressees(configured, users), failing, b.status, d, k))
  {
    hide Recorded, Addressees, Dispatched;
    var recipients := Addressees(configured, users);
    if b.status != Normal {
      RecordedIffAsked(db.alerts, recipients, ids, failing, UpsertedId(db.balances, b), b.lossPct, LevelOf(b.status), d);
      if d.balance == UpsertedId(db.balances, b) && d.level == LevelOf(b.status) {
        if k :| Concerned(recipients, failing, b.status, d, k) {
          assert Eligible(recipients[k], LevelOf(b.status));
        }
        if Asked(recipients, failing, d.balance, d.level, d) {
          var k :| 0 <= k < |recipients| && Eligible(recipients[k], d.level) && k !in failing &&
            d.channel == recipients[k].channel && d.address == recipients[k].address;
          assert Concerned(recipients, failing, b.status, d, k);
        }
      }
    }
  }
}
