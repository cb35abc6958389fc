/**
 Imports, retries, deletions and manual readings over the two reading tables
 (internal/usecase/import_usecase.go, internal/usecase/network_usecase.go).
 */
module ImportLife {
  import opened Prelude
  import opened Imports

  datatype Status = Processing | Completed | Failed

  datatype Import = Import(tenant: string, kind: Kind, file: Option<File>, createdAt: int, status: Status,
                           total: nat, ok: nat, bad: nat, dups: nat, removed: bool)

  datatype Db = Db(transformers: seq<Reading>, units: seq<Reading>, imports: map<nat, Import>)

  /** What may go wrong while an import is processed; a crash leaves it in progress. */
  datatype Fault = NoFault | ClearFails | RegistryFails | LookupFails | CrashEarly | SaveFails | CrashLate

  datatype Outcome =
    | Done(status: Status, total: nat, ok: nat, bad: nat, dups: nat)
    | Removed(readings: nat)
    | Stored
    | NotFound
    | Conflict
    | BadRequest
    | Broken

  datatype Step = Step(db: Db, outcome: Outcome)

  const PATIENCE: int := 10 * 60 * 1_000_000

  function TableOf(db: Db, kind: Kind): seq<Reading> {
    if kind == UnitReadings then db.units else db.transformers
  }

  function WithTable(db: Db, kind: Kind, table: seq<Reading>): Db {
    if kind == UnitReadings then db.(units := table) else db.(transformers := table)
  }

  // ------------------------------------------------------------------ one import

  function Tagged(rows: seq<Row>, id: nat): (t: seq<Reading>)
    ensures |t| == |rows| && forall i :: 0 <= i < |rows| ==> t[i] == Reading(rows[i].key, rows[i].measure, Some(id))
  {
    seq(|rows|, i requires 0 <= i < |rows| => Reading(rows[i].key, rows[i].measure, Some(id)))
  }

  function Closed(imp: Import, status: Status, total: nat, ok: nat, bad: nat, dups: nat): Import {
    imp.(status := status, total := total, ok := ok, bad := bad, dups := dups)
  }

  /** The rows of a file that name a known meter, as read at `now`. */
  function FileRows(file: File, kind: Kind, refs: Refs, now: int): seq<Row> {
    if file.Rejected? then []
    else Resolved(ParsedLines(file.lines, kind, file.firstLine, now).success, refs)
  }

  function FileErrors(file: File, kind: Kind, refs: Refs, now: int): nat {
    if file.Rejected? then 0
    else var split := ParsedLines(file.lines, kind, file.firstLine, now);
         |split.errors| + |Unresolved(split.success, refs)|
  }

  function FileTotal(file: File, kind: Kind, now: int): nat {
    if file.Rejected? then 0
    else var split := ParsedLines(file.lines, kind, file.firstLine, now);
         |split.success| + |split.errors|
  }

  /** process: what an attempt stores is the first occurrence of every key the table does not have. */
  function Processed(db: Db, id: nat, file: File, refs: Refs, now: int, fault: Fault): Step
    requires id in db.imports
  {
    var imp := db.imports[id];
    var rows, bad := FileRows(file, imp.kind, refs, now), FileErrors(file, imp.kind, refs, now);
    var total, table := FileTotal(file, imp.kind, now), TableOf(db, imp.kind);
    var kept := KeepFirst(rows, TableKeys(table));
    if file.Rejected? || fault == RegistryFails then
      Step(db.(imports := db.imports[id := Closed(imp, Failed, 0, 0, 0, 0)]), Done(Failed, 0, 0, 0, 0))
    else if fault == LookupFails && rows != [] then
      Step(db.(imports := db.imports[id := Closed(imp, Failed, total, 0, bad, 0)]), Broken)
    else if fault == CrashEarly then Step(db, Broken)
    else if fault == SaveFails then
      Step(db.(imports := db.imports[id := Closed(imp, Failed, total, 0, bad, Dups(rows, kept))]), Broken)
    else
      var stored := WithTable(db, imp.kind, table + Tagged(kept, id));
      var status := if kept == [] && Dups(rows, kept) == 0 && bad > 0 then Failed else Completed;
      if fault == CrashLate then Step(stored, Broken)
      else Step(stored.(imports := db.imports[id := Closed(imp, status, total, |kept|, bad, Dups(rows, kept))]),
                Done(status, total, |kept|, bad, Dups(rows, kept)))
  }

  function Dups(rows: seq<Row>, kept: seq<Row>): nat {
    if |kept| <= |rows| then |rows| - |kept| else 0
  }

  /** Whether a reading is one of the import's. */
  predicate Written(r: Reading, tenant: string, id: nat) { r.key.meter.tenant == tenant && r.importId == Some(id) }

  function Without(table: seq<Reading>, tenant: string, id: nat): seq<Reading> {
    if table == [] then []
    else
      var n := |table| - 1;
      Without(table[..n], tenant, id) + if Written(table[n], tenant, id) then [] else [table[n]]
  }

  /** Both tables without what the import wrote. */
  function Cleared(db: Db, id: nat): Db
    requires id in db.imports
  {
    var t := db.imports[id].tenant;
    db.(transformers := Without(db.transformers, t, id), units := Without(db.units, t, id))
  }

  // ------------------------------------------------------------------ what users can do

  datatype Action =
    | Upload(id: nat, tenant: string, kind: Kind, file: Option<File>, refs: Refs, now: int, fault: Fault)
    | Retry(id: nat, refs: Refs, now: int, fault: Fault)
    | Remove(id: nat)
    | AddManual(kind: Kind, meter: Meter, known: bool, at: Option<int>, measure: Measure, now: int)

  ghost predicate OfTenant(refs: Refs, tenant: string) {
    forall raw :: raw in refs ==> refs[raw].tenant == tenant
  }

  /** A new import gets an id of its own, and a registry lists one tenant's meters. */
  ghost predicate Enabled(db: Db, a: Action) {
    match a
    case Upload(id, tenant, _, _, refs, _, _) => id !in db.imports && OfTenant(refs, tenant)
    case Retry(id, refs, _, _) => id in db.imports ==> OfTenant(refs, db.imports[id].tenant)
    case Remove(_) => true
    case AddManual(_, _, _, _, _, _) => true
  }

  function Uploaded(db: Db, id: nat, tenant: string, kind: Kind, file: Option<File>, refs: Refs, now: int,
                    fault: Fault): Step {
    if file == None then Step(db, BadRequest)
    else
      var imp := Import(tenant, kind, file, now, Processing, 0, 0, 0, 0, false);
      Processed(db.(imports := db.imports[id := imp]), id, file.value, refs, now, fault)
  }

  function Retried(db: Db, id: nat, refs: Refs, now: int, fault: Fault): Step {
    if id !in db.imports || db.imports[id].removed then Step(db, NotFound)
    else
      var imp := db.imports[id];
      if imp.status == Processing && imp.createdAt > now - PATIENCE then Step(db, Conflict)
      else if imp.file == None then Step(db, BadRequest)
      else if fault == ClearFails then Step(db, Broken)
      else
        Processed(Cleared(db, id), id, imp.file.value, refs, now, fault)
  }

  function RemovedImport(db: Db, id: nat): Step {
    if id !in db.imports || db.imports[id].removed then Step(db, NotFound)
    else
      var cleared := Cleared(db, id);
      Step(cleared.(imports := db.imports[id := db.imports[id].(removed := true, file := None)]),
           Removed(CountOf(db, id)))
  }

  function CountOf(db: Db, id: nat): nat
    requires id in db.imports
  {
    var t := db.imports[id].tenant;
    WrittenIn(db.transformers, t, id) + WrittenIn(db.units, t, id)
  }

  function WrittenIn(table: seq<Reading>, tenant: string, id: nat): nat {
    if table == [] then 0
    else WrittenIn(table[..|table| - 1], tenant, id) + if Written(table[|table| - 1], tenant, id) then 1 else 0
  }

  const HOUR: int := 3600 * 1_000_000

  /** validateManual: a date not more than an hour ahead, and plausible values. */
  predicate ValidManual(at: Option<int>, m: Measure, now: int) {
    at.Some? && at.value <= now + HOUR && m.energy <= 1_000_000_000.0 && Plausible(m)
  }

  /** For a consuming unit only the energy is stored. */
  function ManualReading(kind: Kind, meter: Meter, at: int, m: Measure): Reading {
    Reading(Key(meter, at), if kind == UnitReadings then Measure(m.energy, None, None) else m, None)
  }

  function Added(db: Db, kind: Kind, meter: Meter, known: bool, at: Option<int>, measure: Measure, now: int): Step {
    if !known then Step(db, NotFound)
    else if !ValidManual(at, measure, now) then Step(db, BadRequest)
    else if Key(meter, at.value) in TableKeys(TableOf(db, kind)) then Step(db, Conflict)
    else Step(WithTable(db, kind, TableOf(db, kind) + [ManualReading(kind, meter, at.value, measure)]), Stored)
  }

  function Perform(db: Db, a: Action): Step {
    match a
    case Upload(id, tenant, kind, file, refs, now, fault) => Uploaded(db, id, tenant, kind, file, refs, now, fault)
    case Retry(id, refs, now, fault) => Retried(db, id, refs, now, fault)
    case Remove(id) => RemovedImport(db, id)
    case AddManual(kind, meter, known, at, measure, now) => Added(db, kind, meter, known, at, measure, now)
  }

  // ------------------------------------------------------------------ the same, step by step

  class ImportStore {
    var transformers: seq<Reading>
    var units: seq<Reading>
    var imports: map<nat, Import>

    function Contents(): Db
      reads this
    {
      Db(transformers, units, imports)
    }

    constructor ()
      ensures Contents() == Db([], [], map[])
    {
      transformers, units, imports := [], [], map[];
    }

    method Finish(id: nat, status: Status, total: nat, ok: nat, bad: nat, dups: nat)
      requires id in imports
      modifies this`imports
      ensures imports == old(imports)[id := Closed(old(imports)[id], status, total, ok, bad, dups)]
    {
      var imp := imports[id];
      imports := imports[id := imp.(status := status, total := total, ok := ok, bad := bad, dups := dups)];
    }

    /** dedupe: ask for the keys of the period, then compact the rows in place. */
    method Dedupe(tenant: string, kind: Kind, rows: array<Row>) returns (kept: nat, dups: nat)
      requires forall i :: 0 <= i < rows.Length ==> rows[i].key.meter.tenant == tenant
      modifies rows
      ensures kept + dups == rows.Length
      ensures rows[..kept] == KeepFirst(old(rows[..]), TableKeys(TableOf(Contents(), kind)))
    {
      if rows.Length == 0 {
        return 0, 0;
      }
      var ids: set<string> := {};
      for i := 0 to rows.Length
        invariant forall j :: 0 <= j < i ==> rows[j].key.meter.id in ids
      {
        ids := ids + {rows[i].key.meter.id};
      }
      var start, end := Period(rows[..]);
      forall i | 0 <= i < rows.Length
        ensures start <= rows[i].key.at <= end
      {
        assert rows[i] in rows[..];
      }
      var table := if kind == UnitReadings then units else transformers;
      WindowCoversEveryCandidate(table, tenant, rows[..], ids, start, end);
      kept, dups := Compact(rows, ExistingKeys(table, tenant, ids, start, end));
    }

    /** insert: one transaction for all rows. */
    method Insert(id: nat, kind: Kind, rows: array<Row>, kept: nat)
      requires kept <= rows.Length
      modifies this`transformers, this`units
      ensures Contents() == WithTable(old(Contents()), kind,
                                      TableOf(old(Contents()), kind) + Tagged(rows[..kept], id))
    {
      var readings: seq<Reading> := [];
      for i := 0 to kept
        invariant readings == Tagged(rows[..i], id)
      {
        readings := readings + [Reading(rows[i].key, rows[i].measure, Some(id))];
      }
      if kind == UnitReadings {
        units := units + readings;
      } else {
        transformers := transformers + readings;
      }
    }

    /** analyze: parse the table and resolve its meters within the tenant. */
    method Analyze(file: File, kind: Kind, tenant: string, refs: Refs, now: int)
      returns (rows: array<Row>, bad: nat, total: nat)
      requires file.Table? && OfTenant(refs, tenant)
      ensures fresh(rows) && rows[..] == FileRows(file, kind, refs, now)
      ensures bad == FileErrors(file, kind, refs, now) && total == FileTotal(file, kind, now)
      ensures forall i :: 0 <= i < rows.Length ==> rows[i].key.meter.tenant == tenant
    {
      hide ParsedLines, Resolved, Unresolved, OfTenant;
      var success, errors := ParseTable(file.lines, kind, file.firstLine, now);
      var resolved, unknown := Resolve(success, refs);
      bad, total := |errors| + |unknown|, |success| + |errors|;
      rows := new Row[|resolved|](i requires 0 <= i < |resolved| => resolved[i]);
      assert rows[..] == resolved;
      RowsOfTenant(success, refs, tenant);
    }

    method Process(id: nat, file: File, refs: Refs, now: int, fault: Fault) returns (outcome: Outcome)
      requires id in imports && OfTenant(refs, imports[id].tenant)
      modifies this
      ensures Step(Contents(), outcome) == Processed(old(Contents()), id, file, refs, now, fault)
    {
      hide KeepFirst, TableKeys, FileRows, FileErrors, FileTotal, OfTenant, Tagged;
      var imp := imports[id];
      if file.Rejected? || fault == RegistryFails {
        Finish(id, Failed, 0, 0, 0, 0);
        return Done(Failed, 0, 0, 0, 0);
      }
      var rows, bad, total := Analyze(file, imp.kind, imp.tenant, refs, now);
      if fault == LookupFails && rows.Length != 0 {
        Finish(id, Failed, total, 0, bad, 0);
        return Broken;
      }
      var kept, dups := Dedupe(imp.tenant, imp.kind, rows);
      assert |rows[..kept]| == kept;
      if fault == CrashEarly {
        return Broken;
      }
      if fault == SaveFails {
        Finish(id, Failed, total, 0, bad, dups);
        return Broken;
      }
      Insert(id, imp.kind, rows, kept);
      if fault == CrashLate {
        return Broken;
      }
      var status := Completed;
      if kept == 0 && dups == 0 && bad > 0 {
        status := Failed;
      }
      Finish(id, status, total, kept, bad, dups);
      outcome := Done(status, total, kept, bad, dups);
    }

    method ImportReadings(id: nat, tenant: string, kind: Kind, file: Option<File>, refs: Refs, now: int, fault: Fault)
      returns (outcome: Outcome)
      requires id !in imports && OfTenant(refs, tenant)
      modifies this
      ensures Step(Contents(), outcome) == Uploaded(old(Contents()), id, tenant, kind, file, refs, now, fault)
    {
      hide Processed, OfTenant;
      if file == None {
        return BadRequest;
      }
      imports := imports[id := Import(tenant, kind, file, now, Processing, 0, 0, 0, 0, false)];
      outcome := Process(id, file.value, refs, now, fault);
    }

    method DeleteByImport(kind: Kind, tenant: string, id: nat) returns (n: nat)
      modifies this`transformers, this`units
      ensures Contents() == WithTable(old(Contents()), kind, Without(TableOf(old(Contents()), kind), tenant, id))
      ensures n == WrittenIn(TableOf(old(Contents()), kind), tenant, id)
    {
      var table := if kind == UnitReadings then units else transformers;
      var left: seq<Reading> := [];
      n := 0;
      for i := 0 to |table|
        invariant left == Without(table[..i], tenant, id) && n == WrittenIn(table[..i], tenant, id)
      {
        assert table[..i + 1][..i] == table[..i];
        if Written(table[i], tenant, id) {
          n := n + 1;
        } else {
          left := left + [table[i]];
        }
      }
      assert table[..|table|] == table;
      if kind == UnitReadings {
        units := left;
      } else {
        transformers := left;
      }
    }

    method Retry(id: nat, refs: Refs, now: int, fault: Fault) returns (outcome: Outcome)
      requires id in imports ==> OfTenant(refs, imports[id].tenant)
      modifies this
      ensures Step(Contents(), outcome) == Retried(old(Contents()), id, refs, now, fault)
    {
      hide Processed, OfTenant, Without, WrittenIn;
      if id !in imports || imports[id].removed {
        return NotFound;
      }
      var imp := imports[id];
      if imp.status == Processing && imp.createdAt > now - PATIENCE {
        return Conflict;
      }
      if imp.file == None {
        return BadRequest;
      }
      if fault == ClearFails {
        return Broken;
      }
      var n := DeleteByImport(TransformerReadings, imp.tenant, id);
      n := DeleteByImport(UnitReadings, imp.tenant, id);
      outcome := Process(id, imp.file.value, refs, now, fault);
    }

    method Delete(id: nat) returns (outcome: Outcome)
      modifies this
      ensures Step(Contents(), outcome) == RemovedImport(old(Contents()), id)
    {
      hide Without, WrittenIn;
      if id !in imports || imports[id].removed {
        return NotFound;
      }
      var imp := imports[id];
      var n1 := DeleteByImport(TransformerReadings, imp.tenant, id);
      var n2 := DeleteByImport(UnitReadings, imp.tenant, id);
      imports := imports[id := imp.(removed := true, file := None)];
      outcome := Removed(n1 + n2);
    }

    /** AddTransformerReading and AddUCReading: validate, look the instant up, then insert. */
    method AddReading(kind: Kind, meter: Meter, known: bool, at: Option<int>, measure: Measure, now: int)
      returns (outcome: Outcome)
      modifies this`transformers, this`units
      ensures Step(Contents(), outcome) == Added(old(Contents()), kind, meter, known, at, measure, now)
    {
      if !known {
        return NotFound;
      }
      var invalid := at == None || at.value > now + HOUR;
      if measure.energy < 0.0 || measure.energy > 1_000_000_000.0 {
        invalid := true;
      }
      if measure.demand.Some? && measure.demand.value < 0.0 {
        invalid := true;
      }
      if measure.powerFactor.Some? && (measure.powerFactor.value <= 0.0 || measure.powerFactor.value > 1.0) {
        invalid := true;
      }
      if invalid {
        return BadRequest;
      }
      var table := if kind == UnitReadings then units else transformers;
      OneInstant(table, meter, at.value);
      if ExistingKeys(table, meter.tenant, {meter.id}, at.value, at.value) != {} {
        return Conflict;
      }
      if kind == UnitReadings {
        units := units + [Reading(Key(meter, at.value), Measure(measure.energy, None, None), None)];
      } else {
        transformers := transformers + [Reading(Key(meter, at.value), measure, None)];
      }
      outcome := Stored;
    }
  }

  lemma OneInstant(table: seq<Reading>, meter: Meter, at: int)
    ensures ExistingKeys(table, meter.tenant, {meter.id}, at, at) != {} <==> Key(meter, at) in TableKeys(table)
  {
    var found := ExistingKeys(table, meter.tenant, {meter.id}, at, at);
    if Key(meter, at) in TableKeys(table) {
      assert Key(meter, at) in found;
    }
    if found != {} {
      var k :| k in found;
      assert k == Key(meter, at);
    }
  }

  lemma RowsOfTenant(success: seq<Parsed>, refs: Refs, tenant: string)
    requires OfTenant(refs, tenant)
    ensures forall r :: r in Resolved(success, refs) ==> r.key.meter.tenant == tenant
  {
    ResolvedOrNot(success, refs);
    forall r | r in Resolved(success, refs)
      ensures r.key.meter.tenant == tenant
    {
      var raw :| raw in refs && refs[raw] == r.key.meter;
    }
  }
}
