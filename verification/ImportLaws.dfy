/**
 What holds over every sequence of imports, retries, deletions and manual readings.
 */
module ImportLaws {
  import opened Prelude
  import opened Imports
  import opened ImportLife

  ghost predicate Unique(table: seq<Reading>) {
    forall i, j :: 0 <= i < j < |table| ==> table[i].key != table[j].key
  }

  /** An imported reading belongs to a recorded import of its tenant and kind. */
  ghost predicate Accounted(table: seq<Reading>, kind: Kind, imports: map<nat, Import>) {
    forall r :: r in table && r.importId.Some? ==>
      && r.importId.value in imports
      && imports[r.importId.value].tenant == r.key.meter.tenant
      && imports[r.importId.value].kind == kind
  }

  ghost predicate TableOk(table: seq<Reading>, kind: Kind, imports: map<nat, Import>) {
    Unique(table) && Accounted(table, kind, imports)
  }

  ghost predicate Inv(db: Db) {
    TableOk(db.transformers, TransformerReadings, db.imports) && TableOk(db.units, UnitReadings, db.imports)
  }

  /** Records are only added or closed: nobody changes an import's tenant or kind. */
  ghost predicate Keeps(imports: map<nat, Import>, later: map<nat, Import>) {
    forall k :: k in imports ==> k in later && later[k].tenant == imports[k].tenant && later[k].kind == imports[k].kind
  }

  lemma TableStaysOk(table: seq<Reading>, kind: Kind, imports: map<nat, Import>, later: map<nat, Import>)
    requires TableOk(table, kind, imports) && Keeps(imports, later)
    ensures TableOk(table, kind, later)
  {
  }

  // ------------------------------------------------------------------ adding and taking away

  lemma KeyListed(table: seq<Reading>, i: nat)
    requires i < |table|
    ensures table[i].key in TableKeys(table)
  {
  }

  lemma AppendKeepsUnique(table: seq<Reading>, more: seq<Reading>)
    requires Unique(table) && Unique(more) && TableKeys(table) !! TableKeys(more)
    ensures Unique(table + more)
  {
    hide TableKeys;
    forall i, j | 0 <= i < |table| <= j < |table + more|
      ensures (table + more)[i].key != (table + more)[j].key
    {
      KeyListed(table, i);
      KeyListed(more, j - |table|);
    }
  }

  lemma TaggedKeys(rows: seq<Row>, id: nat)
    ensures TableKeys(Tagged(rows, id)) == RowKeys(rows)
  {
    var t := Tagged(rows, id);
    forall k | k in RowKeys(rows)
      ensures k in TableKeys(t)
    {
      var r :| r in rows && r.key == k;
      var i :| 0 <= i < |rows| && rows[i] == r;
      assert t[i] in t;
    }
    forall k | k in TableKeys(t)
      ensures k in RowKeys(rows)
    {
      var r :| r in t && r.key == k;
      var i :| 0 <= i < |t| && t[i] == r;
      assert rows[i] in rows;
    }
  }

  lemma AppendedKeys(table: seq<Reading>, more: seq<Reading>)
    ensures TableKeys(table + more) == TableKeys(table) + TableKeys(more)
  {
    assert forall r :: r in table + more <==> r in table || r in more;
  }

  /** Storing what dedupe kept adds no key twice. */
  lemma StoreKeepsTable(table: seq<Reading>, kind: Kind, imports: map<nat, Import>, rows: seq<Row>, id: nat)
    requires TableOk(table, kind, imports) && id in imports && imports[id].kind == kind
    requires forall r :: r in rows ==> r.key.meter.tenant == imports[id].tenant
    ensures TableOk(table + Tagged(KeepFirst(rows, TableKeys(table)), id), kind, imports)
  {
    var kept := KeepFirst(rows, TableKeys(table));
    KeepFirstKeys(rows, TableKeys(table));
    TaggedKeys(kept, id);
    AppendKeepsUnique(table, Tagged(kept, id));
    forall r | r in Tagged(kept, id)
      ensures r.importId == Some(id) && r.key.meter.tenant == imports[id].tenant
    {
      var i :| 0 <= i < |kept| && Tagged(kept, id)[i] == r;
      assert kept[i] in rows;
    }
  }

  lemma {:induction false} WithoutHolds(table: seq<Reading>, tenant: string, id: nat, r: Reading)
    ensures r in Without(table, tenant, id) <==> r in table && !Written(r, tenant, id)
  {
    if table != [] {
      WithoutHolds(table[..|table| - 1], tenant, id, r);
      assert table == table[..|table| - 1] + [table[|table| - 1]];
    }
  }

  lemma {:induction false} WithoutKeepsUnique(table: seq<Reading>, tenant: string, id: nat)
    requires Unique(table)
    ensures Unique(Without(table, tenant, id))
  {
    if table != [] {
      var front := table[..|table| - 1];
      WithoutKeepsUnique(front, tenant, id);
      forall r | r in Without(front, tenant, id)
        ensures r.key != table[|table| - 1].key
      {
        WithoutHolds(front, tenant, id, r);
        var i :| 0 <= i < |front| && front[i] == r;
        assert table[i] == r;
      }
    }
  }

  lemma WithoutKeepsTable(table: seq<Reading>, kind: Kind, imports: map<nat, Import>, tenant: string, id: nat)
    requires TableOk(table, kind, imports)
    ensures TableOk(Without(table, tenant, id), kind, imports)
  {
    WithoutKeepsUnique(table, tenant, id);
    forall r | r in Without(table, tenant, id)
      ensures r in table
    {
      WithoutHolds(table, tenant, id, r);
    }
  }

  lemma {:induction false} WithoutAppended(table: seq<Reading>, more: seq<Reading>, tenant: string, id: nat)
    requires forall r :: r in more ==> Written(r, tenant, id)
    ensures Without(table + more, tenant, id) == Without(table, tenant, id)
  {
    if more == [] {
      assert table + more == table;
    } else {
      var n := |more| - 1;
      WithoutAppended(table, more[..n], tenant, id);
      assert (table + more)[..|table + more| - 1] == table + more[..n];
      assert more[n] in more;
    }
  }

  lemma {:induction false} WithoutNothing(table: seq<Reading>, tenant: string, id: nat)
    requires forall r :: r in table ==> !Written(r, tenant, id)
    ensures Without(table, tenant, id) == table && WrittenIn(table, tenant, id) == 0
  {
    if table != [] {
      WithoutNothing(table[..|table| - 1], tenant, id);
      assert table[|table| - 1] in table;
    }
  }

  lemma {:induction false} WrittenInAppended(table: seq<Reading>, more: seq<Reading>, tenant: string, id: nat)
    requires forall r :: r in more ==> Written(r, tenant, id)
    ensures WrittenIn(table + more, tenant, id) == WrittenIn(table, tenant, id) + |more|
  {
    if more == [] {
      assert table + more == table;
    } else {
      var n := |more| - 1;
      WrittenInAppended(table, more[..n], tenant, id);
      assert (table + more)[..|table + more| - 1] == table + more[..n];
      assert more[n] in more;
    }
  }

  // ------------------------------------------------------------------ every step keeps both tables unique

  lemma FileRowsOfTenant(file: File, kind: Kind, refs: Refs, now: int, tenant: string)
    requires OfTenant(refs, tenant)
    ensures forall r :: r in FileRows(file, kind, refs, now) ==> r.key.meter.tenant == tenant
  {
    if file.Table? {
      RowsOfTenant(ParsedLines(file.lines, kind, file.firstLine, now).success, refs, tenant);
    }
  }

  lemma ProcessKeepsInv(db: Db, id: nat, file: File, refs: Refs, now: int, fault: Fault)
    requires Inv(db) && id in db.imports && OfTenant(refs, db.imports[id].tenant)
    ensures Inv(Processed(db, id, file, refs, now, fault).db)
    ensures Keeps(db.imports, Processed(db, id, file, refs, now, fault).db.imports)
  {
    hide TableOk, KeepFirst, Tagged, TableKeys, FileRows, OfTenant;
    var imp, after := db.imports[id], Processed(db, id, file, refs, now, fault).db;
    var rows := FileRows(file, imp.kind, refs, now);
    FileRowsOfTenant(file, imp.kind, refs, now, imp.tenant);
    StoreKeepsTable(TableOf(db, imp.kind), imp.kind, db.imports, rows, id);
    TableStaysOk(TableOf(after, TransformerReadings), TransformerReadings, db.imports, after.imports);
    TableStaysOk(TableOf(after, UnitReadings), UnitReadings, db.imports, after.imports);
  }

  lemma ClearKeepsInv(db: Db, id: nat)
    requires Inv(db) && id in db.imports
    ensures Inv(Cleared(db, id))
  {
    WithoutKeepsTable(db.transformers, TransformerReadings, db.imports, db.imports[id].tenant, id);
    WithoutKeepsTable(db.units, UnitReadings, db.imports, db.imports[id].tenant, id);
  }

  lemma ManualKeepsTable(table: seq<Reading>, kind: Kind, imports: map<nat, Import>, r: Reading)
    requires TableOk(table, kind, imports) && r.importId == None && r.key !in TableKeys(table)
    ensures TableOk(table + [r], kind, imports)
  {
    AppendKeepsUnique(table, [r]);
  }

  lemma StepKeepsInv(db: Db, a: Action)
    requires Inv(db) && Enabled(db, a)
    ensures Inv(Perform(db, a).db)
  {
    hide TableOk, Processed, TableKeys, OfTenant;
    match a
    case Upload(id, tenant, kind, file, refs, now, fault) =>
      if file.Some? {
        var begun := db.(imports := db.imports[id := Import(tenant, kind, file, now, Processing, 0, 0, 0, 0, false)]);
        TableStaysOk(db.transformers, TransformerReadings, db.imports, begun.imports);
        TableStaysOk(db.units, UnitReadings, db.imports, begun.imports);
        ProcessKeepsInv(begun, id, file.value, refs, now, fault);
      }
    case Retry(id, refs, now, fault) =>
      if id in db.imports && db.imports[id].file.Some? {
        ClearKeepsInv(db, id);
        ProcessKeepsInv(Cleared(db, id), id, db.imports[id].file.value, refs, now, fault);
      }
    case Remove(id) =>
      if id in db.imports {
        var after := RemovedImport(db, id).db;
        ClearKeepsInv(db, id);
        TableStaysOk(after.transformers, TransformerReadings, db.imports, after.imports);
        TableStaysOk(after.units, UnitReadings, db.imports, after.imports);
      }
    case AddManual(kind, meter, known, at, measure, now) =>
      if at.Some? && Key(meter, at.value) !in TableKeys(TableOf(db, kind)) {
        ManualKeepsTable(TableOf(db, kind), kind, db.imports, ManualReading(kind, meter, at.value, measure));
      }
  }

  ghost predicate Possible(db: Db, run: seq<Action>)
    decreases |run|
  {
    run == [] || (Enabled(db, run[0]) && Possible(Perform(db, run[0]).db, run[1..]))
  }

  function After(db: Db, run: seq<Action>): Db
    decreases |run|
  {
    if run == [] then db else After(Perform(db, run[0]).db, run[1..])
  }

  /** No run of imports, retries, deletions and manual readings stores one instant of a meter twice. */
  lemma {:induction false} RunKeepsInv(db: Db, run: seq<Action>)
    requires Inv(db) && Possible(db, run)
    ensures Inv(After(db, run))
    decreases |run|
  {
    hide Inv, Perform, Enabled;
    if run != [] {
      StepKeepsInv(db, run[0]);
      RunKeepsInv(Perform(db, run[0]).db, run[1..]);
    }
  }

  lemma ReadingsStayUnique(run: seq<Action>)
    requires Possible(Db([], [], map[]), run)
    ensures Unique(After(Db([], [], map[]), run).transformers) && Unique(After(Db([], [], map[]), run).units)
  {
    assert Inv(Db([], [], map[]));
    RunKeepsInv(Db([], [], map[]), run);
  }

  // ------------------------------------------------------------------ accounting

  lemma RowsSplit(file: File, kind: Kind, refs: Refs, now: int)
    ensures |FileRows(file, kind, refs, now)| + FileErrors(file, kind, refs, now) == FileTotal(file, kind, now)
    ensures file.Table? ==> FileTotal(file, kind, now) == NotBlank(file.lines)
  {
    if file.Table? {
      var split := ParsedLines(file.lines, kind, file.firstLine, now);
      ResolvedOrNot(split.success, refs);
      EveryLineIsAccountedFor(file.lines, kind, file.firstLine, now);
    }
  }

  /**
   Whenever an attempt reports a result, every line of the file that is not blank is stored, in error or a
   duplicate, each counted once, the record says the same, and it fails only if nothing was of use.
   */
  lemma TotalsAddUp(db: Db, id: nat, file: File, refs: Refs, now: int, fault: Fault)
    requires id in db.imports && Processed(db, id, file, refs, now, fault).outcome.Done?
    ensures var s := Processed(db, id, file, refs, now, fault);
            var o, imp := s.outcome, s.db.imports[id];
            && o.total == o.ok + o.bad + o.dups
            && (file.Table? && fault != RegistryFails ==> o.total == NotBlank(file.lines))
            && |TableOf(s.db, imp.kind)| == |TableOf(db, imp.kind)| + o.ok
            && (imp.status, imp.total, imp.ok, imp.bad, imp.dups) == (o.status, o.total, o.ok, o.bad, o.dups)
            && (file.Table? && fault != RegistryFails ==>
                  (o.status == Failed <==> o.ok == 0 && o.dups == 0 && o.total > 0))
            && (file.Rejected? || fault == RegistryFails ==> o == Done(Failed, 0, 0, 0, 0))
  {
    hide KeepFirst, TableKeys, FileRows, FileErrors, FileTotal, Tagged;
    var kind := db.imports[id].kind;
    RowsSplit(file, kind, refs, now);
    KeepFirstKeys(FileRows(file, kind, refs, now), TableKeys(TableOf(db, kind)));
  }

  /**
   An attempt that breaks off: one that cannot look up or save leaves both tables as they were and a record
   that accounts for what was read, with nothing stored; a crash leaves the record as it was.
   */
  lemma BrokenAttempts(db: Db, id: nat, file: File, refs: Refs, now: int, fault: Fault)
    requires id in db.imports && Processed(db, id, file, refs, now, fault).outcome == Broken
    ensures var s, done := Processed(db, id, file, refs, now, fault), Processed(db, id, file, refs, now, NoFault).outcome;
            var imp := s.db.imports[id];
            && file.Table? && done.Done? && s.db.imports == db.imports[id := imp]
            && (fault != CrashLate ==> s.db.transformers == db.transformers && s.db.units == db.units)
            && (fault == CrashLate ==> TableOf(s.db, imp.kind) == TableOf(Processed(db, id, file, refs, now, NoFault).db, imp.kind))
            && (fault in {CrashEarly, CrashLate} ==> imp == db.imports[id])
            && (fault in {LookupFails, SaveFails} ==>
                  imp.status == Failed && imp.ok == 0 && imp.bad == done.bad && imp.total == NotBlank(file.lines))
            && (fault == LookupFails ==> imp.dups == 0)
            && (fault == SaveFails ==> imp.dups == done.dups)
  {
    hide KeepFirst, TableKeys, FileRows, FileErrors, FileTotal, Tagged;
    RowsSplit(file, db.imports[id].kind, refs, now);
  }

  /**
   A manual reading is stored exactly if its meter is known, it is dated at most an hour ahead with values in
   range, and its instant is free; then that one reading is appended, for a consuming unit its energy only.
   */
  lemma ManualStoredIff(db: Db, kind: Kind, meter: Meter, known: bool, at: Option<int>, m: Measure, now: int)
    ensures var s := Added(db, kind, meter, known, at, m, now);
            var sound := at.Some? && at.value - now <= 3_600_000_000 && 0.0 <= m.energy <= 1_000_000_000.0 &&
                         (m.demand.Some? ==> m.demand.value >= 0.0) &&
                         (m.powerFactor.Some? ==> 0.0 < m.powerFactor.value <= 1.0);
            var free := forall r :: r in TableOf(db, kind) ==> at.Some? && r.key != Key(meter, at.value);
            && (s.outcome == Stored <==> known && sound && free)
            && (s.outcome == NotFound <==> !known)
            && (s.outcome == BadRequest <==> known && !sound)
            && (s.outcome == Conflict <==> known && sound && !free)
            && (s.outcome != Stored ==> s.db == db)
            && (s.outcome == Stored ==>
                  s.db == if kind == TransformerReadings
                          then db.(transformers := db.transformers + [Reading(Key(meter, at.value), m, None)])
                          else db.(units := db.units + [Reading(Key(meter, at.value), Measure(m.energy, None, None), None)]))
  {
    var table := TableOf(db, kind);
    if at.Some? && Key(meter, at.value) in TableKeys(table) {
      var r :| r in table && r.key == Key(meter, at.value);
    }
  }

  // ------------------------------------------------------------------ undo

  lemma StoredThenCleared(table: seq<Reading>, kept: seq<Row>, tenant: string, id: nat)
    requires forall r :: r in table ==> r.importId != Some(id)
    requires forall r :: r in kept ==> r.key.meter.tenant == tenant
    ensures Without(table + Tagged(kept, id), tenant, id) == table
    ensures WrittenIn(table + Tagged(kept, id), tenant, id) == |kept|
  {
    forall r | r in Tagged(kept, id)
      ensures Written(r, tenant, id)
    {
      var i :| 0 <= i < |kept| && Tagged(kept, id)[i] == r;
      assert kept[i] in kept;
    }
    WithoutAppended(table, Tagged(kept, id), tenant, id);
    WithoutNothing(table, tenant, id);
    WrittenInAppended(table, Tagged(kept, id), tenant, id);
  }

  lemma NothingYet(db: Db, id: nat)
    requires Inv(db) && id !in db.imports
    ensures forall r :: r in db.transformers ==> r.importId != Some(id)
    ensures forall r :: r in db.units ==> r.importId != Some(id)
  {
  }

  /** The attempt ends before it stores anything. */
  predicate StopsShort(file: File, rows: seq<Row>, fault: Fault) {
    file.Rejected? || fault in {RegistryFails, CrashEarly, SaveFails} || (fault == LookupFails && rows != [])
  }

  /** An attempt stores all that dedupe keeps, unless it stops short; then it stores nothing. */
  lemma ProcessStores(db: Db, id: nat, file: File, refs: Refs, now: int, fault: Fault)
    requires id in db.imports
    ensures var s, kind := Processed(db, id, file, refs, now, fault), db.imports[id].kind;
            var rows := FileRows(file, kind, refs, now);
            var kept := if StopsShort(file, rows, fault) then [] else KeepFirst(rows, TableKeys(TableOf(db, kind)));
            && TableOf(s.db, kind) == TableOf(db, kind) + Tagged(kept, id)
            && s.db == WithTable(db, kind, TableOf(s.db, kind)).(imports := s.db.imports)
            && (s.outcome.Done? ==> s.outcome.ok == |kept|)
    ensures var s, imp := Processed(db, id, file, refs, now, fault), db.imports[id];
            s.db.imports == db.imports ||
            exists status: Status, total: nat, ok: nat, bad: nat, dups: nat :: status != Processing &&
              s.db.imports == db.imports[id := Closed(imp, status, total, ok, bad, dups)]
  {
    hide KeepFirst, FileRows, FileErrors, FileTotal, TableKeys, Tagged;
    assert TableOf(db, db.imports[id].kind) + Tagged([], id) == TableOf(db, db.imports[id].kind);
  }

  lemma UploadStores(db: Db, id: nat, tenant: string, kind: Kind, file: File, refs: Refs, now: int, fault: Fault)
    returns (kept: seq<Row>)
    requires id !in db.imports && OfTenant(refs, tenant)
    ensures var s := Uploaded(db, id, tenant, kind, Some(file), refs, now, fault);
            && TableOf(s.db, kind) == TableOf(db, kind) + Tagged(kept, id)
            && s.db == WithTable(db, kind, TableOf(db, kind) + Tagged(kept, id)).(imports := s.db.imports)
            && id in s.db.imports && s.db.imports[id].tenant == tenant && !s.db.imports[id].removed
            && (s.outcome.Done? ==> s.outcome.ok == |kept|)
    ensures forall r :: r in kept ==> r.key.meter.tenant == tenant
  {
    var rows, table := FileRows(file, kind, refs, now), TableOf(db, kind);
    var begun := db.(imports := db.imports[id := Import(tenant, kind, Some(file), now, Processing, 0, 0, 0, 0, false)]);
    FileRowsOfTenant(file, kind, refs, now, tenant);
    KeepFirstKeys(rows, TableKeys(table));
    ProcessStores(begun, id, file, refs, now, fault);
    var s := Processed(begun, id, file, refs, now, fault);
    hide KeepFirst, FileRows, Processed, TableKeys, OfTenant, StopsShort;
    assert TableOf(begun, kind) == table;
    kept := if StopsShort(file, rows, fault) then [] else KeepFirst(rows, TableKeys(table));
  }

  /**
   Importing a file, however far it got, and then deleting the import leaves both tables exactly as they
   were, and reports how many readings it took away.
   */
  lemma DeleteUndoesImport(db: Db, id: nat, tenant: string, kind: Kind, file: File, refs: Refs, now: int, fault: Fault)
    requires Inv(db) && Enabled(db, Upload(id, tenant, kind, Some(file), refs, now, fault))
    ensures var imported := Uploaded(db, id, tenant, kind, Some(file), refs, now, fault);
            var undone := RemovedImport(imported.db, id);
            && undone.db.transformers == db.transformers && undone.db.units == db.units
            && undone.outcome.Removed?
            && (imported.outcome.Done? ==> undone.outcome.readings == imported.outcome.ok)
  {
    NothingYet(db, id);
    var kept := UploadStores(db, id, tenant, kind, file, refs, now, fault);
    hide Uploaded, Inv, Tagged, Without, WrittenIn, OfTenant;
    StoredThenCleared(TableOf(db, kind), kept, tenant, id);
    var other := if kind == UnitReadings then TransformerReadings else UnitReadings;
    WithoutNothing(TableOf(db, other), tenant, id);
  }

  // ------------------------------------------------------------------ retry

  /** What the import has stored at the moment. */
  function Own(table: seq<Reading>, tenant: string, id: nat): seq<Reading> {
    if table == [] then []
    else
      var n := |table| - 1;
      Own(table[..n], tenant, id) + if Written(table[n], tenant, id) then [table[n]] else []
  }

  lemma {:induction false} OwnHolds(table: seq<Reading>, tenant: string, id: nat, r: Reading)
    ensures r in Own(table, tenant, id) <==> r in table && Written(r, tenant, id)
  {
    if table != [] {
      OwnHolds(table[..|table| - 1], tenant, id, r);
      assert table == table[..|table| - 1] + [table[|table| - 1]];
    }
  }

  lemma {:induction false} OwnAppended(table: seq<Reading>, more: seq<Reading>, tenant: string, id: nat)
    ensures Own(table + more, tenant, id) == Own(table, tenant, id) + Own(more, tenant, id)
  {
    if more == [] {
      assert table + more == table;
    } else {
      var n := |more| - 1;
      OwnAppended(table, more[..n], tenant, id);
      assert (table + more)[..|table + more| - 1] == table + more[..n];
    }
  }

  lemma {:induction false} OwnAll(table: seq<Reading>, tenant: string, id: nat)
    ensures (forall r :: r in table ==> Written(r, tenant, id)) ==> Own(table, tenant, id) == table
    ensures (forall r :: r in table ==> !Written(r, tenant, id)) ==> Own(table, tenant, id) == []
  {
    if table != [] {
      OwnAll(table[..|table| - 1], tenant, id);
      assert table[|table| - 1] in table;
      assert table == table[..|table| - 1] + [table[|table| - 1]];
    }
  }

  lemma {:induction false} OwnOfWithout(table: seq<Reading>, tenant: string, id: nat, other: string, k: nat)
    requires id != k
    ensures Own(Without(table, other, k), tenant, id) == Own(table, tenant, id)
  {
    if table != [] {
      var n := |table| - 1;
      OwnOfWithout(table[..n], tenant, id, other, k);
      OwnAppended(Without(table[..n], other, k), [table[n]], tenant, id);
      assert Without(table[..n], other, k) + [] == Without(table[..n], other, k);
    }
  }

  lemma OwnOfTagged(rows: seq<Row>, tenant: string, id: nat)
    requires forall r :: r in rows ==> r.key.meter.tenant == tenant
    ensures Own(Tagged(rows, id), tenant, id) == Tagged(rows, id)
  {
    forall r | r in Tagged(rows, id)
      ensures Written(r, tenant, id)
    {
      var i :| 0 <= i < |rows| && Tagged(rows, id)[i] == r;
      assert rows[i] in rows;
    }
    OwnAll(Tagged(rows, id), tenant, id);
  }

  /** The others' rows and the import's own share no key. */
  lemma OwnApart(table: seq<Reading>, tenant: string, id: nat)
    requires Unique(table)
    ensures TableKeys(Without(table, tenant, id)) !! TableKeys(Own(table, tenant, id))
    ensures TableKeys(table) == TableKeys(Without(table, tenant, id)) + TableKeys(Own(table, tenant, id))
  {
    forall k | k in TableKeys(Without(table, tenant, id))
      ensures k !in TableKeys(Own(table, tenant, id)) && k in TableKeys(table)
    {
      var a :| a in Without(table, tenant, id) && a.key == k;
      WithoutHolds(table, tenant, id, a);
      forall b | b in Own(table, tenant, id)
        ensures b.key != k
      {
        OwnHolds(table, tenant, id, b);
        var i :| 0 <= i < |table| && table[i] == a;
        var j :| 0 <= j < |table| && table[j] == b;
      }
    }
    forall k | k in TableKeys(Own(table, tenant, id))
      ensures k in TableKeys(table)
    {
      var b :| b in Own(table, tenant, id) && b.key == k;
      OwnHolds(table, tenant, id, b);
    }
    forall k | k in TableKeys(table)
      ensures k in TableKeys(Without(table, tenant, id)) || k in TableKeys(Own(table, tenant, id))
    {
      var r :| r in table && r.key == k;
      WithoutHolds(table, tenant, id, r);
      OwnHolds(table, tenant, id, r);
    }
  }

  /** Dropping what others stored or what was seen before gives the same rows iff both hide the same keys. */
  lemma SameKept(rows: seq<Row>, seen: set<Key>, others: set<Key>)
    requires RowKeys(rows) - seen == RowKeys(rows) - others
    ensures KeepFirst(rows, seen) == KeepFirst(rows, others)
  {
    forall r | r in rows
      ensures r.key in seen <==> r.key in others
    {
      KeyIn(rows, r);
      assert r.key in RowKeys(rows) - seen <==> r.key in RowKeys(rows) - others;
    }
    KeepFirstDependsOn(rows, seen, others);
  }

  /** An attempt that can be retried and whose file reads. */
  ghost predicate Retriable(db: Db, id: nat, now: int) {
    && id in db.imports && !db.imports[id].removed
    && !(db.imports[id].status == Processing && db.imports[id].createdAt > now - PATIENCE)
    && db.imports[id].file.Some? && db.imports[id].file.value.Table?
  }

  /** Clearing touches the import's own table only. */
  lemma ClearedTables(db: Db, id: nat)
    requires Inv(db) && id in db.imports
    ensures var imp := db.imports[id];
            && Cleared(db, id).imports == db.imports
            && TableOf(Cleared(db, id), imp.kind) == Without(TableOf(db, imp.kind), imp.tenant, id)
            && forall t :: WithTable(Cleared(db, id), imp.kind, t) == WithTable(db, imp.kind, t)
  {
    var imp := db.imports[id];
    var other := if imp.kind == UnitReadings then TransformerReadings else UnitReadings;
    OtherTableHasNone(db, id);
    WithoutNothing(TableOf(db, other), imp.tenant, id);
  }

  lemma OtherTableHasNone(db: Db, id: nat)
    requires Inv(db) && id in db.imports
    ensures var imp := db.imports[id];
            var other := if imp.kind == UnitReadings then TransformerReadings else UnitReadings;
            forall r :: r in TableOf(db, other) ==> !Written(r, imp.tenant, id)
  {
  }

  /** The retry is not refused, and the transaction that clears the previous attempt goes through. */
  ghost predicate Attempted(db: Db, id: nat, now: int, fault: Fault) {
    && id in db.imports && !db.imports[id].removed
    && !(db.imports[id].status == Processing && db.imports[id].createdAt > now - PATIENCE)
    && db.imports[id].file.Some? && fault != ClearFails
  }

  lemma RetryRefused(db: Db, id: nat, refs: Refs, now: int, fault: Fault)
    requires !Attempted(db, id, now, fault)
    ensures Retried(db, id, refs, now, fault).db == db
  {
    hide Processed;
  }

  /** What a retry leaves in the import's table whatever fails: the others' rows, and what it then stores. */
  lemma RetryStoresOrLoses(db: Db, id: nat, refs: Refs, now: int, fault: Fault)
    requires Inv(db) && Attempted(db, id, now, fault)
    ensures var imp, s := db.imports[id], Retried(db, id, refs, now, fault);
            var others := Without(TableOf(db, imp.kind), imp.tenant, id);
            var rows := FileRows(imp.file.value, imp.kind, refs, now);
            var kept := if StopsShort(imp.file.value, rows, fault) then [] else KeepFirst(rows, TableKeys(others));
            && TableOf(s.db, imp.kind) == others + Tagged(kept, id)
            && s.db == WithTable(db, imp.kind, TableOf(s.db, imp.kind)).(imports := s.db.imports)
  {
    ClearedTables(db, id);
    hide Inv, Cleared, TableOf, WithTable, KeepFirst, Tagged, TableKeys, FileRows, Without, Processed, Closed, StopsShort;
    ProcessStores(Cleared(db, id), id, db.imports[id].file.value, refs, now, fault);
  }

  /**
   In general: after a retry the keys are those of the other rows and of the file's known meters; if it
   stops short, those of the other rows only.
   */
  lemma KeysAfterRetry(db: Db, id: nat, refs: Refs, now: int, fault: Fault)
    requires Inv(db) && Attempted(db, id, now, fault)
    ensures var imp, s := db.imports[id], Retried(db, id, refs, now, fault);
            var rows := FileRows(imp.file.value, imp.kind, refs, now);
            TableKeys(TableOf(s.db, imp.kind)) ==
            TableKeys(Without(TableOf(db, imp.kind), imp.tenant, id)) +
            if StopsShort(imp.file.value, rows, fault) then {} else RowKeys(rows)
  {
    RetryStoresOrLoses(db, id, refs, now, fault);
    var imp := db.imports[id];
    var others := Without(TableOf(db, imp.kind), imp.tenant, id);
    var rows := FileRows(imp.file.value, imp.kind, refs, now);
    var kept := if StopsShort(imp.file.value, rows, fault) then [] else KeepFirst(rows, TableKeys(others));
    NoRowsNoKeys();
    hide KeepFirst, TableKeys, RowKeys, Retried, Inv, Without, FileRows, StopsShort;
    KeepFirstKeys(rows, TableKeys(others));
    TaggedKeys(kept, id);
    AppendedKeys(others, Tagged(kept, id));
  }

  lemma NoRowsNoKeys()
    ensures RowKeys([]) == {}
  {
  }

  /**
   Exactly when a retry takes instants out of its table: it cleared the previous attempt, which had stored
   something, and stopped short, or stored something that the file does not hold for a known meter any more.
   Readings that are not the import's stay in every case.
   */
  lemma RetryLosesIff(db: Db, id: nat, refs: Refs, now: int, fault: Fault)
    requires Inv(db) && id in db.imports
    ensures var imp := db.imports[id];
            var before, after := TableOf(db, imp.kind), TableOf(Retried(db, id, refs, now, fault).db, imp.kind);
            var own := Own(before, imp.tenant, id);
            && (!(TableKeys(before) <= TableKeys(after)) <==>
                && Attempted(db, id, now, fault)
                && var rows := FileRows(imp.file.value, imp.kind, refs, now);
                   if StopsShort(imp.file.value, rows, fault) then own != [] else !(TableKeys(own) <= RowKeys(rows)))
            && (forall r :: r in before && !Written(r, imp.tenant, id) ==> r in after)
  {
    var imp := db.imports[id];
    var before := TableOf(db, imp.kind);
    OwnApart(before, imp.tenant, id);
    if Attempted(db, id, now, fault) {
      RetryStoresOrLoses(db, id, refs, now, fault);
      KeysAfterRetry(db, id, refs, now, fault);
      NoOwnNoKeys(Own(before, imp.tenant, id));
      hide Inv, Attempted, Retried, FileRows, TableKeys, RowKeys, Without, Own, StopsShort, KeepFirst;
      forall r | r in before && !Written(r, imp.tenant, id)
        ensures r in Without(before, imp.tenant, id)
      {
        WithoutHolds(before, imp.tenant, id, r);
      }
    } else {
      RetryRefused(db, id, refs, now, fault);
    }
  }

  lemma NoOwnNoKeys(own: seq<Reading>)
    ensures own == [] <==> TableKeys(own) == {}
  {
    if own != [] {
      KeyListed(own, 0);
    }
  }

  /** What an attempt stored: the first occurrences in the file of every key not in `seen`. */
  ghost predicate StoredFrom(table: seq<Reading>, tenant: string, id: nat, rows: seq<Row>, seen: set<Key>) {
    Own(table, tenant, id) == Tagged(KeepFirst(rows, seen), id)
  }

  /**
   Retrying with the registry unchanged leaves the stored readings as they are exactly when every reading
   of the file, as it is read now, is still in the table, stored by this import or by anybody else. The last
   attempt may have been so early that it refused readings after `limit`.
   */
  lemma RetryChangesNothing(db: Db, id: nat, refs: Refs, now: int, limit: int, seen: set<Key>)
    requires Inv(db) && Retriable(db, id, now)
    requires OfTenant(refs, db.imports[id].tenant)
    requires var imp := db.imports[id];
             StoredFrom(TableOf(db, imp.kind), imp.tenant, id,
                        Early(FileRows(imp.file.value, imp.kind, refs, now), limit), seen)
    ensures var imp, s := db.imports[id], Retried(db, id, refs, now, NoFault);
            var before, after := TableOf(db, imp.kind), TableOf(s.db, imp.kind);
            (forall r :: r in after <==> r in before) <==>
            RowKeys(FileRows(imp.file.value, imp.kind, refs, now)) <= TableKeys(before)
  {
    RetryStoresOrLoses(db, id, refs, now, NoFault);
    KeysAfterRetry(db, id, refs, now, NoFault);
    var imp, s := db.imports[id], Retried(db, id, refs, now, NoFault);
    var before, after := TableOf(db, imp.kind), TableOf(s.db, imp.kind);
    var rows := FileRows(imp.file.value, imp.kind, refs, now);
    hide Retried, Retriable, Without, Own, KeepFirst, FileRows, OfTenant, Early;
    if RowKeys(rows) <= TableKeys(before) {
      OwnReturns(before, imp.tenant, id, rows, limit, seen);
      forall r
        ensures r in after <==> r in before
      {
        WithoutHolds(before, imp.tenant, id, r);
        OwnHolds(before, imp.tenant, id, r);
      }
    }
    if forall r :: r in after <==> r in before {
      SameRowsSameKeys(before, after);
    }
  }

  lemma SameRowsSameKeys(a: seq<Reading>, b: seq<Reading>)
    requires forall r :: r in a <==> r in b
    ensures TableKeys(a) == TableKeys(b)
  {
  }

  lemma OwnReturns(table: seq<Reading>, tenant: string, id: nat, rows: seq<Row>, limit: int, seen: set<Key>)
    requires Unique(table) && StoredFrom(table, tenant, id, Early(rows, limit), seen)
    requires RowKeys(rows) <= TableKeys(table)
    ensures Tagged(KeepFirst(rows, TableKeys(Without(table, tenant, id))), id) == Own(table, tenant, id)
  {
    hide Own, Without, KeepFirst, TableKeys, RowKeys, Early;
    var others, early := TableKeys(Without(table, tenant, id)), Early(rows, limit);
    OwnApart(table, tenant, id);
    KeepFirstKeys(early, seen);
    TaggedKeys(KeepFirst(early, seen), id);
    assert TableKeys(Own(table, tenant, id)) == RowKeys(early) - seen;
    forall k
      ensures k in RowKeys(early) <==> k in RowKeys(rows) && k.at <= limit
    {
      EarlyKeys(rows, limit, k);
    }
    assert RowKeys(early) - seen == RowKeys(early) - others;
    SameKept(early, seen, others);
    KeepFirstEarly(rows, others, limit);
    KeepFirstKeys(rows, others);
    forall r | r in KeepFirst(rows, others)
      ensures r.key.at <= limit
    {
      KeyIn(KeepFirst(rows, others), r);
    }
    EarlyAll(KeepFirst(rows, others), limit);
  }

  lemma ClearedAgain(table: seq<Reading>, kept: seq<Row>, tenant: string, id: nat)
    requires forall r :: r in kept ==> r.key.meter.tenant == tenant
    ensures Without(Without(table, tenant, id) + Tagged(kept, id), tenant, id) == Without(table, tenant, id)
  {
    var others := Without(table, tenant, id);
    forall r | r in others
      ensures !Written(r, tenant, id)
    {
      WithoutHolds(table, tenant, id, r);
    }
    forall r | r in Tagged(kept, id)
      ensures Written(r, tenant, id)
    {
      var i :| 0 <= i < |kept| && Tagged(kept, id)[i] == r;
      assert kept[i] in kept;
    }
    WithoutAppended(others, Tagged(kept, id), tenant, id);
    WithoutNothing(others, tenant, id);
  }

  /** The state after a retry, whatever failed: tables that clear alike, and a record that can be retried. */
  lemma RetriedClears(db: Db, id: nat, refs: Refs, now: int, fault: Fault)
    requires Inv(db) && Attempted(db, id, now, fault) && OfTenant(refs, db.imports[id].tenant)
    ensures var failed, imp := Retried(db, id, refs, now, fault).db, db.imports[id];
            && (failed.imports == db.imports ||
                exists status: Status, total: nat, ok: nat, bad: nat, dups: nat :: status != Processing &&
                  failed.imports == db.imports[id := Closed(imp, status, total, ok, bad, dups)])
            && Cleared(failed, id) == Cleared(db, id).(imports := failed.imports)
  {
    var imp := db.imports[id];
    var others := Without(TableOf(db, imp.kind), imp.tenant, id);
    var rows := FileRows(imp.file.value, imp.kind, refs, now);
    var kept := if StopsShort(imp.file.value, rows, fault) then [] else KeepFirst(rows, TableKeys(others));
    RetryStoresOrLoses(db, id, refs, now, fault);
    ClearedTables(db, id);
    ProcessStores(Cleared(db, id), id, imp.file.value, refs, now, fault);
    FileRowsOfTenant(imp.file.value, imp.kind, refs, now, imp.tenant);
    KeepFirstKeys(rows, TableKeys(others));
    hide Inv, KeepFirst, TableKeys, FileRows, Processed, StopsShort, OfTenant, Without;
    ClearedAgain(TableOf(db, imp.kind), kept, imp.tenant, id);
  }

  /** An undisturbed attempt writes the whole record: what it said before makes no difference. */
  lemma ProcessIgnoresRecord(db: Db, id: nat, file: File, refs: Refs, now: int,
                             status: Status, total: nat, ok: nat, bad: nat, dups: nat)
    requires id in db.imports && file.Table?
    ensures Processed(db.(imports := db.imports[id := Closed(db.imports[id], status, total, ok, bad, dups)]),
                      id, file, refs, now, NoFault) ==
            Processed(db, id, file, refs, now, NoFault)
  {
    hide KeepFirst, TableKeys, FileRows, FileErrors, FileTotal, Tagged;
  }

  /**
   A retry that stopped halfway does no lasting harm: a later one that goes through ends, tables, record and
   answer, exactly as if the first had not been tried.
   */
  lemma RetryAgainRestores(db: Db, id: nat, refs: Refs, now: int, fault: Fault, laterRefs: Refs, later: int)
    requires Inv(db) && Retriable(db, id, now) && now <= later && OfTenant(refs, db.imports[id].tenant)
    ensures var first := Retried(db, id, refs, now, fault).db;
            Retried(first, id, laterRefs, later, NoFault) == Retried(db, id, laterRefs, later, NoFault)
  {
    if Attempted(db, id, now, fault) {
      RetriedClears(db, id, refs, now, fault);
      var imp, first := db.imports[id], Retried(db, id, refs, now, fault).db;
      var cleared := Cleared(db, id);
      hide Inv, OfTenant, Processed, Cleared;
      if first.imports != db.imports {
        var status: Status, total: nat, ok: nat, bad: nat, dups: nat :| status != Processing &&
          first.imports == db.imports[id := Closed(imp, status, total, ok, bad, dups)];
        ClearingKeepsRecords(db, id);
        ProcessIgnoresRecord(cleared, id, imp.file.value, laterRefs, later, status, total, ok, bad, dups);
      } else {
        ClearingKeepsRecords(db, id);
      }
    } else {
      RetryRefused(db, id, refs, now, fault);
    }
  }

  lemma ClearingKeepsRecords(db: Db, id: nat)
    requires id in db.imports
    ensures Cleared(db, id).imports == db.imports
  {
  }

  /** Retrying again at once finds the same rows: tables, record and answer stay as they are. */
  lemma RetryTwice(db: Db, id: nat, refs: Refs, now: int)
    requires Inv(db) && Retriable(db, id, now) && OfTenant(refs, db.imports[id].tenant)
    ensures var once := Retried(db, id, refs, now, NoFault);
            Retried(once.db, id, refs, now, NoFault) == once
  {
    RetryAgainRestores(db, id, refs, now, NoFault, refs, now);
  }

  // ------------------------------------------------------------------ what others do in between

  predicate Touches(a: Action, id: nat) {
    match a
    case Upload(k, _, _, _, _, _, _) => k == id
    case Retry(k, _, _, _) => k == id
    case Remove(k) => k == id
    case AddManual(_, _, _, _, _, _) => false
  }

  lemma OthersTagged(table: seq<Reading>, rows: seq<Row>, tenant: string, id: nat, k: nat)
    requires k != id
    ensures Own(table + Tagged(rows, k), tenant, id) == Own(table, tenant, id)
  {
    OwnAppended(table, Tagged(rows, k), tenant, id);
    OwnAll(Tagged(rows, k), tenant, id);
  }

  lemma ProcessKeepsOwn(db: Db, k: nat, file: File, refs: Refs, now: int, fault: Fault, kind: Kind, tenant: string,
                        id: nat)
    requires k in db.imports && k != id
    ensures Own(TableOf(Processed(db, k, file, refs, now, fault).db, kind), tenant, id) ==
        Own(TableOf(db, kind), tenant, id)
    ensures id in db.imports ==>
      id in Processed(db, k, file, refs, now, fault).db.imports &&
      Processed(db, k, file, refs, now, fault).db.imports[id] == db.imports[id]
  {
    hide KeepFirst, Tagged, TableKeys, FileRows, FileErrors, FileTotal, Own;
    OthersTagged(TableOf(db, kind),
                 KeepFirst(FileRows(file, db.imports[k].kind, refs, now), TableKeys(TableOf(db, db.imports[k].kind))),
                 tenant, id, k);
  }

  lemma StepKeepsOwn(db: Db, a: Action, kind: Kind, tenant: string, id: nat)
    requires id in db.imports && Enabled(db, a) && !Touches(a, id)
    ensures Own(TableOf(Perform(db, a).db, kind), tenant, id) == Own(TableOf(db, kind), tenant, id)
    ensures id in Perform(db, a).db.imports && Perform(db, a).db.imports[id] == db.imports[id]
  {
    hide Processed, Own, Without, WrittenIn, OfTenant, TableKeys;
    match a
    case Upload(k, t, kd, file, refs, now, fault) =>
      if file.Some? {
        var begun := db.(imports := db.imports[k := Import(t, kd, file, now, Processing, 0, 0, 0, 0, false)]);
        ProcessKeepsOwn(begun, k, file.value, refs, now, fault, kind, tenant, id);
      }
    case Retry(k, refs, now, fault) =>
      if k in db.imports && db.imports[k].file.Some? {
        OwnOfWithout(TableOf(db, kind), tenant, id, db.imports[k].tenant, k);
        ProcessKeepsOwn(Cleared(db, k), k, db.imports[k].file.value, refs, now, fault, kind, tenant, id);
      }
    case Remove(k) =>
      if k in db.imports {
        OwnOfWithout(TableOf(db, kind), tenant, id, db.imports[k].tenant, k);
      }
    case AddManual(kd, meter, known, at, measure, now) =>
      if at.Some? {
        OwnManual(TableOf(db, kind), ManualReading(kd, meter, at.value, measure), tenant, id);
      }
  }

  lemma OwnManual(table: seq<Reading>, r: Reading, tenant: string, id: nat)
    requires r.importId == None
    ensures Own(table + [r], tenant, id) == Own(table, tenant, id)
  {
    OwnAppended(table, [r], tenant, id);
    OwnAll([r], tenant, id);
  }

  ghost predicate Untouched(run: seq<Action>, id: nat) {
    forall i :: 0 <= i < |run| ==> !Touches(run[i], id)
  }

  lemma {:induction false} RunKeepsOwn(db: Db, run: seq<Action>, kind: Kind, tenant: string, id: nat)
    requires id in db.imports && Possible(db, run) && Untouched(run, id)
    ensures Own(TableOf(After(db, run), kind), tenant, id) == Own(TableOf(db, kind), tenant, id)
    ensures id in After(db, run).imports && After(db, run).imports[id] == db.imports[id]
    decreases |run|
  {
    hide Own, Perform, Enabled, Touches;
    if run != [] {
      StepKeepsOwn(db, run[0], kind, tenant, id);
      RunKeepsOwn(Perform(db, run[0]).db, run[1..], kind, tenant, id);
    }
  }

  ghost predicate Gone(db: Db, id: nat, kind: Kind) {
    id in db.imports && db.imports[id].removed && Own(TableOf(db, kind), db.imports[id].tenant, id) == []
  }

  lemma {:induction false} StaysGone(db: Db, run: seq<Action>, id: nat, kind: Kind)
    requires Gone(db, id, kind) && Possible(db, run)
    ensures Gone(After(db, run), id, kind) && After(db, run).imports[id] == db.imports[id]
    decreases |run|
  {
    hide Own, Enabled;
    if run != [] {
      var next := Perform(db, run[0]).db;
      assert Gone(next, id, kind) && next.imports[id] == db.imports[id] by {
        if Touches(run[0], id) {
          assert next == db by { NotTouched(db, run[0], id); }
        } else {
          StepKeepsOwn(db, run[0], kind, db.imports[id].tenant, id);
        }
      }
      hide Perform, Gone;
      StaysGone(next, run[1..], id, kind);
    }
  }

  lemma NothingOwn(table: seq<Reading>, tenant: string, id: nat)
    ensures Own(Without(table, tenant, id), tenant, id) == []
  {
    var own := Own(Without(table, tenant, id), tenant, id);
    if own != [] {
      OwnHolds(Without(table, tenant, id), tenant, id, own[0]);
      WithoutHolds(table, tenant, id, own[0]);
    }
  }

  lemma NotTouched(db: Db, a: Action, id: nat)
    requires id in db.imports && db.imports[id].removed && Enabled(db, a) && Touches(a, id)
    ensures Perform(db, a) == Step(db, NotFound)
  {
  }

  /** Whatever happens after an import was deleted, none of its readings come back and it is not found again. */
  lemma DeletedForGood(db: Db, id: nat, run: seq<Action>, kind: Kind, r: Reading, refs: Refs, now: int, fault: Fault)
    requires RemovedImport(db, id).outcome.Removed? && Possible(RemovedImport(db, id).db, run)
    ensures var after := After(RemovedImport(db, id).db, run);
            && (r in TableOf(after, kind) ==> !Written(r, db.imports[id].tenant, id))
            && Retried(after, id, refs, now, fault) == Step(after, NotFound)
            && RemovedImport(after, id) == Step(after, NotFound)
  {
    var gone, tenant := RemovedImport(db, id).db, db.imports[id].tenant;
    var after := After(gone, run);
    NothingOwn(TableOf(db, kind), tenant, id);
    StaysGone(gone, run, id, kind);
    OwnHolds(TableOf(after, kind), after.imports[id].tenant, id, r);
  }

  /** What an undisturbed import leaves behind. */
  lemma UploadExactly(db: Db, id: nat, tenant: string, kind: Kind, file: File, refs: Refs, now: int)
    requires id !in db.imports && file.Table?
    ensures var s := Uploaded(db, id, tenant, kind, Some(file), refs, now, NoFault);
            && id in s.db.imports && s.db.imports[id].tenant == tenant && s.db.imports[id].kind == kind
            && s.db.imports[id].file == Some(file) && !s.db.imports[id].removed && s.db.imports[id].status != Processing
            && TableOf(s.db, kind) == TableOf(db, kind) +
                 Tagged(KeepFirst(FileRows(file, kind, refs, now), TableKeys(TableOf(db, kind))), id)
  {
    hide KeepFirst, Tagged, TableKeys, FileRows, FileErrors, FileTotal;
  }

  lemma StoredByUpload(table: seq<Reading>, rows: seq<Row>, tenant: string, id: nat)
    requires forall r :: r in table ==> r.importId != Some(id)
    requires forall r :: r in rows ==> r.key.meter.tenant == tenant
    ensures StoredFrom(table + Tagged(KeepFirst(rows, TableKeys(table)), id), tenant, id, rows, TableKeys(table))
  {
    var kept := KeepFirst(rows, TableKeys(table));
    KeepFirstKeys(rows, TableKeys(table));
    OwnOfTagged(kept, tenant, id);
    OwnAppended(table, Tagged(kept, id), tenant, id);
    OwnAll(table, tenant, id);
    hide Own, KeepFirst, Tagged, TableKeys;
    assert [] + Tagged(kept, id) == Tagged(kept, id);
  }

  lemma UploadStoresFrom(db: Db, id: nat, tenant: string, kind: Kind, file: File, refs: Refs, now: int)
    requires Inv(db) && id !in db.imports && OfTenant(refs, tenant) && file.Table?
    ensures var s := Uploaded(db, id, tenant, kind, Some(file), refs, now, NoFault);
            && id in s.db.imports && s.db.imports[id].tenant == tenant && s.db.imports[id].kind == kind
            && s.db.imports[id].file == Some(file) && !s.db.imports[id].removed && s.db.imports[id].status != Processing
            && StoredFrom(TableOf(s.db, kind), tenant, id, FileRows(file, kind, refs, now), TableKeys(TableOf(db, kind)))
  {
    NothingYet(db, id);
    FileRowsOfTenant(file, kind, refs, now, tenant);
    hide FileRows, Uploaded, StoredFrom, Inv, OfTenant;
    UploadExactly(db, id, tenant, kind, file, refs, now);
    StoredByUpload(TableOf(db, kind), FileRows(file, kind, refs, now), tenant, id);
  }

  lemma FileRowsLater(file: File, kind: Kind, refs: Refs, now: int, later: int)
    requires now <= later
    ensures FileRows(file, kind, refs, now) == Early(FileRows(file, kind, refs, later), now + FUTURE)
  {
    if file.Table? {
      ReadingLater(file.lines, kind, file.firstLine, refs, now, later);
    }
  }

  /**
   Import a file, let anybody do anything else, then retry the import with the registry unchanged: the stored
   readings stay the same exactly when every reading of the file, as it is read by then, is stored.
   */
  lemma RetryAfterAnyRun(db: Db, id: nat, tenant: string, kind: Kind, file: File, refs: Refs, now: int,
                         run: seq<Action>, later: int)
    requires Inv(db) && id !in db.imports && OfTenant(refs, tenant) && file.Table? && now <= later
    requires var imported := Uploaded(db, id, tenant, kind, Some(file), refs, now, NoFault).db;
             Possible(imported, run) && Untouched(run, id)
    ensures var imported := Uploaded(db, id, tenant, kind, Some(file), refs, now, NoFault).db;
            var before := After(imported, run);
            var after := Retried(before, id, refs, later, NoFault).db;
            (forall r :: r in TableOf(after, kind) <==> r in TableOf(before, kind)) <==>
            RowKeys(FileRows(file, kind, refs, later)) <= TableKeys(TableOf(before, kind))
  {
    var upload := Upload(id, tenant, kind, Some(file), refs, now, NoFault);
    assert Enabled(db, upload);
    var imported := Perform(db, upload).db;
    StepKeepsInv(db, upload);
    RunKeepsInv(imported, run);
    UploadStoresFrom(db, id, tenant, kind, file, refs, now);
    RunKeepsOwn(imported, run, kind, tenant, id);
    FileRowsLater(file, kind, refs, now, later);
    hide Inv, Uploaded, Retried, After, Possible, Own, KeepFirst, FileRows, OfTenant, RowKeys, TableKeys, Tagged;
    hide TableOf, Early;
    RetryChangesNothing(After(imported, run), id, refs, later, now + FUTURE, TableKeys(TableOf(db, kind)));
  }
}
