/**
 The life of a reading import (internal/usecase/import_usecase.go, internal/ingestion/csv_parser.go and the
 reading repositories): parse, resolve, drop duplicates in place, store, retry, delete, with manual
 readings in between (internal/usecase/network_usecase.go).

 Instants are microseconds, the precision of the database. Each transaction is one step.
 */
module Imports {
  import opened Prelude
  import Numbers
  import opened NumberTexts

  datatype Kind = TransformerReadings | UnitReadings

  /** A transformer or consuming unit; ids are unique, so a meter has one tenant. */
  datatype Meter = Meter(tenant: string, id: string)

  datatype Key = Key(meter: Meter, at: int)

  datatype Measure = Measure(energy: real, demand: Option<real>, powerFactor: Option<real>)

  /** A stored reading; manual ones belong to no import. */
  datatype Reading = Reading(key: Key, measure: Measure, importId: Option<nat>)

  datatype RowError = RowError(line: nat, column: string, message: string)

  // ------------------------------------------------------------------ the file

  /** The cells of one line, each as its own parser reads it. */
  datatype Line = Line(blank: bool, ref: string, at: Result<int, string>, energy: Result<real, string>,
                       demand: Option<Result<real, string>>, powerFactor: Option<Result<real, string>>)

  /** A table, or the reason it cannot be read or lacks a required column. */
  datatype File = Rejected(message: string) | Table(firstLine: nat, lines: seq<Line>)

  datatype Parsed = Parsed(line: nat, ref: string, at: int, measure: Measure)

  datatype Split = Split(success: seq<Parsed>, errors: seq<RowError>)

  const FUTURE: int := 48 * 3600 * 1_000_000

  function Percent(v: real): real { if 1.0 < v <= 100.0 then v / 100.0 else v }

  function ParseDemand(demand: Option<Result<real, string>>, line: nat): Result<Option<real>, RowError> {
    match demand
    case None => Ok(None)
    case Some(Err(e)) => Err(RowError(line, "demand_kw", e))
    case Some(Ok(v)) => if v < 0.0 then Err(RowError(line, "demand_kw", "negative")) else Ok(Some(v))
  }

  function ParsePowerFactor(factor: Option<Result<real, string>>, line: nat): Result<Option<real>, RowError> {
    match factor
    case None => Ok(None)
    case Some(Err(e)) => Err(RowError(line, "power_factor", e))
    case Some(Ok(v)) =>
      if Percent(v) <= 0.0 || Percent(v) > 1.0 then Err(RowError(line, "power_factor", "not between 0 and 1"))
      else Ok(Some(Percent(v)))
  }

  /** parseRow: the first cell that does not fit rejects the line. */
  function ParseRow(l: Line, kind: Kind, line: nat, now: int): Result<Parsed, RowError> {
    if l.ref == "" then Err(RowError(line, "meter", "empty"))
    else if l.at.Err? then Err(RowError(line, "reading_at", l.at.error))
    else if l.at.value > now + FUTURE then Err(RowError(line, "reading_at", "in the future"))
    else if l.energy.Err? then Err(RowError(line, "energy", l.energy.error))
    else if l.energy.value < 0.0 then Err(RowError(line, "energy", "negative"))
    else if kind == UnitReadings then Ok(Parsed(line, l.ref, l.at.value, Measure(l.energy.value, None, None)))
    else
      match ParseDemand(l.demand, line)
      case Err(e) => Err(e)
      case Ok(demand) =>
        match ParsePowerFactor(l.powerFactor, line)
        case Err(e) => Err(e)
        case Ok(factor) => Ok(Parsed(line, l.ref, l.at.value, Measure(l.energy.value, demand, factor)))
  }

  predicate Readable(cell: Option<Result<real, string>>) { cell.Some? ==> cell.value.Ok? }

  /** What a line must hold to become a reading. */
  predicate Acceptable(l: Line, kind: Kind, now: int) {
    && l.ref != "" && l.at.Ok? && l.at.value <= now + FUTURE
    && l.energy.Ok? && l.energy.value >= 0.0
    && (kind == TransformerReadings ==>
          && Readable(l.demand) && (l.demand.Some? ==> l.demand.value.value >= 0.0)
          && Readable(l.powerFactor) && (l.powerFactor.Some? ==> 0.0 < l.powerFactor.value.value <= 100.0))
  }

  /** The first cell that rejects a line, for one that is not acceptable. */
  function FirstBadCell(l: Line, now: int): string {
    if l.ref == "" then "meter"
    else if l.at.Ok? ==> l.at.value > now + FUTURE then "reading_at"
    else if l.energy.Ok? ==> l.energy.value < 0.0 then "energy"
    else if l.demand.Some? && (l.demand.value.Ok? ==> l.demand.value.value < 0.0) then "demand_kw"
    else "power_factor"
  }

  /**
   Exactly the acceptable lines become readings: of the same meter, instant and energy, for transformers
   with the demand given and the power factor as a fraction, whether it was written so or in percent.
   Any other line is reported once, at its first bad cell.
   */
  lemma RowAcceptedIff(l: Line, kind: Kind, line: nat, now: int)
    ensures var r := ParseRow(l, kind, line, now);
            && (r.Ok? <==> Acceptable(l, kind, now))
            && (r.Ok? ==>
                  && r.value.ref == l.ref && r.value.at == l.at.value && r.value.line == line
                  && r.value.measure.energy == l.energy.value
                  && (r.value.measure.demand.Some? <==> kind == TransformerReadings && l.demand.Some?)
                  && (r.value.measure.powerFactor.Some? <==> kind == TransformerReadings && l.powerFactor.Some?)
                  && (r.value.measure.demand.Some? ==> r.value.measure.demand.value == l.demand.value.value)
                  && (r.value.measure.powerFactor.Some? ==>
                        r.value.measure.powerFactor.value * (if l.powerFactor.value.value <= 1.0 then 1.0 else 100.0) ==
                        l.powerFactor.value.value))
            && (r.Err? ==> r.error.line == line && r.error.column == FirstBadCell(l, now))
  {
  }

  function ParsedLines(lines: seq<Line>, kind: Kind, firstLine: nat, now: int): Split {
    if lines == [] then Split([], [])
    else
      var n := |lines| - 1;
      var front := ParsedLines(lines[..n], kind, firstLine, now);
      if lines[n].blank then front
      else match ParseRow(lines[n], kind, firstLine + n, now)
           case Ok(p) => Split(front.success + [p], front.errors)
           case Err(e) => Split(front.success, front.errors + [e])
  }

  method ParseTable(lines: seq<Line>, kind: Kind, firstLine: nat, now: int)
    returns (success: seq<Parsed>, errors: seq<RowError>)
    ensures Split(success, errors) == ParsedLines(lines, kind, firstLine, now)
  {
    success, errors := [], [];
    for i := 0 to |lines|
      invariant Split(success, errors) == ParsedLines(lines[..i], kind, firstLine, now)
    {
      assert lines[..i + 1][..i] == lines[..i];
      if !lines[i].blank {
        match ParseRow(lines[i], kind, firstLine + i, now)
        case Ok(p) => success := success + [p];
        case Err(e) => errors := errors + [e];
      }
    }
    assert lines[..|lines|] == lines;
  }

  predicate Plausible(m: Measure) {
    && m.energy >= 0.0
    && (m.demand.Some? ==> m.demand.value >= 0.0)
    && (m.powerFactor.Some? ==> 0.0 < m.powerFactor.value <= 1.0)
  }

  function NotBlank(lines: seq<Line>): nat {
    if lines == [] then 0 else NotBlank(lines[..|lines| - 1]) + if lines[|lines| - 1].blank then 0 else 1
  }

  /** Every line that is not blank is either a reading or an error, and a reading holds plausible values. */
  lemma {:induction false} EveryLineIsAccountedFor(lines: seq<Line>, kind: Kind, firstLine: nat, now: int)
    ensures var split := ParsedLines(lines, kind, firstLine, now);
            && |split.success| + |split.errors| == NotBlank(lines)
            && forall p :: p in split.success ==> Plausible(p.measure) && p.ref != "" && p.at <= now + FUTURE
  {
    if lines != [] {
      EveryLineIsAccountedFor(lines[..|lines| - 1], kind, firstLine, now);
    }
  }

  /** Read again later, a file without future dates reads the same. */
  lemma {:induction false} SameReadingLater(lines: seq<Line>, kind: Kind, firstLine: nat, now: int, later: int)
    requires now <= later
    requires forall i :: 0 <= i < |lines| && lines[i].at.Ok? ==> lines[i].at.value <= now + FUTURE
    ensures ParsedLines(lines, kind, firstLine, later) == ParsedLines(lines, kind, firstLine, now)
  {
    if lines != [] {
      SameReadingLater(lines[..|lines| - 1], kind, firstLine, now, later);
      assert ParseRow(lines[|lines| - 1], kind, firstLine + |lines| - 1, later) ==
             ParseRow(lines[|lines| - 1], kind, firstLine + |lines| - 1, now);
    }
  }

  // ------------------------------------------------------------------ meters

  /** The meters of a tenant, by upper-cased code and by lower-cased id. */
  type Refs = map<string, Meter>

  function UpperChar(c: char): char { if 'a' <= c <= 'z' then (c as int - 32) as char else c }

  function LowerChar(c: char): char { if 'A' <= c <= 'Z' then (c as int + 32) as char else c }

  function Upper(s: string): string { seq(|s|, i requires 0 <= i < |s| => UpperChar(s[i])) }

  function Lower(s: string): string { seq(|s|, i requires 0 <= i < |s| => LowerChar(s[i])) }

  function LookupMeter(refs: Refs, raw: string): Option<Meter> {
    var code, id := Upper(Numbers.TrimSpace(raw)), Lower(Numbers.TrimSpace(raw));
    if code in refs then Some(refs[code])
    else if id in refs then Some(refs[id])
    else None
  }

  /** A meter as the registry lists it. */
  datatype Listed = Listed(code: string, id: string)

  /** Every meter under its code and under its id; what is listed later wins. */
  function RefsOf(tenant: string, listed: seq<Listed>): Refs {
    if listed == [] then map[]
    else
      var last := listed[|listed| - 1];
      var m := Meter(tenant, last.id);
      RefsOf(tenant, listed[..|listed| - 1])[Upper(last.code) := m][Lower(last.id) := m]
  }

  /** RefsByTenant. */
  method LoadRefs(tenant: string, listed: seq<Listed>) returns (refs: Refs)
    ensures refs == RefsOf(tenant, listed)
    ensures refs.Values <= set l | l in listed :: Meter(tenant, l.id)
  {
    refs := map[];
    for i := 0 to |listed|
      invariant refs == RefsOf(tenant, listed[..i])
      invariant refs.Values <= set l | l in listed :: Meter(tenant, l.id)
    {
      assert listed[..i + 1][..i] == listed[..i];
      assert listed[i] in listed;
      refs := refs[Upper(listed[i].code) := Meter(tenant, listed[i].id)];
      refs := refs[Lower(listed[i].id) := Meter(tenant, listed[i].id)];
    }
    assert listed[..|listed|] == listed;
  }

  // ------------------------------------------------------------------ what a reference spells

  /** The same character, or the same letter in the other case. */
  predicate SameLetter(c: char, d: char) {
    || c == d
    || ('a' <= c <= 'z' && c as int - 32 == d as int)
    || ('a' <= d <= 'z' && d as int - 32 == c as int)
  }

  predicate SameText(a: string, b: string) {
    |a| == |b| && forall i :: 0 <= i < |a| ==> SameLetter(a[i], b[i])
  }

  /** Leaving blanks around it aside, `raw` is `text` in some mixture of cases. */
  predicate Spells(raw: string, text: string) {
    exists i, j :: 0 <= i <= j <= |raw| &&
      Blank(raw[..i]) && Bare(raw[i..j]) && Blank(raw[j..]) && SameText(raw[i..j], text)
  }

  lemma SameLetterIff(c: char, d: char)
    ensures SameLetter(c, d) <==> UpperChar(c) == UpperChar(d)
    ensures SameLetter(c, d) <==> LowerChar(c) == LowerChar(d)
  {
  }

  lemma SameTextIff(a: string, b: string)
    ensures SameText(a, b) <==> Upper(a) == Upper(b)
    ensures SameText(a, b) <==> Lower(a) == Lower(b)
  {
    hide UpperChar, LowerChar, SameLetter;
    forall i | 0 <= i < |a| && i < |b|
      ensures SameLetter(a[i], b[i]) <==> UpperChar(a[i]) == UpperChar(b[i])
      ensures SameLetter(a[i], b[i]) <==> LowerChar(a[i]) == LowerChar(b[i])
    {
      SameLetterIff(a[i], b[i]);
    }
    if Upper(a) == Upper(b) {
      assert |a| == |b|;
      forall i | 0 <= i < |a|
        ensures SameLetter(a[i], b[i])
      {
        assert Upper(a)[i] == Upper(b)[i];
      }
    }
    if Lower(a) == Lower(b) {
      assert |a| == |b|;
      forall i | 0 <= i < |a|
        ensures SameLetter(a[i], b[i])
      {
        assert Lower(a)[i] == Lower(b)[i];
      }
    }
  }

  /** A reference spells a text exactly when, trimmed, it is the text up to case. */
  lemma SpellsIff(raw: string, text: string)
    ensures Spells(raw, text) <==> Upper(Numbers.TrimSpace(raw)) == Upper(text)
    ensures Spells(raw, text) <==> Lower(Numbers.TrimSpace(raw)) == Lower(text)
  {
    hide SameText, Blank, Bare;
    SameTextIff(Numbers.TrimSpace(raw), text);
    if Spells(raw, text) {
      var i, j :| 0 <= i <= j <= |raw| &&
        Blank(raw[..i]) && Bare(raw[i..j]) && Blank(raw[j..]) && SameText(raw[i..j], text);
      Trimmed(raw, i, j);
    }
    if SameText(Numbers.TrimSpace(raw), text) {
      var i, j := TrimSplits(raw);
      Trimmed(raw, i, j);
    }
  }

  predicate Letter(c: char) { 'a' <= c <= 'z' || 'A' <= c <= 'Z' }

  /** A text whose case cannot be told: codes and ids are then looked up alike. */
  predicate Caseless(s: string) { forall i :: 0 <= i < |s| ==> !Letter(s[i]) }

  /** The reference spells the meter's code, or, if it has no letters, its id. */
  predicate SpelledFirst(raw: string, l: Listed) {
    Spells(raw, l.code) || (Caseless(raw) && Spells(raw, l.id))
  }

  /** The last meter listed whose code the reference spells; if there is none, the last whose id it spells. */
  ghost predicate RefersTo(listed: seq<Listed>, raw: string, i: int) {
    && 0 <= i < |listed|
    && if exists k :: 0 <= k < |listed| && SpelledFirst(raw, listed[k])
       then SpelledFirst(raw, listed[i]) && forall k :: i < k < |listed| ==> !SpelledFirst(raw, listed[k])
       else Spells(raw, listed[i].id) && forall k :: i < k < |listed| ==> !Spells(raw, listed[k].id)
  }

  function CodeKey(raw: string): string { Upper(Numbers.TrimSpace(raw)) }

  function IdKey(raw: string): string { Lower(Numbers.TrimSpace(raw)) }

  predicate ListedUnder(l: Listed, key: string) { key == Upper(l.code) || key == Lower(l.id) }

  ghost predicate LastUnder(listed: seq<Listed>, key: string, i: int) {
    0 <= i < |listed| && ListedUnder(listed[i], key) && forall k :: i < k < |listed| ==> !ListedUnder(listed[k], key)
  }

  /** The registry holds the last meter listed under a key. */
  lemma {:induction false} RefsOfLast(tenant: string, listed: seq<Listed>, key: string)
    ensures key in RefsOf(tenant, listed) <==> exists i :: LastUnder(listed, key, i)
    ensures forall i :: LastUnder(listed, key, i) ==>
              key in RefsOf(tenant, listed) && RefsOf(tenant, listed)[key] == Meter(tenant, listed[i].id)
  {
    hide Upper, Lower;
    if listed != [] {
      var n := |listed| - 1;
      var front := listed[..n];
      RefsOfLast(tenant, front, key);
      if ListedUnder(listed[n], key) {
        assert LastUnder(listed, key, n);
      } else {
        forall i
          ensures LastUnder(listed, key, i) <==> LastUnder(front, key, i)
        {
          assert forall k :: 0 <= k < n ==> front[k] == listed[k];
        }
      }
    }
  }

  lemma CaselessIff(raw: string)
    ensures Caseless(raw) <==> CodeKey(raw) == IdKey(raw)
  {
    var i, j := TrimSplits(raw);
    Trimmed(raw, i, j);
    var t := raw[i..j];
    forall k | 0 <= k < |t|
      ensures Letter(t[k]) <==> Upper(t)[k] != Lower(t)[k]
    {
    }
    if Caseless(raw) {
      assert Upper(t) == Lower(t);
    } else {
      forall m | 0 <= m < i
        ensures Numbers.IsSpace(raw[m])
      {
        assert raw[..i][m] == raw[m];
      }
      forall m | j <= m < |raw|
        ensures Numbers.IsSpace(raw[m])
      {
        assert raw[j..][m - j] == raw[m];
      }
      var k :| 0 <= k < |raw| && Letter(raw[k]);
      assert t[k - i] == raw[k];
    }
  }

  lemma UpperIsNotLower(a: string, b: string)
    requires Upper(a) == Lower(b)
    ensures Upper(a) == Lower(a)
  {
    assert |a| == |b|;
    forall k | 0 <= k < |a|
      ensures Upper(a)[k] == Lower(a)[k]
    {
      assert Upper(a)[k] == Lower(b)[k];
    }
  }

  lemma LowerIsNotUpper(a: string, b: string)
    requires Lower(a) == Upper(b)
    ensures Upper(a) == Lower(a)
  {
    assert |a| == |b|;
    forall k | 0 <= k < |a|
      ensures Upper(a)[k] == Lower(a)[k]
    {
      assert Lower(a)[k] == Upper(b)[k];
    }
  }

  /** The two keys of a reference, and what it spells. */
  lemma KeysSpell(raw: string, l: Listed)
    ensures ListedUnder(l, CodeKey(raw)) <==> SpelledFirst(raw, l)
    ensures ListedUnder(l, IdKey(raw)) <==> Spells(raw, l.id) || (Caseless(raw) && Spells(raw, l.code))
  {
    var t := Numbers.TrimSpace(raw);
    SpellsIff(raw, l.code);
    SpellsIff(raw, l.id);
    CaselessIff(raw);
    hide Upper, Lower, Spells, Caseless;
    if Upper(t) == Lower(l.id) {
      UpperIsNotLower(t, l.id);
    }
    if Lower(t) == Upper(l.code) {
      LowerIsNotUpper(t, l.code);
    }
  }

  /** The lookup finds the meter that the reference names. */
  lemma LookupFinds(tenant: string, listed: seq<Listed>, raw: string)
    ensures forall i :: RefersTo(listed, raw, i) ==>
              LookupMeter(RefsOf(tenant, listed), raw) == Some(Meter(tenant, listed[i].id))
    ensures (forall i :: !RefersTo(listed, raw, i)) ==> LookupMeter(RefsOf(tenant, listed), raw) == None
  {
    var refs := RefsOf(tenant, listed);
    assert LookupMeter(refs, raw) == if CodeKey(raw) in refs then Some(refs[CodeKey(raw)])
                                     else if IdKey(raw) in refs then Some(refs[IdKey(raw)]) else None;
    RefsOfLast(tenant, listed, CodeKey(raw));
    RefsOfLast(tenant, listed, IdKey(raw));
    hide CodeKey, IdKey, Spells, RefsOf, LookupMeter, Caseless, ListedUnder;
    forall k | 0 <= k < |listed|
      ensures ListedUnder(listed[k], CodeKey(raw)) <==> SpelledFirst(raw, listed[k])
      ensures ListedUnder(listed[k], IdKey(raw)) <==>
              Spells(raw, listed[k].id) || (Caseless(raw) && Spells(raw, listed[k].code))
    {
      KeysSpell(raw, listed[k]);
    }
    if k :| 0 <= k < |listed| && SpelledFirst(raw, listed[k]) {
      var last := LastOf(listed, CodeKey(raw), k);
      assert RefersTo(listed, raw, last);
      forall i
        ensures RefersTo(listed, raw, i) <==> LastUnder(listed, CodeKey(raw), i)
      {
      }
    } else {
      assert !exists i :: LastUnder(listed, CodeKey(raw), i);
      forall i
        ensures RefersTo(listed, raw, i) <==> LastUnder(listed, IdKey(raw), i)
      {
      }
    }
  }

  lemma LastOf(listed: seq<Listed>, key: string, k: nat) returns (last: nat)
    requires k < |listed| && ListedUnder(listed[k], key)
    ensures LastUnder(listed, key, last)
  {
    hide ListedUnder;
    last := k;
    for i := k + 1 to |listed|
      invariant k <= last < i && ListedUnder(listed[last], key)
      invariant forall m :: last < m < i ==> !ListedUnder(listed[m], key)
    {
      if ListedUnder(listed[i], key) {
        last := i;
      }
    }
  }

  /** A parsed line with the meter it is about. */
  datatype Row = Row(key: Key, measure: Measure)

  function Resolved(success: seq<Parsed>, refs: Refs): seq<Row> {
    if success == [] then []
    else
      var n := |success| - 1;
      var front := Resolved(success[..n], refs);
      match LookupMeter(refs, success[n].ref)
      case None => front
      case Some(m) => front + [Row(Key(m, success[n].at), success[n].measure)]
  }

  function Unresolved(success: seq<Parsed>, refs: Refs): seq<RowError> {
    if success == [] then []
    else
      var n := |success| - 1;
      var front := Unresolved(success[..n], refs);
      if LookupMeter(refs, success[n].ref) == None then front + [RowError(success[n].line, "meter", "unknown")]
      else front
  }

  lemma {:induction false} ResolvedOrNot(success: seq<Parsed>, refs: Refs)
    ensures |Resolved(success, refs)| + |Unresolved(success, refs)| == |success|
    ensures forall r :: r in Resolved(success, refs) ==> r.key.meter in refs.Values
  {
    hide LookupMeter;
    if success != [] {
      ResolvedOrNot(success[..|success| - 1], refs);
      var m := LookupMeter(refs, success[|success| - 1].ref);
      assert m.Some? ==> m.value in refs.Values by { FoundIsListed(refs, success[|success| - 1].ref); }
    }
  }

  lemma FoundIsListed(refs: Refs, raw: string)
    ensures LookupMeter(refs, raw).Some? ==> LookupMeter(refs, raw).value in refs.Values
  {
  }

  lemma RefersWithin(listed: seq<Listed>, raw: string)
    ensures forall i :: RefersTo(listed, raw, i) ==> 0 <= i < |listed|
  {
  }

  /**
   Line by line: a reading goes to the meter its reference names, in any mixture of cases and with blanks
   around it, codes before ids; it is an error exactly when the reference spells neither.
   */
  lemma ResolvedByName(success: seq<Parsed>, k: nat, tenant: string, listed: seq<Listed>)
    requires k < |success|
    ensures var refs, p := RefsOf(tenant, listed), success[k];
            && (forall i :: RefersTo(listed, p.ref, i) ==>
                  && Resolved(success[..k + 1], refs) ==
                       Resolved(success[..k], refs) + [Row(Key(Meter(tenant, listed[i].id), p.at), p.measure)]
                  && Unresolved(success[..k + 1], refs) == Unresolved(success[..k], refs))
            && ((forall i :: !RefersTo(listed, p.ref, i)) ==>
                  && Resolved(success[..k + 1], refs) == Resolved(success[..k], refs)
                  && Unresolved(success[..k + 1], refs) ==
                       Unresolved(success[..k], refs) + [RowError(p.line, "meter", "unknown")])
  {
    RefersWithin(listed, success[k].ref);
    LookupFinds(tenant, listed, success[k].ref);
    hide LookupMeter, RefsOf, RefersTo;
    assert success[..k + 1][..k] == success[..k];
  }

  /** A reference names a meter exactly when it spells the code or the id of one. */
  lemma NamesSomebody(listed: seq<Listed>, raw: string)
    ensures (exists i :: RefersTo(listed, raw, i)) <==>
            exists k :: 0 <= k < |listed| && (Spells(raw, listed[k].code) || Spells(raw, listed[k].id))
  {
    hide Spells, Caseless;
    if k :| 0 <= k < |listed| && (Spells(raw, listed[k].code) || Spells(raw, listed[k].id)) {
      var last := k;
      var first := exists k :: 0 <= k < |listed| && SpelledFirst(raw, listed[k]);
      if first {
        var j :| 0 <= j < |listed| && SpelledFirst(raw, listed[j]);
        last := j;
      }
      for i := last + 1 to |listed|
        invariant 0 <= last < i && if first then SpelledFirst(raw, listed[last]) else Spells(raw, listed[last].id)
        invariant forall m :: last < m < i ==> if first then !SpelledFirst(raw, listed[m]) else !Spells(raw, listed[m].id)
      {
        if if first then SpelledFirst(raw, listed[i]) else Spells(raw, listed[i].id) {
          last := i;
        }
      }
      assert RefersTo(listed, raw, last);
    }
  }

  lemma ResolvedStep(success: seq<Parsed>, p: Parsed, refs: Refs)
    ensures Resolved(success + [p], refs) == Resolved(success, refs) +
            match LookupMeter(refs, p.ref) case None => [] case Some(m) => [Row(Key(m, p.at), p.measure)]
  {
    hide LookupMeter;
    assert (success + [p])[..|success + [p]| - 1] == success;
  }

  /** The rows up to an instant. */
  function Early(rows: seq<Row>, limit: int): seq<Row> {
    if rows == [] then []
    else
      var last := rows[|rows| - 1];
      Early(rows[..|rows| - 1], limit) + if last.key.at <= limit then [last] else []
  }

  lemma EarlyStep(rows: seq<Row>, r: Row, limit: int)
    ensures Early(rows + [r], limit) == Early(rows, limit) + if r.key.at <= limit then [r] else []
  {
    assert (rows + [r])[..|rows + [r]| - 1] == rows;
  }

  /** Read again later, a file keeps its rows and may gain some that were too far ahead before. */
  lemma {:induction false} ReadingLater(lines: seq<Line>, kind: Kind, firstLine: nat, refs: Refs, now: int, later: int)
    requires now <= later
    ensures Resolved(ParsedLines(lines, kind, firstLine, now).success, refs) ==
            Early(Resolved(ParsedLines(lines, kind, firstLine, later).success, refs), now + FUTURE)
  {
    hide LookupMeter, ParseRow, Early, Resolved;
    if lines == [] {
      NoRows(refs, now + FUTURE);
    } else {
      var n := |lines| - 1;
      ReadingLater(lines[..n], kind, firstLine, refs, now, later);
      ParseRowLater(lines[n], kind, firstLine + n, now, later);
      var after := ParseRow(lines[n], kind, firstLine + n, later);
      var front := ParsedLines(lines[..n], kind, firstLine, now).success;
      var front' := ParsedLines(lines[..n], kind, firstLine, later).success;
      if !lines[n].blank && after.Ok? {
        ResolvedStep(front, after.value, refs);
        ResolvedStep(front', after.value, refs);
        var m := LookupMeter(refs, after.value.ref);
        if m.Some? {
          EarlyStep(Resolved(front', refs), Row(Key(m.value, after.value.at), after.value.measure), now + FUTURE);
        } else {
          assert Resolved(front', refs) + [] == Resolved(front', refs);
          assert Resolved(front, refs) + [] == Resolved(front, refs);
        }
      }
    }
  }

  lemma NoRows(refs: Refs, limit: int)
    ensures Resolved([], refs) == [] && Early([], limit) == []
  {
  }

  lemma ParseRowLater(l: Line, kind: Kind, line: nat, now: int, later: int)
    requires now <= later
    ensures var before, after := ParseRow(l, kind, line, now), ParseRow(l, kind, line, later);
            && (before.Ok? <==> after.Ok? && after.value.at <= now + FUTURE)
            && (before.Ok? ==> before == after)
  {
  }

  method Resolve(success: seq<Parsed>, refs: Refs) returns (rows: seq<Row>, errors: seq<RowError>)
    ensures rows == Resolved(success, refs) && errors == Unresolved(success, refs)
  {
    hide LookupMeter;
    rows, errors := [], [];
    for i := 0 to |success|
      invariant rows == Resolved(success[..i], refs) && errors == Unresolved(success[..i], refs)
    {
      assert success[..i + 1][..i] == success[..i];
      var m := LookupMeter(refs, success[i].ref);
      if m == None {
        errors := errors + [RowError(success[i].line, "meter", "unknown")];
      } else {
        rows := rows + [Row(Key(m.value, success[i].at), success[i].measure)];
      }
    }
    assert success[..|success|] == success;
  }

  /** The period the rows span: its ends are the least and greatest instant. */
  method Period(rows: seq<Row>) returns (start: int, end: int)
    ensures forall r :: r in rows ==> start <= r.key.at <= end
    ensures rows != [] ==> (exists r :: r in rows && r.key.at == start) && (exists r :: r in rows && r.key.at == end)
  {
    start, end := 0, 0;
    ghost var first, last := 0, 0;
    for i := 0 to |rows|
      invariant forall j :: 0 <= j < i ==> start <= rows[j].key.at <= end
      invariant i > 0 ==> 0 <= first < i && rows[first].key.at == start && 0 <= last < i && rows[last].key.at == end
    {
      var at := rows[i].key.at;
      if i == 0 || at < start {
        start, first := at, i;
      }
      if i == 0 || at > end {
        end, last := at, i;
      }
    }
    if rows != [] {
      assert rows[first] in rows && rows[last] in rows;
    }
  }

  // ------------------------------------------------------------------ duplicates

  function RowKeys(rows: seq<Row>): set<Key> { set r | r in rows :: r.key }

  function TableKeys(table: seq<Reading>): set<Key> { set r | r in table :: r.key }

  /** The rows whose key is neither `seen` nor met earlier among the rows. */
  function KeepFirst(rows: seq<Row>, seen: set<Key>): seq<Row> {
    if rows == [] then []
    else
      var n := |rows| - 1;
      KeepFirst(rows[..n], seen) + if rows[n].key in seen + RowKeys(rows[..n]) then [] else [rows[n]]
  }

  lemma RowKeysAppend(rows: seq<Row>, r: Row)
    ensures RowKeys(rows + [r]) == RowKeys(rows) + {r.key}
  {
    assert forall x :: x in rows + [r] <==> x in rows || x == r;
    assert r in rows + [r];
    forall k | k in RowKeys(rows)
      ensures k in RowKeys(rows + [r])
    {
      var x :| x in rows && x.key == k;
      assert x in rows + [r];
    }
  }

  /** The compaction of dedupe: kept rows move to the front of the same slice. */
  method Compact(rows: array<Row>, existing: set<Key>) returns (kept: nat, dups: nat)
    modifies rows
    ensures kept + dups == rows.Length
    ensures rows[..kept] == KeepFirst(old(rows[..]), existing)
  {
    hide RowKeys;
    var seen := existing;
    kept, dups := 0, 0;
    ghost var was := rows[..];
    RowKeysNone();
    for i := 0 to rows.Length
      invariant kept + dups == i
      invariant rows[i..] == was[i..]
      invariant rows[..kept] == KeepFirst(was[..i], existing)
      invariant seen == existing + RowKeys(was[..i])
    {
      var r := rows[i];
      assert r == was[i] by { assert rows[i..][0] == was[i..][0]; }
      assert was[..i + 1] == was[..i] + [r];
      assert was[..i + 1][..i] == was[..i];
      RowKeysAppend(was[..i], r);
      ghost var front := rows[..kept];
      if r.key in seen {
        dups := dups + 1;
      } else {
        seen := seen + {r.key};
        rows[kept] := r;
        kept := kept + 1;
        assert rows[..kept] == front + [r];
      }
      assert rows[i + 1..] == was[i + 1..] by { assert was[i..][1..] == was[i + 1..]; }
    }
    assert was[..rows.Length] == was;
  }

  lemma RowKeysNone()
    ensures RowKeys([]) == {}
  {
  }

  /** What is kept: new keys, each once, together with `seen` all of them. */
  lemma {:induction false} KeepFirstKeys(rows: seq<Row>, seen: set<Key>)
    ensures RowKeys(KeepFirst(rows, seen)) == RowKeys(rows) - seen
    ensures |KeepFirst(rows, seen)| <= |rows|
    ensures forall i, j :: 0 <= i < j < |KeepFirst(rows, seen)| ==>
              KeepFirst(rows, seen)[i].key != KeepFirst(rows, seen)[j].key
    ensures forall r :: r in KeepFirst(rows, seen) ==> r in rows
  {
    hide RowKeys;
    if rows == [] {
      RowKeysNone();
    } else {
      var n := |rows| - 1;
      var front, last := KeepFirst(rows[..n], seen), rows[n];
      KeepFirstKeys(rows[..n], seen);
      assert rows == rows[..n] + [last];
      RowKeysAppend(rows[..n], last);
      RowKeysAppend(front, last);
      if last.key in seen + RowKeys(rows[..n]) {
        assert KeepFirst(rows, seen) == front;
      } else {
        assert KeepFirst(rows, seen) == front + [last];
        forall i | 0 <= i < n && i < |front|
          ensures front[i].key != last.key
        {
          KeyIn(front, front[i]);
        }
      }
    }
  }

  lemma KeyIn(rows: seq<Row>, r: Row)
    requires r in rows
    ensures r.key in RowKeys(rows)
  {
  }

  /** Only which of the rows' own keys were seen matters. */
  lemma {:induction false} KeepFirstDependsOn(rows: seq<Row>, seen: set<Key>, other: set<Key>)
    requires forall r :: r in rows ==> (r.key in seen <==> r.key in other)
    ensures KeepFirst(rows, seen) == KeepFirst(rows, other)
  {
    if rows != [] {
      KeepFirstDependsOn(rows[..|rows| - 1], seen, other);
      assert rows[|rows| - 1] in rows;
    }
  }

  /** What the repository finds among the given meters of the tenant within a period. */
  function ExistingKeys(table: seq<Reading>, tenant: string, ids: set<string>, start: int, end: int): set<Key> {
    set r | r in table && r.key.meter.tenant == tenant && r.key.meter.id in ids && start <= r.key.at <= end :: r.key
  }

  /** The query of dedupe covers every candidate: asking for the whole table would drop the same rows. */
  lemma WindowCoversEveryCandidate(table: seq<Reading>, tenant: string, rows: seq<Row>, ids: set<string>,
                                   start: int, end: int)
    requires forall r :: r in rows ==>
      r.key.meter.tenant == tenant && r.key.meter.id in ids && start <= r.key.at <= end
    ensures KeepFirst(rows, ExistingKeys(table, tenant, ids, start, end)) == KeepFirst(rows, TableKeys(table))
  {
    KeepFirstDependsOn(rows, ExistingKeys(table, tenant, ids, start, end), TableKeys(table));
  }

  lemma {:induction false} EarlyHolds(rows: seq<Row>, limit: int, r: Row)
    ensures r in Early(rows, limit) <==> r in rows && r.key.at <= limit
  {
    if rows != [] {
      EarlyHolds(rows[..|rows| - 1], limit, r);
      assert rows == rows[..|rows| - 1] + [rows[|rows| - 1]];
    }
  }

  lemma {:induction false} EarlyAll(rows: seq<Row>, limit: int)
    requires forall r :: r in rows ==> r.key.at <= limit
    ensures Early(rows, limit) == rows
  {
    if rows != [] {
      EarlyAll(rows[..|rows| - 1], limit);
      assert rows[|rows| - 1] in rows;
      assert rows == rows[..|rows| - 1] + [rows[|rows| - 1]];
    }
  }

  lemma EarlyKeys(rows: seq<Row>, limit: int, k: Key)
    ensures k in RowKeys(Early(rows, limit)) <==> k in RowKeys(rows) && k.at <= limit
  {
    if k in RowKeys(Early(rows, limit)) {
      var r :| r in Early(rows, limit) && r.key == k;
      EarlyHolds(rows, limit, r);
    }
    if k in RowKeys(rows) && k.at <= limit {
      var r :| r in rows && r.key == k;
      EarlyHolds(rows, limit, r);
    }
  }

  /** Dropping duplicates and dropping late rows commute: a late row never shares its key with an early one. */
  lemma {:induction false} KeepFirstEarly(rows: seq<Row>, seen: set<Key>, limit: int)
    ensures KeepFirst(Early(rows, limit), seen) == Early(KeepFirst(rows, seen), limit)
  {
    hide RowKeys, Early, KeepFirst;
    if rows == [] {
      NothingKept(seen, limit);
    } else {
      var n := |rows| - 1;
      var front, last := rows[..n], rows[n];
      var kept, early := KeepFirst(front, seen), Early(front, limit);
      assert rows == front + [last];
      KeepFirstEarly(front, seen, limit);
      KeepFirstStep(front, last, seen);
      EarlyStep(front, last, limit);
      if last.key.at > limit {
        assert Early(rows, limit) == early + [] == early;
        if last.key !in seen + RowKeys(front) {
          EarlyStep(kept, last, limit);
          assert Early(kept, limit) + [] == Early(kept, limit);
        } else {
          assert kept + [] == kept;
        }
      } else {
        EarlyKeys(front, limit, last.key);
        KeepFirstStep(early, last, seen);
        if last.key !in seen + RowKeys(front) {
          EarlyStep(kept, last, limit);
        } else {
          assert kept + [] == kept;
          assert KeepFirst(early, seen) + [] == KeepFirst(early, seen);
        }
      }
    }
  }

  lemma NothingKept(seen: set<Key>, limit: int)
    ensures KeepFirst([], seen) == [] && Early([], limit) == []
  {
  }

  lemma KeepFirstStep(rows: seq<Row>, r: Row, seen: set<Key>)
    ensures KeepFirst(rows + [r], seen) ==
            KeepFirst(rows, seen) + if r.key in seen + RowKeys(rows) then [] else [r]
  {
    assert (rows + [r])[..|rows + [r]| - 1] == rows;
  }
}
