/**
 Matching the columns of a file to the fields of a schema (internal/ingestion/schema.go).

 The user's choices come in a Go map, whose iteration order is unspecified: here `order` is that order.
 */
module Schema {
  import opened Prelude
  import opened Headers
  import Numbers
  import Texts

  datatype Field = Field(name: string, required: bool, aliases: seq<string>)

  type Columns = map<string, nat>

  /** Field to column, and the columns taken so far. */
  datatype Assigned = Assigned(columns: Columns, used: set<nat>)

  const NOTHING := Assigned(map[], {})

  datatype Report = Report(columns: map<string, string>, missing: seq<string>, unmapped: seq<string>)

  function NormalAll(headers: seq<string>): (n: seq<string>)
    ensures |n| == |headers| && forall i :: 0 <= i < |headers| ==> n[i] == Normal(headers[i])
  {
    seq(|headers|, i requires 0 <= i < |headers| => Normal(headers[i]))
  }

  predicate HasField(fields: seq<Field>, name: string) {
    exists i :: 0 <= i < |fields| && fields[i].name == name
  }

  /** The first free column from `i` on that is called `want`. */
  function FreeFrom(norm: seq<string>, used: set<nat>, want: string, i: nat): (r: Option<nat>)
    requires i <= |norm|
    ensures r.Some? ==> i <= r.value < |norm| && norm[r.value] == want && r.value !in used
    ensures r.Some? ==> forall j :: i <= j < r.value ==> norm[j] != want || j in used
    ensures r.None? ==> forall j :: i <= j < |norm| ==> norm[j] != want || j in used
    decreases |norm| - i
  {
    if i == |norm| then None
    else if norm[i] == want && i !in used then Some(i)
    else FreeFrom(norm, used, want, i + 1)
  }

  function Take(st: Assigned, name: string, column: nat): Assigned {
    Assigned(st.columns[name := column], st.used + {column})
  }

  function Chosen(norm: seq<string>, fields: seq<Field>, st: Assigned, name: string, header: string): Assigned {
    if header == "" || !HasField(fields, name) then st
    else match FreeFrom(norm, st.used, Normal(header), 0)
         case Some(i) => Take(st, name, i)
         case None => st
  }

  /** The user's choices, one after the other. */
  function AllChosen(norm: seq<string>, fields: seq<Field>, explicit: map<string, string>,
                     order: seq<string>): Assigned {
    if order == [] then NOTHING
    else
      var st, name := AllChosen(norm, fields, explicit, order[..|order| - 1]), order[|order| - 1];
      if name in explicit then Chosen(norm, fields, st, name, explicit[name]) else st
  }

  function FirstAlias(norm: seq<string>, used: set<nat>, candidates: seq<string>): (r: Option<nat>)
    ensures r.Some? ==> r.value < |norm| && r.value !in used && norm[r.value] in candidates
    ensures r.None? ==> forall j :: 0 <= j < |norm| ==> norm[j] !in candidates || j in used
  {
    if candidates == [] then None
    else match FreeFrom(norm, used, candidates[0], 0)
         case Some(i) => Some(i)
         case None => FirstAlias(norm, used, candidates[1..])
  }

  /** The column found is called by the earliest candidate that has a free column, and is its first. */
  lemma {:induction false} EarliestAliasWins(norm: seq<string>, used: set<nat>, candidates: seq<string>)
    ensures FirstAlias(norm, used, candidates).Some? ==>
            exists k :: 0 <= k < |candidates| &&
              FirstAlias(norm, used, candidates) == FreeFrom(norm, used, candidates[k], 0) &&
              forall j :: 0 <= j < k ==> FreeFrom(norm, used, candidates[j], 0) == None
  {
    if candidates != [] && FreeFrom(norm, used, candidates[0], 0) == None {
      EarliestAliasWins(norm, used, candidates[1..]);
      if FirstAlias(norm, used, candidates).Some? {
        var k :| 0 <= k < |candidates[1..]| &&
          FirstAlias(norm, used, candidates[1..]) == FreeFrom(norm, used, candidates[1..][k], 0) &&
          forall j :: 0 <= j < k ==> FreeFrom(norm, used, candidates[1..][j], 0) == None;
        forall j | 0 <= j < k + 1
          ensures FreeFrom(norm, used, candidates[j], 0) == None
        {
          assert j > 0 ==> candidates[j] == candidates[1..][j - 1];
        }
        assert candidates[k + 1] == candidates[1..][k];
      }
    }
  }

  function Named(norm: seq<string>, st: Assigned, f: Field): Assigned {
    if f.name in st.columns then st
    else match FirstAlias(norm, st.used, [f.name] + f.aliases)
         case Some(i) => Take(st, f.name, i)
         case None => st
  }

  /** The remaining fields, by name and aliases, in the order of the schema. */
  function AllNamed(norm: seq<string>, fields: seq<Field>, st: Assigned): Assigned {
    if fields == [] then st
    else Named(norm, AllNamed(norm, fields[..|fields| - 1], st), fields[|fields| - 1])
  }

  function Resolution(headers: seq<string>, fields: seq<Field>, explicit: map<string, string>,
                      order: seq<string>): Assigned {
    AllNamed(NormalAll(headers), fields, AllChosen(NormalAll(headers), fields, explicit, order))
  }

  function Missing(fields: seq<Field>, columns: Columns): seq<string> {
    if fields == [] then []
    else
      var f := fields[|fields| - 1];
      Missing(fields[..|fields| - 1], columns) + if f.name !in columns && f.required then [f.name] else []
  }

  function Unmapped(headers: seq<string>, used: set<nat>): seq<string> {
    if headers == [] then []
    else
      var n := |headers| - 1;
      Unmapped(headers[..n], used) + if n !in used && Numbers.TrimSpace(headers[n]) != "" then [headers[n]] else []
  }

  /** Every column of the result exists and no two fields share one. */
  ghost predicate Sound(st: Assigned, width: nat) {
    && st.columns.Values == st.used
    && (forall c :: c in st.used ==> c < width)
    && (forall f, g :: f in st.columns && g in st.columns && f != g ==> st.columns[f] != st.columns[g])
  }

  lemma TakeKeepsSound(st: Assigned, width: nat, name: string, column: nat)
    requires Sound(st, width) && name !in st.columns && column < width && column !in st.used
    ensures Sound(Take(st, name, column), width)
  {
    var t := Take(st, name, column);
    assert t.columns[name] == column;
    forall c | c in st.used
      ensures c in t.columns.Values
    {
      var f :| f in st.columns && st.columns[f] == c;
      assert t.columns[f] == c;
    }
    assert forall f :: f in t.columns ==> f == name || (f in st.columns && t.columns[f] == st.columns[f]);
    assert forall c :: c in t.columns.Values ==> c in t.used;
  }

  ghost predicate NoRepeats(order: seq<string>) {
    forall i, j :: 0 <= i < j < |order| ==> order[i] != order[j]
  }

  lemma {:induction false} ChosenSound(norm: seq<string>, fields: seq<Field>, explicit: map<string, string>,
                                       order: seq<string>)
    requires NoRepeats(order)
    ensures Sound(AllChosen(norm, fields, explicit, order), |norm|)
    ensures forall f :: f in AllChosen(norm, fields, explicit, order).columns ==> f in order
  {
    if order != [] {
      var front, name := order[..|order| - 1], order[|order| - 1];
      ChosenSound(norm, fields, explicit, front);
      var st := AllChosen(norm, fields, explicit, front);
      assert name !in front;
      if name in explicit {
        var r := FreeFrom(norm, st.used, Normal(explicit[name]), 0);
        if r.Some? {
          TakeKeepsSound(st, |norm|, name, r.value);
        }
      }
    }
  }

  lemma {:induction false} NamedSound(norm: seq<string>, fields: seq<Field>, st: Assigned)
    requires Sound(st, |norm|)
    ensures Sound(AllNamed(norm, fields, st), |norm|)
    ensures forall f :: f in st.columns ==>
              f in AllNamed(norm, fields, st).columns && AllNamed(norm, fields, st).columns[f] == st.columns[f]
  {
    if fields != [] {
      var n := |fields| - 1;
      NamedSound(norm, fields[..n], st);
      var t := AllNamed(norm, fields[..n], st);
      if fields[n].name !in t.columns {
        var r := FirstAlias(norm, t.used, [fields[n].name] + fields[n].aliases);
        if r.Some? {
          TakeKeepsSound(t, |norm|, fields[n].name, r.value);
        }
      }
    }
  }

  /** No column is ever given to two fields. */
  lemma OneFieldPerColumn(headers: seq<string>, fields: seq<Field>, explicit: map<string, string>, order: seq<string>)
    requires NoRepeats(order)
    ensures Sound(Resolution(headers, fields, explicit, order), |headers|)
  {
    ChosenSound(NormalAll(headers), fields, explicit, order);
    NamedSound(NormalAll(headers), fields, AllChosen(NormalAll(headers), fields, explicit, order));
  }

  // ------------------------------------------------------------------ what the mapping means

  /** The names a field goes by, its own first. */
  function NameOf(f: Field, i: nat): string
    requires i <= |f.aliases|
  {
    if i == 0 then f.name else f.aliases[i - 1]
  }

  predicate CalledBy(f: Field, header: string) { header == f.name || header in f.aliases }

  /** The column is held by a field the user chose it for, or by one of the first `k` fields. */
  ghost predicate HeldBefore(st: Assigned, chosen: Columns, fields: seq<Field>, k: nat, column: nat)
    requires k <= |fields|
  {
    exists g :: g in st.columns && st.columns[g] == column && (g in chosen || HasField(fields[..k], g))
  }

  /**
   Field `k` of the schema sits in `column` by its `i`-th name: the columns of its earlier names and the earlier
   columns of that name were all taken when its turn came.
   */
  ghost predicate FoundBy(norm: seq<string>, fields: seq<Field>, st: Assigned, chosen: Columns,
                          k: nat, i: nat, column: nat)
    requires k < |fields|
  {
    && i <= |fields[k].aliases| && column < |norm| && norm[column] == NameOf(fields[k], i)
    && (forall c, j :: 0 <= c < |norm| && 0 <= j <= i && norm[c] == NameOf(fields[k], j) && (j < i || c < column) ==>
          HeldBefore(st, chosen, fields, k, c))
  }

  /** The first column of the field's `i`-th name; all columns of earlier names, and earlier ones of this, are used. */
  ghost predicate FirstFree(norm: seq<string>, used: set<nat>, f: Field, i: nat, column: nat) {
    && i <= |f.aliases| && column < |norm| && norm[column] == NameOf(f, i)
    && (forall c, j :: 0 <= c < |norm| && 0 <= j <= i && norm[c] == NameOf(f, j) && (j < i || c < column) ==> c in used)
  }

  ghost predicate Lists(f: Field, names: seq<string>) {
    && |names| == |f.aliases| + 1
    && (forall i :: 0 <= i < |names| ==> names[i] == NameOf(f, i))
    && (forall h :: CalledBy(f, h) ==> h in names)
  }

  lemma NamesListed(f: Field)
    ensures Lists(f, [f.name] + f.aliases)
  {
  }

  /** A name whose first free column is known: the columns before it are used, or all of that name. */
  lemma FreeFromMeans(norm: seq<string>, used: set<nat>, want: string, c: nat)
    requires c < |norm| && norm[c] == want
    ensures FreeFrom(norm, used, want, 0) == None ==> c in used
    ensures FreeFrom(norm, used, want, 0).Some? && c < FreeFrom(norm, used, want, 0).value ==> c in used
  {
  }

  lemma FirstAliasMeans(norm: seq<string>, used: set<nat>, f: Field, names: seq<string>)
    requires Lists(f, names)
    ensures FirstAlias(norm, used, names).Some? ==>
              exists i :: 0 <= i && FirstFree(norm, used, f, i, FirstAlias(norm, used, names).value)
    ensures FirstAlias(norm, used, names).None? ==>
              forall c :: 0 <= c < |norm| && CalledBy(f, norm[c]) ==> c in used
  {
    EarliestAliasWins(norm, used, names);
    hide NameOf, CalledBy;
    if FirstAlias(norm, used, names).Some? {
      var column := FirstAlias(norm, used, names).value;
      var i :| 0 <= i < |names| && FirstAlias(norm, used, names) == FreeFrom(norm, used, names[i], 0) &&
        forall j :: 0 <= j < i ==> FreeFrom(norm, used, names[j], 0) == None;
      hide FirstAlias, FreeFrom;
      forall c, j | 0 <= c < |norm| && 0 <= j <= i && norm[c] == NameOf(f, j) && (j < i || c < column)
        ensures c in used
      {
        FreeFromMeans(norm, used, names[j], c);
      }
      assert FirstFree(norm, used, f, i, column);
    }
  }

  /** A turn settles a field by its earliest name that has a free column, or finds all of its names taken. */
  lemma NamedMeans(norm: seq<string>, st: Assigned, f: Field)
    requires f.name !in st.columns
    ensures f.name in Named(norm, st, f).columns ==>
              exists i, column :: 0 <= i && 0 <= column && Named(norm, st, f) == Take(st, f.name, column) &&
                FirstFree(norm, st.used, f, i, column)
    ensures f.name !in Named(norm, st, f).columns ==>
              forall c :: 0 <= c < |norm| && CalledBy(f, norm[c]) ==> c in st.used
  {
    NamesListed(f);
    FirstAliasMeans(norm, st.used, f, [f.name] + f.aliases);
    hide FirstAlias, FirstFree;
  }

  /** The state once the first `k` fields have had their turn. */
  function NamedUpTo(norm: seq<string>, fields: seq<Field>, st: Assigned, k: nat): Assigned
    requires k <= |fields|
  {
    AllNamed(norm, fields[..k], st)
  }

  lemma NextTurn(norm: seq<string>, fields: seq<Field>, st: Assigned, k: nat)
    requires k < |fields|
    ensures NamedUpTo(norm, fields, st, k + 1) == Named(norm, NamedUpTo(norm, fields, st, k), fields[k])
  {
    assert fields[..k + 1][..k] == fields[..k];
  }

  /** Every column taken belongs to a choice of the user or to a field that had its turn. */
  ghost predicate Earned(st: Assigned, chosen: Columns, fields: seq<Field>, k: nat)
    requires k <= |fields|
  {
    && (forall g :: g in st.columns ==> g in chosen || HasField(fields[..k], g))
    && (forall g :: g in chosen ==> g in st.columns && st.columns[g] == chosen[g])
  }

  lemma OneFieldMore(fields: seq<Field>, k: nat, g: string)
    requires k < |fields|
    ensures HasField(fields[..k + 1], g) <==> HasField(fields[..k], g) || g == fields[k].name
  {
    assert fields[..k + 1][k] == fields[k];
    assert forall i :: 0 <= i < k ==> fields[..k + 1][i] == fields[..k][i];
    if HasField(fields[..k], g) {
      var i :| 0 <= i < k && fields[..k][i].name == g;
      assert fields[..k + 1][i].name == g;
    }
  }

  lemma UpToIsSound(norm: seq<string>, fields: seq<Field>, st: Assigned, k: nat)
    requires Sound(st, |norm|) && k <= |fields|
    ensures Sound(NamedUpTo(norm, fields, st, k), |norm|)
  {
    NamedSound(norm, fields[..k], st);
  }

  lemma {:induction false} ColumnsAreEarned(norm: seq<string>, fields: seq<Field>, st: Assigned, k: nat)
    requires k <= |fields|
    ensures Earned(NamedUpTo(norm, fields, st, k), st.columns, fields, k)
  {
    if k > 0 {
      ColumnsAreEarned(norm, fields, st, k - 1);
      NextTurn(norm, fields, st, k - 1);
      var before := NamedUpTo(norm, fields, st, k - 1);
      TurnExtends(norm, before, fields[k - 1]);
      hide NamedUpTo, FirstAlias, HasField;
      forall g | g in Named(norm, before, fields[k - 1]).columns
        ensures g in st.columns || HasField(fields[..k], g)
      {
        OneFieldMore(fields, k - 1, g);
      }
    } else {
      assert fields[..0] == [];
    }
  }

  /** What is used by then is held before field `k`. */
  lemma UsedIsHeld(norm: seq<string>, fields: seq<Field>, st: Assigned, k: nat, column: nat)
    requires Sound(st, |norm|) && k <= |fields| && column in NamedUpTo(norm, fields, st, k).used
    ensures HeldBefore(NamedUpTo(norm, fields, st, k), st.columns, fields, k, column)
  {
    ColumnsAreEarned(norm, fields, st, k);
    UpToIsSound(norm, fields, st, k);
    var now := NamedUpTo(norm, fields, st, k);
    assert column in now.columns.Values;
    var g :| g in now.columns && now.columns[g] == column;
  }

  /** Nobody loses a column. */
  ghost predicate Extends(a: Assigned, b: Assigned) {
    forall g :: g in a.columns ==> g in b.columns && b.columns[g] == a.columns[g]
  }

  lemma TurnExtends(norm: seq<string>, st: Assigned, f: Field)
    ensures Extends(st, Named(norm, st, f))
  {
    hide FirstAlias;
  }

  lemma FoundByExtends(norm: seq<string>, fields: seq<Field>, a: Assigned, b: Assigned, chosen: Columns,
                       k: nat, i: nat, column: nat)
    requires k < |fields| && FoundBy(norm, fields, a, chosen, k, i, column) && Extends(a, b)
    ensures FoundBy(norm, fields, b, chosen, k, i, column)
  {
    forall c | HeldBefore(a, chosen, fields, k, c)
      ensures HeldBefore(b, chosen, fields, k, c)
    {
      var g :| g in a.columns && a.columns[g] == c && (g in chosen || HasField(fields[..k], g));
      assert g in b.columns && b.columns[g] == c;
    }
  }

  /** A field that the user chose no column for sits where one of its names put it. */
  ghost predicate FoundByName(norm: seq<string>, fields: seq<Field>, st: Assigned, chosen: Columns, upTo: nat, name: string)
    requires upTo <= |fields| && name in st.columns
  {
    exists k, i :: 0 <= k < upTo && fields[k].name == name && 0 <= i &&
      FoundBy(norm, fields, st, chosen, k, i, st.columns[name])
  }

  lemma {:induction false} NamesFind(norm: seq<string>, fields: seq<Field>, st: Assigned, upTo: nat, name: string)
    requires Sound(st, |norm|) && upTo <= |fields| && name !in st.columns
    ensures var now := NamedUpTo(norm, fields, st, upTo);
            name in now.columns ==> FoundByName(norm, fields, now, st.columns, upTo, name)
  {
    if upTo == 0 {
      assert fields[..0] == [];
    } else {
      var n := upTo - 1;
      var before, now := NamedUpTo(norm, fields, st, n), NamedUpTo(norm, fields, st, upTo);
      NamesFind(norm, fields, st, n, name);
      NextTurn(norm, fields, st, n);
      TurnExtends(norm, before, fields[n]);
      hide NamedUpTo, Sound, FoundBy;
      if name in before.columns {
        var k, i :| 0 <= k < n && fields[k].name == name && 0 <= i &&
          FoundBy(norm, fields, before, st.columns, k, i, before.columns[name]);
        FoundByExtends(norm, fields, before, now, st.columns, k, i, before.columns[name]);
      } else if name in now.columns {
        TurnFinds(norm, fields, st, n);
      }
    }
  }

  /** The turn in which a field gets its column. */
  lemma TurnFinds(norm: seq<string>, fields: seq<Field>, st: Assigned, n: nat)
    requires Sound(st, |norm|) && n < |fields|
    requires fields[n].name !in NamedUpTo(norm, fields, st, n).columns
    requires fields[n].name in Named(norm, NamedUpTo(norm, fields, st, n), fields[n]).columns
    ensures var now := NamedUpTo(norm, fields, st, n + 1);
            && fields[n].name in now.columns
            && exists i :: 0 <= i && FoundBy(norm, fields, now, st.columns, n, i, now.columns[fields[n].name])
  {
    var before, f := NamedUpTo(norm, fields, st, n), fields[n];
    NextTurn(norm, fields, st, n);
    NamedMeans(norm, before, f);
    var now := NamedUpTo(norm, fields, st, n + 1);
    var i, column :| 0 <= i && 0 <= column && now == Take(before, f.name, column) &&
      FirstFree(norm, before.used, f, i, column);
    hide NamedUpTo;
    forall c, j | 0 <= c < |norm| && 0 <= j <= i && norm[c] == NameOf(f, j) && (j < i || c < column)
      ensures HeldBefore(now, st.columns, fields, n, c)
    {
      UsedIsHeld(norm, fields, st, n, c);
      var g :| g in before.columns && before.columns[g] == c && (g in st.columns || HasField(fields[..n], g));
      assert g in now.columns && now.columns[g] == c;
    }
    assert FoundBy(norm, fields, now, st.columns, n, i, now.columns[f.name]);
  }

  lemma {:induction false} UsedStays(norm: seq<string>, fields: seq<Field>, st: Assigned, k: nat, upTo: nat)
    requires k <= upTo <= |fields|
    ensures NamedUpTo(norm, fields, st, k).used <= NamedUpTo(norm, fields, st, upTo).used
    ensures NamedUpTo(norm, fields, st, k).columns.Keys <= NamedUpTo(norm, fields, st, upTo).columns.Keys
  {
    if k < upTo {
      UsedStays(norm, fields, st, k, upTo - 1);
      NextTurn(norm, fields, st, upTo - 1);
    }
  }

  /** A field without a column found every column that goes by one of its names taken. */
  lemma LeftOutFindsNothing(norm: seq<string>, fields: seq<Field>, st: Assigned, k: nat, column: nat)
    requires Sound(st, |norm|) && k < |fields| && column < |norm| && CalledBy(fields[k], norm[column])
    requires fields[k].name !in NamedUpTo(norm, fields, st, |fields|).columns
    ensures column in NamedUpTo(norm, fields, st, |fields|).used
  {
    UsedStays(norm, fields, st, k, |fields|);
    UsedStays(norm, fields, st, k + 1, |fields|);
    NextTurn(norm, fields, st, k);
    NamedMeans(norm, NamedUpTo(norm, fields, st, k), fields[k]);
  }

  ghost predicate Taken(st: Assigned, column: nat) {
    exists g :: g in st.columns && st.columns[g] == column
  }

  /** Every column that goes by one of the names of the field is held by some field. */
  ghost predicate NamesAreTaken(norm: seq<string>, fields: seq<Field>, st: Assigned, name: string) {
    forall k, c :: 0 <= k < |fields| && 0 <= c < |norm| ==>
      fields[k].name == name && CalledBy(fields[k], norm[c]) ==> Taken(st, c)
  }

  /**
   What the user's choices give: a column whose header is, normalised, the one chosen; or none, when the field is
   not of the schema, nothing was chosen, or every such column is held by another choice.
   */
  lemma {:induction false} ChoicesAreKept(norm: seq<string>, fields: seq<Field>, explicit: map<string, string>,
                                          order: seq<string>, name: string)
    requires NoRepeats(order)
    ensures var st := AllChosen(norm, fields, explicit, order);
            && (name in st.columns ==>
                  && name in order && name in explicit && explicit[name] != "" && HasField(fields, name)
                  && st.columns[name] < |norm| && norm[st.columns[name]] == Normal(explicit[name]))
            && (name in order && name in explicit && explicit[name] != "" && HasField(fields, name) ==>
                  name in st.columns ||
                  forall c: nat :: c < |norm| && norm[c] == Normal(explicit[name]) ==> c in st.used)
  {
    if order != [] {
      var front, last := order[..|order| - 1], order[|order| - 1];
      ChoicesAreKept(norm, fields, explicit, front, name);
      ChosenSound(norm, fields, explicit, front);
      assert order == front + [last];
      assert name in order <==> name in front || name == last;
      hide Normal, HasField;
    }
  }

  /**
   What the mapping gives a field that the user chose no column for. If it has one, the header is, normalised,
   one of the field's names, and every column of an earlier name, or before it of the same name, is held by a
   choice of the user or by a field that comes earlier in the schema. If it has none, every column that goes by
   one of its names is held by another field.
   */
  lemma FieldsAreFoundByName(headers: seq<string>, fields: seq<Field>, explicit: map<string, string>,
                             order: seq<string>, name: string)
    requires NoRepeats(order)
    ensures var norm, chosen := NormalAll(headers), AllChosen(NormalAll(headers), fields, explicit, order).columns;
            var st := Resolution(headers, fields, explicit, order);
            && (name in st.columns && name !in chosen ==> FoundByName(norm, fields, st, chosen, |fields|, name))
            && (name !in st.columns ==> NamesAreTaken(norm, fields, st, name))
  {
    var norm := NormalAll(headers);
    var chosen := AllChosen(norm, fields, explicit, order);
    var st := Resolution(headers, fields, explicit, order);
    ChosenSound(norm, fields, explicit, order);
    OneFieldPerColumn(headers, fields, explicit, order);
    assert fields[..|fields|] == fields;
    assert st == NamedUpTo(norm, fields, chosen, |fields|);
    if name !in chosen.columns {
      NamesFind(norm, fields, chosen, |fields|, name);
    }
    if name !in st.columns {
      forall k, c | 0 <= k < |fields| && fields[k].name == name && 0 <= c < |norm| && CalledBy(fields[k], norm[c])
        ensures Taken(st, c)
      {
        LeftOutFindsNothing(norm, fields, chosen, k, c);
        assert c in st.columns.Values;
      }
    }
  }

  // ------------------------------------------------------------------ the report

  lemma {:induction false} MissingHolds(fields: seq<Field>, columns: Columns, name: string)
    ensures name in Missing(fields, columns) <==>
            name !in columns && exists f :: f in fields && f.name == name && f.required
  {
    if fields != [] {
      var n := |fields| - 1;
      MissingHolds(fields[..n], columns, name);
      assert fields == fields[..n] + [fields[n]];
      assert fields[n] in fields;
    }
  }

  /** The fields reported missing are exactly the required ones without a column, in alphabetical order. */
  lemma MissingExactly(fields: seq<Field>, columns: Columns, name: string)
    ensures var missing := Texts.Sorted(Missing(fields, columns));
            && (name in missing <==>
                  name !in columns && exists f :: f in fields && f.name == name && f.required)
            && Texts.Ascending(missing)
            && |missing| == |Missing(fields, columns)|
  {
    var missing := Texts.Sorted(Missing(fields, columns));
    MissingHolds(fields, columns, name);
    Texts.SortedSorts(Missing(fields, columns));
    assert |multiset(missing)| == |multiset(Missing(fields, columns))|;
    assert name in multiset(missing) <==> name in multiset(Missing(fields, columns));
  }

  /** The free columns whose header is not blank. */
  function FreeColumns(headers: seq<string>, used: set<nat>): seq<nat> {
    if headers == [] then []
    else
      var n := |headers| - 1;
      FreeColumns(headers[..n], used) + if n !in used && Numbers.TrimSpace(headers[n]) != "" then [n] else []
  }

  /** The headers reported as unused are exactly those of the free columns, each once, in file order. */
  lemma {:induction false} UnmappedExactly(headers: seq<string>, used: set<nat>)
    ensures var free, out := FreeColumns(headers, used), Unmapped(headers, used);
            && |free| == |out|
            && (forall k :: 0 <= k < |free| ==> free[k] < |headers| && out[k] == headers[free[k]])
            && (forall j, k :: 0 <= j < k < |free| ==> free[j] < free[k])
            && (forall i :: 0 <= i < |headers| ==>
                  (i in free <==> i !in used && Numbers.TrimSpace(headers[i]) != ""))
  {
    if headers != [] {
      UnmappedExactly(headers[..|headers| - 1], used);
    }
  }

  // ------------------------------------------------------------------ the method

  method ClaimColumn(norm: seq<string>, used: set<nat>, want: string) returns (column: Option<nat>)
    ensures column == FreeFrom(norm, used, want, 0)
  {
    for i := 0 to |norm|
      invariant FreeFrom(norm, used, want, 0) == FreeFrom(norm, used, want, i)
    {
      if norm[i] == want && i !in used {
        return Some(i);
      }
    }
    column := None;
  }

  method ResolveExplicit(norm: seq<string>, fields: seq<Field>, explicit: map<string, string>, order: seq<string>)
    returns (m: Columns, used: set<nat>)
    requires forall name :: name in order ==> name in explicit
    ensures Assigned(m, used) == AllChosen(norm, fields, explicit, order)
  {
    m, used := map[], {};
    for k := 0 to |order|
      invariant Assigned(m, used) == AllChosen(norm, fields, explicit, order[..k])
    {
      assert order[..k + 1][..k] == order[..k];
      var field := order[k];
      assert field in explicit;
      if explicit[field] != "" && HasField(fields, field) {
        var want := NormalizeHeader(explicit[field]);
        var i := ClaimColumn(norm, used, want);
        if i.Some? {
          m := m[field := i.value];
          used := used + {i.value};
        }
      }
    }
    assert order[..|order|] == order;
  }

  method ResolveField(norm: seq<string>, f: Field, m: Columns, used: set<nat>) returns (m': Columns, used': set<nat>)
    ensures Assigned(m', used') == Named(norm, Assigned(m, used), f)
  {
    m', used' := m, used;
    if f.name in m {
      return;
    }
    var candidates := [f.name] + f.aliases;
    for k := 0 to |candidates|
      invariant m' == m && used' == used
      invariant FirstAlias(norm, used, candidates) == FirstAlias(norm, used, candidates[k..])
    {
      var i := ClaimColumn(norm, used, candidates[k]);
      assert candidates[k..][0] == candidates[k] && candidates[k..][1..] == candidates[k + 1..];
      if i.Some? {
        m' := m[f.name := i.value];
        used' := used + {i.value};
        return;
      }
    }
  }

  /** ResolveMapping; `order` lists the explicit choices in the order the map is iterated. */
  method ResolveMapping(headers: seq<string>, fields: seq<Field>, explicit: map<string, string>, order: seq<string>)
    returns (m: Columns, report: Report)
    requires NoRepeats(order) && forall name :: name in order <==> name in explicit
    ensures m == Resolution(headers, fields, explicit, order).columns
    ensures report.missing == Texts.Sorted(Missing(fields, m))
    ensures report.unmapped == Unmapped(headers, Resolution(headers, fields, explicit, order).used)
    ensures report.columns.Keys == m.Keys
    ensures forall f :: f in m ==> m[f] < |headers| && report.columns[f] == headers[m[f]]
  {
    var norm: seq<string> := [];
    for i := 0 to |headers|
      invariant |norm| == i && forall j :: 0 <= j < i ==> norm[j] == Normal(headers[j])
    {
      var n := NormalizeHeader(headers[i]);
      norm := norm + [n];
    }
    assert norm == NormalAll(headers);
    var used;
    m, used := ResolveExplicit(norm, fields, explicit, order);
    ghost var st := Assigned(m, used);
    for k := 0 to |fields|
      invariant Assigned(m, used) == AllNamed(norm, fields[..k], st)
    {
      assert fields[..k + 1][..k] == fields[..k];
      m, used := ResolveField(norm, fields[k], m, used);
    }
    assert fields[..|fields|] == fields;
    assert Assigned(m, used) == Resolution(headers, fields, explicit, order);
    OneFieldPerColumn(headers, fields, explicit, order);
    var missing := ReportMissing(fields, m);
    var unmapped := ReportUnmapped(headers, used);
    assert forall f :: f in m ==> m[f] in m.Values;
    report := Report(map f | f in m :: headers[m[f]], Texts.Sorted(missing), unmapped);
  }

  method ReportMissing(fields: seq<Field>, m: Columns) returns (missing: seq<string>)
    ensures missing == Missing(fields, m)
  {
    missing := [];
    for k := 0 to |fields|
      invariant missing == Missing(fields[..k], m)
    {
      assert fields[..k + 1][..k] == fields[..k];
      if fields[k].name !in m && fields[k].required {
        missing := missing + [fields[k].name];
      }
    }
    assert fields[..|fields|] == fields;
  }

  method ReportUnmapped(headers: seq<string>, used: set<nat>) returns (unmapped: seq<string>)
    ensures unmapped == Unmapped(headers, used)
  {
    unmapped := [];
    for i := 0 to |headers|
      invariant unmapped == Unmapped(headers[..i], used)
    {
      assert headers[..i + 1][..i] == headers[..i];
      if i !in used && Numbers.TrimSpace(headers[i]) != "" {
        unmapped := unmapped + [headers[i]];
      }
    }
    assert headers[..|headers|] == headers;
  }

  // ------------------------------------------------------------------ the order of the user's choices

  ghost predicate OrderOf(order: seq<string>, explicit: map<string, string>) {
    NoRepeats(order) && forall name :: name in order <==> name in explicit
  }

  /** A choice the loop acts on. */
  predicate Effective(fields: seq<Field>, explicit: map<string, string>, name: string) {
    name in explicit && explicit[name] != "" && HasField(fields, name)
  }

  /** Two choices that want the same header, and the file has it. */
  ghost predicate Clash(norm: seq<string>, fields: seq<Field>, explicit: map<string, string>, f: string, g: string) {
    && f != g && Effective(fields, explicit, f) && Effective(fields, explicit, g)
    && Normal(explicit[f]) == Normal(explicit[g]) && Normal(explicit[f]) in norm
  }

  /** Without a clash every choice gets the first column of its name, whatever came before. */
  ghost predicate Undisputed(norm: seq<string>, fields: seq<Field>, explicit: map<string, string>,
                             order: seq<string>, st: Assigned) {
    && (forall f :: f in st.columns <==>
          f in order && Effective(fields, explicit, f) && Normal(explicit[f]) in norm)
    && (forall f :: f in st.columns ==> Some(st.columns[f]) == FreeFrom(norm, {}, Normal(explicit[f]), 0))
  }

  lemma FreeIsFirst(norm: seq<string>, used: set<nat>, want: string)
    requires forall c :: c in used && c < |norm| ==> norm[c] != want
    ensures FreeFrom(norm, used, want, 0) == FreeFrom(norm, {}, want, 0)
    ensures FreeFrom(norm, {}, want, 0).Some? <==> want in norm
  {
  }

  lemma NobodyHolds(norm: seq<string>, fields: seq<Field>, explicit: map<string, string>, order: seq<string>,
                    st: Assigned, name: string)
    requires Undisputed(norm, fields, explicit, order, st) && Sound(st, |norm|)
    requires forall f, g :: !Clash(norm, fields, explicit, f, g)
    requires Effective(fields, explicit, name) && name !in order
    ensures forall c :: c in st.used && c < |norm| ==> norm[c] != Normal(explicit[name])
  {
    hide HasField;
    forall c | c in st.used && c < |norm|
      ensures norm[c] != Normal(explicit[name])
    {
      assert c in st.columns.Values;
      var f :| f in st.columns && st.columns[f] == c;
      assert f in order && Effective(fields, explicit, f);
      assert !Clash(norm, fields, explicit, f, name);
    }
  }

  lemma {:induction false} ChosenUndisputed(norm: seq<string>, fields: seq<Field>, explicit: map<string, string>,
                                        order: seq<string>)
    requires NoRepeats(order) && forall name :: name in order ==> name in explicit
    requires forall f, g :: !Clash(norm, fields, explicit, f, g)
    ensures Undisputed(norm, fields, explicit, order, AllChosen(norm, fields, explicit, order))
  {
    hide HasField, Clash, Normal;
    if order != [] {
      var front, name := order[..|order| - 1], order[|order| - 1];
      assert order == front + [name];
      assert name !in front;
      ChosenUndisputed(norm, fields, explicit, front);
      var st := AllChosen(norm, fields, explicit, front);
      ChosenSound(norm, fields, explicit, front);
      if Effective(fields, explicit, name) {
        NobodyHolds(norm, fields, explicit, front, st, name);
        FreeIsFirst(norm, st.used, Normal(explicit[name]));
      }
      hide Sound;
      UndisputedStep(norm, fields, explicit, front, st, name);
    }
  }

  lemma UndisputedStep(norm: seq<string>, fields: seq<Field>, explicit: map<string, string>, front: seq<string>,
                       st: Assigned, name: string)
    requires Undisputed(norm, fields, explicit, front, st) && name in explicit && name !in front
    requires Effective(fields, explicit, name) ==>
      && FreeFrom(norm, st.used, Normal(explicit[name]), 0) == FreeFrom(norm, {}, Normal(explicit[name]), 0)
      && (FreeFrom(norm, {}, Normal(explicit[name]), 0).Some? <==> Normal(explicit[name]) in norm)
    ensures Undisputed(norm, fields, explicit, front + [name], Chosen(norm, fields, st, name, explicit[name]))
  {
    hide HasField, Normal, FreeFrom;
    assert forall f :: f in front + [name] <==> f in front || f == name;
  }

  lemma OneUndisputed(norm: seq<string>, fields: seq<Field>, explicit: map<string, string>, order: seq<string>,
                      other: seq<string>, a: Assigned, b: Assigned)
    requires forall name :: name in order <==> name in other
    requires Undisputed(norm, fields, explicit, order, a) && Undisputed(norm, fields, explicit, other, b)
    ensures a.columns == b.columns
  {
    hide Effective, Normal, FreeFrom;
    assert a.columns.Keys == b.columns.Keys;
  }

  lemma SameChoices(norm: seq<string>, fields: seq<Field>, explicit: map<string, string>, order: seq<string>,
                    other: seq<string>)
    requires OrderOf(order, explicit) && OrderOf(other, explicit)
    requires forall f, g :: !Clash(norm, fields, explicit, f, g)
    ensures AllChosen(norm, fields, explicit, order) == AllChosen(norm, fields, explicit, other)
  {
    hide AllChosen, Effective, Clash, FreeFrom, Undisputed, NoRepeats;
    ChosenUndisputed(norm, fields, explicit, order);
    ChosenUndisputed(norm, fields, explicit, other);
    ChosenSound(norm, fields, explicit, order);
    ChosenSound(norm, fields, explicit, other);
    OneUndisputed(norm, fields, explicit, order, other,
                  AllChosen(norm, fields, explicit, order), AllChosen(norm, fields, explicit, other));
  }

  /** Whoever comes first gets the first column of the name. */
  lemma {:induction false} FirstWins(norm: seq<string>, fields: seq<Field>, explicit: map<string, string>,
                                     order: seq<string>)
    requires order != [] && NoRepeats(order)
    requires Effective(fields, explicit, order[0]) && Normal(explicit[order[0]]) in norm
    ensures var st := AllChosen(norm, fields, explicit, order);
            order[0] in st.columns && Some(st.columns[order[0]]) == FreeFrom(norm, {}, Normal(explicit[order[0]]), 0)
  {
    hide HasField, Normal;
    var front, name := order[..|order| - 1], order[|order| - 1];
    if front == [] {
      assert AllChosen(norm, fields, explicit, front) == NOTHING;
    } else {
      FirstWins(norm, fields, explicit, front);
      assert name != order[0];
    }
  }

  lemma {:induction false} Enumerated(s: set<string>) returns (order: seq<string>)
    ensures NoRepeats(order) && forall x :: x in order <==> x in s
  {
    if s == {} {
      order := [];
    } else {
      var x :| x in s;
      var rest := Enumerated(s - {x});
      order := [x] + rest;
    }
  }

  lemma StartingWith(explicit: map<string, string>, f: string) returns (order: seq<string>)
    requires f in explicit
    ensures OrderOf(order, explicit) && order != [] && order[0] == f
  {
    var rest := Enumerated(explicit.Keys - {f});
    order := [f] + rest;
  }

  /** The result does not depend on the order in which the choices are visited. */
  ghost predicate Settled(headers: seq<string>, fields: seq<Field>, explicit: map<string, string>) {
    forall order, other :: OrderOf(order, explicit) && OrderOf(other, explicit) ==>
      Resolution(headers, fields, explicit, order).columns == Resolution(headers, fields, explicit, other).columns
  }

  lemma FirstWinsInTheEnd(headers: seq<string>, fields: seq<Field>, explicit: map<string, string>, order: seq<string>)
    requires OrderOf(order, explicit) && order != []
    requires Effective(fields, explicit, order[0]) && Normal(explicit[order[0]]) in NormalAll(headers)
    ensures var columns := Resolution(headers, fields, explicit, order).columns;
            order[0] in columns &&
            Some(columns[order[0]]) == FreeFrom(NormalAll(headers), {}, Normal(explicit[order[0]]), 0)
  {
    hide HasField, Normal, FreeFrom, FirstAlias;
    FirstWins(NormalAll(headers), fields, explicit, order);
    ChosenSound(NormalAll(headers), fields, explicit, order);
    NamedSound(NormalAll(headers), fields, AllChosen(NormalAll(headers), fields, explicit, order));
  }

  lemma ClashUnsettles(headers: seq<string>, fields: seq<Field>, explicit: map<string, string>, f: string, g: string)
    requires Clash(NormalAll(headers), fields, explicit, f, g)
    ensures !Settled(headers, fields, explicit)
  {
    hide Resolution, HasField, Normal, FreeFrom;
    var order := StartingWith(explicit, f);
    var other := StartingWith(explicit, g);
    FirstWinsInTheEnd(headers, fields, explicit, order);
    FirstWinsInTheEnd(headers, fields, explicit, other);
    OneFieldPerColumn(headers, fields, explicit, order);
    OneFieldPerColumn(headers, fields, explicit, other);
    var a, b := Resolution(headers, fields, explicit, order), Resolution(headers, fields, explicit, other);
    assert a.columns[f] == b.columns[g];
    assert a.columns != b.columns;
  }

  /**
   The mapping is independent of the iteration order exactly when no header of the file is chosen, under
   whatever spelling, for two fields of the schema.
   */
  lemma OrderMattersOnlyInAClash(headers: seq<string>, fields: seq<Field>, explicit: map<string, string>)
    ensures Settled(headers, fields, explicit) <==>
            forall f, g :: !Clash(NormalAll(headers), fields, explicit, f, g)
  {
    hide Resolution, Clash, Settled;
    if f, g :| Clash(NormalAll(headers), fields, explicit, f, g) {
      ClashUnsettles(headers, fields, explicit, f, g);
    } else {
      NoClashSettles(headers, fields, explicit);
    }
  }

  lemma NoClashSettles(headers: seq<string>, fields: seq<Field>, explicit: map<string, string>)
    requires forall f, g :: !Clash(NormalAll(headers), fields, explicit, f, g)
    ensures Settled(headers, fields, explicit)
  {
    hide Clash, AllNamed, AllChosen;
    forall order, other | OrderOf(order, explicit) && OrderOf(other, explicit)
      ensures Resolution(headers, fields, explicit, order) == Resolution(headers, fields, explicit, other)
    {
      SameChoices(NormalAll(headers), fields, explicit, order, other);
    }
  }

  // ------------------------------------------------------------------ the template

  /** Names that normalising leaves alone, all different. */
  ghost predicate TemplateReady(fields: seq<Field>) {
    && (forall i :: 0 <= i < |fields| ==> Canonical(fields[i].name))
    && (forall i, j :: 0 <= i < j < |fields| ==> fields[i].name != fields[j].name)
  }

  function Names(fields: seq<Field>): (names: seq<string>)
    ensures |names| == |fields| && forall i :: 0 <= i < |fields| ==> names[i] == fields[i].name
  {
    seq(|fields|, i requires 0 <= i < |fields| => fields[i].name)
  }

  function Join(parts: seq<string>, sep: char): string {
    if parts == [] then "" else if |parts| == 1 then parts[0] else parts[0] + ([sep] + Join(parts[1..], sep))
  }

  /** The cells of a line that uses no quotes. */
  function Cells(line: string, sep: char): (cells: seq<string>)
    ensures cells != []
  {
    if line == "" then [""]
    else
      var rest := Cells(line[1..], sep);
      if line[0] == sep then [""] + rest else [[line[0]] + rest[0]] + rest[1..]
  }

  const BOM := '\U{FEFF}'

  const CRLF := "\r\n"

  function Body(rows: seq<seq<string>>): string {
    if rows == [] then "" else Body(rows[..|rows| - 1]) + (Join(rows[|rows| - 1], ';') + CRLF)
  }

  /** Byte order mark, header line, example rows. */
  function TemplateText(fields: seq<Field>, examples: seq<seq<string>>): string {
    [BOM] + (Join(Names(fields), ';') + (CRLF + Body(examples)))
  }

  method Template(fields: seq<Field>, examples: seq<seq<string>>) returns (b: string)
    ensures b == TemplateText(fields, examples)
  {
    var names: seq<string> := [];
    for i := 0 to |fields|
      invariant names == Names(fields)[..i]
    {
      names := names + [fields[i].name];
    }
    assert names == Names(fields);
    b := [BOM];
    b := b + Join(names, ';');
    b := b + CRLF;
    ghost var header := b;
    var rows := "";
    for k := 0 to |examples|
      invariant rows == Body(examples[..k]) && b == header + rows
    {
      assert examples[..k + 1][..k] == examples[..k];
      ghost var before := rows;
      rows := rows + (Join(examples[k], ';') + CRLF);
      b := b + Join(examples[k], ';');
      b := b + CRLF;
      assert b == header + before + Join(examples[k], ';') + CRLF == header + rows;
    }
    assert examples[..|examples|] == examples;
    assert b == [BOM] + Join(names, ';') + CRLF + Body(examples) == TemplateText(fields, examples);
  }

  /** What comes before the end of the first line. */
  function FirstLine(content: string): string {
    if content == "" || content[0] == '\n' || content[0] == '\r' then "" else [content[0]] + FirstLine(content[1..])
  }

  function HeaderLine(content: string): string {
    if content != "" && content[0] == BOM then FirstLine(content[1..]) else FirstLine(content)
  }

  lemma {:induction false} FirstLineEnds(line: string, rest: string)
    requires Free(line, '\n') && Free(line, '\r')
    ensures FirstLine(line + (CRLF + rest)) == line
  {
    if line == "" {
      assert line + (CRLF + rest) == CRLF + rest;
    } else {
      FirstLineEnds(line[1..], rest);
      assert (line + (CRLF + rest))[1..] == line[1..] + (CRLF + rest);
    }
  }

  predicate Free(s: string, sep: char) { sep !in s }

  lemma {:induction false} CellsOfOne(s: string, sep: char, rest: string)
    requires Free(s, sep)
    ensures Cells(s, sep) == [s]
    ensures Cells(s + ([sep] + rest), sep) == [s] + Cells(rest, sep)
  {
    if s == "" {
      assert s + ([sep] + rest) == [sep] + rest;
      assert ([sep] + rest)[1..] == rest;
    } else {
      CellsOfOne(s[1..], sep, rest);
      assert (s + ([sep] + rest))[1..] == s[1..] + ([sep] + rest);
      assert [s[0]] + s[1..] == s;
    }
  }

  /** Splitting a joined line gives its parts back. */
  lemma {:induction false} CellsOfJoin(parts: seq<string>, sep: char)
    requires parts != [] && forall i :: 0 <= i < |parts| ==> Free(parts[i], sep)
    ensures Cells(Join(parts, sep), sep) == parts
  {
    if |parts| == 1 {
      CellsOfOne(parts[0], sep, "");
    } else {
      CellsOfJoin(parts[1..], sep);
      CellsOfOne(parts[0], sep, Join(parts[1..], sep));
    }
  }

  lemma {:induction false} JoinHolds(parts: seq<string>, sep: char, c: char)
    requires c != sep && forall i :: 0 <= i < |parts| ==> Free(parts[i], c)
    ensures c !in Join(parts, sep)
  {
    if |parts| > 1 {
      JoinHolds(parts[1..], sep, c);
    }
  }

  /** The lines of a text without quotes, each split into its cells. */
  function TableOf(content: string): seq<seq<string>> {
    if content == "" then []
    else
      var line := FirstLine(content);
      [Cells(line, ';')] + if |content| > |line| + 2 then TableOf(content[|line| + 2..]) else []
  }

  lemma {:induction false} BodyFromTheFront(rows: seq<seq<string>>)
    requires rows != []
    ensures Body(rows) == Join(rows[0], ';') + (CRLF + Body(rows[1..]))
  {
    var n := |rows| - 1;
    if n > 0 {
      BodyFromTheFront(rows[..n]);
      assert rows[1..][..n - 1] == rows[..n][1..];
      assert Body(rows[1..]) == Body(rows[..n][1..]) + (Join(rows[n], ';') + CRLF);
      hide Body, Join;
    } else {
      assert Body([]) == "";
    }
  }

  predicate PlainCells(row: seq<string>) {
    row != [] && forall i :: 0 <= i < |row| ==> Free(row[i], ';') && Free(row[i], '\n') && Free(row[i], '\r')
  }

  /** The example rows of a template read back as themselves. */
  lemma {:induction false} ExamplesReadBack(rows: seq<seq<string>>)
    requires forall k :: 0 <= k < |rows| ==> PlainCells(rows[k])
    ensures TableOf(Body(rows)) == rows
  {
    if rows != [] {
      var line, rest := Join(rows[0], ';'), Body(rows[1..]);
      BodyFromTheFront(rows);
      JoinHolds(rows[0], ';', '\n');
      JoinHolds(rows[0], ';', '\r');
      FirstLineEnds(line, rest);
      CellsOfJoin(rows[0], ';');
      ExamplesReadBack(rows[1..]);
      var content := line + (CRLF + rest);
      assert content != "" && content[|line| + 2..] == rest;
      assert rest == "" ==> rows[1..] == [];
      assert rows == [rows[0]] + rows[1..];
    }
  }

  lemma CanonicalHasNone(s: string, c: char)
    requires Canonical(s) && !WordChar(c) && c != '_'
    ensures Free(s, c)
  {
  }

  /** Field `i` sits in column `i`. */
  ghost predicate Identity(fields: seq<Field>, st: Assigned) {
    && (forall i :: 0 <= i < |fields| ==> fields[i].name in st.columns && st.columns[fields[i].name] == i)
    && (forall c: nat :: c in st.used <==> c < |fields|)
    && (forall f :: f in st.columns ==> HasField(fields, f))
  }

  lemma IdentityGrows(fields: seq<Field>, k: nat, st: Assigned)
    requires k < |fields| && Identity(fields[..k], st)
    requires forall i :: 0 <= i < k ==> fields[i].name != fields[k].name
    ensures fields[k].name !in st.columns
    ensures Identity(fields[..k + 1], Take(st, fields[k].name, k))
  {
    var t := Take(st, fields[k].name, k);
    forall f | f in t.columns
      ensures HasField(fields[..k + 1], f)
    {
      if f == fields[k].name {
        assert fields[..k + 1][k].name == f;
      } else {
        var i :| 0 <= i < k && fields[..k][i].name == f;
        assert fields[..k + 1][i].name == f;
      }
    }
    assert forall i :: 0 <= i < k ==> fields[..k + 1][i] == fields[..k][i];
  }

  /** A field finds its own name in its own column. */
  lemma NameClaims(norm: seq<string>, st: Assigned, f: Field, k: nat)
    requires k < |norm| && norm[k] == f.name && k !in st.used && f.name !in st.columns
    requires forall i :: 0 <= i < |norm| && i != k ==> norm[i] != f.name
    ensures Named(norm, st, f) == Take(st, f.name, k)
  {
    assert FreeFrom(norm, st.used, f.name, 0) == Some(k);
    assert ([f.name] + f.aliases)[0] == f.name;
  }

  lemma NothingToName()
    ensures Identity([], NOTHING)
  {
  }

  lemma {:induction false} NamesResolveToThemselves(fields: seq<Field>, k: nat)
    requires TemplateReady(fields) && k <= |fields|
    ensures Identity(fields[..k], AllNamed(Names(fields), fields[..k], NOTHING))
  {
    hide Canonical;
    if k > 0 {
      NamesResolveToThemselves(fields, k - 1);
      assert fields[..k][..k - 1] == fields[..k - 1];
      var st, f, norm := AllNamed(Names(fields), fields[..k - 1], NOTHING), fields[k - 1], Names(fields);
      IdentityGrows(fields, k - 1, st);
      assert k - 1 !in st.used;
      hide Identity, Named;
      NameClaims(norm, st, f, k - 1);
      assert fields[..k][k - 1] == f && fields[..k] != [];
      assert AllNamed(norm, fields[..k], NOTHING) == Named(norm, AllNamed(norm, fields[..k - 1], NOTHING), f);
    } else {
      NothingToName();
      assert fields[..0] == [];
    }
  }

  lemma {:induction false} IdentityReportsNothing(fields: seq<Field>, k: nat, st: Assigned)
    requires k <= |fields| && Identity(fields, st)
    ensures Missing(fields[..k], st.columns) == [] && Unmapped(Names(fields)[..k], st.used) == []
  {
    if k > 0 {
      IdentityReportsNothing(fields, k - 1, st);
      assert fields[..k][..k - 1] == fields[..k - 1];
      assert Names(fields)[..k][..k - 1] == Names(fields)[..k - 1];
    }
  }

  lemma NamesHaveNone(fields: seq<Field>, c: char)
    requires TemplateReady(fields) && !WordChar(c) && c != '_'
    ensures forall i :: 0 <= i < |fields| ==> Free(Names(fields)[i], c)
  {
    hide Canonical;
    forall i | 0 <= i < |fields|
      ensures Free(Names(fields)[i], c)
    {
      CanonicalHasNone(fields[i].name, c);
    }
  }

  /** As text: the first line is found, its delimiter is the semicolon it was written with, its cells the field names. */
  lemma TemplateSplits(fields: seq<Field>, examples: seq<seq<string>>, best: char)
    requires TemplateReady(fields) && fields != []
    requires MostFrequent(HeaderLine(TemplateText(fields, examples)), best)
    ensures best == ';' && Cells(HeaderLine(TemplateText(fields, examples)), best) == Names(fields)
  {
    hide Join, Cells, MostFrequent, Canonical, FirstLine, Body, TemplateReady;
    var names := Names(fields);
    NamesHaveNone(fields, ';');
    NamesHaveNone(fields, ',');
    NamesHaveNone(fields, '\t');
    NamesHaveNone(fields, '|');
    NamesHaveNone(fields, '\n');
    NamesHaveNone(fields, '\r');
    JoinHolds(names, ';', ',');
    JoinHolds(names, ';', '\t');
    JoinHolds(names, ';', '|');
    JoinHolds(names, ';', '\n');
    JoinHolds(names, ';', '\r');
    FirstLineEnds(Join(names, ';'), Body(examples));
    assert TemplateText(fields, examples)[1..] == Join(names, ';') + (CRLF + Body(examples));
    OnlySemicolons(Join(names, ';'), best);
    CellsOfJoin(names, ';');
  }

  /**
   A schema's own template reads back as the schema, whatever the examples: its first line splits into the field
   names, and field `i` is column `i` with nothing missing and nothing left over.
   */
  lemma TemplateReadsBack(fields: seq<Field>, examples: seq<seq<string>>, best: char)
    requires TemplateReady(fields) && fields != []
    requires MostFrequent(HeaderLine(TemplateText(fields, examples)), best)
    ensures var headers := Cells(HeaderLine(TemplateText(fields, examples)), best);
            var st := Resolution(headers, fields, map[], []);
            && Identity(fields, st)
            && Missing(fields, st.columns) == [] && Unmapped(headers, st.used) == []
  {
    hide Join, Cells, MostFrequent, Canonical, Normal, Identity, Missing, Unmapped, TemplateText, HeaderLine;
    TemplateSplits(fields, examples, best);
    var names := Names(fields);
    forall i | 0 <= i < |names|
      ensures Normal(names[i]) == names[i]
    {
      NormalIsCanonical(names[i]);
    }
    assert NormalAll(names) == names;
    NamesResolveToThemselves(fields, |fields|);
    assert fields[..|fields|] == fields && names[..|names|] == names;
    IdentityReportsNothing(fields, |fields|, Resolution(names, fields, map[], []));
  }
}
