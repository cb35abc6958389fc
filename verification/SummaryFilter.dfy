/**
 Listing the network from the cached summaries (internal/repository/summary_cache.go, filterSummaries)
 against the SQL it replaces (internal/repository/transformer_repository.go, listSummariesSQL).

 The reference side works on the joined rows of one tenant with SQL's three-valued logic, LIKE patterns and
 NULLS LAST; the fast side works on the cached list. Letter case is folded one character at a time by
 `fold`, whatever it is, as long as it leaves the LIKE wildcards alone.
 */
module SummaryFilter {
  import opened Prelude
  import opened Texts

  /** A transformer joined with its substation and its latest balance, if it has them. */
  datatype Row = Row(
    code: string, substation: Option<string>, substationCode: Option<string>, substationName: Option<string>,
    active: bool, status: Option<string>, lossPct: Option<real>, powerKva: real,
    updatedAt: Option<int>, createdAt: int)

  datatype Summary = Summary(
    code: string, substation: Option<string>, substationCode: Option<string>, substationName: Option<string>,
    active: bool, status: string, lossPct: Option<real>, powerKva: real, updatedAt: int)

  datatype Filter = Filter(
    search: string, status: string, substation: string, active: Option<bool>,
    limit: int, offset: int, orderBy: string)

  datatype Order = ByCode | ByLoss | ByPower | ByUpdate

  const EVERYTHING := Filter("", "", "", None, 0, 0, "")

  /** The select list: a missing balance shows as NO_DATA, a missing update as the creation. */
  function Selected(r: Row): Summary {
    Summary(r.code, r.substation, r.substationCode, r.substationName, r.active,
            if r.status.Some? then r.status.value else "NO_DATA", r.lossPct, r.powerKva,
            if r.updatedAt.Some? then r.updatedAt.value else r.createdAt)
  }

  function SelectedAll(rows: seq<Row>): (s: seq<Summary>)
    ensures |s| == |rows| && forall i :: 0 <= i < |rows| ==> s[i] == Selected(rows[i])
  {
    if rows == [] then [] else [Selected(rows[0])] + SelectedAll(rows[1..])
  }

  function OrderOf(orderBy: string): Order {
    if orderBy == "loss_pct" then ByLoss
    else if orderBy == "power_kva" then ByPower
    else if orderBy == "updated_at" then ByUpdate
    else ByCode
  }

  function Fold(fold: char -> char, s: string): (t: string)
    ensures |t| == |s|
  {
    if s == "" then "" else [fold(s[0])] + Fold(fold, s[1..])
  }

  predicate Wild(c: char) { c == '%' || c == '_' || c == '\\' }

  predicate Literal(p: string) { forall i :: 0 <= i < |p| ==> !Wild(p[i]) }

  // ------------------------------------------------------------------ the reference: WHERE, ORDER BY, LIMIT

  datatype Truth = True | False | Unknown

  function Known(b: bool): Truth { if b then True else False }

  function And(a: Truth, b: Truth): Truth {
    if a == False || b == False then False else if a == True && b == True then True else Unknown
  }

  function Or(a: Truth, b: Truth): Truth {
    if a == True || b == True then True else if a == False && b == False then False else Unknown
  }

  function Equal(column: Option<string>, value: string): Truth {
    if column.None? then Unknown else Known(column.value == value)
  }

  /** LIKE: `%` stands for any run of characters, `_` for any one, `\` makes the next one literal. */
  predicate Like(s: string, p: string)
    decreases |p|, |s|
  {
    if p == "" then s == ""
    else if p[0] == '%' then Like(s, p[1..]) || (s != "" && Like(s[1..], p))
    else if p[0] == '_' then s != "" && Like(s[1..], p[1..])
    else if p[0] == '\\' then |p| > 1 && s != "" && s[0] == p[1] && Like(s[1..], p[2..])
    else s != "" && s[0] == p[0] && Like(s[1..], p[1..])
  }

  function Wrapped(p: string): string { ['%'] + (p + ['%']) }

  function ILike(fold: char -> char, column: Option<string>, search: string): Truth {
    if column.None? then Unknown else Known(Like(Fold(fold, column.value), Fold(fold, Wrapped(search))))
  }

  function Where(fold: char -> char, r: Row, f: Filter): Truth {
    var search := if f.search == "" then True
                  else Or(ILike(fold, Some(r.code), f.search),
                          Or(ILike(fold, r.substationName, f.search), ILike(fold, r.substationCode, f.search)));
    var substation := if f.substation == "" then True else Equal(r.substation, f.substation);
    var active := if f.active.None? then True else Known(r.active == f.active.value);
    var status := if f.status in {"NORMAL", "WARNING", "CRITICAL"} then Equal(r.status, f.status)
                  else if f.status == "NO_DATA" then Known(r.status.None?)
                  else True;
    And(search, And(substation, And(active, status)))
  }

  /** `a` comes before `b` in a descending column whose nulls go last; equal values fall to `tie`. */
  predicate Descending<T>(a: Option<T>, b: Option<T>, greater: (T, T) -> bool, equal: bool, tie: bool) {
    if a.None? || b.None? then (a.Some? && b.None?) || (a.None? && b.None? && tie)
    else greater(a.value, b.value) || (equal && tie)
  }

  predicate RowBefore(o: Order, a: Row, b: Row) {
    var tie := Less(a.code, b.code);
    match o
    case ByCode => tie
    case ByLoss => Descending(a.lossPct, b.lossPct, (x: real, y: real) => x > y, a.lossPct == b.lossPct, tie)
    case ByPower => a.powerKva > b.powerKva || (a.powerKva == b.powerKva && tie)
    case ByUpdate => Descending(a.updatedAt, b.updatedAt, (x: int, y: int) => x > y, a.updatedAt == b.updatedAt, tie)
  }

  predicate RowsOrdered(o: Order, rows: seq<Row>) {
    forall i, j :: 0 <= i < j < |rows| ==> RowBefore(o, rows[i], rows[j])
  }

  function Qualifying(fold: char -> char, table: set<Row>, f: Filter): set<Row> {
    set r | r in table && Where(fold, r, f) == True
  }

  /** `rows` is what the query returns before LIMIT: the qualifying rows, in order. */
  ghost predicate Answers(fold: char -> char, table: set<Row>, f: Filter, rows: seq<Row>) {
    && (forall r :: r in rows <==> r in Qualifying(fold, table, f))
    && RowsOrdered(OrderOf(f.orderBy), rows)
  }

  function Min(a: int, b: int): int { if a < b then a else b }

  function Max(a: int, b: int): int { if a < b then b else a }

  /** LIMIT and OFFSET; the database refuses a negative offset. */
  function Limited(rows: seq<Row>, f: Filter): Result<seq<Row>, string> {
    if f.limit <= 0 then Ok(rows)
    else if f.offset < 0 then Err("OFFSET must not be negative")
    else Ok(rows[Min(f.offset, |rows|)..Min(f.offset + f.limit, |rows|)])
  }

  // ------------------------------------------------------------------ the fast path

  predicate Contains(s: string, p: string) {
    exists i :: 0 <= i <= |s| - |p| && Occurs(s, p, i)
  }

  predicate Occurs(s: string, p: string, i: nat)
    requires i + |p| <= |s|
  {
    s[i..i + |p|] == p
  }

  /** Whether the loop of filterSummaries keeps `s`; `search` is already in lower case. */
  predicate Keeps(fold: char -> char, f: Filter, search: string, s: Summary) {
    if f.substation != "" && (s.substation.None? || s.substation.value != f.substation) then false
    else if f.active.Some? && s.active != f.active.value then false
    else if f.status != "" && f.status != s.status &&
        f.status in {"NORMAL", "WARNING", "CRITICAL", "NO_DATA"} then false
    else !(search != "" && !Contains(Fold(fold, s.code), search) &&
           (s.substationName.None? || !Contains(Fold(fold, s.substationName.value), search)) &&
           (s.substationCode.None? || !Contains(Fold(fold, s.substationCode.value), search)))
  }

  /** The comparison handed to the sort. */
  predicate Before(o: Order, a: Summary, b: Summary) {
    match o
    case ByCode => Less(a.code, b.code)
    case ByLoss =>
      if a.lossPct.None? != b.lossPct.None? then a.lossPct.Some?
      else if a.lossPct.Some? && a.lossPct.value != b.lossPct.value then a.lossPct.value > b.lossPct.value
      else Less(a.code, b.code)
    case ByPower => if a.powerKva != b.powerKva then a.powerKva > b.powerKva else Less(a.code, b.code)
    case ByUpdate => if a.updatedAt != b.updatedAt then a.updatedAt > b.updatedAt else Less(a.code, b.code)
  }

  predicate Ordered(o: Order, s: seq<Summary>) {
    forall i, j :: 0 <= i < j < |s| ==> Before(o, s[i], s[j])
  }

  /** Stable sorting by the comparison, one element at a time. */
  function Inserted(o: Order, s: seq<Summary>, x: Summary): seq<Summary> {
    if s == [] then [x]
    else if Before(o, x, s[0]) then [x] + s
    else [s[0]] + Inserted(o, s[1..], x)
  }

  function Sorted(o: Order, s: seq<Summary>): seq<Summary> {
    if s == [] then [] else Inserted(o, Sorted(o, s[..|s| - 1]), s[|s| - 1])
  }

  function Filtered(fold: char -> char, s: seq<Summary>, f: Filter): (out: seq<Summary>) {
    if s == [] then []
    else Filtered(fold, s[..|s| - 1], f) +
         if Keeps(fold, f, Fold(fold, f.search), s[|s| - 1]) then [s[|s| - 1]] else []
  }

  /** The matches in the order asked for; without an order the cached one stays. */
  function Found(fold: char -> char, s: seq<Summary>, f: Filter): seq<Summary> {
    var o := OrderOf(f.orderBy);
    if o == ByCode then Filtered(fold, s, f) else Sorted(o, Filtered(fold, s, f))
  }

  function Page(found: seq<Summary>, f: Filter): (page: seq<Summary>) {
    if f.limit > 0 then
      var start := Min(Max(f.offset, 0), |found|);
      found[start..Min(start + f.limit, |found|)]
    else found
  }

  // ------------------------------------------------------------------ the order by the request's own words

  /** In a descending column a larger value comes first, a missing one last, and equal ones go by code. */
  predicate LargerFirst<T(==)>(a: Option<T>, b: Option<T>, notLess: (T, T) -> bool, codeA: string, codeB: string) {
    && (b.Some? ==> a.Some? && notLess(a.value, b.value))
    && (a == b ==> Less(codeA, codeB))
  }

  /** `a` may stand before `b` in the answer to a request with this `orderBy`. */
  predicate AsRequested(orderBy: string, a: Summary, b: Summary) {
    && (orderBy == "loss_pct" ==>
          LargerFirst(a.lossPct, b.lossPct, (x: real, y: real) => x >= y, a.code, b.code))
    && (orderBy == "power_kva" ==>
          a.powerKva >= b.powerKva && (a.powerKva == b.powerKva ==> Less(a.code, b.code)))
    && (orderBy == "updated_at" ==>
          a.updatedAt >= b.updatedAt && (a.updatedAt == b.updatedAt ==> Less(a.code, b.code)))
    && (orderBy !in {"loss_pct", "power_kva", "updated_at"} ==> Less(a.code, b.code))
  }

  /** The same of the rows of the query: the columns of the table, nulls last. */
  predicate RowAsRequested(orderBy: string, a: Row, b: Row) {
    && (orderBy == "loss_pct" ==>
          LargerFirst(a.lossPct, b.lossPct, (x: real, y: real) => x >= y, a.code, b.code))
    && (orderBy == "power_kva" ==>
          a.powerKva >= b.powerKva && (a.powerKva == b.powerKva ==> Less(a.code, b.code)))
    && (orderBy == "updated_at" ==>
          LargerFirst(a.updatedAt, b.updatedAt, (x: int, y: int) => x >= y, a.code, b.code))
    && (orderBy !in {"loss_pct", "power_kva", "updated_at"} ==> Less(a.code, b.code))
  }

  predicate AllAsRequested(orderBy: string, s: seq<Summary>) {
    forall i, j :: 0 <= i < j < |s| ==> AsRequested(orderBy, s[i], s[j])
  }

  predicate ByCodes(s: seq<Summary>) {
    forall i, j :: 0 <= i < j < |s| ==> Less(s[i].code, s[j].code)
  }

  lemma BeforeAsRequested(orderBy: string, a: Summary, b: Summary)
    requires Before(OrderOf(orderBy), a, b)
    ensures AsRequested(orderBy, a, b)
  {
  }

  /** From a list that goes by code, the matches and every page of them come as the request asks. */
  lemma FoundAsRequested(fold: char -> char, all: seq<Summary>, f: Filter)
    requires ByCodes(all)
    ensures AllAsRequested(f.orderBy, Found(fold, all, f))
    ensures AllAsRequested(f.orderBy, Page(Found(fold, all, f), f))
  {
    assert Ordered(ByCode, all);
    FoundOrdered(fold, all, f);
    hide Found, Before, AsRequested, OrderOf;
    var found := Found(fold, all, f);
    forall i, j | 0 <= i < j < |found|
      ensures AsRequested(f.orderBy, found[i], found[j])
    {
      BeforeAsRequested(f.orderBy, found[i], found[j]);
    }
  }

  lemma RowBeforeAsRequested(orderBy: string, a: Row, b: Row)
    ensures RowBefore(OrderOf(orderBy), a, b) <==> RowAsRequested(orderBy, a, b)
  {
  }

  /** And the answers to the query are the qualifying rows in exactly that order. */
  lemma AnswersAsRequested(fold: char -> char, table: set<Row>, f: Filter, rows: seq<Row>)
    ensures Answers(fold, table, f, rows) <==>
            && (forall r :: r in rows <==> r in Qualifying(fold, table, f))
            && forall i, j :: 0 <= i < j < |rows| ==> RowAsRequested(f.orderBy, rows[i], rows[j])
  {
    forall a, b
      ensures RowBefore(OrderOf(f.orderBy), a, b) <==> RowAsRequested(f.orderBy, a, b)
    {
      RowBeforeAsRequested(f.orderBy, a, b);
    }
    hide RowBefore, RowAsRequested, OrderOf, Qualifying;
  }

  /** filterSummaries. The cached list is shared between requests: it is only read. */
  method FilterSummaries(fold: char -> char, all: array<Summary>, f: Filter) returns (page: seq<Summary>, total: nat)
    ensures total == |Found(fold, all[..], f)|
    ensures page == Page(Found(fold, all[..], f), f)
    ensures ByCodes(all[..]) ==> AllAsRequested(f.orderBy, page)
  {
    if ByCodes(all[..]) {
      FoundAsRequested(fold, all[..], f);
    }
    hide AllAsRequested, ByCodes;
    var search := Fold(fold, f.search);
    var out: seq<Summary> := [];
    for i := 0 to all.Length
      invariant out == Filtered(fold, all[..i], f)
    {
      assert all[..i + 1][..i] == all[..i];
      if Keeps(fold, f, search, all[i]) {
        out := out + [all[i]];
      }
    }
    assert all[..all.Length] == all[..];
    if OrderOf(f.orderBy) != ByCode {
      out := Sorted(OrderOf(f.orderBy), out);
    }
    total := |out|;
    page := out;
    if f.limit > 0 {
      var start := Min(Max(f.offset, 0), total);
      page := out[start..Min(start + f.limit, total)];
    }
  }

  // ------------------------------------------------------------------ searching: LIKE and substring

  lemma {:induction false} LikeLiteral(s: string, p: string)
    requires Literal(p)
    ensures Like(s, p + ['%']) <==> p <= s
  {
    if p == "" {
      LikeRest(s);
      assert p + ['%'] == "%";
    } else {
      assert p + ['%'] == [p[0]] + (p[1..] + ['%']);
      if s != "" {
        LikeLiteral(s[1..], p[1..]);
        assert s == [s[0]] + s[1..] && p == [p[0]] + p[1..];
      }
    }
  }

  lemma {:induction false} LikeRest(s: string)
    ensures Like(s, "%")
  {
    if s != "" {
      LikeRest(s[1..]);
    }
  }

  /** `%p` matches exactly when `p` matches some tail. */
  lemma {:induction false} LikeSkips(s: string, p: string)
    ensures Like(s, ['%'] + p) <==> exists i :: 0 <= i <= |s| && Like(s[i..], p)
  {
    assert (['%'] + p)[1..] == p;
    assert s[0..] == s;
    if s != "" {
      LikeSkips(s[1..], p);
      forall i | 0 <= i < |s|
        ensures s[1..][i..] == s[i + 1..]
      {
      }
      if Like(s[1..], ['%'] + p) {
        var i :| 0 <= i <= |s[1..]| && Like(s[1..][i..], p);
        assert s[1..][i..] == s[i + 1..];
      }
      if i :| 1 <= i <= |s| && Like(s[i..], p) {
        assert s[1..][i - 1..] == s[i..];
      }
    }
  }

  /** Without wildcards the pattern the query builds finds exactly the substrings. */
  lemma LikeIsContains(s: string, p: string)
    requires Literal(p)
    ensures Like(s, Wrapped(p)) <==> Contains(s, p)
  {
    LikeSkips(s, p + ['%']);
    forall i | 0 <= i <= |s|
      ensures Like(s[i..], p + ['%']) <==> i + |p| <= |s| && Occurs(s, p, i)
    {
      LikeLiteral(s[i..], p);
      if i + |p| <= |s| {
        assert s[i..][..|p|] == s[i..i + |p|];
      }
    }
  }

  /** A text that a pattern with wildcards matches although it is not the pattern itself. */
  function Sample(p: string): string {
    if p == "" then ""
    else if p[0] == '%' then Sample(p[1..])
    else if p[0] == '_' then ['a'] + Sample(p[1..])
    else if p[0] == '\\' then
      if |p| == 1 then ['%'] else [p[1]] + Sample(p[2..])
    else [p[0]] + Sample(p[1..])
  }

  lemma {:induction false} SampleMatches(p: string)
    ensures Like(Sample(p), p + ['%'])
    decreases |p|
  {
    if p == "" {
      LikeRest("");
      assert p + ['%'] == "%";
    } else if p == "\\" {
      assert (p + ['%'])[2..] == "";
    } else if p[0] == '\\' {
      SampleMatches(p[2..]);
      assert (p + ['%'])[2..] == p[2..] + ['%'];
      assert Sample(p)[1..] == Sample(p[2..]);
    } else {
      SampleMatches(p[1..]);
      assert (p + ['%'])[1..] == p[1..] + ['%'];
      assert p[0] != '%' ==> Sample(p)[1..] == Sample(p[1..]);
    }
  }

  lemma {:induction false} SampleDiffers(p: string)
    ensures |Sample(p)| <= |p|
    ensures !Literal(p) ==> Sample(p) != p
    decreases |p|
  {
    if p != "" && p != "\\" {
      var n := if p[0] == '\\' then 2 else 1;
      SampleDiffers(p[n..]);
      if !Literal(p) && !Wild(p[0]) {
        var i :| 0 <= i < |p| && Wild(p[i]);
        assert p[1..][i - 1] == p[i];
        assert Sample(p)[1..] == Sample(p[1..]);
      }
    }
  }

  lemma TooShortToContain(s: string, p: string)
    requires |s| <= |p| && s != p
    ensures !Contains(s, p)
  {
    forall i | 0 <= i <= |s| - |p|
      ensures !Occurs(s, p, i)
    {
      assert s[0..|s|] == s;
    }
  }

  /** The two kinds of search agree on every text exactly when the term has no LIKE wildcard. */
  lemma WildcardsTellThemApart(p: string)
    ensures (forall s :: Like(s, Wrapped(p)) <==> Contains(s, p)) <==> Literal(p)
  {
    if Literal(p) {
      forall s
        ensures Like(s, Wrapped(p)) <==> Contains(s, p)
      {
        LikeIsContains(s, p);
      }
    } else {
      var s := Sample(p);
      SampleMatches(p);
      SampleDiffers(p);
      LikeSkips(s, p + ['%']);
      assert s[0..] == s;
      assert Like(s, Wrapped(p));
      TooShortToContain(s, p);
    }
  }

  // ------------------------------------------------------------------ the same rows

  /** What the schema promises of the table: unique codes, and a balance has one of three statuses. */
  ghost predicate TableOk(table: set<Row>) {
    && (forall a, b :: a in table && b in table && a.code == b.code ==> a == b)
    && (forall r :: r in table ==> r.status.Some? ==> r.status.value in {"NORMAL", "WARNING", "CRITICAL"})
  }

  /** Folding case neither makes nor loses a wildcard. */
  ghost predicate SparesWildcards(fold: char -> char) {
    forall c :: (Wild(c) ==> fold(c) == c) && (Wild(fold(c)) ==> Wild(c))
  }

  lemma {:induction false} FoldWrapped(fold: char -> char, p: string)
    requires SparesWildcards(fold)
    ensures Fold(fold, Wrapped(p)) == Wrapped(Fold(fold, p))
    ensures Literal(p) ==> Literal(Fold(fold, p))
  {
    FoldAt(fold, p);
    FoldAt(fold, Wrapped(p));
    assert Wild('%');
  }

  lemma {:induction false} FoldAt(fold: char -> char, p: string)
    ensures forall i :: 0 <= i < |p| ==> Fold(fold, p)[i] == fold(p[i])
  {
    if p != "" {
      FoldAt(fold, p[1..]);
    }
  }

  lemma SearchAgrees(fold: char -> char, column: Option<string>, search: string)
    requires SparesWildcards(fold) && Literal(search)
    ensures ILike(fold, column, search) == True <==>
            column.Some? && Contains(Fold(fold, column.value), Fold(fold, search))
  {
    FoldWrapped(fold, search);
    if column.Some? {
      LikeIsContains(Fold(fold, column.value), Fold(fold, search));
    }
  }

  /** The loop keeps exactly the rows the WHERE clause is true of. */
  lemma KeepsWhatQualifies(fold: char -> char, r: Row, f: Filter)
    requires SparesWildcards(fold) && Literal(f.search)
    requires r.status.Some? ==> r.status.value in {"NORMAL", "WARNING", "CRITICAL"}
    ensures Keeps(fold, f, Fold(fold, f.search), Selected(r)) <==> Where(fold, r, f) == True
  {
    hide Contains, ILike;
    SearchAgrees(fold, Some(r.code), f.search);
    SearchAgrees(fold, r.substationName, f.search);
    SearchAgrees(fold, r.substationCode, f.search);
  }

  lemma {:induction false} FilteredHolds(fold: char -> char, s: seq<Summary>, f: Filter, x: Summary)
    ensures x in Filtered(fold, s, f) <==> x in s && Keeps(fold, f, Fold(fold, f.search), x)
  {
    hide Keeps;
    if s != [] {
      FilteredHolds(fold, s[..|s| - 1], f, x);
      assert s == s[..|s| - 1] + [s[|s| - 1]];
    }
  }

  lemma {:induction false} FilteredKeepsOrder(fold: char -> char, s: seq<Summary>, f: Filter, o: Order)
    requires Ordered(o, s)
    ensures Ordered(o, Filtered(fold, s, f))
  {
    hide Keeps, Before;
    if s != [] {
      var front := s[..|s| - 1];
      FilteredKeepsOrder(fold, front, f, o);
      var out := Filtered(fold, front, f);
      forall i | 0 <= i < |out|
        ensures Before(o, out[i], s[|s| - 1])
      {
        FilteredHolds(fold, front, f, out[i]);
        var j :| 0 <= j < |front| && front[j] == out[i];
        assert s[j] == out[i];
      }
    }
  }

  // ------------------------------------------------------------------ sorting

  lemma BeforeIsStrict(o: Order, a: Summary, b: Summary)
    ensures !(Before(o, a, b) && Before(o, b, a))
    ensures a.code != b.code ==> Before(o, a, b) || Before(o, b, a)
  {
    LessIsStrict(a.code, b.code);
  }

  lemma BeforeChains(o: Order, a: Summary, b: Summary, c: Summary)
    requires Before(o, a, b) && Before(o, b, c)
    ensures Before(o, a, c)
  {
    if Less(a.code, b.code) && Less(b.code, c.code) {
      LessChains(a.code, b.code, c.code);
    }
  }

  ghost predicate Distinct(s: seq<Summary>) {
    forall i, j :: 0 <= i < j < |s| ==> s[i].code != s[j].code
  }

  lemma {:induction false} InsertedHolds(o: Order, s: seq<Summary>, x: Summary, y: Summary)
    ensures y in Inserted(o, s, x) <==> y in s || y == x
  {
    hide Before;
    if s != [] && !Before(o, x, s[0]) {
      InsertedHolds(o, s[1..], x, y);
      assert s == [s[0]] + s[1..];
    }
  }

  lemma {:induction false} InsertedOrdered(o: Order, s: seq<Summary>, x: Summary)
    requires Ordered(o, s) && forall y :: y in s ==> y.code != x.code
    ensures Ordered(o, Inserted(o, s, x))
  {
    hide Before;
    if s != [] {
      if Before(o, x, s[0]) {
        forall j | 1 <= j < |s|
          ensures Before(o, x, s[j])
        {
          BeforeChains(o, x, s[0], s[j]);
        }
      } else {
        BeforeIsStrict(o, x, s[0]);
        InsertedOrdered(o, s[1..], x);
        var rest := Inserted(o, s[1..], x);
        forall j | 0 <= j < |rest|
          ensures Before(o, s[0], rest[j])
        {
          InsertedHolds(o, s[1..], x, rest[j]);
        }
      }
    }
  }

  lemma {:induction false} SortedHolds(o: Order, s: seq<Summary>, y: Summary)
    ensures y in Sorted(o, s) <==> y in s
  {
    if s != [] {
      SortedHolds(o, s[..|s| - 1], y);
      InsertedHolds(o, Sorted(o, s[..|s| - 1]), s[|s| - 1], y);
      assert s == s[..|s| - 1] + [s[|s| - 1]];
    }
  }

  lemma {:induction false} SortedOrdered(o: Order, s: seq<Summary>)
    requires Distinct(s)
    ensures Ordered(o, Sorted(o, s))
  {
    hide Before;
    if s != [] {
      var front, last := s[..|s| - 1], s[|s| - 1];
      SortedOrdered(o, front);
      forall y | y in Sorted(o, front)
        ensures y.code != last.code
      {
        SortedHolds(o, front, y);
      }
      InsertedOrdered(o, Sorted(o, front), last);
    }
  }

  lemma FirstIsAlone(o: Order, a: seq<Summary>, x: Summary)
    requires Ordered(o, a) && a != []
    ensures x in a[1..] <==> x in a && x != a[0]
  {
    hide Before;
    BeforeIsStrict(o, a[0], a[0]);
    assert a == [a[0]] + a[1..];
    if x in a[1..] {
      var i :| 0 <= i < |a[1..]| && a[1..][i] == x;
      assert Before(o, a[0], a[i + 1]);
    }
  }

  /** A list is determined by what is in it and the order it is in. */
  lemma {:induction false} OneOrderedList(o: Order, a: seq<Summary>, b: seq<Summary>)
    requires Ordered(o, a) && Ordered(o, b) && forall x :: x in a <==> x in b
    ensures a == b
  {
    hide Before;
    if b != [] {
      assert b[0] in a;
    }
    if a != [] {
      assert a[0] in b && b[0] in a by { assert a[0] in a && b != []; }
      BeforeIsStrict(o, a[0], b[0]);
      assert a[0] == b[0];
      forall x
        ensures x in a[1..] <==> x in b[1..]
      {
        FirstIsAlone(o, a, x);
        FirstIsAlone(o, b, x);
      }
      OneOrderedList(o, a[1..], b[1..]);
    }
  }

  // ------------------------------------------------------------------ the fast path answers the query

  /**
   What the order by update needs of two rows: one never updated was created before the other's update, and
   of two never updated the one with the smaller code is not the older.
   */
  predicate NullsAgree(a: Row, b: Row) {
    && (a.updatedAt.None? && b.updatedAt.Some? ==>
          b.updatedAt.value > a.createdAt || (b.updatedAt.value == a.createdAt && Less(b.code, a.code)))
    && (a.updatedAt.None? && b.updatedAt.None? && Less(a.code, b.code) ==> a.createdAt >= b.createdAt)
  }

  ghost predicate UpdatesAgree(o: Order, rows: set<Row>) {
    o == ByUpdate ==> forall a, b :: a in rows && b in rows ==> NullsAgree(a, b)
  }

  lemma UpdatedRowsAgree(o: Order, rows: set<Row>)
    requires forall r :: r in rows ==> r.updatedAt.Some?
    ensures UpdatesAgree(o, rows)
  {
  }

  /** Between two rows the two orders agree if the rows do. */
  lemma PairAgrees(o: Order, a: Row, b: Row)
    requires RowBefore(o, a, b) && (o == ByUpdate ==> NullsAgree(a, b) && NullsAgree(b, a))
    ensures Before(o, Selected(a), Selected(b))
  {
  }

  /** And only then. */
  lemma AgreementIsNeeded(a: Row, b: Row)
    requires RowBefore(ByUpdate, a, b) && Before(ByUpdate, Selected(a), Selected(b))
    ensures NullsAgree(a, b) && NullsAgree(b, a)
  {
    LessIsStrict(a.code, b.code);
  }

  lemma {:induction false} SelectedAllHolds(rows: seq<Row>, x: Summary)
    ensures x in SelectedAll(rows) <==> exists r :: r in rows && Selected(r) == x
  {
    if x in SelectedAll(rows) {
      var i :| 0 <= i < |rows| && SelectedAll(rows)[i] == x;
      assert rows[i] in rows;
    }
  }

  /** The query's rows are in the order of the list exactly when their update times agree. */
  lemma {:induction false} SelectedAllOrdered(o: Order, rows: seq<Row>, q: set<Row>)
    requires RowsOrdered(o, rows) && forall r :: r in rows <==> r in q
    ensures Ordered(o, SelectedAll(rows)) <==> UpdatesAgree(o, q)
  {
    hide RowBefore, Before, NullsAgree;
    if UpdatesAgree(o, q) {
      forall i, j | 0 <= i < j < |rows|
        ensures Before(o, Selected(rows[i]), Selected(rows[j]))
      {
        assert rows[i] in q && rows[j] in q;
        PairAgrees(o, rows[i], rows[j]);
      }
    }
    if Ordered(o, SelectedAll(rows)) && o == ByUpdate {
      forall a, b | a in q && b in q
        ensures NullsAgree(a, b)
      {
        var i :| 0 <= i < |rows| && rows[i] == a;
        var j :| 0 <= j < |rows| && rows[j] == b;
        OrderedRowsAgree(rows, i, j);
      }
    }
  }

  lemma {:induction false} OrderedRowsAgree(rows: seq<Row>, i: nat, j: nat)
    requires RowsOrdered(ByUpdate, rows) && Ordered(ByUpdate, SelectedAll(rows)) && i < |rows| && j < |rows|
    ensures NullsAgree(rows[i], rows[j])
  {
    hide RowBefore, Before, NullsAgree;
    if i < j {
      assert Before(ByUpdate, SelectedAll(rows)[i], SelectedAll(rows)[j]);
      AgreementIsNeeded(rows[i], rows[j]);
    } else if j < i {
      assert Before(ByUpdate, SelectedAll(rows)[j], SelectedAll(rows)[i]);
      AgreementIsNeeded(rows[j], rows[i]);
    } else {
      AgreesWithItself(rows[i]);
    }
  }

  lemma AgreesWithItself(r: Row)
    ensures NullsAgree(r, r)
  {
    LessIsStrict(r.code, r.code);
  }

  lemma OrderedIsDistinct(s: seq<Summary>)
    requires Ordered(ByCode, s)
    ensures Distinct(s)
  {
    forall i, j | 0 <= i < j < |s|
      ensures s[i].code != s[j].code
    {
      LessIsStrict(s[i].code, s[j].code);
    }
  }

  /** The matches are in the order asked for. */
  lemma FoundOrdered(fold: char -> char, all: seq<Summary>, f: Filter)
    requires Ordered(ByCode, all)
    ensures Ordered(OrderOf(f.orderBy), Found(fold, all, f))
  {
    hide Before;
    FilteredKeepsOrder(fold, all, f, ByCode);
    OrderedIsDistinct(Filtered(fold, all, f));
    SortedOrdered(OrderOf(f.orderBy), Filtered(fold, all, f));
  }

  lemma FoundHolds(fold: char -> char, all: seq<Summary>, f: Filter, x: Summary)
    ensures x in Found(fold, all, f) <==> x in all && Keeps(fold, f, Fold(fold, f.search), x)
  {
    FilteredHolds(fold, all, f, x);
    SortedHolds(OrderOf(f.orderBy), Filtered(fold, all, f), x);
  }

  lemma WhereEverything(fold: char -> char, table: set<Row>)
    ensures Qualifying(fold, table, EVERYTHING) == table
  {
  }

  /** The matches in memory and the rows of the query are the same. */
  lemma SameMatches(fold: char -> char, table: set<Row>, f: Filter, cached: seq<Row>, found: seq<Row>, x: Summary)
    requires SparesWildcards(fold) && TableOk(table) && Literal(f.search)
    requires Answers(fold, table, EVERYTHING, cached) && Answers(fold, table, f, found)
    ensures x in Found(fold, SelectedAll(cached), f) <==> x in SelectedAll(found)
  {
    hide Where, Keeps, SparesWildcards, Literal, Found, RowsOrdered;
    WhereEverything(fold, table);
    FoundHolds(fold, SelectedAll(cached), f, x);
    SelectedAllHolds(cached, x);
    SelectedAllHolds(found, x);
    forall r | r in table
      ensures Keeps(fold, f, Fold(fold, f.search), Selected(r)) <==> r in Qualifying(fold, table, f)
    {
      KeepsWhatQualifies(fold, r, f);
    }
  }

  lemma {:induction false} OrderedHasNoRepeats(o: Order, rows: seq<Row>, s: set<Row>)
    requires RowsOrdered(o, rows) && forall r :: r in rows <==> r in s
    ensures |rows| == |s|
  {
    hide RowBefore;
    if rows == [] {
      assert s == {};
    } else {
      var first := rows[0];
      forall r
        ensures r in rows[1..] <==> r in s - {first}
      {
        assert rows == [first] + rows[1..];
        RowNotBeforeItself(o, first);
        if r in rows[1..] {
          var i :| 0 <= i < |rows[1..]| && rows[1..][i] == r;
          assert RowBefore(o, rows[0], rows[i + 1]);
        }
      }
      OrderedHasNoRepeats(o, rows[1..], s - {first});
    }
  }

  lemma RowNotBeforeItself(o: Order, r: Row)
    ensures !RowBefore(o, r, r)
  {
    LessIsStrict(r.code, r.code);
  }

  lemma LimitedSelects(f: Filter, rows: seq<Row>)
    requires f.offset >= 0
    ensures Limited(rows, f).Ok? && Page(SelectedAll(rows), f) == SelectedAll(Limited(rows, f).value)
  {
    hide SelectedAll, Selected;
    if f.limit > 0 {
      SelectedSlice(rows, Min(f.offset, |rows|), Min(f.offset + f.limit, |rows|));
    }
  }

  lemma SelectedSlice(rows: seq<Row>, lo: nat, hi: nat)
    requires lo <= hi <= |rows|
    ensures SelectedAll(rows)[lo..hi] == SelectedAll(rows[lo..hi])
  {
    hide SelectedAll, Selected;
  }

  function Elements(s: seq<Summary>): set<Summary> { set x | x in s }

  lemma {:induction false} LengthIsSize(s: seq<Summary>)
    requires forall i, j :: 0 <= i < j < |s| ==> s[i] != s[j]
    ensures |s| == |Elements(s)|
  {
    if s == [] {
      assert Elements(s) == {};
    } else {
      var n := |s| - 1;
      LengthIsSize(s[..n]);
      assert s == s[..n] + [s[n]];
      assert Elements(s) == Elements(s[..n]) + {s[n]};
    }
  }

  lemma OrderedLength(o: Order, s: seq<Summary>)
    requires Ordered(o, s)
    ensures |s| == |Elements(s)|
  {
    hide Before;
    forall i, j | 0 <= i < j < |s|
      ensures s[i] != s[j]
    {
      BeforeIsStrict(o, s[i], s[j]);
    }
    LengthIsSize(s);
  }

  lemma {:induction false} SelectedLength(o: Order, rows: seq<Row>, table: set<Row>)
    requires RowsOrdered(o, rows) && TableOk(table) && forall r :: r in rows ==> r in table
    ensures |rows| == |Elements(SelectedAll(rows))|
  {
    hide RowBefore;
    var s := SelectedAll(rows);
    forall i, j | 0 <= i < j < |s|
      ensures s[i] != s[j]
    {
      assert rows[i] in table && rows[j] in table;
      RowNotBeforeItself(o, rows[i]);
      assert RowBefore(o, rows[i], rows[j]);
    }
    LengthIsSize(s);
  }

  /** The same matches and as many of them, whatever the order. */
  lemma {:induction false} CachedListHasTheMatches(fold: char -> char, table: set<Row>, f: Filter, cached: seq<Row>, found: seq<Row>)
    requires SparesWildcards(fold) && TableOk(table) && Literal(f.search)
    requires Answers(fold, table, EVERYTHING, cached) && Answers(fold, table, f, found)
    ensures Ordered(OrderOf(f.orderBy), Found(fold, SelectedAll(cached), f))
    ensures forall x :: x in Found(fold, SelectedAll(cached), f) <==> x in SelectedAll(found)
    ensures |Found(fold, SelectedAll(cached), f)| == |Qualifying(fold, table, f)| == |found|
  {
    hide Where, Keeps, SparesWildcards, Literal, TableOk, Before, RowBefore, Found;
    var o, matches := OrderOf(f.orderBy), Found(fold, SelectedAll(cached), f);
    WhereEverything(fold, table);
    SelectedAllOrdered(ByCode, cached, table);
    FoundOrdered(fold, SelectedAll(cached), f);
    forall x
      ensures x in matches <==> x in SelectedAll(found)
    {
      SameMatches(fold, table, f, cached, found, x);
    }
    OrderedHasNoRepeats(o, found, Qualifying(fold, table, f));
    OrderedLength(o, matches);
    SelectedLength(o, found, table);
    assert Elements(matches) == Elements(SelectedAll(found));
  }

  /**
   The list computed from the cache against the query on the same rows, for every filter with no wildcard in
   the search. The matches and the total are always the query's. The matches are in the query's order if and
   only if the update times of the qualifying rows agree, which only an order by update requires anything for.
   Then the page is the query's for every nonnegative offset. Where the database refuses a negative offset,
   the list answers with its first page.
   */
  lemma {:induction false} CachedListAnswersTheQuery(fold: char -> char, table: set<Row>, f: Filter, cached: seq<Row>, found: seq<Row>)
    requires SparesWildcards(fold) && TableOk(table) && Literal(f.search)
    requires Answers(fold, table, EVERYTHING, cached) && Answers(fold, table, f, found)
    ensures var matches := Found(fold, SelectedAll(cached), f);
            && (forall x :: x in matches <==> x in SelectedAll(found))
            && |matches| == |Qualifying(fold, table, f)|
            && (matches == SelectedAll(found) <==> UpdatesAgree(OrderOf(f.orderBy), Qualifying(fold, table, f)))
            && (matches == SelectedAll(found) && f.offset >= 0 ==>
                  Limited(found, f).Ok? && Page(matches, f) == SelectedAll(Limited(found, f).value))
            && (f.offset < 0 ==> Page(matches, f) == Page(matches, f.(offset := 0)))
  {
    CachedListHasTheMatches(fold, table, f, cached, found);
    SelectedAllOrdered(OrderOf(f.orderBy), found, Qualifying(fold, table, f));
    hide Qualifying, Ordered, RowsOrdered, Found, Page, Limited, SelectedAll, OrderOf, UpdatesAgree, Literal, TableOk;
    var o, matches := OrderOf(f.orderBy), Found(fold, SelectedAll(cached), f);
    if UpdatesAgree(o, Qualifying(fold, table, f)) {
      OneOrderedList(o, matches, SelectedAll(found));
    }
    if f.offset >= 0 {
      LimitedSelects(f, found);
    } else {
      NegativeIsFirst(matches, f);
    }
  }

  /** So on a table whose rows have all been updated the cached list is the query, page by page. */
  lemma {:induction false} UpdatedTableAnswersTheQuery(
      fold: char -> char, table: set<Row>, f: Filter, cached: seq<Row>, found: seq<Row>)
    requires SparesWildcards(fold) && TableOk(table) && Literal(f.search) && f.offset >= 0
    requires Answers(fold, table, EVERYTHING, cached) && Answers(fold, table, f, found)
    requires forall r :: r in table ==> r.updatedAt.Some?
    ensures var matches := Found(fold, SelectedAll(cached), f);
            && matches == SelectedAll(found)
            && Limited(found, f).Ok? && Page(matches, f) == SelectedAll(Limited(found, f).value)
  {
    CachedListAnswersTheQuery(fold, table, f, cached, found);
    hide Where, Found, Page, Limited, SelectedAll, OrderOf, UpdatesAgree, Literal, TableOk, Answers;
    UpdatedRowsAgree(OrderOf(f.orderBy), Qualifying(fold, table, f));
  }

  lemma NegativeIsFirst(found: seq<Summary>, f: Filter)
    requires f.offset < 0
    ensures Page(found, f) == Page(found, f.(offset := 0))
  {
  }

  // ------------------------------------------------------------------ paging

  lemma {:induction false} FilteredIgnoresPaging(fold: char -> char, s: seq<Summary>, f: Filter, offset: int)
    ensures Filtered(fold, s, f.(offset := offset)) == Filtered(fold, s, f)
  {
    if s != [] {
      FilteredIgnoresPaging(fold, s[..|s| - 1], f, offset);
    }
  }

  function PageStart(limit: int, n: nat): int { n * limit }

  lemma NextPageStart(limit: int, n: nat)
    ensures PageStart(limit, n + 1) == PageStart(limit, n) + limit
    ensures limit > 0 ==> PageStart(limit, n) >= 0
  {
  }

  /** The first `n` pages, one after the other, each asked for on its own. */
  function Pages(fold: char -> char, all: seq<Summary>, f: Filter, n: nat): seq<Summary> {
    if n == 0 then []
    else var g := f.(offset := PageStart(f.limit, n - 1));
         Pages(fold, all, f, n - 1) + Page(Found(fold, all, g), g)
  }

  lemma FoundIgnoresPaging(fold: char -> char, all: seq<Summary>, f: Filter, offset: int)
    ensures Found(fold, all, f.(offset := offset)) == Found(fold, all, f)
  {
    FilteredIgnoresPaging(fold, all, f, offset);
  }

  /** The part of the matches that comes before position `end`. */
  function UpTo(found: seq<Summary>, end: int): (front: seq<Summary>)
    requires end >= 0
    ensures end >= |found| ==> front == found
  {
    found[..Min(end, |found|)]
  }

  lemma PageExtends(found: seq<Summary>, f: Filter)
    requires f.limit > 0 && f.offset >= 0
    ensures UpTo(found, f.offset) + Page(found, f) == UpTo(found, f.offset + f.limit)
  {
  }

  /** Consecutive pages cover the matches from the first one on, each exactly once. */
  lemma {:induction false} PagesTile(fold: char -> char, all: seq<Summary>, f: Filter, n: nat)
    requires f.limit > 0
    ensures PageStart(f.limit, n) >= 0
    ensures Pages(fold, all, f, n) == UpTo(Found(fold, all, f), PageStart(f.limit, n))
    ensures PageStart(f.limit, n) >= |Found(fold, all, f)| ==> Pages(fold, all, f, n) == Found(fold, all, f)
    decreases n
  {
    hide Found, Page, UpTo, PageStart;
    if n == 0 {
      NoPages(fold, all, f);
    } else {
      NextPageStart(f.limit, n - 1);
      var g := f.(offset := PageStart(f.limit, n - 1));
      PagesTile(fold, all, f, n - 1);
      FoundIgnoresPaging(fold, all, f, g.offset);
      PageExtends(Found(fold, all, f), g);
    }
  }

  lemma NoPages(fold: char -> char, all: seq<Summary>, f: Filter)
    ensures PageStart(f.limit, 0) == 0
    ensures Pages(fold, all, f, 0) == UpTo(Found(fold, all, f), 0)
  {
  }

  // ------------------------------------------------------------------ what the update time is needed for

  lemma OldestAndNewest(fold: char -> char, a: Row, b: Row, f: Filter)
    requires a.code == "A" && b.code == "B" && f in {EVERYTHING, EVERYTHING.(orderBy := "updated_at")}
    requires a.updatedAt == None && b.updatedAt == Some(5)
    ensures Qualifying(fold, {a, b}, f) == {a, b}
    ensures Answers(fold, {a, b}, f, if f == EVERYTHING then [a, b] else [b, a])
  {
    assert Where(fold, a, f) == True && Where(fold, b, f) == True;
    hide Where;
    assert Qualifying(fold, {a, b}, f) == {a, b};
    assert Less("A", "B");
  }

  /** An instance: a row never updated sorts last in the database but by its creation in memory. */
  lemma MissingUpdateChangesTheOrder(fold: char -> char)
    returns (table: set<Row>, f: Filter, cached: seq<Row>, found: seq<Row>)
    ensures TableOk(table) && f.search == "" && !UpdatesAgree(OrderOf(f.orderBy), Qualifying(fold, table, f))
    ensures Answers(fold, table, EVERYTHING, cached) && Answers(fold, table, f, found)
    ensures Found(fold, SelectedAll(cached), f) != SelectedAll(found)
  {
    hide Where, Answers, Found, Qualifying, Less;
    var a := Row("A", None, None, None, true, None, None, 1.0, None, 10);
    var b := Row("B", None, None, None, true, None, None, 1.0, Some(5), 0);
    table, cached, found := {a, b}, [a, b], [b, a];
    f := EVERYTHING.(orderBy := "updated_at");
    OldestAndNewest(fold, a, b, EVERYTHING);
    OldestAndNewest(fold, a, b, f);
    var all := SelectedAll(cached);
    assert Less("A", "B") by { LettersInOrder(); }
    FoundOrdered(fold, all, f);
    var wrong := SelectedAll(found);
    assert !Before(ByUpdate, wrong[0], wrong[1]);
  }

  lemma LettersInOrder()
    ensures Less("A", "B")
  {
  }
}
