/**
 The financial aggregates of the managerial dashboard (internal/usecase/dashboard_usecase.go): the same
 balance rows summed by month, by substation and in total, then rounded to cents. Floats are reals here.
 */
module Finance {
  import opened Prelude

  /** A balance of the last twelve months; `month` is the YYYY-MM of the middle of its period. */
  datatype Row = Row(month: string, substation: Option<string>, injected: real, billed: real, loss: real,
                     limit: Option<real>)

  /** The seven amounts of a month, in MWh and in reais. */
  datatype Amount = Injected | Billed | Loss | Excess | LossCost | Revenue | Recoverable

  datatype Sums = Sums(injected: real, billed: real, loss: real, excess: real,
                       lossCost: real, revenue: real, recoverable: real, transformers: nat)

  const ZERO := Sums(0.0, 0.0, 0.0, 0.0, 0.0, 0.0, 0.0, 0)

  function Of(s: Sums, a: Amount): real {
    match a
    case Injected => s.injected
    case Billed => s.billed
    case Loss => s.loss
    case Excess => s.excess
    case LossCost => s.lossCost
    case Revenue => s.revenue
    case Recoverable => s.recoverable
  }

  function Plus(a: Sums, b: Sums): Sums {
    Sums(a.injected + b.injected, a.billed + b.billed, a.loss + b.loss, a.excess + b.excess,
         a.lossCost + b.lossCost, a.revenue + b.revenue, a.recoverable + b.recoverable, a.transformers + b.transformers)
  }

  function Deref(v: Option<real>): real { if v.Some? then v.value else 0.0 }

  function Positive(v: real): real { if v > 0.0 then v else 0.0 }

  function LimitOf(r: Row): real { if Deref(r.limit) <= 0.0 then 10.0 else r.limit.value }

  function ExcessOver(r: Row, limit: real): real { Positive(r.loss - r.injected * limit / 100.0) }

  /** What one row adds. */
  function RowSums(r: Row, tariff: real): Sums {
    var excess := ExcessOver(r, LimitOf(r));
    Sums(r.injected / 1000.0, r.billed / 1000.0, r.loss / 1000.0, excess / 1000.0,
         r.loss / 1000.0 * tariff, r.billed / 1000.0 * tariff, excess / 1000.0 * tariff, 1)
  }

  function Total(rows: seq<Row>, tariff: real): Sums {
    if rows == [] then ZERO
    else Plus(Total(rows[..|rows| - 1], tariff), RowSums(rows[|rows| - 1], tariff))
  }

  /** The rows a group consists of. */
  function Selected(rows: seq<Row>, keyOf: Row -> string, key: string): seq<Row> {
    if rows == [] then []
    else
      var last := rows[|rows| - 1];
      Selected(rows[..|rows| - 1], keyOf, key) + if keyOf(last) == key then [last] else []
  }

  function MonthOf(r: Row): string { r.month }

  /** The year of a month key, which is its first four characters. */
  function YearOf(r: Row): string { if |r.month| >= 4 then r.month[..4] else r.month }

  const NO_SUBSTATION := "Sem subestação"

  function SubstationOf(r: Row): string {
    if r.substation.Some? && r.substation.value != "" then r.substation.value else NO_SUBSTATION
  }

  predicate Nameless(r: Row) { r.substation in {None, Some("")} }

  /** Two rows are in one group when they name one substation, and those without a name are together. */
  lemma OneSubstation(a: Row, b: Row)
    ensures SubstationOf(a) == SubstationOf(b) <==>
            if Nameless(a) then Nameless(b) || b.substation == Some("Sem subestação")
            else if Nameless(b) then a.substation == Some("Sem subestação")
            else a.substation == b.substation
  {
  }

  /** Groups in the order their first rows come. */
  function KeysOf(rows: seq<Row>, keyOf: Row -> string): seq<string> {
    if rows == [] then []
    else
      var front, key := KeysOf(rows[..|rows| - 1], keyOf), keyOf(rows[|rows| - 1]);
      if key in front then front else front + [key]
  }

  function SumOver(keys: seq<string>, rows: seq<Row>, keyOf: Row -> string, tariff: real): Sums {
    if keys == [] then ZERO
    else Plus(SumOver(keys[..|keys| - 1], rows, keyOf, tariff),
              Total(Selected(rows, keyOf, keys[|keys| - 1]), tariff))
  }

  // ------------------------------------------------------------------ rounding

  /** math.Round: to the nearest integer, halves away from zero. */
  function Round(x: real): int {
    if x >= 0.0 then (x + 0.5).Floor else -((-x + 0.5).Floor)
  }

  function Round2(v: real): real { Round(v * 100.0) as real / 100.0 }

  function Pct(part: real, total: real): real {
    if total <= 0.0 then 0.0 else Round2(part / total * 100.0)
  }

  function Rounded(s: Sums): Sums {
    Sums(Round2(s.injected), Round2(s.billed), Round2(s.loss), Round2(s.excess),
         Round2(s.lossCost), Round2(s.revenue), Round2(s.recoverable), s.transformers)
  }

  function Abs(x: real): real { if x < 0.0 then -x else x }

  /** To the nearest integer, and a half upwards in size for either sign. */
  lemma RoundsHalvesAway(x: real)
    ensures Round(-x) == -Round(x)
    ensures x >= 0.0 ==> x - 0.5 < Round(x) as real <= x + 0.5
  {
  }

  lemma RoundIsNear(v: real)
    ensures Abs(Round2(v) - v) <= 0.005
  {
    var x := v * 100.0;
    assert -0.5 <= Round(x) as real - x <= 0.5;
  }

  function Hundredths(n: int): real { n as real / 100.0 }

  /** The percentage shown has two decimals and is within half of the last of the quotient. */
  lemma PctIsNear(part: real, total: real)
    ensures total > 0.0 ==> Abs(Pct(part, total) - 100.0 * part / total) <= 0.005
    ensures total <= 0.0 ==> Pct(part, total) == 0.0
    ensures exists n :: Pct(part, total) == Hundredths(n)
  {
    if total > 0.0 {
      RoundIsNear(part / total * 100.0);
      assert part / total * 100.0 == 100.0 * part / total by { Hundredfold(part, total); }
      assert Pct(part, total) == Hundredths(Round(part / total * 100.0 * 100.0));
    } else {
      assert Pct(part, total) == Hundredths(0);
    }
  }

  lemma Hundredfold(a: real, b: real)
    requires b > 0.0
    ensures a / b * 100.0 == 100.0 * a / b
  {
    var q := a / b;
    assert q * b == a;
    assert (q * 100.0) * b == 100.0 * a;
  }

  /** What a row may lose: its limit in percent of what was injected, 10% when it has none above zero. */
  function Allowed(r: Row): real {
    if r.limit.Some? && r.limit.value > 0.0 then r.injected * r.limit.value / 100.0 else r.injected / 10.0
  }

  /** The excess is what was lost above that, in MWh, and nothing below it. */
  lemma ExcessIsAboveTheLimit(r: Row, tariff: real)
    ensures RowSums(r, tariff).excess * 1000.0 == if r.loss > Allowed(r) then r.loss - Allowed(r) else 0.0
  {
    assert r.injected * 10.0 / 100.0 == r.injected / 10.0;
  }

  // ------------------------------------------------------------------ the accumulator

  class MonthFinance {
    const month: string
    var injected: real
    var billed: real
    var loss: real
    var lossPct: real
    var excess: real
    var lossCost: real
    var revenue: real
    var recoverable: real
    var transformers: nat

    function Contents(): Sums
      reads this
    {
      Sums(injected, billed, loss, excess, lossCost, revenue, recoverable, transformers)
    }

    constructor (month: string)
      ensures this.month == month && Contents() == ZERO
    {
      this.month := month;
      injected, billed, loss, lossPct, excess := 0.0, 0.0, 0.0, 0.0, 0.0;
      lossCost, revenue, recoverable, transformers := 0.0, 0.0, 0.0, 0;
    }

    method Add(row: Row, tariff: real)
      modifies this
      ensures Contents() == Plus(old(Contents()), RowSums(row, tariff))
    {
      var limit := Deref(row.limit);
      if limit <= 0.0 {
        limit := 10.0;
      }
      var over := Positive(row.loss - row.injected * limit / 100.0);
      injected := injected + row.injected / 1000.0;
      billed := billed + row.billed / 1000.0;
      loss := loss + row.loss / 1000.0;
      excess := excess + over / 1000.0;
      lossCost := lossCost + row.loss / 1000.0 * tariff;
      revenue := revenue + row.billed / 1000.0 * tariff;
      recoverable := recoverable + over / 1000.0 * tariff;
      transformers := transformers + 1;
    }

    method Finish()
      modifies this
      ensures Contents() == Rounded(old(Contents()))
      ensures lossPct == Pct(old(loss), old(injected))
      ensures old(injected) > 0.0 ==> Abs(lossPct - 100.0 * old(loss) / old(injected)) <= 0.005
      ensures old(injected) <= 0.0 ==> lossPct == 0.0
    {
      PctIsNear(loss, injected);
      lossPct := Pct(loss, injected);
      injected, billed, loss := Round2(injected), Round2(billed), Round2(loss);
      excess := Round2(excess);
      lossCost, revenue, recoverable := Round2(lossCost), Round2(revenue), Round2(recoverable);
    }
  }

  lemma TotalStep(rows: seq<Row>, r: Row, tariff: real)
    ensures Total(rows + [r], tariff) == Plus(Total(rows, tariff), RowSums(r, tariff))
  {
    hide RowSums, Plus;
    assert (rows + [r])[..|rows + [r]| - 1] == rows;
  }

  lemma SelectedStep(rows: seq<Row>, r: Row, keyOf: Row -> string, key: string, tariff: real)
    ensures Selected(rows + [r], keyOf, key) == Selected(rows, keyOf, key) + if keyOf(r) == key then [r] else []
    ensures Total(Selected(rows + [r], keyOf, key), tariff) ==
            if keyOf(r) == key then Plus(Total(Selected(rows, keyOf, key), tariff), RowSums(r, tariff))
            else Total(Selected(rows, keyOf, key), tariff)
  {
    assert (rows + [r])[..|rows + [r]| - 1] == rows;
    TotalStep(Selected(rows, keyOf, key), r, tariff);
    hide Total, RowSums, Plus;
    assert Selected(rows, keyOf, key) + [] == Selected(rows, keyOf, key);
  }

  lemma KeysStep(rows: seq<Row>, r: Row, keyOf: Row -> string)
    ensures KeysOf(rows + [r], keyOf) ==
            if keyOf(r) in KeysOf(rows, keyOf) then KeysOf(rows, keyOf) else KeysOf(rows, keyOf) + [keyOf(r)]
  {
    assert (rows + [r])[..|rows + [r]| - 1] == rows;
  }

  /** One accumulator per month met so far, each an object of its own, holding the month's sums. */
  ghost predicate Accumulated(byMonth: map<string, MonthFinance>, rows: seq<Row>, tariff: real)
    reads byMonth.Values
  {
    && (forall k :: k in byMonth <==> k in KeysOf(rows, MonthOf))
    && (forall k :: k in byMonth ==> byMonth[k].month == k &&
                                     byMonth[k].Contents() == Total(Selected(rows, MonthOf, k), tariff))
    && (forall k, l :: k in byMonth && l in byMonth && k != l ==> byMonth[k] != byMonth[l])
  }

  /** The month a row belongs to, made when it is the first of its month. */
  method Account(byMonth: map<string, MonthFinance>, ghost rows: seq<Row>, r: Row, tariff: real)
    returns (byMonth': map<string, MonthFinance>)
    requires Accumulated(byMonth, rows, tariff)
    modifies byMonth.Values
    ensures Accumulated(byMonth', rows + [r], tariff)
    ensures fresh(byMonth'.Values - byMonth.Values)
  {
    hide KeysOf, Selected, Total, RowSums, Plus;
    byMonth' := byMonth;
    if r.month !in byMonth {
      SelectedNone(rows, MonthOf, r.month);
      TotalNone(tariff);
      var m := new MonthFinance(r.month);
      byMonth' := byMonth[r.month := m];
    }
    ghost var sums := Total(Selected(rows, MonthOf, r.month), tariff);
    var acc := byMonth'[r.month];
    assert acc.Contents() == sums;
    KeysStep(rows, r, MonthOf);
    acc.Add(r, tariff);
    forall k | k in byMonth'
      ensures byMonth'[k].Contents() == Total(Selected(rows + [r], MonthOf, k), tariff)
    {
      SelectedStep(rows, r, MonthOf, k, tariff);
    }
  }

  lemma TotalNone(tariff: real)
    ensures Total([], tariff) == ZERO
  {
  }

  /** What row `i` adds to the total and to the year to date. */
  lemma RowAddsUp(rows: seq<Row>, i: nat, tariff: real, year: string)
    requires |year| == 4 && i < |rows|
    ensures rows[..i + 1] == rows[..i] + [rows[i]]
    ensures Total(rows[..i + 1], tariff) == Plus(Total(rows[..i], tariff), RowSums(rows[i], tariff))
    ensures var before := Total(Selected(rows[..i], YearOf, year), tariff);
            Total(Selected(rows[..i + 1], YearOf, year), tariff) ==
            if year <= rows[i].month then Plus(before, RowSums(rows[i], tariff)) else before
  {
    hide RowSums, Plus, Selected, Total;
    assert rows[..i + 1] == rows[..i] + [rows[i]];
    TotalStep(rows[..i], rows[i], tariff);
    SelectedStep(rows[..i], rows[i], YearOf, year, tariff);
    InYear(rows[i], year);
  }

  /** The accumulators of the months, of all rows and of the current year after the loop over the rows. */
  method Accumulate(rows: seq<Row>, tariff: real, year: string)
    returns (byMonth: map<string, MonthFinance>, total: MonthFinance, yearToDate: MonthFinance)
    requires |year| == 4
    ensures Accumulated(byMonth, rows, tariff)
    ensures total.Contents() == Total(rows, tariff)
    ensures yearToDate.Contents() == Total(Selected(rows, YearOf, year), tariff)
    ensures fresh(total) && fresh(yearToDate) && total != yearToDate
    ensures fresh(byMonth.Values) && total !in byMonth.Values && yearToDate !in byMonth.Values
  {
    hide RowSums, Plus, Selected, Total, YearOf;
    TotalNone(tariff);
    SelectedNone([], YearOf, year);
    byMonth := map[];
    total := new MonthFinance("");
    yearToDate := new MonthFinance("");
    assert rows[..0] == [] && Accumulated(byMonth, rows[..0], tariff);
    hide Accumulated;
    for i := 0 to |rows|
      invariant Accumulated(byMonth, rows[..i], tariff)
      invariant fresh(byMonth.Values) && total !in byMonth.Values && yearToDate !in byMonth.Values
      invariant fresh(total) && fresh(yearToDate) && total != yearToDate
      invariant total.Contents() == Total(rows[..i], tariff)
      invariant yearToDate.Contents() == Total(Selected(rows[..i], YearOf, year), tariff)
    {
      RowAddsUp(rows, i, tariff, year);
      byMonth := Account(byMonth, rows[..i], rows[i], tariff);
      total.Add(rows[i], tariff);
      if year <= rows[i].month {
        yearToDate.Add(rows[i], tariff);
      }
    }
    assert rows[..|rows|] == rows;
  }

  lemma InYear(r: Row, year: string)
    requires |year| == 4
    ensures year <= r.month <==> YearOf(r) == year
  {
  }

  lemma {:induction false} SelectedNone(rows: seq<Row>, keyOf: Row -> string, key: string)
    requires key !in KeysOf(rows, keyOf)
    ensures Selected(rows, keyOf, key) == []
  {
    if rows != [] {
      SelectedNone(rows[..|rows| - 1], keyOf, key);
    }
  }

  // ------------------------------------------------------------------ conservation

  ghost predicate NoRepeats(keys: seq<string>) {
    forall i, j :: 0 <= i < j < |keys| ==> keys[i] != keys[j]
  }

  lemma {:induction false} KeysAreDistinct(rows: seq<Row>, keyOf: Row -> string)
    ensures NoRepeats(KeysOf(rows, keyOf))
  {
    if rows != [] {
      KeysAreDistinct(rows[..|rows| - 1], keyOf);
    }
  }

  lemma PlusShifts(a: Sums, b: Sums, c: Sums)
    ensures Plus(Plus(a, c), b) == Plus(Plus(a, b), c)
    ensures Plus(a, Plus(b, c)) == Plus(Plus(a, b), c)
  {
  }

  /** A row adds to its own group only. */
  lemma {:induction false} OneMoreRow(keys: seq<string>, rows: seq<Row>, r: Row, keyOf: Row -> string, tariff: real)
    requires NoRepeats(keys)
    ensures SumOver(keys, rows + [r], keyOf, tariff) ==
            if keyOf(r) in keys then Plus(SumOver(keys, rows, keyOf, tariff), RowSums(r, tariff))
            else SumOver(keys, rows, keyOf, tariff)
  {
    hide Plus, RowSums, Total, Selected;
    if keys != [] {
      var front, last := keys[..|keys| - 1], keys[|keys| - 1];
      OneMoreRow(front, rows, r, keyOf, tariff);
      SelectedStep(rows, r, keyOf, last, tariff);
      PlusShifts(SumOver(front, rows, keyOf, tariff), Total(Selected(rows, keyOf, last), tariff), RowSums(r, tariff));
      assert keys == front + [last];
    }
  }

  lemma {:induction false} OneMoreKey(keys: seq<string>, rows: seq<Row>, keyOf: Row -> string, key: string,
                                      tariff: real)
    requires Selected(rows, keyOf, key) == []
    ensures SumOver(keys + [key], rows, keyOf, tariff) == SumOver(keys, rows, keyOf, tariff)
  {
    assert (keys + [key])[..|keys + [key]| - 1] == keys;
    TotalNone(tariff);
  }

  /**
   Grouping loses and invents nothing: field by field the groups sum to the total, whatever they are
   grouped by. With months this is the series against the twelve-month total; with substations, over the
   rows of the last month, it is the substations against that month.
   */
  lemma {:induction false} GroupsSumToTotal(rows: seq<Row>, keyOf: Row -> string, tariff: real)
    ensures SumOver(KeysOf(rows, keyOf), rows, keyOf, tariff) == Total(rows, tariff)
  {
    hide Plus, RowSums, Selected;
    if rows == [] {
      assert KeysOf(rows, keyOf) == [];
    } else {
      var front, r := rows[..|rows| - 1], rows[|rows| - 1];
      assert rows == front + [r];
      GroupsSumToTotal(front, keyOf, tariff);
      KeysAreDistinct(rows, keyOf);
      KeysStep(front, r, keyOf);
      OneMoreRow(KeysOf(rows, keyOf), front, r, keyOf, tariff);
      if keyOf(r) !in KeysOf(front, keyOf) {
        SelectedNone(front, keyOf, keyOf(r));
        OneMoreKey(KeysOf(front, keyOf), front, keyOf, keyOf(r), tariff);
      }
    }
  }

  /** The substations of the last month sum to that month. */
  lemma SubstationsSumToTheMonth(rows: seq<Row>, month: string, tariff: real)
    ensures var last := Selected(rows, MonthOf, month);
            SumOver(KeysOf(last, SubstationOf), last, SubstationOf, tariff) == Total(last, tariff)
  {
    GroupsSumToTotal(Selected(rows, MonthOf, month), SubstationOf, tariff);
  }

  /** And the months of a year sum to the year to date. */
  lemma MonthsSumToTheYear(rows: seq<Row>, year: string, tariff: real)
    ensures var ytd := Selected(rows, YearOf, year);
            SumOver(KeysOf(ytd, MonthOf), ytd, MonthOf, tariff) == Total(ytd, tariff)
  {
    GroupsSumToTotal(Selected(rows, YearOf, year), MonthOf, tariff);
  }

  // ------------------------------------------------------------------ after rounding

  /** The rounded groups, added up again. */
  function SumRounded(keys: seq<string>, rows: seq<Row>, keyOf: Row -> string, tariff: real): Sums {
    if keys == [] then ZERO
    else Plus(SumRounded(keys[..|keys| - 1], rows, keyOf, tariff),
              Rounded(Total(Selected(rows, keyOf, keys[|keys| - 1]), tariff)))
  }

  lemma RoundedIsNear(s: Sums, a: Amount)
    ensures Abs(Of(Rounded(s), a) - Of(s, a)) <= 0.005
  {
    RoundIsNear(Of(s, a));
    hide Round2;
  }

  lemma OfPlus(s: Sums, t: Sums, a: Amount)
    ensures Of(Plus(s, t), a) == Of(s, a) + Of(t, a)
  {
  }

  lemma {:induction false} RoundedGroupsAreNear(keys: seq<string>, rows: seq<Row>, keyOf: Row -> string,
                                        tariff: real, a: Amount)
    ensures Abs(Of(SumRounded(keys, rows, keyOf, tariff), a) - Of(SumOver(keys, rows, keyOf, tariff), a)) <=
            0.005 * |keys| as real
    ensures SumRounded(keys, rows, keyOf, tariff).transformers == SumOver(keys, rows, keyOf, tariff).transformers
  {
    hide Rounded, RowSums, Total, Selected, Of;
    if keys == [] {
    } else {
      var front, group := keys[..|keys| - 1], Total(Selected(rows, keyOf, keys[|keys| - 1]), tariff);
      RoundedGroupsAreNear(front, rows, keyOf, tariff, a);
      RoundedIsNear(group, a);
      RoundedKeepsCount(group);
      OfPlus(SumRounded(front, rows, keyOf, tariff), Rounded(group), a);
      OfPlus(SumOver(front, rows, keyOf, tariff), group, a);
      assert 0.005 * |keys| as real == 0.005 * |front| as real + 0.005;
    }
  }

  lemma RoundedKeepsCount(s: Sums)
    ensures Rounded(s).transformers == s.transformers
  {
  }

  /**
   What the dashboard shows: `n` rounded groups differ from the rounded total by at most half a cent for
   each of them and one for the total, and the transformers are counted exactly.
   */
  lemma ShownGroupsMatchTheTotal(rows: seq<Row>, keyOf: Row -> string, tariff: real, a: Amount)
    ensures var keys := KeysOf(rows, keyOf);
            var groups, total := SumRounded(keys, rows, keyOf, tariff), Rounded(Total(rows, tariff));
            && Abs(Of(groups, a) - Of(total, a)) <= 0.005 * (|keys| as real + 1.0)
            && groups.transformers == total.transformers
  {
    var keys := KeysOf(rows, keyOf);
    GroupsSumToTotal(rows, keyOf, tariff);
    RoundedGroupsAreNear(keys, rows, keyOf, tariff, a);
    RoundedIsNear(Total(rows, tariff), a);
    RoundedKeepsCount(Total(rows, tariff));
    hide Rounded, Total, SumOver, SumRounded, Of, KeysOf;
  }

  // ------------------------------------------------------------------ amounts and the ranking

  function Sum(rows: seq<Row>, f: Row -> real): real {
    if rows == [] then 0.0 else Sum(rows[..|rows| - 1], f) + f(rows[|rows| - 1])
  }

  /** The energies are the rows' own, in MWh, and the excess covers all loss above the limits. */
  lemma {:induction false} EnergiesAreTheRows(rows: seq<Row>, tariff: real)
    ensures var t := Total(rows, tariff);
            && t.injected * 1000.0 == Sum(rows, (r: Row) => r.injected)
            && t.billed * 1000.0 == Sum(rows, (r: Row) => r.billed)
            && t.loss * 1000.0 == Sum(rows, (r: Row) => r.loss)
            && t.excess * 1000.0 >= Sum(rows, (r: Row) => r.loss - r.injected * LimitOf(r) / 100.0)
  {
    hide LimitOf;
    if rows != [] {
      EnergiesAreTheRows(rows[..|rows| - 1], tariff);
    }
  }

  /** Every amount in reais is the amount in MWh at the tariff, and nothing recoverable is negative. */
  lemma {:induction false} AmountsArePriced(rows: seq<Row>, tariff: real)
    ensures var t := Total(rows, tariff);
            && t.lossCost == t.loss * tariff && t.revenue == t.billed * tariff && t.recoverable == t.excess * tariff
            && t.excess >= 0.0 && t.transformers == |rows|
  {
    if rows != [] {
      AmountsArePriced(rows[..|rows| - 1], tariff);
      Distributes(Total(rows[..|rows| - 1], tariff), RowSums(rows[|rows| - 1], tariff), tariff);
    }
  }

  lemma Distributes(a: Sums, b: Sums, tariff: real)
    ensures (a.loss + b.loss) * tariff == a.loss * tariff + b.loss * tariff
    ensures (a.billed + b.billed) * tariff == a.billed * tariff + b.billed * tariff
    ensures (a.excess + b.excess) * tariff == a.excess * tariff + b.excess * tariff
  {
  }

  /** The excess by which the ranking of recoverable transformers goes: a missing limit counts as zero there. */
  function RankedExcess(r: Row): real { ExcessOver(r, Deref(r.limit)) }

  /**
   The ranking and the totals use the same excess for a row exactly when it has a positive limit, nothing
   was injected, or the loss does not exceed what the ranking takes for the limit.
   */
  lemma RankingMatchesTotals(r: Row)
    requires r.injected >= 0.0
    ensures RankedExcess(r) == ExcessOver(r, LimitOf(r)) <==>
            Deref(r.limit) > 0.0 || r.injected == 0.0 || r.loss <= r.injected * Deref(r.limit) / 100.0
  {
    if Deref(r.limit) <= 0.0 {
      Below(r.injected, Deref(r.limit));
    }
  }

  lemma Below(injected: real, limit: real)
    requires injected >= 0.0 && limit <= 0.0
    ensures injected * limit <= injected * 10.0
    ensures injected > 0.0 ==> injected * limit < injected * 10.0
  {
  }
}
