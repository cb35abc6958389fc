/**
 Least-squares trend and weighted risk score of a transformer (internal/calc/risk.go), over reals.
 */
module Risk {
  import opened Prelude

  datatype Balance = Balance(
    lossPct: real, technical: Option<real>, nonTechnical: Option<real>, calculated: bool)

  datatype Trend = Improving | Stable | Worsening

  datatype Level = Low | Medium | High | Critical

  datatype RiskFactor = RiskFactor(name: string, weight: real, value: real, contribution: real)

  datatype RiskScore = RiskScore(score: real, level: Level, trend: Trend, factors: seq<RiskFactor>)

  // ------------------------------------------------------------------ products

  // Products stay folded in `Times`; these few lemmas are all the proofs below know of it.

  function Times(a: real, b: real): real { a * b }

  lemma TimesSum(a: real, b: real, c: real)
    ensures Times(a, b + c) == Times(a, b) + Times(a, c)
    ensures Times(b + c, a) == Times(b, a) + Times(c, a)
  {
  }

  lemma TimesDifference(a: real, b: real, c: real)
    ensures Times(a, b - c) == Times(a, b) - Times(a, c)
    ensures Times(b - c, a) == Times(b, a) - Times(c, a)
  {
  }

  lemma TimesOne(a: real)
    ensures Times(a, 1.0) == a == Times(1.0, a)
    ensures Times(a, 0.0) == 0.0 == Times(0.0, a)
  {
  }

  lemma TimesTwice(a: real, b: real, c: real)
    ensures Times(a, Times(b, c)) == Times(Times(a, b), c) == Times(b, Times(a, c))
  {
    assert a * (b * c) == (a * b) * c == b * (a * c);
  }

  lemma TimesPositive(a: real, b: real)
    requires a >= 0.0 && b >= 0.0
    ensures Times(a, b) >= 0.0
    ensures a > 0.0 && b > 0.0 ==> Times(a, b) > 0.0
  {
  }

  // ------------------------------------------------------------------ sums of the regression

  function SumX(n: nat): real { if n == 0 then 0.0 else SumX(n - 1) + (n - 1) as real }

  function SumXX(n: nat): real {
    if n == 0 then 0.0 else SumXX(n - 1) + Times((n - 1) as real, (n - 1) as real)
  }

  function SumY(ys: seq<real>, n: nat): real
    requires n <= |ys|
  {
    if n == 0 then 0.0 else SumY(ys, n - 1) + ys[n - 1]
  }

  function SumXY(ys: seq<real>, n: nat): real
    requires n <= |ys|
  {
    if n == 0 then 0.0 else SumXY(ys, n - 1) + Times((n - 1) as real, ys[n - 1])
  }

  lemma SumsStep(ys: seq<real>, k: nat)
    requires k < |ys|
    ensures SumX(k + 1) == SumX(k) + k as real
    ensures SumY(ys, k + 1) == SumY(ys, k) + ys[k]
    ensures SumXY(ys, k + 1) == SumXY(ys, k) + Times(k as real, ys[k])
  {
    hide Times;
  }

  lemma SumsStart(ys: seq<real>)
    ensures SumX(0) == SumXX(0) == SumY(ys, 0) == SumXY(ys, 0) == 0.0
  {
  }

  /** n·Σx² - (Σx)² */
  function Spread(n: real, sumXX: real, sumX: real): real { Times(n, sumXX) - Times(sumX, sumX) }

  /** n·Σxy - Σx·Σy */
  function CoSpread(n: real, sumXY: real, sumX: real, sumY: real): real { Times(n, sumXY) - Times(sumX, sumY) }

  function Denominator(n: nat): real { Spread(n as real, SumXX(n), SumX(n)) }

  function Numerator(ys: seq<real>, n: nat): real
    requires n <= |ys|
  {
    CoSpread(n as real, SumXY(ys, n), SumX(n), SumY(ys, n))
  }

  function Triangle(x: real): real { x * (x - 1.0) }

  function Pyramid(x: real): real { x * (x - 1.0) * (2.0 * x - 1.0) }

  /** The classical closed forms. */
  lemma {:induction false} ClosedForms(n: nat)
    ensures 2.0 * SumX(n) == Triangle(n as real)
    ensures 6.0 * SumXX(n) == Pyramid(n as real)
  {
    if n > 0 {
      hide Times, Triangle, Pyramid;
      ClosedForms(n - 1);
      Polynomials((n - 1) as real, SumX(n - 1), SumXX(n - 1));
      assert (n - 1) as real + 1.0 == n as real;
    }
  }

  lemma Polynomials(x: real, sx: real, sxx: real)
    requires 2.0 * sx == Triangle(x) && 6.0 * sxx == Pyramid(x)
    ensures 2.0 * (sx + x) == Triangle(x + 1.0)
    ensures 6.0 * (sxx + Times(x, x)) == Pyramid(x + 1.0)
  {
    assert x * (x - 1.0) + 2.0 * x == (x + 1.0) * x;
    assert x * (x - 1.0) * (2.0 * x - 1.0) + 6.0 * (x * x) == (x + 1.0) * x * (2.0 * x + 1.0);
  }

  /** Two or more points always have a slope: the source divides by n²(n²-1)/12, which is positive. */
  lemma DenominatorPositive(n: nat)
    requires n >= 2
    ensures Denominator(n) > 0.0
    ensures 12.0 * Denominator(n) == n as real * n as real * (n as real * n as real - 1.0)
  {
    ClosedForms(n);
    hide SumX, SumXX, Spread, Triangle, Pyramid;
    FromClosedForms(n as real, SumX(n), SumXX(n));
  }

  lemma FromClosedForms(x: real, sx: real, sxx: real)
    requires x >= 2.0
    requires 2.0 * sx == Triangle(x) && 6.0 * sxx == Pyramid(x)
    ensures 12.0 * Spread(x, sxx, sx) == x * x * (x * x - 1.0)
    ensures Spread(x, sxx, sx) > 0.0
  {
    var a := x * (x - 1.0);
    assert 12.0 * (x * sxx) == 2.0 * (x * (6.0 * sxx));
    assert 12.0 * (sx * sx) == 3.0 * ((2.0 * sx) * (2.0 * sx)) == 3.0 * (a * a);
    assert 2.0 * (x * (a * (2.0 * x - 1.0))) - 3.0 * (a * a) == a * (4.0 * (x * x) - 2.0 * x - 3.0 * a);
    assert 4.0 * (x * x) - 2.0 * x - 3.0 * a == x * x + x;
    assert a * (x * x + x) == x * x * (x * x - 1.0);
    assert a > 0.0;
    assert a * (x * x + x) > 0.0;
  }

  function Slope(ys: seq<real>): real
    requires |ys| >= 2
  {
    DenominatorPositive(|ys|);
    Numerator(ys, |ys|) / Denominator(|ys|)
  }

  // ------------------------------------------------------------------ the slope lies between the steps

  function Tug(ys: seq<real>, n: nat, j: nat): real
    requires j <= n < |ys|
  {
    Times((n - j) as real, ys[n] - ys[j])
  }

  /** Σ (n - i)(y_n - y_i) over the first k points: what point n adds to the numerator. */
  function Pull(ys: seq<real>, n: nat, k: nat): real
    requires k <= n < |ys|
  {
    if k == 0 then 0.0 else Pull(ys, n, k - 1) + Tug(ys, n, k - 1)
  }

  /** k·(n·y_n) - Σx·y_n - n·Σy + Σxy */
  function Pulled(k: real, n: real, yn: real, sx: real, sy: real, sxy: real): real {
    Times(k, Times(n, yn)) - Times(sx, yn) - Times(n, sy) + sxy
  }

  lemma {:induction false} PullExpands(ys: seq<real>, n: nat, k: nat)
    requires k <= n < |ys|
    ensures Pull(ys, n, k) == Pulled(k as real, n as real, ys[n], SumX(k), SumY(ys, k), SumXY(ys, k))
  {
    hide SumX, SumY, SumXY, Pulled, Times;
    if k == 0 {
      SumsStart(ys);
      NothingPulled(n as real, ys[n]);
    } else {
      var j := k - 1;
      PullExpands(ys, n, j);
      SumsStep(ys, j);
      assert (n - j) as real == n as real - j as real && k as real == j as real + 1.0;
      PullTerm(j as real, n as real, ys[n], ys[j], SumX(j), SumY(ys, j), SumXY(ys, j));
    }
  }

  lemma NothingPulled(n: real, yn: real)
    ensures Pulled(0.0, n, yn, 0.0, 0.0, 0.0) == 0.0
  {
    hide Times;
    TimesOne(Times(n, yn));
    TimesOne(yn);
    TimesOne(n);
  }

  lemma PullTerm(j: real, n: real, yn: real, yj: real, sx: real, sy: real, sxy: real)
    ensures Pulled(j, n, yn, sx, sy, sxy) + Times(n - j, yn - yj) ==
            Pulled(j + 1.0, n, yn, sx + j, sy + yj, sxy + Times(j, yj))
  {
    hide Times;
    TimesDifference(n - j, yn, yj);
    TimesDifference(yn, n, j);
    TimesDifference(yj, n, j);
    TimesSum(Times(n, yn), j, 1.0);
    TimesOne(Times(n, yn));
    TimesSum(yn, sx, j);
    TimesSum(n, sy, yj);
  }

  lemma NumeratorStep(ys: seq<real>, n: nat)
    requires n < |ys|
    ensures Numerator(ys, n + 1) == Numerator(ys, n) + Pull(ys, n, n)
  {
    hide SumX, SumY, SumXY, Pull, Pulled, Times, CoSpread;
    PullExpands(ys, n, n);
    SumsStep(ys, n);
    assert (n + 1) as real == n as real + 1.0;
    NumeratorTerm(n as real, ys[n], SumX(n), SumY(ys, n), SumXY(ys, n));
  }

  lemma NumeratorTerm(x: real, y: real, sx: real, sy: real, sxy: real)
    ensures CoSpread(x + 1.0, sxy + Times(x, y), sx + x, sy + y) ==
            CoSpread(x, sxy, sx, sy) + Pulled(x, x, y, sx, sy, sxy)
  {
    hide Times;
    var xy := Times(x, y);
    TimesSum(sxy + xy, x, 1.0);
    TimesOne(sxy + xy);
    TimesSum(x, sxy, xy);
    TimesSum(sy + y, sx, x);
    TimesSum(sx, sy, y);
    TimesSum(x, sy, y);
  }

  /** Every consecutive difference, in slice order, lies between `low` and `high`. */
  ghost predicate StepsWithin(ys: seq<real>, low: real, high: real) {
    forall i :: 0 <= i < |ys| - 1 ==> low <= ys[i + 1] - ys[i] <= high
  }

  /** `v` is between `low` and `high` times `u`. */
  ghost predicate Between(low: real, high: real, v: real, u: real) { Times(low, u) <= v <= Times(high, u) }

  lemma BetweenAdds(low: real, high: real, v: real, u: real, v': real, u': real)
    requires Between(low, high, v, u) && Between(low, high, v', u')
    ensures Between(low, high, v + v', u + u')
  {
    hide Times;
    TimesSum(low, u, u');
    TimesSum(high, u, u');
  }

  lemma BetweenTimes(low: real, high: real, v: real, u: real, d: real)
    requires Between(low, high, v, u) && d >= 0.0
    ensures Between(low, high, Times(d, v), Times(d, u))
  {
    hide Times;
    TimesPositive(d, v - Times(low, u));
    TimesPositive(d, Times(high, u) - v);
    TimesDifference(d, v, Times(low, u));
    TimesDifference(d, Times(high, u), v);
    TimesTwice(low, d, u);
    TimesTwice(high, d, u);
  }

  lemma {:induction false} StepsAddUp(ys: seq<real>, low: real, high: real, i: nat, j: nat)
    requires StepsWithin(ys, low, high) && i <= j < |ys|
    ensures Between(low, high, ys[j] - ys[i], j as real - i as real)
    decreases j
  {
    hide Times;
    if i == j {
      TimesOne(low);
      TimesOne(high);
    } else {
      StepsAddUp(ys, low, high, i, j - 1);
      StepWithin(ys, low, high, j - 1);
      hide Between;
      BetweenAdds(low, high, ys[j - 1] - ys[i], (j - 1) as real - i as real, ys[j] - ys[j - 1], 1.0);
      assert (j - 1) as real - i as real + 1.0 == j as real - i as real;
    }
  }

  lemma StepWithin(ys: seq<real>, low: real, high: real, j: nat)
    requires StepsWithin(ys, low, high) && j + 1 < |ys|
    ensures Between(low, high, ys[j + 1] - ys[j], 1.0)
  {
    hide Times;
    TimesOne(low);
    TimesOne(high);
  }

  /** The series 0, 1, 2, ...: its numerator is the denominator. */
  function Ramp(n: nat): (xs: seq<real>)
    ensures |xs| == n && forall i :: 0 <= i < n ==> xs[i] == i as real
  {
    seq(n, i => i as real)
  }

  lemma {:induction false} RampSums(m: nat, n: nat)
    requires n <= m
    ensures SumY(Ramp(m), n) == SumX(n) && SumXY(Ramp(m), n) == SumXX(n)
  {
    hide Times;
    if n > 0 {
      RampSums(m, n - 1);
    }
  }

  lemma TugBetween(ys: seq<real>, low: real, high: real, n: nat, j: nat)
    requires StepsWithin(ys, low, high) && j <= n < |ys|
    ensures Between(low, high, Tug(ys, n, j), Tug(Ramp(|ys|), n, j))
  {
    hide Times, Between, StepsWithin;
    var xs := Ramp(|ys|);
    StepsAddUp(ys, low, high, j, n);
    assert xs[n] - xs[j] == n as real - j as real;
    BetweenTimes(low, high, ys[n] - ys[j], xs[n] - xs[j], (n - j) as real);
  }

  /** Each new point pulls between `low` and `high` times as much as it would on the ramp. */
  lemma {:induction false} PullBetween(ys: seq<real>, low: real, high: real, n: nat, k: nat)
    requires StepsWithin(ys, low, high) && k <= n < |ys|
    ensures Between(low, high, Pull(ys, n, k), Pull(Ramp(|ys|), n, k))
  {
    if k == 0 {
      NoneBetween(low, high);
    } else {
      hide Between, Tug, StepsWithin;
      PullBetween(ys, low, high, n, k - 1);
      TugBetween(ys, low, high, n, k - 1);
      BetweenAdds(low, high, Pull(ys, n, k - 1), Pull(Ramp(|ys|), n, k - 1),
                  Tug(ys, n, k - 1), Tug(Ramp(|ys|), n, k - 1));
    }
  }

  lemma NoneBetween(low: real, high: real)
    ensures Between(low, high, 0.0, 0.0)
  {
    hide Times;
    TimesOne(low);
    TimesOne(high);
  }

  lemma {:induction false} NumeratorBetween(ys: seq<real>, low: real, high: real, n: nat)
    requires StepsWithin(ys, low, high) && n <= |ys|
    ensures Between(low, high, Numerator(ys, n), Numerator(Ramp(|ys|), n))
  {
    var xs := Ramp(|ys|);
    if n == 0 {
      hide Times;
      TimesOne(0.0);
      NoneBetween(low, high);
      assert Numerator(ys, 0) == 0.0 && Numerator(xs, 0) == 0.0;
    } else {
      hide Numerator, Pull, Between, StepsWithin, Ramp;
      NumeratorBetween(ys, low, high, n - 1);
      NumeratorStep(ys, n - 1);
      NumeratorStep(xs, n - 1);
      PullBetween(ys, low, high, n - 1, n - 1);
      BetweenAdds(low, high, Numerator(ys, n - 1), Numerator(xs, n - 1),
                  Pull(ys, n - 1, n - 1), Pull(xs, n - 1, n - 1));
    }
  }

  /** The regression slope lies between the smallest and the largest consecutive difference. */
  lemma SlopeBetweenSteps(ys: seq<real>, low: real, high: real)
    requires |ys| >= 2 && StepsWithin(ys, low, high)
    ensures low <= Slope(ys) <= high
  {
    hide Numerator, Denominator, Times, StepsWithin;
    DenominatorPositive(|ys|);
    NumeratorBetween(ys, low, high, |ys|);
    RampIsDenominator(|ys|);
    QuotientBetween(Numerator(ys, |ys|), Denominator(|ys|), low, high);
  }

  lemma RampIsDenominator(n: nat)
    ensures Numerator(Ramp(n), n) == Denominator(n)
  {
    hide Times, SumX, SumY, SumXX, SumXY;
    RampSums(n, n);
  }

  lemma Scale(a: real, b: real, l: real)
    requires l > 0.0
    ensures a >= b <==> a * l >= b * l
  {
    if a >= b {
      assert (a - b) * l >= 0.0;
    } else {
      assert (b - a) * l > 0.0;
    }
  }

  lemma QuotientBetween(num: real, den: real, low: real, high: real)
    requires den > 0.0 && Between(low, high, num, den)
    ensures low <= num / den <= high
  {
    var q := num / den;
    assert q * den == num;
    Scale(q, low, den);
    Scale(high, q, den);
  }

  // ------------------------------------------------------------------ reversing the series

  function Reversed(ys: seq<real>): (zs: seq<real>)
    ensures |zs| == |ys|
    ensures forall i :: 0 <= i < |ys| ==> zs[i] == ys[|ys| - 1 - i]
  {
    seq(|ys|, i requires 0 <= i < |ys| => ys[|ys| - 1 - i])
  }

  lemma {:induction false} ReversedSums(ys: seq<real>, k: nat)
    requires k <= |ys|
    ensures var n := |ys|;
            var head, rest := SumY(ys, n) - SumY(ys, n - k), SumXY(ys, n) - SumXY(ys, n - k);
            && SumY(Reversed(ys), k) == head
            && SumXY(Reversed(ys), k) == Times(n as real - 1.0, head) - rest
  {
    hide Times, SumX, SumY, SumXY;
    var n := |ys|;
    if k == 0 {
      SumsStart(Reversed(ys));
      TimesOne(n as real - 1.0);
    } else {
      var i, j := k - 1, n - k;
      ReversedSums(ys, i);
      assert n - i == j + 1;
      SumsStep(ys, j);
      SumsStep(Reversed(ys), i);
      assert Reversed(ys)[i] == ys[j] && i as real == (n as real - 1.0) - j as real;
      ReversedTerm(n as real - 1.0, j as real, SumY(ys, n) - SumY(ys, j + 1), ys[j]);
      assert SumY(ys, n) - SumY(ys, j) == SumY(ys, n) - SumY(ys, j + 1) + ys[j];
    }
  }

  lemma ReversedTerm(x: real, j: real, head: real, y: real)
    ensures Times(x, head) + Times(x - j, y) == Times(x, head + y) - Times(j, y)
  {
    hide Times;
    TimesDifference(y, x, j);
    TimesSum(x, head, y);
  }

  lemma ReversedTotals(ys: seq<real>)
    ensures SumY(Reversed(ys), |ys|) == SumY(ys, |ys|)
    ensures SumXY(Reversed(ys), |ys|) == Times(|ys| as real - 1.0, SumY(ys, |ys|)) - SumXY(ys, |ys|)
  {
    hide Times, SumX, SumY, SumXY;
    ReversedSums(ys, |ys|);
    SumsStart(ys);
    assert SumY(ys, |ys|) - SumY(ys, 0) == SumY(ys, |ys|);
  }

  /** Reading the same series backwards negates its slope. */
  lemma ReversedSlope(ys: seq<real>)
    requires |ys| >= 2
    ensures Slope(Reversed(ys)) == -Slope(ys)
  {
    hide Numerator, Denominator;
    DenominatorPositive(|ys|);
    ReversedNumerator(ys);
    NegatedQuotient(Numerator(ys, |ys|), Denominator(|ys|));
  }

  lemma ReversedNumerator(ys: seq<real>)
    ensures Numerator(Reversed(ys), |ys|) == -Numerator(ys, |ys|)
  {
    hide CoSpread, Times, Triangle, Pyramid, SumX, SumY, SumXX, SumXY;
    var n := |ys|;
    ReversedTotals(ys);
    ClosedForms(n);
    ReversedSpread(n as real, SumX(n), SumY(ys, n), SumXY(ys, n));
  }

  lemma ReversedSpread(x: real, sx: real, sy: real, sxy: real)
    requires 2.0 * sx == Triangle(x)
    ensures CoSpread(x, Times(x - 1.0, sy) - sxy, sx, sy) == -CoSpread(x, sxy, sx, sy)
  {
    assert Times(sx + sx, sy) == Times(Times(x, x - 1.0), sy);
    hide Times;
    TimesDifference(x, Times(x - 1.0, sy), sxy);
    TimesTwice(x, x - 1.0, sy);
    TimesSum(sy, sx, sx);
  }

  lemma NegatedQuotient(a: real, b: real)
    requires b > 0.0
    ensures (-a) / b == -(a / b)
  {
    var q := a / b;
    assert q * b == a;
    assert (-q) * b == -a;
  }

  // ------------------------------------------------------------------ the score

  function Min(a: real, b: real): real { if a < b then a else b }

  function Max(a: real, b: real): real { if a > b then a else b }

  /** math.Round: half away from zero. */
  function Round(x: real): real {
    if x >= 0.0 then (x + 0.5).Floor as real else -((-x + 0.5).Floor as real)
  }

  function TrendOf(slope: real): Trend {
    if slope > 0.5 then Worsening else if slope < -0.5 then Improving else Stable
  }

  function TrendValue(slope: real): real {
    if slope > 0.5 then Min(0.5 + slope * 0.2, 1.0)
    else if slope < -0.5 then Max(0.5 + slope * 0.2, 0.0)
    else 0.5
  }

  /** The trend of a history: fewer than three balances count as a flat one. */
  function HistorySlope(history: seq<real>): real {
    if |history| >= 3 then Slope(history) else 0.0
  }

  function LossRatio(lossPct: real, limit: Option<real>): real {
    var l := if limit.Some? then limit.value else 10.0;
    if l > 0.0 then lossPct / l else 0.0
  }

  function Composition(b: Balance): real {
    if b.technical.Some? && b.nonTechnical.Some? && b.technical.value + b.nonTechnical.value > 0.0
    then b.nonTechnical.value / (b.technical.value + b.nonTechnical.value)
    else 0.5
  }

  function Factor(name: string, weight: real, value: real): RiskFactor {
    RiskFactor(name, weight, value, weight * value)
  }

  function LossValue(b: Balance, limit: Option<real>): real { Min(LossRatio(b.lossPct, limit), 2.0) / 2.0 }

  function CountValue(ucCount: nat): real { Min(ucCount as real / 100.0, 1.0) }

  function QualityValue(b: Balance): real { if b.calculated then 1.0 else 0.0 }

  /** The five weighted factors of the score. */
  function Factors(b: Balance, history: seq<real>, limit: Option<real>, ucCount: nat): seq<RiskFactor> {
    [Factor("loss_vs_limit", 0.40, LossValue(b, limit)),
     Factor("loss_trend", 0.25, TrendValue(HistorySlope(history))),
     Factor("uc_count", 0.15, CountValue(ucCount)),
     Factor("loss_composition", 0.10, Composition(b)),
     Factor("data_quality", 0.10, QualityValue(b))]
  }

  function Contributions(fs: seq<RiskFactor>): real {
    if fs == [] then 0.0 else Contributions(fs[..|fs| - 1]) + fs[|fs| - 1].contribution
  }

  /** The weighted sum of the factors on the 0..100 scale, before the cap. */
  function UncappedScore(b: Balance, history: seq<real>, limit: Option<real>, ucCount: nat): real {
    Contributions(Factors(b, history, limit, ucCount)) * 100.0
  }

  /** The score before rounding. */
  function RawScore(b: Balance, history: seq<real>, limit: Option<real>, ucCount: nat): real {
    Min(UncappedScore(b, history, limit, ucCount), 100.0)
  }

  /** The score that is reported: rounded to two decimals. */
  function ReportedScore(b: Balance, history: seq<real>, limit: Option<real>, ucCount: nat): real {
    Round(RawScore(b, history, limit, ucCount) * 100.0) / 100.0
  }

  function LevelOf(score: real): Level {
    if score >= 80.0 then Critical else if score >= 60.0 then High else if score >= 40.0 then Medium else Low
  }

  /** The running sums of the source end in the regression slope. */
  method TrendSlope(history: seq<real>) returns (slope: real)
    requires |history| >= 3
    ensures slope == Slope(history)
  {
    hide Spread, CoSpread;
    var n := |history| as real;
    var sumX, sumY, sumXY, sumXX := 0.0, 0.0, 0.0, 0.0;
    for i := 0 to |history|
      invariant sumX == SumX(i) && sumXX == SumXX(i)
      invariant sumY == SumY(history, i) && sumXY == SumXY(history, i)
    {
      var x, y := i as real, history[i];
      sumX := sumX + x;
      sumY := sumY + y;
      sumXY := sumXY + x * y;
      sumXX := sumXX + x * x;
    }
    DenominatorPositive(|history|);
    slope := CoSpread(n, sumXY, sumX, sumY) / Spread(n, sumXX, sumX);
  }

  method CalculateRiskScore(current: Balance, history: seq<real>, limit: Option<real>, ucCount: nat)
    returns (r: RiskScore)
    ensures r.factors == Factors(current, history, limit, ucCount)
    ensures r.score == ReportedScore(current, history, limit, ucCount)
    ensures r.level == LevelOf(RawScore(current, history, limit, ucCount))
    ensures r.trend == TrendOf(HistorySlope(history))
  {
    hide Factor, Slope, Round, LevelOf, Contributions, Min, Max;
    var factors: seq<RiskFactor> := [];
    var lossLimit := if limit.Some? then limit.value else 10.0;
    var lossRatio := 0.0;
    if lossLimit > 0.0 {
      lossRatio := current.lossPct / lossLimit;
    }
    var lossFactorValue := Min(lossRatio, 2.0) / 2.0;
    factors := factors + [Factor("loss_vs_limit", 0.40, lossFactorValue)];

    var trendFactorValue, trendDirection := 0.5, Stable;
    if |history| >= 3 {
      var slope := TrendSlope(history);
      if slope > 0.5 {
        trendDirection := Worsening;
        trendFactorValue := Min(0.5 + slope * 0.2, 1.0);
      } else if slope < -0.5 {
        trendDirection := Improving;
        trendFactorValue := Max(0.5 + slope * 0.2, 0.0);
      }
    }
    factors := factors + [Factor("loss_trend", 0.25, trendFactorValue)];

    var ucFactorValue := Min(ucCount as real / 100.0, 1.0);
    factors := factors + [Factor("uc_count", 0.15, ucFactorValue)];

    var techLossFactorValue := 0.5;
    if current.technical.Some? && current.nonTechnical.Some? {
      var total := current.technical.value + current.nonTechnical.value;
      if total > 0.0 {
        techLossFactorValue := current.nonTechnical.value / total;
      }
    }
    factors := factors + [Factor("loss_composition", 0.10, techLossFactorValue)];

    var dataQualityValue := if current.calculated then 1.0 else 0.0;
    factors := factors + [Factor("data_quality", 0.10, dataQualityValue)];
    assert factors == Factors(current, history, limit, ucCount);

    var totalScore := SumContributions(factors);
    var score := Min(totalScore * 100.0, 100.0);
    r := RiskScore(Round(score * 100.0) / 100.0, LevelOf(score), trendDirection, factors);
  }

  /** The loop over the factors at the end of CalculateRiskScore. */
  method SumContributions(factors: seq<RiskFactor>) returns (totalScore: real)
    ensures totalScore == Contributions(factors)
  {
    totalScore := 0.0;
    for i := 0 to |factors|
      invariant totalScore == Contributions(factors[..i])
    {
      assert factors[..i + 1][..i] == factors[..i];
      totalScore := totalScore + factors[i].contribution;
    }
    assert factors[..|factors|] == factors;
  }

  // ------------------------------------------------------------------ what the score promises

  /** Uniformly steep histories, in slice order, are classified by their direction. */
  lemma SteepHistories(history: seq<real>)
    requires |history| >= 3
    ensures (exists low: real, high: real :: low > 0.5 && StepsWithin(history, low, high)) ==>
              TrendOf(HistorySlope(history)) == Worsening
    ensures (exists low: real, high: real :: high < -0.5 && StepsWithin(history, low, high)) ==>
              TrendOf(HistorySlope(history)) == Improving
    ensures StepsWithin(history, -0.5, 0.5) ==> TrendOf(HistorySlope(history)) == Stable
  {
    forall low: real, high: real | StepsWithin(history, low, high)
      ensures low <= Slope(history) <= high
    {
      SlopeBetweenSteps(history, low, high);
    }
  }

  /**
   The balances reach the score newest first. Read that way a history that worsens in time is
   reported as improving and the other way round; only a stable one is reported as it is.
   */
  lemma NewestFirstInverts(chronological: seq<real>)
    requires |chronological| >= 3
    ensures TrendOf(HistorySlope(Reversed(chronological))) ==
            match TrendOf(HistorySlope(chronological))
            case Worsening => Improving
            case Improving => Worsening
            case Stable => Stable
  {
    ReversedSlope(chronological);
  }

  lemma NegatedTrendValue(slope: real)
    ensures TrendValue(-slope) == 1.0 - TrendValue(slope)
  {
  }

  lemma ReversedHistorySlope(history: seq<real>)
    ensures HistorySlope(Reversed(history)) == -HistorySlope(history)
  {
    hide Slope;
    if |history| >= 3 {
      ReversedSlope(history);
    }
  }

  /**
   What the inverted order does to the score: a worsening history takes off as much as it was meant
   to add, ten points per point of slope and 25 at most, and an improving one adds it.
   */
  lemma NewestFirstShifts(b: Balance, chronological: seq<real>, limit: Option<real>, ucCount: nat)
    ensures var slope := HistorySlope(chronological);
            UncappedScore(b, Reversed(chronological), limit, ucCount) ==
            UncappedScore(b, chronological, limit, ucCount) +
            match TrendOf(slope)
            case Worsening => -2.0 * Min(5.0 * slope, 12.5)
            case Improving => 2.0 * Min(-5.0 * slope, 12.5)
            case Stable => 0.0
  {
    hide LossValue, CountValue, Composition, QualityValue, HistorySlope;
    ReversedHistorySlope(chronological);
    NegatedTrendValue(HistorySlope(chronological));
    SumOfFactors(b, chronological, limit, ucCount);
    SumOfFactors(b, Reversed(chronological), limit, ucCount);
  }

  /** Everything the score adds besides the current loss, on the 0..1 scale. */
  function OtherContributions(b: Balance, history: seq<real>, ucCount: nat): real {
    0.25 * TrendValue(HistorySlope(history)) + 0.15 * CountValue(ucCount) +
    0.10 * Composition(b) + 0.10 * QualityValue(b)
  }

  /** The weighted sum, written out. */
  lemma SumOfFactors(b: Balance, history: seq<real>, limit: Option<real>, ucCount: nat)
    ensures Contributions(Factors(b, history, limit, ucCount)) ==
            0.40 * LossValue(b, limit) + OtherContributions(b, history, ucCount)
  {
    hide LossValue, TrendValue, CountValue, Composition, QualityValue, HistorySlope;
    var fs := Factors(b, history, limit, ucCount);
    assert fs[..4][..3] == fs[..3] && fs[..3][..2] == fs[..2] && fs[..2][..1] == fs[..1] && fs[..1][..0] == [];
    assert Contributions(fs[..1]) == fs[0].contribution;
    assert Contributions(fs[..2]) == Contributions(fs[..1]) + fs[1].contribution;
    assert Contributions(fs[..3]) == Contributions(fs[..2]) + fs[2].contribution;
    assert Contributions(fs[..4]) == Contributions(fs[..3]) + fs[3].contribution;
  }

  lemma ScoreExpands(b: Balance, history: seq<real>, limit: Option<real>, ucCount: nat)
    ensures RawScore(b, history, limit, ucCount) ==
            Min((0.40 * LossValue(b, limit) + OtherContributions(b, history, ucCount)) * 100.0, 100.0)
  {
    hide Factors, Contributions, LossValue, OtherContributions;
    SumOfFactors(b, history, limit, ucCount);
  }

  ghost predicate LossesNonnegative(b: Balance) {
    && (b.technical.Some? ==> b.technical.value >= 0.0)
    && (b.nonTechnical.Some? ==> b.nonTechnical.value >= 0.0)
  }

  lemma OthersBetween(b: Balance, history: seq<real>, ucCount: nat)
    requires LossesNonnegative(b)
    ensures 0.0 <= OtherContributions(b, history, ucCount) <= 0.6
  {
    if b.technical.Some? && b.nonTechnical.Some? && b.technical.value + b.nonTechnical.value > 0.0 {
      QuotientBetween(b.nonTechnical.value, b.technical.value + b.nonTechnical.value, 0.0, 1.0);
    }
    assert 0.0 <= Composition(b) <= 1.0;
    assert 0.0 <= TrendValue(HistorySlope(history)) <= 1.0;
    assert 0.0 <= CountValue(ucCount) <= 1.0;
  }

  /** Rounding to two decimals keeps to the scale, and reaches it from less than 0.005 below zero. */
  lemma RoundedScore(x: real)
    ensures Round(x * 100.0) / 100.0 >= 0.0 <==> x > -0.005
    ensures x <= 100.0 ==> Round(x * 100.0) / 100.0 <= 100.0
  {
    var f, g := (x * 100.0 + 0.5).Floor, (-(x * 100.0) + 0.5).Floor;
    assert x >= 0.0 ==> f >= 0;
    assert x < 0.0 ==> (g >= 1 <==> x <= -0.005) && g >= 0;
    assert x <= 100.0 ==> f <= 10000;
  }

  lemma RoundMonotone(x: real, y: real)
    requires x <= y
    ensures Round(x * 100.0) / 100.0 <= Round(y * 100.0) / 100.0
  {
    var a, b := x * 100.0, y * 100.0;
    assert (a + 0.5).Floor <= (b + 0.5).Floor && (-b + 0.5).Floor <= (-a + 0.5).Floor;
    assert b >= 0.0 ==> (b + 0.5).Floor >= 0;
    assert a < 0.0 ==> (-a + 0.5).Floor >= 0;
  }

  /** The documented scale 0..100 holds for every nonnegative loss; the cap holds for every input. */
  lemma ScoreWithinScale(b: Balance, history: seq<real>, limit: Option<real>, ucCount: nat)
    requires LossesNonnegative(b)
    ensures RawScore(b, history, limit, ucCount) <= 100.0
    ensures ReportedScore(b, history, limit, ucCount) <= 100.0
    ensures b.lossPct >= 0.0 ==> ReportedScore(b, history, limit, ucCount) >= 0.0
  {
    hide OtherContributions, Round;
    OthersBetween(b, history, ucCount);
    ScoreExpands(b, history, limit, ucCount);
    RoundedScore(RawScore(b, history, limit, ucCount));
    if b.lossPct >= 0.0 {
      var l := if limit.Some? then limit.value else 10.0;
      if l > 0.0 {
        DivisionMonotone(0.0, b.lossPct, l);
      }
      assert RawScore(b, history, limit, ucCount) >= 0.0;
    }
  }

  lemma DivisionMonotone(a: real, b: real, l: real)
    requires l > 0.0
    ensures a <= b <==> a / l <= b / l
    ensures 0.0 / l == 0.0
  {
    assert a / l * l == a && b / l * l == b;
    Scale(b / l, a / l, l);
  }

  /**
   The reported score leaves the scale below zero exactly when more was billed than injected and the
   loss is too negative for the other factors, and for rounding, to make up for.
   */
  lemma ScoreNonnegativeIff(b: Balance, history: seq<real>, limit: Option<real>, ucCount: nat)
    requires LossesNonnegative(b)
    ensures var l := if limit.Some? then limit.value else 10.0;
            ReportedScore(b, history, limit, ucCount) >= 0.0 <==>
            l <= 0.0 || b.lossPct / l > -5.0 * OtherContributions(b, history, ucCount) - 0.00025
  {
    hide OtherContributions, Round;
    OthersBetween(b, history, ucCount);
    ScoreExpands(b, history, limit, ucCount);
    RoundedScore(RawScore(b, history, limit, ucCount));
  }

  /**
   A balance with -200% loss against the default 10% limit is reported below zero; with -13.7505% the
   sum is still negative, and what is reported is not.
   */
  lemma NegativeScoreExists()
    ensures ReportedScore(Balance(-200.0, None, None, true), [], None, 0) < 0.0
    ensures RawScore(Balance(-13.7505, None, None, true), [], None, 0) < 0.0
    ensures ReportedScore(Balance(-13.7505, None, None, true), [], None, 0) >= 0.0
  {
    hide ReportedScore;
    var b := Balance(-13.7505, None, None, true);
    ScoreNonnegativeIff(Balance(-200.0, None, None, true), [], None, 0);
    ScoreNonnegativeIff(b, [], None, 0);
    ScoreExpands(b, [], None, 0);
  }

  /** With everything else equal, a higher current loss never lowers the score. */
  lemma MoreLossNeverScoresLower(b: Balance, lossPct: real, history: seq<real>, limit: Option<real>, ucCount: nat)
    requires b.lossPct <= lossPct
    ensures RawScore(b, history, limit, ucCount) <= RawScore(b.(lossPct := lossPct), history, limit, ucCount)
    ensures ReportedScore(b, history, limit, ucCount) <= ReportedScore(b.(lossPct := lossPct), history, limit, ucCount)
  {
    hide TrendValue, CountValue, HistorySlope, RawScore, Round;
    var l := if limit.Some? then limit.value else 10.0;
    ScoreExpands(b, history, limit, ucCount);
    ScoreExpands(b.(lossPct := lossPct), history, limit, ucCount);
    if l > 0.0 {
      DivisionMonotone(b.lossPct, lossPct, l);
    }
    RoundMonotone(RawScore(b, history, limit, ucCount), RawScore(b.(lossPct := lossPct), history, limit, ucCount));
  }

  /** The quotient of the non-technical part grows with it. */
  lemma PartGrows(t: real, x: real, y: real)
    requires t >= 0.0 && 0.0 <= x <= y && t + x > 0.0
    ensures x / (t + x) <= y / (t + y) <= 1.0
  {
    var p, q := x / (t + x), y / (t + y);
    assert p * (t + x) == x && q * (t + y) == y;
    QuotientBetween(x, t + x, 0.0, 1.0);
    QuotientBetween(y, t + y, 0.0, 1.0);
    assert t * (y - x) >= 0.0;
    assert y * (t + x) >= x * (t + y);
    ShareGrows(p, q, t + x, t + y, x, y);
  }

  lemma ShareGrows(p: real, q: real, a: real, b: real, x: real, y: real)
    requires a > 0.0 && b > 0.0 && p * a == x && q * b == y && y * a >= x * b
    ensures p <= q
  {
    assert (q * b) * a >= (p * a) * b;
    assert q * (a * b) >= p * (a * b);
    assert a * b > 0.0;
    Scale(q, p, a * b);
  }

  lemma MoreNonTechnicalIsMore(b: Balance, more: real)
    requires LossesNonnegative(b) && b.technical.Some? && b.nonTechnical.Some? && b.nonTechnical.value <= more
    ensures Composition(b) <= Composition(b.(nonTechnical := Some(more)))
  {
    if b.technical.value + b.nonTechnical.value > 0.0 {
      PartGrows(b.technical.value, b.nonTechnical.value, more);
    } else if more > 0.0 {
      assert Composition(b.(nonTechnical := Some(more))) == more / more;
    }
  }

  /** With everything else equal, more non-technical loss never lowers the score. */
  lemma MoreNonTechnicalNeverScoresLower(b: Balance, more: real, history: seq<real>, limit: Option<real>, ucCount: nat)
    requires LossesNonnegative(b) && b.technical.Some? && b.nonTechnical.Some? && b.nonTechnical.value <= more
    ensures Composition(b) <= Composition(b.(nonTechnical := Some(more)))
    ensures RawScore(b, history, limit, ucCount) <= RawScore(b.(nonTechnical := Some(more)), history, limit, ucCount)
    ensures ReportedScore(b, history, limit, ucCount) <= ReportedScore(b.(nonTechnical := Some(more)), history, limit, ucCount)
  {
    hide Composition, TrendValue, CountValue, HistorySlope, RawScore, Round;
    var worse := b.(nonTechnical := Some(more));
    MoreNonTechnicalIsMore(b, more);
    ScoreExpands(b, history, limit, ucCount);
    ScoreExpands(worse, history, limit, ucCount);
    RoundMonotone(RawScore(b, history, limit, ucCount), RawScore(worse, history, limit, ucCount));
  }

  /** Nor do more consumer units, of which the first hundred count. */
  lemma MoreUnitsNeverScoreLower(b: Balance, history: seq<real>, limit: Option<real>, ucCount: nat, more: nat)
    requires ucCount <= more
    ensures RawScore(b, history, limit, ucCount) <= RawScore(b, history, limit, more)
    ensures ReportedScore(b, history, limit, ucCount) <= ReportedScore(b, history, limit, more)
    ensures UncappedScore(b, history, limit, more) - UncappedScore(b, history, limit, ucCount) ==
            0.15 * ((if more < 100 then more else 100) - if ucCount < 100 then ucCount else 100) as real
  {
    SumOfFactors(b, history, limit, ucCount);
    SumOfFactors(b, history, limit, more);
    hide Composition, TrendValue, LossValue, QualityValue, HistorySlope, Round, Contributions, Factors;
    RoundMonotone(RawScore(b, history, limit, ucCount), RawScore(b, history, limit, more));
  }

  /** The loss counts 20 points per limit, up to twice the limit; what is lost above that adds nothing. */
  lemma LossCountsUpToTwiceTheLimit(b: Balance, lossPct: real, history: seq<real>, limit: Option<real>, ucCount: nat)
    ensures var l := if limit.Some? then limit.value else 10.0;
            UncappedScore(b.(lossPct := lossPct), history, limit, ucCount) - UncappedScore(b, history, limit, ucCount) ==
            if l > 0.0 then 20.0 * (Min(lossPct / l, 2.0) - Min(b.lossPct / l, 2.0)) else 0.0
  {
    SumOfFactors(b, history, limit, ucCount);
    SumOfFactors(b.(lossPct := lossPct), history, limit, ucCount);
    assert Composition(b.(lossPct := lossPct)) == Composition(b);
    hide Composition, TrendValue, CountValue, HistorySlope, Contributions, Factors;
  }

  /** Known losses count by the share of the non-technical ones, unknown ones as half. */
  lemma CompositionCounts(b: Balance, technical: real, nonTechnical: real, history: seq<real>, limit: Option<real>,
                          ucCount: nat)
    ensures var known := b.(technical := Some(technical), nonTechnical := Some(nonTechnical));
            forall unknown: Option<real> ::
              UncappedScore(known, history, limit, ucCount) -
              UncappedScore(b.(technical := None, nonTechnical := unknown), history, limit, ucCount) ==
              if technical + nonTechnical > 0.0 then 10.0 * (nonTechnical / (technical + nonTechnical)) - 5.0 else 0.0
  {
    var known := b.(technical := Some(technical), nonTechnical := Some(nonTechnical));
    SumOfFactors(known, history, limit, ucCount);
    assert LossValue(known, limit) == LossValue(b, limit);
    forall unknown: Option<real>
      ensures UncappedScore(known, history, limit, ucCount) -
              UncappedScore(b.(technical := None, nonTechnical := unknown), history, limit, ucCount) ==
              10.0 * Composition(known) - 5.0
    {
      var other := b.(technical := None, nonTechnical := unknown);
      SumOfFactors(other, history, limit, ucCount);
      assert LossValue(other, limit) == LossValue(b, limit);
      assert Composition(other) == 0.5;
      hide Composition, TrendValue, CountValue, LossValue, HistorySlope, Contributions, Factors;
    }
  }

  /** Nothing lost, no history, no units, nothing known, never calculated: the defaults alone score 17.5. */
  lemma DefaultsScore(b: Balance, history: seq<real>, limit: Option<real>)
    requires b.lossPct == 0.0 && b.technical == None && !b.calculated && |history| < 3
    ensures UncappedScore(b, history, limit, 0) == 17.5
    ensures ReportedScore(b, history, limit, 0) == 17.5
  {
    SumOfFactors(b, history, limit, 0);
    hide Contributions, Factors;
  }

  function Hundredths(n: int): real { n as real / 100.0 }

  /** What is reported is the score in hundredths, halves rounded away from zero. */
  lemma ReportedIsNear(b: Balance, history: seq<real>, limit: Option<real>, ucCount: nat)
    ensures var raw, reported := RawScore(b, history, limit, ucCount), ReportedScore(b, history, limit, ucCount);
            && (raw >= 0.0 ==> raw - 0.005 < reported <= raw + 0.005)
            && (raw <= 0.0 ==> raw - 0.005 <= reported < raw + 0.005)
            && exists n: int :: reported == Hundredths(n)
  {
    var raw := RawScore(b, history, limit, ucCount);
    RoundsHalvesAway(raw * 100.0);
    hide RawScore, Round;
    var n := Round(raw * 100.0).Floor;
    assert ReportedScore(b, history, limit, ucCount) == Hundredths(n);
  }

  lemma RoundsHalvesAway(x: real)
    ensures x >= 0.0 ==> x - 0.5 < Round(x) <= x + 0.5
    ensures x <= 0.0 ==> x - 0.5 <= Round(x) < x + 0.5
    ensures Round(x).Floor as real == Round(x)
  {
    if x >= 0.0 {
      var n := (x + 0.5).Floor;
      assert Round(x) == n as real;
    } else {
      var n := (-x + 0.5).Floor;
      assert Round(x) == (-n) as real;
    }
  }

  /** A calculated balance scores ten points more than one that never was. */
  lemma CalculatedCounts(b: Balance, history: seq<real>, limit: Option<real>, ucCount: nat)
    ensures UncappedScore(b.(calculated := true), history, limit, ucCount) -
            UncappedScore(b.(calculated := false), history, limit, ucCount) == 10.0
  {
    SumOfFactors(b.(calculated := true), history, limit, ucCount);
    SumOfFactors(b.(calculated := false), history, limit, ucCount);
    assert Composition(b.(calculated := true)) == Composition(b.(calculated := false));
    assert LossValue(b.(calculated := true), limit) == LossValue(b.(calculated := false), limit);
    hide Composition, TrendValue, CountValue, LossValue, HistorySlope, Contributions, Factors;
  }

  /** The levels tile the scale at 40, 60 and 80. */
  lemma LevelsBegin(score: real)
    ensures LevelOf(score) == Critical <==> score >= 80.0
    ensures LevelOf(score) == High <==> 60.0 <= score < 80.0
    ensures LevelOf(score) == Medium <==> 40.0 <= score < 60.0
    ensures LevelOf(score) == Low <==> score < 40.0
  {
  }
}
