/**
 Number text: the reader of imported cells (`ParseNumber`, internal/ingestion/tabular.go) against the
 printer of the exports (`formatBR`, internal/usecase/export_usecase.go).

 A printed value is a sign, a magnitude and a number of decimals: `magnitude / 10^decimals`. Parsed
 values are reals; the exponent, hexadecimal and infinity forms of strconv.ParseFloat are not read.
 */
module Numbers {
  import opened Prelude

  // ------------------------------------------------------------------ text primitives

  function RemoveAll(s: string, c: char): string {
    if s == "" then ""
    else if s[0] == c then RemoveAll(s[1..], c)
    else [s[0]] + RemoveAll(s[1..], c)
  }

  function Count(s: string, c: char): nat {
    if s == "" then 0 else (if s[0] == c then 1 else 0) + Count(s[1..], c)
  }

  /** strings.Index of one character. */
  function FirstIndex(s: string, c: char): (r: int)
    ensures -1 <= r < |s|
    ensures r < 0 ==> forall j :: 0 <= j < |s| ==> s[j] != c
    ensures r >= 0 ==> s[r] == c && forall j :: 0 <= j < r ==> s[j] != c
  {
    if s == "" then -1
    else if s[0] == c then 0
    else
      var r := FirstIndex(s[1..], c);
      if r < 0 then -1 else r + 1
  }

  /** strings.LastIndex of one character. */
  function LastIndex(s: string, c: char): (r: int)
    ensures -1 <= r < |s|
    ensures r < 0 ==> forall j :: 0 <= j < |s| ==> s[j] != c
    ensures r >= 0 ==> s[r] == c && forall j :: r < j < |s| ==> s[j] != c
  {
    if s == "" then -1
    else if s[|s| - 1] == c then |s| - 1
    else LastIndex(s[..|s| - 1], c)
  }

  /** strings.Replace(s, old, new, 1) for characters. */
  function ReplaceFirst(s: string, c: char, to: char): string {
    var i := FirstIndex(s, c);
    if i < 0 then s else s[i := to]
  }

  const NBSP: char := '\U{00A0}'

  predicate IsSpace(c: char) {
    c in {' ', '\t', '\n', '\r', '\U{000B}', '\U{000C}', '\U{0085}', NBSP}
  }

  function TrimLeft(s: string): string {
    if s != "" && IsSpace(s[0]) then TrimLeft(s[1..]) else s
  }

  function TrimRight(s: string): string {
    if s != "" && IsSpace(s[|s| - 1]) then TrimRight(s[..|s| - 1]) else s
  }

  function TrimSpace(s: string): string { TrimRight(TrimLeft(s)) }

  // ------------------------------------------------------------------ digits

  predicate IsDigit(c: char) { '0' <= c <= '9' }

  predicate AllDigits(s: string) { forall i :: 0 <= i < |s| ==> IsDigit(s[i]) }

  function DigitValue(c: char): nat
    requires IsDigit(c)
  {
    c as int - '0' as int
  }

  function Pow10(k: nat): (p: nat)
    ensures p >= 1
  {
    if k == 0 then 1 else 10 * Pow10(k - 1)
  }

  /** The number a digit string denotes. */
  function Value(s: string): nat
    requires AllDigits(s)
  {
    if s == "" then 0 else Value(s[..|s| - 1]) * 10 + DigitValue(s[|s| - 1])
  }

  function DigitChar(d: nat): (c: char)
    requires d < 10
    ensures IsDigit(c) && DigitValue(c) == d
  {
    ('0' as int + d) as char
  }

  /** The `k` last decimal digits of `n`, padded with zeros. */
  function Fixed(n: nat, k: nat): (s: string)
    ensures |s| == k && AllDigits(s)
  {
    if k == 0 then "" else Fixed(n / 10, k - 1) + [DigitChar(n % 10)]
  }

  /** The decimal digits of `n`, without leading zeros. */
  function Digits(n: nat): (s: string)
    ensures |s| >= 1 && AllDigits(s)
  {
    if n < 10 then [DigitChar(n)] else Digits(n / 10) + [DigitChar(n % 10)]
  }

  lemma {:induction false} DigitsDenote(n: nat)
    ensures Value(Digits(n)) == n
  {
    var s := Digits(n);
    if n < 10 {
      assert s[..0] == "";
    } else {
      DigitsDenote(n / 10);
      assert s[..|s| - 1] == Digits(n / 10);
    }
  }

  /** `n` without its `k` last digits. */
  function Shifted(n: nat, k: nat): nat {
    if k == 0 then n else Shifted(n / 10, k - 1)
  }

  /** A magnitude is its integer digits followed by its decimals. */
  lemma {:induction false} FixedDenotes(n: nat, k: nat)
    ensures n == Shifted(n, k) * Pow10(k) + Value(Fixed(n, k))
  {
    if k > 0 {
      FixedDenotes(n / 10, k - 1);
      var s := Fixed(n, k);
      assert s[..|s| - 1] == Fixed(n / 10, k - 1);
      TimesTen(Shifted(n, k), Pow10(k - 1));
    }
  }

  lemma TimesTen(a: int, p: int)
    ensures (a * p) * 10 == a * (10 * p)
  {
  }

  lemma {:induction false} ValueConcat(a: string, b: string)
    requires AllDigits(a) && AllDigits(b)
    ensures AllDigits(a + b)
    ensures Value(a + b) == Value(a) * Pow10(|b|) + Value(b)
  {
    if b == "" {
      assert a + b == a;
    } else {
      var b' := b[..|b| - 1];
      ValueConcat(a, b');
      assert (a + b)[..|a + b| - 1] == a + b';
      TimesTen(Value(a), Pow10(|b'|));
    }
  }

  /** `Digits(n)` has more than `k` digits exactly when `n >= 10^k`. */
  lemma {:induction false} DigitsLength(n: nat, k: nat)
    requires k >= 1
    ensures |Digits(n)| > k <==> n >= Pow10(k)
  {
    if n < 10 {
      assert Pow10(k) == 10 * Pow10(k - 1);
    } else if k == 1 {
      assert Pow10(1) == 10 * Pow10(0);
    } else {
      DigitsLength(n / 10, k - 1);
      assert Pow10(k) == 10 * Pow10(k - 1);
      assert n / 10 >= Pow10(k - 1) <==> n >= 10 * Pow10(k - 1);
    }
  }

  // ------------------------------------------------------------------ reading

  /** Decimal notation with an optional sign and at most one point; anything else is an error. */
  function ParseFloat(s: string): Result<real, string> {
    if s != "" && s[0] == '-' then ParseUnsigned(true, s[1..])
    else if s != "" && s[0] == '+' then ParseUnsigned(false, s[1..])
    else ParseUnsigned(false, s)
  }

  function ParseUnsigned(neg: bool, body: string): Result<real, string> {
    var dot := FirstIndex(body, '.');
    var whole := if dot >= 0 then body[..dot] else body;
    var frac := if dot >= 0 then body[dot + 1..] else "";
    if AllDigits(whole) && AllDigits(frac) && whole + frac != "" then
      Ok(Scaled(neg, Value(whole + frac), |frac|))
    else
      Err("número inválido")
  }

  /** The value `±magnitude / 10^decimals`. */
  function Scaled(neg: bool, magnitude: nat, decimals: nat): real {
    var v := magnitude as real / Pow10(decimals) as real;
    if neg then -v else v
  }

  /** Chooses which separators are grouping and which one is the decimal mark. */
  function Canonical(s: string): string {
    var lastComma, lastDot := LastIndex(s, ','), LastIndex(s, '.');
    if lastComma >= 0 && lastDot >= 0 then
      if lastComma > lastDot then ReplaceFirst(RemoveAll(s, '.'), ',', '.') else RemoveAll(s, ',')
    else if lastComma >= 0 then
      if Count(s, ',') > 1 then RemoveAll(s, ',') else ReplaceFirst(s, ',', '.')
    else if Count(s, '.') > 1 then RemoveAll(s, '.')
    else s
  }

  function ParseNumber(raw: string): Result<real, string> {
    var s := RemoveAll(RemoveAll(TrimSpace(raw), ' '), NBSP);
    if s == "" then Err("valor vazio") else ParseFloat(Canonical(s))
  }

  // ------------------------------------------------------------------ printing

  function Sign(neg: bool): string { if neg then "-" else "" }

  /** The decimals after their mark, or nothing. */
  function Decimals(mark: char, magnitude: nat, decimals: nat): string {
    if decimals == 0 then "" else [mark] + Fixed(magnitude, decimals)
  }

  /** fmt.Sprintf("%.*f", decimals, v) for the value `±magnitude / 10^decimals`. */
  function PlainDecimal(neg: bool, magnitude: nat, decimals: nat): string {
    Sign(neg) + Unsigned(magnitude, decimals)
  }

  function Unsigned(magnitude: nat, decimals: nat): string {
    Digits(Shifted(magnitude, decimals)) + Decimals('.', magnitude, decimals)
  }

  /** Groups of three digits, counted from the right. */
  function Grouped(ds: string, sep: string): string {
    if |ds| <= 3 then ds else Grouped(ds[..|ds| - 3], sep) + sep + ds[|ds| - 3..]
  }

  /** A number with the digit groups split by `sep` and the decimals after `mark`. */
  function Notation(neg: bool, magnitude: nat, decimals: nat, sep: string, mark: char): string {
    Sign(neg) + (Grouped(Digits(Shifted(magnitude, decimals)), sep) + Decimals(mark, magnitude, decimals))
  }

  /** What the loop of formatBR has written after the first `i` digits. */
  function Written(ds: string, i: nat): string
    requires i <= |ds|
  {
    if i == 0 then ""
    else if i - 1 > 0 && (|ds| - (i - 1)) % 3 == 0 then Written(ds, i - 1) + ['.'] + [ds[i - 1]]
    else Written(ds, i - 1) + [ds[i - 1]]
  }

  lemma {:induction false} WrittenPrefix(ds: string, head: string, i: nat)
    requires head <= ds && (|ds| - |head|) % 3 == 0 && i <= |head|
    ensures Written(ds, i) == Written(head, i)
  {
    if i > 0 {
      WrittenPrefix(ds, head, i - 1);
    }
  }

  lemma WrittenStep(ds: string, i: nat)
    requires i < |ds|
    ensures Written(ds, i + 1) ==
            if i > 0 && (|ds| - i) % 3 == 0 then Written(ds, i) + ['.'] + [ds[i]] else Written(ds, i) + [ds[i]]
  {
  }

  /** The last group: a separator, then three digits without one. */
  lemma WrittenLastGroup(ds: string)
    requires |ds| > 3
    ensures Written(ds, |ds|) == Written(ds, |ds| - 3) + ['.'] + ds[|ds| - 3..]
  {
    hide Written;
    var n := |ds|;
    WrittenStep(ds, n - 3);
    WrittenStep(ds, n - 2);
    WrittenStep(ds, n - 1);
    LastThree(Written(ds, n - 3) + ['.'], ds);
  }

  lemma LastThree(w: string, ds: string)
    requires |ds| > 3
    ensures w + ds[|ds| - 3..] == w + [ds[|ds| - 3]] + [ds[|ds| - 2]] + [ds[|ds| - 1]]
  {
  }

  lemma {:induction false} WrittenIsGrouped(ds: string)
    ensures Written(ds, |ds|) == Grouped(ds, ".")
  {
    var n := |ds|;
    if n <= 3 {
      WrittenShort(ds, n);
    } else {
      hide Written;
      WrittenLastGroup(ds);
      WrittenIsGrouped(ds[..n - 3]);
      WrittenPrefix(ds, ds[..n - 3], n - 3);
    }
  }

  lemma {:induction false} WrittenShort(ds: string, i: nat)
    requires i <= |ds| <= 3
    ensures Written(ds, i) == ds[..i]
  {
    if i > 0 {
      WrittenShort(ds, i - 1);
      assert ds[..i] == ds[..i - 1] + [ds[i - 1]];
    }
  }

  /** The first occurrence of a mark that the text before it does not contain. */
  lemma SplitAt(head: string, mark: char, tail: string)
    requires mark !in head
    ensures var s := head + ([mark] + tail);
            FirstIndex(s, mark) == |head| && s[..|head|] == head && s[|head| + 1..] == tail
  {
    var s := head + ([mark] + tail);
    assert s[|head|] == mark;
    assert forall j :: 0 <= j < |head| ==> s[j] == head[j];
  }

  /** The sign comes off first: the rest starts with a digit. */
  lemma SignSplits(neg: bool, body: string)
    requires body != "" && IsDigit(body[0])
    ensures var s := Sign(neg) + body;
            s != "" && (neg <==> s[0] == '-') && body == if neg then s[1..] else s
  {
    assert Sign(neg) + body == if neg then ['-'] + body else body;
  }

  /** Cutting an unsigned text at its point finds the integer digits and the decimals. */
  lemma PointSplits(ds: string, tail: string)
    requires AllDigits(ds) && ds != ""
    ensures var body := if tail == "" then ds else ds + ['.'] + tail;
            var i := FirstIndex(body, '.');
            && body != "" && IsDigit(body[0])
            && (if i >= 0 then tail != "" && body[..i] == ds && body[i + 1..] == tail else tail == "" && body == ds)
  {
    if tail != "" {
      SplitAt(ds, '.', tail);
      assert ds + ['.'] + tail == ds + (['.'] + tail);
    }
  }

  /** The unsigned text is its digits, with the decimals after the point if there are any. */
  lemma UnsignedParts(magnitude: nat, decimals: nat)
    ensures var ds, tail := Digits(Shifted(magnitude, decimals)), Fixed(magnitude, decimals);
            Unsigned(magnitude, decimals) == if tail == "" then ds else ds + ['.'] + tail
  {
    hide Digits, Fixed, Shifted;
    var ds, tail := Digits(Shifted(magnitude, decimals)), Fixed(magnitude, decimals);
    if decimals > 0 {
      assert ds + ['.'] + tail == ds + (['.'] + tail);
    } else {
      assert ds + "" == ds;
    }
  }

  lemma Assembled(neg: bool, magnitude: nat, decimals: nat, sep: string, mark: char)
    ensures var g := Grouped(Digits(Shifted(magnitude, decimals)), sep);
            var body := if decimals == 0 then g else g + ([mark] + Fixed(magnitude, decimals));
            Notation(neg, magnitude, decimals, sep, mark) == if neg then ['-'] + body else body
  {
    hide Digits, Shifted, Fixed, Grouped;
  }

  /** The digit loop of formatBR. */
  method WriteGroups(intPart: string) returns (b: string)
    ensures b == Grouped(intPart, ".")
  {
    b := "";
    for i := 0 to |intPart|
      invariant b == Written(intPart, i)
    {
      if i > 0 && (|intPart| - i) % 3 == 0 {
        b := b + ['.'];
      }
      b := b + [intPart[i]];
    }
    WrittenIsGrouped(intPart);
  }

  /** formatBR: regroups the plain decimal text with Brazilian separators. */
  method FormatBR(neg: bool, magnitude: nat, decimals: nat) returns (out: string)
    ensures out == Notation(neg, magnitude, decimals, ".", ',')
  {
    hide Digits, Fixed, FirstIndex, Shifted, Grouped, Unsigned, Decimals, Sign, Notation;
    var s := PlainDecimal(neg, magnitude, decimals);
    UnsignedParts(magnitude, decimals);
    PointSplits(Digits(Shifted(magnitude, decimals)), Fixed(magnitude, decimals));
    SignSplits(neg, Unsigned(magnitude, decimals));
    var hasMinus := s != "" && s[0] == '-';
    if hasMinus {
      s := s[1..];
    }
    var intPart, frac := s, "";
    var i := FirstIndex(s, '.');
    if i >= 0 {
      intPart, frac := s[..i], s[i + 1..];
    }
    assert intPart == Digits(Shifted(magnitude, decimals)) && frac == Fixed(magnitude, decimals);
    out := WriteGroups(intPart);
    if frac != "" {
      out := out + ([','] + frac);
    }
    Assembled(neg, magnitude, decimals, ".", ',');
    if hasMinus {
      out := ['-'] + out;
    }
  }

  // ------------------------------------------------------------------ separators inside printed text

  lemma {:induction false} RemoveAllConcat(a: string, b: string, c: char)
    ensures RemoveAll(a + b, c) == RemoveAll(a, c) + RemoveAll(b, c)
  {
    if a == "" {
      assert a + b == b;
    } else {
      assert (a + b)[0] == a[0] && (a + b)[1..] == a[1..] + b;
      RemoveAllConcat(a[1..], b, c);
      if a[0] != c {
        assert [a[0]] + (RemoveAll(a[1..], c) + RemoveAll(b, c)) == [a[0]] + RemoveAll(a[1..], c) + RemoveAll(b, c);
      }
    }
  }

  lemma {:induction false} RemoveAbsent(s: string, c: char)
    requires c !in s
    ensures RemoveAll(s, c) == s && Count(s, c) == 0
  {
    if s != "" {
      assert s == [s[0]] + s[1..];
      RemoveAbsent(s[1..], c);
    }
  }

  lemma {:induction false} CountConcat(a: string, b: string, c: char)
    ensures Count(a + b, c) == Count(a, c) + Count(b, c)
  {
    if a == "" {
      assert a + b == b;
    } else {
      CountConcat(a[1..], b, c);
      assert (a + b)[1..] == a[1..] + b;
    }
  }

  /** No character of a digit string is a separator, a sign or a space. */
  lemma DigitsOnly(ds: string, c: char)
    requires AllDigits(ds) && !IsDigit(c)
    ensures c !in ds && RemoveAll(ds, c) == ds && Count(ds, c) == 0
  {
    RemoveAbsent(ds, c);
  }

  lemma OneCharacter(x: char, c: char)
    ensures RemoveAll([x], c) == (if x == c then "" else [x])
    ensures Count([x], c) == if x == c then 1 else 0
  {
    assert [x][1..] == "";
  }

  /** Removing the separator restores the digits; another character was never there. */
  lemma {:induction false} UngroupDigits(ds: string, sep: char, c: char)
    requires AllDigits(ds) && !IsDigit(sep) && !IsDigit(c)
    ensures RemoveAll(Grouped(ds, [sep]), c) == if c == sep then ds else Grouped(ds, [sep])
  {
    if |ds| <= 3 {
      DigitsOnly(ds, c);
    } else {
      hide RemoveAll;
      var head, last := ds[..|ds| - 3], ds[|ds| - 3..];
      UngroupDigits(head, sep, c);
      DigitsOnly(last, c);
      OneCharacter(sep, c);
      RemoveAllConcat(Grouped(head, [sep]) + [sep], last, c);
      RemoveAllConcat(Grouped(head, [sep]), [sep], c);
      assert ds == head + "" + last;
    }
  }

  lemma {:induction false} CountGroups(ds: string, sep: char, c: char)
    requires AllDigits(ds) && !IsDigit(sep) && !IsDigit(c)
    ensures Count(Grouped(ds, [sep]), c) == if c == sep && |ds| > 0 then (|ds| - 1) / 3 else 0
  {
    if |ds| <= 3 {
      DigitsOnly(ds, c);
    } else {
      hide Count;
      var head, last := ds[..|ds| - 3], ds[|ds| - 3..];
      CountGroups(head, sep, c);
      DigitsOnly(last, c);
      OneCharacter(sep, c);
      CountConcat(Grouped(head, [sep]) + [sep], last, c);
      CountConcat(Grouped(head, [sep]), [sep], c);
    }
  }

  lemma {:induction false} GroupedWithoutSeparator(ds: string)
    ensures Grouped(ds, "") == ds
  {
    if |ds| > 3 {
      GroupedWithoutSeparator(ds[..|ds| - 3]);
      assert ds == ds[..|ds| - 3] + "" + ds[|ds| - 3..];
    }
  }

  lemma {:induction false} GroupedEnds(ds: string, sep: string)
    requires AllDigits(ds) && ds != ""
    ensures Grouped(ds, sep) != "" && IsDigit(Grouped(ds, sep)[0])
    ensures IsDigit(Grouped(ds, sep)[|Grouped(ds, sep)| - 1])
  {
    if |ds| > 3 {
      GroupedEnds(ds[..|ds| - 3], sep);
    }
  }

  // ------------------------------------------------------------------ plain text reads back

  lemma SignOff(neg: bool, body: string)
    requires body != "" && IsDigit(body[0])
    ensures ParseFloat(Sign(neg) + body) == ParseUnsigned(neg, body)
  {
    assert Sign(neg) + body == if neg then ['-'] + body else body;
  }

  lemma PiecesRead(neg: bool, body: string, ds: string, frac: string)
    requires FirstIndex(body, '.') == |ds| < |body| && body[..|ds|] == ds && body[|ds| + 1..] == frac
    requires AllDigits(ds) && AllDigits(frac) && AllDigits(ds + frac) && ds != ""
    ensures ParseUnsigned(neg, body) == Ok(Scaled(neg, Value(ds + frac), |frac|))
  {
    hide Value, FirstIndex, Scaled, AllDigits;
    assert ds + frac != "" by { assert |ds + frac| > 0; }
  }

  lemma UnsignedReads(neg: bool, ds: string, frac: string)
    requires AllDigits(ds) && AllDigits(frac) && ds != ""
    ensures ParseUnsigned(neg, ds + (['.'] + frac)) ==
            Ok(Scaled(neg, Value(ds) * Pow10(|frac|) + Value(frac), |frac|))
  {
    hide Value, Pow10, FirstIndex, Scaled, ParseUnsigned;
    SplitAt(ds, '.', frac);
    ValueConcat(ds, frac);
    PiecesRead(neg, ds + (['.'] + frac), ds, frac);
  }

  lemma PointedReads(neg: bool, ds: string, frac: string)
    requires AllDigits(ds) && AllDigits(frac) && ds != ""
    ensures ParseFloat(Sign(neg) + (ds + (['.'] + frac))) ==
            Ok(Scaled(neg, Value(ds) * Pow10(|frac|) + Value(frac), |frac|))
  {
    hide Value, Pow10, Scaled, ParseUnsigned, ParseFloat, Sign;
    SignOff(neg, ds + (['.'] + frac));
    UnsignedReads(neg, ds, frac);
  }

  lemma PointlessReads(neg: bool, ds: string)
    requires AllDigits(ds) && ds != ""
    ensures ParseFloat(Sign(neg) + ds) == Ok(Scaled(neg, Value(ds), 0))
  {
    SignOff(neg, ds);
    DigitsOnly(ds, '.');
    assert ds + "" == ds;
  }

  /** The plain decimal text of a value reads back as that value. */
  lemma ValueReads(neg: bool, magnitude: nat, decimals: nat)
    ensures ParseFloat(PlainDecimal(neg, magnitude, decimals)) == Ok(Scaled(neg, magnitude, decimals))
  {
    hide Value, Pow10, Digits, Fixed, ParseFloat;
    var ds, frac := Digits(Shifted(magnitude, decimals)), Fixed(magnitude, decimals);
    DigitsDenote(Shifted(magnitude, decimals));
    FixedDenotes(magnitude, decimals);
    if decimals > 0 {
      PointedReads(neg, ds, frac);
    } else {
      PointlessReads(neg, ds);
      assert ds + Decimals('.', magnitude, decimals) == ds;
    }
  }

  // ------------------------------------------------------------------ separators of a whole notation

  /** Removing or counting a character goes through sign, groups and decimals separately. */
  lemma ThreeParts(a: string, b: string, d: string, c: char)
    ensures RemoveAll(a + (b + d), c) == RemoveAll(a, c) + (RemoveAll(b, c) + RemoveAll(d, c))
    ensures Count(a + (b + d), c) == Count(a, c) + Count(b, c) + Count(d, c)
  {
    RemoveAllConcat(a, b + d, c);
    RemoveAllConcat(b, d, c);
    CountConcat(a, b + d, c);
    CountConcat(b, d, c);
  }

  lemma SignHasNone(neg: bool, c: char)
    requires c != '-'
    ensures RemoveAll(Sign(neg), c) == Sign(neg) && Count(Sign(neg), c) == 0
  {
    RemoveAbsent(Sign(neg), c);
  }

  lemma DecimalsHave(mark: char, magnitude: nat, decimals: nat, c: char)
    requires !IsDigit(c)
    ensures Count(Decimals(mark, magnitude, decimals), c) == if decimals > 0 && c == mark then 1 else 0
    ensures c != mark ==> RemoveAll(Decimals(mark, magnitude, decimals), c) == Decimals(mark, magnitude, decimals)
  {
    if decimals > 0 {
      var frac := Fixed(magnitude, decimals);
      var t := [mark] + frac;
      assert t[0] == mark && t[1..] == frac;
      DigitsOnly(frac, c);
    }
  }

  /** The separators of `sep` inside the groups of `ds`. */
  function GroupMarks(ds: string, sep: string, c: char): nat {
    if sep == [c] && |ds| > 0 then (|ds| - 1) / 3 else 0
  }

  lemma GroupsHave(ds: string, sep: string, c: char)
    requires AllDigits(ds) && |sep| <= 1 && (sep != "" ==> !IsDigit(sep[0])) && !IsDigit(c)
    ensures Count(Grouped(ds, sep), c) == GroupMarks(ds, sep, c)
    ensures RemoveAll(Grouped(ds, sep), c) == if sep == [c] then ds else Grouped(ds, sep)
  {
    if sep == "" {
      GroupedWithoutSeparator(ds);
      DigitsOnly(ds, c);
    } else {
      assert sep == [sep[0]];
      UngroupDigits(ds, sep[0], c);
      CountGroups(ds, sep[0], c);
    }
  }

  /** How often a separator occurs in a notation, and what remains without it. */
  lemma NotationHas(neg: bool, magnitude: nat, decimals: nat, sep: string, mark: char, c: char)
    requires |sep| <= 1 && (sep != "" ==> !IsDigit(sep[0])) && !IsDigit(c) && c != '-'
    ensures var ds := Digits(Shifted(magnitude, decimals));
            Count(Notation(neg, magnitude, decimals, sep, mark), c) ==
            GroupMarks(ds, sep, c) + if decimals > 0 && c == mark then 1 else 0
    ensures (c != mark || decimals == 0) && sep == [c] ==>
              RemoveAll(Notation(neg, magnitude, decimals, sep, mark), c) ==
              Notation(neg, magnitude, decimals, "", mark)
    ensures (c != mark || decimals == 0) && sep != [c] ==>
              RemoveAll(Notation(neg, magnitude, decimals, sep, mark), c) ==
              Notation(neg, magnitude, decimals, sep, mark)
  {
    hide Digits, Shifted, Count, RemoveAll, Grouped, Decimals, Sign;
    var ds := Digits(Shifted(magnitude, decimals));
    ThreeParts(Sign(neg), Grouped(ds, sep), Decimals(mark, magnitude, decimals), c);
    SignHasNone(neg, c);
    GroupsHave(ds, sep, c);
    DecimalsHave(mark, magnitude, decimals, c);
    GroupedWithoutSeparator(ds);
    if decimals == 0 {
      NoDecimals(mark, magnitude, c);
    }
  }

  lemma NoDecimals(mark: char, magnitude: nat, c: char)
    ensures Decimals(mark, magnitude, 0) == RemoveAll(Decimals(mark, magnitude, 0), c) == ""
  {
  }

  lemma {:induction false} PresentIffCounted(s: string, c: char)
    ensures Count(s, c) > 0 <==> LastIndex(s, c) >= 0
  {
    if s != "" {
      var init, last := s[..|s| - 1], [s[|s| - 1]];
      assert s == init + last;
      CountConcat(init, last, c);
      assert Count(last, c) == if last[0] == c then 1 else 0 by { assert last[1..] == ""; }
      PresentIffCounted(init, c);
    }
  }

  /** The decimal mark comes after every other separator. */
  lemma MarkIsLast(head: string, mark: char, frac: string, c: char)
    requires AllDigits(frac) && !IsDigit(mark) && !IsDigit(c) && c != mark
    ensures LastIndex(head + ([mark] + frac), c) < LastIndex(head + ([mark] + frac), mark)
  {
    var s := head + ([mark] + frac);
    assert s[|head|] == mark;
    assert forall j :: |head| < j < |s| ==> s[j] == frac[j - |head| - 1];
  }

  lemma OnlyMarkReplaced(neg: bool, head: string, last: string, c: char)
    requires AllDigits(head) && !IsDigit(c) && c != '-'
    ensures ReplaceFirst(Sign(neg) + (head + ([c] + last)), c, '.') == Sign(neg) + (head + (['.'] + last))
  {
    var h := Sign(neg) + head;
    Reassociate(Sign(neg), head, [c] + last);
    Reassociate(Sign(neg), head, ['.'] + last);
    MarkReplaced(h, last, c);
  }

  lemma Reassociate(a: string, b: string, d: string)
    ensures a + (b + d) == a + b + d
  {
  }

  lemma MarkReplaced(h: string, last: string, c: char)
    requires c !in h
    ensures ReplaceFirst(h + ([c] + last), c, '.') == h + (['.'] + last)
  {
    hide FirstIndex;
    SplitAt(h, c, last);
  }

  /** Rewriting the only mark into a point gives the plain decimal text. */
  lemma MarkBecomesPoint(neg: bool, magnitude: nat, decimals: nat, mark: char)
    requires !IsDigit(mark) && mark != '-' && decimals > 0
    ensures ReplaceFirst(Notation(neg, magnitude, decimals, "", mark), mark, '.') ==
            PlainDecimal(neg, magnitude, decimals)
  {
    hide Digits, Shifted, Fixed, ReplaceFirst;
    var ds := Digits(Shifted(magnitude, decimals));
    GroupedWithoutSeparator(ds);
    OnlyMarkReplaced(neg, ds, Fixed(magnitude, decimals), mark);
  }

  lemma PlainIsNotation(neg: bool, magnitude: nat, decimals: nat, mark: char)
    requires mark == '.' || decimals == 0
    ensures Notation(neg, magnitude, decimals, "", mark) == PlainDecimal(neg, magnitude, decimals)
  {
    GroupedWithoutSeparator(Digits(Shifted(magnitude, decimals)));
  }

  /** Without group separators both marks lead to the plain decimal text. */
  lemma CanonicalUngrouped(neg: bool, magnitude: nat, decimals: nat, mark: char)
    requires mark in {',', '.'}
    ensures Canonical(Notation(neg, magnitude, decimals, "", mark)) == PlainDecimal(neg, magnitude, decimals)
  {
    hide Digits, Shifted, Count, RemoveAll, Notation, PlainDecimal, LastIndex, ReplaceFirst;
    var s := Notation(neg, magnitude, decimals, "", mark);
    NotationHas(neg, magnitude, decimals, "", mark, ',');
    NotationHas(neg, magnitude, decimals, "", mark, '.');
    PresentIffCounted(s, ',');
    PresentIffCounted(s, '.');
    if mark == ',' && decimals > 0 {
      MarkBecomesPoint(neg, magnitude, decimals, mark);
    } else {
      PlainIsNotation(neg, magnitude, decimals, mark);
    }
  }

  /** With decimals the mark is last, so the other separator is dropped as grouping. */
  lemma CanonicalGroupedDecimals(neg: bool, magnitude: nat, decimals: nat, sep: string, mark: char)
    requires (sep == "." && mark == ',') || (sep == "," && mark == '.')
    requires decimals > 0 && |Digits(Shifted(magnitude, decimals))| > 3
    ensures Canonical(Notation(neg, magnitude, decimals, sep, mark)) == PlainDecimal(neg, magnitude, decimals)
  {
    hide Digits, Shifted, Count, RemoveAll, PlainDecimal, LastIndex, ReplaceFirst, Grouped, Fixed;
    var s := Notation(neg, magnitude, decimals, sep, mark);
    var ds, frac := Digits(Shifted(magnitude, decimals)), Fixed(magnitude, decimals);
    assert s == (Sign(neg) + Grouped(ds, sep)) + ([mark] + frac);
    MarkIsLast(Sign(neg) + Grouped(ds, sep), mark, frac, sep[0]);
    NotationHas(neg, magnitude, decimals, sep, mark, sep[0]);
    NotationHas(neg, magnitude, decimals, sep, mark, mark);
    PresentIffCounted(s, ',');
    PresentIffCounted(s, '.');
    if mark == ',' {
      MarkBecomesPoint(neg, magnitude, decimals, mark);
    } else {
      PlainIsNotation(neg, magnitude, decimals, mark);
    }
  }

  /** Two separators or more and no decimals: they can only be groups. */
  lemma CanonicalGroupedInteger(neg: bool, magnitude: nat, sep: string, mark: char)
    requires (sep == "." && mark == ',') || (sep == "," && mark == '.')
    requires |Digits(magnitude)| > 6
    ensures Canonical(Notation(neg, magnitude, 0, sep, mark)) == PlainDecimal(neg, magnitude, 0)
  {
    hide Digits, Count, RemoveAll, Notation, PlainDecimal, LastIndex, ReplaceFirst;
    var s := Notation(neg, magnitude, 0, sep, mark);
    NotationHas(neg, magnitude, 0, sep, mark, ',');
    NotationHas(neg, magnitude, 0, sep, mark, '.');
    PresentIffCounted(s, ',');
    PresentIffCounted(s, '.');
    PlainIsNotation(neg, magnitude, 0, mark);
  }

  /** One separator and no decimals: it is taken for the decimal mark. */
  lemma CanonicalOneGroup(neg: bool, magnitude: nat, sep: string, mark: char)
    requires (sep == "." && mark == ',') || (sep == "," && mark == '.')
    requires 3 < |Digits(magnitude)| <= 6
    ensures var ds := Digits(magnitude);
            Canonical(Notation(neg, magnitude, 0, sep, mark)) ==
            Sign(neg) + (ds[..|ds| - 3] + ("." + ds[|ds| - 3..]))
  {
    hide Digits, Count, RemoveAll, LastIndex, ReplaceFirst;
    var s, ds := Notation(neg, magnitude, 0, sep, mark), Digits(magnitude);
    var head, last := ds[..|ds| - 3], ds[|ds| - 3..];
    assert Shifted(magnitude, 0) == magnitude;
    OneGroupText(neg, magnitude, sep, mark);
    NotationHas(neg, magnitude, 0, sep, mark, ',');
    NotationHas(neg, magnitude, 0, sep, mark, '.');
    PresentIffCounted(s, ',');
    PresentIffCounted(s, '.');
    OnlyMarkReplaced(neg, head, last, ',');
  }

  lemma OneGroupText(neg: bool, magnitude: nat, sep: string, mark: char)
    requires |sep| == 1 && 3 < |Digits(magnitude)| <= 6
    ensures var ds := Digits(magnitude);
            Notation(neg, magnitude, 0, sep, mark) ==
            Sign(neg) + (ds[..|ds| - 3] + ([sep[0]] + ds[|ds| - 3..]))
  {
    hide Digits;
    var ds := Digits(magnitude);
    var head, last := ds[..|ds| - 3], ds[|ds| - 3..];
    assert Grouped(head, sep) == head;
    assert Grouped(ds, sep) == head + sep + last;
    assert sep == [sep[0]];
    assert head + sep + last + "" == head + ([sep[0]] + last);
  }

  // ------------------------------------------------------------------ spaces around and inside

  lemma NotationEnds(neg: bool, magnitude: nat, decimals: nat, sep: string, mark: char)
    ensures var s := Notation(neg, magnitude, decimals, sep, mark);
            s != "" && !IsSpace(s[0]) && !IsSpace(s[|s| - 1])
  {
    hide Digits, Shifted, Fixed;
    var ds, frac := Digits(Shifted(magnitude, decimals)), Fixed(magnitude, decimals);
    var g, s := Grouped(ds, sep), Notation(neg, magnitude, decimals, sep, mark);
    GroupedEnds(ds, sep);
    assert s[0] == if neg then '-' else g[0];
    if decimals == 0 {
      assert s[|s| - 1] == g[|g| - 1];
    } else {
      assert s[|s| - 1] == frac[|frac| - 1];
    }
  }

  /** Spaces between the groups disappear; printed text has none anywhere else. */
  lemma SpacesGone(neg: bool, magnitude: nat, decimals: nat, sep: string, mark: char)
    requires Documented(sep, mark)
    ensures RemoveAll(RemoveAll(TrimSpace(Notation(neg, magnitude, decimals, sep, mark)), ' '), NBSP) ==
            Notation(neg, magnitude, decimals, if Blank(sep) then "" else sep, mark)
  {
    hide Notation, RemoveAll, Count;
    NotationEnds(neg, magnitude, decimals, sep, mark);
    assert TrimSpace(Notation(neg, magnitude, decimals, sep, mark)) ==
           Notation(neg, magnitude, decimals, sep, mark);
    NotationHas(neg, magnitude, decimals, sep, mark, ' ');
    var sep' := if sep == " " then "" else sep;
    NotationHas(neg, magnitude, decimals, sep', mark, NBSP);
  }

  // ------------------------------------------------------------------ the round trip

  ghost predicate Blank(sep: string) { sep == "" || sep == " " || sep == [NBSP] }

  /** The notations ParseNumber documents: 1.234,56  1,234.56  1234,56  1234.56  1 234,56. */
  ghost predicate Documented(sep: string, mark: char) {
    || (Blank(sep) && mark in {',', '.'})
    || (sep == "." && mark == ',')
    || (sep == "," && mark == '.')
  }

  /** Exactly one visible group separator and no decimals: "1.234" reads as one unit and a fraction. */
  ghost predicate Ambiguous(magnitude: nat, decimals: nat, sep: string) {
    !Blank(sep) && decimals == 0 && 1_000 <= magnitude < 1_000_000
  }

  lemma GroupCount(magnitude: nat)
    ensures |Digits(magnitude)| > 3 <==> magnitude >= 1_000
    ensures |Digits(magnitude)| > 6 <==> magnitude >= 1_000_000
  {
    hide Digits;
    DigitsLength(magnitude, 3);
    DigitsLength(magnitude, 6);
    assert Pow10(3) == 1_000;
    assert Pow10(6) == 1_000 * Pow10(3);
  }

  /** Few digits print without a separator. */
  lemma ShortIsUngrouped(neg: bool, magnitude: nat, decimals: nat, sep: string, mark: char)
    requires |Digits(Shifted(magnitude, decimals))| <= 3
    ensures Notation(neg, magnitude, decimals, sep, mark) == Notation(neg, magnitude, decimals, "", mark)
  {
  }

  /** An unambiguous notation is rewritten into the plain decimal text of its value. */
  lemma CanonicalIsPlain(neg: bool, magnitude: nat, decimals: nat, sep: string, mark: char)
    requires Documented(sep, mark) && !Ambiguous(magnitude, decimals, sep)
    ensures Canonical(Notation(neg, magnitude, decimals, if Blank(sep) then "" else sep, mark)) ==
            PlainDecimal(neg, magnitude, decimals)
  {
    hide Digits, Notation, PlainDecimal, Canonical;
    if Blank(sep) {
      CanonicalUngrouped(neg, magnitude, decimals, mark);
    } else if |Digits(Shifted(magnitude, decimals))| <= 3 {
      ShortIsUngrouped(neg, magnitude, decimals, sep, mark);
      CanonicalUngrouped(neg, magnitude, decimals, mark);
    } else if decimals > 0 {
      CanonicalGroupedDecimals(neg, magnitude, decimals, sep, mark);
    } else {
      GroupCount(magnitude);
      CanonicalGroupedInteger(neg, magnitude, sep, mark);
    }
  }

  /** The ambiguous ones read a thousand times too small. */
  lemma AmbiguousReads(neg: bool, magnitude: nat, sep: string, mark: char)
    requires Documented(sep, mark) && Ambiguous(magnitude, 0, sep)
    ensures ParseFloat(Canonical(Notation(neg, magnitude, 0, sep, mark))) == Ok(Scaled(neg, magnitude, 3))
    ensures Scaled(neg, magnitude, 3) != Scaled(neg, magnitude, 0)
  {
    hide Digits, Notation, Canonical, ParseFloat, Value;
    var ds := Digits(magnitude);
    GroupCount(magnitude);
    var head, last := ds[..|ds| - 3], ds[|ds| - 3..];
    CanonicalOneGroup(neg, magnitude, sep, mark);
    PointedReads(neg, head, last);
    ValueConcat(head, last);
    assert head + last == ds;
    DigitsDenote(magnitude);
    assert Pow10(3) == 1_000 && Pow10(0) == 1;
  }

  /**
   ParseNumber reads back every printed value, in every documented notation, with any sign and any
   number of groups, exactly when the text is not ambiguous; an ambiguous text reads as a thousandth.
   */
  lemma ReadsBack(neg: bool, magnitude: nat, decimals: nat, sep: string, mark: char)
    requires Documented(sep, mark)
    ensures ParseNumber(Notation(neg, magnitude, decimals, sep, mark)) ==
            Ok(Scaled(neg, magnitude, if Ambiguous(magnitude, decimals, sep) then 3 else decimals))
    ensures ParseNumber(Notation(neg, magnitude, decimals, sep, mark)) == Ok(Scaled(neg, magnitude, decimals))
            <==> !Ambiguous(magnitude, decimals, sep)
  {
    hide Notation, Canonical, ParseFloat, PlainDecimal, Scaled;
    SpacesGone(neg, magnitude, decimals, sep, mark);
    NotationEnds(neg, magnitude, decimals, if Blank(sep) then "" else sep, mark);
    if Ambiguous(magnitude, decimals, sep) {
      AmbiguousReads(neg, magnitude, sep, mark);
    } else {
      CanonicalIsPlain(neg, magnitude, decimals, sep, mark);
      ValueReads(neg, magnitude, decimals);
    }
  }

  /** An exported cell imports as the exported value: with decimals always, without them not from 1.000 to 999.999. */
  method ExportThenImport(neg: bool, magnitude: nat, decimals: nat) returns (read: Result<real, string>)
    ensures read == Ok(Scaled(neg, magnitude, decimals)) <==>
            decimals >= 1 || magnitude < 1_000 || magnitude >= 1_000_000
  {
    var cell := FormatBR(neg, magnitude, decimals);
    ReadsBack(neg, magnitude, decimals, ".", ',');
    read := ParseNumber(cell);
  }
}
