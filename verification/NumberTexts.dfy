/**
 Which texts `ParseNumber` (internal/ingestion/tabular.go) reads, and as what: said of the characters of the
 text, next to the steps of the reader in `Numbers`.
 */
module NumberTexts {
  import opened Prelude
  import opened Numbers

  // ------------------------------------------------------------------ blanks around a text

  predicate Blank(s: string) { forall i :: 0 <= i < |s| ==> IsSpace(s[i]) }

  /** No blank at either end. */
  predicate Bare(s: string) { s != "" ==> !IsSpace(s[0]) && !IsSpace(s[|s| - 1]) }

  /** Trimming finds what stands between the blanks. */
  lemma {:induction false} TrimmedLeft(s: string, i: nat)
    requires i <= |s| && Blank(s[..i]) && (i < |s| ==> !IsSpace(s[i]))
    ensures TrimLeft(s) == s[i..]
  {
    if i > 0 {
      var blanks := s[..i];
      assert blanks[0] == s[0] && s[1..][..i - 1] == blanks[1..];
      forall k | 0 <= k < |blanks[1..]|
        ensures IsSpace(blanks[1..][k])
      {
        assert blanks[1..][k] == blanks[k + 1];
      }
      TrimmedLeft(s[1..], i - 1);
    }
  }

  lemma {:induction false} TrimmedRight(s: string, j: nat)
    requires j <= |s| && Blank(s[j..]) && (j > 0 ==> !IsSpace(s[j - 1]))
    ensures TrimRight(s) == s[..j]
  {
    if j < |s| {
      var front := s[..|s| - 1];
      assert s[j..][|s| - 1 - j] == s[|s| - 1];
      forall k | 0 <= k < |front[j..]|
        ensures IsSpace(front[j..][k])
      {
        assert front[j..][k] == s[j..][k];
      }
      TrimmedRight(front, j);
    }
  }

  lemma Trimmed(raw: string, i: nat, j: nat)
    requires i <= j <= |raw| && Blank(raw[..i]) && Bare(raw[i..j]) && Blank(raw[j..])
    ensures TrimSpace(raw) == raw[i..j]
  {
    if i < j {
      assert raw[i..j][0] == raw[i];
      assert raw[i..j][j - i - 1] == raw[j - 1];
      TrimmedLeft(raw, i);
      var rest := raw[i..];
      assert rest[j - i..] == raw[j..];
      TrimmedRight(rest, j - i);
      assert rest[..j - i] == raw[i..j];
    } else {
      assert raw == raw[..i] + raw[j..];
      assert raw[..|raw|] == raw;
      TrimmedLeft(raw, |raw|);
    }
  }

  lemma {:induction false} TrimLeftSplits(s: string) returns (i: nat)
    ensures i <= |s| && Blank(s[..i]) && (i < |s| ==> !IsSpace(s[i]))
  {
    i := 0;
    while i < |s| && IsSpace(s[i])
      invariant i <= |s| && forall k :: 0 <= k < i ==> IsSpace(s[k])
    {
      i := i + 1;
    }
  }

  lemma TrimSplits(raw: string) returns (i: nat, j: nat)
    ensures i <= j <= |raw| && Blank(raw[..i]) && Bare(raw[i..j]) && Blank(raw[j..])
  {
    i := TrimLeftSplits(raw);
    j := |raw|;
    while j > i && IsSpace(raw[j - 1])
      invariant i <= j <= |raw| && forall k :: j <= k < |raw| ==> IsSpace(raw[k])
    {
      j := j - 1;
    }
    assert i < j ==> raw[i..j][0] == raw[i] && raw[i..j][j - i - 1] == raw[j - 1];
  }

  // ------------------------------------------------------------------ separators

  /** Some `d` stands behind every `c`. */
  predicate Later(s: string, c: char, d: char) {
    exists j :: 0 <= j < |s| && s[j] == d && forall i :: 0 <= i < |s| && s[i] == c ==> i < j
  }

  predicate Twice(s: string, c: char) {
    exists i, j :: 0 <= i < j < |s| && s[i] == c && s[j] == c
  }

  /** `c` groups digits: the other separator comes later, or there is no other one and `c` occurs again. */
  predicate Groups(s: string, c: char, other: char) {
    c in s && if other in s then Later(s, c, other) else Twice(s, c)
  }

  /** The text without the separator that groups digits. */
  function Ungrouped(s: string): string {
    if Groups(s, ',', '.') then RemoveAll(s, ',')
    else if Groups(s, '.', ',') then RemoveAll(s, '.')
    else s
  }

  lemma LaterIff(s: string, c: char, d: char)
    requires c != d && c in s && d in s
    ensures Later(s, c, d) <==> LastIndex(s, c) < LastIndex(s, d)
  {
    var i, j := LastIndex(s, c), LastIndex(s, d);
    if Later(s, c, d) {
      var k :| 0 <= k < |s| && s[k] == d && forall i :: 0 <= i < |s| && s[i] == c ==> i < k;
    }
    if i < j {
      assert s[j] == d;
    }
  }

  lemma TwiceStep(s: string, c: char)
    requires s != ""
    ensures Twice(s, c) <==> Twice(s[1..], c) || (s[0] == c && c in s[1..])
  {
    var rest := s[1..];
    if Twice(rest, c) {
      var i, j :| 0 <= i < j < |rest| && rest[i] == c && rest[j] == c;
      assert s[i + 1] == c && s[j + 1] == c;
    }
    if s[0] == c && c in rest {
      var j :| 0 <= j < |rest| && rest[j] == c;
      assert s[0] == c && s[j + 1] == c;
    }
    if Twice(s, c) {
      var i, j :| 0 <= i < j < |s| && s[i] == c && s[j] == c;
      assert rest[j - 1] == c;
      if i > 0 {
        assert rest[i - 1] == c;
      }
    }
  }

  lemma {:induction false} TwiceIff(s: string, c: char)
    ensures Twice(s, c) <==> Count(s, c) > 1
    ensures c in s <==> Count(s, c) > 0
  {
    if s != "" {
      TwiceIff(s[1..], c);
      TwiceStep(s, c);
      assert s == [s[0]] + s[1..];
      hide Twice;
    }
  }

  lemma {:induction false} RemoveAllHas(s: string, c: char, x: char)
    ensures x in RemoveAll(s, c) <==> x in s && x != c
  {
    if s != "" {
      assert s == [s[0]] + s[1..];
      RemoveAllHas(s[1..], c, x);
    }
  }

  lemma ReplaceAbsent(s: string, c: char, to: char)
    requires c !in s
    ensures ReplaceFirst(s, c, to) == s
  {
  }

  /** The four conditions of the reader, of the characters. */
  lemma SeparatorsIff(s: string, c: char, d: char)
    requires c != d
    ensures LastIndex(s, c) >= 0 <==> c in s
    ensures Count(s, c) > 1 ==> c in s
    ensures Groups(s, c, d) <==>
            if d in s then c in s && LastIndex(s, c) < LastIndex(s, d) else Count(s, c) > 1
    ensures c in s && d in s ==> LastIndex(s, c) != LastIndex(s, d)
  {
    TwiceIff(s, c);
    hide Twice, Later, Count;
    if c in s && d in s {
      LaterIff(s, c, d);
    }
  }

  /** The rules of the reader are: take the grouping separator out, then read a comma as the point. */
  lemma CanonicalIsUngrouped(s: string)
    ensures Canonical(s) == ReplaceFirst(Ungrouped(s), ',', '.')
    ensures !(',' in Ungrouped(s) && '.' in Ungrouped(s))
  {
    SeparatorsIff(s, ',', '.');
    SeparatorsIff(s, '.', ',');
    RemoveAllHas(s, ',', ',');
    RemoveAllHas(s, '.', ',');
    RemoveAllHas(s, '.', '.');
    var u := Ungrouped(s);
    hide RemoveAll, Count, LastIndex, ReplaceFirst, Groups;
    if ',' !in u {
      ReplaceAbsent(u, ',', '.');
    }
  }

  // ------------------------------------------------------------------ numerals

  /** An optional sign, digits, and at most one decimal mark with digits around it. */
  ghost predicate Numeral(u: string, sign: string, whole: string, mark: string, frac: string) {
    && sign in {"", "+", "-"} && mark in {"", ",", "."}
    && AllDigits(whole) && AllDigits(frac) && whole + frac != "" && (mark == "" ==> frac == "")
    && u == sign + (whole + (mark + frac))
  }

  lemma DigitsFree(ds: string)
    requires AllDigits(ds)
    ensures '.' !in ds && ',' !in ds && '+' !in ds && '-' !in ds
  {
  }

  lemma BodyReads(neg: bool, whole: string, pointed: bool, frac: string)
    requires AllDigits(whole) && AllDigits(frac) && AllDigits(whole + frac) && whole + frac != ""
    requires !pointed ==> frac == ""
    ensures ParseUnsigned(neg, if pointed then whole + (['.'] + frac) else whole) ==
            Ok(Scaled(neg, Value(whole + frac), |frac|))
  {
    DigitsFree(whole);
    if pointed {
      SplitAt(whole, '.', frac);
      hide FirstIndex, Value, Scaled, AllDigits;
    } else {
      assert whole + "" == whole;
      hide Value, Scaled;
    }
  }

  lemma DigitsConcat(a: string, b: string)
    requires AllDigits(a) && AllDigits(b)
    ensures AllDigits(a + b)
  {
  }

  /** With its comma read as the point, a numeral is a sign and a plain body. */
  lemma NumeralPlain(u: string, sign: string, whole: string, mark: string, frac: string)
    requires Numeral(u, sign, whole, mark, frac)
    ensures ReplaceFirst(u, ',', '.') == sign + if mark == "" then whole else whole + (['.'] + frac)
  {
    DigitsFree(whole);
    DigitsFree(frac);
    var i := FirstIndex(u, ',');
    if mark == "," {
      var n := |sign| + |whole|;
      assert u[n] == ',';
      forall k | 0 <= k < n
        ensures u[k] != ','
      {
        assert u[k] == if k < |sign| then sign[k] else whole[k - |sign|];
      }
      assert i == n;
    } else {
      assert ',' !in mark && ',' !in sign;
      assert ',' !in u;
      assert whole + (mark + frac) == if mark == "" then whole else whole + (['.'] + frac);
    }
  }

  lemma SignedReads(sign: string, body: string)
    requires sign in {"", "+", "-"} && body != "" && body[0] != '-' && body[0] != '+'
    ensures ParseFloat(sign + body) == ParseUnsigned(sign == "-", body)
  {
    hide ParseUnsigned;
    var t := sign + body;
    if sign == "" {
      assert t == body;
    } else {
      assert t[0] == sign[0] && t[1..] == body;
    }
  }

  lemma NumeralReads(u: string, sign: string, whole: string, mark: string, frac: string)
    requires Numeral(u, sign, whole, mark, frac)
    ensures AllDigits(whole + frac)
    ensures ParseFloat(ReplaceFirst(u, ',', '.')) == Ok(Scaled(sign == "-", Value(whole + frac), |frac|))
  {
    var body := if mark == "" then whole else whole + (['.'] + frac);
    NumeralPlain(u, sign, whole, mark, frac);
    DigitsConcat(whole, frac);
    hide ReplaceFirst, ParseUnsigned, ParseFloat, Value, Scaled;
    BodyReads(sign == "-", whole, mark != "", frac);
    assert body != "" && body[0] != '-' && body[0] != '+';
    SignedReads(sign, body);
  }

  /** What the reader accepts was a numeral. */
  lemma WholeIsNumeral(u: string, sign: string, whole: string)
    requires sign in {"", "+", "-"} && AllDigits(whole) && whole != "" && u == sign + whole
    ensures Numeral(u, sign, whole, "", "")
  {
    assert whole + ("" + "") == whole == whole + "";
  }

  lemma SignComesOff(t: string) returns (sign: string, body: string)
    requires ParseFloat(t).Ok?
    ensures t == sign + body && sign in {"", "+", "-"} && ParseUnsigned(sign == "-", body).Ok?
  {
    hide ParseUnsigned;
    if t != "" && t[0] in {'+', '-'} {
      sign, body := [t[0]], t[1..];
    } else {
      sign, body := "", t;
    }
  }

  lemma BodyParts(neg: bool, body: string) returns (whole: string, pointed: bool, frac: string)
    requires ParseUnsigned(neg, body).Ok?
    ensures AllDigits(whole) && AllDigits(frac) && whole + frac != "" && (!pointed ==> frac == "")
    ensures body == if pointed then whole + (['.'] + frac) else whole
  {
    var dot := FirstIndex(body, '.');
    pointed := dot >= 0;
    whole := if pointed then body[..dot] else body;
    frac := if pointed then body[dot + 1..] else "";
    if pointed {
      assert body == body[..dot] + ([body[dot]] + body[dot + 1..]);
    }
  }

  /** The only point of a plain text may have been a comma before. */
  lemma PointWasMark(u: string, sign: string, whole: string, frac: string)
    requires sign in {"", "+", "-"} && AllDigits(whole) && AllDigits(frac) && whole + frac != ""
    requires ReplaceFirst(u, ',', '.') == sign + (whole + (['.'] + frac))
    ensures exists mark :: Numeral(u, sign, whole, mark, frac)
  {
    DigitsFree(whole);
    DigitsFree(frac);
    var t, n := sign + (whole + (['.'] + frac)), |sign| + |whole|;
    var i := FirstIndex(u, ',');
    forall k | 0 <= k < |t| && k != n
      ensures t[k] != '.'
    {
      assert t[k] == if k < |sign| then sign[k] else if k < n then whole[k - |sign|] else frac[k - n - 1];
    }
    if i < 0 {
      assert Numeral(u, sign, whole, ".", frac);
    } else {
      assert t[i] == '.';
      assert u == t[n := ','];
      assert t[n := ','] == sign + (whole + ([','] + frac));
      assert Numeral(u, sign, whole, ",", frac);
    }
  }

  lemma NoPointNoMark(u: string)
    ensures ReplaceFirst(u, ',', '.') == u || '.' in ReplaceFirst(u, ',', '.')
  {
    var i := FirstIndex(u, ',');
    if i >= 0 {
      assert ReplaceFirst(u, ',', '.')[i] == '.';
    }
  }

  lemma ReadIsNumeral(u: string)
    requires ParseFloat(ReplaceFirst(u, ',', '.')).Ok?
    ensures exists sign, whole, mark, frac :: Numeral(u, sign, whole, mark, frac)
  {
    var t := ReplaceFirst(u, ',', '.');
    hide ReplaceFirst, ParseFloat, ParseUnsigned, Numeral;
    var sign, body := SignComesOff(t);
    var whole, pointed, frac := BodyParts(sign == "-", body);
    if pointed {
      PointWasMark(u, sign, whole, frac);
    } else {
      assert whole + "" == whole;
      DigitsFree(whole);
      NoPointNoMark(u);
      assert '.' !in sign + whole;
      WholeIsNumeral(u, sign, whole);
    }
  }

  // ------------------------------------------------------------------ the reader

  /** The text without the blanks around it and the spaces inside. */
  function Spaceless(raw: string): string { RemoveAll(RemoveAll(TrimSpace(raw), ' '), NBSP) }

  /** The number `v` is the magnitude with its last `decimals` digits behind the mark, negated if `neg`. */
  predicate Denotes(v: real, neg: bool, magnitude: nat, decimals: nat) {
    v * Pow10(decimals) as real == if neg then -(magnitude as real) else magnitude as real
  }

  lemma ScaledDenotes(neg: bool, magnitude: nat, decimals: nat)
    ensures Denotes(Scaled(neg, magnitude, decimals), neg, magnitude, decimals)
  {
    var p := Pow10(decimals) as real;
    var v := magnitude as real / p;
    assert v * p == magnitude as real;
    assert (-v) * p == -(v * p);
  }

  lemma DenotesOnce(v: real, w: real, neg: bool, magnitude: nat, decimals: nat)
    requires Denotes(v, neg, magnitude, decimals) && Denotes(w, neg, magnitude, decimals)
    ensures v == w
  {
    var p := Pow10(decimals) as real;
    assert (v - w) * p == 0.0;
  }

  /**
   Exactly what is read: with the spaces and the grouping separator taken out, an optional sign and digits with
   at most one decimal mark; and it is read as those digits, with as many decimals as stand behind the mark.
   */
  lemma ParseNumberMeans(raw: string)
    ensures var u := Ungrouped(Spaceless(raw));
            && (ParseNumber(raw).Ok? <==> exists sign, whole, mark, frac :: Numeral(u, sign, whole, mark, frac))
            && (forall sign, whole, mark, frac :: Numeral(u, sign, whole, mark, frac) ==>
                  AllDigits(whole + frac) && ParseNumber(raw).Ok? &&
                  Denotes(ParseNumber(raw).value, sign == "-", Value(whole + frac), |frac|))
  {
    var s := Spaceless(raw);
    var u := Ungrouped(s);
    CanonicalIsUngrouped(s);
    assert s == "" ==> u == "";
    hide Spaceless, Ungrouped, Canonical, ReplaceFirst, ParseFloat, Value, Scaled, Numeral, Denotes;
    if ParseNumber(raw).Ok? {
      ReadIsNumeral(u);
    }
    forall sign, whole, mark, frac | Numeral(u, sign, whole, mark, frac)
      ensures AllDigits(whole + frac) && ParseNumber(raw).Ok? &&
              Denotes(ParseNumber(raw).value, sign == "-", Value(whole + frac), |frac|)
    {
      NumeralReads(u, sign, whole, mark, frac);
      NumeralIsSomething(u, sign, whole, mark, frac);
      ScaledDenotes(sign == "-", Value(whole + frac), |frac|);
    }
  }

  lemma NumeralIsSomething(u: string, sign: string, whole: string, mark: string, frac: string)
    requires Numeral(u, sign, whole, mark, frac)
    ensures u != ""
    ensures forall c :: c in u ==> IsDigit(c) || c in {'+', '-', ',', '.'}
  {
  }

  lemma {:induction false} UngroupedHas(s: string, c: char)
    requires c !in {',', '.'}
    ensures c in Ungrouped(s) <==> c in s
  {
    RemoveAllHas(s, ',', c);
    RemoveAllHas(s, '.', c);
    hide Groups;
  }

  /** A text without anything but spaces, or with any other character than digits, signs and separators, is refused. */
  lemma OtherTextsAreRefused(raw: string)
    requires Spaceless(raw) == "" || exists c :: c in Spaceless(raw) && !IsDigit(c) && c !in {'+', '-', ',', '.'}
    ensures ParseNumber(raw).Err?
  {
    ParseNumberMeans(raw);
    hide ParseNumber, Spaceless, Ungrouped, Numeral;
    var u := Ungrouped(Spaceless(raw));
    if ParseNumber(raw).Ok? {
      var sign, whole, mark, frac :| Numeral(u, sign, whole, mark, frac);
      NumeralIsSomething(u, sign, whole, mark, frac);
      forall c
        ensures c !in {',', '.'} ==> (c in u <==> c in Spaceless(raw))
      {
        if c !in {',', '.'} {
          UngroupedHas(Spaceless(raw), c);
        }
      }
      NothingUngrouped();
    }
  }

  lemma NothingUngrouped()
    ensures Ungrouped("") == ""
  {
  }

  lemma PlusKeepsLater(s: string, c: char, d: char)
    requires c != '+' && d != '+'
    ensures Later("+" + s, c, d) <==> Later(s, c, d)
  {
    var p := "+" + s;
    assert forall i :: 0 <= i < |s| ==> p[i + 1] == s[i];
    if Later(s, c, d) {
      var j :| 0 <= j < |s| && s[j] == d && forall i :: 0 <= i < |s| && s[i] == c ==> i < j;
      assert p[j + 1] == d;
      forall i | 0 <= i < |p| && p[i] == c
        ensures i < j + 1
      {
        assert s[i - 1] == c;
      }
    }
    if Later(p, c, d) {
      var j :| 0 <= j < |p| && p[j] == d && forall i :: 0 <= i < |p| && p[i] == c ==> i < j;
      assert s[j - 1] == d;
      forall i | 0 <= i < |s| && s[i] == c
        ensures i < j - 1
      {
        assert p[i + 1] == c;
      }
    }
  }

  lemma PlusKeepsGroups(s: string, c: char, d: char)
    requires c != '+' && d != '+'
    ensures Groups("+" + s, c, d) <==> Groups(s, c, d)
  {
    var p := "+" + s;
    assert p[1..] == s;
    TwiceStep(p, c);
    PlusKeepsLater(s, c, d);
    assert c in p <==> c in s;
    assert d in p <==> d in s;
    hide Twice, Later;
  }

  lemma PlusStays(s: string, c: char)
    requires c != '+'
    ensures RemoveAll("+" + s, c) == "+" + RemoveAll(s, c)
  {
    assert ("+" + s)[1..] == s;
  }

  lemma PlusUngrouped(s: string)
    ensures Ungrouped("+" + s) == "+" + Ungrouped(s)
  {
    PlusKeepsGroups(s, ',', '.');
    PlusKeepsGroups(s, '.', ',');
    PlusStays(s, ',');
    PlusStays(s, '.');
    hide Groups, RemoveAll;
  }

  lemma FirstOf(a: string, b: string)
    requires b != ""
    ensures (a + b)[0] == (if a == "" then b else a)[0]
  {
  }

  lemma NumeralBody(whole: string, mark: string, frac: string)
    requires AllDigits(whole) && whole + frac != "" && mark in {"", ",", "."} && (mark == "" ==> frac == "")
    ensures var rest := whole + (mark + frac); rest != "" && rest[0] !in {'+', '-'}
  {
    FirstOf(whole, mark + frac + "0");
    assert whole == "" ==> mark != "";
    assert whole == "" ==> whole + (mark + frac) == mark + frac;
  }

  /** What comes first tells the sign. */
  lemma NumeralSign(u: string, sign: string, whole: string, mark: string, frac: string)
    requires Numeral(u, sign, whole, mark, frac)
    ensures u != "" && (sign == "" <==> u[0] !in {'+', '-'}) && (sign != "" ==> sign == [u[0]])
  {
    NumeralBody(whole, mark, frac);
    FirstOf(sign, whole + (mark + frac));
  }

  /** Numerals with a plus are those without a sign, with a plus in front. */
  lemma PlusNumeral(u: string, sign: string, whole: string, mark: string, frac: string)
    requires u == "" || u[0] !in {'+', '-'}
    ensures Numeral(u, sign, whole, mark, frac) ==> sign == "" && Numeral("+" + u, "+", whole, mark, frac)
    ensures Numeral("+" + u, sign, whole, mark, frac) ==> sign == "+" && Numeral(u, "", whole, mark, frac)
  {
    var rest := whole + (mark + frac);
    if Numeral(u, sign, whole, mark, frac) {
      NumeralSign(u, sign, whole, mark, frac);
      assert "" + rest == rest;
    }
    if Numeral("+" + u, sign, whole, mark, frac) {
      NumeralSign("+" + u, sign, whole, mark, frac);
      assert ("+" + u)[1..] == u && ("+" + rest)[1..] == rest;
      assert "" + rest == rest;
    }
  }

  /** A plus in front of a text without a sign changes nothing. */
  lemma LeadingPlus(raw: string, plus: string)
    requires Spaceless(plus) == "+" + Spaceless(raw) && '+' !in Spaceless(raw) && '-' !in Spaceless(raw)
    ensures ParseNumber(plus).Ok? <==> ParseNumber(raw).Ok?
    ensures ParseNumber(raw).Ok? ==> ParseNumber(plus) == ParseNumber(raw)
  {
    var u := Ungrouped(Spaceless(raw));
    ParseNumberMeans(raw);
    ParseNumberMeans(plus);
    PlusUngrouped(Spaceless(raw));
    UngroupedHas(Spaceless(raw), '+');
    UngroupedHas(Spaceless(raw), '-');
    hide ParseNumber, Spaceless, Ungrouped, Value, Numeral, Denotes;
    if ParseNumber(raw).Ok? {
      var sign, whole, mark, frac :| Numeral(u, sign, whole, mark, frac);
      PlusNumeral(u, sign, whole, mark, frac);
      DenotesOnce(ParseNumber(raw).value, ParseNumber(plus).value, false, Value(whole + frac), |frac|);
    }
    if ParseNumber(plus).Ok? {
      var sign, whole, mark, frac :| Numeral("+" + u, sign, whole, mark, frac);
      PlusNumeral(u, sign, whole, mark, frac);
    }
  }
}
