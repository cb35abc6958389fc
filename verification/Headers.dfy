/**
 Reading the header line of a file: its delimiter and its normalised names
 (internal/ingestion/tabular.go).
 */
module Headers {
  // ------------------------------------------------------------------ NormalizeHeader

  /** Lower case without its accent, for the letters of Portuguese. */
  function Plain(c: char): char {
    if 'A' <= c <= 'Z' then (c as int + 32) as char
    else if c in "ÁÀÃÂáàãâ" then 'a'
    else if c in "ÉÊéê" then 'e'
    else if c in "Íí" then 'i'
    else if c in "ÓÔÕóôõ" then 'o'
    else if c in "ÚÜúü" then 'u'
    else if c in "Çç" then 'c'
    else c
  }

  predicate WordChar(c: char) { 'a' <= c <= 'z' || '0' <= c <= '9' }

  predicate EndsInSeparator(s: string) { s != "" && s[|s| - 1] == '_' }

  /** Every run of other characters becomes one underscore, except at the start. */
  function Squeezed(h: string): (s: string)
    ensures |s| <= |h|
  {
    if h == "" then ""
    else
      var front, c := Squeezed(h[..|h| - 1]), Plain(h[|h| - 1]);
      if WordChar(c) then front + [c]
      else if front != "" && !EndsInSeparator(front) then front + ['_']
      else front
  }

  function TrimSeparators(s: string): string
  {
    if EndsInSeparator(s) then TrimSeparators(s[..|s| - 1]) else s
  }

  function Normal(h: string): string { TrimSeparators(Squeezed(h)) }

  method NormalizeHeader(h: string) returns (n: string)
    ensures n == Normal(h)
  {
    var b: string := "";
    var lastUnderscore := false;
    for i := 0 to |h|
      invariant b == Squeezed(h[..i])
      invariant lastUnderscore <==> EndsInSeparator(b)
    {
      assert h[..i + 1][..i] == h[..i];
      var c := Plain(h[i]);
      if WordChar(c) {
        b := b + [c];
        lastUnderscore := false;
      } else if !lastUnderscore && |b| > 0 {
        b := b + ['_'];
        lastUnderscore := true;
      }
    }
    assert h[..|h|] == h;
    n := TrimSeparators(b);
  }

  /** Words of letters and digits joined by single underscores. */
  predicate Canonical(s: string) {
    && (forall i :: 0 <= i < |s| ==> 'a' <= s[i] <= 'z' || '0' <= s[i] <= '9' || s[i] == '_')
    && (forall i :: 0 <= i < |s| - 1 ==> !(s[i] == '_' && s[i + 1] == '_'))
    && (s != "" ==> s[0] != '_' && !EndsInSeparator(s))
  }

  lemma {:induction false} SqueezedShape(h: string)
    ensures Squeezed(h) != "" ==> Squeezed(h)[0] != '_'
    ensures Canonical(Squeezed(h)) ||
            (EndsInSeparator(Squeezed(h)) && Canonical(Squeezed(h)[..|Squeezed(h)| - 1]))
  {
    if h != "" {
      SqueezedShape(h[..|h| - 1]);
      assert EndsInSeparator(Squeezed(h)) && Squeezed(h) != Squeezed(h[..|h| - 1]) ==>
        Squeezed(h)[..|Squeezed(h)| - 1] == Squeezed(h[..|h| - 1]);
    }
  }

  lemma PlainKeepsCanonical(c: char)
    requires WordChar(c) || c == '_'
    ensures Plain(c) == c
  {
  }

  lemma {:induction false} SqueezedFixes(s: string)
    requires forall i :: 0 <= i < |s| ==> WordChar(s[i]) || s[i] == '_'
    requires forall i :: 0 <= i < |s| - 1 ==> !(s[i] == '_' && s[i + 1] == '_')
    requires s != "" ==> s[0] != '_'
    ensures Squeezed(s) == s
  {
    if s != "" {
      var n := |s| - 1;
      SqueezedFixes(s[..n]);
      PlainKeepsCanonical(s[n]);
      assert s == s[..n] + [s[n]];
      if n > 0 {
        assert s[..n][n - 1] == s[n - 1];
      }
    }
  }

  lemma TrimmedOnce(s: string)
    ensures Canonical(s) ==> TrimSeparators(s) == s
    ensures EndsInSeparator(s) && Canonical(s[..|s| - 1]) ==> TrimSeparators(s) == s[..|s| - 1]
  {
  }

  lemma NormalizedIsCanonical(h: string)
    ensures Canonical(Normal(h))
  {
    hide Squeezed, TrimSeparators, Canonical;
    SqueezedShape(h);
    TrimmedOnce(Squeezed(h));
  }

  lemma CanonicalIsNormal(s: string)
    requires Canonical(s)
    ensures Normal(s) == s
  {
    SqueezedFixes(s);
    TrimmedOnce(s);
  }

  /** Normalised headers are exactly the canonical names, and normalising twice changes nothing. */
  lemma NormalIsCanonical(h: string)
    ensures Canonical(Normal(h))
    ensures Normal(h) == h <==> Canonical(h)
    ensures Normal(Normal(h)) == Normal(h)
  {
    hide Normal, Canonical;
    NormalizedIsCanonical(h);
    CanonicalIsNormal(Normal(h));
    if Canonical(h) {
      CanonicalIsNormal(h);
    }
  }

  // ------------------------------------------------------------------ DetectDelimiter

  const DELIMITERS: seq<char> := [';', ',', '\t', '|']

  predicate Quoted(line: string) {
    if line == "" then false
    else if line[|line| - 1] == '"' then !Quoted(line[..|line| - 1])
    else Quoted(line[..|line| - 1])
  }

  /** How often `c` occurs outside double quotes. */
  function Outside(line: string, c: char): nat {
    if line == "" then 0
    else
      var front := line[..|line| - 1];
      Outside(front, c) +
      if line[|line| - 1] == c && c != '"' && !Quoted(front) then 1 else 0
  }

  function CountOf(counts: map<char, nat>, c: char): nat { if c in counts then counts[c] else 0 }

  /** The most frequent delimiter outside quotes; the first of them in a tie, a semicolon if there is none. */
  ghost predicate MostFrequent(line: string, best: char) {
    && best in DELIMITERS
    && (forall i :: 0 <= i < |DELIMITERS| ==> Outside(line, DELIMITERS[i]) <= Outside(line, best))
    && (forall i, j :: 0 <= i < j < |DELIMITERS| && DELIMITERS[j] == best ==>
          Outside(line, DELIMITERS[i]) < Outside(line, best))
    && ((forall i :: 0 <= i < |DELIMITERS| ==> Outside(line, DELIMITERS[i]) == 0) ==> best == ';')
  }

  method DetectDelimiter(line: string) returns (best: char)
    ensures MostFrequent(line, best)
  {
    var counts: map<char, nat> := map[];
    var inQuotes := false;
    for i := 0 to |line|
      invariant inQuotes == Quoted(line[..i])
      invariant forall c :: CountOf(counts, c) == Outside(line[..i], c)
    {
      assert line[..i + 1][..i] == line[..i];
      var c := line[i];
      if c == '"' {
        inQuotes := !inQuotes;
      } else if !inQuotes {
        counts := counts[c := CountOf(counts, c) + 1];
      }
    }
    assert line[..|line|] == line;
    best := PickDelimiter(counts);
  }

  method PickDelimiter(counts: map<char, nat>) returns (best: char)
    ensures best in DELIMITERS
    ensures forall i :: 0 <= i < |DELIMITERS| ==> CountOf(counts, DELIMITERS[i]) <= CountOf(counts, best)
    ensures forall i, j :: 0 <= i < j < |DELIMITERS| && DELIMITERS[j] == best ==>
              CountOf(counts, DELIMITERS[i]) < CountOf(counts, best)
    ensures (forall i :: 0 <= i < |DELIMITERS| ==> CountOf(counts, DELIMITERS[i]) == 0) ==> best == ';'
  {
    var bestN := 0;
    best := ';';
    ghost var at := 0;
    for k := 0 to |DELIMITERS|
      invariant 0 <= at < |DELIMITERS| && best == DELIMITERS[at]
      invariant bestN == 0 ==> at == 0
      invariant bestN > 0 ==> bestN == CountOf(counts, best) && at < k
      invariant forall i :: 0 <= i < k ==> CountOf(counts, DELIMITERS[i]) <= bestN
      invariant forall i :: 0 <= i < at ==> CountOf(counts, DELIMITERS[i]) < bestN
    {
      var c := DELIMITERS[k];
      if CountOf(counts, c) > bestN {
        best, bestN, at := c, CountOf(counts, c), k;
      }
    }
  }

  lemma {:induction false} AbsentIsNotCounted(line: string, c: char)
    requires c !in line
    ensures Outside(line, c) == 0
  {
    if line != "" {
      AbsentIsNotCounted(line[..|line| - 1], c);
    }
  }

  /** Inside quotes means after an odd number of them. */
  lemma {:induction false} QuotedIsOdd(line: string)
    ensures Quoted(line) <==> multiset(line)['"'] % 2 == 1
  {
    if line != "" {
      var n := |line| - 1;
      QuotedIsOdd(line[..n]);
      assert line == line[..n] + [line[n]];
    }
  }

  /** Where a character stands outside quotes. */
  function PlacesOutside(line: string, c: char): set<nat> {
    set i: nat | i < |line| && line[i] == c && multiset(line[..i])['"'] % 2 == 0
  }

  lemma {:induction false} OutsideCountsPlaces(line: string, c: char)
    requires c != '"'
    ensures Outside(line, c) == |PlacesOutside(line, c)|
  {
    if line != "" {
      var n := |line| - 1;
      var front := line[..n];
      OutsideCountsPlaces(front, c);
      QuotedIsOdd(front);
      assert forall i: nat :: i < n ==> front[..i] == line[..i];
      assert PlacesOutside(line, c) ==
        PlacesOutside(front, c) + if line[n] == c && !Quoted(front) then {n} else {};
    }
  }

  /** A line with no other delimiter in it is split at semicolons. */
  lemma OnlySemicolons(line: string, best: char)
    requires MostFrequent(line, best)
    requires ',' !in line && '\t' !in line && '|' !in line
    ensures best == ';'
  {
    AbsentIsNotCounted(line, ',');
    AbsentIsNotCounted(line, '\t');
    AbsentIsNotCounted(line, '|');
    assert DELIMITERS[0] == ';';
  }

  predicate AsciiLetter(c: char) { 'a' <= c <= 'z' || 'A' <= c <= 'Z' }

  /** The same character, or the same letter of ASCII in the other case. */
  predicate SameButCase(c: char, d: char) {
    c == d || (AsciiLetter(c) && AsciiLetter(d) && (c as int - d as int == 32 || d as int - c as int == 32))
  }

  /** Headers that differ in the case of letters only normalise alike. */
  lemma {:induction false} CaseDoesNotMatter(a: string, b: string)
    requires |a| == |b| && forall i :: 0 <= i < |a| ==> SameButCase(a[i], b[i])
    ensures Normal(a) == Normal(b)
  {
    SameSqueezed(a, b);
  }

  lemma {:induction false} SameSqueezed(a: string, b: string)
    requires |a| == |b| && forall i :: 0 <= i < |a| ==> SameButCase(a[i], b[i])
    ensures Squeezed(a) == Squeezed(b)
  {
    if a != "" {
      var n := |a| - 1;
      SameSqueezed(a[..n], b[..n]);
      assert SameButCase(a[n], b[n]);
      SamePlain(a[n], b[n]);
      hide Plain;
    }
  }

  lemma SamePlain(c: char, d: char)
    requires SameButCase(c, d)
    ensures Plain(c) == Plain(d)
    ensures AsciiLetter(c) ==> WordChar(Plain(c)) && SameButCase(c, Plain(c))
  {
  }

  /** Portuguese letters with accents, each under the letter it is read as. */
  const ACCENTED: seq<(char, string)> :=
    [('a', "ÁÀÃÂáàãâ"), ('e', "ÉÊéê"), ('i', "Íí"), ('o', "ÓÔÕóôõ"), ('u', "ÚÜúü"), ('c', "Çç")]

  /** An accent makes no difference either: the letter may be replaced by its plain one anywhere. */
  lemma {:induction false} AccentsDoNotMatter(head: string, accented: char, tail: string, k: nat)
    requires k < |ACCENTED| && accented in ACCENTED[k].1
    ensures Normal(head + ([accented] + tail)) == Normal(head + ([ACCENTED[k].0] + tail))
  {
    PlainAccent(accented, k);
    SameSqueezedAt(head, accented, ACCENTED[k].0, tail);
  }

  lemma PlainAccent(c: char, k: nat)
    requires k < |ACCENTED| && c in ACCENTED[k].1
    ensures Plain(c) == Plain(ACCENTED[k].0)
  {
  }

  lemma {:induction false} SameSqueezedAt(head: string, c: char, d: char, tail: string)
    requires Plain(c) == Plain(d)
    ensures Squeezed(head + ([c] + tail)) == Squeezed(head + ([d] + tail))
  {
    hide Plain;
    var a, b := head + ([c] + tail), head + ([d] + tail);
    var n := |a| - 1;
    if tail == "" {
      assert a[..n] == head == b[..n];
    } else {
      var front := tail[..|tail| - 1];
      SameSqueezedAt(head, c, d, front);
      assert a[..n] == head + ([c] + front) && b[..n] == head + ([d] + front);
    }
  }
}
