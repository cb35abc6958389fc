/** The order of texts, and sorting by it. */
module Texts {
  /** Character by character, as Go and a database with the C collation compare texts. */
  predicate Less(a: string, b: string) {
    b != "" && (a == "" || a[0] < b[0] || (a[0] == b[0] && Less(a[1..], b[1..])))
  }

  lemma {:induction false} LessIsStrict(a: string, b: string)
    ensures !(Less(a, b) && Less(b, a))
    ensures a != b ==> Less(a, b) || Less(b, a)
    ensures a == b ==> !Less(a, b)
  {
    if a != "" && b != "" && a[0] == b[0] {
      LessIsStrict(a[1..], b[1..]);
      assert a == [a[0]] + a[1..] && b == [b[0]] + b[1..];
    }
  }

  lemma {:induction false} LessChains(a: string, b: string, c: string)
    requires Less(a, b) && Less(b, c)
    ensures Less(a, c)
  {
    if a != "" && a[0] == b[0] && b[0] == c[0] {
      LessChains(a[1..], b[1..], c[1..]);
    }
  }

  predicate NotGreater(a: string, b: string) { a == b || Less(a, b) }

  predicate Ascending(s: seq<string>) {
    forall i, j :: 0 <= i < j < |s| ==> NotGreater(s[i], s[j])
  }

  function Placed(s: seq<string>, x: string): seq<string> {
    if s == [] then [x] else if Less(x, s[0]) then [x] + s else [s[0]] + Placed(s[1..], x)
  }

  function Sorted(s: seq<string>): seq<string> {
    if s == [] then [] else Placed(Sorted(s[..|s| - 1]), s[|s| - 1])
  }

  lemma {:induction false} PlacedKeeps(s: seq<string>, x: string)
    requires Ascending(s)
    ensures multiset(Placed(s, x)) == multiset(s) + multiset{x}
    ensures Ascending(Placed(s, x))
  {
    hide Less;
    if s != [] {
      assert s == [s[0]] + s[1..];
      if Less(x, s[0]) {
        forall j | 0 <= j < |s|
          ensures NotGreater(x, s[j])
        {
          if j > 0 && Less(s[0], s[j]) {
            LessChains(x, s[0], s[j]);
          }
        }
      } else {
        PlacedKeeps(s[1..], x);
        LessIsStrict(x, s[0]);
        forall j | 0 <= j < |Placed(s[1..], x)|
          ensures NotGreater(s[0], Placed(s[1..], x)[j])
        {
          assert Placed(s[1..], x)[j] in multiset(Placed(s[1..], x));
          assert Placed(s[1..], x)[j] in s[1..] || Placed(s[1..], x)[j] == x;
        }
      }
    }
  }

  /** Sorting rearranges a list into ascending order. */
  lemma {:induction false} SortedSorts(s: seq<string>)
    ensures multiset(Sorted(s)) == multiset(s)
    ensures Ascending(Sorted(s))
  {
    hide NotGreater, Placed;
    if s != [] {
      SortedSorts(s[..|s| - 1]);
      PlacedKeeps(Sorted(s[..|s| - 1]), s[|s| - 1]);
      assert s == s[..|s| - 1] + [s[|s| - 1]];
    }
  }
}
