/** The order `ORDER BY` puts text values in, taken as the byte-wise ("C")
    collation: lexicographic comparison of code points. */
module TextOrder {

  /** `a < b` */
  predicate Less(a: string, b: string) {
    if a == [] then b != []
    else if b == [] then false
    else if a[0] != b[0] then a[0] < b[0]
    else Less(a[1..], b[1..])
  }

  predicate LessEq(a: string, b: string) {
    a == b || Less(a, b)
  }

  lemma {:induction false} LessIrreflexive(a: string)
    ensures !Less(a, a)
  {
    if a != [] {
      LessIrreflexive(a[1..]);
    }
  }

  lemma {:induction false} LessTransitive(a: string, b: string, c: string)
    requires Less(a, b) && Less(b, c)
    ensures Less(a, c)
  {
    if a != [] && b != [] && c != [] && a[0] == b[0] && b[0] == c[0] {
      LessTransitive(a[1..], b[1..], c[1..]);
    }
  }

  /** Any two different strings are ordered one way, and only one way. */
  lemma {:induction false} LessTotal(a: string, b: string)
    ensures a != b ==> Less(a, b) || Less(b, a)
    ensures !(Less(a, b) && Less(b, a))
  {
    if a != [] && b != [] && a[0] == b[0] {
      LessTotal(a[1..], b[1..]);
      if a[1..] == b[1..] {
        assert a == [a[0]] + a[1..] && b == [b[0]] + b[1..];
      }
    }
  }

  lemma LessEqTransitive(a: string, b: string, c: string)
    requires LessEq(a, b) && LessEq(b, c)
    ensures LessEq(a, c)
  {
    if a != b && b != c {
      LessTransitive(a, b, c);
    }
  }

  /** Each string strictly before the next. */
  ghost predicate StrictlyAscending(s: seq<string>) {
    forall i :: 0 <= i < |s| - 1 ==> Less(s[i], s[i + 1])
  }

  /** Adjacent pairs in order put every pair in order, so no value repeats. */
  lemma {:induction false} AscendingPairwise(s: seq<string>)
    requires StrictlyAscending(s)
    ensures forall i, j :: 0 <= i < j < |s| ==> Less(s[i], s[j])
    ensures forall i, j :: 0 <= i < j < |s| ==> s[i] != s[j]
  {
    if |s| > 1 {
      AscendingPairwise(s[1..]);
      forall i, j | 0 <= i < j < |s| ensures Less(s[i], s[j]) {
        if i == 0 {
          if j > 1 {
            assert Less(s[1..][0], s[1..][j - 1]);
            LessTransitive(s[0], s[1], s[j]);
          }
        } else {
          assert Less(s[1..][i - 1], s[1..][j - 1]);
        }
      }
      forall i, j | 0 <= i < j < |s| ensures s[i] != s[j] {
        LessIrreflexive(s[i]);
      }
    }
  }

  /** Inserts `x` at its place in an ascending list, unless it is there already. */
  function InsertDistinct(x: string, s: seq<string>): (r: seq<string>)
    ensures forall y :: y in r <==> y == x || y in s
    ensures r != [] && (s == [] ==> r == [x])
    ensures s != [] ==> r[0] == x || r[0] == s[0]
    ensures StrictlyAscending(s) ==> StrictlyAscending(r)
  {
    if s == [] then [x]
    else if x == s[0] then s
    else if Less(x, s[0]) then [x] + s
    else
      var rest := InsertDistinct(x, s[1..]);
      LessTotal(x, s[0]);
      assert s == [s[0]] + s[1..];
      assert |s| > 1 ==> Less(s[0], s[1]) || !StrictlyAscending(s);
      assert StrictlyAscending(s) ==> StrictlyAscending(s[1..]);
      [s[0]] + rest
  }
}
