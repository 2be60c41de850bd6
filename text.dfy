/**
 * The two string operations the application relies on: comparing display
 * strings (for the departure-time sort) and splitting a `"<from>-<to>"`
 * value on its dashes (JavaScript's `split('-')`).
 */
module Text {

  /**
   * Lexicographic comparison of two strings by code point: `a` comes
   * strictly before `b`.
   */
  predicate StrLess(a: string, b: string)
    decreases |a|
  {
    if |b| == 0 then false
    else if |a| == 0 then true
    else if a[0] != b[0] then a[0] < b[0]
    else StrLess(a[1..], b[1..])
  }

  lemma {:induction false} StrLessIrreflexive(a: string)
    ensures !StrLess(a, a)
    decreases |a|
  {
    if |a| > 0 {
      StrLessIrreflexive(a[1..]);
    }
  }

  lemma {:induction false} StrLessTransitive(a: string, b: string, c: string)
    requires StrLess(a, b) && StrLess(b, c)
    ensures StrLess(a, c)
    decreases |a|
  {
    if |a| > 0 && a[0] == b[0] && b[0] == c[0] {
      StrLessTransitive(a[1..], b[1..], c[1..]);
    }
  }

  /** Any two different strings are ordered one way or the other. */
  lemma {:induction false} StrLessTotal(a: string, b: string)
    ensures a == b || StrLess(a, b) || StrLess(b, a)
    decreases |a|
  {
    if |a| > 0 && |b| > 0 && a[0] == b[0] {
      StrLessTotal(a[1..], b[1..]);
      if a[1..] == b[1..] {
        assert a == [a[0]] + a[1..] && b == [b[0]] + b[1..];
      }
    }
  }

  lemma {:induction false} StrLessAsymmetric(a: string, b: string)
    requires StrLess(b, a)
    ensures !StrLess(a, b)
    decreases |a|
  {
    if |a| > 0 && |b| > 0 && a[0] == b[0] {
      StrLessAsymmetric(a[1..], b[1..]);
    }
  }

  /** "Not before" is transitive: the code-point order is a strict weak order. */
  lemma StrLessNegativeTransitive(a: string, b: string, c: string)
    requires !StrLess(a, b) && !StrLess(b, c)
    ensures !StrLess(a, c)
  {
    StrLessTotal(a, b);
    StrLessTotal(b, c);
    if b != a && c != b {
      StrLessTransitive(c, b, a);
    }
    if c == a {
      StrLessIrreflexive(a);
    } else {
      StrLessAsymmetric(a, c);
    }
  }

  predicate NoDash(s: string)
  {
    '-' !in s
  }

  /** The inverse of splitting: the parts joined with '-' between them. */
  function JoinDash(parts: seq<string>): string
    requires |parts| > 0
  {
    if |parts| == 1 then parts[0] else parts[0] + "-" + JoinDash(parts[1..])
  }

  /**
   * `s.split('-')`: the maximal dash-free pieces of `s`, left to right,
   * including empty pieces around leading, trailing or doubled dashes.
   */
  function SplitOnDash(s: string): (parts: seq<string>)
    ensures |parts| > 0
    ensures forall i :: 0 <= i < |parts| ==> NoDash(parts[i])
    ensures JoinDash(parts) == s
    ensures |parts| == 1 <==> NoDash(s)
    decreases |s|
  {
    if |s| == 0 then [""]
    else
      var rest := SplitOnDash(s[1..]);
      if s[0] == '-' then
        assert s == "-" + s[1..];
        [""] + rest
      else
        var head := [s[0]] + rest[0];
        var parts := [head] + rest[1..];
        assert parts[1..] == rest[1..];
        assert |rest| > 1 ==> JoinDash(rest) == rest[0] + "-" + JoinDash(rest[1..]);
        assert s == [s[0]] + s[1..];
        parts
  }

  /** Splitting `p + "-" + rest` with a dash-free `p` yields `p` as its first piece. */
  lemma {:induction false} SplitAfterDashFreePrefix(p: string, rest: string)
    requires NoDash(p)
    ensures SplitOnDash(p + "-" + rest) == [p] + SplitOnDash(rest)
    decreases |p|
  {
    var s := p + "-" + rest;
    if |p| == 0 {
      assert s == "-" + rest;
      assert s[1..] == rest;
    } else {
      assert s[1..] == p[1..] + "-" + rest;
      SplitAfterDashFreePrefix(p[1..], rest);
      assert [p[0]] + p[1..] == p;
    }
  }

  /** Splitting undoes joining when every part is dash-free. */
  lemma {:induction false} SplitJoinRoundTrip(parts: seq<string>)
    requires |parts| > 0
    requires forall i :: 0 <= i < |parts| ==> NoDash(parts[i])
    ensures SplitOnDash(JoinDash(parts)) == parts
    decreases |parts|
  {
    if |parts| == 1 {
      assert NoDash(parts[0]);
      var r := SplitOnDash(parts[0]);
      assert |r| == 1 && JoinDash(r) == r[0];
    } else {
      SplitJoinRoundTrip(parts[1..]);
      SplitAfterDashFreePrefix(parts[0], JoinDash(parts[1..]));
      assert parts == [parts[0]] + parts[1..];
    }
  }
}
