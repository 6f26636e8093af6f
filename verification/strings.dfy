/**
 * The few operations of Go's `strings` package and of Go's string ordering
 * that the modelled code relies on. Go strings are byte strings compared
 * byte by byte; here a string is a `seq<char>` compared character by
 * character, which orders UTF-8 text the same way.
 */
module Strings {

  /** strings.Index(s, string(c)), counted in characters: the first index of `c` in `s`, or -1. */
  function IndexOf(s: string, c: char): (i: int)
    ensures -1 <= i < |s|
    ensures i < 0 <==> c !in s
    ensures 0 <= i ==> s[i] == c && c !in s[..i]
  {
    if |s| == 0 then -1
    else if s[0] == c then 0
    else
      var j := IndexOf(s[1..], c);
      if j < 0 then -1
      else
        assert s[..j + 1] == [s[0]] + s[1..][..j];
        j + 1
  }

  /** strings.LastIndex(s, string(c)), counted in characters: the last index of `c` in `s`, or -1. */
  function LastIndexOf(s: string, c: char): (i: int)
    ensures -1 <= i < |s|
    ensures i < 0 <==> c !in s
    ensures 0 <= i ==> s[i] == c && c !in s[i + 1..]
  {
    if |s| == 0 then -1
    else if s[|s| - 1] == c then |s| - 1
    else
      var j := LastIndexOf(s[..|s| - 1], c);
      assert s == s[..|s| - 1] + [s[|s| - 1]];
      j
  }

  /** The last `c` of `p + [c] + t` is the one between them when `t` has none. */
  lemma {:induction false} LastIndexOfSplit(p: string, c: char, t: string)
    requires c !in t
    ensures LastIndexOf(p + [c] + t, c) == |p|
  {
    var s := p + [c] + t;
    if t != [] {
      assert s[|s| - 1] == t[|t| - 1];
      assert s[..|s| - 1] == p + [c] + t[..|t| - 1];
      LastIndexOfSplit(p, c, t[..|t| - 1]);
    }
  }

  /** The number of leading characters of `s` equal to `c`. */
  function LeadingRun(s: string, c: char): (n: nat)
    ensures n <= |s|
    ensures forall k :: 0 <= k < n ==> s[k] == c
    ensures n < |s| ==> s[n] != c
  {
    if |s| == 0 || s[0] != c then 0 else 1 + LeadingRun(s[1..], c)
  }

  /** The number of trailing characters of `s` equal to `c`. */
  function TrailingRun(s: string, c: char): (n: nat)
    ensures n <= |s|
    ensures forall k :: |s| - n <= k < |s| ==> s[k] == c
    ensures n < |s| ==> s[|s| - 1 - n] != c
  {
    if |s| == 0 || s[|s| - 1] != c then 0 else 1 + TrailingRun(s[..|s| - 1], c)
  }

  /**
   * strings.Trim(s, string(c)): `s` without its leading and trailing
   * characters equal to `c`. What is removed consists of `c` only and what
   * is left neither begins nor ends with `c`.
   */
  function TrimChar(s: string, c: char): (r: string)
    ensures |r| <= |s|
    ensures r == [] || (r[0] != c && r[|r| - 1] != c)
    ensures var i := LeadingRun(s, c);
              i + |r| <= |s| && r == s[i..i + |r|]
              && (forall k :: 0 <= k < i ==> s[k] == c)
              && (forall k :: i + |r| <= k < |s| ==> s[k] == c)
  {
    var i := LeadingRun(s, c);
    var rest := s[i..];
    var j := TrailingRun(rest, c);
    var r := rest[..|rest| - j];
    assert r == s[i..i + |r|];
    r
  }

  /** Trimming twice is trimming once. */
  lemma TrimCharIdempotent(s: string, c: char)
    ensures TrimChar(TrimChar(s, c), c) == TrimChar(s, c)
  {
    var r := TrimChar(s, c);
    assert LeadingRun(r, c) == 0;
    assert TrailingRun(r, c) == 0;
    assert r[0..][..|r|] == r;
  }

  /** Surrounding quotes are removed and nothing else is. */
  lemma {:induction false} TrimCharUnwraps(x: string, c: char, left: nat, right: nat)
    requires x == [] || (x[0] != c && x[|x| - 1] != c)
    ensures TrimChar(seq(left, _ => c) + x + seq(right, _ => c), c) == x
  {
    var s := seq(left, _ => c) + x + seq(right, _ => c);
    if x == [] {
      assert s == s + [];
      LeadingRunOf(s, [], c);
      return;
    }
    LeadingRunOf(seq(left, _ => c), x + seq(right, _ => c), c);
    assert s == seq(left, _ => c) + (x + seq(right, _ => c));
    var rest := s[left..];
    assert rest == x + seq(right, _ => c);
    TrailingRunOf(x, seq(right, _ => c), c);
    assert rest[..|rest| - right] == x;
  }

  lemma {:induction false} LeadingRunOf(run: string, tail: string, c: char)
    requires forall k :: 0 <= k < |run| ==> run[k] == c
    requires tail == [] || tail[0] != c
    ensures LeadingRun(run + tail, c) == |run|
  {
    if |run| > 0 {
      assert (run + tail)[1..] == run[1..] + tail;
      LeadingRunOf(run[1..], tail, c);
    } else {
      assert run + tail == tail;
    }
  }

  lemma {:induction false} TrailingRunOf(head: string, run: string, c: char)
    requires forall k :: 0 <= k < |run| ==> run[k] == c
    requires head == [] || head[|head| - 1] != c
    ensures TrailingRun(head + run, c) == |run|
  {
    if |run| > 0 {
      assert (head + run)[..|head + run| - 1] == head + run[..|run| - 1];
      TrailingRunOf(head, run[..|run| - 1], c);
    } else {
      assert head + run == head;
    }
  }

  /** Go's `a < b` on strings: lexicographic order, a proper prefix first. */
  predicate Less(a: string, b: string)
  {
    if |a| == 0 then |b| > 0
    else if |b| == 0 then false
    else if a[0] != b[0] then a[0] < b[0]
    else Less(a[1..], b[1..])
  }

  lemma {:induction false} LessIrreflexive(a: string)
    ensures !Less(a, a)
  {
    if |a| > 0 { LessIrreflexive(a[1..]); }
  }

  lemma {:induction false} LessTransitive(a: string, b: string, c: string)
    requires Less(a, b) && Less(b, c)
    ensures Less(a, c)
  {
    if |a| > 0 && |b| > 0 && |c| > 0 && a[0] == b[0] && b[0] == c[0] {
      LessTransitive(a[1..], b[1..], c[1..]);
    }
  }

  /** Any two different strings are ordered one way or the other. */
  lemma {:induction false} LessTotal(a: string, b: string)
    requires a != b
    ensures Less(a, b) || Less(b, a)
  {
    if |a| > 0 && |b| > 0 && a[0] == b[0] {
      assert a == [a[0]] + a[1..] && b == [b[0]] + b[1..];
      LessTotal(a[1..], b[1..]);
    }
  }

  lemma {:induction false} LessAsymmetric(a: string, b: string)
    requires Less(a, b)
    ensures !Less(b, a)
  {
    if |a| > 0 && |b| > 0 && a[0] == b[0] {
      LessAsymmetric(a[1..], b[1..]);
    }
  }
}
