/** Keeping the elements of a sequence that satisfy a test, in their
    original order: what a list comprehension with an `if` and a pandas
    boolean row selection both do. */
module Seqs {

  /** The elements of `s` that satisfy `p`, in the order of `s`. */
  function Filter<T>(s: seq<T>, p: T -> bool): (r: seq<T>)
    ensures |r| <= |s|
    ensures forall x :: x in r ==> x in s && p(x)
  {
    if s == [] then []
    else Filter(s[..|s| - 1], p) + (if p(s[|s| - 1]) then [s[|s| - 1]] else [])
  }

  /** Filtering a prefix gives a prefix of the filtered whole. */
  lemma {:induction false} FilterPrefix<T>(s: seq<T>, p: T -> bool, n: nat)
    requires n <= |s|
    ensures |Filter(s[..n], p)| <= |Filter(s, p)|
    ensures Filter(s, p)[..|Filter(s[..n], p)|] == Filter(s[..n], p)
  {
    if n < |s| {
      assert s[..|s| - 1][..n] == s[..n];
      FilterPrefix(s[..|s| - 1], p, n);
    } else {
      assert s[..n] == s;
    }
  }

  /** Each element that passes lands at the position given by the number of
      elements that passed before it: nothing is dropped and the order is
      kept. */
  lemma FilterPosition<T>(s: seq<T>, p: T -> bool, i: nat)
    requires i < |s| && p(s[i])
    ensures |Filter(s[..i], p)| < |Filter(s, p)|
    ensures Filter(s, p)[|Filter(s[..i], p)|] == s[i]
  {
    assert s[..i + 1][..i] == s[..i];
    assert Filter(s[..i + 1], p) == Filter(s[..i], p) + [s[i]];
    FilterPrefix(s, p, i + 1);
  }

  /** Each position of the result holds an element that passed, and it is
      the one `FilterPosition` puts there. */
  lemma {:induction false} FilterOrigin<T>(s: seq<T>, p: T -> bool, k: nat)
    requires k < |Filter(s, p)|
    ensures exists i :: 0 <= i < |s| && p(s[i]) && |Filter(s[..i], p)| == k && Filter(s, p)[k] == s[i]
  {
    var n := |s| - 1;
    assert s[..n + 1] == s;
    if k == |Filter(s[..n], p)| {
      assert p(s[n]) && Filter(s, p)[k] == s[n];
    } else {
      FilterOrigin(s[..n], p, k);
      var i :| 0 <= i < n && p(s[..n][i]) && |Filter(s[..n][..i], p)| == k && Filter(s[..n], p)[k] == s[..n][i];
      assert s[..n][..i] == s[..i];
    }
  }

  /** Whatever passes the test is kept. */
  lemma FilterKeeps<T>(s: seq<T>, p: T -> bool, x: T)
    requires x in s && p(x)
    ensures x in Filter(s, p)
  {
    var i :| 0 <= i < |s| && s[i] == x;
    FilterPosition(s, p, i);
  }

  /** A test and its negation split `s` between them: every element goes to
      exactly one side. */
  lemma {:induction false} FilterPartition<T>(s: seq<T>, p: T -> bool, q: T -> bool)
    requires forall x :: q(x) == !p(x)
    ensures |Filter(s, p)| + |Filter(s, q)| == |s|
  {
    if s != [] {
      FilterPartition(s[..|s| - 1], p, q);
    }
  }

  /** The blocks of `bs` written one after the other. */
  function Flatten<T>(bs: seq<seq<T>>): seq<T> {
    if bs == [] then [] else Flatten(bs[..|bs| - 1]) + bs[|bs| - 1]
  }

  /** The end of `a + b` is `b`. */
  lemma EndsWith<T>(a: seq<T>, b: seq<T>)
    ensures |a + b| >= |b| && (a + b)[|a + b| - |b|..] == b
  {
  }

  /** Where a header and its items sit at the end of a sequence. */
  lemma EndsWithBlock<T>(front: seq<T>, header: T, items: seq<T>)
    ensures var s := front + ([header] + items);
      && |s| >= |items| + 1
      && s[|s| - |items| - 1] == header
      && s[|s| - |items|..] == items
  {
    EndsWith(front + [header], items);
    assert front + ([header] + items) == (front + [header]) + items;
  }

  /** Where each of six consecutive parts sits in their concatenation. */
  lemma PartsLayout<T>(a: seq<T>, b: seq<T>, c: seq<T>, d: seq<T>, e: seq<T>, f: seq<T>)
    ensures var s := a + b + c + d + e + f;
      var i, j, k, l, m := |a|, |a| + |b|, |a| + |b| + |c|, |a| + |b| + |c| + |d|, |a| + |b| + |c| + |d| + |e|;
      && |s| == m + |f|
      && s[..i] == a && s[i..j] == b && s[j..k] == c && s[k..l] == d && s[l..m] == e && s[m..] == f
  {
  }

  lemma FlattenAppend<T>(bs: seq<seq<T>>, b: seq<T>)
    ensures Flatten(bs + [b]) == Flatten(bs) + b
  {
    assert (bs + [b])[..|bs|] == bs;
  }
}
