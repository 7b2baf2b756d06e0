/** Order-preserving selection from a sequence: what a list comprehension with a condition builds. */
module Sequences {
  import opened Wrappers

  /** [x for x in s if keep(x)] */
  function Filter<T>(s: seq<T>, keep: T -> bool): (r: seq<T>)
    ensures |r| <= |s|
    decreases |s|
  {
    if |s| == 0 then []
    else (if keep(s[0]) then [s[0]] else []) + Filter(s[1..], keep)
  }

  /** a can be had from b by deleting elements. */
  predicate SubsequenceOf<T(==)>(a: seq<T>, b: seq<T>)
    decreases |b|
  {
    if |a| == 0 then true
    else if |b| == 0 then false
    else (a[0] == b[0] && SubsequenceOf(a[1..], b[1..])) || SubsequenceOf(a, b[1..])
  }

  /** An element survives exactly when it is in the sequence and passes the test. */
  lemma {:induction false} FilterMembership<T>(s: seq<T>, keep: T -> bool, x: T)
    ensures x in Filter(s, keep) <==> x in s && keep(x)
    decreases |s|
  {
    if |s| > 0 {
      FilterMembership(s[1..], keep, x);
      assert s == [s[0]] + s[1..];
    }
  }

  /** The filter keeps the order of what it keeps. */
  lemma {:induction false} FilterSubsequence<T>(s: seq<T>, keep: T -> bool)
    ensures SubsequenceOf(Filter(s, keep), s)
    decreases |s|
  {
    if |s| > 0 {
      FilterSubsequence(s[1..], keep);
      var r := Filter(s, keep);
      if keep(s[0]) {
        assert r[0] == s[0] && r[1..] == Filter(s[1..], keep);
        assert SubsequenceOf(r[1..], s[1..]);
      } else {
        assert r == Filter(s[1..], keep);
      }
    }
  }

  /** A sequence whose every element passes the test is kept whole. */
  lemma {:induction false} FilterAll<T>(s: seq<T>, keep: T -> bool)
    requires forall k :: 0 <= k < |s| ==> keep(s[k])
    ensures Filter(s, keep) == s
    decreases |s|
  {
    if |s| > 0 {
      FilterAll(s[1..], keep);
    }
  }

  /** Reads every element with read, in order; None as soon as one read fails. */
  function ReadAll<A, B>(xs: seq<A>, read: A -> Option<B>): (r: Option<seq<B>>)
    ensures r.Some? ==> |r.value| == |xs|
    decreases |xs|
  {
    if |xs| == 0 then Some([])
    else
      var front := ReadAll(xs[..|xs| - 1], read);
      var last := read(xs[|xs| - 1]);
      if front.None? || last.None? then None else Some(front.value + [last.value])
  }

  /** All reads succeed exactly when each one does, and then the k-th result is the k-th read. */
  lemma {:induction false} ReadAllSpec<A, B>(xs: seq<A>, read: A -> Option<B>)
    ensures ReadAll(xs, read).Some? <==> forall k :: 0 <= k < |xs| ==> read(xs[k]).Some?
    ensures ReadAll(xs, read).Some? ==> forall k :: 0 <= k < |xs| ==> ReadAll(xs, read).value[k] == read(xs[k]).value
    decreases |xs|
  {
    if |xs| > 0 {
      var front := xs[..|xs| - 1];
      ReadAllSpec(front, read);
      assert forall k :: 0 <= k < |front| ==> front[k] == xs[k];
    }
  }

  /** The groups of tokens made for each element, with its position, concatenated in order. */
  function Groups<T, U>(xs: seq<T>, group: (nat, T) -> seq<U>): seq<U>
    decreases |xs|
  {
    if |xs| == 0 then []
    else Groups(xs[..|xs| - 1], group) + group(|xs| - 1, xs[|xs| - 1])
  }

  lemma GroupsSnoc<T, U>(xs: seq<T>, group: (nat, T) -> seq<U>, x: T)
    ensures Groups(xs + [x], group) == Groups(xs, group) + group(|xs|, x)
  {
    assert (xs + [x])[..|xs|] == xs;
  }

  /** With groups of width w, there are w elements per element. */
  lemma {:induction false} GroupsLength<T, U>(xs: seq<T>, group: (nat, T) -> seq<U>, w: nat)
    requires forall j: nat, x :: |group(j, x)| == w
    ensures |Groups(xs, group)| == w * |xs|
    decreases |xs|
  {
    if |xs| > 0 {
      GroupsLength(xs[..|xs| - 1], group, w);
    }
  }

  /** With groups of width w, the i-th w elements are the i-th element's group. */
  lemma {:induction false} GroupsAt<T, U>(xs: seq<T>, group: (nat, T) -> seq<U>, w: nat, i: nat)
    requires forall j: nat, x :: |group(j, x)| == w
    requires i < |xs|
    ensures |Groups(xs, group)| == w * |xs| && w * i + w <= w * |xs|
    ensures Groups(xs, group)[w * i..w * i + w] == group(i, xs[i])
    decreases |xs|
  {
    var front := xs[..|xs| - 1];
    var head, last := Groups(front, group), group(|front|, xs[|front|]);
    GroupsLength(front, group, w);
    GroupsLength(xs, group, w);
    MulMonotone(w, i + 1, |xs|);
    assert w * (i + 1) == w * i + w;
    if i < |front| {
      GroupsAt(front, group, w, i);
      assert front[i] == xs[i];
      EarlierGroup(head, last, w, i, |front|);
    } else {
      assert (head + last)[|head|..|head| + |last|] == last;
    }
  }

  lemma EarlierGroup<U>(head: seq<U>, last: seq<U>, w: nat, i: nat, n: nat)
    requires |head| == w * n && i < n
    ensures w * i + w <= |head|
    ensures (head + last)[w * i..w * i + w] == head[w * i..w * i + w]
  {
    MulMonotone(w, i + 1, n);
    assert w * (i + 1) == w * i + w;
  }

  lemma {:induction false} MulMonotone(w: nat, a: nat, b: nat)
    requires a <= b
    ensures w * a <= w * b
    decreases b - a
  {
    if a < b {
      MulMonotone(w, a, b - 1);
      assert w * b == w * (b - 1) + w;
    }
  }
}
