/**
 * Sequence operations the source performs with `Array.prototype.filter` and with
 * the "push unless `includes`" idiom, and the properties that characterise them.
 */
module Sequences {

  /** No element occurs twice. */
  predicate Distinct<T(==)>(s: seq<T>) {
    forall i, j :: 0 <= i < j < |s| ==> s[i] != s[j]
  }

  /** `a` is `b` with some elements left out, the rest kept in order. */
  ghost predicate Subsequence<T>(a: seq<T>, b: seq<T>)
    decreases |b|
  {
    if a == [] then true
    else if b == [] then false
    else (a[0] == b[0] && Subsequence(a[1..], b[1..])) || Subsequence(a, b[1..])
  }

  /** `s.filter(p)`: the elements of `s` that satisfy `p`, in their original order. */
  function Filter<T>(s: seq<T>, p: T -> bool): (r: seq<T>)
    ensures forall k :: 0 <= k < |r| ==> r[k] in s && p(r[k])
    ensures forall k :: 0 <= k < |s| && p(s[k]) ==> s[k] in r
    ensures Subsequence(r, s)
    ensures |r| <= |s|
    ensures forall k :: 0 <= k < |s| ==> multiset(r)[s[k]] == if p(s[k]) then multiset(s)[s[k]] else 0
  {
    assert s != [] ==> s == [s[0]] + s[1..];
    if s == [] then []
    else if p(s[0]) then [s[0]] + Filter(s[1..], p)
    else Filter(s[1..], p)
  }

  /** Filtering with a predicate every element satisfies returns the input itself. */
  lemma {:induction false} FilterKeepsAll<T>(s: seq<T>, p: T -> bool)
    requires forall x :: x in s ==> p(x)
    ensures Filter(s, p) == s
  {
    if s != [] {
      assert s[0] in s;
      FilterKeepsAll(s[1..], p);
      assert [s[0]] + s[1..] == s;
    }
  }

  /** Index of the first occurrence of `x` in `s`. */
  function FirstIndex<T(==)>(s: seq<T>, x: T): (i: nat)
    requires x in s
    ensures i < |s| && s[i] == x
    ensures forall j :: 0 <= j < i ==> s[j] != x
  {
    if s[0] == x then 0 else 1 + FirstIndex(s[1..], x)
  }

  /**
   * The list built by pushing each element of `s`, in turn, unless it is already
   * included: each distinct element once, at its first occurrence.
   */
  function Dedup<T(==)>(s: seq<T>): (r: seq<T>)
    ensures |r| <= |s|
    ensures forall k :: 0 <= k < |r| ==> r[k] in s
  {
    if s == [] then []
    else
      var d := Dedup(s[..|s| - 1]);
      if s[|s| - 1] in d then d else d + [s[|s| - 1]]
  }

  /** `Dedup` keeps exactly the elements of its input. */
  lemma {:induction false} DedupMembers<T>(s: seq<T>)
    ensures forall x :: x in Dedup(s) <==> x in s
  {
    if s != [] {
      var init := s[..|s| - 1];
      DedupMembers(init);
      assert s == init + [s[|s| - 1]];
    }
  }

  /** `Dedup` never returns the same element twice. */
  lemma {:induction false} DedupDistinct<T>(s: seq<T>)
    ensures Distinct(Dedup(s))
  {
    if s != [] {
      DedupDistinct(s[..|s| - 1]);
    }
  }

  /** The elements of `Dedup(s)` appear in the order of their first occurrence in `s`. */
  lemma {:induction false} DedupFirstOccurrenceOrder<T>(s: seq<T>)
    ensures forall x :: x in Dedup(s) ==> x in s
    ensures forall i, j :: 0 <= i < j < |Dedup(s)| ==>
              FirstIndex(s, Dedup(s)[i]) < FirstIndex(s, Dedup(s)[j])
  {
    if s != [] {
      var init, last := s[..|s| - 1], s[|s| - 1];
      var d := Dedup(init);
      assert s == init + [last];
      assert Dedup(s) == if last in d then d else d + [last];
      DedupMembers(init);
      DedupFirstOccurrenceOrder(init);
      forall i, j | 0 <= i < j < |Dedup(s)|
        ensures FirstIndex(s, Dedup(s)[i]) < FirstIndex(s, Dedup(s)[j])
      {
        PushOrderStep(init, last, d, i, j);
      }
    }
    DedupMembers(s);
  }

  /**
   * The inductive step of `DedupFirstOccurrenceOrder`: `d` lists elements of
   * `init` in first-occurrence order, and pushing `last` unless `d` includes it
   * keeps that order in `init + [last]`.
   */
  lemma PushOrderStep<T>(init: seq<T>, last: T, d: seq<T>, i: nat, j: nat)
    requires forall x :: x in d <==> x in init
    requires forall i', j' :: 0 <= i' < j' < |d| ==> FirstIndex(init, d[i']) < FirstIndex(init, d[j'])
    requires i < j < |if last in d then d else d + [last]|
    ensures var r := if last in d then d else d + [last];
            FirstIndex(init + [last], r[i]) < FirstIndex(init + [last], r[j])
  {
    var r := if last in d then d else d + [last];
    assert r[i] == d[i] && d[i] in init;
    FirstIndexPrefix(init, [last], d[i]);
    if j < |d| {
      assert r[j] == d[j] && d[j] in init;
      FirstIndexPrefix(init, [last], d[j]);
    } else {
      FirstIndexOfNew(init, last);
    }
  }

  /** An element appended to a list that lacks it first occurs at the end. */
  lemma FirstIndexOfNew<T>(init: seq<T>, last: T)
    requires last !in init
    ensures FirstIndex(init + [last], last) == |init|
  {
    var s := init + [last];
    forall j | 0 <= j < |init| ensures s[j] != last {
      assert s[j] == init[j];
    }
  }

  /** Appending elements does not move the first occurrence of an element already present. */
  lemma {:induction false} FirstIndexPrefix<T>(a: seq<T>, b: seq<T>, x: T)
    requires x in a
    ensures FirstIndex(a + b, x) == FirstIndex(a, x)
  {
    if a[0] != x {
      assert (a + b)[1..] == a[1..] + b;
      FirstIndexPrefix(a[1..], b, x);
    }
  }
}
