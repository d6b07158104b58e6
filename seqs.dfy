/** `Array.prototype.filter` and `Array.prototype.map` over immutable
    sequences, with the facts every page filter of the dashboard relies on:
    the result keeps exactly the wanted elements, in their original order. */
module Seqs {

  /** `r` can be obtained from `s` by deleting elements: an order-preserving
      sub-sequence. */
  predicate IsSubseq<T(==)>(r: seq<T>, s: seq<T>)
    decreases |s|
  {
    if r == [] then true
    else if s == [] then false
    else (r[0] == s[0] && IsSubseq(r[1..], s[1..])) || IsSubseq(r, s[1..])
  }

  /** Every sequence is a sub-sequence of itself. */
  lemma {:induction false} IsSubseqRefl<T>(s: seq<T>)
    ensures IsSubseq(s, s)
    decreases |s|
  {
    if s != [] {
      IsSubseqRefl(s[1..]);
    }
  }

  /** Number of positions of `s` whose element `keep` accepts; an element
      occurring twice is counted twice. */
  function KeptCount<T>(s: seq<T>, keep: T -> bool): (n: nat)
    ensures n <= |s|
  {
    if s == [] then 0
    else (if keep(s[0]) then 1 else 0) + KeptCount(s[1..], keep)
  }

  /** `s.filter(keep)`: the accepted elements in their original order;
      `FilterCount` adds that each is kept as often as it occurs. */
  function Filter<T(==,!new)>(s: seq<T>, keep: T -> bool): (r: seq<T>)
    ensures |r| <= |s|
    ensures forall x :: x in r <==> x in s && keep(x)
    ensures IsSubseq(r, s)
    ensures (forall i :: 0 <= i < |s| ==> keep(s[i])) ==> r == s
    ensures (forall i :: 0 <= i < |s| ==> !keep(s[i])) ==> r == []
  {
    if s == [] then []
    else if keep(s[0]) then [s[0]] + Filter(s[1..], keep)
    else Filter(s[1..], keep)
  }

  /** The filter keeps one element per accepted position: together with
      `IsSubseq` and membership this fixes the result, duplicates included. */
  lemma {:induction false} FilterCount<T(!new)>(s: seq<T>, keep: T -> bool)
    ensures |Filter(s, keep)| == KeptCount(s, keep)
  {
    if s != [] {
      FilterCount(s[1..], keep);
      FilterStep(s, keep);
    }
  }

  /** One step of the filter: the head is kept or dropped by itself. */
  lemma FilterStep<T(!new)>(s: seq<T>, keep: T -> bool)
    requires s != []
    ensures Filter(s, keep) == (if keep(s[0]) then [s[0]] else []) + Filter(s[1..], keep)
  {
  }

  /** A filter whose predicate holds throughout keeps the whole sequence. */
  lemma FilterKeepsAll<T(!new)>(s: seq<T>, keep: T -> bool)
    requires forall x :: x in s ==> keep(x)
    ensures Filter(s, keep) == s
  {
    assert forall i :: 0 <= i < |s| ==> s[i] in s;
  }

  /** A filter whose predicate fails at exactly one position removes that
      element and nothing else. */
  lemma FilterDropsOne<T(!new)>(s: seq<T>, keep: T -> bool, k: nat)
    requires k < |s|
    requires forall i :: 0 <= i < |s| ==> (keep(s[i]) <==> i != k)
    ensures Filter(s, keep) == s[..k] + s[k + 1..]
  {
    var front, back := s[..k], s[k + 1..];
    assert forall i :: 0 <= i < |front| ==> keep(front[i]) by {
      forall i | 0 <= i < |front| ensures keep(front[i]) {
        assert front[i] == s[i];
      }
    }
    assert forall i :: 0 <= i < |back| ==> keep(back[i]) by {
      forall i | 0 <= i < |back| ensures keep(back[i]) {
        assert back[i] == s[k + 1 + i];
      }
    }
    assert Filter([s[k]], keep) == [] by {
      FilterStep([s[k]], keep);
    }
    FilterAppend([s[k]], back, keep);
    FilterAppend(front, [s[k]] + back, keep);
    SplitAt(s, k);
  }

  /** A sequence is its prefix, one element and its suffix. */
  lemma SplitAt<T>(s: seq<T>, k: nat)
    requires k < |s|
    ensures s == s[..k] + ([s[k]] + s[k + 1..])
  {
  }

  /** A one-element sequence is kept or dropped whole. */
  lemma FilterSingle<T(!new)>(x: T, keep: T -> bool)
    ensures Filter([x], keep) == if keep(x) then [x] else []
  {
    FilterStep([x], keep);
  }

  /** A prefix one longer is the shorter prefix and the next element. */
  lemma TakeSnoc<T>(s: seq<T>, i: nat)
    requires i < |s|
    ensures s[..i + 1] == s[..i] + [s[i]]
  {
  }

  /** Filtering a concatenation filters each part. */
  lemma {:induction false} FilterAppend<T(!new)>(a: seq<T>, b: seq<T>, keep: T -> bool)
    ensures Filter(a + b, keep) == Filter(a, keep) + Filter(b, keep)
  {
    if a == [] {
      assert a + b == b;
    } else {
      assert (a + b)[1..] == a[1..] + b;
      FilterAppend(a[1..], b, keep);
    }
  }

  /** Two predicates that agree on every element select the same elements. */
  lemma {:induction false} FilterCongruent<T(!new)>(s: seq<T>, p: T -> bool, q: T -> bool)
    requires forall x :: x in s ==> p(x) == q(x)
    ensures Filter(s, p) == Filter(s, q)
  {
    if s != [] {
      FilterCongruent(s[1..], p, q);
    }
  }

  /** `s.map(f)`. */
  function Map<T, U>(f: T -> U, s: seq<T>): (r: seq<U>)
    ensures |r| == |s|
    ensures forall i :: 0 <= i < |s| ==> r[i] == f(s[i])
  {
    seq(|s|, i requires 0 <= i < |s| => f(s[i]))
  }

  /** Mapping a non-empty sequence maps its head, then its tail. */
  lemma MapStep<T, U>(f: T -> U, s: seq<T>)
    requires s != []
    ensures Map(f, s) == [f(s[0])] + Map(f, s[1..])
  {
  }

  /** Mapping a concatenation maps each part. */
  lemma MapAppend<T, U>(f: T -> U, a: seq<T>, b: seq<T>)
    ensures Map(f, a + b) == Map(f, a) + Map(f, b)
  {
  }

  /** Mapping keeps the order-preserving sub-sequence relation. */
  lemma {:induction false} MapSubseq<T, U>(f: T -> U, r: seq<T>, s: seq<T>)
    requires IsSubseq(r, s)
    ensures IsSubseq(Map(f, r), Map(f, s))
    decreases |s|
  {
    if r != [] {
      assert Map(f, s)[1..] == Map(f, s[1..]);
      if r[0] == s[0] && IsSubseq(r[1..], s[1..]) {
        assert Map(f, r)[1..] == Map(f, r[1..]);
        MapSubseq(f, r[1..], s[1..]);
      } else {
        MapSubseq(f, r, s[1..]);
      }
    }
  }
}
