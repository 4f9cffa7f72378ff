/** Order-preserving filtering and mapping of sequences, the shape of the
    runtime's `Array.prototype.filter` and `Array.prototype.map` calls. */
module Seqs {

  /** The elements of `s` that satisfy `p`, in their original order. */
  function Filter<T>(s: seq<T>, p: T -> bool): (r: seq<T>)
    ensures |r| <= |s|
    ensures forall x :: x in r ==> x in s && p(x)
  {
    if s == [] then [] else Filter(s[..|s| - 1], p) + (if p(s[|s| - 1]) then [s[|s| - 1]] else [])
  }

  /** `f` applied to every element of `s`, in order. */
  function Map<T, U>(s: seq<T>, f: T -> U): (r: seq<U>)
    ensures |r| == |s|
  {
    if s == [] then [] else Map(s[..|s| - 1], f) + [f(s[|s| - 1])]
  }

  /** Filtering keeps an element with exactly its multiplicity when it satisfies
      the predicate and drops every copy of it otherwise. */
  lemma {:induction false} FilterCount<T>(s: seq<T>, p: T -> bool, x: T)
    ensures multiset(Filter(s, p))[x] == if p(x) then multiset(s)[x] else 0
  {
    if s != [] {
      FilterCount(s[..|s| - 1], p, x);
      assert s == s[..|s| - 1] + [s[|s| - 1]];
    }
  }

  /** Membership in a filtered sequence, both directions. */
  lemma FilterMembership<T>(s: seq<T>, p: T -> bool, x: T)
    ensures x in Filter(s, p) <==> x in s && p(x)
  {
    FilterCount(s, p, x);
    assert x in Filter(s, p) <==> multiset(Filter(s, p))[x] > 0;
    assert x in s <==> multiset(s)[x] > 0;
  }

  /** Filtering distributes over concatenation, so the kept elements stay in
      their original relative order. */
  lemma {:induction false} FilterConcat<T>(a: seq<T>, b: seq<T>, p: T -> bool)
    ensures Filter(a + b, p) == Filter(a, p) + Filter(b, p)
  {
    if b != [] {
      var b' := b[..|b| - 1];
      FilterConcat(a, b', p);
      assert (a + b)[..|a + b| - 1] == a + b';
      assert (a + b)[|a + b| - 1] == b[|b| - 1];
    } else {
      assert a + b == a;
    }
  }

  /** When every element satisfies the predicate, nothing is removed. */
  lemma {:induction false} FilterAll<T>(s: seq<T>, p: T -> bool)
    requires forall x :: x in s ==> p(x)
    ensures Filter(s, p) == s
  {
    if s != [] {
      FilterAll(s[..|s| - 1], p);
      assert s == s[..|s| - 1] + [s[|s| - 1]];
    }
  }

  /** The i-th element of a mapped sequence is `f` of the i-th element. */
  lemma {:induction false} MapAt<T, U>(s: seq<T>, f: T -> U, i: nat)
    requires i < |s|
    ensures Map(s, f)[i] == f(s[i])
  {
    if i < |s| - 1 {
      MapAt(s[..|s| - 1], f, i);
    }
  }

  /** Mapping distributes over concatenation. */
  lemma {:induction false} MapConcat<T, U>(a: seq<T>, b: seq<T>, f: T -> U)
    ensures Map(a + b, f) == Map(a, f) + Map(b, f)
  {
    if b != [] {
      var b' := b[..|b| - 1];
      MapConcat(a, b', f);
      assert (a + b)[..|a + b| - 1] == a + b';
      assert (a + b)[|a + b| - 1] == b[|b| - 1];
    } else {
      assert a + b == a;
    }
  }

  /** The multiset of a mapped sequence depends only on the multiset of its
      input: reordering the input reorders the output and nothing else. */
  lemma {:induction false} MapMultiset<T, U>(a: seq<T>, b: seq<T>, f: T -> U)
    requires multiset(a) == multiset(b)
    ensures multiset(Map(a, f)) == multiset(Map(b, f))
    decreases |a|
  {
    if a == [] {
      assert |b| == |multiset(b)| == 0;
    } else {
      var x := a[0];
      assert x in multiset(b);
      var j :| 0 <= j < |b| && b[j] == x;
      var b1, b2 := b[..j], b[j + 1..];
      assert b == b1 + [x] + b2;
      assert a == [x] + a[1..];
      RemoveOne(a[1..], b1, b2, x, multiset(a));
      MapMultiset(a[1..], b1 + b2, f);
      MapConcat([x], a[1..], f);
      assert Map([x], f) == [f(x)];
      MapInsertMultiset(b1, x, b2, f);
    }
  }

  /** Mapping a sequence with one more element adds that element's image. */
  lemma MapInsertMultiset<T, U>(b1: seq<T>, x: T, b2: seq<T>, f: T -> U)
    ensures multiset(Map(b1 + [x] + b2, f)) == multiset(Map(b1 + b2, f)) + multiset{f(x)}
  {
    MapConcat(b1, b2, f);
    MapConcat(b1 + [x], b2, f);
    MapConcat(b1, [x], f);
    assert Map([x], f) == [f(x)];
  }

  /** Cancelling one element from both sides of a multiset equation. */
  lemma RemoveOne<T>(rest: seq<T>, b1: seq<T>, b2: seq<T>, x: T, m: multiset<T>)
    requires m == multiset([x] + rest) && m == multiset(b1 + [x] + b2)
    ensures multiset(rest) == multiset(b1 + b2)
  {
    assert multiset([x] + rest) == multiset{x} + multiset(rest);
    assert multiset(b1 + [x] + b2) == multiset(b1) + multiset{x} + multiset(b2);
    var l, r := multiset(rest), multiset(b1) + multiset(b2);
    assert multiset{x} + l == multiset{x} + r;
    forall y ensures l[y] == r[y] {
      assert (multiset{x} + l)[y] == (multiset{x} + r)[y];
    }
    assert l == r;
    assert multiset(b1 + b2) == multiset(b1) + multiset(b2);
  }
}
