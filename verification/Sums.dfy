/** Sums of multisets over finite sets and sequences, taken in no particular order. */
module Sums {

  ghost function Sum<T, E>(s: set<T>, f: T -> multiset<E>): multiset<E> {
    if s == {} then multiset{} else
      var x :| x in s;
      f(x) + Sum(s - {x}, f)
  }

  /** Any element may be taken out first, so the iteration order does not matter. */
  lemma {:induction false} SumPick<T, E>(s: set<T>, f: T -> multiset<E>, x: T)
    requires x in s
    ensures Sum(s, f) == f(x) + Sum(s - {x}, f)
  {
    var y :| y in s && Sum(s, f) == f(y) + Sum(s - {y}, f);
    if y != x {
      SumPick(s - {y}, f, x);
      SumPick(s - {x}, f, y);
      assert s - {y} - {x} == s - {x} - {y};
    }
  }

  lemma {:induction false} SumCongruence<T, E>(s: set<T>, f: T -> multiset<E>, g: T -> multiset<E>)
    requires forall x :: x in s ==> f(x) == g(x)
    ensures Sum(s, f) == Sum(s, g)
  {
    if s != {} {
      var x :| x in s;
      SumPick(s, f, x);
      SumPick(s, g, x);
      SumCongruence(s - {x}, f, g);
    }
  }

  lemma {:induction false} SumSplit<T, E>(s: set<T>, f: T -> multiset<E>, g: T -> multiset<E>, h: T -> multiset<E>)
    requires forall x :: x in s ==> f(x) == g(x) + h(x)
    ensures Sum(s, f) == Sum(s, g) + Sum(s, h)
  {
    if s != {} {
      var x :| x in s;
      SumPick(s, f, x);
      SumPick(s, g, x);
      SumPick(s, h, x);
      SumSplit(s - {x}, f, g, h);
    }
  }

  lemma SumInsert<T, E>(s: set<T>, f: T -> multiset<E>, x: T)
    requires x !in s
    ensures Sum(s + {x}, f) == Sum(s, f) + f(x)
  {
    SumPick(s + {x}, f, x);
    assert s + {x} - {x} == s;
  }

  /** Changing the summand at one key changes the sum by the difference at that key. */
  lemma SumUpdate<T, E>(s: set<T>, f: T -> multiset<E>, g: T -> multiset<E>, x: T)
    requires x in s && forall y :: y in s && y != x ==> f(y) == g(y)
    ensures Sum(s, f) + g(x) == Sum(s, g) + f(x)
  {
    SumPick(s, f, x);
    SumPick(s, g, x);
    SumCongruence(s - {x}, f, g);
  }

  lemma {:induction false} SumMember<T, E>(s: set<T>, f: T -> multiset<E>, e: E) returns (x: T)
    requires e in Sum(s, f)
    ensures x in s && e in f(x)
  {
    x :| x in s && Sum(s, f) == f(x) + Sum(s - {x}, f);
    if e !in f(x) {
      x := SumMember(s - {x}, f, e);
    }
  }

  lemma SumIncludes<T, E>(s: set<T>, f: T -> multiset<E>, x: T)
    requires x in s
    ensures f(x) <= Sum(s, f)
  {
    SumPick(s, f, x);
  }

  /** When only one key contributes an element, the sum holds it as often as that key does. */
  lemma SumCount<T, E>(s: set<T>, f: T -> multiset<E>, x: T, e: E)
    requires x in s && forall y :: y in s && y != x ==> e !in f(y)
    ensures Sum(s, f)[e] == f(x)[e]
  {
    SumPick(s, f, x);
    if e in Sum(s - {x}, f) {
      var y := SumMember(s - {x}, f, e);
      assert false;
    }
  }

  // ---- over sequences -----------------------------------------------------------------------

  ghost function SumSeq<T, E>(s: seq<T>, f: T -> multiset<E>): multiset<E> {
    if s == [] then multiset{} else f(s[0]) + SumSeq(s[1..], f)
  }

  lemma {:induction false} SumSeqMember<T, E>(s: seq<T>, f: T -> multiset<E>, e: E) returns (x: T)
    requires e in SumSeq(s, f)
    ensures x in s && e in f(x)
  {
    if e in f(s[0]) {
      x := s[0];
    } else {
      x := SumSeqMember(s[1..], f, e);
    }
  }

  lemma {:induction false} SumSeqIncludes<T, E>(s: seq<T>, f: T -> multiset<E>, x: T)
    requires x in s
    ensures f(x) <= SumSeq(s, f)
  {
    if x != s[0] {
      SumSeqIncludes(s[1..], f, x);
    }
  }

  /** An element that `f(x)` holds once and no other summand holds is counted once per `x`. */
  lemma {:induction false} SumSeqCount<T, E>(s: seq<T>, f: T -> multiset<E>, x: T, e: E)
    requires f(x)[e] == 1
    requires forall y :: y in s && y != x ==> e !in f(y)
    ensures SumSeq(s, f)[e] == multiset(s)[x]
  {
    if s != [] {
      assert s == [s[0]] + s[1..];
      SumSeqCount(s[1..], f, x, e);
    }
  }

  lemma {:induction false} SumSeqCongruence<T, E>(s: seq<T>, f: T -> multiset<E>, g: T -> multiset<E>)
    requires forall x :: x in s ==> f(x) == g(x)
    ensures SumSeq(s, f) == SumSeq(s, g)
  {
    if s != [] {
      SumSeqCongruence(s[1..], f, g);
    }
  }

  lemma {:induction false} SumSeqTakeOut<T, E>(s: seq<T>, f: T -> multiset<E>, k: nat)
    requires k < |s|
    ensures SumSeq(s, f) == f(s[k]) + SumSeq(s[..k] + s[k + 1..], f)
  {
    if k == 0 {
      assert s[..0] + s[1..] == s[1..];
    } else {
      SumSeqTakeOut(s[1..], f, k - 1);
      assert (s[..k] + s[k + 1..])[1..] == s[1..][..k - 1] + s[1..][k..];
    }
  }

  lemma TakeOutCounts<T>(s: seq<T>, k: nat)
    requires k < |s|
    ensures multiset(s) == multiset(s[..k] + s[k + 1..]) + multiset{s[k]}
  {
    assert s == s[..k] + ([s[k]] + s[k + 1..]);
  }

  lemma Cancel<T>(x: multiset<T>, y: multiset<T>, m: multiset<T>)
    requires x + m == y + m
    ensures x == y
  {
    forall e
      ensures x[e] == y[e]
    {
      assert (x + m)[e] == (y + m)[e];
    }
  }

  lemma SumSeqEmpty<T, E>(f: T -> multiset<E>)
    ensures SumSeq([], f) == multiset{}
  {}

  /** The same element taken out of both sides. */
  lemma MergeHead<T>(c: seq<T>, a: seq<T>, b: seq<T>) returns (k: nat)
    requires a != [] && multiset(c) == multiset(a) + multiset(b)
    ensures k < |c| && c[k] == a[0] && multiset(c[..k] + c[k + 1..]) == multiset(a[1..]) + multiset(b)
  {
    TakeOutCounts(a, 0);
    assert a[..0] + a[1..] == a[1..];
    assert a[0] in multiset(c);
    k :| 0 <= k < |c| && c[k] == a[0];
    TakeOutCounts(c, k);
    TakeFromBoth(multiset(c), multiset(c[..k] + c[k + 1..]), multiset(a), multiset(a[1..]), multiset(b), a[0]);
  }

  lemma TakeFromBoth<T>(c: multiset<T>, c': multiset<T>, a: multiset<T>, a': multiset<T>, b: multiset<T>, x: T)
    requires c == c' + multiset{x} && a == a' + multiset{x} && c == a + b
    ensures c' == a' + b
  {
    Cancel(c', a' + b, multiset{x});
  }

  /** A sequence sum depends only on how often each element occurs. */
  lemma {:induction false} SumSeqMerge<T, E>(c: seq<T>, f: T -> multiset<E>, a: seq<T>, b: seq<T>)
    requires multiset(c) == multiset(a) + multiset(b)
    ensures SumSeq(c, f) == SumSeq(a, f) + SumSeq(b, f)
    decreases |c|, |b|
  {
    hide SumSeq;
    if a != [] {
      var k := MergeHead(c, a, b);
      SumSeqTakeOut(c, f, k);
      SumSeqTakeOut(a, f, 0);
      assert a[..0] + a[1..] == a[1..];
      SumSeqMerge(c[..k] + c[k + 1..], f, a[1..], b);
    } else if b != [] {
      SumSeqMerge(c, f, b, a);
    } else {
      assert |multiset(c)| == 0;
      SumSeqEmpty(f);
    }
  }
}
