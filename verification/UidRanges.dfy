/** Sorted lists of uid ranges, the binary search over them, and their merge and difference. */
module UidRangeLists {

  const INT32_MAX: int := 0x7fff_ffff

  type Int32 = x: int | -0x8000_0000 <= x <= INT32_MAX

  /** An inclusive range of 32-bit signed uids, with no promise that `start <= stop`. */
  datatype UidRange = UidRange(start: Int32, stop: Int32) {
    predicate Contains(uid: int) {
      start <= uid <= stop
    }
  }

  predicate Less(a: UidRange, b: UidRange) {
    if a.start != b.start then a.start < b.start else a.stop < b.stop
  }

  predicate Sorted(s: seq<UidRange>) {
    forall i, j :: 0 <= i < j < |s| ==> !Less(s[j], s[i])
  }

  /** Plain membership: what a list of ranges means. */
  predicate Member(s: seq<UidRange>, uid: int) {
    exists i :: 0 <= i < |s| && s[i].Contains(uid)
  }

  predicate WellFormed(s: seq<UidRange>) {
    forall i :: 0 <= i < |s| ==> s[i].start <= s[i].stop
  }

  predicate StopsNondecreasing(s: seq<UidRange>) {
    forall i, j :: 0 <= i < j < |s| ==> s[i].stop <= s[j].stop
  }

  predicate Overlapped(a: UidRange, b: UidRange) {
    a.stop >= b.start && a.start <= b.stop
  }

  /** Ranges that are not inverted overlap if and only if they have a uid in common. */
  lemma OverlapMeans(a: UidRange, b: UidRange)
    requires a.start <= a.stop && b.start <= b.stop
    ensures Overlapped(a, b) <==> exists uid: int :: a.Contains(uid) && b.Contains(uid)
  {
    if Overlapped(a, b) {
      var uid := if a.start < b.start then b.start else a.start;
      assert a.Contains(uid) && b.Contains(uid);
    }
  }

  predicate OverlapsItself(s: seq<UidRange>) {
    exists i, j :: 0 <= i < j < |s| && Overlapped(s[i], s[j])
  }

  /** The first index whose range is not below `(uid, uid)`: the result of `std::lower_bound`. */
  ghost predicate IsLowerBound(s: seq<UidRange>, uid: Int32, k: nat) {
    && k <= |s|
    && (forall i :: 0 <= i < k ==> Less(s[i], UidRange(uid, uid)))
    && (forall i :: k <= i < |s| ==> !Less(s[i], UidRange(uid, uid)))
  }

  function LowerBound(s: seq<UidRange>, uid: Int32): (k: nat)
    requires Sorted(s)
    ensures IsLowerBound(s, uid, k)
  {
    if s == [] then 0
    else if Less(s[|s| - 1], UidRange(uid, uid)) then |s|
    else LowerBound(s[..|s| - 1], uid)
  }

  lemma LowerBoundUnique(s: seq<UidRange>, uid: Int32, k: nat)
    requires Sorted(s) && IsLowerBound(s, uid, k)
    ensures LowerBound(s, uid) == k
  {
    assert IsLowerBound(s, uid, LowerBound(s, uid));
  }

  /** The answer `hasUid` computes: it inspects only the two ranges around the search position. */
  predicate HasUid(s: seq<UidRange>, uid: nat)
    requires Sorted(s)
  {
    uid <= INT32_MAX &&
    var k := LowerBound(s, uid);
    (k < |s| && s[k].start == uid) || (k > 0 && s[k - 1].stop >= uid)
  }

  /** `hasUid` never claims a uid that no range contains, on every sorted list. */
  lemma HasUidSound(s: seq<UidRange>, uid: nat)
    requires Sorted(s) && HasUid(s, uid)
    ensures Member(s, uid)
  {
    var k := LowerBound(s, uid);
    if k < |s| && s[k].start == uid {
      assert s[k].Contains(uid);
    } else {
      assert s[k - 1].Contains(uid);
    }
  }

  /** The least uid from which on a range can hide the ranges before it. */
  function Floor(r: UidRange): int {
    var least := if r.start > r.stop then r.start else r.stop + 1;
    if least > 0 then least else 0
  }

  /** Range `i` reaches the floor of the later range `k`, and the range after `k` starts beyond it. */
  predicate Hides(s: seq<UidRange>, k: nat, i: nat)
    requires i < |s| && k < |s|
  {
    Floor(s[k]) <= s[i].stop && (k + 1 < |s| ==> Floor(s[k]) < s[k + 1].start)
  }

  /** No range hides a uid of an earlier one. */
  ghost predicate Searchable(s: seq<UidRange>) {
    forall i, k :: 0 <= i < k < |s| ==> !Hides(s, k, i)
  }

  /** The search for the floor of a range ends just after it, unless the next range starts there. */
  lemma FloorPosition(s: seq<UidRange>, k: nat)
    requires Sorted(s) && k < |s| && Floor(s[k]) <= INT32_MAX
    requires k + 1 < |s| ==> s[k + 1].start > Floor(s[k])
    ensures !HasUid(s, Floor(s[k]))
  {
    var uid := Floor(s[k]);
    forall i | 0 <= i < |s|
      ensures Less(s[i], UidRange(uid, uid)) <==> i <= k
    {
      assert i < k ==> !Less(s[k], s[i]);
      assert i > k + 1 ==> !Less(s[i], s[k + 1]);
    }
    LowerBoundUnique(s, uid, k + 1);
  }

  lemma SearchableFinds(s: seq<UidRange>, uid: nat)
    requires Sorted(s) && Searchable(s) && uid <= INT32_MAX && Member(s, uid)
    ensures HasUid(s, uid)
  {
    var i :| 0 <= i < |s| && s[i].Contains(uid);
    var k := LowerBound(s, uid);
    if i >= k {
      assert !Less(s[i], s[k]) || i == k;
      assert s[k].start == uid;
    } else if s[k - 1].stop < uid {
      assert !Hides(s, k - 1, i);
    }
  }

  /** A uid that an unsearchable list holds and the search misses. */
  lemma UnsearchableMisses(s: seq<UidRange>) returns (uid: nat)
    requires Sorted(s) && !Searchable(s)
    ensures uid <= INT32_MAX && Member(s, uid) && !HasUid(s, uid)
  {
    hide HasUid;
    var i, k :| 0 <= i < k < |s| && Hides(s, k, i);
    FloorPosition(s, k);
    assert !Less(s[k], s[i]);
    uid := Floor(s[k]);
    assert s[i].Contains(uid);
  }

  /** `hasUid` is plain membership, for every uid, if and only if the list is searchable. */
  lemma HasUidExactly(s: seq<UidRange>)
    requires Sorted(s)
    ensures (forall uid: nat :: uid <= INT32_MAX ==> (HasUid(s, uid) <==> Member(s, uid))) <==> Searchable(s)
  {
    hide HasUid, Member, Sorted, Searchable;
    if Searchable(s) {
      forall uid: nat | uid <= INT32_MAX
        ensures HasUid(s, uid) <==> Member(s, uid)
      {
        if HasUid(s, uid) {
          HasUidSound(s, uid);
        } else if Member(s, uid) {
          SearchableFinds(s, uid);
        }
      }
    } else {
      var uid := UnsearchableMisses(s);
    }
  }

  /** `hasUid` is plain membership when no range ends before an earlier one does. */
  lemma HasUidIsMember(s: seq<UidRange>, uid: nat)
    requires Sorted(s) && StopsNondecreasing(s) && uid <= INT32_MAX
    ensures HasUid(s, uid) <==> Member(s, uid)
  {
    forall i, k | 0 <= i < k < |s|
      ensures !Hides(s, k, i)
    {
      assert s[i].stop <= s[k].stop;
    }
    hide HasUid, Member;
    HasUidExactly(s);
  }

  /** A list accepted by the overlap check, with no inverted range, is searched correctly. */
  lemma NoOverlapSearchable(s: seq<UidRange>, uid: nat)
    requires Sorted(s) && WellFormed(s) && !OverlapsItself(s) && uid <= INT32_MAX
    ensures HasUid(s, uid) <==> Member(s, uid)
  {
    forall i, j | 0 <= i < j < |s|
      ensures s[i].stop <= s[j].stop
    {
      assert !Overlapped(s[i], s[j]);
    }
    HasUidIsMember(s, uid);
  }

  /** Nested ranges hide uids, and so do inverted ranges although the overlap check accepts them. */
  lemma HasUidMisses()
    ensures var nested := [UidRange(0, 100), UidRange(10, 20)];
      Sorted(nested) && WellFormed(nested) && Member(nested, 50) && !HasUid(nested, 50)
    ensures var inverted := [UidRange(3, 10), UidRange(5, 2)];
      Sorted(inverted) && !OverlapsItself(inverted) && Member(inverted, 7) && !HasUid(inverted, 7)
  {
    var nested := [UidRange(0, 100), UidRange(10, 20)];
    assert nested[0].Contains(50);
    var inverted := [UidRange(3, 10), UidRange(5, 2)];
    assert inverted[0].Contains(7);
  }

  // ---- merge and difference -----------------------------------------------------------------

  /** `std::inplace_merge` of two sorted halves: on ties the left half comes first. */
  function Merge(a: seq<UidRange>, b: seq<UidRange>): (m: seq<UidRange>) {
    if a == [] then b
    else if b == [] then a
    else if Less(b[0], a[0]) then [b[0]] + Merge(a, b[1..])
    else [a[0]] + Merge(a[1..], b)
  }

  /** `std::set_difference`: equal elements cancel one for one. */
  function Difference(a: seq<UidRange>, b: seq<UidRange>): (d: seq<UidRange>) {
    if a == [] then []
    else if b == [] then a
    else if Less(a[0], b[0]) then [a[0]] + Difference(a[1..], b)
    else if Less(b[0], a[0]) then Difference(a, b[1..])
    else Difference(a[1..], b[1..])
  }

  lemma HeadSplit(s: seq<UidRange>)
    requires s != []
    ensures s == [s[0]] + s[1..]
    ensures multiset(s) == multiset{s[0]} + multiset(s[1..])
  {
    assert s == [s[0]] + s[1..];
  }

  lemma SortedTail(s: seq<UidRange>)
    requires Sorted(s) && s != []
    ensures Sorted(s[1..])
    ensures forall x :: x in s[1..] ==> !Less(x, s[0])
  {
    forall x | x in s[1..]
      ensures !Less(x, s[0])
    {
      var i :| 0 <= i < |s| - 1 && s[1..][i] == x;
      assert x == s[i + 1];
    }
  }

  lemma SortedCons(x: UidRange, s: seq<UidRange>)
    requires Sorted(s) && forall y :: y in s ==> !Less(y, x)
    ensures Sorted([x] + s)
  {
    var t := [x] + s;
    forall i, j | 0 <= i < j < |t|
      ensures !Less(t[j], t[i])
    {
      assert t[j] == s[j - 1];
      if i > 0 {
        assert t[i] == s[i - 1];
      }
    }
  }

  lemma {:induction false} MergeMultiset(a: seq<UidRange>, b: seq<UidRange>)
    ensures multiset(Merge(a, b)) == multiset(a) + multiset(b)
    decreases |a| + |b|
  {
    if a != [] && b != [] {
      HeadSplit(a);
      HeadSplit(b);
      if Less(b[0], a[0]) {
        MergeMultiset(a, b[1..]);
      } else {
        MergeMultiset(a[1..], b);
      }
    }
  }

  /** A lower bound of both lists is a lower bound of their merge. */
  lemma MergeFloor(a: seq<UidRange>, b: seq<UidRange>, x: UidRange)
    requires (forall y :: y in a ==> !Less(y, x)) && forall y :: y in b ==> !Less(y, x)
    ensures forall y :: y in Merge(a, b) ==> !Less(y, x)
  {
    MergeMultiset(a, b);
    forall y | y in Merge(a, b)
      ensures !Less(y, x)
    {
      assert y in multiset(Merge(a, b));
      assert y in multiset(a) || y in multiset(b);
    }
  }

  lemma HeadIsFloor(s: seq<UidRange>, x: UidRange)
    requires Sorted(s) && s != [] && !Less(s[0], x)
    ensures forall y :: y in s ==> !Less(y, x)
  {
    forall i | 0 <= i < |s|
      ensures !Less(s[i], x)
    {
      assert i == 0 || !Less(s[i], s[0]);
    }
  }

  lemma {:induction false} MergeCorrect(a: seq<UidRange>, b: seq<UidRange>)
    requires Sorted(a) && Sorted(b)
    ensures Sorted(Merge(a, b))
    ensures multiset(Merge(a, b)) == multiset(a) + multiset(b)
    decreases |a| + |b|
  {
    MergeMultiset(a, b);
    if a != [] && b != [] {
      if Less(b[0], a[0]) {
        SortedTail(b);
        MergeCorrect(a, b[1..]);
        HeadIsFloor(a, b[0]);
        MergeFloor(a, b[1..], b[0]);
        SortedCons(b[0], Merge(a, b[1..]));
      } else {
        SortedTail(a);
        MergeCorrect(a[1..], b);
        HeadIsFloor(b, a[0]);
        MergeFloor(a[1..], b, a[0]);
        SortedCons(a[0], Merge(a[1..], b));
      }
    }
  }

  lemma MinusKeeps(x: UidRange, a: multiset<UidRange>, b: multiset<UidRange>)
    requires x !in b
    ensures multiset{x} + (a - b) == multiset{x} + a - b
  {}

  lemma MinusSkips(x: UidRange, a: multiset<UidRange>, b: multiset<UidRange>)
    requires x !in a
    ensures a - (multiset{x} + b) == a - b
  {}

  lemma MinusCancels(x: UidRange, a: multiset<UidRange>, b: multiset<UidRange>)
    ensures (multiset{x} + a) - (multiset{x} + b) == a - b
  {}

  lemma {:induction false} DifferenceMultiset(a: seq<UidRange>, b: seq<UidRange>)
    requires Sorted(a) && Sorted(b)
    ensures multiset(Difference(a, b)) == multiset(a) - multiset(b)
    decreases |a| + |b|
  {
    hide Sorted;
    if a != [] && b != [] {
      HeadSplit(a);
      HeadSplit(b);
      SortedTail(a);
      SortedTail(b);
      if Less(a[0], b[0]) {
        DifferenceMultiset(a[1..], b);
        NotBelowHead(b, a[0]);
        MinusKeeps(a[0], multiset(a[1..]), multiset(b));
      } else if Less(b[0], a[0]) {
        DifferenceMultiset(a, b[1..]);
        NotBelowHead(a, b[0]);
        MinusSkips(b[0], multiset(a), multiset(b[1..]));
      } else {
        DifferenceMultiset(a[1..], b[1..]);
        MinusCancels(a[0], multiset(a[1..]), multiset(b[1..]));
      }
    }
  }

  lemma {:induction false} DifferenceCorrect(a: seq<UidRange>, b: seq<UidRange>)
    requires Sorted(a) && Sorted(b)
    ensures multiset(Difference(a, b)) == multiset(a) - multiset(b)
    ensures Sorted(Difference(a, b))
    decreases |a| + |b|
  {
    DifferenceMultiset(a, b);
    if a != [] && b != [] {
      SortedTail(a);
      SortedTail(b);
      if Less(a[0], b[0]) {
        DifferenceCorrect(a[1..], b);
        var rest := Difference(a[1..], b);
        forall y | y in rest
          ensures !Less(y, a[0])
        {
          assert y in multiset(rest);
          assert y in multiset(a[1..]);
        }
        SortedCons(a[0], rest);
      } else if Less(b[0], a[0]) {
        DifferenceCorrect(a, b[1..]);
      } else {
        DifferenceCorrect(a[1..], b[1..]);
      }
    }
  }

  lemma DifferenceEmpty(b: seq<UidRange>)
    ensures Difference([], b) == []
  {}

  /** One round of the difference loop, with both lists read from an index on. */
  lemma DifferenceStep(a: seq<UidRange>, b: seq<UidRange>, i: nat, j: nat)
    requires i < |a| && j <= |b|
    ensures Difference(a[i..], b[j..]) ==
            if j == |b| || Less(a[i], b[j]) then [a[i]] + Difference(a[i + 1..], b[j..])
            else if Less(b[j], a[i]) then Difference(a[i..], b[j + 1..])
            else Difference(a[i + 1..], b[j + 1..])
  {
    assert a[i..][1..] == a[i + 1..] && a[i..] == [a[i]] + a[i + 1..];
    if j < |b| {
      assert b[j..][1..] == b[j + 1..];
    } else {
      assert b[j..] == [];
      assert Difference(a[i + 1..], b[j..]) == a[i + 1..];
    }
  }

  lemma NotBelowHead(s: seq<UidRange>, x: UidRange)
    requires Sorted(s) && s != [] && Less(x, s[0])
    ensures x !in s
  {
    HeadIsFloor(s, s[0]);
  }

  lemma SortedHeads(a: seq<UidRange>, b: seq<UidRange>)
    requires Sorted(a) && Sorted(b) && a != [] && b != [] && multiset(a) == multiset(b)
    ensures a[0] == b[0]
  {
    assert a[0] in multiset(a) && b[0] in multiset(b);
    assert a[0] in b && b[0] in a;
    HeadIsFloor(a, a[0]);
    HeadIsFloor(b, b[0]);
  }

  /** A sorted list is determined by which ranges it holds and how often. */
  lemma {:induction false} SortedUnique(a: seq<UidRange>, b: seq<UidRange>)
    requires Sorted(a) && Sorted(b) && multiset(a) == multiset(b)
    ensures a == b
  {
    assert |a| == |multiset(a)| == |multiset(b)| == |b|;
    if a != [] {
      SortedHeads(a, b);
      HeadSplit(a);
      HeadSplit(b);
      SortedTail(a);
      SortedTail(b);
      assert multiset(a[1..]) == multiset(a) - multiset{a[0]};
      assert multiset(b[1..]) == multiset(b) - multiset{b[0]};
      SortedUnique(a[1..], b[1..]);
    }
  }

  /** Removing what was just added restores the exact list. */
  lemma AddThenRemove(a: seq<UidRange>, b: seq<UidRange>)
    requires Sorted(a) && Sorted(b)
    ensures Difference(Merge(a, b), b) == a
  {
    MergeCorrect(a, b);
    DifferenceCorrect(Merge(a, b), b);
    SortedUnique(Difference(Merge(a, b), b), a);
  }

  /** What writing the element being read over an earlier place does. */
  lemma Overwrite(r: seq<UidRange>, before: seq<UidRange>, read: nat, write: nat)
    requires write <= read < |r| == |before| && r[read..] == before[read..]
    ensures r[read] == before[read] && r[read + 1..] == before[read + 1..]
    ensures r[write := r[read]][..write + 1] == r[..write] + [before[read]]
    ensures r[write := r[read]][read + 1..] == before[read + 1..]
  {
    assert r[read] == r[read..][0] == before[read..][0];
    assert r[read + 1..] == r[read..][1..] == before[read..][1..] == before[read + 1..];
  }

  lemma Rejoin(a: seq<UidRange>, x: UidRange, b: seq<UidRange>)
    ensures a + ([x] + b) == a + [x] + b
  {}

  // ---- the class --------------------------------------------------------------------------

  function Insert(x: UidRange, s: seq<UidRange>): seq<UidRange> {
    Merge([x], s)
  }

  function Sort(s: seq<UidRange>): seq<UidRange> {
    if s == [] then [] else Insert(s[0], Sort(s[1..]))
  }

  lemma {:induction false} SortCorrect(s: seq<UidRange>)
    ensures Sorted(Sort(s)) && multiset(Sort(s)) == multiset(s)
  {
    if s != [] {
      SortCorrect(s[1..]);
      MergeCorrect([s[0]], Sort(s[1..]));
      HeadSplit(s);
    }
  }

  class UidRanges {
    var ranges: seq<UidRange>

    ghost predicate Valid()
      reads this
    {
      Sorted(ranges)
    }

    constructor (given: seq<UidRange>)
      ensures Valid() && multiset(ranges) == multiset(given)
    {
      SortCorrect(given);
      ranges := Sort(given);
    }

    method HasUidSearch(uid: nat) returns (found: bool)
      requires Valid()
      ensures found == HasUid(ranges, uid)
      ensures found ==> Member(ranges, uid)
    {
      if uid > INT32_MAX {
        return false;
      }
      var lo, hi := 0, |ranges|;
      while lo < hi
        invariant 0 <= lo <= hi <= |ranges|
        invariant forall i :: 0 <= i < lo ==> Less(ranges[i], UidRange(uid, uid))
        invariant forall i :: hi <= i < |ranges| ==> !Less(ranges[i], UidRange(uid, uid))
      {
        var mid := lo + (hi - lo) / 2;
        if Less(ranges[mid], UidRange(uid, uid)) {
          lo := mid + 1;
        } else {
          hi := mid;
        }
      }
      LowerBoundUnique(ranges, uid, lo);
      found := (lo < |ranges| && ranges[lo].start == uid) || (lo > 0 && ranges[lo - 1].stop >= uid);
      if found {
        HasUidSound(ranges, uid);
      }
    }

    method Add(other: UidRanges)
      requires Valid() && other.Valid() && other != this
      modifies this
      ensures Valid()
      ensures ranges == Merge(old(ranges), other.ranges)
      ensures multiset(ranges) == multiset(old(ranges)) + multiset(other.ranges)
    {
      MergeCorrect(ranges, other.ranges);
      ranges := Merge(ranges, other.ranges);
    }

    /** The difference is written over the list itself: the write index never passes the read index. */
    method Remove(other: UidRanges)
      requires Valid() && other.Valid() && other != this
      modifies this
      ensures Valid()
      ensures ranges == Difference(old(ranges), other.ranges)
      ensures multiset(ranges) == multiset(old(ranges)) - multiset(other.ranges)
    {
      hide Difference, Sorted, Less;
      ghost var before := ranges;
      assert before[0..] == before && other.ranges[0..] == other.ranges;
      var read, taken, write := 0, 0, 0;
      while read < |ranges|
        invariant 0 <= write <= read <= |ranges| == |before| && taken <= |other.ranges|
        invariant ranges[read..] == before[read..]
        invariant ranges[..write] + Difference(before[read..], other.ranges[taken..])
          == Difference(before, other.ranges)
        decreases |ranges| - read + |other.ranges| - taken
      {
        DifferenceStep(before, other.ranges, read, taken);
        Overwrite(ranges, before, read, write);
        if taken == |other.ranges| || Less(ranges[read], other.ranges[taken]) {
          Rejoin(ranges[..write], before[read], Difference(before[read + 1..], other.ranges[taken..]));
          ranges := ranges[write := ranges[read]];
          read, write := read + 1, write + 1;
        } else if Less(other.ranges[taken], ranges[read]) {
          taken := taken + 1;
        } else {
          read, taken := read + 1, taken + 1;
        }
      }
      assert before[read..] == [];
      DifferenceEmpty(other.ranges[taken..]);
      ranges := ranges[..write];
      assert ranges == Difference(before, other.ranges);
      DifferenceCorrect(before, other.ranges);
    }

    method OverlapsSelf() returns (overlaps: bool)
      ensures overlaps <==> OverlapsItself(ranges)
    {
      for i := 0 to |ranges|
        invariant forall k, l :: 0 <= k < i && k < l < |ranges| ==> !Overlapped(ranges[k], ranges[l])
      {
        for j := i + 1 to |ranges|
          invariant forall l :: i < l < j ==> !Overlapped(ranges[i], ranges[l])
        {
          if Overlapped(ranges[i], ranges[j]) {
            return true;
          }
        }
      }
      return false;
    }
  }
}
