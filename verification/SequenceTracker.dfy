/** Interval bookkeeping of received sequence numbers, in wrapping 64-bit arithmetic. */
module SequenceTracker {

  const MAX64: nat := 0xFFFF_FFFF_FFFF_FFFF
  const TWO64: nat := 0x1_0000_0000_0000_0000

  type U64 = x: nat | x <= MAX64

  /** Wrapping addition and subtraction of `std::uint64_t`. */
  function Add64(a: U64, b: U64): U64 {
    if a + b <= MAX64 then a + b else a + b - TWO64
  }

  function Sub64(a: U64, b: U64): U64 {
    if b <= a then a - b else a - b + TWO64
  }

  /** The two functions above are addition and subtraction modulo 2 to the 64. */
  lemma WrapsModulo(a: U64, b: U64)
    ensures Add64(a, b) == (a + b) % TWO64
    ensures Sub64(a, b) == (a - b) % TWO64
  {
  }

  datatype SequenceRange = SequenceRange(first: U64, last: U64)

  // --- Sets of sequence numbers ----------------------------------------------------------

  predicate Between(first: nat, x: nat, last: nat) {
    first <= x <= last
  }

  ghost function Interval(first: nat, last: nat): set<nat> {
    set x: nat | first <= x <= last && Between(first, x, last)
  }

  lemma {:induction false} IntervalSize(first: nat, last: nat)
    requires first <= last + 1
    ensures |Interval(first, last)| == last + 1 - first
    decreases last + 1 - first
  {
    if first == last + 1 {
      assert Interval(first, last) == {};
    } else {
      assert Interval(first, last) == {first} + Interval(first + 1, last);
      IntervalSize(first + 1, last);
    }
  }

  ghost function Cover(ranges: seq<SequenceRange>): set<nat> {
    if ranges == [] then {}
    else Cover(ranges[..|ranges| - 1]) + Interval(ranges[|ranges| - 1].first, ranges[|ranges| - 1].last)
  }

  lemma {:induction false} SubsetSize(a: set<nat>, b: set<nat>)
    requires a <= b
    ensures |a| <= |b|
  {
    if a != {} {
      var x :| x in a;
      SubsetSize(a - {x}, b - {x});
    }
  }

  lemma {:induction false} CoverAppend(a: seq<SequenceRange>, b: seq<SequenceRange>)
    ensures Cover(a + b) == Cover(a) + Cover(b)
  {
    if b == [] {
      assert a + b == a;
    } else {
      var n := |b| - 1;
      assert (a + b)[..|a + b| - 1] == a + b[..n];
      CoverAppend(a, b[..n]);
    }
  }

  lemma {:induction false} CoverMember(ranges: seq<SequenceRange>, x: nat)
    ensures x in Cover(ranges) <==>
            exists i :: 0 <= i < |ranges| && ranges[i].first <= x <= ranges[i].last
  {
    if ranges != [] {
      var n := |ranges| - 1;
      CoverMember(ranges[..n], x);
      assert forall i :: 0 <= i < n ==> ranges[..n][i] == ranges[i];
    }
  }

  /** Every range is nonempty and starts at one or more. */
  ghost predicate Proper(ranges: seq<SequenceRange>) {
    forall i :: 0 <= i < |ranges| ==> 1 <= ranges[i].first <= ranges[i].last
  }

  /** Sorted, disjoint and not adjacent. */
  ghost predicate Separated(ranges: seq<SequenceRange>) {
    forall i, j :: 0 <= i < j < |ranges| ==> ranges[i].last + 1 < ranges[j].first
  }

  lemma CoverBounds(ranges: seq<SequenceRange>)
    requires Proper(ranges)
    ensures Cover(ranges) <= Interval(1, MAX64)
    ensures |Cover(ranges)| <= MAX64
  {
    forall x | x in Cover(ranges)
      ensures x in Interval(1, MAX64)
    {
      CoverMember(ranges, x);
    }
    SubsetSize(Cover(ranges), Interval(1, MAX64));
    IntervalSize(1, MAX64);
  }

  // --- The tracker -----------------------------------------------------------------------

  class Tracker {
    var ranges: seq<SequenceRange>

    ghost predicate Valid()
      reads this
    {
      Proper(ranges) && Separated(ranges)
    }

    /** The sequences recorded so far. */
    ghost function Recorded(): set<nat>
      reads this
    {
      Cover(ranges)
    }

    constructor ()
      ensures Valid() && Recorded() == {}
    {
      ranges := [];
    }

    /** Accepts exactly the nonzero sequences above everything recorded before. */
    method Record(sequence: U64) returns (accepted: bool)
      requires Valid()
      modifies this
      ensures Valid()
      ensures accepted <==> sequence != 0 && forall x :: x in old(Recorded()) ==> x < sequence
      ensures Recorded() == old(Recorded()) + if accepted then {sequence as nat} else {}
    {
      if sequence == 0 {
        return false;
      }
      if ranges == [] {
        ranges := [SequenceRange(sequence, sequence)];
        CoverOneMore([], SequenceRange(sequence, sequence));
        return true;
      }
      var n := |ranges| - 1;
      var back := ranges[n];
      BackIsGreatest(ranges);
      if back.last != MAX64 && sequence > Add64(back.last, 1) {
        AppendGap(ranges, sequence);
        ranges := ranges + [SequenceRange(sequence, sequence)];
        return true;
      }
      if back.last != MAX64 && sequence == Add64(back.last, 1) {
        CoverExtend(ranges, sequence);
        ranges := ranges[n := SequenceRange(back.first, sequence)];
        return true;
      }
      return false;
    }
  }

  /** A sequence beyond a gap becomes a range of its own. */
  lemma AppendGap(ranges: seq<SequenceRange>, sequence: U64)
    requires ranges != [] && Proper(ranges) && Separated(ranges) && sequence > ranges[|ranges| - 1].last + 1
    ensures var r := ranges + [SequenceRange(sequence, sequence)];
            Proper(r) && Separated(r) && Cover(r) == Cover(ranges) + {sequence as nat}
  {
    CoverOneMore(ranges, SequenceRange(sequence, sequence));
    assert Interval(sequence, sequence) == {sequence as nat};
    var n := |ranges| - 1;
    forall i | 0 <= i < |ranges|
      ensures ranges[i].last + 1 < sequence
    {
      assert i < n ==> ranges[i].last + 1 < ranges[n].first;
    }
  }

  /** Extending the last range by its successor adds exactly that. */
  lemma CoverExtend(ranges: seq<SequenceRange>, sequence: U64)
    requires ranges != [] && Proper(ranges) && Separated(ranges) && sequence == ranges[|ranges| - 1].last + 1
    ensures var r := ranges[|ranges| - 1 := SequenceRange(ranges[|ranges| - 1].first, sequence)];
            Proper(r) && Separated(r) && Cover(r) == Cover(ranges) + {sequence as nat}
  {
    var n := |ranges| - 1;
    var back := ranges[n];
    assert ranges[n := SequenceRange(back.first, sequence)][..n] == ranges[..n];
    assert Interval(back.first, sequence) == Interval(back.first, back.last) + {sequence as nat};
  }

  /** The last bound of the last range is the greatest recorded sequence. */
  lemma BackIsGreatest(ranges: seq<SequenceRange>)
    requires Proper(ranges) && Separated(ranges) && ranges != []
    ensures ranges[|ranges| - 1].last as nat in Cover(ranges)
    ensures forall x :: x in Cover(ranges) ==> x <= ranges[|ranges| - 1].last
  {
    forall x | x in Cover(ranges)
      ensures x <= ranges[|ranges| - 1].last
    {
      CoverMember(ranges, x);
    }
  }

  // --- Sorting ---------------------------------------------------------------------------

  predicate Before(a: SequenceRange, b: SequenceRange) {
    a.first < b.first || (a.first == b.first && a.last < b.last)
  }

  ghost predicate Sorted(ranges: seq<SequenceRange>) {
    forall i, j :: 0 <= i < j < |ranges| ==> !Before(ranges[j], ranges[i])
  }

  /** Inserts behind everything that must not come later. */
  function Insert(x: SequenceRange, ranges: seq<SequenceRange>): (r: seq<SequenceRange>)
    ensures |r| == |ranges| + 1
    ensures multiset(r) == multiset(ranges) + multiset{x}
  {
    if ranges == [] || !Before(x, ranges[|ranges| - 1]) then ranges + [x]
    else
      var n := |ranges| - 1;
      assert ranges == ranges[..n] + [ranges[n]];
      Insert(x, ranges[..n]) + [ranges[n]]
  }

  lemma {:induction false} InsertSorted(x: SequenceRange, ranges: seq<SequenceRange>)
    requires Sorted(ranges)
    ensures Sorted(Insert(x, ranges))
  {
    if ranges == [] || !Before(x, ranges[|ranges| - 1]) {
    } else {
      var n := |ranges| - 1;
      InsertSorted(x, ranges[..n]);
      var rest := Insert(x, ranges[..n]);
      forall i | 0 <= i < |rest|
        ensures !Before(ranges[n], rest[i])
      {
        assert rest[i] in multiset(rest);
        assert rest[i] == x || rest[i] in ranges[..n];
      }
    }
  }

  /** The standard library's sort, by its contract: an ordered permutation. */
  method Sort(ranges: seq<SequenceRange>) returns (sorted: seq<SequenceRange>)
    ensures Sorted(sorted) && multiset(sorted) == multiset(ranges)
    ensures forall i, j :: 0 <= i < j < |sorted| ==>
              || sorted[i].first < sorted[j].first
              || (sorted[i].first == sorted[j].first && sorted[i].last <= sorted[j].last)
  {
    sorted := [];
    var i := 0;
    while i < |ranges|
      invariant 0 <= i <= |ranges|
      invariant Sorted(sorted) && multiset(sorted) == multiset(ranges[..i])
    {
      assert ranges[..i + 1] == ranges[..i] + [ranges[i]];
      InsertSorted(ranges[i], sorted);
      sorted := Insert(ranges[i], sorted);
      i := i + 1;
    }
    assert ranges[..i] == ranges;
  }

  lemma PermutationCovers(a: seq<SequenceRange>, b: seq<SequenceRange>)
    requires multiset(a) == multiset(b)
    ensures Cover(a) == Cover(b)
    ensures Proper(a) ==> Proper(b)
  {
    SubCover(a, b);
    SubCover(b, a);
    forall i | 0 <= i < |b|
      ensures b[i] in a
    {
      assert b[i] in multiset(a);
    }
  }

  lemma SubCover(a: seq<SequenceRange>, b: seq<SequenceRange>)
    requires multiset(a) == multiset(b)
    ensures Cover(a) <= Cover(b)
  {
    forall x | x in Cover(a)
      ensures x in Cover(b)
    {
      CoverMember(a, x);
      CoverMember(b, x);
      var i :| 0 <= i < |a| && a[i].first <= x <= a[i].last;
      assert a[i] in multiset(b);
    }
  }

  // --- Counting the union ----------------------------------------------------------------

  /** `count + last - first + 1`, evaluated left to right with wrap-around. */
  function WrappedTotal(count: U64, first: U64, last: U64): U64 {
    Add64(Sub64(Add64(count, last), first), 1)
  }

  lemma WrapsBack(count: U64, first: U64, last: U64)
    requires first <= last && count + last - first + 1 <= MAX64
    ensures WrappedTotal(count, first, last) == count + last - first + 1
    ensures Add64(count, Add64(Sub64(last, first), 1)) == count + last - first + 1
  {
  }

  /** `closed` are the values below the current range that have been counted. */
  ghost predicate MergeState(done: seq<SequenceRange>, closed: set<nat>, current: SequenceRange, count: nat) {
    && current.first <= current.last
    && Cover(done) == closed + Interval(current.first, current.last)
    && (forall x :: x in closed ==> x < current.first)
    && count == |closed|
  }

  lemma MergeTotal(done: seq<SequenceRange>, closed: set<nat>, current: SequenceRange, count: U64)
    requires Proper(done) && MergeState(done, closed, current, count)
    ensures |Cover(done)| == count + current.last - current.first + 1 <= MAX64
  {
    var here := Interval(current.first, current.last);
    assert closed !! here;
    assert |closed + here| == |closed| + |here|;
    IntervalSize(current.first, current.last);
    CoverBounds(done);
  }

  lemma CoverOneMore(done: seq<SequenceRange>, range: SequenceRange)
    ensures Cover(done + [range]) == Cover(done) + Interval(range.first, range.last)
  {
    assert (done + [range])[..|done|] == done;
  }

  /** A gap: the current range is closed and counted. */
  lemma MergeClose(done: seq<SequenceRange>, closed: set<nat>, current: SequenceRange, count: U64, range: SequenceRange)
    requires Proper(done) && MergeState(done, closed, current, count)
    requires current.last + 1 < range.first <= range.last
    ensures MergeState(done + [range], Cover(done), range, count + current.last - current.first + 1)
  {
    CoverOneMore(done, range);
    MergeTotal(done, closed, current, count);
  }

  /** No gap: the current range grows. */
  lemma MergeExtend(done: seq<SequenceRange>, closed: set<nat>, current: SequenceRange, count: U64, range: SequenceRange)
    requires MergeState(done, closed, current, count)
    requires current.first <= range.first <= current.last + 1 && current.last < range.last
    ensures MergeState(done + [range], closed, SequenceRange(current.first, range.last), count)
  {
    CoverOneMore(done, range);
    assert Interval(current.first, range.last)
        == Interval(current.first, current.last) + Interval(range.first, range.last);
  }

  /** Nothing new: the range is already covered. */
  lemma MergeAbsorb(done: seq<SequenceRange>, closed: set<nat>, current: SequenceRange, count: U64, range: SequenceRange)
    requires MergeState(done, closed, current, count)
    requires current.first <= range.first <= range.last <= current.last
    ensures MergeState(done + [range], closed, current, count)
  {
    CoverOneMore(done, range);
    assert Interval(range.first, range.last) <= Interval(current.first, current.last);
  }

  lemma MergeStart(ranges: seq<SequenceRange>)
    requires Proper(ranges) && ranges != []
    ensures MergeState(ranges[..1], {}, ranges[0], 0)
  {
    assert ranges[..1][..0] == [];
  }

  /** The three branches of the loop body, in the machine arithmetic of the code. */
  lemma MergeTurn(ranges: seq<SequenceRange>, index: nat, closed: set<nat>, current: SequenceRange, count: U64)
    requires Proper(ranges) && index < |ranges| && MergeState(ranges[..index], closed, current, count)
    requires current.first <= ranges[index].first
    ensures var range := ranges[index];
            var done := ranges[..index + 1];
            if current.last != MAX64 && range.first > Add64(current.last, 1)
            then MergeState(done, Cover(ranges[..index]), range, Add64(count, Add64(Sub64(current.last, current.first), 1)))
            else if range.last > current.last
            then MergeState(done, closed, SequenceRange(current.first, range.last), count)
            else MergeState(done, closed, current, count)
  {
    var range := ranges[index];
    assert ranges[..index + 1] == ranges[..index] + [range];
    var done := ranges[..index];
    if current.last + 1 < range.first {
      MergeClose(done, closed, current, count, range);
      MergeTotal(done, closed, current, count);
      WrapsBack(count, current.first, current.last);
    } else if current.last < range.last {
      MergeExtend(done, closed, current, count, range);
    } else {
      MergeAbsorb(done, closed, current, count, range);
    }
  }

  lemma MergeEnd(ranges: seq<SequenceRange>, closed: set<nat>, current: SequenceRange, count: U64)
    requires Proper(ranges) && MergeState(ranges, closed, current, count)
    ensures WrappedTotal(count, current.first, current.last) == |Cover(ranges)|
  {
    MergeTotal(ranges, closed, current, count);
    WrapsBack(count, current.first, current.last);
  }

  /** The merge loop over sorted ranges. */
  method CountSorted(ranges: seq<SequenceRange>) returns (count: U64)
    requires Proper(ranges) && Sorted(ranges) && ranges != []
    ensures count == |Cover(ranges)|
  {
    var current := ranges[0];
    count := 0;
    ghost var closed: set<nat> := {};
    MergeStart(ranges);
    var index := 1;
    while index < |ranges|
      invariant 1 <= index <= |ranges|
      invariant MergeState(ranges[..index], closed, current, count)
      invariant current.first <= ranges[index - 1].first
    {
      var range := ranges[index];
      assert !Before(range, ranges[index - 1]);
      MergeTurn(ranges, index, closed, current, count);
      if current.last != MAX64 && range.first > Add64(current.last, 1) {
        count := Add64(count, Add64(Sub64(current.last, current.first), 1));
        closed := Cover(ranges[..index]);
        current := range;
      } else if range.last > current.last {
        current := SequenceRange(current.first, range.last);
      }
      index := index + 1;
    }
    assert ranges[..index] == ranges;
    MergeEnd(ranges, closed, current, count);
    count := WrappedTotal(count, current.first, current.last);
  }

  /** All sequences recorded by any of the trackers. */
  ghost function Union(trackers: seq<Tracker>): set<nat>
    reads trackers
  {
    if trackers == [] then {}
    else Union(trackers[..|trackers| - 1]) + trackers[|trackers| - 1].Recorded()
  }

  lemma {:induction false} UnionMember(trackers: seq<Tracker>, x: nat)
    ensures x in Union(trackers) <==> exists i :: 0 <= i < |trackers| && x in trackers[i].Recorded()
  {
    if trackers != [] {
      var n := |trackers| - 1;
      UnionMember(trackers[..n], x);
      assert forall i :: 0 <= i < n ==> trackers[..n][i] == trackers[i];
    }
  }

  lemma UnionStep(trackers: seq<Tracker>, i: nat, ranges: seq<SequenceRange>)
    requires i < |trackers| && Cover(ranges) == Union(trackers[..i])
    ensures Cover(ranges + trackers[i].ranges) == Union(trackers[..i + 1])
  {
    assert trackers[..i + 1][..i] == trackers[..i];
    CoverAppend(ranges, trackers[i].ranges);
  }

  lemma ProperAppend(a: seq<SequenceRange>, b: seq<SequenceRange>)
    requires Proper(a) && Proper(b)
    ensures Proper(a + b)
  {
  }

  /** The count is the number of distinct sequences over all trackers, exact although the
      sums wrap. */
  method CountUniqueSequences(trackers: seq<Tracker>) returns (count: U64)
    requires forall t :: t in trackers ==> t.Valid()
    ensures count == |Union(trackers)|
  {
    var ranges: seq<SequenceRange> := [];
    var i := 0;
    while i < |trackers|
      invariant 0 <= i <= |trackers|
      invariant Proper(ranges) && Cover(ranges) == Union(trackers[..i])
    {
      assert trackers[i] in trackers;
      UnionStep(trackers, i, ranges);
      ProperAppend(ranges, trackers[i].ranges);
      ranges := ranges + trackers[i].ranges;
      i := i + 1;
    }
    assert trackers[..i] == trackers;
    if ranges == [] {
      return 0;
    }
    count := CountMerged(ranges);
  }

  method CountMerged(ranges: seq<SequenceRange>) returns (count: U64)
    requires Proper(ranges) && ranges != []
    ensures count == |Cover(ranges)|
  {
    var sorted := Sort(ranges);
    PermutationCovers(ranges, sorted);
    assert ranges[0] in multiset(sorted);
    count := CountSorted(sorted);
  }
}
