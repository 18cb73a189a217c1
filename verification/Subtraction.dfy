/** Interval subtraction: what is still missing from a planned range. */
module Subtraction {
  import opened Intervals

  /** The part of r that remains when the list is used up at offset current. */
  function Rest(r: ByteRange, current: int): seq<ByteRange> {
    if current <= r.end then [ByteRange(current, r.end)] else []
  }

  function MissingFrom(r: ByteRange, existing: seq<ByteRange>, current: int): seq<ByteRange> {
    if existing == [] then Rest(r, current) else
      var ex := existing[0];
      if ex.end < current then MissingFrom(r, existing[1..], current)
      else if ex.start > r.end then Rest(r, current)
      else
        var piece := if ex.start > current then [ByteRange(current, Min(ex.start - 1, r.end))] else [];
        var next := Max(current, ex.end + 1);
        if next > r.end then piece else piece + MissingFrom(r, existing[1..], next)
  }

  function Missing(r: ByteRange, existing: seq<ByteRange>): seq<ByteRange> {
    MissingFrom(r, existing, r.start)
  }

  /** gaps is the set difference r \ existing, in canonical form. */
  ghost predicate IsDifference(gaps: seq<ByteRange>, r: ByteRange, existing: seq<ByteRange>) {
    && Canonical(gaps)
    && forall x :: InSome(gaps, x) <==> r.Holds(x) && !InSome(existing, x)
  }

  /** gaps is the canonical form of the bytes of [current, end] outside the list. */
  ghost predicate IsGapsFrom(gaps: seq<ByteRange>, current: int, end: int, existing: seq<ByteRange>) {
    && Canonical(gaps)
    && (forall i :: 0 <= i < |gaps| ==> current <= gaps[i].start && gaps[i].end <= end)
    && (forall x :: InSome(gaps, x) <==> current <= x <= end && !InSome(existing, x))
  }

  lemma {:induction false} MissingFromSound(r: ByteRange, existing: seq<ByteRange>, current: int)
    requires SortedByStart(existing) && AllNonEmpty(existing)
    ensures IsGapsFrom(MissingFrom(r, existing, current), current, r.end, existing)
  {
    if existing == [] {
      RestIsGaps(r, current, existing);
    } else {
      var ex, rest := existing[0], existing[1..];
      assert existing == [ex] + rest;
      if ex.end < current {
        MissingFromSound(r, rest, current);
        SkipTaken(MissingFrom(r, rest, current), current, r.end, ex, rest);
      } else if ex.start > r.end {
        AllBeyond(existing, r.end);
        RestIsGaps(r, current, existing);
      } else {
        MissingFromSound(r, rest, ex.end + 1);
        BehindFirst(r, ex, rest, current);
      }
    }
  }

  lemma AllBeyond(existing: seq<ByteRange>, end: int)
    requires SortedByStart(existing) && existing != [] && existing[0].start > end
    ensures forall x :: InSome(existing, x) ==> x > end
  {
  }

  /** The list goes on behind a range that meets what is left. */
  lemma BehindFirst(r: ByteRange, ex: ByteRange, rest: seq<ByteRange>, current: int)
    requires SortedByStart([ex] + rest) && NonEmpty(ex) && current <= ex.end && ex.start <= r.end
    requires IsGapsFrom(MissingFrom(r, rest, ex.end + 1), ex.end + 1, r.end, rest)
    ensures IsGapsFrom(MissingFrom(r, [ex] + rest, current), current, r.end, [ex] + rest)
  {
    var existing, next := [ex] + rest, ex.end + 1;
    assert existing[1..] == rest;
    var tail := if next > r.end then [] else MissingFrom(r, rest, next);
    NoneLeft(next, r.end, rest);
    if ex.start > current {
      assert MissingFrom(r, existing, current) == [ByteRange(current, ex.start - 1)] + tail;
      forall i | 0 <= i < |rest|
        ensures ex.start <= rest[i].start
      {
        assert existing[0].start <= existing[i + 1].start;
      }
      PrependGap(current, ex, r.end, rest, tail);
    } else {
      assert MissingFrom(r, existing, current) == [] + tail == tail;
      SkipTaken(tail, current, r.end, ex, rest);
    }
  }

  lemma NoneLeft(current: int, end: int, existing: seq<ByteRange>)
    ensures current > end ==> IsGapsFrom([], current, end, existing)
  {
  }

  lemma SkipTaken(gaps: seq<ByteRange>, current: int, end: int, ex: ByteRange, rest: seq<ByteRange>)
    requires
      || (ex.end < current && IsGapsFrom(gaps, current, end, rest))
      || (ex.start <= current <= ex.end && IsGapsFrom(gaps, ex.end + 1, end, rest))
    ensures IsGapsFrom(gaps, current, end, [ex] + rest)
  {
    forall x ensures InSome(gaps, x) <==> current <= x <= end && !InSome([ex] + rest, x) {
      InSomeCons(ex, rest, x);
    }
  }

  lemma RestIsGaps(r: ByteRange, current: int, existing: seq<ByteRange>)
    requires forall x :: InSome(existing, x) ==> x > r.end
    ensures IsGapsFrom(Rest(r, current), current, r.end, existing)
  {
    var rest := Rest(r, current);
    forall x ensures InSome(rest, x) <==> current <= x <= r.end && !InSome(existing, x) {
      if current <= x <= r.end { assert rest[0].Holds(x); }
    }
  }

  lemma PrependGap(current: int, ex: ByteRange, end: int, rest: seq<ByteRange>, tail: seq<ByteRange>)
    requires current < ex.start <= end && NonEmpty(ex)
    requires forall i :: 0 <= i < |rest| ==> ex.start <= rest[i].start
    requires IsGapsFrom(tail, ex.end + 1, end, rest)
    ensures IsGapsFrom([ByteRange(current, ex.start - 1)] + tail, current, end, [ex] + rest)
  {
    var gap := ByteRange(current, ex.start - 1);
    forall x ensures InSome([gap] + tail, x) <==> current <= x <= end && !InSome([ex] + rest, x) {
      InSomeCons(gap, tail, x);
      InSomeCons(ex, rest, x);
      assert InSome(rest, x) ==> ex.start <= x;
    }
  }

  /** Exact subtraction, for any start-sorted, possibly overlapping list. */
  lemma MissingIsDifference(r: ByteRange, existing: seq<ByteRange>)
    requires SortedByStart(existing) && AllNonEmpty(existing)
    ensures IsDifference(Missing(r, existing), r, existing)
    ensures r.end < r.start ==> Missing(r, existing) == []
    ensures Missing(r, existing) == [] <==> forall x :: r.Holds(x) ==> InSome(existing, x)
  {
    MissingFromSound(r, existing, r.start);
    var gaps := Missing(r, existing);
    if gaps != [] {
      assert gaps[0].Holds(gaps[0].start);
      assert InSome(gaps, gaps[0].start);
    }
  }

  /** The difference has one canonical form, so the gaps depend only on which bytes are taken. */
  lemma DifferenceUnique(a: seq<ByteRange>, b: seq<ByteRange>, r: ByteRange, takenA: seq<ByteRange>, takenB: seq<ByteRange>)
    requires IsDifference(a, r, takenA) && IsDifference(b, r, takenB)
    requires forall x :: r.Holds(x) ==> (InSome(takenA, x) <==> InSome(takenB, x))
    ensures a == b
  {
    CanonicalUnique(a, b);
  }

  /** subtractRanges, in Go and in Python. */
  method SubtractRanges(r: ByteRange, existing: seq<ByteRange>) returns (missing: seq<ByteRange>)
    ensures missing == Missing(r, existing)
    ensures SortedByStart(existing) && AllNonEmpty(existing) ==> IsDifference(missing, r, existing)
  {
    if SortedByStart(existing) && AllNonEmpty(existing) { MissingIsDifference(r, existing); }
    missing := [];
    var current := r.start;
    var i := 0;
    while i < |existing|
      invariant 0 <= i <= |existing|
      invariant missing + MissingFrom(r, existing[i..], current) == Missing(r, existing)
    {
      var ex := existing[i];
      assert existing[i..][1..] == existing[i + 1..];
      i := i + 1;
      if ex.end < current { continue; }
      if ex.start > r.end { break; }
      if ex.start > current {
        var end := ex.start - 1;
        if end > r.end { end := r.end; }
        missing := missing + [ByteRange(current, end)];
      }
      if ex.end + 1 > current { current := ex.end + 1; }
      if current > r.end { break; }
    }
    if current <= r.end {
      missing := missing + [ByteRange(current, r.end)];
    }
  }
}
