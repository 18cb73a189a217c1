/** Answering one request from several middle blocks: the choice of spans. */
module Stitching {
  import opened Intervals
  import opened Tables

  datatype Span = Span(record: Block, range: ByteRange)

  /** coveringSpans, on records that are all usable. */
  function CoverFrom(records: seq<Block>, end: int, expected: int): Option<seq<Span>> {
    if records == [] then None
    else
      var id := records[0].id;
      if id.end < expected then CoverFrom(records[1..], end, expected)
      else if id.start > expected then None
      else
        var span := Span(records[0], ByteRange(expected, Min(id.end, end)));
        if id.end >= end then Some([span])
        else
          match CoverFrom(records[1..], end, id.end + 1)
          case None => None
          case Some(rest) => Some([span] + rest)
  }

  /** The spans cut [start, end] into consecutive non-empty pieces, each inside its record. */
  ghost predicate Partitions(spans: seq<Span>, records: seq<Block>, start: int, end: int) {
    && spans != [] && spans[0].range.start == start && spans[|spans| - 1].range.end == end
    && (forall i :: 0 <= i < |spans| ==>
          NonEmpty(spans[i].range) && spans[i].range.Within(spans[i].record.id.Range()) && spans[i].record in records)
    && (forall i :: 0 <= i < |spans| - 1 ==> spans[i].range.end + 1 == spans[i + 1].range.start)
  }

  ghost predicate HeldByRecord(records: seq<Block>, x: int) {
    exists i :: 0 <= i < |records| && records[i].id.Range().Holds(x)
  }

  lemma {:induction false} CoverSound(records: seq<Block>, end: int, start: int)
    requires start <= end && CoverFrom(records, end, start).Some?
    ensures Partitions(CoverFrom(records, end, start).value, records, start, end)
    decreases |records|
  {
    var id := records[0].id;
    assert records == [records[0]] + records[1..];
    if id.end < start {
      CoverSound(records[1..], end, start);
    } else if id.end < end {
      CoverSound(records[1..], end, id.end + 1);
      var rest := CoverFrom(records[1..], end, id.end + 1).value;
      var spans := CoverFrom(records, end, start).value;
      assert spans == [Span(records[0], ByteRange(start, id.end))] + rest;
      assert spans[|spans| - 1] == rest[|rest| - 1];
    }
  }

  predicate StartSorted(records: seq<Block>) {
    forall i, j :: 0 <= i < j < |records| ==> records[i].id.start <= records[j].id.start
  }

  lemma {:induction false} CoverComplete(records: seq<Block>, end: int, start: int)
    requires start <= end && StartSorted(records)
    ensures CoverFrom(records, end, start).Some? <==> forall x :: start <= x <= end ==> HeldByRecord(records, x)
    decreases |records|
  {
    if records == [] {
      assert !HeldByRecord(records, start);
    } else {
      var id, rest := records[0].id, records[1..];
      forall x ensures HeldByRecord(records, x) <==> id.Range().Holds(x) || HeldByRecord(rest, x) {
        HeldCons(records, x);
      }
      if id.end < start {
        CoverComplete(rest, end, start);
      } else if id.start > start {
        assert !HeldByRecord(records, start);
      } else if id.end < end {
        CoverComplete(rest, end, id.end + 1);
      }
    }
  }

  lemma HeldCons(records: seq<Block>, x: int)
    requires records != []
    ensures HeldByRecord(records, x) <==> records[0].id.Range().Holds(x) || HeldByRecord(records[1..], x)
  {
    if i :| 0 <= i < |records[1..]| && records[1..][i].id.Range().Holds(x) {
      assert records[i + 1].id.Range().Holds(x);
    }
    if i :| 0 <= i < |records| && records[i].id.Range().Holds(x) {
      assert i > 0 ==> records[1..][i - 1].id.Range().Holds(x);
    }
  }

  /** Stitching succeeds exactly when the sorted, possibly overlapping records cover the request, and then partitions it. */
  lemma StitchingExact(records: seq<Block>, r: ByteRange)
    requires NonEmpty(r) && StartSorted(records)
    ensures var spans := CoverFrom(records, r.end, r.start);
      && (spans.Some? <==> forall x :: r.Holds(x) ==> HeldByRecord(records, x))
      && (spans.Some? ==> Partitions(spans.value, records, r.start, r.end))
  {
    CoverComplete(records, r.end, r.start);
    assert (forall x :: r.Holds(x) ==> HeldByRecord(records, x)) <==> forall x :: r.start <= x <= r.end ==> HeldByRecord(records, x);
    if CoverFrom(records, r.end, r.start).Some? { CoverSound(records, r.end, r.start); }
  }
}
