/** Planning of middle ranges: a window after the head, cut along segment cells. */
module Planner {
  import opened Intervals

  datatype PlannerConfig = PlannerConfig(
    segmentBytes: int,
    windowBytes: int,
    resumeOverlapBytes: int,
    maxSessionBytes: int,
    resumeBackBlocks: int,
    resumeForwardBlocks: int)

  /** What config validation guarantees. */
  predicate ValidConfig(c: PlannerConfig) {
    && c.segmentBytes > 0 && c.windowBytes > 0 && c.maxSessionBytes > 0
    && c.resumeOverlapBytes >= 0 && c.resumeBackBlocks >= 0 && c.resumeForwardBlocks >= 0
  }

  /** Go's remainder, which takes the sign of the dividend. */
  function GoRem(value: int, alignment: int): int
    requires alignment > 0
  {
    if value >= 0 then value % alignment else -((-value) % alignment)
  }

  function AlignDown(value: int, alignment: int): int
    requires alignment > 0
  {
    value - GoRem(value, alignment)
  }

  function AlignUp(value: int, alignment: int): int
    requires alignment > 0
  {
    if GoRem(value, alignment) == 0 then value else value + alignment - GoRem(value, alignment)
  }

  /** Python's align_down and align_up, over a floored remainder. */
  function PyAlignDown(value: int, alignment: int): int
    requires alignment > 0
  {
    value - value % alignment
  }

  function PyAlignUp(value: int, alignment: int): int
    requires alignment > 0
  {
    if value % alignment == 0 then value else value + alignment - value % alignment
  }

  /** Last byte of the segment cell that holds offset current. */
  function CellEnd(current: int, segment: int): int
    requires segment > 0
  {
    if GoRem(current, segment) != 0 then AlignUp(current, segment) - 1 else current + segment - 1
  }

  lemma CellEndAhead(current: int, segment: int)
    requires segment > 0
    ensures CellEnd(current, segment) >= current
  {
    var m := if current >= 0 then current % segment else (-current) % segment;
    assert 0 <= m < segment;
  }

  function Tile(current: int, last: int, segment: int): seq<ByteRange>
    requires segment > 0
    decreases last - current
  {
    if current > last then [] else
      CellEndAhead(current, segment);
      var end := Min(CellEnd(current, segment), last);
      [ByteRange(current, end)] + Tile(end + 1, last, segment)
  }

  function HeadEnd(mediaSize: int, headSize: int): int { Min(headSize, mediaSize) - 1 }

  function TailStart(mediaSize: int, tailSize: int): int { Max(0, mediaSize - tailSize) }

  /** The bytes strictly between the head block and the tail block. */
  function Middle(mediaSize: int, headSize: int, tailSize: int): ByteRange {
    ByteRange(HeadEnd(mediaSize, headSize) + 1, TailStart(mediaSize, tailSize) - 1)
  }

  function WindowBytes(headBytes: int, c: PlannerConfig): int {
    if headBytes <= 0 || c.windowBytes <= 0 || c.maxSessionBytes <= 0 then 0
    else Min(headBytes, Min(c.windowBytes, c.maxSessionBytes))
  }

  predicate BlockMode(c: PlannerConfig) { c.resumeBackBlocks > 0 || c.resumeForwardBlocks > 0 }

  /** Where a plan without a frontier starts: a little before the anchor, on a cell border when the window has room for one. */
  function ResumeStart(middle: ByteRange, anchor: int, window: int, c: PlannerConfig): int
    requires c.segmentBytes > 0
  {
    var start := Max(anchor - Min(c.resumeOverlapBytes, window / 2), middle.start);
    if window > c.segmentBytes then Max(AlignDown(start, c.segmentBytes), middle.start) else start
  }

  /** The window in block mode: whole segments around the anchor. */
  function BlockWindow(anchor: int, queuedUntil: Option<int>, c: PlannerConfig): ByteRange
    requires c.segmentBytes > 0
  {
    var cell := AlignDown(anchor, c.segmentBytes);
    ByteRange(if queuedUntil.Some? then queuedUntil.value + 1 else cell - c.resumeBackBlocks * c.segmentBytes,
              cell + (c.resumeForwardBlocks + 1) * c.segmentBytes - 1)
  }

  /** planMiddleWindow: where a plan starts and ends, before clamping to the middle. */
  function RawWindow(middle: ByteRange, anchor: int, queuedUntil: Option<int>, c: PlannerConfig): Option<ByteRange>
    requires c.segmentBytes > 0
  {
    var headEnd := middle.start - 1;
    var window := WindowBytes(headEnd + 1, c);
    if BlockMode(c) then
      if anchor <= headEnd then None else Some(BlockWindow(anchor, queuedUntil, c))
    else if window <= 0 || (queuedUntil.None? && anchor <= headEnd) then None
    else
      var start := if queuedUntil.Some? then Max(queuedUntil.value + 1, middle.start) else ResumeStart(middle, anchor, window, c);
      Some(ByteRange(start, Min(start + window - 1, middle.end)))
  }

  /** A window cut down to the middle, None when nothing is left of it. */
  function Clamped(window: Option<ByteRange>, middle: ByteRange): Option<ByteRange> {
    match window
    case None => None
    case Some(w) =>
      var clamped := ByteRange(Max(w.start, middle.start), Min(w.end, middle.end));
      if NonEmpty(clamped) then Some(clamped) else None
  }

  /** The clamped window, None when there is nothing to plan. */
  function Window(mediaSize: int, headSize: int, tailSize: int, anchor: int, queuedUntil: Option<int>,
                  c: PlannerConfig): Option<ByteRange> {
    var middle := Middle(mediaSize, headSize, tailSize);
    if c.segmentBytes <= 0 || !NonEmpty(middle) then None else Clamped(RawWindow(middle, anchor, queuedUntil, c), middle)
  }

  function Plan(mediaSize: int, headSize: int, tailSize: int, anchor: int, queuedUntil: Option<int>,
                c: PlannerConfig): seq<ByteRange> {
    match Window(mediaSize, headSize, tailSize, anchor, queuedUntil, c)
    case None => []
    case Some(w) => Tile(w.start, w.end, c.segmentBytes)
  }

  method MinPositive(values: seq<int>) returns (min: int)
    ensures values == [] || (exists v :: v in values && v <= 0) ==> min == 0
    ensures values != [] && (forall v :: v in values ==> v > 0) ==> min in values && forall v :: v in values ==> min <= v
  {
    min := 0;
    for i := 0 to |values|
      invariant forall j :: 0 <= j < i ==> values[j] > 0
      invariant if i == 0 then min == 0 else min in values[..i] && forall j :: 0 <= j < i ==> min <= values[j]
    {
      assert values[i] in values;
      if values[i] <= 0 { return 0; }
      if min == 0 || values[i] < min { min := values[i]; }
    }
  }

  method PlanMiddleWindow(middle: ByteRange, anchor: int, queuedUntil: Option<int>, c: PlannerConfig)
    returns (window: Option<ByteRange>)
    requires c.segmentBytes > 0
    ensures window == RawWindow(middle, anchor, queuedUntil, c)
  {
    var headEnd := middle.start - 1;
    if c.resumeBackBlocks > 0 || c.resumeForwardBlocks > 0 {
      if anchor <= headEnd { return None; }
      var cell := AlignDown(anchor, c.segmentBytes);
      var start := cell - c.resumeBackBlocks * c.segmentBytes;
      var sessionEnd := cell + (c.resumeForwardBlocks + 1) * c.segmentBytes - 1;
      if queuedUntil.Some? { start := queuedUntil.value + 1; }
      assert ByteRange(start, sessionEnd) == BlockWindow(anchor, queuedUntil, c);
      return Some(ByteRange(start, sessionEnd));
    }
    var sizes := [headEnd + 1, c.windowBytes, c.maxSessionBytes];
    assert sizes[0] in sizes && sizes[1] in sizes && sizes[2] in sizes;
    var windowBytes := MinPositive(sizes);
    assert windowBytes == WindowBytes(headEnd + 1, c);
    if windowBytes <= 0 { return None; }
    var start: int;
    if queuedUntil.None? {
      if anchor <= headEnd { return None; }
      var overlap := c.resumeOverlapBytes;
      var half := windowBytes / 2;
      if overlap > half { overlap := half; }
      start := anchor - overlap;
      if start < middle.start { start := middle.start; }
      if windowBytes > c.segmentBytes {
        start := AlignDown(start, c.segmentBytes);
        if start < middle.start { start := middle.start; }
      }
      assert start == ResumeStart(middle, anchor, windowBytes, c);
    } else {
      start := queuedUntil.value + 1;
      if start < middle.start { start := middle.start; }
    }
    var sessionEnd := start + windowBytes - 1;
    if sessionEnd > middle.end { sessionEnd := middle.end; }
    return Some(ByteRange(start, sessionEnd));
  }

  method PlanMiddleRanges(mediaSize: int, headSize: int, tailSize: int, anchor: int, queuedUntil: Option<int>, c: PlannerConfig)
    returns (out: seq<ByteRange>)
    ensures out == Plan(mediaSize, headSize, tailSize, anchor, queuedUntil, c)
  {
    var segment := c.segmentBytes;
    if segment <= 0 { return []; }
    var headEnd := headSize - 1;
    if headEnd >= mediaSize { headEnd := mediaSize - 1; }
    var tailStart := mediaSize - tailSize;
    if tailStart < 0 { tailStart := 0; }
    var middleStart, middleEnd := headEnd + 1, tailStart - 1;
    assert ByteRange(middleStart, middleEnd) == Middle(mediaSize, headSize, tailSize);
    if middleStart > middleEnd { return []; }
    var window := PlanMiddleWindow(ByteRange(middleStart, middleEnd), anchor, queuedUntil, c);
    if window.None? { return []; }
    var start, sessionEnd := window.value.start, window.value.end;
    if start < middleStart { start := middleStart; }
    if sessionEnd > middleEnd { sessionEnd := middleEnd; }
    assert Clamped(window, ByteRange(middleStart, middleEnd)) == if start > sessionEnd then None else Some(ByteRange(start, sessionEnd));
    if start > sessionEnd { return []; }
    out := CutIntoCells(ByteRange(start, sessionEnd), ByteRange(middleStart, middleEnd), segment);
  }

  /** The loop of PlanMiddleRanges. */
  method CutIntoCells(window: ByteRange, middle: ByteRange, segment: int) returns (out: seq<ByteRange>)
    requires segment > 0 && NonEmpty(window) && window.Within(middle)
    ensures out == Tile(window.start, window.end, segment)
  {
    out := [];
    var current := window.start;
    while current <= window.end
      invariant current >= window.start
      invariant out + Tile(current, window.end, segment) == Tile(window.start, window.end, segment)
      decreases window.end - current
    {
      CellEndAhead(current, segment);
      var segmentEnd := current + segment - 1;
      if GoRem(current, segment) != 0 { segmentEnd := AlignUp(current, segment) - 1; }
      assert segmentEnd == CellEnd(current, segment);
      var end := segmentEnd;
      if end > window.end { end := window.end; }
      if end > middle.end { end := middle.end; }
      if end >= middle.start && current <= middle.end {
        var startRange := current;
        if startRange < middle.start { startRange := middle.start; }
        out := out + [ByteRange(startRange, end)];
      }
      current := end + 1;
    }
  }

  /** The Python planner's window, which has no block mode. */
  function PyWindow(mediaSize: int, headSize: int, tailSize: int, anchor: int, queuedUntil: Option<int>,
                    c: PlannerConfig): Option<ByteRange>
    requires c.segmentBytes > 0
  {
    var window := if headSize <= 0 then 0 else Min(headSize, Min(c.windowBytes, c.maxSessionBytes));
    var middle := Middle(mediaSize, headSize, tailSize);
    if window <= 0 || !NonEmpty(middle) then None
    else if queuedUntil.None? && anchor < middle.start then None
    else
      var overlap := if window <= 1 then 0 else Min(c.resumeOverlapBytes, window / 2);
      var resumed := Max(middle.start, anchor - overlap);
      var start :=
        if queuedUntil.Some? then Max(middle.start, queuedUntil.value + 1)
        else if window > c.segmentBytes then Max(middle.start, PyAlignDown(resumed, c.segmentBytes))
        else resumed;
      Some(ByteRange(start, Min(start + window - 1, middle.end)))
  }

  function PyPlan(mediaSize: int, headSize: int, tailSize: int, anchor: int, queuedUntil: Option<int>,
                  c: PlannerConfig): seq<ByteRange>
    requires c.segmentBytes > 0
  {
    match PyWindow(mediaSize, headSize, tailSize, anchor, queuedUntil, c)
    case None => []
    case Some(w) => Tile(w.start, w.end, c.segmentBytes)
  }

  /** plan_middle_ranges, the Python planner. */
  method PyPlanMiddleRanges(mediaSize: int, headSize: int, tailSize: int, anchor: int, queuedUntil: Option<int>, c: PlannerConfig)
    returns (out: seq<ByteRange>)
    requires ValidConfig(c) && mediaSize >= 0
    ensures out == PyPlan(mediaSize, headSize, tailSize, anchor, queuedUntil, c)
  {
    var segment := c.segmentBytes;
    var windowBytes := if headSize <= 0 then 0 else Min(headSize, Min(c.windowBytes, c.maxSessionBytes));
    if windowBytes <= 0 { return []; }
    var headEnd := Min(headSize, mediaSize) - 1;
    var tailStart := Max(0, mediaSize - tailSize);
    var middleStart, middleEnd := headEnd + 1, tailStart - 1;
    assert ByteRange(middleStart, middleEnd) == Middle(mediaSize, headSize, tailSize);
    if middleStart > middleEnd { return []; }
    var start: int;
    if queuedUntil.None? {
      if anchor <= headEnd { return []; }
      var overlap := if windowBytes <= 1 then 0 else Min(c.resumeOverlapBytes, windowBytes / 2);
      start := Max(middleStart, anchor - overlap);
      if windowBytes > segment { start := Max(middleStart, PyAlignDown(start, segment)); }
    } else {
      start := Max(middleStart, queuedUntil.value + 1);
    }
    var sessionEnd := Min(start + windowBytes - 1, middleEnd);
    assert PyWindow(mediaSize, headSize, tailSize, anchor, queuedUntil, c) == Some(ByteRange(start, sessionEnd));
    out := PyCutIntoCells(ByteRange(start, sessionEnd), ByteRange(middleStart, middleEnd), segment);
  }

  /** The loop of plan_middle_ranges. */
  method PyCutIntoCells(window: ByteRange, middle: ByteRange, segment: int) returns (out: seq<ByteRange>)
    requires segment > 0 && 0 <= middle.start <= window.start && window.end <= middle.end
    ensures out == Tile(window.start, window.end, segment)
  {
    out := [];
    var current := window.start;
    while current <= window.end
      invariant current >= window.start
      invariant out + Tile(current, window.end, segment) == Tile(window.start, window.end, segment)
      decreases window.end - current
    {
      CellEndAhead(current, segment);
      var segmentEnd := current + segment - 1;
      if current % segment != 0 { segmentEnd := PyAlignUp(current, segment) - 1; }
      assert segmentEnd == CellEnd(current, segment);
      var end := Min(segmentEnd, Min(window.end, middle.end));
      if end >= middle.start && current <= middle.end {
        out := out + [ByteRange(Max(current, middle.start), end)];
      }
      current := end + 1;
    }
  }

  /** With both block counts zero the Go planner equals the Python planner. */
  lemma PlannersAgree(mediaSize: int, headSize: int, tailSize: int, anchor: int, queuedUntil: Option<int>, c: PlannerConfig)
    requires ValidConfig(c) && mediaSize >= 0 && tailSize >= 0 && !BlockMode(c)
    ensures Plan(mediaSize, headSize, tailSize, anchor, queuedUntil, c) == PyPlan(mediaSize, headSize, tailSize, anchor, queuedUntil, c)
  {
    PlannersShareWindow(mediaSize, headSize, tailSize, anchor, queuedUntil, c);
  }

  /** With both block counts zero the two planners work on the same window, on all inputs. */
  lemma PlannersShareWindow(mediaSize: int, headSize: int, tailSize: int, anchor: int, queuedUntil: Option<int>, c: PlannerConfig)
    requires ValidConfig(c) && mediaSize >= 0 && tailSize >= 0 && !BlockMode(c)
    ensures Window(mediaSize, headSize, tailSize, anchor, queuedUntil, c)
         == match PyWindow(mediaSize, headSize, tailSize, anchor, queuedUntil, c)
            case None => None
            case Some(w) => if NonEmpty(w) then Some(w) else None
  {
    var middle := Middle(mediaSize, headSize, tailSize);
    if NonEmpty(middle) {
      assert headSize < mediaSize;
      assert HeadEnd(mediaSize, headSize) + 1 == headSize;
    }
  }

  predicate InOneCell(r: ByteRange, segment: int)
    requires segment > 0
  {
    r.start / segment == r.end / segment
  }

  predicate EndsCell(r: ByteRange, segment: int)
    requires segment > 0
  {
    (r.end + 1) % segment == 0
  }

  /** out cuts the window into consecutive pieces, each inside one segment cell, breaking only at cell borders. */
  ghost predicate IsTiling(out: seq<ByteRange>, window: ByteRange, segment: int)
    requires segment > 0
  {
    && out != [] && out[0].start == window.start && out[|out| - 1].end == window.end
    && AllNonEmpty(out)
    && (forall i :: 0 <= i < |out| - 1 ==> out[i].end + 1 == out[i + 1].start && EndsCell(out[i], segment))
    && (forall i :: 0 <= i < |out| ==> InOneCell(out[i], segment))
  }

  function TotalLength(rs: seq<ByteRange>): int {
    if rs == [] then 0 else rs[0].Length() + TotalLength(rs[1..])
  }

  lemma CellArithmetic(current: int, end: int, segment: int)
    requires segment > 0 && 0 <= current <= end <= CellEnd(current, segment)
    ensures current / segment == end / segment
    ensures (CellEnd(current, segment) + 1) % segment == 0
  {
    var q, m := current / segment, current % segment;
    assert current == q * segment + m;
    var last := CellEnd(current, segment);
    assert last + 1 == (q + 1) * segment;
    assert last + 1 == q * segment + segment;
    var d := end - q * segment;
    assert 0 <= d < segment;
    assert end == q * segment + d;
    QuotientUnique(end, q, d, segment);
    QuotientUnique(last + 1, q + 1, 0, segment);
  }

  lemma QuotientUnique(x: int, q: int, r: int, alignment: int)
    requires alignment > 0 && 0 <= r < alignment && x == q * alignment + r
    ensures x / alignment == q && x % alignment == r
  {
    var q', r' := x / alignment, x % alignment;
    assert x == q' * alignment + r';
    if q > q' { MulAtLeast(q - q', alignment); }
    if q < q' { MulAtLeast(q' - q, alignment); }
  }

  lemma MulAtLeast(k: int, a: int)
    requires k >= 1 && a > 0
    ensures k * a >= a
  {
  }

  lemma PrependCell(r: ByteRange, rest: seq<ByteRange>, last: int, segment: int)
    requires segment > 0 && NonEmpty(r) && InOneCell(r, segment) && EndsCell(r, segment)
    requires IsTiling(rest, ByteRange(r.end + 1, last), segment)
    ensures IsTiling([r] + rest, ByteRange(r.start, last), segment)
    ensures TotalLength([r] + rest) == r.Length() + TotalLength(rest)
  {
    var out := [r] + rest;
    assert out[1..] == rest;
    forall i | 0 <= i < |out| - 1
      ensures out[i].end + 1 == out[i + 1].start && EndsCell(out[i], segment)
    {
      if i > 0 { assert out[i] == rest[i - 1] && out[i + 1] == rest[i]; }
    }
  }

  /** The next piece of a tiling. */
  lemma FirstCell(current: int, last: int, segment: int) returns (r: ByteRange)
    requires 0 <= current <= last && segment > 0
    ensures r.start == current <= r.end <= last && InOneCell(r, segment) && (r.end < last ==> EndsCell(r, segment))
    ensures Tile(current, last, segment) == [r] + Tile(r.end + 1, last, segment)
  {
    CellEndAhead(current, segment);
    r := ByteRange(current, Min(CellEnd(current, segment), last));
    CellArithmetic(current, r.end, segment);
  }

  lemma {:induction false} TileTiles(current: int, last: int, segment: int)
    requires 0 <= current <= last && segment > 0
    ensures IsTiling(Tile(current, last, segment), ByteRange(current, last), segment)
    ensures TotalLength(Tile(current, last, segment)) == last - current + 1
    decreases last - current
  {
    var r := FirstCell(current, last, segment);
    if r.end < last {
      TileTiles(r.end + 1, last, segment);
      PrependCell(r, Tile(r.end + 1, last, segment), last, segment);
    } else {
      assert Tile(current, last, segment) == [r];
    }
  }

  lemma {:induction false} WindowBound(mediaSize: int, headSize: int, tailSize: int, anchor: int,
                                       queuedUntil: Option<int>, c: PlannerConfig)
    requires ValidConfig(c) && mediaSize >= 0 && headSize > 0 && tailSize >= 0
    requires Window(mediaSize, headSize, tailSize, anchor, queuedUntil, c).Some?
    ensures var w := Window(mediaSize, headSize, tailSize, anchor, queuedUntil, c).value;
      && NonEmpty(w) && w.Within(Middle(mediaSize, headSize, tailSize))
      && (!BlockMode(c) ==> w.Length() <= Min(headSize, Min(c.windowBytes, c.maxSessionBytes)))
      && (BlockMode(c) && queuedUntil.None? ==> w.Length() <= (c.resumeBackBlocks + c.resumeForwardBlocks + 1) * c.segmentBytes)
  {
    if BlockMode(c) && queuedUntil.None? {
      var b, f, s := c.resumeBackBlocks, c.resumeForwardBlocks, c.segmentBytes;
      assert (b + f + 1) * s == b * s + (f + 1) * s;
    }
  }

  /** Planned ranges exactly tile the clamped window strictly between head and tail, one segment cell each, within budget. */
  lemma PlanTiles(mediaSize: int, headSize: int, tailSize: int, anchor: int, queuedUntil: Option<int>, c: PlannerConfig)
    requires ValidConfig(c) && mediaSize >= 0 && headSize > 0 && tailSize >= 0
    ensures var out := Plan(mediaSize, headSize, tailSize, anchor, queuedUntil, c);
      out != [] ==>
        && IsTiling(out, ByteRange(out[0].start, out[|out| - 1].end), c.segmentBytes)
        && Window(mediaSize, headSize, tailSize, anchor, queuedUntil, c) == Some(ByteRange(out[0].start, out[|out| - 1].end))
        && HeadEnd(mediaSize, headSize) < out[0].start && out[|out| - 1].end < TailStart(mediaSize, tailSize)
        && TotalLength(out) == out[|out| - 1].end - out[0].start + 1
        && (!BlockMode(c) ==> TotalLength(out) <= Min(headSize, Min(c.windowBytes, c.maxSessionBytes)))
        && (BlockMode(c) && queuedUntil.None? ==>
              TotalLength(out) <= (c.resumeBackBlocks + c.resumeForwardBlocks + 1) * c.segmentBytes)
  {
    var window := Window(mediaSize, headSize, tailSize, anchor, queuedUntil, c);
    if window.Some? {
      WindowBound(mediaSize, headSize, tailSize, anchor, queuedUntil, c);
      TileTiles(window.value.start, window.value.end, c.segmentBytes);
    }
  }
}
