/** Which bytes a plan consists of, byte by byte, in the terms of the configured counts. */
module PlanWindows {
  import opened Intervals
  import opened Planner

  lemma {:induction false} TileHolds(first: int, last: int, segment: int, x: int)
    requires segment > 0
    ensures InSome(Tile(first, last, segment), x) <==> first <= x <= last
    decreases last - first
  {
    if first <= last {
      CellEndAhead(first, segment);
      var end := Min(CellEnd(first, segment), last);
      TileHolds(end + 1, last, segment, x);
      InSomeCons(ByteRange(first, end), Tile(end + 1, last, segment), x);
    }
  }

  lemma QuotientBounds(x: int, k: int, segment: int)
    requires segment > 0
    ensures x >= k * segment <==> x / segment >= k
    ensures x <= k * segment + segment - 1 <==> x / segment <= k
  {
    var q, m := x / segment, x % segment;
    assert x == q * segment + m && 0 <= m < segment;
    if q > k { MulAtLeast(q - k, segment); assert (q - k) * segment == q * segment - k * segment; }
    if q < k { MulAtLeast(k - q, segment); assert (k - q) * segment == k * segment - q * segment; }
  }

  /** A byte strictly between head and tail. */
  predicate InMiddle(x: int, mediaSize: int, headSize: int, tailSize: int) { headSize <= x < mediaSize - tailSize }

  lemma PlannedInWindow(mediaSize: int, headSize: int, tailSize: int, anchor: int, queuedUntil: Option<int>, c: PlannerConfig, x: int)
    requires ValidConfig(c) && mediaSize >= 0 && headSize >= 0 && tailSize >= 0
    ensures var raw := RawWindow(Middle(mediaSize, headSize, tailSize), anchor, queuedUntil, c);
      InSome(Plan(mediaSize, headSize, tailSize, anchor, queuedUntil, c), x) <==>
        InMiddle(x, mediaSize, headSize, tailSize) && raw.Some? && raw.value.Holds(x)
  {
    var w := Window(mediaSize, headSize, tailSize, anchor, queuedUntil, c);
    if w.Some? { TileHolds(w.value.start, w.value.end, c.segmentBytes, x); }
  }

  lemma CellBounds(anchor: int, back: int, forward: int, segment: int, x: int)
    requires segment > 0
    ensures var cell := anchor / segment;
      && (x >= cell * segment - back * segment <==> x / segment >= cell - back)
      && (x <= cell * segment + (forward + 1) * segment - 1 <==> x / segment <= cell + forward)
  {
    var cell := anchor / segment;
    QuotientBounds(x, cell - back, segment);
    QuotientBounds(x, cell + forward, segment);
    assert (cell - back) * segment == cell * segment - back * segment;
    assert (cell + forward) * segment + segment == cell * segment + (forward + 1) * segment;
  }

  lemma BlockWindowBytes(anchor: int, queuedUntil: Option<int>, c: PlannerConfig, x: int)
    requires c.segmentBytes > 0 && anchor >= 0
    ensures BlockWindow(anchor, queuedUntil, c).Holds(x) <==>
      && x / c.segmentBytes <= anchor / c.segmentBytes + c.resumeForwardBlocks
      && (if queuedUntil.Some? then queuedUntil.value < x else anchor / c.segmentBytes - c.resumeBackBlocks <= x / c.segmentBytes)
  {
    CellBounds(anchor, c.resumeBackBlocks, c.resumeForwardBlocks, c.segmentBytes, x);
    assert AlignDown(anchor, c.segmentBytes) == anchor / c.segmentBytes * c.segmentBytes;
  }

  /**
   * With block counts the plan is made of the bytes of the middle whose segment lies between `back` segments before the
   * player's and `forward` segments after it; a frontier replaces the first bound. In the head nothing is planned.
   */
  lemma BlockModePlan(mediaSize: int, headSize: int, tailSize: int, anchor: int, queuedUntil: Option<int>, c: PlannerConfig, x: int)
    requires ValidConfig(c) && mediaSize >= 0 && headSize >= 0 && tailSize >= 0
    requires c.resumeBackBlocks > 0 || c.resumeForwardBlocks > 0
    ensures InSome(Plan(mediaSize, headSize, tailSize, anchor, queuedUntil, c), x) <==>
      && headSize <= anchor && headSize <= x < mediaSize - tailSize
      && x / c.segmentBytes <= anchor / c.segmentBytes + c.resumeForwardBlocks
      && (if queuedUntil.Some? then queuedUntil.value < x else anchor / c.segmentBytes - c.resumeBackBlocks <= x / c.segmentBytes)
  {
    PlannedInWindow(mediaSize, headSize, tailSize, anchor, queuedUntil, c, x);
    if headSize <= anchor { BlockWindowBytes(anchor, queuedUntil, c, x); }
    if InMiddle(x, mediaSize, headSize, tailSize) { assert Middle(mediaSize, headSize, tailSize).start == headSize; }
  }

  /** The byte budget of a plan without block counts. */
  function Budget(headSize: int, c: PlannerConfig): int { Min(headSize, Min(c.windowBytes, c.maxSessionBytes)) }

  /** With a frontier a byte-mode plan is the next `budget` bytes behind it, as far as they are in the middle. */
  lemma ByteModePlanFromFrontier(mediaSize: int, headSize: int, tailSize: int, anchor: int, frontier: int, c: PlannerConfig, x: int)
    requires ValidConfig(c) && mediaSize >= 0 && headSize >= 0 && tailSize >= 0
    requires c.resumeBackBlocks == 0 && c.resumeForwardBlocks == 0
    ensures InSome(Plan(mediaSize, headSize, tailSize, anchor, Some(frontier), c), x) <==>
      && headSize <= x < mediaSize - tailSize
      && frontier < x <= Max(frontier, headSize - 1) + Budget(headSize, c)
  {
    PlannedInWindow(mediaSize, headSize, tailSize, anchor, Some(frontier), c, x);
  }

  /** The first byte of a resumed plan: the overlap before the player, and with room for a segment the border at or before that. */
  function FirstByte(headSize: int, anchor: int, c: PlannerConfig): int
    requires c.segmentBytes > 0
  {
    var budget := Budget(headSize, c);
    var wanted := Max(anchor - Min(c.resumeOverlapBytes, budget / 2), headSize);
    if budget <= c.segmentBytes then wanted else Max(wanted / c.segmentBytes * c.segmentBytes, headSize)
  }

  lemma ResumeStartIsFirstByte(middle: ByteRange, headSize: int, anchor: int, c: PlannerConfig)
    requires c.segmentBytes > 0 && middle.start == headSize >= 0
    ensures ResumeStart(middle, anchor, Budget(headSize, c), c) == FirstByte(headSize, anchor, c)
  {
    var wanted := Max(anchor - Min(c.resumeOverlapBytes, Budget(headSize, c) / 2), headSize);
    assert AlignDown(wanted, c.segmentBytes) == wanted / c.segmentBytes * c.segmentBytes;
  }

  /** Without a frontier it is `budget` bytes from there. In the head nothing is planned. */
  lemma ByteModePlanFromAnchor(mediaSize: int, headSize: int, tailSize: int, anchor: int, c: PlannerConfig, x: int)
    requires ValidConfig(c) && mediaSize >= 0 && headSize >= 0 && tailSize >= 0
    requires c.resumeBackBlocks == 0 && c.resumeForwardBlocks == 0
    ensures InSome(Plan(mediaSize, headSize, tailSize, anchor, None, c), x) <==>
      && headSize <= anchor && headSize <= x < mediaSize - tailSize
      && FirstByte(headSize, anchor, c) <= x < FirstByte(headSize, anchor, c) + Budget(headSize, c)
  {
    PlannedInWindow(mediaSize, headSize, tailSize, anchor, None, c, x);
    var middle := Middle(mediaSize, headSize, tailSize);
    if InMiddle(x, mediaSize, headSize, tailSize) {
      assert middle == ByteRange(headSize, mediaSize - tailSize - 1);
      ResumeStartIsFirstByte(middle, headSize, anchor, c);
    }
  }

  /**
   * Without block counts the byte the player stands at is planned unless the alignment has pushed the plan's end below
   * it, which cannot happen when the budget is at most one segment or at least two.
   */
  lemma AnchorIsPlanned(mediaSize: int, headSize: int, tailSize: int, anchor: int, c: PlannerConfig)
    requires ValidConfig(c) && mediaSize >= 0 && headSize > 0 && tailSize >= 0
    requires headSize <= anchor < mediaSize - tailSize && c.resumeBackBlocks == 0 && c.resumeForwardBlocks == 0
    ensures InSome(Plan(mediaSize, headSize, tailSize, anchor, None, c), anchor)
       <==> anchor < FirstByte(headSize, anchor, c) + Budget(headSize, c)
    ensures (Budget(headSize, c) <= c.segmentBytes || Budget(headSize, c) >= 2 * c.segmentBytes) ==>
      InSome(Plan(mediaSize, headSize, tailSize, anchor, None, c), anchor)
  {
    ByteModePlanFromAnchor(mediaSize, headSize, tailSize, anchor, c, anchor);
    var wanted := Max(anchor - Min(c.resumeOverlapBytes, Budget(headSize, c) / 2), headSize);
    QuotientBounds(wanted, wanted / c.segmentBytes, c.segmentBytes);
  }

  /** In between it can: with segments of 100 bytes and a budget of 110 a player at 1150 gets a plan from 1000 on that ends before it. */
  lemma AnchorMissed()
    ensures var c := PlannerConfig(100, 110, 55, 110, 0, 0);
      ValidConfig(c) && !InSome(Plan(10000, 200, 200, 1150, None, c), 1150) && InSome(Plan(10000, 200, 200, 1150, None, c), 1000)
  {
    var c := PlannerConfig(100, 110, 55, 110, 0, 0);
    assert Budget(200, c) == 110 && FirstByte(200, 1150, c) == 1000;
    ByteModePlanFromAnchor(10000, 200, 200, 1150, c, 1150);
    ByteModePlanFromAnchor(10000, 200, 200, 1150, c, 1000);
  }
}
