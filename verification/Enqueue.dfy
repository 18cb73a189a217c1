/** EnqueueForSession: queue what a session's window lacks, and record how far the queue reaches. */
module SessionPlanner {
  import opened Intervals
  import opened Tables
  import opened Subtraction
  import opened Planner
  import opened Protocol
  import opened StateStore

  datatype Request = Request(
    hash: string,
    session: Session,
    headBytes: int,
    tailBytes: int,
    planner: PlannerConfig,
    maxDepth: int,
    now: Instant,
    priority: int)

  /** Where the loop stands: rows, insert count, recorded frontier, and whether a gap could not be queued. */
  datatype Progress = Progress(db: Db, inserted: nat, highest: Option<int>, stopped: bool)

  function EnqueueOne(db: Db, q: Request, gap: ByteRange): Db {
    Enqueue(db, q.session.itemId, q.session.mediaSourceId, q.session.key, gap, q.priority, q.now, q.maxDepth)
  }

  function QueueGaps(p: Progress, q: Request, gaps: seq<ByteRange>): Progress
    decreases |gaps|
  {
    if p.stopped || gaps == [] then p
    else if CanEnqueue(p.db, q.session.key, gaps[0], q.maxDepth) then
      QueueGaps(Progress(EnqueueOne(p.db, q, gaps[0]), p.inserted + 1, Some(gaps[0].end), false), q, gaps[1..])
    else if HasLiveRow(p.db, q.session.key, gaps[0]) then
      QueueGaps(p.(highest := Some(gaps[0].end)), q, gaps[1..])
    else p.(stopped := true)
  }

  ghost function QueueRange(p: Progress, q: Request, r: ByteRange): Progress {
    var gaps := Missing(r, Reusable(p.db, q.session.key, r));
    if gaps == [] then p.(highest := Some(r.end)) else QueueGaps(p, q, gaps)
  }

  ghost function QueueRanges(p: Progress, q: Request, ranges: seq<ByteRange>, targetEnd: int): Progress
    decreases |ranges|
  {
    if p.stopped || ranges == [] then p else
      var r := ByteRange(ranges[0].start, Min(ranges[0].end, targetEnd));
      QueueRanges(QueueRange(p, q, r), q, ranges[1..], targetEnd)
  }

  function HeadBytes(q: Request): int { if q.headBytes <= 0 then 8 * 1024 * 1024 else q.headBytes }

  function TailBytes(q: Request): int { if q.tailBytes <= 0 then 8 * 1024 * 1024 else q.tailBytes }

  function PlanFor(q: Request, queuedUntil: Option<int>): seq<ByteRange> {
    Plan(q.session.mediaSize, HeadBytes(q), TailBytes(q), q.session.lastRangeEnd, queuedUntil, q.planner)
  }

  /** Last byte of the window planned without a frontier. */
  function WindowEnd(q: Request): int
    requires PlanFor(q, None) != []
  {
    var whole := PlanFor(q, None);
    whole[|whole| - 1].end
  }

  /** The stored frontier is used only when it falls inside the window planned without it. */
  predicate UsesFrontier(q: Request)
    requires PlanFor(q, None) != []
  {
    q.session.queuedUntil.Some? && PlanFor(q, None)[0].start <= q.session.queuedUntil.value < WindowEnd(q)
  }

  function RangesToQueue(q: Request): seq<ByteRange>
    requires PlanFor(q, None) != []
  {
    if UsesFrontier(q) then PlanFor(q, q.session.queuedUntil) else PlanFor(q, None)
  }

  ghost function QueuedUpTo(db: Db, q: Request, ranges: seq<ByteRange>, targetEnd: int): Progress {
    QueueRanges(Progress(db, 0, None, false), q, ranges, targetEnd)
  }

  ghost function Queued(db: Db, q: Request): Progress {
    if PlanFor(q, None) == [] then Progress(db, 0, None, false) else QueuedUpTo(db, q, RangesToQueue(q), WindowEnd(q))
  }

  function Recorded(p: Progress, q: Request): Db {
    if p.highest.Some? then AdvanceFrontier(p.db, q.hash, p.highest.value) else p.db
  }

  /** The database EnqueueForSession leaves. */
  ghost function Outcome(db: Db, q: Request): Db { Recorded(Queued(db, q), q) }

  /** Rows as every run keeps them, as far as the planner reads them. */
  predicate PlannerOk(db: Db) {
    && (forall id :: id in db.tasks ==> id < db.nextId && NonEmpty(db.tasks[id].range))
    && (forall b :: b in db.blocks ==> b.start <= b.end)
  }

  ghost predicate CoveredTo(db: Db, key: Key, first: int, last: int) {
    forall x :: first <= x <= last ==> Covered(db, key, x)
  }

  lemma ReusableIsCoverage(db: Db, key: Key, r: ByteRange)
    requires PlannerOk(db)
    ensures SortedByStart(Reusable(db, key, r)) && AllNonEmpty(Reusable(db, key, r))
    ensures forall x :: r.Holds(x) ==> (InSome(Reusable(db, key, r), x) <==> Covered(db, key, x))
  {
    OrdersAreTotal();
    var rows, listing := ReusableRows(db, key, r), Reusable(db, key, r);
    assert forall i :: 0 <= i < |listing| ==> listing[i] in rows;
    forall x | r.Holds(x)
      ensures InSome(listing, x) <==> Covered(db, key, x)
    {
      if Covered(db, key, x) {
        var row: ByteRange :| row in rows && row.Holds(x);
        assert row in listing;
      }
    }
  }

  /** The gaps of a range are exactly its uncovered bytes. */
  lemma GapsAreUncovered(db: Db, key: Key, r: ByteRange)
    requires PlannerOk(db)
    ensures var gaps := Missing(r, Reusable(db, key, r));
      && Canonical(gaps)
      && (forall x :: InSome(gaps, x) <==> r.Holds(x) && !Covered(db, key, x))
      && (gaps == [] <==> CoveredTo(db, key, r.start, r.end))
  {
    ReusableIsCoverage(db, key, r);
    var existing := Reusable(db, key, r);
    MissingIsDifference(r, existing);
    var gaps := Missing(r, existing);
    assert forall x :: r.Holds(x) ==> (InSome(existing, x) <==> Covered(db, key, x));
    assert forall x :: InSome(gaps, x) <==> r.Holds(x) && !InSome(existing, x);
    if CoveredTo(db, key, r.start, r.end) {
      assert forall x :: r.Holds(x) ==> InSome(existing, x);
    }
    if gaps == [] {
      assert forall x :: !InSome(gaps, x);
      assert forall x :: r.start <= x <= r.end ==> r.Holds(x);
    }
  }

  lemma EnqueueExtendsCoverage(db: Db, q: Request, gap: ByteRange)
    requires PlannerOk(db) && NonEmpty(gap) && CanEnqueue(db, q.session.key, gap, q.maxDepth)
    ensures PlannerOk(EnqueueOne(db, q, gap))
    ensures forall x :: Covered(db, q.session.key, x) || gap.Holds(x) ==> Covered(EnqueueOne(db, q, gap), q.session.key, x)
  {
    var db' := EnqueueOne(db, q, gap);
    assert db.nextId !in db.tasks;
    assert db'.tasks[db.nextId].range == gap && Live(db'.tasks[db.nextId]);
    forall x | Covered(db, q.session.key, x)
      ensures Covered(db', q.session.key, x)
    {
      if id :| id in db.tasks && db.tasks[id].key == q.session.key && Live(db.tasks[id]) && db.tasks[id].range.Holds(x) {
        assert db'.tasks[id] == db.tasks[id];
      }
    }
  }

  /** The recorded frontier is backed by coverage from first on. */
  ghost predicate FrontierOk(p: Progress, key: Key, first: int) {
    p.highest.Some? ==> CoveredTo(p.db, key, first, p.highest.value)
  }

  lemma {:induction false} QueueGapsCovers(p: Progress, q: Request, gaps: seq<ByteRange>, first: int, last: int)
    requires PlannerOk(p.db) && !p.stopped && Canonical(gaps)
    requires forall x :: first <= x <= last ==> Covered(p.db, q.session.key, x) || InSome(gaps, x)
    requires forall i :: 0 <= i < |gaps| ==> gaps[i].end <= last
    requires FrontierOk(p, q.session.key, first)
    ensures var p' := QueueGaps(p, q, gaps);
      && PlannerOk(p'.db)
      && FrontierOk(p', q.session.key, first)
      && (!p'.stopped ==> CoveredTo(p'.db, q.session.key, first, last))
    decreases |gaps|
  {
    var key := q.session.key;
    if gaps != [] {
      var gap, rest := gaps[0], gaps[1..];
      assert gaps == [gap] + rest;
      if CanEnqueue(p.db, key, gap, q.maxDepth) {
        EnqueueExtendsCoverage(p.db, q, gap);
        var next := Progress(EnqueueOne(p.db, q, gap), p.inserted + 1, Some(gap.end), false);
        GapTaken(p.db, next.db, key, gap, rest, first, last);
        QueueGapsCovers(next, q, rest, first, last);
      } else if HasLiveRow(p.db, key, gap) {
        assert forall x :: gap.Holds(x) ==> Covered(p.db, key, x);
        GapTaken(p.db, p.db, key, gap, rest, first, last);
        QueueGapsCovers(p.(highest := Some(gap.end)), q, rest, first, last);
      }
    }
  }

  /** Once the first gap is covered, everything up to its end is, and the other gaps are still all that is missing. */
  lemma GapTaken(db: Db, next: Db, key: Key, gap: ByteRange, rest: seq<ByteRange>, first: int, last: int)
    requires Canonical([gap] + rest) && gap.end <= last
    requires forall x :: first <= x <= last ==> Covered(db, key, x) || InSome([gap] + rest, x)
    requires forall x :: Covered(db, key, x) || gap.Holds(x) ==> Covered(next, key, x)
    ensures forall x :: first <= x <= last ==> Covered(next, key, x) || InSome(rest, x)
    ensures CoveredTo(next, key, first, gap.end)
  {
    var gaps := [gap] + rest;
    forall i | 0 <= i < |rest|
      ensures gap.end < rest[i].start
    {
      assert gaps[0].end + 1 < gaps[i + 1].start;
    }
    forall x | first <= x <= last
      ensures Covered(next, key, x) || (InSome(rest, x) && x > gap.end)
    {
      InSomeCons(gap, rest, x);
    }
  }

  lemma QueueRangeCovers(p: Progress, q: Request, r: ByteRange, first: int)
    requires PlannerOk(p.db) && !p.stopped
    requires CoveredTo(p.db, q.session.key, first, Min(r.start - 1, r.end))
    requires FrontierOk(p, q.session.key, first)
    ensures var p' := QueueRange(p, q, r);
      && PlannerOk(p'.db)
      && FrontierOk(p', q.session.key, first)
      && (!p'.stopped ==> CoveredTo(p'.db, q.session.key, first, r.end))
  {
    var key := q.session.key;
    GapsAreUncovered(p.db, key, r);
    var gaps := Missing(r, Reusable(p.db, key, r));
    if gaps != [] {
      forall i | 0 <= i < |gaps|
        ensures gaps[i].end <= r.end
      {
        assert gaps[i].Holds(gaps[i].end);
        assert InSome(gaps, gaps[i].end);
      }
      QueueGapsCovers(p, q, gaps, first, r.end);
    }
  }

  predicate Consecutive(ranges: seq<ByteRange>) {
    && AllNonEmpty(ranges)
    && forall i :: 0 <= i < |ranges| - 1 ==> ranges[i].end + 1 == ranges[i + 1].start
  }

  lemma {:induction false} QueueRangesCovers(p: Progress, q: Request, ranges: seq<ByteRange>, targetEnd: int, first: int)
    requires PlannerOk(p.db) && Consecutive(ranges)
    requires FrontierOk(p, q.session.key, first)
    requires !p.stopped && ranges != [] ==> CoveredTo(p.db, q.session.key, first, Min(ranges[0].start - 1, targetEnd))
    ensures var p' := QueueRanges(p, q, ranges, targetEnd);
      && PlannerOk(p'.db)
      && FrontierOk(p', q.session.key, first)
      && (!p'.stopped && ranges != [] ==> CoveredTo(p'.db, q.session.key, first, Min(ranges[|ranges| - 1].end, targetEnd)))
    decreases |ranges|
  {
    if !p.stopped && ranges != [] {
      var r := ByteRange(ranges[0].start, Min(ranges[0].end, targetEnd));
      QueueRangeCovers(p, q, r, first);
      var next, rest := QueueRange(p, q, r), ranges[1..];
      if rest == [] {
        assert QueueRanges(next, q, rest, targetEnd) == next;
      } else {
        assert Consecutive(rest) && rest[0].start - 1 == ranges[0].end;
        assert rest[|rest| - 1] == ranges[|ranges| - 1];
        QueueRangesCovers(next, q, rest, targetEnd, first);
      }
    }
  }

  lemma PlanConsecutive(q: Request, queuedUntil: Option<int>)
    requires ValidConfig(q.planner) && q.session.mediaSize >= 0
    ensures Consecutive(PlanFor(q, queuedUntil))
  {
    PlanTiles(q.session.mediaSize, HeadBytes(q), TailBytes(q), q.session.lastRangeEnd, queuedUntil, q.planner);
  }

  lemma RangesToQueueConsecutive(q: Request)
    requires ValidConfig(q.planner) && q.session.mediaSize >= 0 && PlanFor(q, None) != []
    ensures Consecutive(RangesToQueue(q))
  {
    PlanConsecutive(q, if UsesFrontier(q) then q.session.queuedUntil else None);
  }

  /** The recorded frontier is backed from the first planned byte on, and the whole plan up to its target is when no gap was refused. */
  ghost predicate Backed(p: Progress, q: Request, ranges: seq<ByteRange>, targetEnd: int)
    requires ranges != []
  {
    && (p.highest.Some? ==> CoveredTo(Recorded(p, q), q.session.key, ranges[0].start, p.highest.value))
    && (!p.stopped ==> CoveredTo(Recorded(p, q), q.session.key, ranges[0].start, Min(ranges[|ranges| - 1].end, targetEnd)))
  }

  lemma QueuedRangesCover(db: Db, q: Request, ranges: seq<ByteRange>, targetEnd: int)
    requires PlannerOk(db) && Consecutive(ranges) && ranges != []
    ensures PlannerOk(Recorded(QueuedUpTo(db, q, ranges, targetEnd), q))
    ensures Backed(QueuedUpTo(db, q, ranges, targetEnd), q, ranges, targetEnd)
  {
    QueueRangesCovers(Progress(db, 0, None, false), q, ranges, targetEnd, ranges[0].start);
    var p := QueuedUpTo(db, q, ranges, targetEnd);
    assert forall x :: Covered(p.db, q.session.key, x) ==> Covered(Recorded(p, q), q.session.key, x);
  }

  /**
   * Frontier soundness: every byte from the first planned start to the recorded frontier is in a block
   * or a live task, and a call that is not stopped covers its plan up to the window's end.
   */
  lemma FrontierSound(db: Db, q: Request)
    requires PlannerOk(db) && ValidConfig(q.planner) && q.session.mediaSize >= 0
    ensures PlanFor(q, None) != [] && RangesToQueue(q) != [] ==> Backed(Queued(db, q), q, RangesToQueue(q), WindowEnd(q))
    ensures PlannerOk(Outcome(db, q))
  {
    if PlanFor(q, None) != [] && RangesToQueue(q) != [] {
      RangesToQueueConsecutive(q);
      QueuedRangesCover(db, q, RangesToQueue(q), WindowEnd(q));
    }
  }

  /** A call planned from the window's start that is not stopped leaves the whole window covered. */
  lemma FreshPlanCoversWindow(db: Db, q: Request)
    requires PlannerOk(db) && ValidConfig(q.planner) && q.session.mediaSize >= 0
    ensures PlanFor(q, None) != [] && !UsesFrontier(q) && !Queued(db, q).stopped ==>
      CoveredTo(Outcome(db, q), q.session.key, PlanFor(q, None)[0].start, WindowEnd(q))
  {
    FrontierSound(db, q);
  }

  lemma {:induction false} CoveredRangesQueueNothing(p: Progress, q: Request, ranges: seq<ByteRange>, targetEnd: int, first: int)
    requires PlannerOk(p.db) && CoveredTo(p.db, q.session.key, first, targetEnd)
    requires forall i :: 0 <= i < |ranges| ==> first <= ranges[i].start
    ensures QueueRanges(p, q, ranges, targetEnd).db == p.db
    ensures QueueRanges(p, q, ranges, targetEnd).inserted == p.inserted
    ensures QueueRanges(p, q, ranges, targetEnd).stopped == p.stopped
    decreases |ranges|
  {
    if !p.stopped && ranges != [] {
      var r := ByteRange(ranges[0].start, Min(ranges[0].end, targetEnd));
      GapsAreUncovered(p.db, q.session.key, r);
      CoveredRangesQueueNothing(QueueRange(p, q, r), q, ranges[1..], targetEnd, first);
    }
  }

  lemma CoveredQueueNothing(db: Db, q: Request, ranges: seq<ByteRange>, targetEnd: int, first: int)
    requires PlannerOk(db) && Consecutive(ranges) && CoveredTo(db, q.session.key, first, targetEnd)
    requires ranges != [] ==> first <= ranges[0].start
    ensures var p := QueuedUpTo(db, q, ranges, targetEnd);
      p.inserted == 0 && !p.stopped && Recorded(p, q).tasks == db.tasks && Recorded(p, q).blocks == db.blocks
  {
    RangesStartInOrder(ranges);
    CoveredRangesQueueNothing(Progress(db, 0, None, false), q, ranges, targetEnd, first);
  }

  /** Fixed point: once the window is covered, a call inserts nothing, whatever frontier the session stores. */
  lemma CoveredWindowIsFixedPoint(db: Db, q: Request)
    requires PlannerOk(db) && ValidConfig(q.planner) && q.session.mediaSize >= 0
    requires PlanFor(q, None) != []
    requires CoveredTo(db, q.session.key, PlanFor(q, None)[0].start, WindowEnd(q))
    ensures Queued(db, q).inserted == 0 && !Queued(db, q).stopped
    ensures Outcome(db, q).tasks == db.tasks && Outcome(db, q).blocks == db.blocks
  {
    RangesToQueueConsecutive(q);
    if UsesFrontier(q) && PlanFor(q, q.session.queuedUntil) != [] { FrontierPlanStartsLater(q); }
    CoveredQueueNothing(db, q, RangesToQueue(q), WindowEnd(q), PlanFor(q, None)[0].start);
  }

  lemma {:induction false} RangesStartInOrder(ranges: seq<ByteRange>)
    requires Consecutive(ranges)
    ensures forall i :: 0 <= i < |ranges| ==> ranges[0].start <= ranges[i].start
    decreases |ranges|
  {
    var n := |ranges|;
    if n > 1 {
      RangesStartInOrder(ranges[..n - 1]);
      assert ranges[..n - 1][n - 2] == ranges[n - 2] && ranges[n - 2].end + 1 == ranges[n - 1].start;
      assert forall i :: 0 <= i < n - 1 ==> ranges[i] == ranges[..n - 1][i];
    }
  }

  lemma FrontierPlanStartsLater(q: Request)
    requires ValidConfig(q.planner) && q.session.mediaSize >= 0
    requires PlanFor(q, None) != [] && UsesFrontier(q) && PlanFor(q, q.session.queuedUntil) != []
    ensures PlanFor(q, None)[0].start <= PlanFor(q, q.session.queuedUntil)[0].start
  {
    var n, s := q.session.mediaSize, q.session;
    PlanTiles(n, HeadBytes(q), TailBytes(q), s.lastRangeEnd, None, q.planner);
    PlanTiles(n, HeadBytes(q), TailBytes(q), s.lastRangeEnd, s.queuedUntil, q.planner);
  }

  /** EnqueueForSession over the live store. */
  method EnqueueForSession(store: Store, q: Request) returns (inserted: nat)
    requires PlannerOk(store.AsDb())
    modifies store
    ensures store.AsDb() == Outcome(old(store.AsDb()), q)
    ensures inserted == Queued(old(store.AsDb()), q).inserted
  {
    inserted := 0;
    var s := q.session;
    var ranges := PlanMiddleRanges(s.mediaSize, HeadBytes(q), TailBytes(q), s.lastRangeEnd, None, q.planner);
    if |ranges| == 0 { return; }
    var targetEnd := ranges[|ranges| - 1].end;
    if s.queuedUntil.Some? && ranges[0].start <= s.queuedUntil.value && s.queuedUntil.value < targetEnd {
      ranges := PlanMiddleRanges(s.mediaSize, HeadBytes(q), TailBytes(q), s.lastRangeEnd, s.queuedUntil, q.planner);
    }
    assert Queued(store.AsDb(), q) == QueuedUpTo(store.AsDb(), q, ranges, targetEnd);
    inserted := QueuePlanned(store, q, ranges, targetEnd);
  }

  /** The two loops of EnqueueForSession and the frontier update behind them. */
  method QueuePlanned(store: Store, q: Request, ranges: seq<ByteRange>, targetEnd: int) returns (inserted: nat)
    requires PlannerOk(store.AsDb())
    modifies store
    ensures store.AsDb() == Recorded(QueuedUpTo(old(store.AsDb()), q, ranges, targetEnd), q)
    ensures inserted == QueuedUpTo(old(store.AsDb()), q, ranges, targetEnd).inserted
  {
    inserted := 0;
    var highest: Option<int> := None;
    var stopped := false;
    var i := 0;
    while i < |ranges| && !stopped
      invariant 0 <= i <= |ranges| && PlannerOk(store.AsDb())
      invariant QueueRanges(Progress(store.AsDb(), inserted, highest, stopped), q, ranges[i..], targetEnd)
             == QueuedUpTo(old(store.AsDb()), q, ranges, targetEnd)
    {
      var r := ByteRange(ranges[i].start, Min(ranges[i].end, targetEnd));
      ghost var before := Progress(store.AsDb(), inserted, highest, false);
      assert ranges[i..][1..] == ranges[i + 1..];
      var existing := store.ReusablePrefetchRanges(q.session.key, r);
      var missing := SubtractRanges(r, existing);
      SameGaps(store.AsDb(), q, r, existing);
      if |missing| == 0 {
        highest := Some(r.end);
      } else {
        inserted, highest, stopped := InsertGaps(store, q, missing, inserted, highest);
      }
      assert Progress(store.AsDb(), inserted, highest, stopped) == QueueRange(before, q, r);
      i := i + 1;
    }
    if highest.Some? { store.UpdateSessionQueuedUntil(q.hash, highest.value); }
  }

  /** The listing the database returned gives the gaps the specification computes. */
  lemma SameGaps(db: Db, q: Request, r: ByteRange, existing: seq<ByteRange>)
    requires PlannerOk(db) && IsReusableListing(existing, db, q.session.key, r)
    ensures Missing(r, existing) == Missing(r, Reusable(db, q.session.key, r))
  {
    var key := q.session.key;
    var listing := Reusable(db, key, r);
    OrdersAreTotal();
    assert forall i :: 0 <= i < |listing| ==> listing[i] in ReusableRows(db, key, r);
    ReusableIsCoverage(db, key, r);
    MissingIsDifference(r, existing);
    MissingIsDifference(r, listing);
    forall x ensures InSome(existing, x) <==> InSome(listing, x) {
      if i :| 0 <= i < |existing| && existing[i].Holds(x) { assert existing[i] in listing; }
      if i :| 0 <= i < |listing| && listing[i].Holds(x) { assert listing[i] in existing; }
    }
    DifferenceUnique(Missing(r, existing), Missing(r, listing), r, existing, listing);
  }

  method InsertGaps(store: Store, q: Request, gaps: seq<ByteRange>, count: nat, frontier: Option<int>)
    returns (inserted: nat, highest: Option<int>, stopped: bool)
    requires PlannerOk(store.AsDb()) && AllNonEmpty(gaps)
    modifies store
    ensures Progress(store.AsDb(), inserted, highest, stopped)
         == QueueGaps(Progress(old(store.AsDb()), count, frontier, false), q, gaps)
    ensures PlannerOk(store.AsDb())
  {
    inserted, highest, stopped := count, frontier, false;
    var i := 0;
    while i < |gaps| && !stopped
      invariant 0 <= i <= |gaps| && PlannerOk(store.AsDb())
      invariant QueueGaps(Progress(store.AsDb(), inserted, highest, stopped), q, gaps[i..])
             == QueueGaps(Progress(old(store.AsDb()), count, frontier, false), q, gaps)
    {
      var gap := gaps[i];
      assert gaps[i..][1..] == gaps[i + 1..];
      var task := store.EnqueuePrefetchTask(q.session.itemId, q.session.mediaSourceId, q.session.key, gap, q.priority, q.now, q.maxDepth);
      if task.None? {
        var present := store.PrefetchTaskExists(q.session.key, gap);
        if present { highest := Some(gap.end); } else { stopped := true; }
      } else {
        inserted, highest := inserted + 1, Some(gap.end);
      }
      i := i + 1;
    }
  }
}
