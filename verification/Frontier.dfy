/** What a session's row says after planning: a frontier that only grows, and never runs ahead of the queue. */
module Frontiers {
  import opened Intervals
  import opened Tables
  import opened Subtraction
  import opened Planner
  import opened PlanWindows
  import opened StateStore
  import opened SessionPlanner

  /** Only the frontier of one live session changes, and never backwards. */
  predicate OnlyFrontierGrows(after: map<string, Session>, before: map<string, Session>, hash: string) {
    && after.Keys == before.Keys
    && (forall s :: s in before && s != hash ==> after[s] == before[s])
    && (hash in before ==>
          && after[hash] == before[hash].(queuedUntil := after[hash].queuedUntil)
          && (before[hash].status.Expired? ==> after[hash] == before[hash])
          && (before[hash].queuedUntil.Some? ==>
                after[hash].queuedUntil.Some? && after[hash].queuedUntil.value >= before[hash].queuedUntil.value))
  }

  /** The larger of the stored frontier and the one reached by this call. */
  function Larger(stored: Option<int>, reached: Option<int>): Option<int> {
    if reached.None? then stored
    else if stored.Some? && stored.value > reached.value then stored
    else reached
  }

  lemma AdvanceGrows(db: Db, hash: string, reached: int)
    ensures var next := AdvanceFrontier(db, hash, reached);
      && next == db.(sessions := next.sessions) && OnlyFrontierGrows(next.sessions, db.sessions, hash)
      && (hash in db.sessions && !db.sessions[hash].status.Expired? ==>
            next.sessions[hash].queuedUntil == Larger(db.sessions[hash].queuedUntil, Some(reached)))
  {
  }

  lemma {:induction false} GapsLeaveSessions(p: Progress, q: Request, gaps: seq<ByteRange>)
    ensures QueueGaps(p, q, gaps).db.sessions == p.db.sessions
    decreases |gaps|
  {
    if !p.stopped && gaps != [] {
      GapsLeaveSessions(Progress(EnqueueOne(p.db, q, gaps[0]), p.inserted + 1, Some(gaps[0].end), false), q, gaps[1..]);
      GapsLeaveSessions(p.(highest := Some(gaps[0].end)), q, gaps[1..]);
    }
  }

  lemma {:induction false} RangesLeaveSessions(p: Progress, q: Request, ranges: seq<ByteRange>, targetEnd: int)
    ensures QueueRanges(p, q, ranges, targetEnd).db.sessions == p.db.sessions
    decreases |ranges|
  {
    if !p.stopped && ranges != [] {
      var r := ByteRange(ranges[0].start, Min(ranges[0].end, targetEnd));
      GapsLeaveSessions(p, q, Missing(r, Reusable(p.db, q.session.key, r)));
      RangesLeaveSessions(QueueRange(p, q, r), q, ranges[1..], targetEnd);
    }
  }

  /** The stored frontier of a live session becomes the larger of what it was and what this call reached; nothing else of any session changes. */
  lemma StoredFrontier(db: Db, q: Request)
    ensures OnlyFrontierGrows(Outcome(db, q).sessions, db.sessions, q.hash)
    ensures q.hash in db.sessions && !db.sessions[q.hash].status.Expired? ==>
      Outcome(db, q).sessions[q.hash].queuedUntil == Larger(db.sessions[q.hash].queuedUntil, SessionPlanner.Queued(db, q).highest)
  {
    var p := SessionPlanner.Queued(db, q);
    if PlanFor(q, None) != [] { RangesLeaveSessions(Progress(db, 0, None, false), q, RangesToQueue(q), WindowEnd(q)); }
    if p.highest.Some? { AdvanceGrows(p.db, q.hash, p.highest.value); }
  }

  /** What the row then holds is the old frontier, or every byte from the first planned one up to it is in a block or a live task. */
  lemma StoredFrontierIsCovered(db: Db, q: Request)
    requires PlannerOk(db) && ValidConfig(q.planner) && q.session.mediaSize >= 0
    requires q.hash in db.sessions && PlanFor(q, None) != [] && RangesToQueue(q) != []
    ensures q.hash in Outcome(db, q).sessions
    ensures var stored := Outcome(db, q).sessions[q.hash].queuedUntil;
      || stored == db.sessions[q.hash].queuedUntil
      || (stored.Some? && CoveredTo(Outcome(db, q), q.session.key, RangesToQueue(q)[0].start, stored.value))
  {
    StoredFrontier(db, q);
    FrontierSound(db, q);
  }

  // ---- how far the frontier goes

  /** Every row of `after` was there before, or ends at the frontier or below it. */
  ghost predicate ReachesNewRows(after: Progress, before: map<nat, Task>) {
    forall id :: id in after.db.tasks && id !in before ==>
      after.highest.Some? && after.db.tasks[id].range.end <= after.highest.value
  }

  predicate NoFurther(highest: Option<int>, bound: int) { highest.Some? ==> highest.value <= bound }

  lemma {:induction false} GapsReachNewRows(p: Progress, q: Request, gaps: seq<ByteRange>, before: map<nat, Task>)
    requires Canonical(gaps) && ReachesNewRows(p, before) && (gaps != [] ==> NoFurther(p.highest, gaps[0].end))
    ensures var p' := QueueGaps(p, q, gaps);
      && ReachesNewRows(p', before)
      && (forall bound :: NoFurther(p.highest, bound) && (gaps == [] || gaps[|gaps| - 1].end <= bound) ==> NoFurther(p'.highest, bound))
    decreases |gaps|
  {
    if !p.stopped && gaps != [] {
      var gap, rest := gaps[0], gaps[1..];
      var added := Progress(EnqueueOne(p.db, q, gap), p.inserted + 1, Some(gap.end), false);
      var skipped := p.(highest := Some(gap.end));
      assert rest != [] ==> rest[|rest| - 1] == gaps[|gaps| - 1] && gap.end < rest[|rest| - 1].end;
      if CanEnqueue(p.db, q.session.key, gap, q.maxDepth) {
        GapsReachNewRows(added, q, rest, before);
      } else if HasLiveRow(p.db, q.session.key, gap) {
        GapsReachNewRows(skipped, q, rest, before);
      }
    }
  }

  lemma RangeReachesNewRows(p: Progress, q: Request, r: ByteRange, before: map<nat, Task>)
    requires PlannerOk(p.db) && ReachesNewRows(p, before) && NoFurther(p.highest, Min(r.start - 1, r.end))
    ensures var p' := QueueRange(p, q, r); ReachesNewRows(p', before) && NoFurther(p'.highest, r.end)
  {
    var key := q.session.key;
    var gaps := Missing(r, Reusable(p.db, key, r));
    GapsAreUncovered(p.db, key, r);
    if gaps != [] {
      var last := gaps[|gaps| - 1];
      assert gaps[0].Holds(gaps[0].start) && last.Holds(last.end);
      assert InSome(gaps, gaps[0].start) && InSome(gaps, last.end);
      GapsReachNewRows(p, q, gaps, before);
    }
  }

  lemma {:induction false} RangesReachNewRows(p: Progress, q: Request, ranges: seq<ByteRange>, targetEnd: int, before: map<nat, Task>)
    requires PlannerOk(p.db) && Consecutive(ranges) && ReachesNewRows(p, before)
    requires ranges != [] ==> NoFurther(p.highest, Min(ranges[0].start - 1, targetEnd))
    ensures ReachesNewRows(QueueRanges(p, q, ranges, targetEnd), before)
    decreases |ranges|
  {
    if !p.stopped && ranges != [] {
      var r := ByteRange(ranges[0].start, Min(ranges[0].end, targetEnd));
      RangeReachesNewRows(p, q, r, before);
      RangeKeepsOk(p, q, r);
      assert |ranges| > 1 ==> ranges[1..][0].start - 1 == ranges[0].end;
      RangesReachNewRows(QueueRange(p, q, r), q, ranges[1..], targetEnd, before);
    }
  }

  lemma RangeKeepsOk(p: Progress, q: Request, r: ByteRange)
    requires PlannerOk(p.db)
    ensures PlannerOk(QueueRange(p, q, r).db)
  {
    GapsAreUncovered(p.db, q.session.key, r);
    GapsKeepOk(p, q, Missing(r, Reusable(p.db, q.session.key, r)));
  }

  lemma {:induction false} GapsKeepOk(p: Progress, q: Request, gaps: seq<ByteRange>)
    requires PlannerOk(p.db) && AllNonEmpty(gaps)
    ensures PlannerOk(QueueGaps(p, q, gaps).db)
    decreases |gaps|
  {
    if !p.stopped && gaps != [] {
      if CanEnqueue(p.db, q.session.key, gaps[0], q.maxDepth) {
        EnqueueExtendsCoverage(p.db, q, gaps[0]);
        GapsKeepOk(Progress(EnqueueOne(p.db, q, gaps[0]), p.inserted + 1, Some(gaps[0].end), false), q, gaps[1..]);
      } else {
        GapsKeepOk(p.(highest := Some(gaps[0].end)), q, gaps[1..]);
      }
    }
  }

  /** No row this call inserts lies beyond the frontier it reaches. */
  lemma FrontierReachesNewRows(db: Db, q: Request)
    requires PlannerOk(db) && ValidConfig(q.planner) && q.session.mediaSize >= 0
    ensures ReachesNewRows(SessionPlanner.Queued(db, q), db.tasks)
  {
    if PlanFor(q, None) != [] {
      RangesToQueueConsecutive(q);
      RangesReachNewRows(Progress(db, 0, None, false), q, RangesToQueue(q), WindowEnd(q), db.tasks);
    }
  }

  // ---- why a call stops

  /** The queue is full, or some byte range has a row that is neither live nor to be inserted again. */
  ghost predicate Blocked(db: Db, q: Request) {
    || |QueuedIds(db)| >= q.maxDepth
    || exists r: ByteRange :: HasRow(db, q.session.key, r) && !HasLiveRow(db, q.session.key, r)
  }

  lemma {:induction false} GapsStopOnlyBlocked(p: Progress, q: Request, gaps: seq<ByteRange>)
    requires !p.stopped
    ensures var p' := QueueGaps(p, q, gaps); p'.stopped ==> Blocked(p'.db, q)
    decreases |gaps|
  {
    if gaps != [] {
      var gap, rest := gaps[0], gaps[1..];
      if CanEnqueue(p.db, q.session.key, gap, q.maxDepth) {
        GapsStopOnlyBlocked(Progress(EnqueueOne(p.db, q, gap), p.inserted + 1, Some(gap.end), false), q, rest);
      } else if HasLiveRow(p.db, q.session.key, gap) {
        GapsStopOnlyBlocked(p.(highest := Some(gap.end)), q, rest);
      }
    }
  }

  lemma {:induction false} RangesStopOnlyBlocked(p: Progress, q: Request, ranges: seq<ByteRange>, targetEnd: int)
    requires !p.stopped
    ensures var p' := QueueRanges(p, q, ranges, targetEnd); p'.stopped ==> Blocked(p'.db, q)
    decreases |ranges|
  {
    if ranges != [] {
      var r := ByteRange(ranges[0].start, Min(ranges[0].end, targetEnd));
      GapsStopOnlyBlocked(p, q, Missing(r, Reusable(p.db, q.session.key, r)));
      var next := QueueRange(p, q, r);
      if !next.stopped { RangesStopOnlyBlocked(next, q, ranges[1..], targetEnd); }
    }
  }

  /** A call gives up part of its plan only when the queue is full, or a done or permanently failed row stands in the way. */
  lemma StopsOnlyBlocked(db: Db, q: Request)
    ensures SessionPlanner.Queued(db, q).stopped ==> Blocked(SessionPlanner.Queued(db, q).db, q)
  {
    if PlanFor(q, None) != [] { RangesStopOnlyBlocked(Progress(db, 0, None, false), q, RangesToQueue(q), WindowEnd(q)); }
  }

  /** The count returned is the number of rows inserted. */
  lemma {:induction false} GapsCounted(p: Progress, q: Request, gaps: seq<ByteRange>)
    ensures var p' := QueueGaps(p, q, gaps); p'.db.nextId - p.db.nextId == p'.inserted - p.inserted
    decreases |gaps|
  {
    if !p.stopped && gaps != [] {
      if CanEnqueue(p.db, q.session.key, gaps[0], q.maxDepth) {
        GapsCounted(Progress(EnqueueOne(p.db, q, gaps[0]), p.inserted + 1, Some(gaps[0].end), false), q, gaps[1..]);
      } else {
        GapsCounted(p.(highest := Some(gaps[0].end)), q, gaps[1..]);
      }
    }
  }

  lemma {:induction false} RangesCounted(p: Progress, q: Request, ranges: seq<ByteRange>, targetEnd: int)
    ensures var p' := QueueRanges(p, q, ranges, targetEnd); p'.db.nextId - p.db.nextId == p'.inserted - p.inserted
    decreases |ranges|
  {
    if !p.stopped && ranges != [] {
      var r := ByteRange(ranges[0].start, Min(ranges[0].end, targetEnd));
      GapsCounted(p, q, Missing(r, Reusable(p.db, q.session.key, r)));
      RangesCounted(QueueRange(p, q, r), q, ranges[1..], targetEnd);
    }
  }

  lemma InsertedIsCount(db: Db, q: Request)
    ensures Outcome(db, q).nextId == db.nextId + SessionPlanner.Queued(db, q).inserted
  {
    if PlanFor(q, None) != [] { RangesCounted(Progress(db, 0, None, false), q, RangesToQueue(q), WindowEnd(q)); }
  }

  // ---- what a call leaves covered

  predicate BehindFrontier(q: Request, x: int)
    requires PlanFor(q, None) != []
  {
    var whole, u := PlanFor(q, None), q.session.queuedUntil;
    u.Some? && x <= u.value && whole[0].start <= u.value < whole[|whole| - 1].end
  }

  lemma ConsecutiveHolds(ranges: seq<ByteRange>, x: int)
    requires Consecutive(ranges) && InSome(ranges, x)
    ensures ranges != [] && ranges[0].start <= x <= ranges[|ranges| - 1].end
  {
    var i :| 0 <= i < |ranges| && ranges[i].Holds(x);
    RangesStartInOrder(ranges);
    EndsInOrder(ranges, i);
  }

  lemma {:induction false} EndsInOrder(ranges: seq<ByteRange>, i: nat)
    requires Consecutive(ranges) && i < |ranges|
    ensures ranges[i].end <= ranges[|ranges| - 1].end
    decreases |ranges| - i
  {
    if i + 1 < |ranges| { EndsInOrder(ranges, i + 1); }
  }

  lemma {:induction false} ConsecutiveFull(ranges: seq<ByteRange>, x: int)
    requires Consecutive(ranges) && ranges != [] && ranges[0].start <= x <= ranges[|ranges| - 1].end
    ensures InSome(ranges, x)
    decreases |ranges|
  {
    if !ranges[0].Holds(x) {
      var rest := ranges[1..];
      assert rest[0].start == ranges[0].end + 1;
      ConsecutiveFull(rest, x);
      InSomeCons(ranges[0], rest, x);
      assert ranges == [ranges[0]] + rest;
    }
  }

  /** Planning again from a frontier inside the window leaves no byte out behind it. */
  lemma FrontierPlansRest(q: Request, u: int, x: int)
    requires ValidConfig(q.planner) && q.session.mediaSize >= 0 && PlanFor(q, None) != []
    requires InSome(PlanFor(q, None), x) && PlanFor(q, None)[0].start <= u < x
    ensures InSome(PlanFor(q, Some(u)), x)
  {
    var n, h, t, a, c := q.session.mediaSize, HeadBytes(q), TailBytes(q), q.session.lastRangeEnd, q.planner;
    var first := PlanFor(q, None)[0].start;
    PlanConsecutive(q, None);
    assert PlanFor(q, None)[0].Holds(first);
    if BlockMode(c) {
      BlockModePlan(n, h, t, a, None, c, x);
      BlockModePlan(n, h, t, a, Some(u), c, x);
    } else {
      ByteModePlanFromAnchor(n, h, t, a, c, x);
      ByteModePlanFromAnchor(n, h, t, a, c, first);
      ByteModePlanFromFrontier(n, h, t, a, u, c, x);
    }
  }

  lemma QueuesToTheEnd(q: Request, x: int)
    requires ValidConfig(q.planner) && q.session.mediaSize >= 0
    requires PlanFor(q, None) != [] && InSome(PlanFor(q, None), x) && !BehindFrontier(q, x)
    ensures var ranges := RangesToQueue(q);
      ranges != [] && ranges[0].start <= x <= Min(ranges[|ranges| - 1].end, WindowEnd(q))
  {
    PlanConsecutive(q, None);
    ConsecutiveHolds(PlanFor(q, None), x);
    if UsesFrontier(q) { FrontierPlansRest(q, q.session.queuedUntil.value, x); }
    RangesToQueueConsecutive(q);
    ConsecutiveHolds(RangesToQueue(q), x);
  }

  /**
   * A call that no gap stops leaves its whole window in blocks or live tasks, but for the part behind a stored frontier
   * that lies inside the window, which it does not look at again.
   */
  lemma UnstoppedCallCovers(db: Db, q: Request, x: int)
    requires PlannerOk(db) && ValidConfig(q.planner) && q.session.mediaSize >= 0
    requires PlanFor(q, None) != [] && !SessionPlanner.Queued(db, q).stopped
    requires InSome(PlanFor(q, None), x) && !BehindFrontier(q, x)
    ensures Covered(Outcome(db, q), q.session.key, x)
  {
    QueuesToTheEnd(q, x);
    FrontierSound(db, q);
    var ranges := RangesToQueue(q);
    assert CoveredTo(Outcome(db, q), q.session.key, ranges[0].start, Min(ranges[|ranges| - 1].end, WindowEnd(q)));
  }

  // ---- what a call inserts

  /** Every row that was not there before is a fresh queued row of the session, for bytes among these. */
  ghost predicate NewRowsIn(after: map<nat, Task>, before: map<nat, Task>, q: Request, allowed: iset<int>) {
    && (forall id :: id in before ==> id in after && after[id] == before[id])
    && (forall id :: id in after && id !in before ==>
          && after[id] == Task(id, q.session.itemId, q.session.mediaSourceId, q.session.key, after[id].range, q.priority, Status.Queued, 0,
                               q.now, q.now, None, None)
          && NonEmpty(after[id].range)
          && forall x :: after[id].range.Holds(x) ==> x in allowed)
  }

  lemma {:induction false} GapsInsertIn(p: Progress, q: Request, gaps: seq<ByteRange>, before: map<nat, Task>, allowed: iset<int>)
    requires PlannerOk(p.db) && AllNonEmpty(gaps) && NewRowsIn(p.db.tasks, before, q, allowed)
    requires forall x :: InSome(gaps, x) ==> x in allowed
    ensures NewRowsIn(QueueGaps(p, q, gaps).db.tasks, before, q, allowed)
    decreases |gaps|
  {
    if !p.stopped && gaps != [] {
      var gap, rest := gaps[0], gaps[1..];
      assert gaps == [gap] + rest;
      forall x ensures InSome(gaps, x) <==> gap.Holds(x) || InSome(rest, x) { InSomeCons(gap, rest, x); }
      if CanEnqueue(p.db, q.session.key, gap, q.maxDepth) {
        EnqueueExtendsCoverage(p.db, q, gap);
        assert p.db.nextId !in p.db.tasks;
        GapsInsertIn(Progress(EnqueueOne(p.db, q, gap), p.inserted + 1, Some(gap.end), false), q, rest, before, allowed);
      } else {
        GapsInsertIn(p.(highest := Some(gap.end)), q, rest, before, allowed);
      }
    }
  }

  lemma {:induction false} RangesInsertIn(p: Progress, q: Request, ranges: seq<ByteRange>, targetEnd: int, before: map<nat, Task>,
                                          allowed: iset<int>)
    requires PlannerOk(p.db) && NewRowsIn(p.db.tasks, before, q, allowed)
    requires forall x :: InSome(ranges, x) && x <= targetEnd ==> x in allowed
    ensures NewRowsIn(QueueRanges(p, q, ranges, targetEnd).db.tasks, before, q, allowed)
    decreases |ranges|
  {
    if !p.stopped && ranges != [] {
      var first, rest := ranges[0], ranges[1..];
      var r := ByteRange(first.start, Min(first.end, targetEnd));
      assert ranges == [first] + rest;
      forall x ensures InSome(ranges, x) <==> first.Holds(x) || InSome(rest, x) { InSomeCons(first, rest, x); }
      GapsAreUncovered(p.db, q.session.key, r);
      GapsInsertIn(p, q, Missing(r, Reusable(p.db, q.session.key, r)), before, allowed);
      RangeKeepsOk(p, q, r);
      RangesInsertIn(QueueRange(p, q, r), q, rest, targetEnd, before, allowed);
    }
  }

  /** The part of the window that is looked at again. */
  lemma QueuedPartOfWindow(q: Request, x: int)
    requires ValidConfig(q.planner) && q.session.mediaSize >= 0 && PlanFor(q, None) != []
    requires InSome(RangesToQueue(q), x) && x <= WindowEnd(q)
    ensures InSome(PlanFor(q, None), x) && !BehindFrontier(q, x)
  {
    if UsesFrontier(q) {
      var n, h, t, a, c := q.session.mediaSize, HeadBytes(q), TailBytes(q), q.session.lastRangeEnd, q.planner;
      var u := q.session.queuedUntil.value;
      if BlockMode(c) { BlockModePlan(n, h, t, a, Some(u), c, x); } else { ByteModePlanFromFrontier(n, h, t, a, u, c, x); }
      PlanConsecutive(q, None);
      ConsecutiveFull(PlanFor(q, None), x);
    }
  }

  /** The bytes of the window that are not behind a stored frontier inside it. */
  ghost function LookedAt(q: Request): iset<int> {
    if PlanFor(q, None) == [] then iset{} else iset x | InSome(PlanFor(q, None), x) && !BehindFrontier(q, x)
  }

  /** A call changes no row, and each row it inserts is a fresh queued one for bytes of the window that it looks at. */
  lemma InsertsOnlyPlanned(db: Db, q: Request)
    requires PlannerOk(db) && ValidConfig(q.planner) && q.session.mediaSize >= 0
    ensures NewRowsIn(Outcome(db, q).tasks, db.tasks, q, LookedAt(q))
  {
    if PlanFor(q, None) != [] {
      forall x | InSome(RangesToQueue(q), x) && x <= WindowEnd(q)
        ensures x in LookedAt(q)
      {
        QueuedPartOfWindow(q, x);
      }
      RangesInsertIn(Progress(db, 0, None, false), q, RangesToQueue(q), WindowEnd(q), db.tasks, LookedAt(q));
    }
  }
}
