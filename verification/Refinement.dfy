/**
 * Whole calls as runs of the task protocol: what one claim, planner, worker or reader call amounts to when nobody
 * else's statement falls between its own. Interleaving.dfy has the calls among other actors.
 */
module Refinement {
  import opened Intervals
  import opened Tables
  import opened Subtraction
  import opened Protocol
  import opened StateStore
  import opened SessionPlanner
  import opened Lru
  import opened Stitching
  import opened MiddleBlocks
  import opened PrefetchWorker

  // ---- the worker

  lemma {:induction false} RemovalsAreRun(s: State, keep: map<BlockId, Block>) returns (events: seq<Event>)
    requires keep.Keys <= s.db.blocks.Keys && forall b :: b in keep ==> keep[b] == s.db.blocks[b]
    ensures Run(s, events) == s.(db := s.db.(blocks := keep))
    ensures forall e :: e in events ==> e.Remove?
    decreases |s.db.blocks|
  {
    if s.db.blocks.Keys == keep.Keys {
      assert s.db.blocks == keep;
      events := [];
    } else {
      var b :| b in s.db.blocks && b !in keep;
      var t := Apply(s, Remove(b));
      OneRowLess(s.db.blocks, b);
      var rest := RemovalsAreRun(t, keep);
      events := [Remove(b)] + rest;
      assert events[1..] == rest;
    }
  }

  /** What runTask does to the database is one finaliser, or one publish followed by removals, or nothing. */
  lemma WorkerIsRun(s: State, task: Task, result: TaskResult, db: Db, now: Instant, backoffSeconds: int,
                    ttlSeconds: int, maxBytes: int)
    returns (events: seq<Event>)
    requires Inv(s) && Token(task.id, task.attempts) in s.issued && backoffSeconds > 0 && maxBytes >= 0
    requires task.id in s.db.tasks && s.db.tasks[task.id].key == task.key && s.db.tasks[task.id].range == task.range
    requires IsTaskResult(result, db, s.db, task, now, backoffSeconds, ttlSeconds, maxBytes)
    ensures Run(s, events).db == db
  {
    var token := Token(task.id, task.attempts);
    match result
    case GaveUp(outcome) =>
      events := [Finish(token, outcome, now, backoffSeconds)];
      RunOne(s, events[0]);
    case Raced =>
      events := [];
    case Completed =>
      var t := Apply(s, Event.Publish(token, now, ttlSeconds));
      EvictedIsPrefix(Unexpired(t.db.blocks, now), maxBytes);
      var removals := RemovalsAreRun(t, db.blocks);
      events := [Event.Publish(token, now, ttlSeconds)] + removals;
      assert events[1..] == removals;
  }

  // ---- readers

  lemma {:induction false} TouchesAreRun(s: State, spans: seq<Span>, now: Instant, ttlSeconds: int) returns (events: seq<Event>)
    ensures Run(s, events) == s.(db := Touched(s.db, spans, now, ttlSeconds))
    ensures forall e :: e in events ==> e.Touch?
    decreases |spans|
  {
    events := [];
    if spans != [] {
      var last := |spans| - 1;
      var before := TouchesAreRun(s, spans[..last], now, ttlSeconds);
      var touch := Touch(spans[last].record.id, now, ttlSeconds);
      RunConcat(s, before, [touch]);
      RunOne(Run(s, before), touch);
      events := before + [touch];
    }
  }

  /** A request served from anywhere is, to the rows, a run of touches and removals: it takes no task and publishes nothing. */
  lemma ReaderIsRun(s: State, db: Db, now: Instant, ttlSeconds: int) returns (events: seq<Event>)
    requires ReaderRows(db, s.db, now, ttlSeconds)
    ensures Run(s, events) == s.(db := db)
    ensures forall e :: e in events ==> e.Touch? || e.Remove?
  {
    var spans: seq<Span> :| Thinned(db, Touched(s.db, spans, now, ttlSeconds));
    var touches := TouchesAreRun(s, spans, now, ttlSeconds);
    var removals := RemovalsAreRun(Run(s, touches), db.blocks);
    RunConcat(s, touches, removals);
    events := touches + removals;
  }

  // ---- the claim

  /** The tokens handed out with the rows of a claim, given as they were before it. */
  function TokensFor(rows: seq<Task>): seq<Token> {
    if rows == [] then [] else [Token(rows[0].id, rows[0].attempts + 1)] + TokensFor(rows[1..])
  }

  lemma {:induction false} TokenOfRow(rows: seq<Task>, i: nat)
    requires i < |rows|
    ensures Token(rows[i].id, rows[i].attempts + 1) in TokensFor(rows)
  {
    if i > 0 {
      TokenOfRow(rows[1..], i - 1);
      assert rows[1..][i - 1] == rows[i];
    }
  }

  /** Different rows of the table that can be claimed. */
  predicate Candidates(rows: seq<Task>, db: Db, now: Instant, staleSeconds: int) {
    && (forall i :: 0 <= i < |rows| ==> IsRow(rows[i], db) && Claimable(rows[i], now, staleSeconds))
    && (forall i, j :: 0 <= i < j < |rows| ==> rows[i].id != rows[j].id)
  }

  /** The table in which just these rows have been claimed. */
  predicate HasClaimed(after: map<nat, Task>, rows: seq<Task>, db: Db, now: Instant) {
    && after.Keys == db.tasks.Keys
    && (forall i :: 0 <= i < |rows| ==> rows[i].id in after && after[rows[i].id] == Claimed(rows[i], now))
    && (forall id :: id in after && (forall i :: 0 <= i < |rows| ==> rows[i].id != id) ==> after[id] == db.tasks[id])
  }

  /** The UPDATE loop of a claim is one Claim event for each row it returns. */
  lemma {:induction false} ClaimIsRun(s: State, rows: seq<Task>, after: map<nat, Task>, now: Instant, staleSeconds: int)
    returns (events: seq<Event>)
    requires Candidates(rows, s.db, now, staleSeconds) && HasClaimed(after, rows, s.db, now)
    ensures Run(s, events) == s.(db := s.db.(tasks := after), issued := s.issued + TokensFor(rows))
    decreases |rows|
  {
    if rows == [] {
      assert after == s.db.tasks;
      assert s.issued + [] == s.issued;
      events := [];
    } else {
      var t := s.(db := ClaimRow(s.db, rows[0].id, now, staleSeconds), issued := s.issued + [Token(rows[0].id, rows[0].attempts + 1)]);
      RestOfClaim(s.db, rows, after, now, staleSeconds);
      var rest := ClaimIsRun(t, rows[1..], after, now, staleSeconds);
      events := [Claim(rows[0].id, now, staleSeconds)] + rest;
      FirstOfClaim(s, rows, now, staleSeconds, rest);
      ConsTokens(s.issued, Token(rows[0].id, rows[0].attempts + 1), TokensFor(rows[1..]));
      assert t.db.(tasks := after) == s.db.(tasks := after);
    }
  }

  lemma ConsTokens(issued: seq<Token>, token: Token, rest: seq<Token>)
    ensures issued + [token] + rest == issued + ([token] + rest)
  {
  }

  lemma FirstOfClaim(s: State, rows: seq<Task>, now: Instant, staleSeconds: int, rest: seq<Event>)
    requires rows != [] && Candidates(rows, s.db, now, staleSeconds)
    ensures Run(s, [Claim(rows[0].id, now, staleSeconds)] + rest)
         == Run(s.(db := ClaimRow(s.db, rows[0].id, now, staleSeconds), issued := s.issued + [Token(rows[0].id, rows[0].attempts + 1)]), rest)
  {
    assert IsRow(rows[0], s.db);
    var first := Claim(rows[0].id, now, staleSeconds);
    assert ([first] + rest)[1..] == rest;
    assert Apply(s, first)
        == s.(db := ClaimRow(s.db, rows[0].id, now, staleSeconds), issued := s.issued + [Token(rows[0].id, rows[0].attempts + 1)]);
  }

  /** After the first row of a claim, the other rows are still to be claimed and the rest is as before. */
  lemma RestOfClaim(db: Db, rows: seq<Task>, after: map<nat, Task>, now: Instant, staleSeconds: int)
    requires rows != [] && Candidates(rows, db, now, staleSeconds) && HasClaimed(after, rows, db, now)
    ensures Candidates(rows[1..], ClaimRow(db, rows[0].id, now, staleSeconds), now, staleSeconds)
    ensures HasClaimed(after, rows[1..], ClaimRow(db, rows[0].id, now, staleSeconds), now)
  {
    var rest, next := rows[1..], ClaimRow(db, rows[0].id, now, staleSeconds);
    assert next.tasks == db.tasks[rows[0].id := Claimed(rows[0], now)];
    forall i | 0 <= i < |rest|
      ensures IsRow(rest[i], next) && Claimable(rest[i], now, staleSeconds)
    {
      assert rest[i] == rows[i + 1];
    }
    forall id | id in after && id != rows[0].id && (forall i :: 0 <= i < |rest| ==> rest[i].id != id)
      ensures after[id] == next.tasks[id]
    {
      forall i | 0 <= i < |rows|
        ensures rows[i].id != id
      {
        if i > 0 { assert rest[i - 1] == rows[i]; }
      }
    }
  }

  lemma OrderIsClaimable(db: Db, n: nat, now: Instant, staleSeconds: int)
    requires Keyed(db) && n <= |ClaimOrder(db, now, staleSeconds)|
    ensures Candidates(ClaimOrder(db, now, staleSeconds)[..n], db, now, staleSeconds)
  {
    OrdersAreTotal();
    var order := ClaimOrder(db, now, staleSeconds);
    forall i | 0 <= i < n
      ensures IsRow(order[i], db) && Claimable(order[i], now, staleSeconds)
    {
      assert order[i] in ClaimableRows(db, now, staleSeconds);
    }
  }

  /** A claim call is a run that hands out the token of every row it returns, which is what the worker's calls rely on. */
  lemma ClaimCallIsRun(s: State, out: seq<Task>, db: Db, limit: int, now: Instant, staleSeconds: int) returns (events: seq<Event>)
    requires Keyed(s.db) && IsClaim(out, db, s.db, limit, now, staleSeconds)
    ensures Run(s, events).db == db && |Run(s, events).issued| == |s.issued| + |out|
    ensures forall i :: 0 <= i < |out| ==> Token(out[i].id, out[i].attempts) in Run(s, events).issued
  {
    OrderIsClaimable(s.db, |out|, now, staleSeconds);
    events := ReturnedIsRun(s, ClaimOrder(s.db, now, staleSeconds)[..|out|], out, db, now, staleSeconds);
  }

  lemma ReturnedIsRun(s: State, rows: seq<Task>, out: seq<Task>, db: Db, now: Instant, staleSeconds: int) returns (events: seq<Event>)
    requires Candidates(rows, s.db, now, staleSeconds)
    requires |out| == |rows| && forall i :: 0 <= i < |out| ==> out[i] == Claimed(rows[i], now) && IsRow(out[i], db)
    requires db == s.db.(tasks := db.tasks) && db.tasks.Keys == s.db.tasks.Keys
    requires forall id :: id in db.tasks && (forall i :: 0 <= i < |out| ==> out[i].id != id) ==> db.tasks[id] == s.db.tasks[id]
    ensures Run(s, events).db == db && |Run(s, events).issued| == |s.issued| + |out|
    ensures forall i :: 0 <= i < |out| ==> Token(out[i].id, out[i].attempts) in Run(s, events).issued
  {
    ReturnedRows(s.db, out, rows, db, now);
    events := ClaimIsRun(s, rows, db.tasks, now, staleSeconds);
    TokensReturned(s.issued, rows, out, now);
  }

  lemma TokensReturned(issued: seq<Token>, rows: seq<Task>, out: seq<Task>, now: Instant)
    requires |out| == |rows| && forall i :: 0 <= i < |out| ==> out[i] == Claimed(rows[i], now)
    ensures |issued + TokensFor(rows)| == |issued| + |out|
    ensures forall i :: 0 <= i < |out| ==> Token(out[i].id, out[i].attempts) in issued + TokensFor(rows)
  {
    TokensCount(rows);
    forall i | 0 <= i < |out|
      ensures Token(out[i].id, out[i].attempts) in TokensFor(rows)
    {
      TokenOfRow(rows, i);
    }
  }

  lemma ReturnedRows(before: Db, out: seq<Task>, rows: seq<Task>, db: Db, now: Instant)
    requires |out| == |rows| && forall i :: 0 <= i < |out| ==> out[i] == Claimed(rows[i], now) && IsRow(out[i], db)
    requires db.tasks.Keys == before.tasks.Keys
    requires forall id :: id in db.tasks && (forall i :: 0 <= i < |out| ==> out[i].id != id) ==> db.tasks[id] == before.tasks[id]
    ensures HasClaimed(db.tasks, rows, before, now)
  {
    forall i | 0 <= i < |rows|
      ensures rows[i].id in db.tasks && db.tasks[rows[i].id] == Claimed(rows[i], now)
    {
      assert IsRow(out[i], db) && out[i].id == rows[i].id;
    }
    forall id | id in db.tasks && (forall i :: 0 <= i < |rows| ==> rows[i].id != id)
      ensures db.tasks[id] == before.tasks[id]
    {
      assert forall i :: 0 <= i < |out| ==> out[i].id == rows[i].id;
    }
  }

  lemma {:induction false} TokensCount(rows: seq<Task>)
    ensures |TokensFor(rows)| == |rows|
  {
    if rows != [] { TokensCount(rows[1..]); }
  }

  // ---- the planner

  function GapEvent(q: Request): Event {
    EnqueueGap(q.session.itemId, q.session.mediaSourceId, q.priority, q.now, q.maxDepth)
  }

  lemma {:induction false} GapsAreRun(s: State, p: Progress, q: Request, gaps: seq<ByteRange>) returns (events: seq<Event>)
    requires s.db == p.db && s.gapKey == q.session.key && s.nextGap <= |s.gaps| && s.gaps[s.nextGap..] == gaps
    ensures Run(s, events).db == QueueGaps(p, q, gaps).db
    decreases |gaps|
  {
    events := [];
    if !p.stopped && gaps != [] {
      assert s.gaps[s.nextGap] == gaps[0] && s.gaps[s.nextGap + 1..] == gaps[1..];
      var t := Apply(s, GapEvent(q));
      var can := CanEnqueue(p.db, q.session.key, gaps[0], q.maxDepth);
      if can || HasLiveRow(p.db, q.session.key, gaps[0]) {
        var next := if can then Progress(EnqueueOne(p.db, q, gaps[0]), p.inserted + 1, Some(gaps[0].end), false)
                    else p.(highest := Some(gaps[0].end));
        assert t.db == next.db;
        var rest := GapsAreRun(t, next, q, gaps[1..]);
        events := [GapEvent(q)] + rest;
        assert events[1..] == rest;
      }
    }
  }

  lemma RangeIsRun(s: State, p: Progress, q: Request, r: ByteRange) returns (events: seq<Event>)
    requires s.db == p.db && !p.stopped
    ensures Run(s, events).db == QueueRange(p, q, r).db
  {
    OrdersAreTotal();
    var existing := Reusable(p.db, q.session.key, r);
    assert forall i :: 0 <= i < |existing| ==> existing[i] in ReusableRows(p.db, q.session.key, r);
    var read := ReadGaps(q.session.key, r, existing);
    var t := Apply(s, read);
    var gaps := Missing(r, existing);
    assert t == s.(gapKey := q.session.key, gaps := gaps, nextGap := 0);
    assert t.gaps[0..] == gaps;
    var rest := GapsAreRun(t, p, q, gaps);
    events := [read] + rest;
    assert events[1..] == rest;
  }

  lemma {:induction false} RangesAreRun(s: State, p: Progress, q: Request, ranges: seq<ByteRange>, targetEnd: int)
    returns (events: seq<Event>)
    requires s.db == p.db
    ensures Run(s, events).db == QueueRanges(p, q, ranges, targetEnd).db
    decreases |ranges|
  {
    events := [];
    if !p.stopped && ranges != [] {
      var r := ByteRange(ranges[0].start, Min(ranges[0].end, targetEnd));
      var first := RangeIsRun(s, p, q, r);
      var rest := RangesAreRun(Run(s, first), QueueRange(p, q, r), q, ranges[1..], targetEnd);
      RunConcat(s, first, rest);
      events := first + rest;
    }
  }

  /** Everything EnqueueForSession does to tasks and blocks is a run of planner events. */
  lemma PlannerIsRun(s: State, q: Request) returns (events: seq<Event>)
    ensures Run(s, events).db.(sessions := SessionPlanner.Outcome(s.db, q).sessions) == SessionPlanner.Outcome(s.db, q)
  {
    events := [];
    if PlanFor(q, None) != [] {
      events := RangesAreRun(s, Progress(s.db, 0, None, false), q, RangesToQueue(q), WindowEnd(q));
    }
  }

  /** The planner may count on what its own lemmas ask of the rows. */
  lemma RunsArePlannerOk(events: seq<Event>)
    ensures PlannerOk(Run(INITIAL, events).db)
  {
    assert Inv(INITIAL);
    RunKeepsInv(INITIAL, events);
  }
}
