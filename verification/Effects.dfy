/** What single statements mean for what happens later, apart from how they write it. */
module StatementEffects {
  import opened Intervals
  import opened Tables
  import opened Accounting
  import opened StateStore
  import opened Lru
  import opened Stitching
  import opened MiddleBlocks
  import opened Protocol
  import opened Retries
  import opened Planner
  import opened PlanWindows
  import opened SessionPlanner

  // ---- claiming

  /** The task is more urgent: higher priority first, then older, then lower id. */
  predicate Outranks(a: Task, b: Task) {
    && a.priority >= b.priority
    && (a.priority == b.priority ==> a.createdAt <= b.createdAt)
    && (a.priority == b.priority && a.createdAt == b.createdAt ==> a.id < b.id)
  }

  ghost predicate Returned(out: seq<Task>, id: nat) { exists i :: 0 <= i < |out| && out[i].id == id }

  /** A claimed row is a claimable row at its next attempt, running from now on, and due again only when it goes stale. */
  predicate IsNextAttempt(after: Task, before: Task, now: Instant) {
    && SameIdentity(after, before) && after.priority == before.priority && after.createdAt == before.createdAt
    && after.status.Running? && after.attempts == before.attempts + 1 && after.updatedAt == now
    && after.itemId == before.itemId && after.mediaSourceId == before.mediaSourceId
  }

  lemma ClaimedRowIsNextAttempt(t: Task, now: Instant, at: Instant, staleSeconds: int)
    ensures IsNextAttempt(Claimed(t, now), t, now)
    ensures Claimable(Claimed(t, now), at, staleSeconds) <==> staleSeconds > 0 && at >= now + staleSeconds as real
  {
  }

  /** A claim takes the most urgent rows: every claimable row it leaves is outranked by every row it takes. */
  lemma ClaimTakesMostUrgent(out: seq<Task>, db: Db, before: Db, limit: int, now: Instant, staleSeconds: int, i: nat, id: nat)
    requires Keyed(before) && IsClaim(out, db, before, limit, now, staleSeconds)
    requires i < |out| && id in before.tasks
    ensures out[i].id in before.tasks && Claimable(before.tasks[out[i].id], now, staleSeconds)
    ensures IsNextAttempt(out[i], before.tasks[out[i].id], now)
    ensures Claimable(before.tasks[id], now, staleSeconds) && !Returned(out, id) ==> Outranks(before.tasks[out[i].id], before.tasks[id])
    ensures forall j :: i < j < |out| ==> Outranks(out[i], out[j])
  {
    OrdersAreTotal();
    var order, rows := ClaimOrder(before, now, staleSeconds), ClaimableRows(before, now, staleSeconds);
    forall k | 0 <= k < |order|
      ensures order[k].id in before.tasks && before.tasks[order[k].id] == order[k] && Claimable(order[k], now, staleSeconds)
    {
      assert order[k] in rows;
    }
    if Claimable(before.tasks[id], now, staleSeconds) && !Returned(out, id) {
      assert before.tasks[id] in rows;
      var j :| 0 <= j < |order| && order[j] == before.tasks[id];
      TakenAreReturned(out, order, now, j);
      OrderedRows(before, now, staleSeconds, i, j);
    }
    forall j | i < j < |out|
      ensures Outranks(out[i], out[j])
    {
      OrderedRows(before, now, staleSeconds, i, j);
    }
  }

  lemma TakenAreReturned(out: seq<Task>, order: seq<Task>, now: Instant, j: nat)
    requires |out| <= |order| && j < |order| && forall i :: 0 <= i < |out| ==> out[i] == Claimed(order[i], now)
    ensures j < |out| ==> Returned(out, order[j].id)
  {
    if j < |out| { assert out[j].id == order[j].id; }
  }

  lemma OrderedRows(db: Db, now: Instant, staleSeconds: int, i: nat, j: nat)
    requires Keyed(db) && i < j < |ClaimOrder(db, now, staleSeconds)|
    ensures Outranks(ClaimOrder(db, now, staleSeconds)[i], ClaimOrder(db, now, staleSeconds)[j])
  {
    OrdersAreTotal();
    var order, rows := ClaimOrder(db, now, staleSeconds), ClaimableRows(db, now, staleSeconds);
    assert order[i] in rows && order[j] in rows;
    assert ClaimLe(order[i], order[j]) && order[i] != order[j];
    assert db.tasks[order[i].id] == order[i] && db.tasks[order[j].id] == order[j];
  }

  // ---- the queue's depth

  predicate EnqueueWithin(e: Event, depth: int) { e.EnqueueGap? ==> e.maxDepth <= depth }

  function Requeues(events: seq<Event>): nat {
    if events == [] then 0 else (if events[0].Finish? && events[0].outcome.Cancelled? then 1 else 0) + Requeues(events[1..])
  }

  /** Inserting goes through exactly when fewer rows are queued than the depth allows and no row of any status has the range. */
  lemma EnqueueExactly(db: Db, itemId: string, mediaSourceId: string, key: Key, r: ByteRange, priority: int, now: Instant, maxDepth: int)
    ensures var queued := set id | id in db.tasks && db.tasks[id].status == Status.Queued;
      var taken := exists id :: id in db.tasks && db.tasks[id].key == key && db.tasks[id].range == r;
      Enqueue(db, itemId, mediaSourceId, key, r, priority, now, maxDepth)
      == if |queued| >= maxDepth || taken then db
         else db.(tasks := db.tasks[db.nextId := Task(db.nextId, itemId, mediaSourceId, key, r, priority, Status.Queued, 0, now, now, None, None)],
                  nextId := db.nextId + 1)
  {
    assert QueuedIds(db) == set id | id in db.tasks && db.tasks[id].status == Status.Queued;
  }

  lemma EnqueueDepth(db: Db, itemId: string, mediaSourceId: string, key: Key, r: ByteRange, priority: int, now: Instant, maxDepth: int)
    ensures |QueuedIds(Enqueue(db, itemId, mediaSourceId, key, r, priority, now, maxDepth))| <= Max(|QueuedIds(db)|, maxDepth)
  {
    if CanEnqueue(db, key, r, maxDepth) {
      var next := Enqueue(db, itemId, mediaSourceId, key, r, priority, now, maxDepth);
      assert QueuedIds(next) == QueuedIds(db) + {db.nextId};
    }
  }

  lemma FinishDepth(db: Db, token: Token, outcome: Protocol.Outcome, now: Instant, backoffSeconds: int)
    ensures |QueuedIds(Finished(db, token, outcome, now, backoffSeconds))| <= |QueuedIds(db)| + if outcome.Cancelled? then 1 else 0
  {
    var a, b := QueuedIds(db), QueuedIds(Finished(db, token, outcome, now, backoffSeconds));
    var more: set<nat> := if outcome.Cancelled? then {token.id} else {};
    assert b <= a + more;
    SubsetSize(b, a + more);
  }

  lemma NoDeeper(db: Db, next: Db)
    requires forall id :: id in next.tasks && next.tasks[id].status.Queued? ==> id in db.tasks && db.tasks[id].status.Queued?
    ensures |QueuedIds(next)| <= |QueuedIds(db)|
  {
    SubsetSize(QueuedIds(next), QueuedIds(db));
  }

  lemma StepDepth(s: State, e: Event, depth: int)
    requires Inv(s) && EnqueueWithin(e, depth)
    ensures |QueuedIds(Apply(s, e).db)| <= Max(|QueuedIds(s.db)|, depth) + if e.Finish? && e.outcome.Cancelled? then 1 else 0
  {
    var t := Apply(s, e);
    if t.db != s.db {
      match e
      case EnqueueGap(itemId, mediaSourceId, priority, now, maxDepth) =>
        EnqueueDepth(s.db, itemId, mediaSourceId, s.gapKey, s.gaps[s.nextGap], priority, now, maxDepth);
      case Finish(token, outcome, now, backoff) => FinishDepth(s.db, token, outcome, now, backoff);
      case Restart => BackfillChangesNothing(s);
      case _ => NoDeeper(s.db, t.db);
    }
  }

  lemma SubsetSize(a: set<nat>, b: set<nat>)
    requires a <= b
    ensures |a| <= |b|
  {
    assert b == a + (b - a);
  }

  /** Over every run the queue is never deeper than the depth its inserts ask for, but for tasks that were cancelled back into it. */
  lemma {:induction false} QueueDepthHolds(s: State, events: seq<Event>, depth: int)
    requires Inv(s) && forall e :: e in events ==> EnqueueWithin(e, depth)
    ensures |QueuedIds(Run(s, events).db)| <= Max(|QueuedIds(s.db)|, depth) + Requeues(events)
    decreases |events|
  {
    if events != [] {
      StepDepth(s, events[0], depth);
      StepKeepsInv(s, events[0]);
      QueueDepthHolds(Apply(s, events[0]), events[1..], depth);
    }
  }

  // ---- the life of a block

  /** The block counts as expired at exactly the times from `until` on. */
  ghost predicate LivesUntil(blocks: map<BlockId, Block>, id: BlockId, until: Instant) {
    id in blocks && forall at: Instant :: ExpiredAt(blocks[id], at) <==> at >= until
  }

  predicate ExpiredAt(b: Block, at: Instant) { b.expiresAt <= at }

  /** A publication completes the task for good, and its block, of the size of the range, lives for exactly the ttl. */
  lemma PublishEffect(db: Db, token: Token, now: Instant, ttlSeconds: int)
    requires Current(db, token)
    ensures var id := BlockOf(db.tasks[token.id]);
      var next := PublishBlock(db, token, NewBlock(id, now, ttlSeconds), now);
      && LivesUntil(next.blocks, id, now + ttlSeconds as real)
      && next.blocks[id].size == id.end - id.start + 1 && next.blocks[id].path == id
      && next.blocks[id].createdAt == now == next.blocks[id].lastAccessAt
      && next.blocks == db.blocks[id := next.blocks[id]]
      && token.id in next.tasks && next.tasks[token.id].status.Done? && NeverClaimable(next.tasks[token.id])
      && next == db.(tasks := db.tasks[token.id := next.tasks[token.id]], blocks := next.blocks)
  {
  }

  /** A read gives the block a new life of the ttl, and leaves everything else. */
  lemma TouchEffect(db: Db, id: BlockId, now: Instant, ttlSeconds: int)
    requires id in db.blocks
    ensures var next := TouchBlock(db, id, now, ttlSeconds);
      && LivesUntil(next.blocks, id, now + ttlSeconds as real)
      && next.blocks[id].size == db.blocks[id].size && next.blocks[id].path == db.blocks[id].path
      && next == db.(blocks := db.blocks[id := next.blocks[id]])
  {
  }

  /** A stitched read gives every block it takes bytes from a new life of the ttl, and touches no other. */
  lemma {:induction false} TouchedExactly(db: Db, spans: seq<Span>, now: Instant, ttlSeconds: int, id: BlockId)
    ensures var next := Touched(db, spans, now, ttlSeconds);
      && next == db.(blocks := next.blocks) && next.blocks.Keys == db.blocks.Keys
      && (id in db.blocks ==>
            if exists i :: 0 <= i < |spans| && spans[i].record.id == id
            then next.blocks[id].lastAccessAt == now && LivesUntil(next.blocks, id, now + ttlSeconds as real)
                 && next.blocks[id].size == db.blocks[id].size && next.blocks[id].path == db.blocks[id].path
            else next.blocks[id] == db.blocks[id])
    decreases |spans|
  {
    if spans != [] {
      var last := |spans| - 1;
      TouchedExactly(db, spans[..last], now, ttlSeconds, id);
      assert forall i :: 0 <= i < last ==> spans[..last][i] == spans[i];
    }
  }

  /** A block that was just read outlives every block that was not: eviction never takes it while it fits by itself. */
  lemma JustReadSurvives(db: Db, id: BlockId, now: Instant, ttlSeconds: int, maxBytes: int)
    requires BlocksKeyed(db.blocks) && id in db.blocks && db.blocks[id].size <= maxBytes && maxBytes >= 0
    requires forall b :: b in db.blocks && b != id ==> db.blocks[b].lastAccessAt < now
    ensures var next := TouchBlock(db, id, now, ttlSeconds); BlocksKeyed(next.blocks) && id in Evicted(next.blocks, maxBytes)
  {
    NewestSurvives(TouchBlock(db, id, now, ttlSeconds).blocks, id, maxBytes);
  }

  /** Nothing that eviction takes was used later than anything it leaves. */
  lemma {:induction false} EvictsLeastRecent(blocks: map<BlockId, Block>, maxBytes: int, gone: BlockId, kept: BlockId)
    requires BlocksKeyed(blocks) && maxBytes >= 0
    requires gone in blocks && gone !in Evicted(blocks, maxBytes) && kept in Evicted(blocks, maxBytes)
    ensures kept in blocks && Evicted(blocks, maxBytes)[kept] == blocks[kept] && blocks[gone].lastAccessAt <= blocks[kept].lastAccessAt
    decreases |blocks|
  {
    if SumSizes(blocks) > maxBytes {
      OrderTail(blocks);
      var first := LruOrder(blocks)[0].id;
      OneRowLess(blocks, first);
      EvictedWithin(blocks - {first}, maxBytes);
      if gone == first {
        OrdersAreTotal();
        assert blocks[kept] in BlockRows(blocks);
        assert LruLe(blocks[first], blocks[kept]);
      } else {
        EvictsLeastRecent(blocks - {first}, maxBytes, gone, kept);
      }
    }
  }

  lemma {:induction false} EvictedWithin(blocks: map<BlockId, Block>, maxBytes: int)
    requires BlocksKeyed(blocks)
    ensures forall b :: b in Evicted(blocks, maxBytes) ==> b in blocks && Evicted(blocks, maxBytes)[b] == blocks[b]
    decreases |blocks|
  {
    if !(SumSizes(blocks) <= maxBytes || blocks == map[]) {
      OrderTail(blocks);
      OneRowLess(blocks, LruOrder(blocks)[0].id);
      EvictedWithin(blocks - {LruOrder(blocks)[0].id}, maxBytes);
    }
  }

  // ---- the backfill

  /** The backfill revives exactly the abandoned rows without a retry time whose error is none of the three permanent ones. */
  lemma BackfillRevives(db: Db, id: nat)
    requires id in db.tasks
    ensures var t, next := db.tasks[id], Backfill(db);
      var abandoned := (t.status == Failed || t.status == Skipped) && t.nextAttemptAt == None;
      var final := t.lastError in {Some(RangeTooLarge), Some(PrefetchSourceMismatch), Some(PermanentError)};
      && next == db.(tasks := next.tasks) && next.tasks.Keys == db.tasks.Keys
      && (abandoned ==> NeverClaimable(t))
      && (abandoned && !final ==>
            && ClaimableExactlyFrom(next.tasks[id], t.updatedAt) && SameIdentity(next.tasks[id], t)
            && next.tasks[id].attempts == t.attempts && next.tasks[id].lastError == t.lastError)
      && (!abandoned || final ==> next.tasks[id] == t)
  {
  }

  // ---- the edges of a plan

  /** Nothing is planned for the first bytes of a file, nor for the last ones: 8 MiB each unless configured otherwise. */
  lemma PlanAvoidsEdges(q: SessionPlanner.Request, queuedUntil: Option<int>, x: int)
    requires ValidConfig(q.planner) && q.session.mediaSize >= 0 && InSome(PlanFor(q, queuedUntil), x)
    ensures x >= (if q.headBytes > 0 then q.headBytes else 8388608)
    ensures x < q.session.mediaSize - (if q.tailBytes > 0 then q.tailBytes else 8388608)
  {
    PlannedInWindow(q.session.mediaSize, HeadBytes(q), TailBytes(q), q.session.lastRangeEnd, queuedUntil, q.planner, x);
  }
}
