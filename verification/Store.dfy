/** The state store: one method for each statement or transaction, tied to its function on the rows. */
module StateStore {
  import opened Intervals
  import opened Ordering
  import opened Tables
  import opened Protocol
  import opened Accounting

  // ---- ORDER BY clauses

  predicate RangeLe(a: ByteRange, b: ByteRange) {
    a.start < b.start || (a.start == b.start && a.end <= b.end)
  }

  /** ORDER BY priority DESC, created_at ASC, id ASC */
  predicate ClaimLe(a: Task, b: Task) {
    || a.priority > b.priority
    || (a.priority == b.priority && a.createdAt < b.createdAt)
    || (a.priority == b.priority && a.createdAt == b.createdAt && a.id <= b.id)
  }

  predicate IdLe(a: BlockId, b: BlockId) {
    || a.key < b.key
    || (a.key == b.key && RangeLe(a.Range(), b.Range()))
  }

  /** ORDER BY last_access_at ASC, cache_key ASC, start ASC, end ASC */
  predicate LruLe(a: Block, b: Block) {
    a.lastAccessAt < b.lastAccessAt || (a.lastAccessAt == b.lastAccessAt && IdLe(a.id, b.id))
  }

  /** ORDER BY expires_at ASC, cache_key ASC, start ASC, end ASC */
  predicate ExpiryLe(a: Block, b: Block) {
    a.expiresAt < b.expiresAt || (a.expiresAt == b.expiresAt && IdLe(a.id, b.id))
  }

  predicate BlockStartLe(a: Block, b: Block) { RangeLe(a.id.Range(), b.id.Range()) }

  lemma OrdersAreTotal()
    ensures Total(RangeLe) && Total(ClaimLe) && Total(LruLe) && Total(ExpiryLe) && Total(BlockStartLe)
  {
  }

  function ClaimableRows(db: Db, now: Instant, staleSeconds: int): set<Task> {
    set id | id in db.tasks && Claimable(db.tasks[id], now, staleSeconds) :: db.tasks[id]
  }

  /** The rows of a claim's SELECT, before LIMIT. */
  ghost function ClaimOrder(db: Db, now: Instant, staleSeconds: int): seq<Task> {
    OrdersAreTotal();
    Ordered(ClaimableRows(db, now, staleSeconds), ClaimLe)
  }

  /** What ReusablePrefetchRanges returns. */
  ghost function Reusable(db: Db, key: Key, r: ByteRange): seq<ByteRange> {
    OrdersAreTotal();
    Ordered(ReusableRows(db, key, r), RangeLe)
  }

  function BlockRows(blocks: map<BlockId, Block>): set<Block> {
    set b | b in blocks :: blocks[b]
  }

  ghost function LruOrder(blocks: map<BlockId, Block>): seq<Block> {
    OrdersAreTotal();
    Ordered(BlockRows(blocks), LruLe)
  }

  function OverlappingRows(db: Db, key: Key, r: ByteRange): set<Block> {
    set b | b in db.blocks && b.key == key && b.start <= r.end && b.end >= r.start :: db.blocks[b]
  }

  /** The rows of FindMiddleBlocks, in its order. */
  ghost function MiddleOrder(db: Db, key: Key, r: ByteRange): seq<Block> {
    OrdersAreTotal();
    Ordered(OverlappingRows(db, key, r), BlockStartLe)
  }

  /** Primary keys: a row is stored under its own id. */
  predicate Keyed(db: Db) {
    && (forall id :: id in db.tasks ==> db.tasks[id].id == id && id < db.nextId)
    && (forall b :: b in db.blocks ==> db.blocks[b].id == b)
  }

  predicate IsRow(t: Task, db: Db) { t.id in db.tasks && db.tasks[t.id] == t }

  lemma RowCount(db: Db, now: Instant, staleSeconds: int)
    requires Keyed(db)
    ensures |ClaimableRows(db, now, staleSeconds)| == |Claimables(db, now, staleSeconds)|
  {
    RowsByIdCount(db, Claimables(db, now, staleSeconds), ClaimableRows(db, now, staleSeconds));
  }

  lemma {:induction false} RowsByIdCount(db: Db, ids: set<nat>, rows: set<Task>)
    requires Keyed(db) && ids <= db.tasks.Keys && rows == set id | id in ids :: db.tasks[id]
    ensures |rows| == |ids|
    decreases |ids|
  {
    if ids == {} {
      assert rows == {};
    } else {
      var id :| id in ids;
      var rest := set i | i in ids - {id} :: db.tasks[i];
      RowsByIdCount(db, ids - {id}, rest);
      assert rows == rest + {db.tasks[id]};
      assert db.tasks[id] !in rest;
    }
  }

  /** The statement of the publish transaction that fails, if any, and how the transaction ends. */
  datatype TxFault = TxRuns | UpsertFails | UpdateFails | CommitFails

  datatype TxResult = TxCommitted | TxRefused | TxRaised

  /**
   * What a claim of up to limit tasks returns and leaves: the first claimable rows in claim order, each with its
   * next attempt, and every other row as it was.
   */
  ghost predicate IsClaim(out: seq<Task>, db: Db, before: Db, limit: int, now: Instant, staleSeconds: int) {
    && |out| == (if limit <= 0 then 0 else Min(limit, |Claimables(before, now, staleSeconds)|))
    && |out| <= |ClaimOrder(before, now, staleSeconds)|
    && (forall i :: 0 <= i < |out| ==> out[i] == Claimed(ClaimOrder(before, now, staleSeconds)[i], now))
    && db == before.(tasks := db.tasks) && db.tasks.Keys == before.tasks.Keys
    && (forall i :: 0 <= i < |out| ==> IsRow(out[i], db))
    && (forall id :: id in before.tasks && (forall i :: 0 <= i < |out| ==> out[i].id != id) ==> db.tasks[id] == before.tasks[id])
  }

  /** The table when the first n candidates have been claimed, and the rows returned for them. */
  predicate ClaimedUpTo(out: seq<Task>, tasks: map<nat, Task>, before: map<nat, Task>, candidates: seq<Task>, n: nat, now: Instant) {
    && |out| == n <= |candidates| && tasks.Keys == before.Keys
    && (forall j :: 0 <= j < n ==> out[j] == Claimed(candidates[j], now) && out[j].id in tasks && tasks[out[j].id] == out[j])
    && (forall j :: n <= j < |candidates| ==> candidates[j].id in tasks && tasks[candidates[j].id] == candidates[j])
    && (forall id :: id in before && (forall j :: 0 <= j < n ==> out[j].id != id) ==> tasks[id] == before[id])
  }

  lemma ClaimedNext(out: seq<Task>, tasks: map<nat, Task>, before: map<nat, Task>, candidates: seq<Task>, n: nat, now: Instant)
    requires n < |candidates| && ClaimedUpTo(out, tasks, before, candidates, n, now)
    requires forall i, j :: 0 <= i < j < |candidates| ==> candidates[i].id != candidates[j].id
    ensures var row := Claimed(candidates[n], now);
      ClaimedUpTo(out + [row], tasks[row.id := row], before, candidates, n + 1, now)
  {
    var row := Claimed(candidates[n], now);
    var more, next := out + [row], tasks[row.id := row];
    forall j | 0 <= j < n + 1
      ensures more[j] == Claimed(candidates[j], now) && more[j].id in next && next[more[j].id] == more[j]
    {
      if j < n { assert more[j] == out[j] && candidates[j].id != candidates[n].id; }
    }
    forall j | n + 1 <= j < |candidates|
      ensures candidates[j].id in next && next[candidates[j].id] == candidates[j]
    {
      assert candidates[j].id != row.id;
    }
    forall id | id in before && (forall j :: 0 <= j < n + 1 ==> more[j].id != id)
      ensures next[id] == before[id]
    {
      assert more[n].id != id;
      assert forall j :: 0 <= j < n ==> out[j] == more[j];
    }
  }

  class Store {
    var tasks: map<nat, Task>
    var nextId: nat
    var blocks: map<BlockId, Block>
    var sessions: map<string, Session>

    function AsDb(): Db
      reads this
    {
      Db(tasks, nextId, blocks, sessions)
    }

    constructor ()
      ensures AsDb() == EMPTY
    {
      tasks, nextId, blocks, sessions := map[], 1, map[], map[];
    }

    /** The last statement of initSchema, run whenever the store is opened. */
    method InitSchema()
      modifies this
      ensures AsDb() == Backfill(old(AsDb()))
    {
      tasks := map id | id in tasks :: Backfilled(tasks[id]);
    }

    method EnqueuePrefetchTask(itemId: string, mediaSourceId: string, key: Key, r: ByteRange, priority: int,
                               now: Instant, maxDepth: int)
      returns (task: Option<Task>)
      modifies this
      ensures AsDb() == Enqueue(old(AsDb()), itemId, mediaSourceId, key, r, priority, now, maxDepth)
      ensures task.Some? <==> old(CanEnqueue(AsDb(), key, r, maxDepth))
      ensures task.Some? ==> task.value == NewTask(old(nextId), itemId, mediaSourceId, key, r, priority, now)
    {
      var queued := |QueuedIds(AsDb())|;
      if queued >= maxDepth { return None; }
      if HasRow(AsDb(), key, r) { return None; }
      task := Some(NewTask(nextId, itemId, mediaSourceId, key, r, priority, now));
      tasks, nextId := tasks[nextId := task.value], nextId + 1;
    }

    method PrefetchTaskExists(key: Key, r: ByteRange) returns (present: bool)
      ensures present <==> HasLiveRow(AsDb(), key, r)
    {
      present := HasLiveRow(AsDb(), key, r);
    }

    method ReusablePrefetchRanges(key: Key, r: ByteRange) returns (out: seq<ByteRange>)
      ensures IsReusableListing(out, AsDb(), key, r)
    {
      OrdersAreTotal();
      out := OrderBy(ReusableRows(AsDb(), key, r), RangeLe);
    }

    method ClaimPrefetchTasks(limit: int, now: Instant, staleSeconds: int) returns (out: seq<Task>)
      requires Keyed(AsDb())
      modifies this
      ensures IsClaim(out, AsDb(), old(AsDb()), limit, now, staleSeconds)
      ensures limit > 0 ==> (out == [] <==> Claimables(old(AsDb()), now, staleSeconds) == {})
    {
      if limit <= 0 { return []; }
      ghost var before := AsDb();
      ghost var rows := ClaimableRows(before, now, staleSeconds);
      OrdersAreTotal();
      var candidates := OrderBy(ClaimableRows(AsDb(), now, staleSeconds), ClaimLe);
      ListingUnique(candidates, ClaimOrder(before, now, staleSeconds), rows, ClaimLe);
      RowCount(before, now, staleSeconds);
      ListingSize(candidates, rows, ClaimLe);
      forall i | 0 <= i < |candidates|
        ensures IsRow(candidates[i], before) && Claimable(candidates[i], now, staleSeconds)
      {
        assert candidates[i] in rows;
      }
      if limit < |candidates| { candidates := candidates[..limit]; }
      out := UpdateClaimed(candidates, now, staleSeconds);
    }

    /** The loop of ClaimPrefetchTasks: one guarded UPDATE and one re-read for each candidate. */
    method UpdateClaimed(candidates: seq<Task>, now: Instant, staleSeconds: int) returns (out: seq<Task>)
      requires forall i :: 0 <= i < |candidates| ==> IsRow(candidates[i], AsDb()) && Claimable(candidates[i], now, staleSeconds)
      requires forall i, j :: 0 <= i < j < |candidates| ==> candidates[i] != candidates[j]
      modifies this
      ensures |out| == |candidates|
      ensures forall i :: 0 <= i < |out| ==> out[i] == Claimed(candidates[i], now) && IsRow(out[i], AsDb())
      ensures AsDb() == old(AsDb()).(tasks := tasks) && tasks.Keys == old(tasks.Keys)
      ensures forall id :: id in old(tasks) && (forall i :: 0 <= i < |out| ==> out[i].id != id) ==> tasks[id] == old(tasks[id])
    {
      ghost var before := AsDb();
      forall i, j | 0 <= i < j < |candidates|
        ensures candidates[i].id != candidates[j].id
      {
        assert IsRow(candidates[i], before) && IsRow(candidates[j], before);
      }
      out := [];
      for i := 0 to |candidates|
        invariant AsDb() == before.(tasks := tasks)
        invariant ClaimedUpTo(out, tasks, before.tasks, candidates, i, now)
      {
        ghost var mid := tasks;
        var row := ClaimOne(candidates[i].id, now, staleSeconds);
        if row.Some? { out := out + [row.value]; }
        ClaimedNext(out[..i], mid, before.tasks, candidates, i, now);
        assert out == out[..i] + [Claimed(candidates[i], now)];
      }
    }

    /** The guarded UPDATE of one candidate and the re-read of its row; None when the guard no longer holds. */
    method ClaimOne(id: nat, now: Instant, staleSeconds: int) returns (row: Option<Task>)
      requires id in tasks
      modifies this
      ensures AsDb() == ClaimRow(old(AsDb()), id, now, staleSeconds)
      ensures row == if old(Claimable(tasks[id], now, staleSeconds)) then Some(tasks[id]) else None
    {
      if !Claimable(tasks[id], now, staleSeconds) { return None; }
      tasks := tasks[id := Claimed(tasks[id], now)];
      row := Some(tasks[id]);
    }

    /** The count is the number of rows a claim without a limit would return. */
    method ClaimablePrefetchTaskCount(now: Instant, staleSeconds: int) returns (count: nat)
      requires Keyed(AsDb())
      ensures count == |ClaimOrder(AsDb(), now, staleSeconds)| == |Claimables(AsDb(), now, staleSeconds)|
    {
      count := |Claimables(AsDb(), now, staleSeconds)|;
      OrdersAreTotal();
      RowCount(AsDb(), now, staleSeconds);
      ListingSize(ClaimOrder(AsDb(), now, staleSeconds), ClaimableRows(AsDb(), now, staleSeconds), ClaimLe);
    }

    /** A count followed by a claim at the same moment: it is zero exactly when a claim with a positive limit comes back empty. */
    method CountThenClaim(limit: int, now: Instant, staleSeconds: int) returns (count: nat, out: seq<Task>)
      requires Keyed(AsDb())
      modifies this
      ensures |out| == if limit <= 0 then 0 else Min(limit, count)
      ensures limit > 0 ==> (count == 0 <==> out == [])
    {
      count := ClaimablePrefetchTaskCount(now, staleSeconds);
      out := ClaimPrefetchTasks(limit, now, staleSeconds);
    }

    method CompletePrefetchTask(token: Token, now: Instant)
      modifies this
      ensures AsDb() == Complete(old(AsDb()), token, now)
    {
      if Current(AsDb(), token) {
        tasks := tasks[token.id := tasks[token.id].(status := Done, updatedAt := now, lastError := None, nextAttemptAt := None)];
      }
    }

    method FailPrefetchTask(token: Token, error: ErrorClass, now: Instant, retryAfterSeconds: int)
      modifies this
      ensures AsDb() == Abandon(old(AsDb()), token, Failed, error, now, retryAfterSeconds)
    {
      var next: Option<Instant> := None;
      if retryAfterSeconds > 0 { next := Some(now + retryAfterSeconds as real); }
      if Current(AsDb(), token) {
        tasks := tasks[token.id := tasks[token.id].(status := Failed, updatedAt := now, lastError := Some(error), nextAttemptAt := next)];
      }
    }

    method SkipPrefetchTask(token: Token, error: ErrorClass, now: Instant, retryAfterSeconds: int)
      modifies this
      ensures AsDb() == Abandon(old(AsDb()), token, Skipped, error, now, retryAfterSeconds)
    {
      var next: Option<Instant> := None;
      if retryAfterSeconds > 0 { next := Some(now + retryAfterSeconds as real); }
      if Current(AsDb(), token) {
        tasks := tasks[token.id := tasks[token.id].(status := Skipped, updatedAt := now, lastError := Some(error), nextAttemptAt := next)];
      }
    }

    method RequeuePrefetchTask(token: Token, error: Option<ErrorClass>, now: Instant)
      modifies this
      ensures AsDb() == Requeue(old(AsDb()), token, error, now)
    {
      if Current(AsDb(), token) {
        tasks := tasks[token.id := tasks[token.id].(status := Queued, updatedAt := now, lastError := error, nextAttemptAt := None)];
      }
    }

    method FindMiddleBlocks(key: Key, r: ByteRange) returns (records: seq<Block>)
      ensures Lists(records, OverlappingRows(AsDb(), key, r), BlockStartLe)
    {
      OrdersAreTotal();
      records := OrderBy(OverlappingRows(AsDb(), key, r), BlockStartLe);
    }

    method TouchMiddleBlock(id: BlockId, now: Instant, ttlSeconds: int)
      modifies this
      ensures AsDb() == TouchBlock(old(AsDb()), id, now, ttlSeconds)
    {
      if id in blocks {
        blocks := blocks[id := blocks[id].(lastAccessAt := now, expiresAt := now + ttlSeconds as real)];
      }
    }

    method ExpiredMiddleBlocks(now: Instant) returns (records: seq<Block>)
      ensures Lists(records, set b | b in blocks && blocks[b].expiresAt <= now :: blocks[b], ExpiryLe)
    {
      OrdersAreTotal();
      records := OrderBy(set b | b in blocks && blocks[b].expiresAt <= now :: blocks[b], ExpiryLe);
    }

    method LeastRecentMiddleBlocks() returns (records: seq<Block>)
      requires Keyed(AsDb())
      ensures records == LruOrder(blocks)
    {
      OrdersAreTotal();
      records := OrderBy(BlockRows(blocks), LruLe);
      ListingUnique(records, LruOrder(blocks), BlockRows(blocks), LruLe);
    }

    method DeleteMiddleBlockRecord(id: BlockId)
      modifies this
      ensures AsDb() == DeleteBlock(old(AsDb()), id)
    {
      blocks := blocks - {id};
    }

    method MiddleCacheBytes() returns (total: int)
      ensures total == SumSizes(blocks)
    {
      total := 0;
      var rest := blocks;
      while rest != map[]
        invariant total + SumSizes(rest) == SumSizes(blocks)
        decreases |rest|
      {
        var b :| b in rest;
        SumRemove(rest, b);
        total := total + rest[b].size;
        rest := rest - {b};
      }
    }

    /** The SELECT that opens the publish transaction. */
    method BeginPublish(token: Token) returns (current: bool)
      ensures current <==> Current(AsDb(), token)
    {
      current := Current(AsDb(), token);
    }

    /** The upsert, the fenced UPDATE and the COMMIT of the publish transaction: both rows change, or a roll-back undoes what was written. */
    method CommitPublish(token: Token, b: Block, now: Instant, fault: TxFault) returns (result: TxResult)
      modifies this
      ensures AsDb() == if result.TxCommitted? then PublishBlock(old(AsDb()), token, b, now) else old(AsDb())
      ensures result.TxCommitted? <==> fault.TxRuns? && old(Current(AsDb(), token))
      ensures result.TxRaised? ==> !fault.TxRuns?
      ensures result.TxRefused? ==> !old(Current(AsDb(), token))
    {
      var undoTasks, undoBlocks := tasks, blocks;
      if fault.UpsertFails? { return TxRaised; }
      blocks := blocks[b.id := b];
      if fault.UpdateFails? {
        tasks, blocks := undoTasks, undoBlocks;
        return TxRaised;
      }
      if !Current(AsDb(), token) {
        tasks, blocks := undoTasks, undoBlocks;
        return TxRefused;
      }
      tasks := tasks[token.id := tasks[token.id].(status := Done, updatedAt := now, lastError := None, nextAttemptAt := None)];
      if fault.CommitFails? {
        tasks, blocks := undoTasks, undoBlocks;
        return TxRaised;
      }
      return TxCommitted;
    }

    method UpdateSessionQueuedUntil(session: string, queuedUntil: int)
      modifies this
      ensures AsDb() == AdvanceFrontier(old(AsDb()), session, queuedUntil)
    {
      if session in sessions && !sessions[session].status.Expired? {
        var s := sessions[session];
        if s.queuedUntil.None? || s.queuedUntil.value < queuedUntil {
          sessions := sessions[session := s.(queuedUntil := Some(queuedUntil))];
        } else {
          sessions := sessions[session := s];
        }
      }
    }
  }
}
