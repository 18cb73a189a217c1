/** The rows of the state database and one function for each SQL statement or transaction that changes them. */
module Tables {
  import opened Intervals

  /** A cache key: 64 lowercase hex digits, compared as the number they spell. */
  type Key = nat

  /** Unix time in seconds. */
  type Instant = real

  datatype Status = Queued | Running | Done | Failed | Skipped

  datatype ErrorClass = RangeTooLarge | PrefetchSourceMismatch | PermanentError | Transient(name: string)

  datatype Task = Task(
    id: nat,
    itemId: string,
    mediaSourceId: string,
    key: Key,
    range: ByteRange,
    priority: int,
    status: Status,
    attempts: nat,
    createdAt: Instant,
    updatedAt: Instant,
    lastError: Option<ErrorClass>,
    nextAttemptAt: Option<Instant>)

  datatype BlockId = BlockId(key: Key, start: int, end: int) {
    function Range(): ByteRange { ByteRange(start, end) }
  }

  /** A middle_blocks row; `path` names the block whose file it points at. */
  datatype Block = Block(
    id: BlockId,
    path: BlockId,
    size: int,
    createdAt: Instant,
    lastAccessAt: Instant,
    expiresAt: Instant)

  datatype SessionStatus = Active | Idle | Stopped | Expired

  datatype Session = Session(
    itemId: string,
    mediaSourceId: string,
    key: Key,
    mediaSize: int,
    lastRangeEnd: int,
    status: SessionStatus,
    queuedUntil: Option<int>)

  datatype Db = Db(
    tasks: map<nat, Task>,
    nextId: nat,
    blocks: map<BlockId, Block>,
    sessions: map<string, Session>)

  const EMPTY := Db(map[], 1, map[], map[])

  predicate Permanent(e: ErrorClass) { !e.Transient? }

  predicate Retryable(t: Task) { (t.status.Failed? || t.status.Skipped?) && t.nextAttemptAt.Some? }

  /** The planner counts these as on their way into the cache. */
  predicate Live(t: Task) { t.status.Queued? || t.status.Running? || Retryable(t) }

  predicate PermanentlyFailed(t: Task) {
    (t.status.Failed? || t.status.Skipped?) && t.nextAttemptAt.None? && t.lastError.Some? && Permanent(t.lastError.value)
  }

  predicate Claimable(t: Task, now: Instant, staleSeconds: int) {
    || t.status.Queued?
    || (Retryable(t) && t.nextAttemptAt.value <= now)
    || (staleSeconds > 0 && t.status.Running? && t.updatedAt <= now - staleSeconds as real)
  }

  function Claimables(db: Db, now: Instant, staleSeconds: int): set<nat> {
    set id | id in db.tasks && Claimable(db.tasks[id], now, staleSeconds)
  }

  function QueuedIds(db: Db): set<nat> {
    set id | id in db.tasks && db.tasks[id].status.Queued?
  }

  predicate HasRow(db: Db, key: Key, r: ByteRange) {
    exists id :: id in db.tasks && db.tasks[id].key == key && db.tasks[id].range == r
  }

  predicate HasLiveRow(db: Db, key: Key, r: ByteRange) {
    exists id :: id in db.tasks && db.tasks[id].key == key && db.tasks[id].range == r && Live(db.tasks[id])
  }

  function NewTask(id: nat, itemId: string, mediaSourceId: string, key: Key, r: ByteRange, priority: int, now: Instant): Task {
    Task(id, itemId, mediaSourceId, key, r, priority, Queued, 0, now, now, None, None)
  }

  /** EnqueuePrefetchTask goes through: the queue has room and UNIQUE(cache_key, start, end) holds. */
  predicate CanEnqueue(db: Db, key: Key, r: ByteRange, maxDepth: int) {
    |QueuedIds(db)| < maxDepth && !HasRow(db, key, r)
  }

  function Enqueue(db: Db, itemId: string, mediaSourceId: string, key: Key, r: ByteRange, priority: int,
                   now: Instant, maxDepth: int): Db {
    if CanEnqueue(db, key, r, maxDepth) then
      db.(tasks := db.tasks[db.nextId := NewTask(db.nextId, itemId, mediaSourceId, key, r, priority, now)],
          nextId := db.nextId + 1)
    else db
  }

  function Claimed(t: Task, now: Instant): Task {
    t.(status := Running, attempts := t.attempts + 1, updatedAt := now, nextAttemptAt := None)
  }

  /** The guarded UPDATE of one row in ClaimPrefetchTasks. */
  function ClaimRow(db: Db, id: nat, now: Instant, staleSeconds: int): Db {
    if id in db.tasks && Claimable(db.tasks[id], now, staleSeconds)
    then db.(tasks := db.tasks[id := Claimed(db.tasks[id], now)])
    else db
  }

  /** What a claim hands to a worker: the row and the attempt it may finish. */
  datatype Token = Token(id: nat, attempts: nat)

  /** The fence of every finaliser: WHERE id = ? AND status = 'running' AND attempts = ?. */
  predicate Current(db: Db, t: Token) {
    t.id in db.tasks && db.tasks[t.id].status.Running? && db.tasks[t.id].attempts == t.attempts
  }

  function SetTask(db: Db, id: nat, t: Task): Db { db.(tasks := db.tasks[id := t]) }

  function Complete(db: Db, token: Token, now: Instant): Db {
    if !Current(db, token) then db else
      SetTask(db, token.id, db.tasks[token.id].(status := Done, updatedAt := now, lastError := None, nextAttemptAt := None))
  }

  function RetryAt(now: Instant, retryAfterSeconds: int): Option<Instant> {
    if retryAfterSeconds > 0 then Some(now + retryAfterSeconds as real) else None
  }

  /** FailPrefetchTask and SkipPrefetchTask, which differ in the status they write. */
  function Abandon(db: Db, token: Token, status: Status, error: ErrorClass, now: Instant, retryAfterSeconds: int): Db {
    if !Current(db, token) then db else
      SetTask(db, token.id, db.tasks[token.id].(status := status, updatedAt := now, lastError := Some(error),
                                                nextAttemptAt := RetryAt(now, retryAfterSeconds)))
  }

  function Requeue(db: Db, token: Token, error: Option<ErrorClass>, now: Instant): Db {
    if !Current(db, token) then db else
      SetTask(db, token.id, db.tasks[token.id].(status := Queued, updatedAt := now, lastError := error, nextAttemptAt := None))
  }

  function NewBlock(id: BlockId, now: Instant, ttlSeconds: int): Block {
    Block(id, id, id.Range().Length(), now, now, now + ttlSeconds as real)
  }

  function UpsertBlock(db: Db, b: Block): Db { db.(blocks := db.blocks[b.id := b]) }

  /** PublishMiddleBlockAndCompletePrefetchTask, committed. */
  function PublishBlock(db: Db, token: Token, b: Block, now: Instant): Db {
    if !Current(db, token) then db else Complete(UpsertBlock(db, b), token, now)
  }

  function TouchBlock(db: Db, id: BlockId, now: Instant, ttlSeconds: int): Db {
    if id !in db.blocks then db else
      db.(blocks := db.blocks[id := db.blocks[id].(lastAccessAt := now, expiresAt := now + ttlSeconds as real)])
  }

  function DeleteBlock(db: Db, id: BlockId): Db { db.(blocks := db.blocks - {id}) }

  /** The start-up backfill of initSchema. */
  predicate NeedsBackfill(t: Task) {
    && (t.status.Failed? || t.status.Skipped?)
    && t.nextAttemptAt.None?
    && (t.lastError.None? || !Permanent(t.lastError.value))
  }

  function Backfilled(t: Task): Task {
    if NeedsBackfill(t) then t.(nextAttemptAt := Some(t.updatedAt)) else t
  }

  function Backfill(db: Db): Db {
    db.(tasks := map id | id in db.tasks :: Backfilled(db.tasks[id]))
  }

  /** UpdateSessionQueuedUntil: the frontier only moves forward, and not on expired sessions. */
  function AdvanceFrontier(db: Db, session: string, queuedUntil: int): Db {
    if session !in db.sessions || db.sessions[session].status.Expired? then db else
      var s := db.sessions[session];
      var next := if s.queuedUntil.None? || s.queuedUntil.value < queuedUntil then queuedUntil else s.queuedUntil.value;
      db.(sessions := db.sessions[session := s.(queuedUntil := Some(next))])
  }

  /** The WHERE clauses of ReusablePrefetchRanges: cached or live ranges of the key that meet r. */
  function ReusableRows(db: Db, key: Key, r: ByteRange): set<ByteRange> {
    (set id | id in db.blocks && id.key == key && id.start <= r.end && id.end >= r.start :: id.Range()) +
    (set id | id in db.tasks && db.tasks[id].key == key && Live(db.tasks[id])
           && db.tasks[id].range.start <= r.end && db.tasks[id].range.end >= r.start :: db.tasks[id].range)
  }

  /** The byte is cached in a middle block or belongs to a task that is on its way. */
  ghost predicate Covered(db: Db, key: Key, x: int) {
    || (exists id :: id in db.blocks && id.key == key && id.Range().Holds(x))
    || (exists id :: id in db.tasks && db.tasks[id].key == key && Live(db.tasks[id]) && db.tasks[id].range.Holds(x))
  }
}
