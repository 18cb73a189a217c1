/**
 * The prefetch task protocol as a transition system: one atomic event per SQL statement or
 * transaction, over every interleaving of planner, workers, eviction and restarts.
 */
module Protocol {
  import opened Intervals
  import opened Tables
  import opened Subtraction

  /**
   * The database, the planner's gaps still to be inserted, and two logs: the tokens handed out
   * and the tasks whose block was published.
   */
  datatype State = State(
    db: Db,
    gapKey: Key,
    gaps: seq<ByteRange>,
    nextGap: nat,
    issued: seq<Token>,
    published: seq<nat>)

  /** How a worker gives a task back without a block. */
  datatype Outcome =
    | TooLarge
    | SourceUnavailable
    | OriginFailure
    | SourceMismatch
    | StoreFailure
    | Cancelled

  datatype Event =
    | ReadGaps(key: Key, range: ByteRange, existing: seq<ByteRange>)
    | EnqueueGap(itemId: string, mediaSourceId: string, priority: int, now: Instant, maxDepth: int)
    | Claim(id: nat, now: Instant, staleSeconds: int)
    | Finish(token: Token, outcome: Outcome, now: Instant, backoffSeconds: int)
    | Publish(token: Token, now: Instant, ttlSeconds: int)
    | Touch(block: BlockId, now: Instant, ttlSeconds: int)
    | Remove(block: BlockId)
    | Restart

  const INITIAL := State(EMPTY, 0, [], 0, [], [])

  /** existing is a listing that ReusablePrefetchRanges may return for r. */
  predicate IsReusableListing(existing: seq<ByteRange>, db: Db, key: Key, r: ByteRange) {
    && SortedByStart(existing)
    && (forall i :: 0 <= i < |existing| ==> existing[i] in ReusableRows(db, key, r))
    && (forall x :: x in ReusableRows(db, key, r) ==> x in existing)
  }

  /** The finaliser call runTask makes for each way of giving up; only two of them have no retry time. */
  function Finished(db: Db, token: Token, outcome: Outcome, now: Instant, backoffSeconds: int): Db {
    match outcome
    case TooLarge => Abandon(db, token, Skipped, RangeTooLarge, now, 0)
    case SourceUnavailable => Abandon(db, token, Skipped, Transient("SourceUnavailable"), now, backoffSeconds)
    case OriginFailure => Abandon(db, token, Failed, Transient("OriginError"), now, backoffSeconds)
    case SourceMismatch => Abandon(db, token, Failed, PrefetchSourceMismatch, now, 0)
    case StoreFailure => Abandon(db, token, Failed, Transient("StoreError"), now, backoffSeconds)
    case Cancelled => Requeue(db, token, Some(Transient("CancelledError")), now)
  }

  function BlockOf(t: Task): BlockId { BlockId(t.key, t.range.start, t.range.end) }

  /** Events that cannot happen in the given state. */
  predicate Enabled(s: State, e: Event) {
    match e
    case ReadGaps(key, r, existing) => IsReusableListing(existing, s.db, key, r)
    case EnqueueGap(_, _, _, _, _) => s.nextGap < |s.gaps|
    case Finish(token, _, _, backoff) => token in s.issued && backoff > 0
    case Publish(token, _, _) => token in s.issued
    case _ => true
  }

  function Apply(s: State, e: Event): State {
    if !Enabled(s, e) then s else
      match e
      case ReadGaps(key, r, existing) => s.(gapKey := key, gaps := Missing(r, existing), nextGap := 0)
      case EnqueueGap(itemId, mediaSourceId, priority, now, maxDepth) =>
        s.(db := Enqueue(s.db, itemId, mediaSourceId, s.gapKey, s.gaps[s.nextGap], priority, now, maxDepth), nextGap := s.nextGap + 1)
      case Claim(id, now, stale) =>
        if id in s.db.tasks && Claimable(s.db.tasks[id], now, stale) then
          s.(db := ClaimRow(s.db, id, now, stale), issued := s.issued + [Token(id, s.db.tasks[id].attempts + 1)])
        else s
      case Finish(token, outcome, now, backoff) => s.(db := Finished(s.db, token, outcome, now, backoff))
      case Publish(token, now, ttl) =>
        if Current(s.db, token) then
          s.(db := PublishBlock(s.db, token, NewBlock(BlockOf(s.db.tasks[token.id]), now, ttl), now),
             published := s.published + [token.id])
        else s
      case Touch(block, now, ttl) => s.(db := TouchBlock(s.db, block, now, ttl))
      case Remove(block) => s.(db := DeleteBlock(s.db, block))
      case Restart => s.(db := Backfill(s.db), gaps := [], nextGap := 0)
  }

  function Run(s: State, events: seq<Event>): State
    decreases |events|
  {
    if events == [] then s else Run(Apply(s, events[0]), events[1..])
  }

  /** Whoever is responsible for a range of bytes: a live task, a cached block or a gap about to be inserted. */
  datatype Owner = OfTask(id: nat) | OfBlock(block: BlockId) | OfGap(i: nat)

  predicate Owns(s: State, o: Owner) {
    match o
    case OfTask(id) => id in s.db.tasks && Live(s.db.tasks[id])
    case OfBlock(b) => b in s.db.blocks
    case OfGap(i) => s.nextGap <= i < |s.gaps|
  }

  function KeyOf(s: State, o: Owner): Key
    requires Owns(s, o)
  {
    match o
    case OfTask(id) => s.db.tasks[id].key
    case OfBlock(b) => b.key
    case OfGap(_) => s.gapKey
  }

  function RangeOf(s: State, o: Owner): ByteRange
    requires Owns(s, o)
  {
    match o
    case OfTask(id) => s.db.tasks[id].range
    case OfBlock(b) => b.Range()
    case OfGap(i) => s.gaps[i]
  }

  /** Single ownership: no byte of a key has two owners. */
  ghost predicate SingleOwner(s: State) {
    forall o, p :: Owns(s, o) && Owns(s, p) && o != p && KeyOf(s, o) == KeyOf(s, p)
      ==> Disjoint(RangeOf(s, o), RangeOf(s, p))
  }

  predicate TaskOk(t: Task) {
    && NonEmpty(t.range)
    && (t.status.Queued? || t.status.Running? || t.status.Done? ==> t.nextAttemptAt.None?)
    && (t.status.Failed? || t.status.Skipped? ==> t.nextAttemptAt.Some? || PermanentlyFailed(t))
    && (PermanentlyFailed(t) ==> t.lastError.value.RangeTooLarge? || t.lastError.value.PrefetchSourceMismatch?)
  }

  /** What no statement changes in a task row. */
  predicate SameIdentity(a: Task, b: Task) { a.id == b.id && a.key == b.key && a.range == b.range }

  predicate RowsOk(s: State) {
    && (forall id :: id in s.db.tasks ==> s.db.tasks[id].id == id < s.db.nextId && TaskOk(s.db.tasks[id]))
    && (forall i, j :: i in s.db.tasks && j in s.db.tasks && i != j && s.db.tasks[i].key == s.db.tasks[j].key
          ==> s.db.tasks[i].range != s.db.tasks[j].range)
    && (forall b :: b in s.db.blocks ==> s.db.blocks[b].id == b && b.start <= b.end && s.db.blocks[b].size == b.Range().Length())
    && (forall i :: 0 <= i < |s.gaps| ==> NonEmpty(s.gaps[i]))
  }

  /** The logs agree with the rows: tokens never exceed the row's attempts, published tasks are done. */
  predicate LogsOk(s: State) {
    && (forall i :: 0 <= i < |s.issued| ==> s.issued[i].id in s.db.tasks && 1 <= s.issued[i].attempts <= s.db.tasks[s.issued[i].id].attempts)
    && (forall i, j :: 0 <= i < j < |s.issued| ==> s.issued[i] != s.issued[j])
    && (forall i :: 0 <= i < |s.published| ==> s.published[i] in s.db.tasks && s.db.tasks[s.published[i]].status.Done?)
    && (forall i, j :: 0 <= i < j < |s.published| ==> s.published[i] != s.published[j])
  }

  ghost predicate Inv(s: State) { RowsOk(s) && SingleOwner(s) && LogsOk(s) }

  // ---- the invariant holds along every run

  lemma ReadGapsKeepsInv(s: State, e: Event)
    requires Inv(s) && e.ReadGaps? && Enabled(s, e)
    ensures Inv(Apply(s, e))
  {
    var t := Apply(s, e);
    assert AllNonEmpty(e.existing);
    MissingIsDifference(e.range, e.existing);
    forall o, p | Owns(t, o) && Owns(t, p) && o != p && KeyOf(t, o) == KeyOf(t, p)
      ensures Disjoint(RangeOf(t, o), RangeOf(t, p))
    {
      if !o.OfGap? && !p.OfGap? {
        assert Owns(s, o) && Owns(s, p);
      } else if o.OfGap? && !p.OfGap? {
        GapAvoidsRow(s, e, t.gaps, o.i, p);
      } else if p.OfGap? && !o.OfGap? {
        GapAvoidsRow(s, e, t.gaps, p.i, o);
      }
    }
  }

  lemma GapAvoidsRow(s: State, e: Event, gaps: seq<ByteRange>, i: nat, o: Owner)
    requires RowsOk(s) && e.ReadGaps? && Enabled(s, e) && i < |gaps|
    requires IsDifference(gaps, e.range, e.existing)
    requires !o.OfGap? && Owns(s, o) && KeyOf(s, o) == e.key
    ensures Disjoint(gaps[i], RangeOf(s, o))
  {
    var gap, row := gaps[i], RangeOf(s, o);
    forall x | gap.Holds(x)
      ensures e.range.Holds(x) && !InSome(e.existing, x)
    {
      assert InSome(gaps, x);
    }
    if row in ReusableRows(s.db, e.key, e.range) {
      var j :| 0 <= j < |e.existing| && e.existing[j] == row;
      assert forall x :: e.existing[j].Holds(x) ==> InSome(e.existing, x);
    }
    var x := Max(gap.start, row.start);
    assert !(gap.Holds(x) && row.Holds(x));
    assert gap.Holds(gap.start) && gap.Holds(gap.end);
  }

  /** The owner that held the range of q before gap i became task id. */
  function BeforeInsert(q: Owner, id: nat, i: nat): Owner { if q == OfTask(id) then OfGap(i) else q }

  lemma EnqueueKeepsInv(s: State, e: Event)
    requires Inv(s) && e.EnqueueGap? && Enabled(s, e)
    ensures Inv(Apply(s, e))
  {
    if CanEnqueue(s.db, s.gapKey, s.gaps[s.nextGap], e.maxDepth) {
      var task := NewTask(s.db.nextId, e.itemId, e.mediaSourceId, s.gapKey, s.gaps[s.nextGap], e.priority, e.now);
      InsertKeepsInv(s, task);
      assert Apply(s, e) == Inserted(s, task);
    } else {
      var t := Apply(s, e);
      forall o, p | Owns(t, o) && Owns(t, p) && o != p && KeyOf(t, o) == KeyOf(t, p)
        ensures Disjoint(RangeOf(t, o), RangeOf(t, p))
      {
        assert Owns(s, o) && Owns(s, p);
      }
    }
  }

  function Inserted(s: State, task: Task): State {
    s.(db := s.db.(tasks := s.db.tasks[s.db.nextId := task], nextId := s.db.nextId + 1), nextGap := s.nextGap + 1)
  }

  lemma InsertKeepsInv(s: State, task: Task)
    requires Inv(s) && s.nextGap < |s.gaps| && !HasRow(s.db, s.gapKey, s.gaps[s.nextGap])
    requires task.id == s.db.nextId && task.key == s.gapKey && task.range == s.gaps[s.nextGap] && TaskOk(task) && Live(task)
    ensures Inv(Inserted(s, task))
  {
    var t, id := Inserted(s, task), s.db.nextId;
    assert id !in s.db.tasks;
    forall o, p | Owns(t, o) && Owns(t, p) && o != p && KeyOf(t, o) == KeyOf(t, p)
      ensures Disjoint(RangeOf(t, o), RangeOf(t, p))
    {
      var o', p' := BeforeInsert(o, id, s.nextGap), BeforeInsert(p, id, s.nextGap);
      assert Owns(s, o') && Owns(s, p');
      assert Disjoint(RangeOf(s, o'), RangeOf(s, p'));
    }
  }

  /** An event that only rewrites one existing row and does not bring it to life keeps the invariant. */
  lemma RewriteKeepsInv(s: State, t: State, id: nat)
    requires Inv(s) && id in s.db.tasks
    requires id in t.db.tasks && t == s.(db := SetTask(s.db, id, t.db.tasks[id]), issued := t.issued)
    requires SameIdentity(t.db.tasks[id], s.db.tasks[id]) && TaskOk(t.db.tasks[id])
    requires Live(t.db.tasks[id]) ==> Live(s.db.tasks[id])
    requires !s.db.tasks[id].status.Done?
    requires t.db.tasks[id].attempts >= s.db.tasks[id].attempts
    requires t.issued == s.issued
          || (t.issued == s.issued + [Token(id, s.db.tasks[id].attempts + 1)] && t.db.tasks[id].attempts == s.db.tasks[id].attempts + 1)
    ensures Inv(t)
  {
    RewriteKeepsOwners(s, t, id);
    assert RowsOk(t);
  }

  lemma RewriteKeepsOwners(s: State, t: State, id: nat)
    requires SingleOwner(s) && id in s.db.tasks && id in t.db.tasks
    requires t == s.(db := SetTask(s.db, id, t.db.tasks[id]), issued := t.issued)
    requires SameIdentity(t.db.tasks[id], s.db.tasks[id]) && (Live(t.db.tasks[id]) ==> Live(s.db.tasks[id]))
    ensures SingleOwner(t)
  {
    forall o, p | Owns(t, o) && Owns(t, p) && o != p && KeyOf(t, o) == KeyOf(t, p)
      ensures Disjoint(RangeOf(t, o), RangeOf(t, p))
    {
      assert Owns(s, o) && Owns(s, p);
      assert Disjoint(RangeOf(s, o), RangeOf(s, p));
    }
  }

  lemma FinishKeepsInv(s: State, e: Event)
    requires Inv(s) && e.Finish? && Enabled(s, e)
    ensures Inv(Apply(s, e))
  {
    if Current(s.db, e.token) {
      FinishedRow(s.db, e.token, e.outcome, e.now, e.backoffSeconds);
      RewriteKeepsInv(s, Apply(s, e), e.token.id);
    } else {
      assert Apply(s, e) == s;
    }
  }

  /** A finaliser with the current token rewrites one row, and leaves it waiting for a retry or permanently failed. */
  lemma FinishedRow(db: Db, token: Token, outcome: Outcome, now: Instant, backoffSeconds: int)
    requires Current(db, token) && TaskOk(db.tasks[token.id]) && backoffSeconds > 0
    ensures token.id in Finished(db, token, outcome, now, backoffSeconds).tasks
    ensures var t, t' := db.tasks[token.id], Finished(db, token, outcome, now, backoffSeconds).tasks[token.id];
      && Finished(db, token, outcome, now, backoffSeconds) == SetTask(db, token.id, t')
      && SameIdentity(t', t) && t'.attempts == t.attempts && TaskOk(t')
  {
  }

  lemma ClaimKeepsInv(s: State, e: Event)
    requires Inv(s) && e.Claim?
    ensures Inv(Apply(s, e))
  {
    var t := Apply(s, e);
    if t != s { RewriteKeepsInv(s, t, e.id); }
  }

  /** The published block takes over the range of its task: the upsert inserts, it never updates. */
  lemma PublishNeverConflicts(s: State, token: Token)
    requires Inv(s) && Current(s.db, token)
    ensures BlockOf(s.db.tasks[token.id]) !in s.db.blocks
  {
    var task := s.db.tasks[token.id];
    var holder, block := OfTask(token.id), OfBlock(BlockOf(task));
    assert Owns(s, holder) && RangeOf(s, holder) == task.range;
    assert !Owns(s, block);
  }

  lemma PublishKeepsInv(s: State, e: Event)
    requires Inv(s) && e.Publish? && Enabled(s, e)
    ensures Inv(Apply(s, e))
  {
    if Current(s.db, e.token) {
      PublishKeepsOwners(s, e);
      PublishKeepsRows(s, e);
      PublishKeepsLogs(s, e);
    }
  }

  lemma PublishKeepsRows(s: State, e: Event)
    requires RowsOk(s) && e.Publish? && Enabled(s, e) && Current(s.db, e.token)
    ensures RowsOk(Apply(s, e))
  {
  }

  lemma PublishKeepsLogs(s: State, e: Event)
    requires LogsOk(s) && e.Publish? && Enabled(s, e) && Current(s.db, e.token)
    ensures LogsOk(Apply(s, e))
  {
  }

  lemma PublishKeepsOwners(s: State, e: Event)
    requires Inv(s) && e.Publish? && Enabled(s, e) && Current(s.db, e.token)
    ensures SingleOwner(Apply(s, e))
  {
    var t := Apply(s, e);
    var b := BlockOf(s.db.tasks[e.token.id]);
    PublishNeverConflicts(s, e.token);
    forall o, p | Owns(t, o) && Owns(t, p) && o != p && KeyOf(t, o) == KeyOf(t, p)
      ensures Disjoint(RangeOf(t, o), RangeOf(t, p))
    {
      var o', p' := BeforePublish(o, b, e.token.id), BeforePublish(p, b, e.token.id);
      assert Owns(s, o') && Owns(s, p');
      assert Disjoint(RangeOf(s, o'), RangeOf(s, p'));
    }
  }

  /** The owner that held the range of q before task id became block b. */
  function BeforePublish(q: Owner, b: BlockId, id: nat): Owner { if q == OfBlock(b) then OfTask(id) else q }

  lemma ShrinkKeepsInv(s: State, e: Event)
    requires Inv(s) && (e.Touch? || e.Remove?)
    ensures Inv(Apply(s, e))
  {
    var t := Apply(s, e);
    forall o, p | Owns(t, o) && Owns(t, p) && o != p && KeyOf(t, o) == KeyOf(t, p)
      ensures Disjoint(RangeOf(t, o), RangeOf(t, p))
    {
      assert Owns(s, o) && Owns(s, p);
      assert Disjoint(RangeOf(s, o), RangeOf(s, p));
    }
  }

  /** On every reachable database the start-up backfill finds nothing to revive. */
  lemma BackfillChangesNothing(s: State)
    requires RowsOk(s)
    ensures Backfill(s.db) == s.db
  {
    assert forall id :: id in s.db.tasks ==> Backfilled(s.db.tasks[id]) == s.db.tasks[id];
    assert Backfill(s.db).tasks == s.db.tasks;
  }

  lemma RestartKeepsInv(s: State)
    requires Inv(s)
    ensures Inv(Apply(s, Restart))
  {
    BackfillChangesNothing(s);
    var t := Apply(s, Restart);
    forall o, p | Owns(t, o) && Owns(t, p) && o != p && KeyOf(t, o) == KeyOf(t, p)
      ensures Disjoint(RangeOf(t, o), RangeOf(t, p))
    {
      assert Owns(s, o) && Owns(s, p);
    }
  }

  lemma StepKeepsInv(s: State, e: Event)
    requires Inv(s)
    ensures Inv(Apply(s, e))
  {
    if Enabled(s, e) {
      match e
      case ReadGaps(_, _, _) => ReadGapsKeepsInv(s, e);
      case EnqueueGap(_, _, _, _, _) => EnqueueKeepsInv(s, e);
      case Claim(_, _, _) => ClaimKeepsInv(s, e);
      case Finish(_, _, _, _) => FinishKeepsInv(s, e);
      case Publish(_, _, _) => PublishKeepsInv(s, e);
      case Touch(_, _, _) => ShrinkKeepsInv(s, e);
      case Remove(_) => ShrinkKeepsInv(s, e);
      case Restart => RestartKeepsInv(s);
    }
  }

  lemma {:induction false} RunKeepsInv(s: State, events: seq<Event>)
    requires Inv(s)
    ensures Inv(Run(s, events))
    decreases |events|
  {
    if events != [] {
      StepKeepsInv(s, events[0]);
      RunKeepsInv(Apply(s, events[0]), events[1..]);
    }
  }

  lemma {:induction false} RunConcat(s: State, a: seq<Event>, b: seq<Event>)
    ensures Run(s, a + b) == Run(Run(s, a), b)
    decreases |a|
  {
    if a == [] {
      assert a + b == b;
    } else {
      assert (a + b)[1..] == a[1..] + b;
      RunConcat(Apply(s, a[0]), a[1..], b);
    }
  }

  lemma RunOne(s: State, e: Event)
    ensures Run(s, [e]) == Apply(s, e)
  {
    assert Run(Apply(s, e), [e][1..]) == Apply(s, e);
  }
}
