/** runTask: one claimed task from the origin into the cache, or back to the queue. */
module PrefetchWorker {
  import opened RangeText
  import opened OriginBody
  import opened Tables
  import opened Protocol
  import opened Retries
  import opened Lru
  import opened MiddleBlocks

  /** What the world answers while the task runs; keyMatches compares the key of the fresh metadata with the task's. */
  datatype Surroundings = Surroundings(sourceKnown: bool, headWorks: bool, keyMatches: bool, size: int, response: OriginResponse)

  datatype TaskResult = GaveUp(outcome: Outcome) | Raced | Completed

  function Unexpired(blocks: map<BlockId, Block>, now: Instant): map<BlockId, Block> {
    map b | b in blocks && now < blocks[b].expiresAt :: blocks[b]
  }

  /**
   * Every way out of runTask is one event of the task protocol: a finaliser with the worker's own token, or a
   * publish of exactly the task's range followed by evictions, or nothing when the token is no longer current.
   */
  method RunTask(cache: MiddleCache, task: Task, world: Surroundings, now: Instant, backoffSeconds: int, bufferSize: nat)
    returns (result: TaskResult)
    requires cache.Ok() && bufferSize > 0
    requires world.keyMatches ==>
      Honest(world.response, cache.disk.origins(task.key)) && |cache.disk.origins(task.key)| == world.size <= MAX_INT64
    modifies cache.store, cache.disk
    ensures cache.Ok()
    ensures IsTaskResult(result, cache.store.AsDb(), old(cache.store.AsDb()), task, now, backoffSeconds, cache.ttlSeconds, cache.maxBytes)
    ensures result == GaveUp(TooLarge) <==> task.range.Length() > cache.maxBytes
    ensures result == GaveUp(SourceUnavailable) <==> task.range.Length() <= cache.maxBytes && !world.sourceKnown
    ensures result == GaveUp(SourceMismatch) <==>
      task.range.Length() <= cache.maxBytes && world.sourceKnown && world.headWorks && !world.keyMatches
    ensures result == GaveUp(OriginFailure) <==>
      && task.range.Length() <= cache.maxBytes && world.sourceKnown
      && (!world.headWorks || (world.keyMatches && Opened(world.response, task.range, world.size).None?))
    ensures result != GaveUp(Cancelled)
    ensures result.GaveUp? && old(Current(cache.store.AsDb(), Token(task.id, task.attempts))) && backoffSeconds > 0 ==>
      task.id in cache.store.tasks && GivenBack(cache.store.tasks[task.id], result.outcome, now, backoffSeconds)
    ensures (&& cache.disk.reliable && task.range.Length() <= cache.maxBytes && world.sourceKnown && world.headWorks && world.keyMatches
             && Answers(world.response, task.range, world.size))
      ==> (result == Completed <==> old(Current(cache.store.AsDb(), Token(task.id, task.attempts))))
  {
    var token := Token(task.id, task.attempts);
    GivesBack(cache.store.AsDb(), token, now, backoffSeconds);
    if task.range.Length() > cache.maxBytes {
      cache.store.SkipPrefetchTask(token, RangeTooLarge, now, 0);
      return GaveUp(TooLarge);
    }
    if !world.sourceKnown {
      cache.store.SkipPrefetchTask(token, Transient("SourceUnavailable"), now, backoffSeconds);
      return GaveUp(SourceUnavailable);
    }
    if !world.headWorks {
      cache.store.FailPrefetchTask(token, Transient("OriginError"), now, backoffSeconds);
      return GaveUp(OriginFailure);
    }
    if !world.keyMatches {
      cache.store.FailPrefetchTask(token, PrefetchSourceMismatch, now, 0);
      return GaveUp(SourceMismatch);
    }
    result := FetchTask(cache, task, world, now, backoffSeconds, bufferSize);
  }

  lemma GivesBack(db: Db, token: Token, now: Instant, backoffSeconds: int)
    ensures Current(db, token) && backoffSeconds > 0 ==> forall outcome ::
      var next := Finished(db, token, outcome, now, backoffSeconds);
      token.id in next.tasks && GivenBack(next.tasks[token.id], outcome, now, backoffSeconds)
  {
    if Current(db, token) && backoffSeconds > 0 {
      forall outcome
        ensures var next := Finished(db, token, outcome, now, backoffSeconds);
          token.id in next.tasks && GivenBack(next.tasks[token.id], outcome, now, backoffSeconds)
      {
        FinishGivesBack(db, token, outcome, now, backoffSeconds);
      }
    }
  }

  /**
   * The database after runTask: a finaliser with the task's own token, a publish of exactly the task's range
   * followed by evictions, or nothing when the token is no longer current.
   */
  ghost predicate IsTaskResult(result: TaskResult, db: Db, before: Db, task: Task, now: Instant, backoffSeconds: int,
                               ttlSeconds: int, maxBytes: int) {
    var token := Token(task.id, task.attempts);
    match result
    case GaveUp(outcome) => db == Finished(before, token, outcome, now, backoffSeconds)
    case Raced => db == before && !Current(before, token)
    case Completed => Current(before, token) && IsPublishedAndEvicted(db, before, token, BlockOf(task), now, ttlSeconds, maxBytes)
  }

  /** The part of runTask that has a matching source. */
  method FetchTask(cache: MiddleCache, task: Task, world: Surroundings, now: Instant, backoffSeconds: int, bufferSize: nat)
    returns (result: TaskResult)
    requires cache.Ok() && bufferSize > 0
    requires Honest(world.response, cache.disk.origins(task.key)) && |cache.disk.origins(task.key)| == world.size <= MAX_INT64
    modifies cache.store, cache.disk
    ensures cache.Ok()
    ensures IsTaskResult(result, cache.store.AsDb(), old(cache.store.AsDb()), task, now, backoffSeconds, cache.ttlSeconds, cache.maxBytes)
    ensures result.GaveUp? ==> result.outcome == OriginFailure || result.outcome == StoreFailure
    ensures result == GaveUp(OriginFailure) <==> Opened(world.response, task.range, world.size).None?
    ensures cache.disk.reliable && Answers(world.response, task.range, world.size) ==>
      (result == Completed <==> old(Current(cache.store.AsDb(), Token(task.id, task.attempts))))
  {
    var token := Token(task.id, task.attempts);
    var step := FetchAndStore(cache, token, task, world, bufferSize, now);
    match step
    case NotOpened =>
      cache.store.FailPrefetchTask(token, Transient("OriginError"), now, backoffSeconds);
      return GaveUp(OriginFailure);
    case NotStored =>
      cache.store.FailPrefetchTask(token, Transient("StoreError"), now, backoffSeconds);
      return GaveUp(StoreFailure);
    case NoLongerCurrent => return Raced;
    case Stored => return Completed;
  }

  datatype FetchStep = NotOpened | NotStored | NoLongerCurrent | Stored

  /** Open the range, store the block, and evict. */
  method FetchAndStore(cache: MiddleCache, token: Token, task: Task, world: Surroundings, bufferSize: nat, now: Instant)
    returns (step: FetchStep)
    requires cache.Ok() && bufferSize > 0
    requires Honest(world.response, cache.disk.origins(task.key)) && |cache.disk.origins(task.key)| == world.size <= MAX_INT64
    modifies cache.store, cache.disk
    ensures cache.Ok()
    ensures step == Stored ==> old(Current(cache.store.AsDb(), token))
    ensures step == Stored ==>
      IsPublishedAndEvicted(cache.store.AsDb(), old(cache.store.AsDb()), token, BlockOf(task), now, cache.ttlSeconds, cache.maxBytes)
    ensures step != Stored ==> cache.store.AsDb() == old(cache.store.AsDb())
    ensures step == NoLongerCurrent ==> !old(Current(cache.store.AsDb(), token))
    ensures step == NotOpened <==> Opened(world.response, task.range, world.size).None?
    ensures cache.disk.reliable && Answers(world.response, task.range, world.size) ==>
      (step == Stored <==> old(Current(cache.store.AsDb(), token)))
  {
    var reader := OpenRange(world.response, task.range, world.size, cache.disk.origins(task.key));
    if reader.None? { return NotOpened; }
    var ok, failed := StoreAndEvict(cache, token, task, reader.value, bufferSize, now);
    if failed { return NotStored; }
    return if ok then Stored else NoLongerCurrent;
  }

  /** The database after a publish and the two evictions behind it. */
  ghost predicate IsPublishedAndEvicted(db: Db, before: Db, token: Token, id: BlockId, now: Instant, ttlSeconds: int,
                                        maxBytes: int) {
    var published := PublishBlock(before, token, NewBlock(id, now, ttlSeconds), now);
    && BlocksKeyed(Unexpired(published.blocks, now))
    && db == published.(blocks := Evicted(Unexpired(published.blocks, now), maxBytes))
  }

  /** The tail of runTask: store the block, then evict. */
  method StoreAndEvict(cache: MiddleCache, token: Token, task: Task, reader: Reader, bufferSize: nat, now: Instant)
    returns (ok: bool, failed: bool)
    requires cache.Ok() && bufferSize > 0 && Delivers(reader, cache.disk.origins(task.key), task.range)
    requires task.range.end < |cache.disk.origins(task.key)| <= MAX_INT64
    modifies cache.store, cache.disk, reader`remaining, reader.body
    ensures cache.Ok() && !(ok && failed)
    ensures ok ==> old(Current(cache.store.AsDb(), token))
    ensures ok ==>
      IsPublishedAndEvicted(cache.store.AsDb(), old(cache.store.AsDb()), token, BlockOf(task), now, cache.ttlSeconds, cache.maxBytes)
    ensures !ok ==> cache.store.AsDb() == old(cache.store.AsDb())
    ensures !ok && !failed ==> !old(Current(cache.store.AsDb(), token))
    ensures (&& cache.disk.reliable && 0 <= task.range.start <= task.range.end && !reader.body.breaks && !old(reader.Short())
             && old(|reader.Upcoming()|) == task.range.Length())
      ==> (ok <==> old(Current(cache.store.AsDb(), token)))
  {
    ghost var before := cache.store.AsDb();
    ok, failed := cache.StorePrefetchBlockFromReader(token, task.key, task.range, reader, bufferSize, now);
    if !ok { return; }
    ghost var published := PublishBlock(before, token, NewBlock(BlockOf(task), now, cache.ttlSeconds), now);
    var expired := cache.EvictExpired(now);
    assert cache.store.AsDb() == published.(blocks := Unexpired(published.blocks, now));
    var evicted := cache.EvictLruIfNeeded();
  }

  /** A block that passed the RangeTooLarge check and was used strictly last survives the evictions that follow its publication. */
  lemma JustPublishedSurvives(blocks: map<BlockId, Block>, id: BlockId, now: Instant, ttlSeconds: int, maxBytes: int)
    requires BlocksKeyed(blocks) && ttlSeconds > 0 && id.start <= id.end && id.Range().Length() <= maxBytes
    requires forall b :: b in blocks && b != id ==> blocks[b].lastAccessAt < now
    ensures var published := blocks[id := NewBlock(id, now, ttlSeconds)];
      && BlocksKeyed(Unexpired(published, now))
      && id in Evicted(Unexpired(published, now), maxBytes)
      && Evicted(Unexpired(published, now), maxBytes)[id] == NewBlock(id, now, ttlSeconds)
  {
    NewestSurvives(Unexpired(blocks[id := NewBlock(id, now, ttlSeconds)], now), id, maxBytes);
  }
}
