/**
 * Claim, planner and worker calls among other actors: before each of a call's statements others may make any
 * statements of their own. A call still keeps its promises, and the two together are a run of the task protocol.
 */
module Interleaving {
  import opened Intervals
  import opened Ordering
  import opened OriginBody
  import opened RangeText
  import opened Tables
  import opened Subtraction
  import opened Planner
  import opened Protocol
  import opened Retries
  import opened Fencing
  import opened Accounting
  import opened StateStore
  import opened SessionPlanner
  import opened Frontiers
  import opened Lru
  import opened MiddleBlocks
  import opened PrefetchWorker
  import opened Refinement

  // ---- later states

  /** Some run leads from s to t. */
  ghost predicate Later(s: State, t: State) { exists events: seq<Event> :: t == Run(s, events) }

  lemma LaterSame(s: State)
    ensures Later(s, s)
  {
    assert Run(s, []) == s;
  }

  lemma LaterStep(s: State, t: State, e: Event)
    requires Later(s, t)
    ensures Later(s, Apply(t, e))
  {
    var events :| t == Run(s, events);
    RunOne(t, e);
    RunConcat(s, events, [e]);
  }

  lemma LaterTrans(s: State, t: State, u: State)
    requires Later(s, t) && Later(t, u)
    ensures Later(s, u)
  {
    var a :| t == Run(s, a);
    var b :| u == Run(t, b);
    RunConcat(s, a, b);
  }

  /** Logs only grow, and rows keep what they are about. */
  predicate Keeps(s: State, t: State) {
    && s.issued <= t.issued && s.published <= t.published
    && forall id :: id in s.db.tasks ==> id in t.db.tasks && SameIdentity(t.db.tasks[id], s.db.tasks[id])
  }

  lemma LogsGrow(s: State, e: Event)
    ensures s.issued <= Apply(s, e).issued && s.published <= Apply(s, e).published
  {
  }

  lemma StepKeeps(s: State, e: Event)
    requires Inv(s)
    ensures Keeps(s, Apply(s, e))
  {
    LogsGrow(s, e);
    forall id | id in s.db.tasks
      ensures id in Apply(s, e).db.tasks && SameIdentity(Apply(s, e).db.tasks[id], s.db.tasks[id])
    {
      StepKeepsRow(s, e, id);
    }
  }

  lemma {:induction false} RunKeeps(s: State, events: seq<Event>)
    requires Inv(s)
    ensures Keeps(s, Run(s, events))
    decreases |events|
  {
    if events != [] {
      StepKeepsInv(s, events[0]);
      StepKeeps(s, events[0]);
      RunKeeps(Apply(s, events[0]), events[1..]);
      KeepsTrans(s, Apply(s, events[0]), Run(s, events));
    }
  }

  lemma KeepsTrans(s: State, t: State, u: State)
    requires Keeps(s, t) && Keeps(t, u)
    ensures Keeps(s, u)
  {
  }

  /** What survives whatever others do: issued tokens, finished tasks, and the loss of a fence. */
  lemma LaterKeeps(s: State, t: State, token: Token)
    requires Inv(s) && Later(s, t)
    ensures Inv(t) && Keeps(s, t)
    ensures token in s.issued && !Current(s.db, token) ==> !Current(t.db, token)
  {
    var events :| t == Run(s, events);
    RunKeepsInv(s, events);
    RunKeeps(s, events);
    if token in s.issued && !Current(s.db, token) { StaleForever(s, events, token); }
  }

  lemma InvIsKeyed(s: State)
    requires Inv(s)
    ensures Keyed(s.db)
  {
  }

  // ---- whose statements

  datatype Logged = Logged(mine: bool, event: Event)

  function EventsOf(log: seq<Logged>): seq<Event> {
    if log == [] then [] else EventsOf(log[..|log| - 1]) + [log[|log| - 1].event]
  }

  /** The actor's own statements, in order. */
  function Mine(log: seq<Logged>): seq<Event> {
    if log == [] then []
    else Mine(log[..|log| - 1]) + if log[|log| - 1].mine then [log[|log| - 1].event] else []
  }

  lemma LogOne(log: seq<Logged>, entry: Logged)
    ensures EventsOf(log + [entry]) == EventsOf(log) + [entry.event]
    ensures Mine(log + [entry]) == Mine(log) + if entry.mine then [entry.event] else []
  {
    assert (log + [entry])[..|log|] == log;
  }

  /** Events that belong to the planner or to the start of the process it runs in. */
  predicate OfPlanner(e: Event) { e.ReadGaps? || e.EnqueueGap? || e.Restart? }

  predicate SamePlan(s: State, t: State) {
    s.gapKey == t.gapKey && s.gaps == t.gaps && s.nextGap == t.nextGap && s.db.nextId == t.db.nextId
  }

  lemma OthersKeepPlan(s: State, e: Event)
    requires !OfPlanner(e)
    ensures SamePlan(Apply(s, e), s)
  {
  }

  /** One actor's view of the database: its store, the protocol state it stands for, and how many statements others will still make. */
  class System {
    const store: Store
    ghost const start: State
    var state: State
    var budget: nat
    ghost var log: seq<Logged>

    constructor (store: Store, state: State, budget: nat)
      requires Inv(state) && store.AsDb() == state.db.(sessions := store.sessions)
      ensures this.store == store && this.state == state == this.start && this.budget == budget && log == []
      ensures Valid()
    {
      this.store, this.start, this.state, this.budget, this.log := store, state, state, budget, [];
      new;
      assert Run(state, []) == state;
    }

    /** The state is where the logged statements lead, and the store holds its rows. */
    ghost predicate Valid()
      reads this, store
    {
      && Inv(start) && state == Run(start, EventsOf(log))
      && store.AsDb() == state.db.(sessions := store.sessions)
    }

    lemma ValidIsInv()
      requires Valid()
      ensures Inv(state) && Keyed(store.AsDb())
    {
      RunKeepsInv(start, EventsOf(log));
      InvIsKeyed(state);
    }

    /** Any statements of others, in any number the budget allows; nobody else plans while a planner does. */
    method OthersAct(planning: bool)
      requires Valid()
      modifies this`state, this`budget, this`log, store`tasks, store`nextId, store`blocks
      ensures Valid() && Mine(log) == Mine(old(log))
      ensures Later(old(state), state)
      ensures budget <= old(budget) && (budget == old(budget) ==> state == old(state))
      ensures planning ==> SamePlan(state, old(state))
    {
      LaterSame(state);
      var more := *;
      while budget > 0 && more
        invariant Valid() && Mine(log) == Mine(old(log)) && Later(old(state), state)
        invariant budget <= old(budget) && (budget == old(budget) ==> state == old(state))
        invariant planning ==> SamePlan(state, old(state))
        decreases budget
      {
        var e: Event := *;
        if !(planning && OfPlanner(e)) {
          if planning { OthersKeepPlan(state, e); }
          LogOne(log, Logged(false, e));
          RunConcat(start, EventsOf(log), [e]);
          RunOne(state, e);
          LaterStep(old(state), state, e);
          state := Apply(state, e);
          store.tasks, store.nextId, store.blocks := state.db.tasks, state.db.nextId, state.db.blocks;
          log := log + [Logged(false, e)];
        }
        budget := budget - 1;
        more := *;
      }
    }

    /** The statement just made on the store was this actor's event e. */
    method Record(e: Event)
      requires Inv(start) && state == Run(start, EventsOf(log))
      requires store.AsDb() == Apply(state, e).db.(sessions := store.sessions)
      modifies this`state, this`log
      ensures Valid() && state == Apply(old(state), e) && Mine(log) == Mine(old(log)) + [e]
      ensures Later(old(state), state)
    {
      LogOne(log, Logged(true, e));
      RunConcat(start, EventsOf(log), [e]);
      RunOne(state, e);
      LaterSame(state);
      LaterStep(state, state, e);
      state := Apply(state, e);
      log := log + [Logged(true, e)];
    }
  }

  // ---- the claim

  /** The row's token has been handed out since the state before, and the row still stands for the same task. */
  predicate Handed(row: Task, before: State, s: State) {
    && Token(row.id, row.attempts) in s.issued && Token(row.id, row.attempts) !in before.issued
    && row.id in s.db.tasks && SameIdentity(s.db.tasks[row.id], row)
  }

  lemma HandedStays(row: Task, before: State, s: State, t: State)
    requires Inv(s) && Later(s, t) && Handed(row, before, s)
    ensures Handed(row, before, t)
  {
    LaterKeeps(s, t, Token(row.id, row.attempts));
  }

  lemma HandedEarlier(row: Task, before: State, s: State, t: State)
    requires Inv(before) && Later(before, s) && Handed(row, s, t)
    ensures Handed(row, before, t)
  {
    LaterKeeps(before, s, Token(row.id, row.attempts));
  }

  /** One candidate: the guarded UPDATE and re-read, when nobody has taken the task meanwhile. */
  method ClaimCandidate(sys: System, id: nat, now: Instant, staleSeconds: int) returns (row: Option<Task>)
    requires sys.Valid() && id in sys.state.db.tasks
    modifies sys, sys.store
    ensures sys.Valid() && Later(old(sys.state), sys.state)
    ensures row.None? ==> Mine(sys.log) == Mine(old(sys.log))
    ensures row.Some? ==> row.value.id == id && Handed(row.value, old(sys.state), sys.state)
    ensures row.Some? ==> Mine(sys.log) == Mine(old(sys.log)) + [Claim(id, now, staleSeconds)]
  {
    sys.ValidIsInv();
    sys.OthersAct(false);
    LaterKeeps(old(sys.state), sys.state, Token(id, 0));
    ghost var s := sys.state;
    row := sys.store.ClaimOne(id, now, staleSeconds);
    if row.None? { return; }
    sys.Record(Claim(id, now, staleSeconds));
    ClaimIsFresh(s, id, now, staleSeconds);
    LaterTrans(old(sys.state), s, sys.state);
    HandedEarlier(row.value, old(sys.state), s, sys.state);
  }

  lemma ClaimIsFresh(s: State, id: nat, now: Instant, staleSeconds: int)
    requires Inv(s) && id in s.db.tasks && Claimable(s.db.tasks[id], now, staleSeconds)
    ensures Handed(Claimed(s.db.tasks[id], now), s, Apply(s, Claim(id, now, staleSeconds)))
  {
  }

  /** The rows of a claim, each by one statement of the actor, with tokens handed out since the state before. */
  predicate ClaimLog(own: seq<Event>, out: seq<Task>, before: State, s: State, now: Instant, staleSeconds: int) {
    && |own| == |out|
    && (forall k :: 0 <= k < |out| ==> own[k] == Claim(out[k].id, now, staleSeconds) && Handed(out[k], before, s))
    && (forall k, l :: 0 <= k < l < |out| ==> out[k].id != out[l].id)
  }

  /**
   * ClaimPrefetchTasks: a candidate that others took meanwhile is passed over by the guard. Every row it returns comes
   * with a token nobody had before.
   */
  method ClaimPrefetchTasks(sys: System, limit: int, now: Instant, staleSeconds: int) returns (out: seq<Task>, ghost own: seq<Event>)
    requires sys.Valid()
    modifies sys, sys.store
    ensures sys.Valid() && Later(old(sys.state), sys.state) && Mine(sys.log) == Mine(old(sys.log)) + own
    ensures |out| <= Max(0, limit) && ClaimLog(own, out, old(sys.state), sys.state, now, staleSeconds)
  {
    out, own := [], [];
    LaterSame(sys.state);
    if limit <= 0 { return; }
    sys.ValidIsInv();
    sys.OthersAct(false);
    sys.ValidIsInv();
    OrdersAreTotal();
    var candidates := OrderBy(ClaimableRows(sys.store.AsDb(), now, staleSeconds), ClaimLe);
    CandidateIds(sys.store.AsDb(), candidates, now, staleSeconds);
    if limit < |candidates| { candidates := candidates[..limit]; }
    assert Pending(candidates, [], sys.state);
    ghost var s := sys.state;
    out, own := ClaimCandidates(sys, candidates, now, staleSeconds);
    LaterTrans(old(sys.state), s, sys.state);
    ClaimedEarlier(own, out, old(sys.state), s, sys.state, now, staleSeconds);
  }

  /** Candidates still to be tried: rows of the table, different from each other and from those already claimed. */
  predicate Pending(candidates: seq<Task>, out: seq<Task>, s: State) {
    && (forall k :: 0 <= k < |candidates| ==> candidates[k].id in s.db.tasks)
    && (forall k, l :: 0 <= k < l < |candidates| ==> candidates[k].id != candidates[l].id)
    && (forall k, l :: 0 <= k < |out| && 0 <= l < |candidates| ==> out[k].id != candidates[l].id)
  }

  lemma NextPending(candidates: seq<Task>, out: seq<Task>, s: State, t: State)
    requires candidates != [] && Pending(candidates, out, s) && forall id :: id in s.db.tasks ==> id in t.db.tasks
    ensures Pending(candidates[1..], out, t)
    ensures forall row: Task :: row.id == candidates[0].id ==> Pending(candidates[1..], out + [row], t)
  {
  }

  /** The loop of ClaimPrefetchTasks. */
  method ClaimCandidates(sys: System, candidates: seq<Task>, now: Instant, staleSeconds: int)
    returns (out: seq<Task>, ghost own: seq<Event>)
    requires sys.Valid() && Pending(candidates, [], sys.state)
    modifies sys, sys.store
    ensures sys.Valid() && Later(old(sys.state), sys.state) && Mine(sys.log) == Mine(old(sys.log)) + own
    ensures |out| <= |candidates| && ClaimLog(own, out, old(sys.state), sys.state, now, staleSeconds)
  {
    out, own := [], [];
    sys.ValidIsInv();
    LaterSame(sys.state);
    ghost var first := sys.state;
    for i := 0 to |candidates|
      invariant |out| <= i && sys.Valid() && Later(first, sys.state) && Mine(sys.log) == Mine(old(sys.log)) + own
      invariant Pending(candidates[i..], out, sys.state)
      invariant ClaimLog(own, out, first, sys.state, now, staleSeconds)
    {
      sys.ValidIsInv();
      ghost var s := sys.state;
      var row := ClaimCandidate(sys, candidates[i].id, now, staleSeconds);
      StepOn(first, s, sys.state, own, out, now, staleSeconds);
      NextPending(candidates[i..], out, s, sys.state);
      assert candidates[i..][1..] == candidates[i + 1..];
      if row.Some? {
        OneMoreClaimed(own, out, row.value, candidates[i..], first, s, sys.state, now, staleSeconds);
        ConsMine(Mine(old(sys.log)), own, Claim(row.value.id, now, staleSeconds));
        out, own := out + [row.value], own + [Claim(row.value.id, now, staleSeconds)];
      }
    }
  }

  lemma OneMoreClaimed(own: seq<Event>, out: seq<Task>, row: Task, candidates: seq<Task>, first: State, s: State, t: State,
                       now: Instant, staleSeconds: int)
    requires Inv(first) && Later(first, s) && ClaimLog(own, out, first, t, now, staleSeconds)
    requires candidates != [] && Pending(candidates, out, s) && row.id == candidates[0].id && Handed(row, s, t)
    ensures ClaimLog(own + [Claim(row.id, now, staleSeconds)], out + [row], first, t, now, staleSeconds)
  {
    HandedEarlier(row, first, s, t);
  }

  lemma ConsMine(before: seq<Event>, own: seq<Event>, e: Event)
    ensures before + own + [e] == before + (own + [e])
  {
  }

  lemma ClaimedEarlier(own: seq<Event>, out: seq<Task>, before: State, s: State, t: State, now: Instant, staleSeconds: int)
    requires Inv(before) && Later(before, s) && ClaimLog(own, out, s, t, now, staleSeconds)
    ensures ClaimLog(own, out, before, t, now, staleSeconds)
  {
    forall k | 0 <= k < |out|
      ensures Handed(out[k], before, t)
    {
      HandedEarlier(out[k], before, s, t);
    }
  }

  /** What holds so far still holds one candidate later. */
  lemma StepOn(first: State, s: State, t: State, own: seq<Event>, out: seq<Task>, now: Instant, staleSeconds: int)
    requires Inv(s) && Later(first, s) && Later(s, t) && ClaimLog(own, out, first, s, now, staleSeconds)
    ensures Later(first, t) && ClaimLog(own, out, first, t, now, staleSeconds)
    ensures forall id :: id in s.db.tasks ==> id in t.db.tasks
  {
    LaterTrans(first, s, t);
    LaterKeeps(s, t, Token(0, 0));
    forall k | 0 <= k < |out|
      ensures Handed(out[k], first, t)
    {
      HandedStays(out[k], first, s, t);
    }
  }

  lemma CandidateIds(db: Db, candidates: seq<Task>, now: Instant, staleSeconds: int)
    requires Keyed(db) && Lists(candidates, ClaimableRows(db, now, staleSeconds), ClaimLe)
    ensures forall k :: 0 <= k < |candidates| ==> candidates[k].id in db.tasks
    ensures forall k, l :: 0 <= k < l < |candidates| ==> candidates[k].id != candidates[l].id
  {
    forall k | 0 <= k < |candidates|
      ensures IsRow(candidates[k], db)
    {
      assert candidates[k] in ClaimableRows(db, now, staleSeconds);
    }
  }

  // ---- the worker

  /** The finaliser runTask calls for each way of giving up. */
  method Finalise(store: Store, token: Token, outcome: Protocol.Outcome, now: Instant, backoffSeconds: int)
    modifies store
    ensures store.AsDb() == Finished(old(store.AsDb()), token, outcome, now, backoffSeconds)
  {
    match outcome
    case TooLarge => store.SkipPrefetchTask(token, RangeTooLarge, now, 0);
    case SourceUnavailable => store.SkipPrefetchTask(token, Transient("SourceUnavailable"), now, backoffSeconds);
    case OriginFailure => store.FailPrefetchTask(token, Transient("OriginError"), now, backoffSeconds);
    case SourceMismatch => store.FailPrefetchTask(token, PrefetchSourceMismatch, now, 0);
    case StoreFailure => store.FailPrefetchTask(token, Transient("StoreError"), now, backoffSeconds);
    case Cancelled => store.RequeuePrefetchTask(token, Some(Transient("CancelledError")), now);
  }

  /** With the current token the row is no longer running afterwards, and without it nothing happened. */
  lemma FinishSpends(s: State, token: Token, outcome: Protocol.Outcome, now: Instant, backoffSeconds: int)
    requires token in s.issued && backoffSeconds > 0
    ensures Apply(s, Finish(token, outcome, now, backoffSeconds)).db == Finished(s.db, token, outcome, now, backoffSeconds)
    ensures !Current(Finished(s.db, token, outcome, now, backoffSeconds), token)
  {
  }

  lemma FinishedRows(db: Db, token: Token, outcome: Protocol.Outcome, now: Instant, backoffSeconds: int)
    ensures var next := Finished(db, token, outcome, now, backoffSeconds); next == db.(tasks := next.tasks)
  {
  }

  /**
   * A finaliser, when others may have finished or reclaimed the task before; either way the token is spent, and when
   * it was still held the row waits exactly for its back-off.
   */
  method GiveUp(sys: System, token: Token, outcome: Protocol.Outcome, now: Instant, backoffSeconds: int)
    returns (ghost own: seq<Event>, ghost held: bool)
    requires sys.Valid() && token in sys.state.issued && backoffSeconds > 0
    modifies sys, sys.store
    ensures sys.Valid() && Later(old(sys.state), sys.state) && !Current(sys.state.db, token)
    ensures own == [Finish(token, outcome, now, backoffSeconds)] && Mine(sys.log) == Mine(old(sys.log)) + own
    ensures held ==> old(Current(sys.state.db, token))
    ensures held ==> token.id in sys.state.db.tasks && GivenBack(sys.state.db.tasks[token.id], outcome, now, backoffSeconds)
    ensures sys.budget <= old(sys.budget) && (sys.budget == old(sys.budget) ==> held == old(Current(sys.state.db, token)))
  {
    sys.ValidIsInv();
    sys.OthersAct(false);
    LaterKeeps(old(sys.state), sys.state, token);
    ghost var s := sys.state;
    held := GiveUpNow(sys, token, outcome, now, backoffSeconds);
    own := [Finish(token, outcome, now, backoffSeconds)];
    LaterTrans(old(sys.state), s, sys.state);
  }

  /** The finaliser's own statement. */
  method GiveUpNow(sys: System, token: Token, outcome: Protocol.Outcome, now: Instant, backoffSeconds: int) returns (ghost held: bool)
    requires sys.Valid() && token in sys.state.issued && backoffSeconds > 0
    modifies sys, sys.store
    ensures sys.Valid() && Later(old(sys.state), sys.state) && !Current(sys.state.db, token)
    ensures Mine(sys.log) == Mine(old(sys.log)) + [Finish(token, outcome, now, backoffSeconds)]
    ensures held == old(Current(sys.state.db, token)) && sys.budget == old(sys.budget)
    ensures held ==> token.id in sys.state.db.tasks && GivenBack(sys.state.db.tasks[token.id], outcome, now, backoffSeconds)
  {
    ghost var s := sys.state;
    held := Current(s.db, token);
    if held { FinishGivesBack(s.db, token, outcome, now, backoffSeconds); }
    Finalise(sys.store, token, outcome, now, backoffSeconds);
    FinishSpends(s, token, outcome, now, backoffSeconds);
    FinishedRows(s.db, token, outcome, now, backoffSeconds);
    sys.Record(Finish(token, outcome, now, backoffSeconds));
  }

  /** RemoveBlock, of a record that may be out of date by now. */
  method RemoveRecord(sys: System, cache: MiddleCache, record: Block)
    requires sys.Valid() && cache.store == sys.store && cache.disk.Ok()
    modifies sys, sys.store, cache.disk
    ensures sys.Valid() && cache.disk.Ok() && Later(old(sys.state), sys.state)
    ensures Mine(sys.log) == Mine(old(sys.log)) + [Remove(record.id)]
    ensures sys.budget <= old(sys.budget)
    ensures sys.budget == old(sys.budget) ==> sys.state.db.blocks == old(sys.state.db.blocks) - {record.id}
  {
    sys.OthersAct(false);
    sys.ValidIsInv();
    ghost var s := sys.state;
    cache.RemoveBlock(record);
    sys.Record(Remove(record.id));
    LaterTrans(old(sys.state), s, sys.state);
  }

  predicate AllRemovals(events: seq<Event>) { forall e :: e in events ==> e.Remove? }

  /** EvictExpired over a list of expired rows that others may touch or remove meanwhile. */
  method EvictExpired(sys: System, cache: MiddleCache, now: Instant) returns (ghost own: seq<Event>)
    requires sys.Valid() && cache.store == sys.store && cache.disk.Ok()
    modifies sys, sys.store, cache.disk
    ensures sys.Valid() && cache.disk.Ok() && Later(old(sys.state), sys.state)
    ensures Mine(sys.log) == Mine(old(sys.log)) + own && AllRemovals(own)
  {
    own := [];
    sys.OthersAct(false);
    var records := sys.store.ExpiredMiddleBlocks(now);
    for i := 0 to |records|
      invariant sys.Valid() && cache.disk.Ok() && Later(old(sys.state), sys.state)
      invariant Mine(sys.log) == Mine(old(sys.log)) + own && AllRemovals(own)
    {
      ghost var s := sys.state;
      RemoveRecord(sys, cache, records[i]);
      LaterTrans(old(sys.state), s, sys.state);
      ConsMine(Mine(old(sys.log)), own, Remove(records[i].id));
      own := own + [Remove(records[i].id)];
    }
  }

  /** The second half of a round: the first row of the order goes, or there is none. */
  method EvictFirst(sys: System, cache: MiddleCache) returns (empty: bool, ghost own: seq<Event>)
    requires sys.Valid() && cache.store == sys.store && cache.disk.Ok()
    modifies sys, sys.store, cache.disk
    ensures sys.Valid() && cache.disk.Ok() && Later(old(sys.state), sys.state)
    ensures Mine(sys.log) == Mine(old(sys.log)) + own && AllRemovals(own)
    ensures empty ==> SumSizes(sys.store.blocks) == 0
    ensures sys.budget <= old(sys.budget)
    ensures sys.budget == old(sys.budget) ==>
      if empty then sys.state == old(sys.state) else |sys.state.db.blocks| < |old(sys.state.db.blocks)|
  {
    own := [];
    sys.OthersAct(false);
    ghost var s := sys.state;
    var record := LeastRecent(sys);
    if record.None? { return true, own; }
    RemoveRecord(sys, cache, record.value);
    LaterTrans(old(sys.state), s, sys.state);
    return false, [Remove(record.value.id)];
  }

  /** The first row of the order at this moment. */
  method LeastRecent(sys: System) returns (record: Option<Block>)
    requires sys.Valid()
    ensures record.None? ==> SumSizes(sys.store.blocks) == 0
    ensures record.Some? ==> |sys.store.blocks - {record.value.id}| < |sys.store.blocks|
  {
    sys.ValidIsInv();
    var records := sys.store.LeastRecentMiddleBlocks();
    FirstListed(sys.store.blocks, records);
    record := if |records| == 0 then None else Some(records[0]);
  }

  /** One round of EvictLRUIfNeeded; it ends the loop, or a row goes or others have acted. */
  method EvictRound(sys: System, cache: MiddleCache) returns (done: bool, ghost own: seq<Event>)
    requires sys.Valid() && cache.store == sys.store && cache.disk.Ok() && cache.maxBytes >= 0
    modifies sys, sys.store, cache.disk
    ensures sys.Valid() && cache.disk.Ok() && Later(old(sys.state), sys.state)
    ensures Mine(sys.log) == Mine(old(sys.log)) + own && AllRemovals(own)
    ensures done ==> SumSizes(sys.store.blocks) <= cache.maxBytes
    ensures sys.budget <= old(sys.budget)
    ensures sys.budget == old(sys.budget) ==>
      if done then sys.state == old(sys.state) else |sys.state.db.blocks| < |old(sys.state.db.blocks)|
  {
    own := [];
    sys.OthersAct(false);
    ghost var s := sys.state;
    var total := sys.store.MiddleCacheBytes();
    if total <= cache.maxBytes { return true, own; }
    done, own := EvictFirst(sys, cache);
    LaterTrans(old(sys.state), s, sys.state);
  }

  /** EvictLRUIfNeeded: others may publish and remove in between, and still the cache fits when the call returns. */
  method EvictLruIfNeeded(sys: System, cache: MiddleCache) returns (ghost own: seq<Event>)
    requires sys.Valid() && cache.store == sys.store && cache.disk.Ok() && cache.maxBytes >= 0
    modifies sys, sys.store, cache.disk
    ensures sys.Valid() && cache.disk.Ok() && Later(old(sys.state), sys.state)
    ensures Mine(sys.log) == Mine(old(sys.log)) + own && AllRemovals(own)
    ensures SumSizes(sys.store.blocks) <= cache.maxBytes
  {
    own := [];
    LaterSame(sys.state);
    var done := false;
    while !done
      invariant sys.Valid() && cache.disk.Ok() && Later(old(sys.state), sys.state)
      invariant Mine(sys.log) == Mine(old(sys.log)) + own && AllRemovals(own)
      invariant done ==> SumSizes(sys.store.blocks) <= cache.maxBytes
      decreases sys.budget, |sys.state.db.blocks|, !done
    {
      ghost var s, more := sys.state, [];
      done, more := EvictRound(sys, cache);
      LaterTrans(old(sys.state), s, sys.state);
      own := own + more;
    }
  }

  lemma FirstListed(blocks: map<BlockId, Block>, records: seq<Block>)
    requires BlocksKeyed(blocks) && records == LruOrder(blocks)
    ensures records == [] ==> SumSizes(blocks) == 0
    ensures records != [] ==> |blocks - {records[0].id}| < |blocks|
  {
    NonEmptyOrder(blocks);
    if blocks != map[] {
      FirstRow(blocks);
      OneRowLess(blocks, records[0].id);
    }
  }

  /** The statements of one runTask call: one finaliser, or one publish and then removals, or none. */
  predicate IsWorkerLog(own: seq<Event>, result: TaskResult, token: Token, now: Instant, backoffSeconds: int, ttlSeconds: int) {
    match result
    case GaveUp(outcome) => own == [Finish(token, outcome, now, backoffSeconds)]
    case Raced => own == []
    case Completed => own != [] && own[0] == Event.Publish(token, now, ttlSeconds) && AllRemovals(own[1..])
  }

  /** The task given up on is back where its outcome leaves it. */
  ghost predicate WasGivenBack(db: Db, id: nat, result: TaskResult, now: Instant, backoffSeconds: int) {
    result.GaveUp? && id in db.tasks && GivenBack(db.tasks[id], result.outcome, now, backoffSeconds)
  }

  /**
   * runTask: whatever others do before and between its statements, its own are those of one worker log, its token is
   * spent when it returns, and a completed task is done, published once, and leaves a cache that fits.
   */
  method RunTask(sys: System, cache: MiddleCache, task: Task, world: Surroundings, now: Instant, backoffSeconds: int, bufferSize: nat)
    returns (result: TaskResult, ghost own: seq<Event>, ghost held: bool)
    requires sys.Valid() && cache.store == sys.store && cache.disk.Ok() && bufferSize > 0 && backoffSeconds > 0 && cache.maxBytes >= 0
    requires Token(task.id, task.attempts) in sys.state.issued
    requires task.id in sys.state.db.tasks && SameIdentity(sys.state.db.tasks[task.id], task)
    requires world.keyMatches ==>
      Honest(world.response, cache.disk.origins(task.key)) && |cache.disk.origins(task.key)| == world.size <= MAX_INT64
    modifies sys, sys.store, cache.disk
    ensures sys.Valid() && cache.disk.Ok() && Later(old(sys.state), sys.state)
    ensures Mine(sys.log) == Mine(old(sys.log)) + own
    ensures IsWorkerLog(own, result, Token(task.id, task.attempts), now, backoffSeconds, cache.ttlSeconds)
    ensures !Current(sys.state.db, Token(task.id, task.attempts))
    ensures result == Completed ==>
      PublishedDone(sys.state, task.id) && SumSizes(sys.store.blocks) <= cache.maxBytes
    ensures held ==> WasGivenBack(sys.state.db, task.id, result, now, backoffSeconds)
    ensures sys.budget == old(sys.budget) && result.GaveUp? ==> held == old(Current(sys.state.db, Token(task.id, task.attempts)))
    ensures result == GaveUp(TooLarge) <==> task.range.Length() > cache.maxBytes
    ensures result == GaveUp(SourceUnavailable) <==> task.range.Length() <= cache.maxBytes && !world.sourceKnown
    ensures result == GaveUp(SourceMismatch) <==>
      task.range.Length() <= cache.maxBytes && world.sourceKnown && world.headWorks && !world.keyMatches
    ensures result == GaveUp(OriginFailure) <==>
      && task.range.Length() <= cache.maxBytes && world.sourceKnown
      && (!world.headWorks || (world.keyMatches && Opened(world.response, task.range, world.size).None?))
  {
    var token := Token(task.id, task.attempts);
    if task.range.Length() > cache.maxBytes {
      own, held := GiveUp(sys, token, TooLarge, now, backoffSeconds);
      return GaveUp(TooLarge), own, held;
    }
    if !world.sourceKnown {
      own, held := GiveUp(sys, token, SourceUnavailable, now, backoffSeconds);
      return GaveUp(SourceUnavailable), own, held;
    }
    if !world.headWorks {
      own, held := GiveUp(sys, token, OriginFailure, now, backoffSeconds);
      return GaveUp(OriginFailure), own, held;
    }
    if !world.keyMatches {
      own, held := GiveUp(sys, token, SourceMismatch, now, backoffSeconds);
      return GaveUp(SourceMismatch), own, held;
    }
    result, own, held := FetchTask(sys, cache, token, task, world, now, backoffSeconds, bufferSize);
  }

  /** The part of runTask that has a matching source. */
  method FetchTask(sys: System, cache: MiddleCache, token: Token, task: Task, world: Surroundings, now: Instant,
                   backoffSeconds: int, bufferSize: nat)
    returns (result: TaskResult, ghost own: seq<Event>, ghost held: bool)
    requires sys.Valid() && cache.store == sys.store && cache.disk.Ok() && bufferSize > 0 && backoffSeconds > 0 && cache.maxBytes >= 0
    requires token == Token(task.id, task.attempts) && token in sys.state.issued
    requires task.id in sys.state.db.tasks && SameIdentity(sys.state.db.tasks[task.id], task)
    requires Honest(world.response, cache.disk.origins(task.key)) && |cache.disk.origins(task.key)| == world.size <= MAX_INT64
    modifies sys, sys.store, cache.disk
    ensures sys.Valid() && cache.disk.Ok() && Later(old(sys.state), sys.state)
    ensures Mine(sys.log) == Mine(old(sys.log)) + own
    ensures IsWorkerLog(own, result, token, now, backoffSeconds, cache.ttlSeconds)
    ensures !Current(sys.state.db, token)
    ensures result == Completed ==> PublishedDone(sys.state, task.id) && SumSizes(sys.store.blocks) <= cache.maxBytes
    ensures held ==> WasGivenBack(sys.state.db, task.id, result, now, backoffSeconds)
    ensures sys.budget == old(sys.budget) && result.GaveUp? ==> held == old(Current(sys.state.db, token))
    ensures result.GaveUp? ==> result.outcome == OriginFailure || result.outcome == StoreFailure
    ensures result == GaveUp(OriginFailure) <==> Opened(world.response, task.range, world.size).None?
  {
    var reader := OpenRange(world.response, task.range, world.size, cache.disk.origins(task.key));
    if reader.None? {
      own, held := GiveUp(sys, token, OriginFailure, now, backoffSeconds);
      return GaveUp(OriginFailure), own, held;
    }
    result, own, held := StoreOrGiveUp(sys, cache, token, task, reader.value, now, backoffSeconds, bufferSize);
  }

  /** The part of runTask that has an opened body. */
  method StoreOrGiveUp(sys: System, cache: MiddleCache, token: Token, task: Task, reader: Reader, now: Instant,
                       backoffSeconds: int, bufferSize: nat)
    returns (result: TaskResult, ghost own: seq<Event>, ghost held: bool)
    requires sys.Valid() && cache.store == sys.store && cache.disk.Ok() && bufferSize > 0 && backoffSeconds > 0 && cache.maxBytes >= 0
    requires token == Token(task.id, task.attempts) && token in sys.state.issued
    requires task.id in sys.state.db.tasks && SameIdentity(sys.state.db.tasks[task.id], task)
    requires Delivers(reader, cache.disk.origins(task.key), task.range) && task.range.end < |cache.disk.origins(task.key)| <= MAX_INT64
    modifies sys, sys.store, cache.disk, reader`remaining, reader.body
    ensures sys.Valid() && cache.disk.Ok() && Later(old(sys.state), sys.state)
    ensures Mine(sys.log) == Mine(old(sys.log)) + own
    ensures IsWorkerLog(own, result, token, now, backoffSeconds, cache.ttlSeconds)
    ensures !Current(sys.state.db, token)
    ensures result == Completed ==> PublishedDone(sys.state, task.id) && SumSizes(sys.store.blocks) <= cache.maxBytes
    ensures held ==> WasGivenBack(sys.state.db, task.id, result, now, backoffSeconds)
    ensures sys.budget == old(sys.budget) && result.GaveUp? ==> held == old(Current(sys.state.db, token))
    ensures result.GaveUp? ==> result.outcome == StoreFailure
  {
    var step: FetchStep;
    step, own := StoreAndEvict(sys, cache, token, task, reader, bufferSize, now);
    if step == NotStored {
      ghost var s := sys.state;
      own, held := GiveUp(sys, token, StoreFailure, now, backoffSeconds);
      LaterTrans(old(sys.state), s, sys.state);
      return GaveUp(StoreFailure), own, held;
    }
    result, held := if step == Stored then Completed else Raced, false;
  }

  /** The tail of runTask: store the block, then evict. */
  method StoreAndEvict(sys: System, cache: MiddleCache, token: Token, task: Task, reader: Reader, bufferSize: nat, now: Instant)
    returns (step: FetchStep, ghost own: seq<Event>)
    requires sys.Valid() && cache.store == sys.store && cache.disk.Ok() && bufferSize > 0 && cache.maxBytes >= 0
    requires token == Token(task.id, task.attempts) && token in sys.state.issued
    requires task.id in sys.state.db.tasks && SameIdentity(sys.state.db.tasks[task.id], task)
    requires Delivers(reader, cache.disk.origins(task.key), task.range) && task.range.end < |cache.disk.origins(task.key)| <= MAX_INT64
    modifies sys, sys.store, cache.disk, reader`remaining, reader.body
    ensures sys.Valid() && cache.disk.Ok() && Later(old(sys.state), sys.state) && token in sys.state.issued
    ensures step != NotOpened && (step != NotStored ==> !Current(sys.state.db, token))
    ensures step == NotStored ==> sys.budget <= old(sys.budget) && (sys.budget == old(sys.budget) ==> sys.state == old(sys.state))
    ensures Mine(sys.log) == Mine(old(sys.log)) + own
    ensures if step == Stored then own != [] && own[0] == Event.Publish(token, now, cache.ttlSeconds) && AllRemovals(own[1..]) else own == []
    ensures step == Stored ==> PublishedDone(sys.state, task.id) && SumSizes(sys.store.blocks) <= cache.maxBytes
  {
    var ok, failed := PublishTask(sys, cache, token, task, reader, bufferSize, now);
    own := [];
    if failed { return NotStored, own; }
    if !ok { return NoLongerCurrent, own; }
    ghost var s := sys.state;
    ghost var removals := EvictAfter(sys, cache, token, now);
    LaterTrans(old(sys.state), s, sys.state);
    own := [Event.Publish(token, now, cache.ttlSeconds)] + removals;
    return Stored, own;
  }

  /** The store step of runTask: the block and the finished task in one transaction, or no row at all. */
  method PublishTask(sys: System, cache: MiddleCache, token: Token, task: Task, reader: Reader, bufferSize: nat, now: Instant)
    returns (ok: bool, failed: bool)
    requires sys.Valid() && cache.store == sys.store && cache.disk.Ok() && bufferSize > 0
    requires token == Token(task.id, task.attempts) && token in sys.state.issued
    requires task.id in sys.state.db.tasks && SameIdentity(sys.state.db.tasks[task.id], task)
    requires Delivers(reader, cache.disk.origins(task.key), task.range) && task.range.end < |cache.disk.origins(task.key)| <= MAX_INT64
    modifies sys, sys.store, cache.disk, reader`remaining, reader.body
    ensures sys.Valid() && cache.disk.Ok() && Later(old(sys.state), sys.state) && !(ok && failed)
    ensures token in sys.state.issued
    ensures !failed ==> !Current(sys.state.db, token)
    ensures Mine(sys.log) == Mine(old(sys.log)) + if ok then [Event.Publish(token, now, cache.ttlSeconds)] else []
    ensures ok ==> PublishedDone(sys.state, task.id)
    ensures sys.budget <= old(sys.budget)
    ensures failed && sys.budget == old(sys.budget) ==> sys.state == old(sys.state)
  {
    sys.ValidIsInv();
    sys.OthersAct(false);
    sys.ValidIsInv();
    LaterKeeps(old(sys.state), sys.state, token);
    ghost var s := sys.state;
    ok, failed := PublishNow(sys, cache, token, task, reader, bufferSize, now);
    LaterTrans(old(sys.state), s, sys.state);
  }

  /** The transaction itself. */
  method PublishNow(sys: System, cache: MiddleCache, token: Token, task: Task, reader: Reader, bufferSize: nat, now: Instant)
    returns (ok: bool, failed: bool)
    requires sys.Valid() && cache.Ok() && cache.store == sys.store && bufferSize > 0
    requires token == Token(task.id, task.attempts) && token in sys.state.issued
    requires task.id in sys.state.db.tasks && SameIdentity(sys.state.db.tasks[task.id], task)
    requires Delivers(reader, cache.disk.origins(task.key), task.range) && task.range.end < |cache.disk.origins(task.key)| <= MAX_INT64
    modifies sys, sys.store, cache.disk, reader`remaining, reader.body
    ensures sys.Valid() && cache.disk.Ok() && Later(old(sys.state), sys.state) && !(ok && failed)
    ensures token in sys.state.issued && (!failed ==> !Current(sys.state.db, token))
    ensures Mine(sys.log) == Mine(old(sys.log)) + if ok then [Event.Publish(token, now, cache.ttlSeconds)] else []
    ensures ok ==> PublishedDone(sys.state, task.id)
    ensures sys.budget == old(sys.budget) && (!ok ==> sys.state == old(sys.state))
  {
    ghost var s := sys.state;
    LaterSame(s);
    ok, failed := cache.StorePrefetchBlockFromReader(token, task.key, task.range, reader, bufferSize, now);
    if ok {
      PublishIsEvent(s, task, now, cache.ttlSeconds);
      sys.Record(Event.Publish(token, now, cache.ttlSeconds));
    }
  }

  lemma PublishIsEvent(s: State, task: Task, now: Instant, ttlSeconds: int)
    requires var token := Token(task.id, task.attempts); token in s.issued && Current(s.db, token)
    requires SameIdentity(s.db.tasks[task.id], task)
    ensures var token := Token(task.id, task.attempts);
      var t := Apply(s, Event.Publish(token, now, ttlSeconds));
      && t.db == PublishBlock(s.db, token, NewBlock(BlockOf(task), now, ttlSeconds), now) && t.issued == s.issued
      && !Current(t.db, token) && PublishedDone(t, task.id)
  {
  }

  predicate PublishedDone(s: State, id: nat) { id in s.published && id in s.db.tasks && s.db.tasks[id].status.Done? }

  lemma DoneStays(s: State, t: State, id: nat)
    requires Inv(s) && Later(s, t) && PublishedDone(s, id)
    ensures PublishedDone(t, id)
  {
    var events :| t == Run(s, events);
    EndStatesAbsorb(s, events, id);
    RunKeeps(s, events);
  }

  /** The two evictions behind a publication. */
  method EvictAfter(sys: System, cache: MiddleCache, token: Token, now: Instant) returns (ghost own: seq<Event>)
    requires sys.Valid() && cache.store == sys.store && cache.disk.Ok() && cache.maxBytes >= 0
    requires token in sys.state.issued && !Current(sys.state.db, token) && PublishedDone(sys.state, token.id)
    modifies sys, sys.store, cache.disk
    ensures sys.Valid() && cache.disk.Ok() && Later(old(sys.state), sys.state)
    ensures Mine(sys.log) == Mine(old(sys.log)) + own && AllRemovals(own)
    ensures token in sys.state.issued && !Current(sys.state.db, token) && PublishedDone(sys.state, token.id)
    ensures SumSizes(sys.store.blocks) <= cache.maxBytes
  {
    sys.ValidIsInv();
    var expired := EvictExpired(sys, cache, now);
    ghost var s := sys.state;
    var lru := EvictLruIfNeeded(sys, cache);
    own := expired + lru;
    LaterTrans(old(sys.state), s, sys.state);
    LaterKeeps(old(sys.state), sys.state, token);
    DoneStays(old(sys.state), sys.state, token.id);
  }

  // ---- the planner

  /** Queueing and reading look at the tasks and blocks only. */
  lemma SessionsDoNotMatter(db: Db, other: Db, q: Request, r: ByteRange)
    requires other == db.(sessions := other.sessions)
    ensures CanEnqueue(db, q.session.key, r, q.maxDepth) == CanEnqueue(other, q.session.key, r, q.maxDepth)
    ensures ReusableRows(db, q.session.key, r) == ReusableRows(other, q.session.key, r)
  {
    assert QueuedIds(db) == QueuedIds(other);
    assert HasRow(db, q.session.key, r) == HasRow(other, q.session.key, r);
  }

  predicate AllPlanning(events: seq<Event>) { forall e :: e in events ==> e.ReadGaps? || e.EnqueueGap? }

  /** The planner has these gaps still to queue. */
  predicate Planning(s: State, q: Request, gaps: seq<ByteRange>) {
    s.gapKey == q.session.key && s.nextGap <= |s.gaps| && s.gaps[s.nextGap..] == gaps
  }

  /** One gap: insert it, or see whether it has a live row. */
  method QueueGap(sys: System, q: Request, gap: ByteRange, ghost rest: seq<ByteRange>) returns (added: bool, live: bool)
    requires sys.Valid() && Planning(sys.state, q, [gap] + rest)
    modifies sys, sys.store
    ensures sys.Valid() && Later(old(sys.state), sys.state) && Planning(sys.state, q, rest)
    ensures Mine(sys.log) == Mine(old(sys.log)) + [GapEvent(q)]
    ensures sys.state.db.nextId == old(sys.state.db.nextId) + if added then 1 else 0
    ensures sys.store.sessions == old(sys.store.sessions)
  {
    sys.OthersAct(true);
    ghost var s := sys.state;
    assert s.gaps[s.nextGap] == gap && s.gaps[s.nextGap + 1..] == rest by {
      assert s.gaps[s.nextGap..][0] == gap && s.gaps[s.nextGap..][1..] == rest;
    }
    SessionsDoNotMatter(s.db, sys.store.AsDb(), q, gap);
    var task := sys.store.EnqueuePrefetchTask(q.session.itemId, q.session.mediaSourceId, q.session.key, gap, q.priority, q.now, q.maxDepth);
    sys.Record(GapEvent(q));
    LaterTrans(old(sys.state), s, sys.state);
    added, live := task.Some?, true;
    if !added {
      s := sys.state;
      sys.OthersAct(true);
      LaterTrans(old(sys.state), s, sys.state);
      live := sys.store.PrefetchTaskExists(q.session.key, gap);
    }
  }

  lemma OneMorePlanned(before: seq<Event>, own: seq<Event>, e: Event)
    requires AllPlanning(own) && e.EnqueueGap?
    ensures before + own + [e] == before + (own + [e]) && AllPlanning(own + [e])
  {
  }

  lemma FirstGap(gaps: seq<ByteRange>, i: nat)
    requires i < |gaps|
    ensures gaps[i..] == [gaps[i]] + gaps[i + 1..]
  {
  }

  /** The loop over the gaps of one planned range. */
  method QueueGaps(sys: System, q: Request, gaps: seq<ByteRange>, frontier: Option<int>)
    returns (inserted: nat, highest: Option<int>, stopped: bool, ghost own: seq<Event>)
    requires sys.Valid() && Planning(sys.state, q, gaps)
    modifies sys, sys.store
    ensures sys.Valid() && Later(old(sys.state), sys.state)
    ensures Mine(sys.log) == Mine(old(sys.log)) + own && AllPlanning(own)
    ensures sys.state.db.nextId == old(sys.state.db.nextId) + inserted
    ensures sys.store.sessions == old(sys.store.sessions)
  {
    inserted, highest, stopped, own := 0, frontier, false, [];
    LaterSame(sys.state);
    var i := 0;
    while i < |gaps| && !stopped
      invariant 0 <= i <= |gaps| && sys.Valid() && Later(old(sys.state), sys.state)
      invariant !stopped ==> Planning(sys.state, q, gaps[i..])
      invariant Mine(sys.log) == Mine(old(sys.log)) + own && AllPlanning(own)
      invariant sys.state.db.nextId == old(sys.state.db.nextId) + inserted
      invariant sys.store.sessions == old(sys.store.sessions)
    {
      ghost var s := sys.state;
      FirstGap(gaps, i);
      var added, live := QueueGap(sys, q, gaps[i], gaps[i + 1..]);
      LaterTrans(old(sys.state), s, sys.state);
      OneMorePlanned(Mine(old(sys.log)), own, GapEvent(q));
      own := own + [GapEvent(q)];
      if added { inserted := inserted + 1; }
      if live { highest := Some(gaps[i].end); } else { stopped := true; }
      i := i + 1;
    }
  }

  /** What a planned range lacks, as read at one moment. */
  method ReadMissing(sys: System, q: Request, r: ByteRange) returns (missing: seq<ByteRange>, ghost own: seq<Event>)
    requires sys.Valid()
    modifies sys, sys.store
    ensures sys.Valid() && Later(old(sys.state), sys.state) && Planning(sys.state, q, missing)
    ensures Mine(sys.log) == Mine(old(sys.log)) + own && AllPlanning(own)
    ensures sys.state.db.nextId == old(sys.state.db.nextId)
    ensures sys.store.sessions == old(sys.store.sessions)
  {
    sys.OthersAct(true);
    sys.ValidIsInv();
    ghost var s := sys.state;
    var existing := sys.store.ReusablePrefetchRanges(q.session.key, r);
    SessionsDoNotMatter(s.db, sys.store.AsDb(), q, r);
    assert AllNonEmpty(existing);
    missing := SubtractRanges(r, existing);
    sys.Record(ReadGaps(q.session.key, r, existing));
    LaterTrans(old(sys.state), s, sys.state);
    own := [ReadGaps(q.session.key, r, existing)];
    assert sys.state.gaps[0..] == missing;
  }

  /** One planned range: read what is there, and queue what is missing. */
  method QueueRange(sys: System, q: Request, r: ByteRange, frontier: Option<int>)
    returns (inserted: nat, highest: Option<int>, stopped: bool, ghost own: seq<Event>)
    requires sys.Valid()
    modifies sys, sys.store
    ensures sys.Valid() && Later(old(sys.state), sys.state)
    ensures Mine(sys.log) == Mine(old(sys.log)) + own && AllPlanning(own)
    ensures sys.state.db.nextId == old(sys.state.db.nextId) + inserted
    ensures sys.store.sessions == old(sys.store.sessions)
  {
    var missing: seq<ByteRange>;
    missing, own := ReadMissing(sys, q, r);
    if |missing| == 0 { return 0, Some(r.end), false, own; }
    ghost var s, more := sys.state, [];
    inserted, highest, stopped, more := QueueGaps(sys, q, missing, frontier);
    LaterTrans(old(sys.state), s, sys.state);
    own := own + more;
  }

  /**
   * EnqueueForSession: others may publish, evict, finish and reclaim between any two of its statements. Its own
   * statements are planner events, every row inserted meanwhile is one it counted, and, as all this is a run, no
   * row it inserts overlaps a block or a live task. Of the sessions only the frontier of its own moves, and never back.
   */
  method EnqueueForSession(sys: System, q: Request) returns (inserted: nat, ghost own: seq<Event>)
    requires sys.Valid()
    modifies sys, sys.store
    ensures sys.Valid() && Later(old(sys.state), sys.state) && SingleOwner(sys.state)
    ensures Mine(sys.log) == Mine(old(sys.log)) + own && AllPlanning(own)
    ensures sys.state.db.nextId == old(sys.state.db.nextId) + inserted
    ensures OnlyFrontierGrows(sys.store.sessions, old(sys.store.sessions), q.hash)
  {
    inserted, own := 0, [];
    LaterSame(sys.state);
    sys.ValidIsInv();
    var s := q.session;
    var ranges := PlanMiddleRanges(s.mediaSize, HeadBytes(q), TailBytes(q), s.lastRangeEnd, None, q.planner);
    if |ranges| == 0 { return; }
    var targetEnd := ranges[|ranges| - 1].end;
    if s.queuedUntil.Some? && ranges[0].start <= s.queuedUntil.value && s.queuedUntil.value < targetEnd {
      ranges := PlanMiddleRanges(s.mediaSize, HeadBytes(q), TailBytes(q), s.lastRangeEnd, s.queuedUntil, q.planner);
    }
    inserted, own := QueuePlanned(sys, q, ranges, targetEnd);
    sys.ValidIsInv();
  }

  /** The loop over the planned ranges and the frontier update behind it. */
  method QueuePlanned(sys: System, q: Request, ranges: seq<ByteRange>, targetEnd: int) returns (inserted: nat, ghost own: seq<Event>)
    requires sys.Valid()
    modifies sys, sys.store
    ensures sys.Valid() && Later(old(sys.state), sys.state)
    ensures Mine(sys.log) == Mine(old(sys.log)) + own && AllPlanning(own)
    ensures sys.state.db.nextId == old(sys.state.db.nextId) + inserted
    ensures OnlyFrontierGrows(sys.store.sessions, old(sys.store.sessions), q.hash)
  {
    inserted, own := 0, [];
    LaterSame(sys.state);
    var highest: Option<int> := None;
    var stopped := false;
    var i := 0;
    while i < |ranges| && !stopped
      invariant 0 <= i <= |ranges| && sys.Valid() && Later(old(sys.state), sys.state)
      invariant Mine(sys.log) == Mine(old(sys.log)) + own && AllPlanning(own)
      invariant sys.state.db.nextId == old(sys.state.db.nextId) + inserted
      invariant sys.store.sessions == old(sys.store.sessions)
    {
      ghost var s := sys.state;
      var count: nat;
      ghost var more: seq<Event>;
      var r := ByteRange(ranges[i].start, Min(ranges[i].end, targetEnd));
      count, highest, stopped, more := QueueRange(sys, q, r, highest);
      LaterTrans(old(sys.state), s, sys.state);
      inserted, own := inserted + count, own + more;
      i := i + 1;
    }
    if highest.Some? {
      AdvanceGrows(sys.store.AsDb(), q.hash, highest.value);
      sys.store.UpdateSessionQueuedUntil(q.hash, highest.value);
    }
  }
}
