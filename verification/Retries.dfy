/** When a task that was given back may run again: not before its back-off is over, and from then on at any time. */
module Retries {
  import opened Intervals
  import opened Tables
  import opened Protocol

  /** The row can be claimed at exactly the times from `from` on, however long a running task counts as alive. */
  ghost predicate ClaimableExactlyFrom(t: Task, from: Instant) {
    forall at: Instant, staleSeconds: int :: Claimable(t, at, staleSeconds) <==> at >= from
  }

  ghost predicate AlwaysClaimable(t: Task) { forall at: Instant, staleSeconds: int :: Claimable(t, at, staleSeconds) }

  ghost predicate NeverClaimable(t: Task) { forall at: Instant, staleSeconds: int :: !Claimable(t, at, staleSeconds) }

  predicate TransientOutcome(outcome: Outcome) { outcome.SourceUnavailable? || outcome.OriginFailure? || outcome.StoreFailure? }

  /** The row of a task given back at `now`: why, and when it may run again. */
  ghost predicate GivenBack(t: Task, outcome: Outcome, now: Instant, backoffSeconds: int) {
    && t.updatedAt == now
    && (TransientOutcome(outcome) ==> ClaimableExactlyFrom(t, now + backoffSeconds as real))
    && match outcome
       case TooLarge => NeverClaimable(t) && t.status == Skipped && t.lastError == Some(RangeTooLarge)
       case SourceMismatch => NeverClaimable(t) && t.status == Failed && t.lastError == Some(PrefetchSourceMismatch)
       case SourceUnavailable => t.status == Skipped && t.lastError == Some(Transient("SourceUnavailable"))
       case OriginFailure => t.status == Failed && t.lastError == Some(Transient("OriginError"))
       case StoreFailure => t.status == Failed && t.lastError == Some(Transient("StoreError"))
       case Cancelled => AlwaysClaimable(t) && t.lastError == Some(Transient("CancelledError"))
  }

  /** A finaliser with the current token changes its own row only, and leaves it waiting exactly for its back-off. */
  lemma FinishGivesBack(db: Db, token: Token, outcome: Outcome, now: Instant, backoffSeconds: int)
    requires Current(db, token) && backoffSeconds > 0
    ensures var next := Finished(db, token, outcome, now, backoffSeconds);
      && token.id in next.tasks && GivenBack(next.tasks[token.id], outcome, now, backoffSeconds)
      && SameIdentity(next.tasks[token.id], db.tasks[token.id]) && next.tasks[token.id].attempts == token.attempts
      && next == db.(tasks := db.tasks[token.id := next.tasks[token.id]])
  {
  }

  /** No claim of these events is made at or after that time. */
  predicate ClaimsBefore(events: seq<Event>, until: Instant) {
    forall e :: e in events && e.Claim? ==> e.now < until
  }

  /** The attempts handed out for a task so far. */
  function TokensOf(s: State, id: nat): set<Token> { set t | t in s.issued && t.id == id }

  predicate Waiting(s: State, id: nat, until: Instant) {
    id in s.db.tasks && Retryable(s.db.tasks[id]) && s.db.tasks[id].nextAttemptAt == Some(until)
  }

  lemma StepWaits(s: State, e: Event, id: nat, until: Instant)
    requires id < s.db.nextId && Waiting(s, id, until) && (e.Claim? ==> e.now < until)
    ensures Waiting(Apply(s, e), id, until) && Apply(s, e).db.tasks[id] == s.db.tasks[id]
    ensures TokensOf(Apply(s, e), id) == TokensOf(s, id)
  {
    if e.Finish? { FinishedElsewhere(s.db, e.token, e.outcome, e.now, e.backoffSeconds, id); }
    if e.Claim? && Apply(s, e) != s { assert e.id != id; }
  }

  /** A finaliser leaves every row but the one its token holds. */
  lemma FinishedElsewhere(db: Db, token: Token, outcome: Outcome, now: Instant, backoffSeconds: int, id: nat)
    requires id in db.tasks && !(Current(db, token) && token.id == id)
    ensures var next := Finished(db, token, outcome, now, backoffSeconds); id in next.tasks && next.tasks[id] == db.tasks[id]
  {
  }

  lemma {:induction false} RunWaits(s: State, events: seq<Event>, id: nat, until: Instant)
    requires Inv(s) && Waiting(s, id, until) && ClaimsBefore(events, until)
    ensures Waiting(Run(s, events), id, until) && Run(s, events).db.tasks[id] == s.db.tasks[id]
    ensures TokensOf(Run(s, events), id) == TokensOf(s, id)
    decreases |events|
  {
    if events != [] {
      StepWaits(s, events[0], id, until);
      StepKeepsInv(s, events[0]);
      RunWaits(Apply(s, events[0]), events[1..], id, until);
    }
  }

  /**
   * A back-off is kept on every run: after a transient failure at `now`, whatever planner, workers, eviction and restarts
   * do, no attempt of the task is handed out by a claim before now + backoffSeconds, and its row stays as it was.
   */
  lemma BackoffIsKept(s: State, token: Token, outcome: Outcome, now: Instant, backoffSeconds: int, events: seq<Event>)
    requires Inv(s) && token in s.issued && Current(s.db, token) && TransientOutcome(outcome) && backoffSeconds > 0
    requires ClaimsBefore(events, now + backoffSeconds as real)
    ensures var finish := Finish(token, outcome, now, backoffSeconds);
      var later := Run(s, [finish] + events);
      && TokensOf(later, token.id) == TokensOf(s, token.id)
      && token.id in later.db.tasks && GivenBack(later.db.tasks[token.id], outcome, now, backoffSeconds)
  {
    var finish := Finish(token, outcome, now, backoffSeconds);
    var t := Apply(s, finish);
    StepKeepsInv(s, finish);
    FinishGivesBack(s.db, token, outcome, now, backoffSeconds);
    RunWaits(t, events, token.id, now + backoffSeconds as real);
    assert ([finish] + events)[1..] == events;
  }
}
