/** No prefetch task is lost, and permanent failures stay permanent. */
module Progress {
  import opened Intervals
  import opened Tables
  import opened Protocol

  /** The time from which the row can be claimed; None when it never will be. */
  function ClaimableFrom(t: Task, staleSeconds: int): Option<Instant> {
    match t.status
    case Queued => Some(t.updatedAt)
    case Running => Some(t.updatedAt + staleSeconds as real)
    case Done => None
    case Failed => t.nextAttemptAt
    case Skipped => t.nextAttemptAt
  }

  /** On every reachable database a row is done, permanently failed, or claimable from a computable time on. */
  lemma NoTaskLost(events: seq<Event>, id: nat, staleSeconds: int)
    requires staleSeconds > 0 && id in Run(INITIAL, events).db.tasks
    ensures var t := Run(INITIAL, events).db.tasks[id];
      var from := ClaimableFrom(t, staleSeconds);
      && (from.None? <==> t.status.Done? || PermanentlyFailed(t))
      && (PermanentlyFailed(t) ==> t.lastError.value.RangeTooLarge? || t.lastError.value.PrefetchSourceMismatch?)
      && (from.Some? ==> forall now: Instant :: now >= from.value ==> Claimable(t, now, staleSeconds))
      && (from.None? ==> forall now: Instant :: !Claimable(t, now, staleSeconds))
      && (from.Some? && !t.status.Queued? ==> forall now: Instant :: Claimable(t, now, staleSeconds) ==> now >= from.value)
  {
    assert Inv(INITIAL);
    RunKeepsInv(INITIAL, events);
    assert TaskOk(Run(INITIAL, events).db.tasks[id]);
  }

  /** Permanent rows come from exactly two outcomes, and the backfill leaves them alone on any database at all. */
  lemma OnlyTwoOutcomesArePermanent(s: State, token: Token, outcome: Outcome, now: Instant, backoffSeconds: int)
    requires Current(s.db, token) && backoffSeconds > 0
    ensures var t := Finished(s.db, token, outcome, now, backoffSeconds).tasks[token.id];
      && (PermanentlyFailed(t) <==> outcome.TooLarge? || outcome.SourceMismatch?)
      && (!PermanentlyFailed(t) ==> Live(t) && t.attempts == token.attempts)
  {
  }

  lemma BackfillNeverRevivesPermanent(db: Db, id: nat)
    requires id in db.tasks
    ensures PermanentlyFailed(db.tasks[id]) ==> Backfill(db).tasks[id] == db.tasks[id]
    ensures db.tasks[id].status.Done? ==> Backfill(db).tasks[id] == db.tasks[id]
    ensures Retryable(Backfill(db).tasks[id]) && !Retryable(db.tasks[id]) ==> NeedsBackfill(db.tasks[id])
  {
  }
}
