/** What attempt numbers buy: properties of whole runs of the task protocol. */
module Fencing {
  import opened Tables
  import opened Protocol

  /** Each (task, attempt) token is handed out once and each task publishes at most one block, on every run from an empty database. */
  lemma TokensAndPublishesUnique(events: seq<Event>)
    ensures var s := Run(INITIAL, events);
      && (forall i, j :: 0 <= i < j < |s.issued| ==> s.issued[i] != s.issued[j])
      && (forall i, j :: 0 <= i < j < |s.published| ==> s.published[i] != s.published[j])
      && (forall i :: 0 <= i < |s.published| ==> s.published[i] in s.db.tasks && s.db.tasks[s.published[i]].status.Done?)
  {
    assert Inv(INITIAL);
    RunKeepsInv(INITIAL, events);
  }

  /** Only the holder of the current token changes a running row; the one other way is a reclaim after the stale time. */
  lemma OnlyHolderChangesRow(s: State, e: Event, id: nat)
    requires Inv(s) && id in s.db.tasks && s.db.tasks[id].status.Running?
    ensures id in Apply(s, e).db.tasks
    ensures Apply(s, e).db.tasks[id] != s.db.tasks[id] ==>
      || ((e.Finish? || e.Publish?) && e.token == Token(id, s.db.tasks[id].attempts))
      || (e.Claim? && e.id == id && e.staleSeconds > 0 && s.db.tasks[id].updatedAt <= e.now - e.staleSeconds as real
            && Apply(s, e).db.tasks[id].attempts == s.db.tasks[id].attempts + 1)
  {
    BackfillChangesNothing(s);
  }

  /** A block row appears only through the holder of the current token of the running task that owns exactly its range. */
  lemma OnlyHolderPublishes(s: State, e: Event, b: BlockId)
    requires Inv(s) && b !in s.db.blocks && b in Apply(s, e).db.blocks
    ensures e.Publish? && Current(s.db, e.token) && BlockOf(s.db.tasks[e.token.id]) == b
    ensures Apply(s, e).db.tasks[e.token.id].status.Done?
    ensures Apply(s, e).published == s.published + [e.token.id]
  {
    BackfillChangesNothing(s);
  }

  /** What may happen to a row in one step. */
  predicate RowStep(t: Task, next: Task) {
    && SameIdentity(next, t)
    && t.attempts <= next.attempts
    && (t.status.Done? || PermanentlyFailed(t) ==> next == t)
    && (next.status.Running? && !t.status.Running? ==> t.attempts < next.attempts)
  }

  /** Rows stay, keep their identity, and their attempt counter never goes back. */
  lemma StepKeepsRow(s: State, e: Event, id: nat)
    requires Inv(s) && id in s.db.tasks
    ensures id in Apply(s, e).db.tasks && RowStep(s.db.tasks[id], Apply(s, e).db.tasks[id])
  {
    BackfillChangesNothing(s);
    match e
    case Finish(token, outcome, now, backoff) => FinishKeepsRow(s.db, token, outcome, now, backoff, id);
    case Claim(_, _, _) => ClaimKeepsRow(s, e, id);
    case _ =>
  }

  lemma ClaimKeepsRow(s: State, e: Event, id: nat)
    requires e.Claim? && id in s.db.tasks
    ensures id in Apply(s, e).db.tasks && RowStep(s.db.tasks[id], Apply(s, e).db.tasks[id])
  {
  }

  lemma FinishKeepsRow(db: Db, token: Token, outcome: Outcome, now: Instant, backoffSeconds: int, id: nat)
    requires id in db.tasks
    ensures var next := Finished(db, token, outcome, now, backoffSeconds);
      id in next.tasks && RowStep(db.tasks[id], next.tasks[id])
  {
  }

  /** Done and permanently failed are absorbing, over every continuation. */
  lemma {:induction false} EndStatesAbsorb(s: State, events: seq<Event>, id: nat)
    requires Inv(s) && id in s.db.tasks
    requires s.db.tasks[id].status.Done? || PermanentlyFailed(s.db.tasks[id])
    ensures id in Run(s, events).db.tasks
    ensures Run(s, events).db.tasks[id] == s.db.tasks[id]
    decreases |events|
  {
    if events != [] {
      StepKeepsInv(s, events[0]);
      StepKeepsRow(s, events[0], id);
      EndStatesAbsorb(Apply(s, events[0]), events[1..], id);
    }
  }

  /** A token that has lost its fence never gets it back, whatever reclaims, late finalisers and restarts follow. */
  lemma {:induction false} StaleForever(s: State, events: seq<Event>, token: Token)
    requires Inv(s) && token in s.issued && !Current(s.db, token)
    ensures !Current(Run(s, events).db, token)
    decreases |events|
  {
    if events != [] {
      StepKeepsInv(s, events[0]);
      StepKeepsRow(s, events[0], token.id);
      EndlessLog(s, events[0], token);
      StaleForever(Apply(s, events[0]), events[1..], token);
    }
  }

  lemma EndlessLog(s: State, e: Event, token: Token)
    requires token in s.issued
    ensures token in Apply(s, e).issued
  {
  }

  /** So a late finaliser or publish with an old token changes nothing, however late it comes. */
  lemma LateFinaliserPowerless(s: State, events: seq<Event>, late: Event)
    requires Inv(s) && (late.Finish? || late.Publish?)
    requires late.token in s.issued && !Current(s.db, late.token)
    ensures Apply(Run(s, events), late) == Run(s, events)
  {
    StaleForever(s, events, late.token);
  }

  /** A reclaimed task has a new owner: the claim that takes it over ends the old token's fence. */
  lemma ReclaimEndsOldToken(s: State, e: Event)
    requires Inv(s) && e.Claim? && e.id in s.db.tasks && Claimable(s.db.tasks[e.id], e.now, e.staleSeconds)
    ensures var t := Apply(s, e);
      && Current(t.db, Token(e.id, s.db.tasks[e.id].attempts + 1))
      && forall token :: token in s.issued && token.id == e.id ==> !Current(t.db, token)
  {
  }
}
