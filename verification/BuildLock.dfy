/** The Go build lock: one token per (key, block), passed around by requests that may all run at once. */
module GoBuildLock {

  /** cacheBuildLock: a channel with room for one token. */
  class CacheBuildLock {
    var tokens: nat

    constructor ()
      ensures tokens == 1
    {
      tokens := 1;
    }

    method TryAcquire() returns (got: bool)
      modifies this
      ensures got <==> old(tokens) > 0
      ensures tokens == if got then old(tokens) - 1 else old(tokens)
    {
      if tokens > 0 {
        tokens := tokens - 1;
        return true;
      }
      return false;
    }

    /** A release into a full channel is dropped. */
    method Release()
      modifies this
      ensures tokens == Returned(old(tokens))
    {
      if tokens == 0 { tokens := 1; }
    }
  }

  function Returned(tokens: nat): nat { if tokens == 0 then 1 else tokens }

  /** Where a request stands in serveAuthorizedRange, from its first miss on. */
  datatype Place =
    | FirstTry
    | Waiting
    | WaitHoldsToken
    | SecondProbe
    | SecondTry
    | ThirdProbe
    | Building
    | Finished

  predicate Holds(p: Place) { p.WaitHoldsToken? || p.ThirdProbe? || p.Building? }

  datatype Request = Request(lock: string, place: Place)

  datatype State = State(tokens: map<string, nat>, requests: map<nat, Request>)

  datatype Event =
    | Arrive(id: nat, lock: string)
    | Try(id: nat)
    | WaitTakesToken(id: nat)
    | WaitReturnsToken(id: nat)
    | WaitTimesOut(id: nat)
    | ProbeHits(id: nat)
    | ProbeMisses(id: nat)
    | BuildEnds(id: nat)

  function Move(s: State, id: nat, place: Place): State
    requires id in s.requests
  {
    s.(requests := s.requests[id := s.requests[id].(place := place)])
  }

  function Take(s: State, id: nat, place: Place): State
    requires id in s.requests && s.requests[id].lock in s.tokens && s.tokens[s.requests[id].lock] > 0
  {
    var lock := s.requests[id].lock;
    Move(s, id, place).(tokens := s.tokens[lock := s.tokens[lock] - 1])
  }

  function Release(s: State, id: nat, place: Place): State
    requires id in s.requests && s.requests[id].lock in s.tokens
  {
    var lock := s.requests[id].lock;
    Move(s, id, place).(tokens := s.tokens[lock := Returned(s.tokens[lock])])
  }

  predicate Known(s: State, id: nat) { id in s.requests && s.requests[id].lock in s.tokens }

  function Apply(s: State, e: Event): State {
    match e
    case Arrive(id, lock) =>
      if id in s.requests then s else
        State(if lock in s.tokens then s.tokens else s.tokens[lock := 1], s.requests[id := Request(lock, FirstTry)])
    case Try(id) =>
      if !Known(s, id) then s else
        var place, free := s.requests[id].place, s.tokens[s.requests[id].lock] > 0;
        if place.FirstTry? then (if free then Take(s, id, Building) else Move(s, id, Waiting))
        else if place.SecondTry? then (if free then Take(s, id, ThirdProbe) else Move(s, id, Finished))
        else s
    case WaitTakesToken(id) =>
      if Known(s, id) && s.requests[id].place.Waiting? && s.tokens[s.requests[id].lock] > 0 then Take(s, id, WaitHoldsToken) else s
    case WaitReturnsToken(id) =>
      if Known(s, id) && s.requests[id].place.WaitHoldsToken? then Release(s, id, SecondProbe) else s
    case WaitTimesOut(id) =>
      if Known(s, id) && s.requests[id].place.Waiting? then Move(s, id, SecondProbe) else s
    case ProbeHits(id) =>
      if !Known(s, id) then s
      else if s.requests[id].place.SecondProbe? then Move(s, id, Finished)
      else if s.requests[id].place.ThirdProbe? then Release(s, id, Finished)
      else s
    case ProbeMisses(id) =>
      if !Known(s, id) then s
      else if s.requests[id].place.SecondProbe? then Move(s, id, SecondTry)
      else if s.requests[id].place.ThirdProbe? then Move(s, id, Building)
      else s
    case BuildEnds(id) =>
      if Known(s, id) && s.requests[id].place.Building? then Release(s, id, Finished) else s
  }

  function Run(s: State, events: seq<Event>): State
    decreases |events|
  {
    if events == [] then s else Run(Apply(s, events[0]), events[1..])
  }

  function Holders(s: State, lock: string): set<nat> {
    set id | id in s.requests && s.requests[id].lock == lock && Holds(s.requests[id].place)
  }

  /** Tokens and holders of every lock add up to one. */
  ghost predicate Conserved(s: State) {
    && (forall id :: id in s.requests ==> s.requests[id].lock in s.tokens)
    && (forall lock :: lock in s.tokens ==> s.tokens[lock] + |Holders(s, lock)| == 1)
  }

  function Weight(p: Place): nat { if Holds(p) then 1 else 0 }

  /** Moving a request and changing its lock's tokens by what it took or gave back. */
  lemma ExchangeConserves(s: State, id: nat, place: Place, tokens: nat)
    requires Conserved(s) && id in s.requests
    requires tokens + Weight(place) == s.tokens[s.requests[id].lock] + Weight(s.requests[id].place)
    ensures Conserved(Move(s, id, place).(tokens := s.tokens[s.requests[id].lock := tokens]))
  {
    var mine := s.requests[id].lock;
    var t := Move(s, id, place).(tokens := s.tokens[mine := tokens]);
    forall lock | lock in t.tokens
      ensures t.tokens[lock] + |Holders(t, lock)| == 1
    {
      HoldersAfterMove(s, id, place, lock);
      assert Holders(t, lock) == Holders(Move(s, id, place), lock);
    }
  }

  lemma HoldersAfterMove(s: State, id: nat, place: Place, lock: string)
    requires id in s.requests
    ensures var others := Holders(s, lock) - {id};
      && (lock != s.requests[id].lock ==> Holders(Move(s, id, place), lock) == Holders(s, lock))
      && (lock == s.requests[id].lock ==>
            && |Holders(s, lock)| == |others| + Weight(s.requests[id].place)
            && |Holders(Move(s, id, place), lock)| == |others| + Weight(place))
  {
    var before, after := Holders(s, lock), Holders(Move(s, id, place), lock);
    var others := before - {id};
    if lock != s.requests[id].lock {
      assert after == before;
    } else {
      assert before == if Holds(s.requests[id].place) then others + {id} else others;
      assert after == if Holds(place) then others + {id} else others;
    }
  }

  lemma HolderMeansNoToken(s: State, id: nat)
    requires Conserved(s) && id in s.requests && Holds(s.requests[id].place)
    ensures s.requests[id].lock in s.tokens && s.tokens[s.requests[id].lock] == 0
  {
    assert id in Holders(s, s.requests[id].lock);
  }

  lemma MoveConserves(s: State, id: nat, place: Place)
    requires Conserved(s) && id in s.requests && Weight(place) == Weight(s.requests[id].place)
    ensures Conserved(Move(s, id, place))
  {
    var lock := s.requests[id].lock;
    ExchangeConserves(s, id, place, s.tokens[lock]);
    assert s.tokens[lock := s.tokens[lock]] == s.tokens;
  }

  lemma TakeConserves(s: State, id: nat, place: Place)
    requires Conserved(s) && Known(s, id) && s.tokens[s.requests[id].lock] > 0
    requires !Holds(s.requests[id].place) && Holds(place)
    ensures Conserved(Take(s, id, place))
  {
    ExchangeConserves(s, id, place, s.tokens[s.requests[id].lock] - 1);
  }

  lemma ReleaseConserves(s: State, id: nat, place: Place)
    requires Conserved(s) && Known(s, id) && Holds(s.requests[id].place) && !Holds(place)
    ensures Conserved(Release(s, id, place))
  {
    HolderMeansNoToken(s, id);
    ExchangeConserves(s, id, place, 1);
  }

  lemma ArriveConserves(s: State, id: nat, lock: string)
    requires Conserved(s)
    ensures Conserved(Apply(s, Arrive(id, lock)))
  {
    var t := Apply(s, Arrive(id, lock));
    forall l | l in t.tokens
      ensures t.tokens[l] + |Holders(t, l)| == 1
    {
      assert Holders(t, l) == Holders(s, l);
      if l !in s.tokens { assert Holders(s, l) == {}; }
    }
  }

  lemma StepConserves(s: State, e: Event)
    requires Conserved(s)
    ensures Conserved(Apply(s, e))
  {
    if e.Arrive? {
      ArriveConserves(s, e.id, e.lock);
    } else if Known(s, e.id) && Apply(s, e) != s {
      var place := Apply(s, e).requests[e.id].place;
      if Weight(place) == Weight(s.requests[e.id].place) {
        MoveConserves(s, e.id, place);
      } else if Holds(place) {
        TakeConserves(s, e.id, place);
      } else {
        ReleaseConserves(s, e.id, place);
      }
    }
  }

  // ---- the lock's methods, each against its events

  /** The lock object of request id holds the tokens the state says it does. */
  ghost predicate IsLockOf(lock: CacheBuildLock, s: State, id: nat)
    reads lock
  {
    Known(s, id) && lock.tokens == s.tokens[s.requests[id].lock]
  }

  /** tryAcquire, at either of its two places, is the Try event, and says whether the request now holds the token. */
  method Try(lock: CacheBuildLock, ghost s: State, ghost id: nat) returns (got: bool, ghost t: State)
    requires IsLockOf(lock, s, id) && (s.requests[id].place.FirstTry? || s.requests[id].place.SecondTry?)
    modifies lock
    ensures t == Apply(s, Event.Try(id)) && IsLockOf(lock, t, id)
    ensures got <==> Holds(t.requests[id].place)
  {
    got := lock.TryAcquire();
    t := Apply(s, Event.Try(id));
  }

  lemma RunOne(s: State, e: Event)
    ensures Run(s, [e]) == Apply(s, e)
  {
    assert Run(Apply(s, e), [e][1..]) == Apply(s, e);
  }

  lemma RunTwo(s: State, e: Event, f: Event)
    ensures Run(s, [e, f]) == Apply(Apply(s, e), f)
  {
    assert [e, f][1..] == [f];
    RunOne(Apply(s, e), f);
  }

  /** wait: take the token and put it straight back, or give up on it; with no time to wait only the latter is possible. */
  method Wait(lock: CacheBuildLock, timeout: int, ghost s: State, ghost id: nat) returns (ghost events: seq<Event>)
    requires IsLockOf(lock, s, id) && s.requests[id].place.Waiting?
    modifies lock
    ensures events == [WaitTakesToken(id), WaitReturnsToken(id)] || events == [WaitTimesOut(id)]
    ensures timeout <= 0 ==> events == [WaitTimesOut(id)]
    ensures IsLockOf(lock, Run(s, events), id) && Run(s, events).requests[id].place.SecondProbe?
  {
    events := [WaitTimesOut(id)];
    RunOne(s, events[0]);
    if timeout > 0 {
      var inTime := *;
      if inTime {
        var got := lock.TryAcquire();
        if got {
          lock.Release();
          events := [WaitTakesToken(id), WaitReturnsToken(id)];
          RunTwo(s, events[0], events[1]);
        }
      }
    }
  }

  /** release, by a request that found the block after all or has finished its build. */
  method GiveBack(lock: CacheBuildLock, ghost s: State, ghost id: nat) returns (ghost t: State)
    requires IsLockOf(lock, s, id) && (s.requests[id].place.ThirdProbe? || s.requests[id].place.Building?)
    modifies lock
    ensures t == Apply(s, if s.requests[id].place.Building? then BuildEnds(id) else ProbeHits(id))
    ensures IsLockOf(lock, t, id) && !Holds(t.requests[id].place)
  {
    lock.Release();
    t := Apply(s, if s.requests[id].place.Building? then BuildEnds(id) else ProbeHits(id));
  }

  /** tokens + holders = 1 for every lock in every reachable state, so at most one request builds a block at a time. */
  lemma {:induction false} TokensConserved(s: State, events: seq<Event>)
    requires Conserved(s)
    ensures Conserved(Run(s, events))
    decreases |events|
  {
    if events != [] {
      StepConserves(s, events[0]);
      TokensConserved(Apply(s, events[0]), events[1..]);
    }
  }

  /** A first request finds the lock free and builds at once; while another holds it, a request waits. */
  lemma FirstTryDecides(s: State, id: nat, lock: string)
    requires Conserved(s) && id !in s.requests
    ensures var t := Run(s, [Arrive(id, lock), Event.Try(id)]);
      && id in t.requests
      && t.requests[id].place == if Holders(s, lock) == {} then Building else Waiting
  {
    RunTwo(s, Arrive(id, lock), Event.Try(id));
    var t := Apply(s, Arrive(id, lock));
    ArriveConserves(s, id, lock);
    assert Holders(t, lock) == Holders(s, lock);
    assert t.tokens[lock] + |Holders(t, lock)| == 1;
  }

  /** A waiting request that misses again builds when the lock is free by then, and otherwise goes to the origin. */
  lemma SecondTryDecides(s: State, id: nat)
    requires Conserved(s) && id in s.requests && s.requests[id].place.SecondProbe?
    ensures var lock, t := s.requests[id].lock, Run(s, [ProbeMisses(id), Event.Try(id)]);
      && id in t.requests
      && t.requests[id].place == if Holders(s, lock) == {} then ThirdProbe else Finished
    ensures s.requests[id].lock in s.tokens
  {
    RunTwo(s, ProbeMisses(id), Event.Try(id));
    var lock, t := s.requests[id].lock, Apply(s, ProbeMisses(id));
    assert Holders(t, lock) == Holders(s, lock);
    assert s.tokens[lock] + |Holders(s, lock)| == 1;
  }

  /** Over all interleavings two requests never hold the same lock, and a holder's release is never dropped. */
  lemma OneHolder(events: seq<Event>, a: nat, b: nat)
    requires var s := Run(State(map[], map[]), events);
      && a in s.requests && b in s.requests && s.requests[a].lock == s.requests[b].lock
      && Holds(s.requests[a].place) && Holds(s.requests[b].place)
    ensures a == b
    ensures var s := Run(State(map[], map[]), events); s.requests[a].lock in s.tokens && s.tokens[s.requests[a].lock] == 0
  {
    TokensConserved(State(map[], map[]), events);
    var s := Run(State(map[], map[]), events);
    var lock := s.requests[a].lock;
    assert lock in s.tokens;
    HolderMeansNoToken(s, a);
    var others := Holders(s, lock) - {a};
    assert a in Holders(s, lock) && b in Holders(s, lock);
    assert |others| == 0;
    assert b !in others;
  }
}

/** The Python handler: every staging happens under the lock after a miss seen under the lock. */
module PyBuildLock {

  /** Where a coroutine stands in serve_authorized_range, from its first miss on. */
  datatype Place =
    | Checking
    | Waiting
    | WaitHoldsLock
    | SecondProbe
    | Acquiring
    | ProbeUnderLock
    | Staging
    | Committed
    | Finished

  predicate Holds(p: Place) { p.WaitHoldsLock? || p.ProbeUnderLock? || p.Staging? || p.Committed? }

  datatype Coroutine = Coroutine(lock: string, place: Place)

  datatype LogEntry = HandlerCommit(lock: string) | Removal(lock: string)

  /** Lock holders, coroutines, blocks a probe would find, and the log of commits and removals. */
  datatype State = State(holder: map<string, nat>, coroutines: map<nat, Coroutine>, present: set<string>, log: seq<LogEntry>)

  datatype Event =
    | Arrive(id: nat, lock: string)
    | CheckLocked(id: nat)
    | WaitTakesLock(id: nat)
    | WaitReleasesLock(id: nat)
    | WaitTimesOut(id: nat)
    | Probe(id: nat)
    | Acquire(id: nat)
    | CommitWorks(id: nat)
    | CommitFails(id: nat)
    | Leave(id: nat)
    | Evict(lock: string)
    | PrewarmCommit(lock: string)

  function Move(s: State, id: nat, place: Place): State
    requires id in s.coroutines
  {
    s.(coroutines := s.coroutines[id := s.coroutines[id].(place := place)])
  }

  function Lock(s: State, id: nat, place: Place): State
    requires id in s.coroutines
  {
    Move(s, id, place).(holder := s.holder[s.coroutines[id].lock := id])
  }

  function Unlock(s: State, id: nat, place: Place): State
    requires id in s.coroutines
  {
    Move(s, id, place).(holder := s.holder - {s.coroutines[id].lock})
  }

  function Remove(s: State, lock: string): State {
    s.(present := s.present - {lock}, log := s.log + [Removal(lock)])
  }

  predicate At(s: State, id: nat, place: Place) { id in s.coroutines && s.coroutines[id].place == place }

  function Apply(s: State, e: Event): State {
    match e
    case Arrive(id, lock) => if id in s.coroutines then s else s.(coroutines := s.coroutines[id := Coroutine(lock, Checking)])
    case CheckLocked(id) =>
      if At(s, id, Checking) then Move(s, id, if s.coroutines[id].lock in s.holder then Waiting else Acquiring) else s
    case WaitTakesLock(id) =>
      if At(s, id, Waiting) && s.coroutines[id].lock !in s.holder then Lock(s, id, WaitHoldsLock) else s
    case WaitReleasesLock(id) => if At(s, id, WaitHoldsLock) then Unlock(s, id, SecondProbe) else s
    case WaitTimesOut(id) => if At(s, id, Waiting) then Move(s, id, SecondProbe) else s
    case Probe(id) =>
      if At(s, id, SecondProbe) then
        // A hit is served; a miss with the lock still taken goes to the origin without staging.
        if s.coroutines[id].lock in s.present || s.coroutines[id].lock in s.holder then Move(s, id, Finished) else Move(s, id, Acquiring)
      else if At(s, id, ProbeUnderLock) then
        if s.coroutines[id].lock in s.present then Unlock(s, id, Finished) else Move(s, id, Staging)
      else s
    case Acquire(id) =>
      if At(s, id, Acquiring) && s.coroutines[id].lock !in s.holder then Lock(s, id, ProbeUnderLock) else s
    case CommitWorks(id) =>
      if At(s, id, Staging) then
        var lock := s.coroutines[id].lock;
        Move(s, id, Committed).(present := s.present + {lock}, log := s.log + [HandlerCommit(lock)])
      else s
    case CommitFails(id) => if At(s, id, Staging) then Remove(Move(s, id, Committed), s.coroutines[id].lock) else s
    case Leave(id) => if At(s, id, Staging) || At(s, id, Committed) then Unlock(s, id, Finished) else s
    case Evict(lock) => Remove(s, lock)
    case PrewarmCommit(lock) => s.(present := s.present + {lock})
  }

  function Run(s: State, events: seq<Event>): State
    decreases |events|
  {
    if events == [] then s else Run(Apply(s, events[0]), events[1..])
  }

  /** A handler committed the block and nothing has removed it since. */
  predicate CommittedSince(log: seq<LogEntry>, lock: string)
    decreases |log|
  {
    log != [] &&
      var last := log[|log| - 1];
      if last == HandlerCommit(lock) then true
      else if last == Removal(lock) then false
      else CommittedSince(log[..|log| - 1], lock)
  }

  /** Two handler commits of a block have a removal between them. */
  ghost predicate Spaced(log: seq<LogEntry>) {
    forall i, j :: 0 <= i < j < |log| && log[i].HandlerCommit? && log[j] == log[i]
      ==> exists k :: i < k < j && log[k] == Removal(log[i].lock)
  }

  /** The recorded holder is the one coroutine that stands at a holding place. */
  predicate LocksOk(s: State) {
    && (forall lock :: lock in s.holder ==> s.holder[lock] in s.coroutines && s.coroutines[s.holder[lock]].lock == lock
                                            && Holds(s.coroutines[s.holder[lock]].place))
    && (forall id :: id in s.coroutines && Holds(s.coroutines[id].place)
          ==> s.coroutines[id].lock in s.holder && s.holder[s.coroutines[id].lock] == id)
  }

  ghost predicate LogOk(s: State) {
    && (forall lock :: CommittedSince(s.log, lock) ==> lock in s.present)
    && (forall id :: At(s, id, Staging) ==> !CommittedSince(s.log, s.coroutines[id].lock))
    && Spaced(s.log)
  }

  ghost predicate Inv(s: State) { LocksOk(s) && LogOk(s) }

  lemma {:induction false} RemovedAfterCommit(log: seq<LogEntry>, lock: string, i: nat)
    requires i < |log| && log[i] == HandlerCommit(lock) && !CommittedSince(log, lock)
    ensures exists k :: i < k < |log| && log[k] == Removal(lock)
    decreases |log|
  {
    var n := |log| - 1;
    if log[n] != Removal(lock) {
      assert i < n && log[..n][i] == log[i];
      RemovedAfterCommit(log[..n], lock, i);
      var k :| i < k < n && log[..n][k] == Removal(lock);
      assert log[k] == Removal(lock);
    }
  }

  lemma AppendToLog(log: seq<LogEntry>, entry: LogEntry)
    requires Spaced(log)
    requires entry.HandlerCommit? ==> !CommittedSince(log, entry.lock)
    ensures Spaced(log + [entry])
    ensures forall lock ::
      (CommittedSince(log + [entry], lock) <==> if lock == entry.lock then entry.HandlerCommit? else CommittedSince(log, lock))
  {
    var t := log + [entry];
    assert t[..|t| - 1] == log;
    forall i, j | 0 <= i < j < |t| && t[i].HandlerCommit? && t[j] == t[i]
      ensures exists k :: i < k < j && t[k] == Removal(t[i].lock)
    {
      if j == |log| {
        RemovedAfterCommit(log, entry.lock, i);
        var k :| i < k < |log| && log[k] == Removal(entry.lock);
        assert t[k] == Removal(t[i].lock);
      } else {
        assert log[i] == t[i] && log[j] == t[j];
        var k :| i < k < j && log[k] == Removal(log[i].lock);
        assert t[k] == Removal(t[i].lock);
      }
    }
  }

  lemma MoveKeepsLocks(s: State, id: nat, place: Place)
    requires LocksOk(s) && id in s.coroutines && Holds(place) == Holds(s.coroutines[id].place)
    ensures LocksOk(Move(s, id, place))
  {
  }

  lemma LockKeepsLocks(s: State, id: nat, place: Place)
    requires LocksOk(s) && id in s.coroutines && s.coroutines[id].lock !in s.holder && Holds(place)
    ensures LocksOk(Lock(s, id, place))
  {
  }

  lemma UnlockKeepsLocks(s: State, id: nat, place: Place)
    requires LocksOk(s) && id in s.coroutines && Holds(s.coroutines[id].place) && !Holds(place)
    ensures LocksOk(Unlock(s, id, place))
  {
  }

  lemma ArriveKeepsLocks(s: State, e: Event)
    requires LocksOk(s) && e.Arrive?
    ensures LocksOk(Apply(s, e))
  {
  }

  /** Every event leaves the locks as they are, or moves one coroutine, taking or giving back its lock as its place says. */
  lemma StepKeepsLocks(s: State, e: Event)
    requires LocksOk(s)
    ensures LocksOk(Apply(s, e))
  {
    var t := Apply(s, e);
    if e.Arrive? {
      ArriveKeepsLocks(s, e);
    } else if t.coroutines == s.coroutines && t.holder == s.holder {
    } else {
      var place := t.coroutines[e.id].place;
      if Holds(place) == Holds(s.coroutines[e.id].place) {
        MoveKeepsLocks(s, e.id, place);
      } else if Holds(place) {
        LockKeepsLocks(s, e.id, place);
      } else {
        UnlockKeepsLocks(s, e.id, place);
      }
    }
  }

  lemma CommitKeepsLog(s: State, id: nat)
    requires Inv(s) && At(s, id, Staging)
    ensures LogOk(Apply(s, CommitWorks(id)))
  {
    var lock := s.coroutines[id].lock;
    AppendToLog(s.log, HandlerCommit(lock));
    var t := Apply(s, CommitWorks(id));
    forall other | At(t, other, Staging)
      ensures !CommittedSince(t.log, t.coroutines[other].lock)
    {
      assert At(s, other, Staging);
    }
  }

  lemma RemoveKeepsLog(s: State, lock: string)
    requires LogOk(s)
    ensures LogOk(Remove(s, lock))
  {
    AppendToLog(s.log, Removal(lock));
    forall id | At(Remove(s, lock), id, Staging)
      ensures !CommittedSince(Remove(s, lock).log, s.coroutines[id].lock)
    {
      assert At(s, id, Staging);
    }
  }

  lemma MoveKeepsLog(s: State, id: nat, place: Place)
    requires LogOk(s) && id in s.coroutines
    requires place.Staging? ==> s.coroutines[id].lock !in s.present
    ensures LogOk(Move(s, id, place))
  {
    forall other | At(Move(s, id, place), other, Staging)
      ensures !CommittedSince(s.log, s.coroutines[other].lock)
    {
      assert other != id ==> At(s, other, Staging);
    }
  }

  lemma StepKeepsInv(s: State, e: Event)
    requires Inv(s)
    ensures Inv(Apply(s, e))
  {
    StepKeepsLocks(s, e);
    var t := Apply(s, e);
    match e
    case CommitWorks(id) => if At(s, id, Staging) { CommitKeepsLog(s, id); }
    case CommitFails(id) =>
      if At(s, id, Staging) {
        MoveKeepsLog(s, id, Committed);
        RemoveKeepsLog(Move(s, id, Committed), s.coroutines[id].lock);
      }
    case Evict(lock) => RemoveKeepsLog(s, lock);
    case PrewarmCommit(lock) =>
      assert forall id :: At(t, id, Staging) ==> At(s, id, Staging);
    case Arrive(id, lock) =>
      assert forall other :: At(t, other, Staging) ==> At(s, other, Staging);
    case _ =>
      if t != s {
        MoveKeepsLog(s, e.id, t.coroutines[e.id].place);
        var u := Move(s, e.id, t.coroutines[e.id].place);
        assert t.coroutines == u.coroutines && t.log == u.log && t.present == u.present;
        assert forall other :: At(t, other, Staging) ==> At(u, other, Staging);
      }
  }

  lemma {:induction false} RunKeepsInv(s: State, events: seq<Event>)
    requires LocksOk(s) && LogOk(s)
    ensures LocksOk(Run(s, events)) && LogOk(Run(s, events))
    decreases |events|
  {
    if events != [] {
      StepKeepsInv(s, events[0]);
      RunKeepsInv(Apply(s, events[0]), events[1..]);
    }
  }

  const INITIAL := State(map[], map[], {}, [])

  /**
   * Single flight: over all interleavings at most one coroutine stages a block, and two commits by
   * handlers have a removal between them.
   */
  lemma SingleFlight(events: seq<Event>)
    ensures var s := Run(INITIAL, events);
      && (forall a, b :: At(s, a, Staging) && At(s, b, Staging) && s.coroutines[a].lock == s.coroutines[b].lock ==> a == b)
      && Spaced(s.log)
  {
    RunKeepsInv(INITIAL, events);
  }

  /** Staging begins only with a miss seen by the lock's holder. */
  lemma StagingNeedsMissUnderLock(s: State, e: Event, id: nat)
    requires Inv(s) && !At(s, id, Staging) && At(Apply(s, e), id, Staging)
    ensures e == Probe(id) && At(s, id, ProbeUnderLock)
    ensures var lock := s.coroutines[id].lock; lock !in s.present && lock in s.holder && s.holder[lock] == id
  {
  }

  lemma RunTwo(s: State, e: Event, f: Event)
    ensures Run(s, [e, f]) == Apply(Apply(s, e), f)
  {
    assert [e, f][1..] == [f] && [f][1..] == [];
    assert Run(Apply(s, e), [f]) == Run(Apply(Apply(s, e), f), []);
  }

  lemma RunFour(s: State, e: Event, f: Event, g: Event, h: Event)
    ensures Run(s, [e, f, g, h]) == Apply(Apply(Apply(Apply(s, e), f), g), h)
  {
    var t := Apply(Apply(s, e), f);
    assert [e, f, g, h][1..] == [f, g, h] && [f, g, h][1..] == [g, h];
    assert Run(Apply(s, e), [f, g, h]) == Run(t, [g, h]);
    RunTwo(t, g, h);
  }

  /** With the lock free a request stages the block, unless the probe under the lock finds it, and then it holds nothing. */
  lemma FreeLockStages(s: State, id: nat, lock: string)
    requires id !in s.coroutines && lock !in s.holder
    ensures var t := Run(s, [Arrive(id, lock), CheckLocked(id), Acquire(id), Probe(id)]);
      && (lock in s.present ==> At(t, id, Finished) && lock !in t.holder)
      && (lock !in s.present ==> At(t, id, Staging) && lock in t.holder && t.holder[lock] == id)
  {
    RunFour(s, Arrive(id, lock), CheckLocked(id), Acquire(id), Probe(id));
    var b := Apply(Apply(s, Arrive(id, lock)), CheckLocked(id));
    assert At(b, id, Acquiring) && b.holder == s.holder;
    var c := Apply(b, Acquire(id));
    assert At(c, id, ProbeUnderLock) && c.coroutines[id].lock == lock && c.holder == s.holder[lock := id];
  }

  /** A staging that works leaves the block for the next probe and the lock free; one that fails leaves neither block nor lock. */
  lemma StagingEnds(s: State, id: nat, works: bool)
    requires At(s, id, Staging)
    ensures var lock := s.coroutines[id].lock;
      var t := Run(s, [if works then CommitWorks(id) else CommitFails(id), Leave(id)]);
      At(t, id, Finished) && lock !in t.holder && (lock in t.present <==> works)
  {
    RunTwo(s, if works then CommitWorks(id) else CommitFails(id), Leave(id));
  }
}
