/** How often a build tries again: it gives up after four attempts in a row that brought no byte, and not before. */
module BuildResumes {
  import opened Intervals
  import opened OriginBody
  import opened BlockBuild

  predicate AllStaged(steps: seq<ReadStep>) { forall i :: 0 <= i < |steps| ==> steps[i].stages }

  /** Staging never fails, and a body ends with its last read. */
  ghost predicate StagesAll(up: Upstream) {
    forall n: nat, offset: int :: up(n, offset).Opens? ==> StagedReading(up(n, offset).steps)
  }

  predicate StagedReading(steps: seq<ReadStep>) {
    AllStaged(steps) && forall i :: 0 <= i < |steps| ==> steps[i].ends ==> i == |steps| - 1
  }

  /** The attempt brings at least one byte. */
  predicate Fruitful(up: Upstream, n: nat, offset: int) { up(n, offset).Opens? && Bytes(up(n, offset).steps) != [] }

  /** Four attempts in a row, from the n-th on, that bring nothing. */
  ghost predicate FourFruitless(up: Upstream, n: nat, offset: int) {
    forall m: nat :: n <= m < n + 4 ==> !Fruitful(up, m, offset)
  }

  ghost predicate SomeFourFruitless(up: Upstream, offset: int) { exists n: nat :: FourFruitless(up, n, offset) }

  /** When staging works, a body adds a byte exactly when it has one, and no more than it has. */
  lemma {:induction false} StagedBody(steps: seq<ReadStep>, offset: int, end: int)
    requires offset <= end && StagedReading(steps)
    ensures var body := ReadBody(steps, offset, end);
      !body.stageFailed && (body.bytes == [] <==> Bytes(steps) == []) && |body.bytes| <= |Bytes(steps)|
    decreases |steps|
  {
    if steps != [] {
      if steps[0].ends {
        assert steps[1..] == [];
      } else if offset + |steps[0].data| <= end {
        StagedBody(steps[1..], offset + |steps[0].data|, end);
      }
    }
  }

  /** A fruitless attempt stages nothing, and is the last one exactly when three came before it. */
  lemma FruitlessRound(up: Upstream, offset: int, end: int, resumes: nat, attempt: nat)
    requires StagesAll(up) && resumes <= MAX_RESUMES && offset <= end && !Fruitful(up, attempt, offset)
    ensures resumes == 3 ==> BuildLoop(up, offset, end, resumes, attempt) == Built([], false)
    ensures resumes < 3 ==>
      resumes + 1 <= MAX_RESUMES && BuildLoop(up, offset, end, resumes, attempt) == BuildLoop(up, offset, end, resumes + 1, attempt + 1)
  {
    if up(attempt, offset).Opens? {
      StagedBody(up(attempt, offset).steps, offset, end);
      assert ReadBody(up(attempt, offset).steps, offset, end) == BodyResult([], false);
      if resumes < 3 {
        var rest := BuildLoop(up, offset, end, resumes + 1, attempt + 1);
        assert [] + rest.bytes == rest.bytes;
      }
    }
  }

  /** Any byte starts the count again. */
  lemma FruitfulRound(up: Upstream, offset: int, end: int, resumes: nat, attempt: nat)
    returns (bytes: seq<Byte>)
    requires StagesAll(up) && resumes <= MAX_RESUMES && offset <= end && Fruitful(up, attempt, offset)
    ensures bytes != [] && |bytes| <= |Bytes(up(attempt, offset).steps)|
    ensures BuildLoop(up, offset, end, resumes, attempt) == Extended(bytes, BuildLoop(up, offset + |bytes|, end, 0, attempt + 1))
  {
    StagedBody(up(attempt, offset).steps, offset, end);
    bytes := ReadBody(up(attempt, offset).steps, offset, end).bytes;
    if offset + |bytes| > end { assert bytes + [] == bytes; }
  }

  lemma {:induction false} LoopFailsOnlyAfterFour(up: Upstream, offset: int, end: int, resumes: nat, attempt: nat)
    requires StagesAll(up) && resumes <= MAX_RESUMES && resumes <= attempt
    requires forall m: nat :: attempt - resumes <= m < attempt ==> !Fruitful(up, m, offset)
    ensures var built := BuildLoop(up, offset, end, resumes, attempt);
      !built.reachedEnd ==> offset + |built.bytes| <= end && SomeFourFruitless(up, offset + |built.bytes|)
    decreases end + 1 - offset, MAX_RESUMES - resumes
  {
    if offset <= end {
      if !Fruitful(up, attempt, offset) {
        FruitlessRound(up, offset, end, resumes, attempt);
        if resumes == 3 {
          assert FourFruitless(up, attempt - 3, offset);
        } else {
          LoopFailsOnlyAfterFour(up, offset, end, resumes + 1, attempt + 1);
        }
      } else {
        var bytes := FruitfulRound(up, offset, end, resumes, attempt);
        LoopFailsOnlyAfterFour(up, offset + |bytes|, end, 0, attempt + 1);
      }
    }
  }

  /** Four fruitless attempts in a row end a build wherever it stands, with nothing more staged. */
  lemma FourFruitlessEnd(up: Upstream, offset: int, end: int, attempt: nat)
    requires StagesAll(up) && offset <= end && FourFruitless(up, attempt, offset)
    ensures BuildLoop(up, offset, end, 0, attempt) == Built([], false)
  {
    FruitlessRound(up, offset, end, 0, attempt);
    FruitlessRound(up, offset, end, 1, attempt + 1);
    FruitlessRound(up, offset, end, 2, attempt + 2);
    FruitlessRound(up, offset, end, 3, attempt + 3);
  }

  /** No body goes past the end. */
  ghost predicate Fits(up: Upstream, start: int, end: int) {
    forall n: nat, offset: int :: start <= offset <= end && Fruitful(up, n, offset) ==>
      |Bytes(up(n, offset).steps)| <= end + 1 - offset
  }

  lemma {:induction false} LoopStagesNoMore(up: Upstream, start: int, offset: int, end: int, resumes: nat, attempt: nat)
    requires StagesAll(up) && Fits(up, start, end) && resumes <= MAX_RESUMES && start <= offset <= end + 1
    ensures |BuildLoop(up, offset, end, resumes, attempt).bytes| <= end + 1 - offset
    decreases end + 1 - offset, MAX_RESUMES - resumes
  {
    if offset <= end {
      if Fruitful(up, attempt, offset) {
        var bytes := FruitfulRound(up, offset, end, resumes, attempt);
        LoopStagesNoMore(up, start, offset + |bytes|, end, 0, attempt + 1);
      } else {
        FruitlessRound(up, offset, end, resumes, attempt);
        if resumes < 3 { LoopStagesNoMore(up, start, offset, end, resumes + 1, attempt + 1); }
      }
    }
  }

  /** One request brings at least one byte: its response passes OpenRange's checks with a body that is not empty. */
  predicate Progresses(net: Network, n: nat, r: ByteRange, size: int) {
    net(n, r).Reply? && Opened(net(n, r).response, r, size).Some? && Opened(net(n, r).response, r, size).value != []
  }

  /** What is staged of any reply never fails to be. */
  ghost predicate Stages(net: Network) {
    forall n: nat, r: ByteRange :: net(n, r).Reply? ==> AllStaged(net(n, r).steps)
  }

  lemma AttemptsProgress(net: Network, origin: seq<Byte>, end: int)
    requires HonestNetwork(net, origin) && Stages(net)
    ensures StagesAll(Attempts(net, end, |origin|))
    ensures forall n: nat, offset: int ::
      Fruitful(Attempts(net, end, |origin|), n, offset) <==> Progresses(net, n, ByteRange(offset, end), |origin|)
  {
    var up := Attempts(net, end, |origin|);
    forall n: nat, offset: int
      ensures Fruitful(up, n, offset) <==> Progresses(net, n, ByteRange(offset, end), |origin|)
    {
      var r := ByteRange(offset, end);
      assert up(n, offset).Opens? ==> IsReading(up(n, offset).steps, Opened(net(n, r).response, r, |origin|).value);
    }
  }

  /** Four requests in a row, from the n-th on, that bring nothing. */
  ghost predicate FourInVain(net: Network, n: nat, r: ByteRange, size: int) {
    forall m: nat :: n <= m < n + 4 ==> !Progresses(net, m, r, size)
  }

  ghost predicate SomeFourInVain(net: Network, r: ByteRange, size: int) { exists n: nat :: FourInVain(net, n, r, size) }

  /** When staging works, a build fails only after four requests in a row, for the bytes it still lacked, brought nothing. */
  lemma FailsOnlyAfterFour(net: Network, origin: seq<Byte>, block: ByteRange)
    requires HonestNetwork(net, origin) && Stages(net)
    ensures var built := Build(net, block, |origin|);
      !built.reachedEnd ==>
        && block.start + |built.bytes| <= block.end
        && SomeFourInVain(net, ByteRange(block.start + |built.bytes|, block.end), |origin|)
  {
    var up, built := Attempts(net, block.end, |origin|), Build(net, block, |origin|);
    AttemptsProgress(net, origin, block.end);
    LoopFailsOnlyAfterFour(up, block.start, block.end, 0, 0);
    if !built.reachedEnd {
      var reached := block.start + |built.bytes|;
      var n: nat :| FourFruitless(up, n, reached);
      assert FourInVain(net, n, ByteRange(reached, block.end), |origin|);
    }
  }

  /** And it does fail then: when the first four requests bring nothing, nothing is built. */
  lemma FourInVainFail(net: Network, origin: seq<Byte>, block: ByteRange)
    requires HonestNetwork(net, origin) && Stages(net) && NonEmpty(block) && FourInVain(net, 0, block, |origin|)
    ensures Build(net, block, |origin|) == Built([], false)
  {
    AttemptsProgress(net, origin, block.end);
    FourFruitlessEnd(Attempts(net, block.end, |origin|), block.start, block.end, 0);
  }

  /** Staging works, no body goes past the range, and of any four requests in a row for a range one brings a byte. */
  ghost predicate Persists(net: Network, size: int) {
    && Stages(net)
    && (forall n: nat, r: ByteRange :: 0 <= r.start <= r.end < size && Progresses(net, n, r, size)
          ==> |Opened(net(n, r).response, r, size).value| <= r.Length())
    && (forall r: ByteRange :: 0 <= r.start <= r.end < size ==> !SomeFourInVain(net, r, size))
  }

  /** A network that fails, breaks off or answers short, but never four times in a row without a byte, gets every block built. */
  lemma PersistentNetworkBuilds(net: Network, origin: seq<Byte>, block: ByteRange)
    requires HonestNetwork(net, origin) && Persists(net, |origin|) && 0 <= block.start <= block.end < |origin|
    ensures Build(net, block, |origin|).reachedEnd && |Build(net, block, |origin|).bytes| == block.Length()
  {
    var up := Attempts(net, block.end, |origin|);
    FailsOnlyAfterFour(net, origin, block);
    BuildMatchesOrigin(net, origin, block);
    AttemptsProgress(net, origin, block.end);
    PersistentFits(net, origin, block);
    LoopStagesNoMore(up, block.start, block.start, block.end, 0, 0);
  }

  lemma PersistentFits(net: Network, origin: seq<Byte>, block: ByteRange)
    requires HonestNetwork(net, origin) && Persists(net, |origin|) && 0 <= block.start <= block.end < |origin|
    ensures Fits(Attempts(net, block.end, |origin|), block.start, block.end)
  {
    var up := Attempts(net, block.end, |origin|);
    forall n: nat, offset: int | block.start <= offset <= block.end && Fruitful(up, n, offset)
      ensures |Bytes(up(n, offset).steps)| <= block.end + 1 - offset
    {
      var r := ByteRange(offset, block.end);
      assert Progresses(net, n, r, |origin|);
      assert IsReading(net(n, r).steps, Opened(net(n, r).response, r, |origin|).value);
    }
  }
}
