/** Building a head or tail block while answering from it: resume on failure, survive a disconnect, commit only the whole. */
module BlockBuild {
  import opened Intervals
  import opened RangeText
  import opened OriginBody
  import opened Tables
  import opened Playback
  import opened DiskFiles
  import opened MiddleBlocks
  import opened EdgeBlocks

  /** One body.Read: its bytes, whether an error or EOF comes with them, and whether staging them works. */
  datatype ReadStep = ReadStep(data: seq<Byte>, ends: bool, stages: bool)

  /** One OpenRange: it fails, or gives a body that ends after the listed reads. */
  datatype Attempt = OpenFails | Opens(steps: seq<ReadStep>)

  /** What becomes of the n-th attempt, asked for the bytes from an offset on. */
  type Upstream = (nat, int) -> Attempt

  /** What the transport does with one request: no answer, or a response whose body, once opened, is read in the listed steps. */
  datatype Reply = NoReply | Reply(response: OriginResponse, steps: seq<ReadStep>)

  /** The origin's side of the wire: its reply to the n-th request for a range. */
  type Network = (nat, ByteRange) -> Reply

  /** The reads of one body put together. */
  function Bytes(steps: seq<ReadStep>): seq<Byte> {
    if steps == [] then [] else steps[0].data + Bytes(steps[1..])
  }

  /** The steps read all there is to read, in any pieces, and the end or an error comes with the last one only. */
  predicate IsReading(steps: seq<ReadStep>, bytes: seq<Byte>) {
    && steps != [] && Bytes(steps) == bytes
    && forall i :: 0 <= i < |steps| ==> (steps[i].ends <==> i == |steps| - 1)
  }

  /** All that is assumed of the origin: its responses tell the truth about the file, and an opened body is read as a body is. */
  ghost predicate HonestNetwork(net: Network, origin: seq<Byte>) {
    forall n: nat, r: ByteRange :: net(n, r).Reply? ==>
      && Honest(net(n, r).response, origin)
      && (Opened(net(n, r).response, r, |origin|).Some? ==>
            IsReading(net(n, r).steps, Opened(net(n, r).response, r, |origin|).value))
  }

  /** The attempts of a build that asks the network for the bytes up to end, each through OpenRange's checks. */
  function Attempts(net: Network, end: int, size: int): Upstream {
    (n: nat, offset: int) =>
      var r := ByteRange(offset, end);
      match net(n, r)
      case NoReply => OpenFails
      case Reply(response, steps) => if Opened(response, r, size).None? then OpenFails else Opens(steps)
  }

  lemma {:induction false} BytesSnoc(steps: seq<ReadStep>, step: ReadStep)
    ensures Bytes(steps + [step]) == Bytes(steps) + step.data
  {
    var all := steps + [step];
    if steps == [] {
      assert all[1..] == [];
    } else {
      assert all[1..] == steps[1..] + [step];
      BytesSnoc(steps[1..], step);
      ConcatAssoc(steps[0].data, Bytes(steps[1..]), step.data);
    }
  }

  /** Reading an opened body until it ends or breaks, with any buffer: the steps are always such a reading of what it holds. */
  method ReadToEnd(reader: Reader, bufferSize: nat) returns (steps: seq<ReadStep>)
    requires bufferSize > 0 && (reader.bounded ==> reader.remaining >= 0)
    modifies reader`remaining, reader.body
    ensures IsReading(steps, old(reader.Upcoming()))
  {
    steps := [];
    var ended := false;
    while !ended
      invariant reader.bounded ==> reader.remaining >= 0
      invariant Bytes(steps) + reader.Upcoming() == old(reader.Upcoming())
      invariant ended ==> steps != [] && reader.Upcoming() == []
      invariant forall i :: 0 <= i < |steps| ==> (steps[i].ends <==> ended && i == |steps| - 1)
      decreases if ended then 0 else 1, |reader.Upcoming()|
    {
      ghost var before := reader.Upcoming();
      var chunk, err := reader.Read(bufferSize);
      var stages := *;
      var step := ReadStep(chunk, err != Ok, stages);
      BytesSnoc(steps, step);
      ConcatAssoc(Bytes(steps), chunk, reader.Upcoming());
      assert err == Ok ==> |reader.Upcoming()| < |before|;
      steps := steps + [step];
      ended := err != Ok;
    }
  }

  /** The chunk read at offset is the origin's, as far as the block goes. */
  predicate ChunkOk(chunk: seq<Byte>, origin: seq<Byte>, offset: int, end: int) {
    forall i :: 0 <= i < |chunk| && 0 <= offset + i <= end && offset + i < |origin| ==> chunk[i] == origin[offset + i]
  }

  /** Bytes inside the asked range are the origin's; a body may still be short, broken or too long. */
  predicate HonestReads(steps: seq<ReadStep>, origin: seq<Byte>, offset: int, end: int)
    decreases |steps|
  {
    steps == [] ||
    (&& ChunkOk(steps[0].data, origin, offset, end)
     && HonestReads(steps[1..], origin, offset + |steps[0].data|, end))
  }

  ghost predicate HonestUpstream(up: Upstream, origin: seq<Byte>, end: int) {
    forall n: nat, offset: int :: up(n, offset).Opens? ==> HonestReads(up(n, offset).steps, origin, offset, end)
  }

  /** A body whose bytes agree with the origin from the asked offset on is honest chunk by chunk, however it is cut. */
  lemma {:induction false} ReadingIsHonest(steps: seq<ReadStep>, origin: seq<Byte>, offset: int, end: int)
    requires Agrees(Bytes(steps), origin, offset, end - offset + 1)
    ensures HonestReads(steps, origin, offset, end)
    decreases |steps|
  {
    if steps != [] {
      var first, rest := steps[0].data, Bytes(steps[1..]);
      forall i | 0 <= i < |first| && 0 <= offset + i <= end && offset + i < |origin|
        ensures first[i] == origin[offset + i]
      {
        assert Bytes(steps)[i] == first[i];
      }
      forall i | 0 <= i < |rest| && i < end - (offset + |first|) + 1 && 0 <= offset + |first| + i < |origin|
        ensures rest[i] == origin[offset + |first| + i]
      {
        assert Bytes(steps)[|first| + i] == rest[i];
      }
      ReadingIsHonest(steps[1..], origin, offset + |first|, end);
    }
  }

  /** What OpenRange establishes for every attempt of a build, a resume answered with a full 200 included. */
  lemma OpenedBodiesAreHonest(net: Network, origin: seq<Byte>, end: int)
    requires HonestNetwork(net, origin)
    ensures HonestUpstream(Attempts(net, end, |origin|), origin, end)
  {
    var up := Attempts(net, end, |origin|);
    forall n: nat, offset: int | up(n, offset).Opens?
      ensures HonestReads(up(n, offset).steps, origin, offset, end)
    {
      var r := ByteRange(offset, end);
      OpenedAgrees(net(n, r).response, r, |origin|, origin);
      ReadingIsHonest(net(n, r).steps, origin, offset, end);
    }
  }

  /** What one body adds to the staged bytes. */
  datatype BodyResult = BodyResult(bytes: seq<Byte>, stageFailed: bool)

  function ReadBody(steps: seq<ReadStep>, offset: int, end: int): BodyResult
    decreases |steps|
  {
    if offset > end || steps == [] then BodyResult([], false)
    else if steps[0].data != [] && !steps[0].stages then BodyResult([], true)
    else if steps[0].ends then BodyResult(steps[0].data, false)
    else
      var rest := ReadBody(steps[1..], offset + |steps[0].data|, end);
      rest.(bytes := steps[0].data + rest.bytes)
  }

  const MAX_RESUMES := 3

  datatype Built = Built(bytes: seq<Byte>, reachedEnd: bool)

  /**
   * The whole loop without a client: what is staged, and whether the end is reached. Every round either
   * moves the offset or uses up one of the resumes left, so (bytes left, resumes left) decreases.
   */
  function BuildLoop(up: Upstream, offset: int, end: int, resumes: nat, attempt: nat): Built
    requires resumes <= MAX_RESUMES
    decreases end + 1 - offset, MAX_RESUMES - resumes
  {
    if offset > end then Built([], true) else
      match up(attempt, offset)
      case OpenFails =>
        if resumes + 1 > MAX_RESUMES then Built([], false) else BuildLoop(up, offset, end, resumes + 1, attempt + 1)
      case Opens(steps) =>
        var body := ReadBody(steps, offset, end);
        var reached := offset + |body.bytes|;
        if body.stageFailed then Built(body.bytes, false)
        else if reached > end then Built(body.bytes, true)
        else
          var used := if body.bytes != [] then 0 else resumes + 1;
          if used > MAX_RESUMES then Built(body.bytes, false) else
            var rest := BuildLoop(up, reached, end, used, attempt + 1);
            rest.(bytes := body.bytes + rest.bytes)
  }

  lemma MatchesConcat(a: seq<Byte>, b: seq<Byte>, origin: seq<Byte>, start: int, end: int)
    requires ChunkOk(a, origin, start, end) && ChunkOk(b, origin, start + |a|, end)
    ensures ChunkOk(a + b, origin, start, end)
  {
    forall i | 0 <= i < |a + b| && 0 <= start + i <= end && start + i < |origin|
      ensures (a + b)[i] == origin[start + i]
    {
      if i >= |a| {
        assert (a + b)[i] == b[i - |a|];
        assert b[i - |a|] == origin[start + |a| + (i - |a|)];
      }
    }
  }

  lemma {:induction false} ReadBodyMatches(steps: seq<ReadStep>, origin: seq<Byte>, offset: int, end: int)
    requires HonestReads(steps, origin, offset, end)
    ensures ChunkOk(ReadBody(steps, offset, end).bytes, origin, offset, end)
    decreases |steps|
  {
    if offset <= end && steps != [] && (steps[0].data == [] || steps[0].stages) && !steps[0].ends {
      ReadBodyMatches(steps[1..], origin, offset + |steps[0].data|, end);
      MatchesConcat(steps[0].data, ReadBody(steps[1..], offset + |steps[0].data|, end).bytes, origin, offset, end);
    }
  }

  /** Over any sequence of open failures and short bodies, the staged bytes are the origin's, and success means the whole block. */
  lemma {:induction false} LoopMatchesOrigin(up: Upstream, origin: seq<Byte>, offset: int, end: int, resumes: nat, attempt: nat)
    requires resumes <= MAX_RESUMES && HonestUpstream(up, origin, end)
    ensures var built := BuildLoop(up, offset, end, resumes, attempt);
      && ChunkOk(built.bytes, origin, offset, end)
      && (built.reachedEnd ==> offset + |built.bytes| > end)
    decreases end + 1 - offset, MAX_RESUMES - resumes
  {
    if offset <= end {
      match up(attempt, offset)
      case OpenFails =>
        if resumes + 1 <= MAX_RESUMES { LoopMatchesOrigin(up, origin, offset, end, resumes + 1, attempt + 1); }
      case Opens(steps) =>
        ReadBodyMatches(steps, origin, offset, end);
        var body := ReadBody(steps, offset, end);
        var reached := offset + |body.bytes|;
        var used := if body.bytes != [] then 0 else resumes + 1;
        if !body.stageFailed && reached <= end && used <= MAX_RESUMES {
          LoopMatchesOrigin(up, origin, reached, end, used, attempt + 1);
          MatchesConcat(body.bytes, BuildLoop(up, reached, end, used, attempt + 1).bytes, origin, offset, end);
        }
    }
  }

  /** What building a block from the network comes to. */
  function Build(net: Network, block: ByteRange, size: int): Built {
    BuildLoop(Attempts(net, block.end, size), block.start, block.end, 0, 0)
  }

  /** Whatever a truthful origin does, partial and full answers, failures and short bodies, what a build stages is the origin's. */
  lemma BuildMatchesOrigin(net: Network, origin: seq<Byte>, r: ByteRange)
    requires HonestNetwork(net, origin)
    ensures var built := Build(net, r, |origin|);
      && ChunkOk(built.bytes, origin, r.start, r.end)
      && (built.reachedEnd ==> r.start + |built.bytes| > r.end)
  {
    OpenedBodiesAreHonest(net, origin, r.end);
    LoopMatchesOrigin(Attempts(net, r.end, |origin|), origin, r.start, r.end, 0, 0);
  }

  /** A commit installs exactly the block, or is refused because the origin sent too much. */
  lemma WholeBlockOnly(net: Network, origin: seq<Byte>, r: ByteRange)
    requires 0 <= r.start <= r.end < |origin| && HonestNetwork(net, origin)
    ensures var built := Build(net, r, |origin|);
      && (|built.bytes| == r.Length() ==> built.bytes == Slice(origin, r))
      && (built.reachedEnd ==> |built.bytes| >= r.Length() && built.bytes[..r.Length()] == Slice(origin, r))
  {
    BuildMatchesOrigin(net, origin, r);
  }

  /** The network answers every request in full, and staging works. */
  ghost predicate Works(net: Network, size: int) {
    forall n: nat, r: ByteRange :: 0 <= r.start <= r.end < size ==>
      && net(n, r).Reply? && Answers(net(n, r).response, r, size)
      && forall i :: 0 <= i < |net(n, r).steps| ==> net(n, r).steps[i].stages
  }

  lemma {:induction false} WholeBodyRead(steps: seq<ReadStep>, offset: int, end: int)
    requires |Bytes(steps)| == Max(0, end - offset + 1)
    requires forall i :: 0 <= i < |steps| ==> steps[i].stages && (steps[i].ends ==> i == |steps| - 1)
    ensures ReadBody(steps, offset, end) == BodyResult(Bytes(steps), false)
    decreases |steps|
  {
    if offset <= end && steps != [] {
      if steps[0].ends {
        assert steps[1..] == [];
        assert steps[0].data + [] == steps[0].data;
      } else {
        WholeBodyRead(steps[1..], offset + |steps[0].data|, end);
      }
    }
  }

  /** When the network works, a build ends at the first attempt with exactly the block. */
  lemma WorkingNetworkBuilds(net: Network, origin: seq<Byte>, block: ByteRange)
    requires HonestNetwork(net, origin) && Works(net, |origin|) && 0 <= block.start <= block.end < |origin|
    ensures Build(net, block, |origin|).reachedEnd && |Build(net, block, |origin|).bytes| == block.Length()
  {
    var reply := net(0, block);
    assert Answers(reply.response, block, |origin|);
    assert |Opened(reply.response, block, |origin|).value| == block.Length();
    WholeBodyRead(reply.steps, block.start, block.end);
  }

  datatype BuildResult = Committed | CommittedAfterDisconnect | BuildFailed

  /** How much of the response range has been passed when the build stands at offset. */
  function Passed(response: ByteRange, offset: int): int {
    if offset <= response.start then 0 else Min(offset, response.end + 1) - response.start
  }

  /** The client side of the loop: the connection, and whether it has broken. */
  class Responder {
    const client: Client?
    const range: ByteRange
    var broken: bool

    constructor (client: Client?, range: ByteRange)
      ensures this.client == client && this.range == range && !broken
    {
      this.client, this.range := client, range;
      broken := false;
    }

    /** The client has what the response range asked for so far, or a prefix of it once the connection broke. */
    ghost predicate Served(offset: int, origin: seq<Byte>, base: seq<Byte>)
      reads this, client
    {
      if client == null || !NonEmpty(range) then !broken && (client != null ==> client.received == base)
      else
        && 0 <= range.start && range.end < |origin|
        && base <= client.received <= base + Slice(origin, range)
        && (!broken ==> client.received == base + Slice(origin, range)[..Passed(range, offset)])
        && (broken ==> !client.steady)
    }

    /** Forward the part of the chunk that the request asked for; a failed write is remembered and ends forwarding. */
    method Forward(chunk: seq<Byte>, offset: int, end: int, ghost origin: seq<Byte>, ghost base: seq<Byte>)
      requires Served(offset, origin, base) && ChunkOk(chunk, origin, offset, end)
      requires client != null && NonEmpty(range) ==> range.end <= end
      modifies this, client
      ensures Served(offset + |chunk|, origin, base)
    {
      if broken || client == null || range.end < range.start || chunk == [] { return; }
      var overlapStart := Max(offset, range.start);
      var overlapEnd := Min(offset + |chunk| - 1, range.end);
      if overlapStart <= overlapEnd {
        var piece := chunk[overlapStart - offset..overlapEnd - offset + 1];
        OverlapIsSlice(chunk, offset, end, origin, range, ByteRange(overlapStart, overlapEnd));
        ghost var before, slice := client.received, Slice(origin, range);
        PieceExtends(piece, base, slice, Passed(range, offset), Passed(range, offset + |chunk|));
        var ok := client.Write(piece);
        if !ok {
          broken := true;
          PrefixExtends(client.received, before, piece, base + slice);
        }
      } else {
        NoOverlap(range, offset, |chunk|);
      }
    }
  }

  lemma NoOverlap(range: ByteRange, offset: int, n: nat)
    requires NonEmpty(range) && Max(offset, range.start) > Min(offset + n - 1, range.end)
    ensures Passed(range, offset) == Passed(range, offset + n)
  {
  }

  /** The overlap of a chunk with the response range is the next part of the answer. */
  lemma OverlapIsSlice(chunk: seq<Byte>, offset: int, end: int, origin: seq<Byte>, range: ByteRange, part: ByteRange)
    requires ChunkOk(chunk, origin, offset, end) && 0 <= range.start && range.end <= end && range.end < |origin|
    requires part == ByteRange(Max(offset, range.start), Min(offset + |chunk| - 1, range.end)) && NonEmpty(part)
    ensures Passed(range, offset) == part.start - range.start && Passed(range, offset + |chunk|) == part.end - range.start + 1
    ensures offset <= part.start && part.end < offset + |chunk| && part.Within(range)
    ensures chunk[part.start - offset..part.end - offset + 1] == Slice(origin, range)[Passed(range, offset)..Passed(range, offset + |chunk|)]
  {
    ChunkSlice(chunk, origin, offset, end, part);
    SliceOfSlice(origin, range, part);
  }

  lemma ChunkSlice(chunk: seq<Byte>, origin: seq<Byte>, offset: int, end: int, part: ByteRange)
    requires ChunkOk(chunk, origin, offset, end) && 0 <= part.start <= part.end <= end && part.end < |origin|
    requires offset <= part.start && part.end < offset + |chunk|
    ensures chunk[part.start - offset..part.end - offset + 1] == Slice(origin, part)
  {
    var a, b := chunk[part.start - offset..part.end - offset + 1], Slice(origin, part);
    forall j | 0 <= j < |a|
      ensures a[j] == b[j]
    {
      assert a[j] == chunk[part.start - offset + j];
    }
  }

  /** The answer so far, followed by the overlap, is the answer after the chunk. */
  lemma PieceExtends(piece: seq<Byte>, base: seq<Byte>, slice: seq<Byte>, from: nat, to: nat)
    requires from <= to <= |slice| && piece == slice[from..to]
    ensures base + slice[..from] + piece == base + slice[..to]
    ensures base + slice[..to] <= base + slice
  {
  }

  /** One read of the body: stage it, then forward what the request asked for. */
  method CopyChunk(writer: BlockWriter, responder: Responder, step: ReadStep, offset: int, end: int,
                   ghost origin: seq<Byte>, ghost base: seq<Byte>)
    returns (written: bool)
    requires writer.Valid() && !writer.closed && ChunkOk(step.data, origin, offset, end)
    requires responder.Served(offset, origin, base)
    requires responder.client != null && NonEmpty(responder.range) ==> responder.range.end <= end
    modifies writer, responder, responder.client
    ensures writer.Valid() && !writer.closed
    ensures written <==> step.data == [] || step.stages
    ensures writer.staged == if written then old(writer.staged) + step.data else old(writer.staged)
    ensures responder.Served(if written then offset + |step.data| else offset, origin, base)
  {
    if |step.data| == 0 { return true; }
    written := writer.Write(step.data, step.stages);
    if written { responder.Forward(step.data, offset, end, origin, base); }
  }

  /** The inner loop of buildHeadTailBlock over one body. */
  method CopyBody(writer: BlockWriter, responder: Responder, steps: seq<ReadStep>, start: int, end: int,
                  ghost origin: seq<Byte>, ghost base: seq<Byte>)
    returns (offset: int, stageFailed: bool)
    requires writer.Valid() && !writer.closed && HonestReads(steps, origin, start, end)
    requires responder.Served(start, origin, base)
    requires responder.client != null && NonEmpty(responder.range) ==> responder.range.end <= end
    modifies writer, responder, responder.client
    ensures writer.Valid() && !writer.closed
    ensures BodyResult(writer.staged, stageFailed) == Continued(old(writer.staged), ReadBody(steps, start, end))
    ensures offset == start + |writer.staged| - |old(writer.staged)|
    ensures responder.Served(offset, origin, base)
  {
    offset, stageFailed := start, false;
    ghost var target := Continued(writer.staged, ReadBody(steps, start, end));
    var i := 0;
    var ended := false;
    assert steps[0..] == steps;
    while offset <= end && i < |steps| && !ended
      invariant 0 <= i <= |steps| && writer.Valid() && !writer.closed
      invariant HonestReads(steps[i..], origin, offset, end)
      invariant offset == start + |writer.staged| - |old(writer.staged)|
      invariant OnCourse(target, writer.staged, steps[i..], offset, end, ended)
      invariant responder.Served(offset, origin, base)
    {
      NextStep(target, writer.staged, steps, i, origin, offset, end);
      var written := CopyChunk(writer, responder, steps[i], offset, end, origin, base);
      if !written { return offset, true; }
      offset := offset + |steps[i].data|;
      ended := steps[i].ends;
      i := i + 1;
    }
  }

  /** With these bytes staged and these reads to come, the body ends as the target says. */
  predicate OnCourse(target: BodyResult, staged: seq<Byte>, rest: seq<ReadStep>, offset: int, end: int, ended: bool) {
    target == if ended then BodyResult(staged, false) else Continued(staged, ReadBody(rest, offset, end))
  }

  lemma NextStep(target: BodyResult, staged: seq<Byte>, steps: seq<ReadStep>, i: nat, origin: seq<Byte>, offset: int, end: int)
    requires i < |steps| && offset <= end
    requires HonestReads(steps[i..], origin, offset, end) && OnCourse(target, staged, steps[i..], offset, end, false)
    ensures ChunkOk(steps[i].data, origin, offset, end) && HonestReads(steps[i + 1..], origin, offset + |steps[i].data|, end)
    ensures if steps[i].data != [] && !steps[i].stages then target == BodyResult(staged, true)
            else OnCourse(target, staged + steps[i].data, steps[i + 1..], offset + |steps[i].data|, end, steps[i].ends)
  {
    assert steps[i..][1..] == steps[i + 1..] && steps[i..][0] == steps[i];
    ContinuedOnce(staged, steps[i..], offset, end);
  }

  /** Bytes already copied, followed by what is left of the body. */
  function Continued(copied: seq<Byte>, rest: BodyResult): BodyResult { rest.(bytes := copied + rest.bytes) }

  lemma ContinuedOnce(copied: seq<Byte>, steps: seq<ReadStep>, offset: int, end: int)
    requires offset <= end && steps != []
    ensures var step, body := steps[0], Continued(copied, ReadBody(steps, offset, end));
      if step.data != [] && !step.stages then body == BodyResult(copied, true)
      else if step.ends then body == BodyResult(copied + step.data, false)
      else body == Continued(copied + step.data, ReadBody(steps[1..], offset + |step.data|, end))
  {
    ConcatAssoc(copied, steps[0].data, ReadBody(steps[1..], offset + |steps[0].data|, end).bytes);
  }

  /** The directory with the block and its sidecar in place. */
  function Installed(files: Files, key: Key, name: BlockName, block: ByteRange, origin: seq<Byte>): Files
    requires 0 <= block.start <= block.end < |origin|
  {
    files[EdgeBin(key, name) := Data(Slice(origin, block))][EdgeSidecar(key, name) := Text(PrintSidecar(block))]
  }

  /** The directory after an eviction that found some order of the files' times. */
  ghost predicate WasEvicted(files: Files, before: Files, maxBytes: int, reliable: bool) {
    exists listing :: IsListing(listing, before) && AfterEviction(files, before, listing, Evicting(listing, maxBytes), reliable)
  }

  /** buildHeadTailBlock. */
  method BuildHeadTailBlock(cache: EdgeCache, net: Network, size: int, key: Key, name: BlockName, block: ByteRange,
                            response: ByteRange, client: Client?)
    returns (result: BuildResult, diskFailed: bool)
    requires cache.disk.Ok() && EdgeRange(name, block, |cache.disk.origins(key)|) && |cache.disk.origins(key)| <= MAX_INT64
    requires HonestNetwork(net, cache.disk.origins(key)) && size == |cache.disk.origins(key)|
    requires client != null && NonEmpty(response) ==> response.Within(block)
    modifies cache.disk, client
    ensures cache.disk.Ok() && (diskFailed ==> !cache.disk.reliable)
    ensures client != null && client.steady ==> result != CommittedAfterDisconnect
    ensures var built := Build(net, block, size);
      && (!(built.reachedEnd && |built.bytes| == block.Length()) ==> result == BuildFailed && cache.disk.files == old(cache.disk.files))
      && (!diskFailed && built.reachedEnd && |built.bytes| == block.Length() ==> result != BuildFailed)
    ensures result != BuildFailed ==>
      WasEvicted(cache.disk.files, Installed(old(cache.disk.files), key, name, block, cache.disk.origins(key)), cache.maxBytes, cache.disk.reliable)
    ensures client != null && NonEmpty(response) ==>
      && old(client.received) <= client.received <= old(client.received) + Slice(cache.disk.origins(key), response)
      && (result == Committed ==> client.received == old(client.received) + Slice(cache.disk.origins(key), response))
    ensures client == null || !NonEmpty(response) ==> result != CommittedAfterDisconnect && (client != null ==> client.received == old(client.received))
  {
    ghost var origin, base := cache.disk.origins(key), if client == null then [] else client.received;
    WholeBlockOnly(net, origin, block);
    var ready := cache.disk.Works();
    if !ready { return BuildFailed, true; }
    var writer := new BlockWriter(cache.disk, key, name, block);
    var responder := new Responder(client, response);
    var staged := StageBlock(writer, responder, net, size, block, origin, base);
    if !staged { return BuildFailed, false; }
    var committed := writer.Commit();
    if !committed { return BuildFailed, |writer.staged| == block.Length(); }
    assert cache.disk.files == Installed(old(cache.disk.files), key, name, block, origin);
    var listing := cache.EvictIfNeeded();
    if responder.broken { return CommittedAfterDisconnect, false; }
    return Committed, false;
  }

  /** Bytes already staged, followed by what the rest of the loop adds. */
  function Extended(staged: seq<Byte>, rest: Built): Built { rest.(bytes := staged + rest.bytes) }

  /** One round of the loop, after the bytes already staged. */
  lemma ExtendedOnce(staged: seq<Byte>, up: Upstream, offset: int, end: int, resumes: nat, attempt: nat)
    requires resumes <= MAX_RESUMES && offset <= end
    ensures var target := Extended(staged, BuildLoop(up, offset, end, resumes, attempt));
      match up(attempt, offset)
      case OpenFails =>
        target == if resumes + 1 > MAX_RESUMES then Built(staged, false)
                  else Extended(staged, BuildLoop(up, offset, end, resumes + 1, attempt + 1))
      case Opens(steps) =>
        var body := ReadBody(steps, offset, end);
        var now, reached, used := staged + body.bytes, offset + |body.bytes|, if body.bytes != [] then 0 else resumes + 1;
        target == if body.stageFailed then Built(now, false)
                  else if reached > end then Built(now, true)
                  else if used > MAX_RESUMES then Built(now, false)
                  else Extended(now, BuildLoop(up, reached, end, used, attempt + 1))
  {
    match up(attempt, offset)
    case OpenFails => assert staged + [] == staged;
    case Opens(steps) =>
      var body := ReadBody(steps, offset, end);
      var reached, used := offset + |body.bytes|, if body.bytes != [] then 0 else resumes + 1;
      if !body.stageFailed && reached <= end && used <= MAX_RESUMES {
        ConcatAssoc(staged, body.bytes, BuildLoop(up, reached, end, used, attempt + 1).bytes);
      }
  }

  /** One OpenRange of the build: the reads of the body it opened, None when there is none. */
  method OpenAttempt(net: Network, attempt: nat, r: ByteRange, size: int, ghost up: Upstream, ghost origin: seq<Byte>)
    returns (steps: Option<seq<ReadStep>>)
    requires HonestNetwork(net, origin) && |origin| == size && up == Attempts(net, r.end, size)
    ensures up(attempt, r.start) == if steps.Some? then Opens(steps.value) else OpenFails
  {
    var reply := net(attempt, r);
    if reply.NoReply? { return None; }
    var reader := OpenRange(reply.response, r, size, origin);
    if reader.None? { return None; }
    return Some(reply.steps);
  }

  /** One opened body: copy it, and decide whether the loop is over or how many resumes are used up. */
  method StageBody(writer: BlockWriter, responder: Responder, steps: seq<ReadStep>, start: int, end: int, resumes: nat,
                   ghost up: Upstream, ghost attempt: nat, ghost origin: seq<Byte>, ghost base: seq<Byte>)
    returns (offset: int, used: nat, over: Option<bool>)
    requires writer.Valid() && !writer.closed && resumes <= MAX_RESUMES && start <= end
    requires HonestUpstream(up, origin, end) && up(attempt, start) == Opens(steps)
    requires responder.Served(start, origin, base)
    requires responder.client != null && NonEmpty(responder.range) ==> responder.range.end <= end
    modifies writer, responder, responder.client
    ensures writer.Valid() && !writer.closed && responder.Served(offset, origin, base)
    ensures offset == start + |writer.staged| - |old(writer.staged)| && offset >= start
    ensures over.Some? ==>
      Extended(old(writer.staged), BuildLoop(up, start, end, resumes, attempt)) == Built(writer.staged, over.value)
    ensures over.None? ==>
      && offset <= end && used <= MAX_RESUMES && (offset > start || used == resumes + 1)
      && Extended(old(writer.staged), BuildLoop(up, start, end, resumes, attempt))
         == Extended(writer.staged, BuildLoop(up, offset, end, used, attempt + 1))
  {
    ExtendedOnce(writer.staged, up, start, end, resumes, attempt);
    var stageFailed: bool;
    offset, stageFailed := CopyBody(writer, responder, steps, start, end, origin, base);
    used := if offset > start then 0 else resumes + 1;
    if stageFailed { return offset, used, Some(false); }
    if offset > end { return offset, used, Some(true); }
    if used > MAX_RESUMES { return offset, used, Some(false); }
    over := None;
  }

  /** One round of the loop: open, and copy what was opened or count the failure. */
  method StageRound(writer: BlockWriter, responder: Responder, net: Network, size: int, start: int, end: int, resumes: nat,
                    attempt: nat, ghost up: Upstream, ghost origin: seq<Byte>, ghost base: seq<Byte>)
    returns (offset: int, used: nat, over: Option<bool>)
    requires writer.Valid() && !writer.closed && resumes <= MAX_RESUMES && start <= end
    requires HonestNetwork(net, origin) && size == |origin| && up == Attempts(net, end, size) && HonestUpstream(up, origin, end)
    requires responder.Served(start, origin, base)
    requires responder.client != null && NonEmpty(responder.range) ==> responder.range.end <= end
    modifies writer, responder, responder.client
    ensures writer.Valid() && !writer.closed && responder.Served(offset, origin, base)
    ensures offset == start + |writer.staged| - |old(writer.staged)| && offset >= start
    ensures over.Some? ==>
      Extended(old(writer.staged), BuildLoop(up, start, end, resumes, attempt)) == Built(writer.staged, over.value)
    ensures over.None? ==>
      && offset <= end && used <= MAX_RESUMES && (offset > start || used == resumes + 1)
      && Extended(old(writer.staged), BuildLoop(up, start, end, resumes, attempt))
         == Extended(writer.staged, BuildLoop(up, offset, end, used, attempt + 1))
  {
    var steps := OpenAttempt(net, attempt, ByteRange(start, end), size, up, origin);
    if steps.Some? {
      offset, used, over := StageBody(writer, responder, steps.value, start, end, resumes, up, attempt, origin, base);
      return;
    }
    ExtendedOnce(writer.staged, up, start, end, resumes, attempt);
    offset, used := start, resumes + 1;
    over := if used > MAX_RESUMES then Some(false) else None;
  }

  /** The outer loop of buildHeadTailBlock. */
  method StageBlock(writer: BlockWriter, responder: Responder, net: Network, size: int, block: ByteRange,
                    ghost origin: seq<Byte>, ghost base: seq<Byte>)
    returns (staged: bool)
    requires writer.Valid() && !writer.closed && writer.staged == [] && HonestNetwork(net, origin) && size == |origin|
    requires responder.Served(block.start, origin, base)
    requires responder.client != null && NonEmpty(responder.range) ==> responder.range.Within(block)
    modifies writer, responder, responder.client
    ensures writer.Valid() && !writer.closed
    ensures Built(writer.staged, staged) == Build(net, block, size)
    ensures responder.Served(block.start + |writer.staged|, origin, base)
  {
    ghost var up, target := Attempts(net, block.end, size), Build(net, block, size);
    OpenedBodiesAreHonest(net, origin, block.end);
    assert Extended([], target) == target by { assert [] + target.bytes == target.bytes; }
    var offset, resumes: nat, attempt: nat := block.start, 0, 0;
    while offset <= block.end
      invariant writer.Valid() && !writer.closed && offset == block.start + |writer.staged| && resumes <= MAX_RESUMES
      invariant target == Extended(writer.staged, BuildLoop(up, offset, block.end, resumes, attempt))
      invariant responder.Served(offset, origin, base)
      decreases block.end + 1 - offset, MAX_RESUMES - resumes
    {
      var over: Option<bool>;
      offset, resumes, over := StageRound(writer, responder, net, size, offset, block.end, resumes, attempt, up, origin, base);
      if over.Some? { return over.value; }
      attempt := attempt + 1;
    }
    assert writer.staged + [] == writer.staged;
    return true;
  }
}
