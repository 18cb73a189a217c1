/** The middle block cache: publication, stitched reads and eviction over the store and the disk. */
module MiddleBlocks {
  import opened Intervals
  import opened Ordering
  import opened RangeText
  import opened OriginBody
  import opened Tables
  import opened StateStore
  import opened DiskFiles
  import opened Stitching
  import opened Lru

  /** validRecord */
  predicate ValidRecord(b: Block) {
    && 0 <= b.id.start <= b.id.end
    && b.size == b.id.Range().Length()
    && b.path == b.id
  }

  /** validFiles: the file has the recorded size and the sidecar names the recorded range. */
  predicate ValidFiles(b: Block, files: Files) {
    && MiddleBin(b.path) in files && files[MiddleBin(b.path)].Data? && |files[MiddleBin(b.path)].bytes| == b.size
    && MiddleSidecar(b.path) in files && files[MiddleSidecar(b.path)].Text?
    && ReadSidecar(files[MiddleSidecar(b.path)].text) == Some(b.id.Range())
  }

  predicate Usable(b: Block, files: Files, now: Instant) {
    ValidRecord(b) && now < b.expiresAt && ValidFiles(b, files)
  }

  /** A client connection: what has arrived, and writes that may break off part-way. */
  class Client {
    /** The connection never breaks. */
    const steady: bool
    var received: seq<Byte>

    constructor (steady: bool)
      ensures this.steady == steady && received == []
    {
      this.steady := steady;
      received := [];
    }

    method Write(chunk: seq<Byte>) returns (ok: bool)
      modifies this
      ensures old(received) <= received <= old(received) + chunk
      ensures ok ==> received == old(received) + chunk
      ensures steady ==> ok
    {
      ok := *;
      ok := ok || steady;
      if ok {
        received := received + chunk;
      } else {
        var n: nat := 0;
        if |chunk| > 0 { n :| 0 <= n <= |chunk|; }
        received := received + chunk[..n];
      }
    }

    /** One write of the next part of an answer, of which the client has the part copied so far. */
    method WriteNext(chunk: seq<Byte>, ghost before: seq<Byte>, ghost copied: seq<Byte>, ghost answer: seq<Byte>)
      returns (ok: bool)
      requires received == before + copied && copied + chunk <= answer
      modifies this
      ensures before <= received <= before + answer
      ensures ok ==> received == before + (copied + chunk)
      ensures steady ==> ok
    {
      ConcatAssoc(before, copied, chunk);
      ghost var base := received;
      ok := Write(chunk);
      PrefixExtends(received, base, chunk, before + answer);
    }
  }

  class MiddleCache {
    const store: Store
    const disk: Disk
    const maxBytes: int
    const ttlSeconds: int

    constructor (store: Store, disk: Disk, maxBytes: int, ttlSeconds: int)
      ensures this.store == store && this.disk == disk && this.maxBytes == maxBytes && this.ttlSeconds == ttlSeconds
    {
      this.store, this.disk, this.maxBytes, this.ttlSeconds := store, disk, maxBytes, ttlSeconds;
    }

    ghost predicate Ok()
      reads store, disk
    {
      disk.Ok() && Keyed(store.AsDb())
    }

    method RemoveBlock(record: Block)
      requires Ok()
      modifies store, disk
      ensures Ok() && store.AsDb() == DeleteBlock(old(store.AsDb()), record.id)
      ensures !ValidRecord(record) ==> disk.files == old(disk.files)
      ensures disk.reliable && ValidRecord(record) ==>
        disk.files == old(disk.files) - {MiddleBin(record.id)} - {MiddleSidecar(record.id)}
      ensures OnlyItsFilesGone(disk.files, old(disk.files), record.id)
    {
      if ValidRecord(record) {
        disk.Remove(MiddleBin(record.path));
        disk.Remove(MiddleSidecar(record.path));
      }
      store.DeleteMiddleBlockRecord(record.id);
    }

    /** EvictExpired removes exactly the rows whose time has come. */
    method EvictExpired(now: Instant) returns (removed: nat)
      requires Ok()
      modifies store, disk
      ensures Ok()
      ensures store.AsDb() == old(store.AsDb()).(blocks := map b | b in old(store.blocks) && now < old(store.blocks)[b].expiresAt :: old(store.blocks)[b])
      ensures removed == |set b | b in old(store.blocks) && old(store.blocks)[b].expiresAt <= now :: old(store.blocks)[b]|
    {
      ghost var before := store.AsDb();
      ghost var expired := set b | b in before.blocks && before.blocks[b].expiresAt <= now :: before.blocks[b];
      var records := store.ExpiredMiddleBlocks(now);
      ListingSize(records, expired, ExpiryLe);
      removed := 0;
      for i := 0 to |records|
        invariant Ok() && removed == i
        invariant store.AsDb() == before.(blocks := Without(before.blocks, records[..i]))
      {
        var record := records[i];
        assert record in expired;
        RemoveBlock(record);
        assert records[..i + 1] == records[..i] + [record];
        assert store.blocks == Without(before.blocks, records[..i + 1]);
        removed := removed + 1;
      }
      assert records[..|records|] == records;
      assert forall b :: b in before.blocks ==> (before.blocks[b] in records <==> before.blocks[b].expiresAt <= now);
    }

    /** EvictLRUIfNeeded: the Go loop, which reads the total and the order again in every round. */
    method EvictLruIfNeeded() returns (removed: nat)
      requires Ok()
      modifies store, disk
      ensures Ok() && BlocksKeyed(old(store.blocks))
      ensures store.AsDb() == old(store.AsDb()).(blocks := Evicted(old(store.blocks), maxBytes))
      ensures removed == |old(store.blocks)| - |store.blocks|
    {
      ghost var before := store.AsDb();
      removed := 0;
      while true
        invariant Ok() && removed == |before.blocks| - |store.blocks|
        invariant store.AsDb() == before.(blocks := store.blocks)
        invariant Evicted(store.blocks, maxBytes) == Evicted(before.blocks, maxBytes)
        decreases |store.blocks|
      {
        var total := store.MiddleCacheBytes();
        if total <= maxBytes { return; }
        var records := store.LeastRecentMiddleBlocks();
        NonEmptyOrder(store.blocks);
        if |records| == 0 { return; }
        EvictRound(store.blocks, records, maxBytes);
        RemoveBlock(records[0]);
        removed := removed + 1;
      }
    }

    /** evict_lru_if_needed: the Python loop over one snapshot of the order takes the same blocks. */
    method PyEvictLruIfNeeded() returns (removed: nat)
      requires Ok() && maxBytes >= 0
      modifies store, disk
      ensures Ok() && BlocksKeyed(old(store.blocks))
      ensures store.AsDb() == old(store.AsDb()).(blocks := Evicted(old(store.blocks), maxBytes))
      ensures removed == |old(store.blocks)| - |store.blocks|
    {
      ghost var before := store.AsDb();
      var records := store.LeastRecentMiddleBlocks();
      removed := 0;
      var i := 0;
      while i < |records|
        invariant 0 <= i <= |records| && Ok() && removed == |before.blocks| - |store.blocks|
        invariant store.AsDb() == before.(blocks := store.blocks)
        invariant LruOrder(store.blocks) == records[i..]
        invariant Evicted(store.blocks, maxBytes) == Evicted(before.blocks, maxBytes)
      {
        var total := store.MiddleCacheBytes();
        if total <= maxBytes { return; }
        EvictRound(store.blocks, records[i..], maxBytes);
        assert records[i..][0] == records[i] && records[i..][1..] == records[i + 1..];
        RemoveBlock(records[i]);
        removed := removed + 1;
        i := i + 1;
      }
      NonEmptyOrder(store.blocks);
    }

    /**
     * coveringSpans: it succeeds exactly when the records cover the request and those it takes spans from are usable,
     * whatever the others are; on success nothing changed, otherwise the refused record is removed.
     */
    method CoveringSpans(records: seq<Block>, requested: ByteRange, now: Instant) returns (spans: seq<Span>, ok: bool)
      requires Ok() && NonEmpty(requested)
      modifies store, disk
      ensures Ok()
      ensures ok <==> AllUsable(CoverFrom(records, requested.end, requested.start), old(disk.files), now)
      ensures ok ==> CoverFrom(records, requested.end, requested.start) == Some(spans)
      ensures ok ==> store.AsDb() == old(store.AsDb()) && disk.files == old(disk.files)
      ensures Thinned(store.AsDb(), old(store.AsDb()))
      ensures !ok ==> MissEffect(records, store.AsDb(), disk.files, old(store.AsDb()), old(disk.files), now)
    {
      var expected := requested.start;
      spans := [];
      var i := 0;
      assert records[0..] == records;
      PrefixedNothing(CoverFrom(records, requested.end, requested.start));
      while i < |records|
        invariant 0 <= i <= |records| && expected <= requested.end
        invariant Ok() && store.AsDb() == old(store.AsDb()) && disk.files == old(disk.files)
        invariant CoverFrom(records, requested.end, requested.start)
               == Prefixed(spans, CoverFrom(records[i..], requested.end, expected))
        invariant forall j :: 0 <= j < |spans| ==> Usable(spans[j].record, disk.files, now)
      {
        var record := records[i];
        assert records[i..][1..] == records[i + 1..];
        i := i + 1;
        if record.id.end < expected { continue; }
        if record.id.start > expected { return [], false; }
        ghost var all := CoverFrom(records, requested.end, requested.start);
        assert all.Some? ==> |spans| < |all.value| && all.value[|spans|].record == record;
        var usable := CheckRecord(record, now);
        if !usable {
          assert records[i - 1] == record;
          return [], false;
        }
        var spanEnd := Min(record.id.end, requested.end);
        PrefixedOne(spans, Span(record, ByteRange(expected, spanEnd)), CoverFrom(records[i..], requested.end, spanEnd + 1));
        spans := spans + [Span(record, ByteRange(expected, spanEnd))];
        if spanEnd >= requested.end { return spans, true; }
        expected := spanEnd + 1;
      }
      return [], false;
    }

    /** The checks coveringSpans makes before it takes a span from a record; a refused record is removed. */
    method CheckRecord(record: Block, now: Instant) returns (usable: bool)
      requires Ok()
      modifies store, disk
      ensures Ok() && (usable <==> Usable(record, old(disk.files), now))
      ensures usable ==> store.AsDb() == old(store.AsDb()) && disk.files == old(disk.files)
      ensures !usable ==> store.AsDb() == DeleteBlock(old(store.AsDb()), record.id) && OnlyItsFilesGone(disk.files, old(disk.files), record.id)
    {
      if !ValidRecord(record) {
        store.DeleteMiddleBlockRecord(record.id);
        return false;
      }
      if record.expiresAt <= now {
        RemoveBlock(record);
        return false;
      }
      if !ValidFiles(record, disk.files) {
        RemoveBlock(record);
        return false;
      }
      return true;
    }

    /** IterBlock up to the first read: find, choose and touch the spans. */
    method FindSpans(key: Key, requested: ByteRange, now: Instant) returns (spans: Option<seq<Span>>)
      requires Ok()
      modifies store, disk
      ensures Ok()
      ensures spans.Some? <==>
        (0 <= requested.start <= requested.end && AllUsable(Chosen(old(store.AsDb()), key, requested), old(disk.files), now))
      ensures spans.Some? ==> spans == Chosen(old(store.AsDb()), key, requested)
      ensures spans.Some? ==> 0 <= requested.start <= requested.end && Serves(spans.value, key, requested, disk.origins)
      ensures spans.Some? ==> forall i :: 0 <= i < |spans.value| ==> HasFile(spans.value[i], disk.files)
      ensures spans.Some? ==> store.AsDb() == Touched(old(store.AsDb()), spans.value, now, ttlSeconds) && disk.files == old(disk.files)
      ensures spans.None? ==> Thinned(store.AsDb(), old(store.AsDb()))
      ensures spans.None? ==> MissEffect(MiddleOrder(old(store.AsDb()), key, requested), store.AsDb(), disk.files,
                                         old(store.AsDb()), old(disk.files), now)
    {
      if requested.start < 0 || requested.end < requested.start { return None; }
      var records := store.FindMiddleBlocks(key, requested);
      ListingIsOrder(store.AsDb(), key, requested, records);
      if |records| == 0 { return None; }
      var chosen, ok := CoveringSpans(records, requested, now);
      if !ok { return None; }
      ChosenServes(store.AsDb(), key, requested, disk.files, disk.origins, now);
      TouchSpans(chosen, now);
      spans := Some(chosen);
    }

    /** The touching loop of IterBlock. */
    method TouchSpans(chosen: seq<Span>, now: Instant)
      requires Keyed(store.AsDb())
      modifies store
      ensures Keyed(store.AsDb()) && store.AsDb() == Touched(old(store.AsDb()), chosen, now, ttlSeconds)
    {
      for i := 0 to |chosen|
        invariant Keyed(store.AsDb()) && store.AsDb() == Touched(old(store.AsDb()), chosen[..i], now, ttlSeconds)
      {
        assert chosen[..i + 1][..i] == chosen[..i];
        store.TouchMiddleBlock(chosen[i].record.id, now, ttlSeconds);
      }
      assert chosen[..|chosen|] == chosen;
    }

    /**
     * streamSpan for each span: files are opened only when their span is reached, and any number of
     * evictions, expiries and republications may happen before every open and every read.
     */
    method StreamSpans(client: Client, spans: seq<Span>, key: Key, requested: ByteRange, chunkBytes: nat) returns (complete: bool)
      requires Ok() && chunkBytes > 0
      requires 0 <= requested.start <= requested.end && Serves(spans, key, requested, disk.origins)
      modifies store, disk, client
      ensures Ok() && requested.end < |disk.origins(key)|
      ensures Thinned(store.AsDb(), old(store.AsDb()))
      ensures old(client.received) <= client.received <= old(client.received) + Slice(disk.origins(key), requested)
      ensures complete ==> client.received == old(client.received) + Slice(disk.origins(key), requested)
      ensures disk.reliable && disk.calm && client.steady && (forall i :: 0 <= i < |spans| ==> HasFile(spans[i], old(disk.files))) ==> complete
    {
      SpansInside(spans, key, requested, disk.origins, 0);
      ghost var origin, before := disk.origins(key), client.received;
      var at := requested.start;
      var i := 0;
      while i < |spans|
        invariant 0 <= i <= |spans| && Ok()
        invariant at == if i < |spans| then spans[i].range.start else requested.end + 1
        invariant requested.start <= at <= requested.end + 1
        invariant client.received == before + origin[requested.start..at]
        invariant Thinned(store.AsDb(), old(store.AsDb()))
        invariant disk.calm ==> disk.files == old(disk.files)
      {
        SpansInside(spans, key, requested, disk.origins, i);
        if i + 1 < |spans| { SpansInside(spans, key, requested, disk.origins, i + 1); }
        var next := spans[i].range.end + 1;
        ghost var base, piece := client.received, Slice(origin, spans[i].range);
        SliceGrows(before, origin, requested.start, at, next, requested.end + 1);
        var ok := StreamSpan(client, spans[i], chunkBytes);
        if !ok {
          PrefixExtends(client.received, base, piece, before + Slice(origin, requested));
          return false;
        }
        i, at := i + 1, next;
      }
      return true;
    }

    method StreamSpan(client: Client, span: Span, chunkBytes: nat) returns (ok: bool)
      requires Ok() && chunkBytes > 0 && ValidRecord(span.record)
      requires NonEmpty(span.range) && span.range.Within(span.record.id.Range()) && span.record.id.end < |disk.origins(span.record.id.key)|
      modifies store, disk, client
      ensures Ok()
      ensures Thinned(store.AsDb(), old(store.AsDb()))
      ensures old(client.received) <= client.received <= old(client.received) + Slice(disk.origins(span.record.id.key), span.range)
      ensures ok ==> client.received == old(client.received) + Slice(disk.origins(span.record.id.key), span.range)
      ensures disk.reliable && disk.calm && client.steady && HasFile(span, old(disk.files)) ==> ok
      ensures disk.calm && ok ==> disk.files == old(disk.files)
    {
      disk.OthersAct();
      if MiddleBin(span.record.path) !in disk.files {
        RemoveBlock(span.record);
        return false;
      }
      assert PathOk(MiddleBin(span.record.path), disk.files[MiddleBin(span.record.path)], disk.origins);
      // An open handle keeps the contents it was opened on.
      var handle := disk.files[MiddleBin(span.record.path)].bytes;
      ok := SendFromHandle(client, handle, span, chunkBytes);
    }

    /** The read loop of streamSpan. */
    method SendFromHandle(client: Client, handle: seq<Byte>, span: Span, chunkBytes: nat) returns (ok: bool)
      requires Ok() && chunkBytes > 0 && ValidRecord(span.record)
      requires NonEmpty(span.range) && span.range.Within(span.record.id.Range()) && span.record.id.end < |disk.origins(span.record.id.key)|
      requires handle <= Slice(disk.origins(span.record.id.key), span.record.id.Range())
      modifies store, disk, client
      ensures Ok()
      ensures Thinned(store.AsDb(), old(store.AsDb()))
      ensures old(client.received) <= client.received <= old(client.received) + Slice(disk.origins(span.record.id.key), span.range)
      ensures ok ==> client.received == old(client.received) + Slice(disk.origins(span.record.id.key), span.range)
      ensures disk.reliable && client.steady && |handle| == span.record.size ==> ok
      ensures disk.calm && ok ==> disk.files == old(disk.files)
    {
      ghost var origin, before, start := disk.origins(span.record.id.key), client.received, span.range.start;
      var sent := 0;
      while sent < span.range.Length()
        invariant Ok() && 0 <= sent <= span.range.Length()
        invariant client.received == before + origin[start..start + sent]
        invariant Thinned(store.AsDb(), old(store.AsDb()))
        invariant disk.calm ==> disk.files == old(disk.files)
      {
        var n := Min(chunkBytes, span.range.Length() - sent);
        var chunk := ReadChunk(span.record, handle, span.range.start + sent, n);
        if chunk.None? { return false; }
        SliceJoin(origin, start, start + sent, start + sent + n);
        SliceJoin(origin, start, start + sent + n, span.range.end + 1);
        var written := client.WriteNext(chunk.value, before, origin[start..start + sent], Slice(origin, span.range));
        if !written { return false; }
        sent := sent + n;
      }
      return true;
    }

    /** One read of streamSpan, of n bytes at an offset of the media; a failed or short read removes the block. */
    method ReadChunk(record: Block, handle: seq<Byte>, offset: int, n: nat) returns (chunk: Option<seq<Byte>>)
      requires Ok() && 0 <= record.id.start <= offset && offset + n <= record.id.end + 1 <= |disk.origins(record.id.key)|
      requires handle <= Slice(disk.origins(record.id.key), record.id.Range())
      modifies store, disk
      ensures Ok()
      ensures Thinned(store.AsDb(), old(store.AsDb()))
      ensures chunk.Some? ==> chunk.value == disk.origins(record.id.key)[offset..offset + n]
      ensures disk.reliable && |handle| == record.id.Range().Length() ==> chunk.Some?
      ensures disk.calm && chunk.Some? ==> disk.files == old(disk.files)
    {
      disk.OthersAct();
      var from := offset - record.id.start;
      var readable := disk.Works();
      if !readable || from + n > |handle| {
        RemoveBlock(record);
        return None;
      }
      SlicePart(handle, disk.origins(record.id.key), record.id.start, record.id.end + 1, from, n);
      chunk := Some(handle[from..from + n]);
    }

    /** StorePrefetchBlockFromReader: exactly the block's bytes are published, by the holder of the current token, or nothing is. */
    method StorePrefetchBlockFromReader(token: Token, key: Key, r: ByteRange, reader: Reader, bufferSize: nat, now: Instant)
      returns (ok: bool, failed: bool)
      requires Ok() && bufferSize > 0 && r.end < |disk.origins(key)| && r.end <= MAX_INT64
      requires Delivers(reader, disk.origins(key), r)
      modifies store, disk, reader`remaining, reader.body
      ensures Ok() && !(ok && failed)
      ensures !ok && !failed ==> !old(Current(store.AsDb(), token))
      ensures ok ==> old(Current(store.AsDb(), token)) && 0 <= r.start <= r.end
      ensures ok ==>
        IsPublished(store.AsDb(), old(store.AsDb()), disk.files, old(disk.files), token, BlockId(key, r.start, r.end), now)
      ensures !ok ==> store.AsDb() == old(store.AsDb())
      ensures old(|reader.Upcoming()|) != r.Length() ==> !ok
      ensures !old(Current(store.AsDb(), token)) ==> disk.files == old(disk.files)
      ensures disk.reliable && 0 <= r.start <= r.end && !reader.body.breaks && !old(reader.Short())
        ==> (ok <==> old(Current(store.AsDb(), token)) && old(|reader.Upcoming()|) == r.Length())
    {
      if r.start < 0 || r.end < r.start { return false, true; }
      var enoughSpace := disk.Works();
      if !enoughSpace { return false, true; }
      var data, copyFailed := CopyAtMost(reader, r.Length() + 1, bufferSize);
      if copyFailed { return false, true; }
      if |data| != r.Length() { return false, true; }
      assert data == Slice(disk.origins(key), r);
      ok, failed := PublishStaged(token, BlockId(key, r.start, r.end), data, now);
    }

    /** The rows and files after a publication: a block row, the finished task, the whole block file and its sidecar. */
    ghost predicate IsPublished(db: Db, before: Db, files: Files, filesBefore: Files, token: Token, id: BlockId, now: Instant)
      requires 0 <= id.start <= id.end
    {
      && db == PublishBlock(before, token, NewBlock(id, now, ttlSeconds), now)
      && id.end < |disk.origins(id.key)|
      && files == filesBefore[MiddleBin(id) := Data(Slice(disk.origins(id.key), id.Range()))]
                             [MiddleSidecar(id) := Text(PrintSidecar(id.Range()))]
    }

    /** A published block can be read back at exactly the times before it expires. */
    lemma PublishedIsUsable(db: Db, before: Db, files: Files, filesBefore: Files, token: Token, id: BlockId,
                            now: Instant, t: Instant)
      requires 0 <= id.start <= id.end <= MAX_INT64 && Current(before, token)
      requires IsPublished(db, before, files, filesBefore, token, id, now)
      ensures id in db.blocks && (Usable(db.blocks[id], files, t) <==> t < now + ttlSeconds as real)
    {
      SidecarRoundTrip(id.Range());
    }

    /** The publish callback: file first, sidecar second, inside the transaction that updates the rows. */
    method PublishStaged(token: Token, id: BlockId, data: seq<Byte>, now: Instant) returns (ok: bool, failed: bool)
      requires Ok() && 0 <= id.start <= id.end < |disk.origins(id.key)| && id.end <= MAX_INT64
      requires data == Slice(disk.origins(id.key), id.Range())
      modifies store, disk
      ensures Ok() && !(ok && failed)
      ensures ok ==>
        old(Current(store.AsDb(), token)) && IsPublished(store.AsDb(), old(store.AsDb()), disk.files, old(disk.files), token, id, now)
      ensures !ok ==> store.AsDb() == old(store.AsDb())
      ensures !ok && !failed ==> !old(Current(store.AsDb(), token))
      ensures !old(Current(store.AsDb(), token)) ==> disk.files == old(disk.files)
      ensures disk.reliable ==> (ok <==> old(Current(store.AsDb(), token)))
    {
      var current := store.BeginPublish(token);
      if !current { return false, false; }
      var renamed := disk.Rename(MiddleBin(id), Data(data));
      if !renamed { return false, true; }
      renamed := disk.Rename(MiddleSidecar(id), Text(PrintSidecar(id.Range())));
      if !renamed {
        disk.Remove(MiddleBin(id));
        return false, true;
      }
      var healthy := disk.Works();
      var fault: TxFault := *;
      if healthy { fault := TxRuns; }
      var result := store.CommitPublish(token, NewBlock(id, now, ttlSeconds), now, fault);
      ok, failed := result.TxCommitted?, result.TxRaised?;
    }
  }

  /** The spans a stitched read takes, before it looks at the files. */
  ghost function Chosen(db: Db, key: Key, requested: ByteRange): Option<seq<Span>> {
    CoverFrom(MiddleOrder(db, key, requested), requested.end, requested.start)
  }

  predicate AllUsable(spans: Option<seq<Span>>, files: Files, now: Instant) {
    spans.Some? && forall i :: 0 <= i < |spans.value| ==> Usable(spans.value[i].record, files, now)
  }

  /** Blocks may be gone; nothing else has changed. */
  predicate Thinned(db: Db, before: Db) {
    && db == before.(blocks := db.blocks)
    && db.blocks.Keys <= before.blocks.Keys
    && forall b :: b in db.blocks ==> db.blocks[b] == before.blocks[b]
  }

  /** At most the two files of the block have disappeared. */
  predicate OnlyItsFilesGone(files: Files, before: Files, id: BlockId) {
    && files.Keys <= before.Keys
    && (forall p :: p in files ==> files[p] == before[p])
    && forall p :: p in before && p != MiddleBin(id) && p != MiddleSidecar(id) ==> p in files
  }

  /** What a failed choice of spans leaves: everything as it was, or one unusable record's row gone and at most its two files. */
  predicate MissEffect(records: seq<Block>, db: Db, files: Files, before: Db, filesBefore: Files, now: Instant) {
    || (db == before && files == filesBefore)
    || exists i :: 0 <= i < |records| && !Usable(records[i], filesBefore, now)
         && db == DeleteBlock(before, records[i].id) && OnlyItsFilesGone(files, filesBefore, records[i].id)
  }

  lemma ListingIsOrder(db: Db, key: Key, requested: ByteRange, records: seq<Block>)
    requires Keyed(db) && Lists(records, OverlappingRows(db, key, requested), BlockStartLe)
    ensures records == MiddleOrder(db, key, requested)
  {
    OrdersAreTotal();
    var rows := OverlappingRows(db, key, requested);
    assert NoTies(BlockStartLe, rows) by {
      forall x, y | x in rows && y in rows && BlockStartLe(x, y) && BlockStartLe(y, x)
        ensures x == y
      {
        assert x.id == y.id && db.blocks[x.id] == x && db.blocks[y.id] == y;
      }
    }
    ListingUnique(records, MiddleOrder(db, key, requested), rows, BlockStartLe);
  }

  /** Which blocks a stitched read needs: with usable blocks it hits exactly when every requested byte is cached. */
  lemma ChosenExact(db: Db, key: Key, requested: ByteRange, files: Files, now: Instant)
    requires Keyed(db) && NonEmpty(requested)
    ensures Chosen(db, key, requested).Some? <==> forall x :: requested.Holds(x) ==> CachedAt(db, key, x)
    ensures (forall b :: b in OverlappingRows(db, key, requested) ==> Usable(b, files, now)) ==>
      (AllUsable(Chosen(db, key, requested), files, now) <==> forall x :: requested.Holds(x) ==> CachedAt(db, key, x))
  {
    OrdersAreTotal();
    var records := MiddleOrder(db, key, requested);
    ListingHolds(db, key, requested, records);
    StitchingExact(records, requested);
  }

  /** What one read may do to the rows: mark some spans' blocks as used, and drop blocks. */
  ghost predicate ReaderRows(db: Db, before: Db, now: Instant, ttlSeconds: int) {
    exists spans: seq<Span> :: Thinned(db, Touched(before, spans, now, ttlSeconds))
  }

  /** Usable chosen spans cut the request into pieces of whole files of the key. */
  lemma ChosenServes(db: Db, key: Key, requested: ByteRange, files: Files, origins: Origins, now: Instant)
    requires Keyed(db) && FilesOk(files, origins) && 0 <= requested.start <= requested.end
    requires AllUsable(Chosen(db, key, requested), files, now)
    ensures var spans := Chosen(db, key, requested).value;
      Serves(spans, key, requested, origins) && forall i :: 0 <= i < |spans| ==> HasFile(spans[i], files)
  {
    OrdersAreTotal();
    var records, spans := MiddleOrder(db, key, requested), Chosen(db, key, requested).value;
    CoverSound(records, requested.end, requested.start);
    forall i | 0 <= i < |spans|
      ensures spans[i].record.id.key == key && spans[i].record.id.end < |origins(key)| && HasFile(spans[i], files)
    {
      assert spans[i].record in OverlappingRows(db, key, requested);
      var p := MiddleBin(spans[i].record.path);
      assert p in files && PathOk(p, files[p], origins);
    }
  }

  /** The rows after every chosen block has been marked as just used. */
  function Touched(db: Db, spans: seq<Span>, now: Instant, ttlSeconds: int): Db {
    if spans == [] then db else
      var last := |spans| - 1;
      TouchBlock(Touched(db, spans[..last], now, ttlSeconds), spans[last].record.id, now, ttlSeconds)
  }

  /** The span's block file is there, whole. */
  predicate HasFile(span: Span, files: Files) {
    && MiddleBin(span.record.path) in files && files[MiddleBin(span.record.path)].Data?
    && |files[MiddleBin(span.record.path)].bytes| == span.record.size
  }

  /** FindMiddleBlocks sees every cached byte of the request. */
  lemma ListingHolds(db: Db, key: Key, requested: ByteRange, records: seq<Block>)
    requires Keyed(db) && Lists(records, OverlappingRows(db, key, requested), BlockStartLe)
    ensures StartSorted(records)
    ensures forall i :: 0 <= i < |records| ==> records[i] in OverlappingRows(db, key, requested)
    ensures forall x :: requested.Holds(x) ==> (HeldByRecord(records, x) <==> CachedAt(db, key, x))
  {
    var rows := OverlappingRows(db, key, requested);
    assert forall i :: 0 <= i < |records| ==> records[i] in rows;
    forall x | requested.Holds(x)
      ensures HeldByRecord(records, x) <==> CachedAt(db, key, x)
    {
      if b :| b in db.blocks && b.key == key && b.Range().Holds(x) {
        assert db.blocks[b] in rows;
        assert db.blocks[b] in records;
      }
    }
  }

  ghost predicate CachedAt(db: Db, key: Key, x: int) {
    exists b :: b in db.blocks && b.key == key && b.Range().Holds(x)
  }

  /** The spans cut the request into consecutive pieces of valid blocks of the key. */
  ghost predicate Serves(spans: seq<Span>, key: Key, requested: ByteRange, origins: Origins) {
    && spans != [] && spans[0].range.start == requested.start && spans[|spans| - 1].range.end == requested.end
    && (forall i :: 0 <= i < |spans| - 1 ==> spans[i].range.end + 1 == spans[i + 1].range.start)
    && (forall i :: 0 <= i < |spans| ==>
          && NonEmpty(spans[i].range) && spans[i].range.Within(spans[i].record.id.Range())
          && ValidRecord(spans[i].record) && spans[i].record.id.key == key && spans[i].record.id.end < |origins(key)|)
  }

  lemma {:induction false} SpansInside(spans: seq<Span>, key: Key, requested: ByteRange, origins: Origins, i: nat)
    requires Serves(spans, key, requested, origins) && i < |spans|
    ensures requested.start <= spans[i].range.start && spans[i].range.end <= requested.end
    ensures requested.end < |origins(key)|
    decreases |spans|
  {
    if i > 0 || |spans| > 1 {
      if i == 0 {
        var rest := spans[1..];
        assert rest[|rest| - 1] == spans[|spans| - 1];
        SpansInside(rest, key, ByteRange(rest[0].range.start, requested.end), origins, 0);
      } else {
        var rest := spans[1..];
        assert rest[|rest| - 1] == spans[|spans| - 1] && rest[i - 1] == spans[i];
        SpansInside(rest, key, ByteRange(rest[0].range.start, requested.end), origins, i - 1);
      }
    }
  }

  /** Spans already chosen, followed by a choice for the rest. */
  function Prefixed(chosen: seq<Span>, rest: Option<seq<Span>>): Option<seq<Span>> {
    match rest
    case None => None
    case Some(more) => Some(chosen + more)
  }

  lemma PrefixedNothing(rest: Option<seq<Span>>)
    ensures Prefixed([], rest) == rest
  {
    if rest.Some? { assert [] + rest.value == rest.value; }
  }

  lemma PrefixedOne(chosen: seq<Span>, span: Span, rest: Option<seq<Span>>)
    ensures Prefixed(chosen + [span], rest) == Prefixed(chosen, Prefixed([span], rest))
  {
    if rest.Some? { assert chosen + [span] + rest.value == chosen + ([span] + rest.value); }
  }
}
