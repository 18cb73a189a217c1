/** serveAuthorizedRange: whatever route is taken, the answer is the plain origin's. */
module RangeServer {
  import opened Intervals
  import opened RangeText
  import opened OriginBody
  import opened Tables
  import opened StateStore
  import opened Playback
  import opened DiskFiles
  import opened Stitching
  import opened MiddleBlocks
  import opened EdgeBlocks
  import opened BlockBuild
  import opened BuildResumes

  datatype Meta = Meta(url: string, size: int, contentType: string, etag: string, lastModified: string)

  datatype Headers = Headers(contentLength: Option<int>, contentRange: Option<string>, contentType: string, etag: string, lastModified: string)

  const NO_HEADERS := Headers(None, None, "", "", "")

  const PARTIAL_CONTENT := 206
  const OK := 200
  const NOT_SATISFIABLE := 416

  /** What the client should see: a response, or an error that the caller turns into the fallback. */
  datatype Answer = Respond(status: int, headers: Headers, body: seq<Byte>) | GiveUp

  /** responseStatus, and the same test in serveAuthorizedRange. */
  function StatusOf(rangeHeader: string, r: ByteRange, size: int): int {
    if rangeHeader != [] || r.start != 0 || r.end != size - 1 then PARTIAL_CONTENT else OK
  }

  /** writeRangeHeaders */
  function RangeHeaders(status: int, r: ByteRange, meta: Meta): Headers
    requires 0 <= r.start <= r.end < meta.size
  {
    Headers(Some(r.Length()), if status == PARTIAL_CONTENT then Some(PrintContentRange(r, meta.size)) else None,
            meta.contentType, meta.etag, meta.lastModified)
  }

  /** writeUnsatisfiableRange */
  function UnsatisfiableHeaders(size: nat): Headers {
    NO_HEADERS.(contentRange := Some("bytes */" + Print(size)))
  }

  /** The answer of a proxy without any cache: plan the range, and send that slice of the origin. */
  function PlainAnswer(head: bool, rangeHeader: string, meta: Meta, z: Sizes, origin: seq<Byte>): Answer
    requires ValidSizes(z) && |origin| == meta.size
  {
    match PlanWith(rangeHeader, meta.size, z)
    case Bad(error) => if error.NotSatisfiable? then Respond(NOT_SATISFIABLE, UnsatisfiableHeaders(meta.size), []) else GiveUp
    case Parsed(r) =>
      PlannedIsInside(rangeHeader, meta.size, z);
      var status := StatusOf(rangeHeader, r, meta.size);
      Respond(status, RangeHeaders(status, r, meta), if head then [] else Slice(origin, r))
  }

  class ResponseWriter {
    const client: Client
    var status: Option<int>
    var headers: Headers

    constructor (client: Client)
      ensures this.client == client && status == None && headers == NO_HEADERS
    {
      this.client := client;
      status, headers := None, NO_HEADERS;
    }

    method Begin(status: int, headers: Headers)
      modifies this
      ensures this.status == Some(status) && this.headers == headers
    {
      this.status, this.headers := Some(status), headers;
    }
  }

  /** A source_metadata row. */
  datatype MetaRow = MetaRow(key: Key, meta: Meta)

  /** A playback request; the sizes are those configured for its extension and Range header. */
  datatype Request = Request(head: bool, rangeHeader: string, sourceSize: Option<int>, sizes: Sizes)

  datatype Access = Access(read: bool, write: bool)

  /** What the two tries for the build lock give. */
  datatype LockTries = LockTries(first: bool, second: bool)

  /** The transport brings a response, and OpenRange gets all of the range from it. */
  ghost predicate Answered(reply: Reply, r: ByteRange, size: int) { reply.Reply? && Answers(reply.response, r, size) }

  class Server {
    const edge: EdgeCache
    const middle: MiddleCache
    const disk: Disk
    const chunkBytes: nat
    const middleEnabled: bool
    /** The rows of the requested item, latest first. */
    var metadata: seq<MetaRow>

    constructor (disk: Disk, edge: EdgeCache, middle: MiddleCache, chunkBytes: nat, middleEnabled: bool)
      ensures this.disk == disk && this.edge == edge && this.middle == middle
      ensures this.chunkBytes == chunkBytes && this.middleEnabled == middleEnabled && metadata == []
    {
      this.disk, this.edge, this.middle, this.chunkBytes, this.middleEnabled := disk, edge, middle, chunkBytes, middleEnabled;
      metadata := [];
    }

    /** The row is about the same bytes with the same headers; its key and URL may come from an earlier redirect of the origin. */
    ghost predicate Describes(row: MetaRow, key: Key, meta: Meta)
      reads disk
    {
      disk.origins(row.key) == disk.origins(key) && row.meta.(url := meta.url) == meta
    }

    /** The block invariant, and a latest metadata row that describes the requested media, under whatever key. */
    ghost predicate Ok(key: Key, meta: Meta)
      reads this, middle.store, middle.disk, disk
    {
      && middle.Ok() && edge.disk == disk && middle.disk == disk && chunkBytes > 0
      && 0 < |disk.origins(key)| == meta.size <= MAX_INT64
      && (metadata != [] ==> Describes(metadata[0], key, meta))
    }

    /** The head or tail block of the latest metadata row has the planned range, so the origin need not be asked for anything. */
    ghost predicate StoredHit(q: Request)
      reads this, disk
    {
      && metadata != [] && (q.sourceSize.Some? && q.sourceSize.value > 0 ==> q.sourceSize.value == metadata[0].meta.size)
      && PlanWith(q.rangeHeader, metadata[0].meta.size, q.sizes).Parsed?
      && var r := PlanWith(q.rangeHeader, metadata[0].meta.size, q.sizes).range;
         EdgeHit(disk.files, metadata[0].key, r, metadata[0].meta.size, q.sizes)
    }

    /** A cache that the request may use has the planned range, or it asks for headers only: no body is needed from the origin. */
    ghost predicate CacheHit(q: Request, key: Key, meta: Meta, access: Access, now: Instant)
      reads this, disk, middle.store
    {
      Hit(middle.store.AsDb(), disk.files, middleEnabled, q, key, meta, access, now)
    }

    /** streamOriginRange; the HTTP server refuses a write past the declared Content-Length. */
    method StreamOriginRange(reply: Reply, r: ByteRange, size: int, client: Client, ghost origin: seq<Byte>)
      returns (ok: bool)
      requires chunkBytes > 0 && |origin| == size && 0 <= r.start <= r.end < |origin|
      requires reply.Reply? ==> Honest(reply.response, origin)
      modifies client
      ensures old(client.received) <= client.received <= old(client.received) + Slice(origin, r)
      ensures ok && Answered(reply, r, size) ==> client.received == old(client.received) + Slice(origin, r)
      ensures client.steady && Answered(reply, r, size) ==> ok
    {
      if reply.NoReply? { return false; }
      var reader := OpenRange(reply.response, r, size, origin);
      if reader.None? { return false; }
      DeliveredAgrees(reader.value.Upcoming(), origin, r);
      ok := CopyToClient(reader.value, r.Length(), client, Slice(origin, r));
    }

    /** io.CopyBuffer into the response. */
    method CopyToClient(reader: Reader, length: nat, client: Client, ghost slice: seq<Byte>) returns (ok: bool)
      requires chunkBytes > 0 && |slice| == length && (reader.bounded ==> reader.remaining >= 0)
      requires AgreeOn(reader.Upcoming(), slice)
      modifies client, reader`remaining, reader.body
      ensures old(client.received) <= client.received <= old(client.received) + slice
      ensures ok && old(|reader.Upcoming()|) >= length ==> client.received == old(client.received) + slice
      ensures client.steady && old(|reader.Upcoming()|) == length && !reader.body.breaks && !old(reader.Short()) ==> ok
    {
      ghost var before, promised := client.received, reader.Upcoming();
      ghost var copied: seq<Byte> := [];
      var sent := 0;
      var err := ReadError.Ok;
      while err == ReadError.Ok
        invariant sent == |copied| <= length && copied <= slice && copied + reader.Upcoming() == promised
        invariant reader.bounded ==> reader.remaining >= 0
        invariant reader.Short() == old(reader.Short())
        invariant err == ReadError.Ok || err == ReadError.Eof || reader.body.breaks || old(reader.Short())
        invariant client.received == before + copied && before <= client.received <= before + slice
        invariant err == ReadError.Eof ==> reader.Upcoming() == []
        decreases if err == ReadError.Ok then 1 else 0, |reader.Upcoming()|
      {
        var chunk: seq<Byte>;
        chunk, err := reader.Read(chunkBytes);
        ConcatAssoc(copied, chunk, reader.Upcoming());
        if sent + |chunk| > length { return false; }
        PrefixesAgree(copied + chunk, promised, slice);
        var written := client.WriteNext(chunk, before, copied, slice);
        if !written { return false; }
        sent, copied := sent + |chunk|, copied + chunk;
      }
      return err == ReadError.Eof;
    }

    /** Probe a head or tail block, and answer from it on a hit. */
    method ServeFromEdge(w: ResponseWriter, key: Key, name: BlockName, r: ByteRange, status: int, headers: Headers)
      returns (hit: bool, complete: bool)
      requires disk.Ok() && edge.disk == disk && chunkBytes > 0 && NonEmpty(r) && Untouched(w)
      modifies disk, w, w.client
      ensures disk.Ok()
      ensures !hit ==> Untouched(w)
      ensures hit ==> 0 <= r.start && r.end < |disk.origins(key)|
      ensures hit ==> Delivered(w, Respond(status, headers, Slice(disk.origins(key), r)), complete)
      ensures hit && disk.reliable && w.client.steady ==> complete
      ensures disk.reliable && disk.calm ==> (hit <==> Probe(old(disk.files), key, name, r).Some?)
      ensures disk.reliable && disk.calm && !hit ==> disk.files == Probed(old(disk.files), key, name)
    {
      disk.OthersAct();
      var handle := edge.Open(key, name, r);
      if handle.None? { return false, false; }
      w.Begin(status, headers);
      complete := edge.Stream(w.client, handle.value, key, name, chunkBytes);
      hit := true;
    }

    /** Probe the middle cache, and answer from stitched blocks on a hit. */
    method ServeFromMiddle(w: ResponseWriter, key: Key, r: ByteRange, status: int, headers: Headers, now: Instant)
      returns (hit: bool, complete: bool)
      requires middle.Ok() && middle.disk == disk && chunkBytes > 0 && NonEmpty(r) && Untouched(w)
      modifies disk, middle.store, w, w.client
      ensures middle.Ok()
      ensures !hit ==> Untouched(w)
      ensures hit ==> 0 <= r.start && r.end < |disk.origins(key)|
      ensures hit ==> Delivered(w, Respond(status, headers, Slice(disk.origins(key), r)), complete)
      ensures hit && disk.reliable && disk.calm && w.client.steady ==> complete
      ensures ReaderRows(middle.store.AsDb(), old(middle.store.AsDb()), now, middle.ttlSeconds)
      ensures disk.calm ==> (hit <==> 0 <= r.start && AllUsable(Chosen(old(middle.store.AsDb()), key, r), old(disk.files), now))
      ensures disk.calm && !hit ==> Tidied(disk.files, old(disk.files), false)
    {
      ghost var before := middle.store.AsDb();
      var spans := ProbeMiddle(key, r, now);
      if spans.None? { return false, false; }
      w.Begin(status, headers);
      complete := middle.StreamSpans(w.client, spans.value, key, r, chunkBytes);
      hit := true;
      assert Thinned(middle.store.AsDb(), Touched(before, spans.value, now, middle.ttlSeconds));
    }

    /** The middle cache's probe, and what is left of the files when it misses. */
    method ProbeMiddle(key: Key, r: ByteRange, now: Instant) returns (spans: Option<seq<Span>>)
      requires middle.Ok() && middle.disk == disk && NonEmpty(r)
      modifies disk, middle.store
      ensures middle.Ok()
      ensures spans.Some? ==> 0 <= r.start && Serves(spans.value, key, r, disk.origins)
      ensures spans.Some? ==> forall i :: 0 <= i < |spans.value| ==> HasFile(spans.value[i], disk.files)
      ensures spans.Some? ==> middle.store.AsDb() == Touched(old(middle.store.AsDb()), spans.value, now, middle.ttlSeconds)
      ensures spans.None? ==> ReaderRows(middle.store.AsDb(), old(middle.store.AsDb()), now, middle.ttlSeconds)
      ensures disk.calm ==> (spans.Some? <==> 0 <= r.start && AllUsable(Chosen(old(middle.store.AsDb()), key, r), old(disk.files), now))
      ensures disk.calm && spans.None? ==> Tidied(disk.files, old(disk.files), false)
    {
      ghost var before, files := middle.store.AsDb(), disk.files;
      disk.OthersAct();
      spans := middle.FindSpans(key, r, now);
      if spans.None? {
        assert Thinned(middle.store.AsDb(), Touched(before, [], now, middle.ttlSeconds));
        if disk.calm { MissTidies(MiddleOrder(before, key, r), middle.store.AsDb(), disk.files, before, files, now); }
      }
    }

    /** Answer straight from the origin. */
    method ServeFromOrigin(w: ResponseWriter, reply: Reply, r: ByteRange, status: int, headers: Headers,
                           size: int, ghost origin: seq<Byte>)
      returns (complete: bool)
      requires chunkBytes > 0 && |origin| == size && 0 <= r.start <= r.end < size && Untouched(w)
      requires reply.Reply? ==> Honest(reply.response, origin)
      modifies w, w.client
      ensures Delivered(w, Respond(status, headers, Slice(origin, r)), complete)
      ensures w.client.steady && Answered(reply, r, size) ==> complete
    {
      w.Begin(status, headers);
      var ok := StreamOriginRange(reply, r, size, w.client, origin);
      complete := ok && reply.Reply? && Answers(reply.response, r, size);
    }

    /** Answer while building the block. */
    method ServeFromBuild(w: ResponseWriter, net: Network, size: int, key: Key, block: CacheBlock, r: ByteRange, status: int,
                          headers: Headers)
      returns (complete: bool)
      requires disk.Ok() && edge.disk == disk && Untouched(w)
      requires EdgeRange(block.name, block.range, |disk.origins(key)|) && |disk.origins(key)| <= MAX_INT64
      requires NonEmpty(r) && r.Within(block.range) && HonestNetwork(net, disk.origins(key)) && size == |disk.origins(key)|
      modifies disk, w, w.client
      ensures disk.Ok()
      ensures Delivered(w, Respond(status, headers, Slice(disk.origins(key), r)), complete)
      ensures disk.reliable && w.client.steady && (Works(net, size) || Persists(net, size)) ==> complete
      ensures disk.reliable && (Works(net, size) || Persists(net, size)) ==>
        WasEvicted(disk.files, Installed(old(disk.files), key, block.name, block.range, disk.origins(key)), edge.maxBytes, disk.reliable)
    {
      w.Begin(status, headers);
      if Works(net, size) { WorkingNetworkBuilds(net, disk.origins(key), block.range); }
      if Persists(net, size) { PersistentNetworkBuilds(net, disk.origins(key), block.range); }
      var result, diskFailed := BuildHeadTailBlock(edge, net, size, key, block.name, block.range, r, w.client);
      complete := result == BuildResult.Committed;
    }

    /** serveCachedHeadTailIfAvailable: answer from the latest stored metadata without asking the origin at all. */
    method ServeCachedHeadTailIfAvailable(w: ResponseWriter, q: Request, key: Key, meta: Meta)
      returns (served: bool, error: bool, complete: bool)
      requires Ok(key, meta) && ValidSizes(q.sizes) && Untouched(w)
      modifies disk, w, w.client
      ensures Ok(key, meta) && !(served && error)
      ensures !served ==> Untouched(w)
      ensures error ==> PlainAnswer(q.head, q.rangeHeader, meta, q.sizes, disk.origins(key)).GiveUp?
      ensures served ==> Delivered(w, PlainAnswer(q.head, q.rangeHeader, meta, q.sizes, disk.origins(key)), complete)
      ensures served && disk.reliable && w.client.steady ==> complete
      ensures disk.reliable && disk.calm && old(StoredHit(q)) ==> served
      ensures disk.reliable && disk.calm && !served ==> Tidied(disk.files, old(disk.files), true)
    {
      ProbeTidies(disk.files);
      if |metadata| == 0 { return false, false, false; }
      var row := metadata[0];
      if q.sourceSize.Some? && q.sourceSize.value > 0 && q.sourceSize.value != row.meta.size { return false, false, false; }
      var planned := PlanWith(q.rangeHeader, row.meta.size, q.sizes);
      if planned.Bad? {
        if planned.error.NotSatisfiable? {
          w.Begin(NOT_SATISFIABLE, UnsatisfiableHeaders(row.meta.size));
          return true, false, true;
        }
        return false, true, false;
      }
      PlannedIsInside(q.rangeHeader, row.meta.size, q.sizes);
      var r := planned.range;
      var block := CacheBlockForRequest(r, row.meta.size, q.sizes);
      if block.None? { return false, false, false; }
      var status := StatusOf(q.rangeHeader, r, row.meta.size);
      if q.head {
        disk.OthersAct();
        var found := edge.HasBlockRange(row.key, block.value.name, r);
        if !found { return false, false, false; }
        w.Begin(status, RangeHeaders(status, r, row.meta));
        return true, false, true;
      }
      served, complete := ServeFromEdge(w, row.key, block.value.name, r, status, RangeHeaders(status, r, row.meta));
      error := false;
    }

    /**
     * serveAuthorizedRange. For every state of caches and tables that meets the invariant, every access mode, every
     * outcome of the build lock and every interleaving with other requests, the client gets the status, headers and
     * body of the plain origin; after an I/O failure the body is a prefix of it. The rows change only as a read of
     * middle blocks changes them.
     */
    method ServeAuthorizedRange(w: ResponseWriter, q: Request, key: Key, meta: Meta, access: Access, now: Instant,
                                metadataWorks: bool, net: Network, locks: LockTries)
      returns (error: bool, complete: bool)
      requires Ok(key, meta) && ValidSizes(q.sizes) && Untouched(w)
      requires HonestNetwork(net, disk.origins(key))
      modifies this, disk, middle.store, w, w.client
      ensures Ok(key, meta)
      ensures ReaderRows(middle.store.AsDb(), old(middle.store.AsDb()), now, middle.ttlSeconds)
      ensures metadata == old(metadata) || (access.write && metadata == [MetaRow(key, meta)] + old(metadata))
      ensures access.write && !access.read && metadataWorks && PlanWith(q.rangeHeader, meta.size, q.sizes).Parsed? ==>
        metadata == [MetaRow(key, meta)] + old(metadata)
      ensures error ==> Untouched(w) && (metadataWorks ==> PlainAnswer(q.head, q.rangeHeader, meta, q.sizes, disk.origins(key)).GiveUp?)
      ensures !error ==> Delivered(w, PlainAnswer(q.head, q.rangeHeader, meta, q.sizes, disk.origins(key)), complete)
      ensures !error && disk.reliable && disk.calm && w.client.steady && Works(net, meta.size) ==> complete
      ensures disk.reliable && disk.calm && w.client.steady && access.read && old(StoredHit(q)) ==> !error && complete
      ensures disk.reliable && disk.calm && w.client.steady && metadataWorks && old(CacheHit(q, key, meta, access, now)) ==> !error && complete
    {
      assert Thinned(middle.store.AsDb(), Touched(middle.store.AsDb(), [], now, middle.ttlSeconds));
      ghost var before := disk.files;
      ProbeTidies(before);
      if access.read {
        var served, failed, whole := ServeCachedHeadTailIfAvailable(w, q, key, meta);
        if served || failed { return failed, whole; }
      }
      if disk.reliable && disk.calm { HitStays(middle.store.AsDb(), disk.files, before, middleEnabled, q, key, meta, access, now); }
      error, complete := ServeWithMetadata(w, q, key, meta, access, now, metadataWorks, net, locks);
    }

    /** The part of serveAuthorizedRange that asks for the metadata. */
    method ServeWithMetadata(w: ResponseWriter, q: Request, key: Key, meta: Meta, access: Access, now: Instant,
                             metadataWorks: bool, net: Network, locks: LockTries)
      returns (error: bool, complete: bool)
      requires Ok(key, meta) && ValidSizes(q.sizes) && Untouched(w)
      requires HonestNetwork(net, disk.origins(key))
      modifies this, disk, middle.store, w, w.client
      ensures Ok(key, meta)
      ensures ReaderRows(middle.store.AsDb(), old(middle.store.AsDb()), now, middle.ttlSeconds)
      ensures metadata == if access.write && metadataWorks && PlanWith(q.rangeHeader, meta.size, q.sizes).Parsed?
                          then [MetaRow(key, meta)] + old(metadata) else old(metadata)
      ensures error ==> Untouched(w) && (metadataWorks ==> PlainAnswer(q.head, q.rangeHeader, meta, q.sizes, disk.origins(key)).GiveUp?)
      ensures !error ==> Delivered(w, PlainAnswer(q.head, q.rangeHeader, meta, q.sizes, disk.origins(key)), complete)
      ensures !error && disk.reliable && disk.calm && w.client.steady && Works(net, meta.size) ==> complete
      ensures disk.reliable && disk.calm && w.client.steady && metadataWorks && old(CacheHit(q, key, meta, access, now)) ==> !error && complete
    {
      assert Thinned(middle.store.AsDb(), Touched(middle.store.AsDb(), [], now, middle.ttlSeconds));
      if !metadataWorks { return true, false; }
      var planned := PlanWith(q.rangeHeader, meta.size, q.sizes);
      if planned.Bad? {
        if planned.error.NotSatisfiable? {
          w.Begin(NOT_SATISFIABLE, UnsatisfiableHeaders(meta.size));
          return false, true;
        }
        return true, false;
      }
      PlannedIsInside(q.rangeHeader, meta.size, q.sizes);
      if access.write { metadata := [MetaRow(key, meta)] + metadata; }
      error := false;
      complete := ServePlanned(w, q, key, meta, access, now, planned.range, net, locks);
    }

    /** The routes behind the plan: HEAD, middle cache, head or tail block, build, origin. */
    method ServePlanned(w: ResponseWriter, q: Request, key: Key, meta: Meta, access: Access, now: Instant, r: ByteRange, net: Network,
                        locks: LockTries)
      returns (complete: bool)
      requires Ok(key, meta) && ValidSizes(q.sizes) && Untouched(w)
      requires 0 <= r.start <= r.end < meta.size && PlanWith(q.rangeHeader, meta.size, q.sizes) == Parsed(r)
      requires HonestNetwork(net, disk.origins(key))
      modifies disk, middle.store, w, w.client
      ensures Ok(key, meta)
      ensures ReaderRows(middle.store.AsDb(), old(middle.store.AsDb()), now, middle.ttlSeconds)
      ensures Delivered(w, PlainAnswer(q.head, q.rangeHeader, meta, q.sizes, disk.origins(key)), complete)
      ensures disk.reliable && disk.calm && w.client.steady && Works(net, meta.size) ==> complete
      ensures disk.reliable && disk.calm && w.client.steady && old(CacheHit(q, key, meta, access, now)) ==> complete
    {
      assert Thinned(middle.store.AsDb(), Touched(middle.store.AsDb(), [], now, middle.ttlSeconds));
      var status := StatusOf(q.rangeHeader, r, meta.size);
      var headers := RangeHeaders(status, r, meta);
      if q.head {
        w.Begin(status, headers);
        return true;
      }
      if access.read && middleEnabled {
        var hit: bool;
        hit, complete := ServeFromMiddle(w, key, r, status, headers, now);
        if hit { return; }
      }
      ghost var tidied := disk.files;
      complete := ServeBehindMiddle(w, q, key, meta, access, r, status, headers, net, locks);
      if disk.calm && access.write && EdgeHit(old(disk.files), key, r, meta.size, q.sizes) {
        TidiedKeepsProbe(tidied, old(disk.files), false, key, CacheBlockForRequest(r, meta.size, q.sizes).value.name, r);
      }
    }

    /** The routes behind the middle cache: head or tail block, build, origin. */
    method ServeBehindMiddle(w: ResponseWriter, q: Request, key: Key, meta: Meta, access: Access, r: ByteRange, status: int,
                             headers: Headers, net: Network, locks: LockTries)
      returns (complete: bool)
      requires Ok(key, meta) && ValidSizes(q.sizes) && Untouched(w) && 0 <= r.start <= r.end < meta.size
      requires HonestNetwork(net, disk.origins(key))
      modifies disk, w, w.client
      ensures disk.Ok()
      ensures Delivered(w, Respond(status, headers, Slice(disk.origins(key), r)), complete)
      ensures disk.reliable && w.client.steady && Works(net, meta.size) ==> complete
      ensures disk.reliable && disk.calm && w.client.steady && access.write && EdgeHit(old(disk.files), key, r, meta.size, q.sizes) ==> complete
    {
      var block := if access.write then CacheBlockForRequest(r, meta.size, q.sizes) else None;
      if block.None? {
        complete := ServeFromOrigin(w, net(0, r), r, status, headers, meta.size, disk.origins(key));
        return;
      }
      ChosenBlockHolds(r, meta.size, q.sizes);
      complete := ServeBlock(w, key, meta, block.value, r, status, headers, net, locks);
    }

    /** The routes of a request that a head or tail block can hold, around the build lock. */
    method ServeBlock(w: ResponseWriter, key: Key, meta: Meta, block: CacheBlock, r: ByteRange, status: int,
                      headers: Headers, net: Network, locks: LockTries)
      returns (complete: bool)
      requires Ok(key, meta) && Untouched(w)
      requires 0 <= r.start <= r.end < meta.size && r.Within(block.range) && EdgeRange(block.name, block.range, meta.size)
      requires HonestNetwork(net, disk.origins(key))
      modifies disk, w, w.client
      ensures disk.Ok()
      ensures Delivered(w, Respond(status, headers, Slice(disk.origins(key), r)), complete)
      ensures disk.reliable && w.client.steady && Works(net, meta.size) ==> complete
      ensures disk.reliable && disk.calm && w.client.steady && old(Probe(disk.files, key, block.name, r)).Some? ==> complete
      ensures (&& disk.reliable && disk.calm && locks.first && old(Probe(disk.files, key, block.name, r)).None?
               && (Works(net, meta.size) || Persists(net, meta.size)))
        ==> WasEvicted(disk.files, Installed(Probed(old(disk.files), key, block.name), key, block.name, block.range, disk.origins(key)),
                       edge.maxBytes, true)
    {
      var hit: bool;
      hit, complete := ServeFromEdge(w, key, block.name, r, status, headers);
      if hit { return; }
      if !locks.first {
        // Another request builds this block: wait, and look again before and after the second try.
        hit, complete := ServeFromEdge(w, key, block.name, r, status, headers);
        if hit { return; }
        if !locks.second {
          complete := ServeFromOrigin(w, net(0, r), r, status, headers, meta.size, disk.origins(key));
          return;
        }
        hit, complete := ServeFromEdge(w, key, block.name, r, status, headers);
        if hit { return; }
      }
      complete := ServeFromBuild(w, net, meta.size, key, block, r, status, headers);
    }
  }

  /** Some files may be gone, but no head or tail block that adds up, nor, on request, any file of a middle block. */
  ghost predicate Tidied(files: Files, before: Files, middleKept: bool) {
    && files.Keys <= before.Keys && (forall p :: p in files ==> files[p] == before[p])
    && (forall key, name :: StoredRange(before, key, name).Some? ==> EdgeBin(key, name) in files && EdgeSidecar(key, name) in files)
    && (middleKept ==> forall b :: (MiddleBin(b) in before ==> MiddleBin(b) in files)
                                 && (MiddleSidecar(b) in before ==> MiddleSidecar(b) in files))
  }

  lemma ProbeTidies(files: Files)
    ensures Tidied(files, files, true)
    ensures forall key, name :: Tidied(Probed(files, key, name), files, true)
  {
    forall key, name ensures Tidied(Probed(files, key, name), files, true) {
      forall k, n | StoredRange(files, k, n).Some?
        ensures EdgeBin(k, n) in Probed(files, key, name) && EdgeSidecar(k, n) in Probed(files, key, name)
      {
      }
    }
  }

  lemma TidiedKeepsProbe(files: Files, before: Files, middleKept: bool, key: Key, name: BlockName, r: ByteRange)
    requires Tidied(files, before, middleKept) && NonEmpty(r) && Probe(before, key, name, r).Some?
    ensures Probe(files, key, name, r) == Probe(before, key, name, r)
  {
    assert StoredRange(before, key, name).Some?;
  }

  lemma TidiedKeepsUsable(files: Files, before: Files, spans: Option<seq<Span>>, now: Instant)
    requires Tidied(files, before, true) && AllUsable(spans, before, now)
    ensures AllUsable(spans, files, now)
  {
    forall i | 0 <= i < |spans.value|
      ensures Usable(spans.value[i].record, files, now)
    {
      assert Usable(spans.value[i].record, before, now);
    }
  }

  /** A head or tail block that may hold the range does. */
  predicate EdgeHit(files: Files, key: Key, r: ByteRange, size: int, z: Sizes) {
    && NonEmpty(r) && CacheBlockForRequest(r, size, z).Some?
    && Probe(files, key, CacheBlockForRequest(r, size, z).value.name, r).Some?
  }

  ghost predicate Hit(db: Db, files: Files, middleEnabled: bool, q: Request, key: Key, meta: Meta, access: Access, now: Instant) {
    && PlanWith(q.rangeHeader, meta.size, q.sizes).Parsed?
    && var r := PlanWith(q.rangeHeader, meta.size, q.sizes).range;
       || q.head
       || (access.read && middleEnabled && AllUsable(Chosen(db, key, r), files, now))
       || (access.write && EdgeHit(files, key, r, meta.size, q.sizes))
  }

  /** What a cache hit was before a miss tidied up, it still is. */
  lemma HitStays(db: Db, files: Files, before: Files, middleEnabled: bool, q: Request, key: Key, meta: Meta, access: Access, now: Instant)
    requires ValidSizes(q.sizes) && Tidied(files, before, true)
    ensures Hit(db, before, middleEnabled, q, key, meta, access, now) ==> Hit(db, files, middleEnabled, q, key, meta, access, now)
  {
    if Hit(db, before, middleEnabled, q, key, meta, access, now) {
      var r := PlanWith(q.rangeHeader, meta.size, q.sizes).range;
      var block := CacheBlockForRequest(r, meta.size, q.sizes);
      PlannedIsInside(q.rangeHeader, meta.size, q.sizes);
      if AllUsable(Chosen(db, key, r), before, now) { TidiedKeepsUsable(files, before, Chosen(db, key, r), now); }
      if EdgeHit(before, key, r, meta.size, q.sizes) { TidiedKeepsProbe(files, before, true, key, block.value.name, r); }
    }
  }

  lemma MissTidies(records: seq<Block>, db: Db, files: Files, before: Db, filesBefore: Files, now: Instant)
    requires MissEffect(records, db, files, before, filesBefore, now)
    ensures Tidied(files, filesBefore, false)
  {
  }

  /** The writer holds the answer's status line and headers, and its body or, after a failure, a prefix of it. */
  ghost predicate Delivered(w: ResponseWriter, a: Answer, complete: bool)
    reads w, w.client
  {
    && a.Respond? && w.status == Some(a.status) && w.headers == a.headers
    && w.client.received <= a.body && (complete ==> w.client.received == a.body)
  }

  ghost predicate Untouched(w: ResponseWriter)
    reads w, w.client
  {
    w.status == None && w.client.received == []
  }

  /** The two sequences agree wherever both are defined. */
  predicate AgreeOn(a: seq<Byte>, b: seq<Byte>) { forall i :: 0 <= i < |a| && i < |b| ==> a[i] == b[i] }

  lemma DeliveredAgrees(data: seq<Byte>, origin: seq<Byte>, r: ByteRange)
    requires 0 <= r.start <= r.end < |origin| && Agrees(data, origin, r.start, r.Length())
    ensures AgreeOn(data, Slice(origin, r))
  {
  }

  lemma PrefixesAgree(part: seq<Byte>, a: seq<Byte>, b: seq<Byte>)
    requires part <= a && AgreeOn(a, b) && |part| <= |b|
    ensures part <= b
  {
    forall i | 0 <= i < |part|
      ensures part[i] == b[i]
    {
      assert part[i] == a[i];
    }
  }
}
