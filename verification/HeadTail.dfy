/** Head and tail blocks: two files per block, replaced and removed one at a time, probed as one step. */
module EdgeBlocks {
  import opened Intervals
  import opened RangeText
  import opened OriginBody
  import opened Tables
  import opened Playback
  import opened DiskFiles
  import opened MiddleBlocks

  /** The stored range, when the sidecar parses and the block file has exactly its length. */
  function StoredRange(files: Files, key: Key, name: BlockName): Option<ByteRange> {
    if EdgeSidecar(key, name) !in files || !files[EdgeSidecar(key, name)].Text? then None
    else
      var r := ReadStoredRange(files[EdgeSidecar(key, name)].text);
      if r.None? then None
      else if EdgeBin(key, name) !in files || !files[EdgeBin(key, name)].Data? then None
      else if |files[EdgeBin(key, name)].bytes| != r.value.Length() then None
      else r
  }

  /** A probe deletes an entry that does not add up, and nothing else. */
  function Probed(files: Files, key: Key, name: BlockName): Files {
    if StoredRange(files, key, name).Some? then files else files - {EdgeBin(key, name)} - {EdgeSidecar(key, name)}
  }

  /** Only the two files of the entry may have changed, by disappearing. */
  predicate OthersKept(before: Files, after: Files, key: Key, name: BlockName) {
    && after.Keys <= before.Keys
    && (forall p :: p in after ==> after[p] == before[p])
    && (forall p :: p in before && p != EdgeBin(key, name) && p != EdgeSidecar(key, name) ==> p in after)
  }

  /** The bytes an atomic probe would serve. */
  function Probe(files: Files, key: Key, name: BlockName, requested: ByteRange): Option<seq<Byte>>
    requires NonEmpty(requested)
  {
    var stored := StoredRange(files, key, name);
    if stored.None? || !requested.Within(stored.value) then None
    else Some(PartOf(files[EdgeBin(key, name)].bytes, stored.value, requested))
  }

  /** The requested part of a file that holds the stored range. */
  function PartOf(bytes: seq<Byte>, stored: ByteRange, requested: ByteRange): seq<Byte>
    requires |bytes| == stored.Length() && NonEmpty(requested) && requested.Within(stored)
  {
    bytes[requested.start - stored.start..requested.end - stored.start + 1]
  }

  lemma PartOfSlice(bytes: seq<Byte>, origin: seq<Byte>, stored: ByteRange, requested: ByteRange)
    requires 0 <= stored.start <= stored.end < |origin| && bytes == Slice(origin, stored)
    requires NonEmpty(requested) && requested.Within(stored)
    ensures PartOf(bytes, stored, requested) == Slice(origin, requested)
  {
    SliceOfSlice(origin, stored, requested);
  }

  /** Equal length implies equal range, so a file and a sidecar from different commits still fit when their lengths do. */
  lemma StoredFileIsItsRange(files: Files, key: Key, name: BlockName, origins: Origins)
    requires FilesOk(files, origins) && StoredRange(files, key, name).Some?
    ensures var r := StoredRange(files, key, name).value;
      0 <= r.start <= r.end < |origins(key)| && files[EdgeBin(key, name)] == Data(Slice(origins(key), r))
  {
    assert PathOk(EdgeSidecar(key, name), files[EdgeSidecar(key, name)], origins);
    assert PathOk(EdgeBin(key, name), files[EdgeBin(key, name)], origins);
    EdgeBytes(name, StoredRange(files, key, name).value, files[EdgeBin(key, name)].bytes, origins(key));
  }

  /** A prefix as long as a head range is that range; a suffix as long as a tail range is that range. */
  lemma EdgeBytes(name: BlockName, r: ByteRange, bytes: seq<Byte>, origin: seq<Byte>)
    requires EdgeRange(name, r, |origin|) && |bytes| == r.Length()
    requires bytes == if name.Head? then origin[..|bytes|] else origin[|origin| - |bytes|..]
    ensures bytes == Slice(origin, r)
  {
  }

  lemma ProbeIsSlice(files: Files, key: Key, name: BlockName, requested: ByteRange, origins: Origins)
    requires FilesOk(files, origins) && NonEmpty(requested) && Probe(files, key, name, requested).Some?
    ensures 0 <= requested.start && requested.end < |origins(key)|
    ensures Probe(files, key, name, requested).value == Slice(origins(key), requested)
  {
    StoredFileIsItsRange(files, key, name, origins);
    PartOfSlice(files[EdgeBin(key, name)].bytes, origins(key), StoredRange(files, key, name).value, requested);
  }

  /** Torn publication is safe: at any point of any interleaving an atomic probe misses or serves the right bytes. */
  lemma ProbeServesOrigin(files: Files, steps: seq<FileStep>, key: Key, name: BlockName, requested: ByteRange, origins: Origins)
    requires FilesOk(files, origins) && NonEmpty(requested)
    ensures var found := Probe(TakeSteps(files, steps, origins), key, name, requested);
      found.Some? ==> 0 <= requested.start && requested.end < |origins(key)| && found.value == Slice(origins(key), requested)
  {
    StepsKeepFilesOk(files, steps, origins);
    var now := TakeSteps(files, steps, origins);
    if Probe(now, key, name, requested).Some? { ProbeIsSlice(now, key, name, requested, origins); }
  }

  // ---- eviction by age

  /** A block file as the eviction sees it. */
  datatype Entry = Entry(key: Key, name: BlockName, size: nat)

  /** Every block file of the directory, once, with its size; the order is that of the files' times, which the model leaves open. */
  predicate IsListing(listing: seq<Entry>, files: Files) {
    && (forall i :: 0 <= i < |listing| ==>
          var p := EdgeBin(listing[i].key, listing[i].name);
          p in files && files[p].Data? && |files[p].bytes| == listing[i].size)
    && (forall i, j :: 0 <= i < j < |listing| ==> (listing[i].key, listing[i].name) != (listing[j].key, listing[j].name))
    && (forall p :: p in files && p.EdgeBin? ==> exists i :: 0 <= i < |listing| && listing[i].key == p.key && listing[i].name == p.name)
  }

  function TotalSize(listing: seq<Entry>): nat {
    if listing == [] then 0 else listing[0].size + TotalSize(listing[1..])
  }

  /** How many entries go, oldest first. */
  function Evictions(listing: seq<Entry>, total: int, maxBytes: int): nat {
    if total <= maxBytes || listing == [] then 0 else 1 + Evictions(listing[1..], total - listing[0].size, maxBytes)
  }

  function Evicting(listing: seq<Entry>, maxBytes: int): (n: nat)
    ensures n <= |listing|
  {
    if maxBytes <= 0 then 0 else
      EvictionsBound(listing, TotalSize(listing), maxBytes);
      Evictions(listing, TotalSize(listing), maxBytes)
  }

  lemma {:induction false} EvictionsBound(listing: seq<Entry>, total: int, maxBytes: int)
    ensures Evictions(listing, total, maxBytes) <= |listing|
  {
    if total > maxBytes && listing != [] { EvictionsBound(listing[1..], total - listing[0].size, maxBytes); }
  }

  function PathsOf(listing: seq<Entry>): set<Path> {
    (set e | e in listing :: EdgeBin(e.key, e.name)) + (set e | e in listing :: EdgeSidecar(e.key, e.name))
  }

  /** The directory after an eviction: the paths of the first entries are gone, all of them if no removal failed. */
  predicate AfterEviction(files: Files, before: Files, listing: seq<Entry>, n: nat, reliable: bool)
    requires n <= |listing|
  {
    && files.Keys <= before.Keys && (forall p :: p in files ==> files[p] == before[p])
    && before.Keys - files.Keys <= PathsOf(listing[..n])
    && (reliable ==> files == before - PathsOf(listing[..n]))
  }

  lemma {:induction false} TotalSplit(listing: seq<Entry>, n: nat)
    requires n <= |listing|
    ensures TotalSize(listing) == TotalSize(listing[..n]) + TotalSize(listing[n..])
  {
    if n == 0 {
      assert listing[..0] == [] && listing[0..] == listing;
    } else {
      TotalSplit(listing[1..], n - 1);
      assert listing[..n][1..] == listing[1..][..n - 1] && listing[n..] == listing[1..][n - 1..];
    }
  }

  lemma {:induction false} EvictionsShortest(listing: seq<Entry>, total: int, maxBytes: int)
    ensures var n := Evictions(listing, total, maxBytes);
      && n <= |listing|
      && (n < |listing| ==> total - TotalSize(listing[..n]) <= maxBytes)
      && forall k :: 0 <= k < n ==> total - TotalSize(listing[..k]) > maxBytes
  {
    if total > maxBytes && listing != [] {
      EvictionsShortest(listing[1..], total - listing[0].size, maxBytes);
      forall k | 0 < k <= |listing|
        ensures TotalSize(listing[..k]) == listing[0].size + TotalSize(listing[1..][..k - 1])
      {
        assert listing[..k][1..] == listing[1..][..k - 1];
      }
    }
  }

  /** What is left fits the limit and is exactly the later entries; one entry fewer would not have been enough. */
  lemma EdgeEvictionExact(files: Files, listing: seq<Entry>, maxBytes: int)
    requires IsListing(listing, files) && maxBytes > 0
    ensures var n := Evicting(listing, maxBytes);
      && IsListing(listing[n..], files - PathsOf(listing[..n])) && TotalSize(listing[n..]) <= maxBytes
      && forall k :: 0 <= k < n ==> TotalSize(listing[k..]) > maxBytes
  {
    var n := Evicting(listing, maxBytes);
    EvictionsShortest(listing, TotalSize(listing), maxBytes);
    forall k | 0 <= k <= n
      ensures TotalSize(listing[k..]) == TotalSize(listing) - TotalSize(listing[..k])
    {
      TotalSplit(listing, k);
    }
    assert n == |listing| ==> listing[n..] == [];
    LaterEntries(files, listing, n);
  }

  lemma LaterEntries(files: Files, listing: seq<Entry>, n: nat)
    requires IsListing(listing, files) && n <= |listing|
    ensures IsListing(listing[n..], files - PathsOf(listing[..n]))
  {
    var gone, left := PathsOf(listing[..n]), listing[n..];
    forall i | 0 <= i < |left|
      ensures EdgeBin(left[i].key, left[i].name) !in gone
    {
      assert left[i] == listing[n + i];
    }
    forall i | 0 <= i < n
      ensures EdgeBin(listing[i].key, listing[i].name) in gone
    {
      assert listing[..n][i] in listing[..n];
    }
    forall p | p in files - gone && p.EdgeBin?
      ensures exists i :: 0 <= i < |left| && left[i].key == p.key && left[i].name == p.name
    {
      var i :| 0 <= i < |listing| && listing[i].key == p.key && listing[i].name == p.name;
      assert i >= n;
      assert left[i - n] == listing[i];
    }
  }

  class EdgeCache {
    const disk: Disk
    const maxBytes: int

    constructor (disk: Disk, maxBytes: int)
      ensures this.disk == disk && this.maxBytes == maxBytes
    {
      this.disk, this.maxBytes := disk, maxBytes;
    }

    /** The Glob and the sort of EvictIfNeeded: all block files, in any order. */
    method ListEntries() returns (listing: seq<Entry>)
      requires disk.Ok()
      ensures IsListing(listing, disk.files)
    {
      listing := [];
      var todo := set p | p in disk.files && p.EdgeBin?;
      while todo != {}
        invariant todo <= disk.files.Keys && forall p :: p in todo ==> p.EdgeBin?
        invariant IsListing(listing, disk.files - todo)
        decreases todo
      {
        var p :| p in todo;
        assert PathOk(p, disk.files[p], disk.origins);
        ListOneMore(listing, disk.files, todo, p);
        listing := listing + [Entry(p.key, p.name, |disk.files[p].bytes|)];
        todo := todo - {p};
      }
      assert disk.files - todo == disk.files;
    }

    /** EvictIfNeeded: the oldest blocks go until the rest fits; no limit, no eviction. */
    method EvictIfNeeded() returns (ghost listing: seq<Entry>)
      requires disk.Ok()
      modifies disk
      ensures disk.Ok() && IsListing(listing, old(disk.files))
      ensures AfterEviction(disk.files, old(disk.files), listing, Evicting(listing, maxBytes), disk.reliable)
    {
      var found := ListEntries();
      listing := found;
      NothingGone(disk.files, found, disk.reliable);
      if maxBytes <= 0 { return; }
      RemoveOldest(found);
    }

    /** The loop of EvictIfNeeded. */
    method RemoveOldest(found: seq<Entry>)
      requires disk.Ok() && maxBytes > 0
      modifies disk
      ensures disk.Ok() && AfterEviction(disk.files, old(disk.files), found, Evicting(found, maxBytes), disk.reliable)
    {
      var total: int := SumOfSizes(found);
      var i := 0;
      ghost var count, first := Evicting(found, maxBytes), disk.files;
      assert found[0..] == found;
      NothingGone(disk.files, found, disk.reliable);
      while i < |found| && total > maxBytes
        invariant 0 <= i <= |found| && disk.Ok()
        invariant i + Evictions(found[i..], total, maxBytes) == count
        invariant AfterEviction(disk.files, first, found, i, disk.reliable)
      {
        OneEviction(found, i, total, maxBytes);
        RemoveNext(found, i, first);
        total := total - found[i].size;
        i := i + 1;
      }
    }

    method RemoveNext(listing: seq<Entry>, i: nat, ghost first: Files)
      requires disk.Ok() && i < |listing| && AfterEviction(disk.files, first, listing, i, disk.reliable)
      modifies disk
      ensures disk.Ok() && AfterEviction(disk.files, first, listing, i + 1, disk.reliable)
    {
      ghost var before := disk.files;
      RemoveEntry(listing[i].key, listing[i].name);
      OneMoreGone(disk.files, before, first, listing, i, disk.reliable);
    }

    method RemoveEntry(key: Key, name: BlockName)
      requires disk.Ok()
      modifies disk
      ensures disk.Ok() && OthersKept(old(disk.files), disk.files, key, name)
      ensures disk.reliable ==> disk.files == old(disk.files) - {EdgeBin(key, name)} - {EdgeSidecar(key, name)}
    {
      disk.Remove(EdgeBin(key, name));
      disk.Remove(EdgeSidecar(key, name));
    }

    /** The probe of IterBlock: an entry that does not add up is removed, a request outside the stored range is only a miss. */
    method Open(key: Key, name: BlockName, requested: ByteRange) returns (handle: Option<seq<Byte>>)
      requires disk.Ok() && NonEmpty(requested)
      modifies disk
      ensures disk.Ok()
      ensures handle.Some? ==> handle == old(Probe(disk.files, key, name, requested)) && disk.files == old(disk.files)
      ensures handle.Some? ==>
        0 <= requested.start && requested.end < |disk.origins(key)| && handle.value == Slice(disk.origins(key), requested)
      ensures OthersKept(old(disk.files), disk.files, key, name)
      ensures disk.reliable ==>
        handle == old(Probe(disk.files, key, name, requested)) && disk.files == Probed(old(disk.files), key, name)
    {
      var stored := StoredRange(disk.files, key, name);
      if stored.None? {
        RemoveEntry(key, name);
        return None;
      }
      if requested.start < stored.value.start || requested.end > stored.value.end { return None; }
      ProbeIsSlice(disk.files, key, name, requested, disk.origins);
      var openable := disk.Works();
      if !openable {
        RemoveEntry(key, name);
        return None;
      }
      handle := Some(PartOf(disk.files[EdgeBin(key, name)].bytes, stored.value, requested));
    }

    /** HasBlockRange, the probe of a HEAD request. */
    method HasBlockRange(key: Key, name: BlockName, requested: ByteRange) returns (found: bool)
      requires disk.Ok() && NonEmpty(requested)
      modifies disk
      ensures disk.Ok()
      ensures found <==> old(Probe(disk.files, key, name, requested)).Some?
      ensures OthersKept(old(disk.files), disk.files, key, name)
      ensures disk.reliable ==> disk.files == Probed(old(disk.files), key, name)
    {
      var stored := StoredRange(disk.files, key, name);
      if stored.None? {
        RemoveEntry(key, name);
        return false;
      }
      return requested.start >= stored.value.start && requested.end <= stored.value.end;
    }

    /** The streaming goroutine of IterBlock: the handle was opened by the probe, so later renames do not reach it. */
    method Stream(client: Client, handle: seq<Byte>, key: Key, name: BlockName, chunkBytes: nat) returns (complete: bool)
      requires disk.Ok() && chunkBytes > 0
      modifies disk, client
      ensures disk.Ok()
      ensures old(client.received) <= client.received <= old(client.received) + handle
      ensures complete ==> client.received == old(client.received) + handle
      ensures disk.reliable && client.steady ==> complete
    {
      ghost var before := client.received;
      var sent := 0;
      while sent < |handle|
        invariant disk.Ok() && 0 <= sent <= |handle|
        invariant client.received == before + handle[..sent]
      {
        var n := Min(chunkBytes, |handle| - sent);
        disk.OthersAct();
        var readable := disk.Works();
        if !readable {
          RemoveEntry(key, name);
          return false;
        }
        SliceJoin(handle, 0, sent, sent + n);
        assert handle[..sent] + handle[sent..sent + n] == handle[..sent + n];
        var written := client.WriteNext(handle[sent..sent + n], before, handle[..sent], handle);
        if !written { return false; }
        sent := sent + n;
      }
      assert handle[..sent] == handle;
      return true;
    }
  }

  method SumOfSizes(listing: seq<Entry>) returns (total: nat)
    ensures total == TotalSize(listing)
  {
    total := 0;
    for i := 0 to |listing|
      invariant total + TotalSize(listing[i..]) == TotalSize(listing)
    {
      assert listing[i..][1..] == listing[i + 1..];
      total := total + listing[i].size;
    }
  }

  lemma ListOneMore(listing: seq<Entry>, files: Files, todo: set<Path>, p: Path)
    requires p in todo && p in files && p.EdgeBin? && files[p].Data? && IsListing(listing, files - todo)
    ensures IsListing(listing + [Entry(p.key, p.name, |files[p].bytes|)], files - (todo - {p}))
  {
    var more := listing + [Entry(p.key, p.name, |files[p].bytes|)];
    forall i | 0 <= i < |listing|
      ensures (listing[i].key, listing[i].name) != (p.key, p.name)
    {
      assert EdgeBin(listing[i].key, listing[i].name) in files - todo;
    }
    forall q | q in files - (todo - {p}) && q.EdgeBin?
      ensures exists i :: 0 <= i < |more| && more[i].key == q.key && more[i].name == q.name
    {
      if q == p {
        assert more[|listing|].key == q.key && more[|listing|].name == q.name;
      } else {
        var i :| 0 <= i < |listing| && listing[i].key == q.key && listing[i].name == q.name;
        assert more[i] == listing[i];
      }
    }
  }

  lemma OneEviction(listing: seq<Entry>, i: nat, total: int, maxBytes: int)
    requires i < |listing| && total > maxBytes
    ensures Evictions(listing[i..], total, maxBytes) == 1 + Evictions(listing[i + 1..], total - listing[i].size, maxBytes)
  {
    assert listing[i..][1..] == listing[i + 1..];
  }

  lemma NothingGone(files: Files, listing: seq<Entry>, reliable: bool)
    ensures AfterEviction(files, files, listing, 0, reliable)
  {
    assert listing[..0] == [] && PathsOf([]) == {};
  }

  lemma OneMoreGone(files: Files, before: Files, first: Files, listing: seq<Entry>, i: nat, reliable: bool)
    requires i < |listing| && AfterEviction(before, first, listing, i, reliable)
    requires OthersKept(before, files, listing[i].key, listing[i].name)
    requires reliable ==>
      files == before - {EdgeBin(listing[i].key, listing[i].name)} - {EdgeSidecar(listing[i].key, listing[i].name)}
    ensures AfterEviction(files, first, listing, i + 1, reliable)
  {
    assert listing[..i + 1] == listing[..i] + [listing[i]];
    assert PathsOf(listing[..i + 1])
        == PathsOf(listing[..i]) + {EdgeBin(listing[i].key, listing[i].name), EdgeSidecar(listing[i].key, listing[i].name)};
  }

  /** A staged block: bytes collected in a private temporary file until Commit. */
  class BlockWriter {
    const disk: Disk
    const key: Key
    const name: BlockName
    const range: ByteRange
    var staged: seq<Byte>
    var bytesWritten: int
    var closed: bool

    constructor (disk: Disk, key: Key, name: BlockName, range: ByteRange)
      ensures this.disk == disk && this.key == key && this.name == name && this.range == range
      ensures staged == [] && bytesWritten == 0 && !closed
    {
      this.disk, this.key, this.name, this.range := disk, key, name, range;
      staged, bytesWritten, closed := [], 0, false;
    }

    predicate Valid()
      reads this
    {
      bytesWritten == |staged|
    }

    method Write(data: seq<Byte>, works: bool) returns (ok: bool)
      requires Valid()
      modifies this
      ensures Valid() && closed == old(closed)
      ensures ok <==> works && !old(closed)
      ensures staged == if ok then old(staged) + data else old(staged)
    {
      if closed || !works { return false; }
      staged, bytesWritten := staged + data, bytesWritten + |data|;
      return true;
    }

    /** Commit: only a block of exactly the right length is renamed into place, file first and sidecar second. */
    method Commit() returns (ok: bool)
      requires Valid() && disk.Ok()
      requires EdgeRange(name, range, |disk.origins(key)|) && |disk.origins(key)| <= MAX_INT64
      requires |staged| == range.Length() ==> staged == Slice(disk.origins(key), range)
      modifies this, disk
      ensures disk.Ok() && staged == old(staged)
      ensures closed && (old(closed) ==> !ok)
      ensures |staged| != range.Length() ==> !ok && disk.files == old(disk.files)
      ensures disk.reliable && !old(closed) && |staged| == range.Length() ==> ok
      ensures ok ==> disk.files == old(disk.files)[EdgeBin(key, name) := Data(Slice(disk.origins(key), range))]
                                                 [EdgeSidecar(key, name) := Text(PrintSidecar(range))]
    {
      if closed { return false; }
      closed := true;
      var handleClosed := disk.Works();
      if !handleClosed { return false; }
      if bytesWritten != range.Length() { return false; }
      var sidecarWritten := disk.Works();
      if !sidecarWritten { return false; }
      var renamed := disk.Rename(EdgeBin(key, name), Data(staged));
      if !renamed { return false; }
      EdgeSidecarIsOk(key, name, range, disk.origins);
      renamed := disk.Rename(EdgeSidecar(key, name), Text(PrintSidecar(range)));
      if !renamed {
        disk.Remove(EdgeBin(key, name));
        return false;
      }
      ok := disk.Works();
    }
  }
}
