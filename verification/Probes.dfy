/** What the caches accept and refuse, in the terms of concrete files, headers and sizes. */
module Probes {
  import opened Intervals
  import opened RangeText
  import opened OriginBody
  import opened Tables
  import opened Playback
  import opened DiskFiles
  import opened MiddleBlocks
  import opened EdgeBlocks

  // ---- decimal numbers

  /** Decimal notation, digit by digit. */
  lemma PrintIsDecimal(n: nat, d: nat)
    requires d < 10
    ensures Print(d) == [('0' as int + d) as char]
    ensures n > 0 ==> Print(10 * n + d) == Print(n) + [('0' as int + d) as char]
  {
    assert DIGITS[d] == ('0' as int + d) as char;
    assert (10 * n + d) / 10 == n && (10 * n + d) % 10 == d;
  }

  /** Exactly the numbers of an int64 parse. */
  lemma ParsesInt64(n: nat)
    ensures ParseInt(Print(n)) == if n <= 9223372036854775807 then Some(n) else None
  {
    DigitsOfPrint(n);
    assert IsDigit(Print(n)[0]);
  }

  predicate AllSpace(s: string) { forall i :: 0 <= i < |s| ==> IsSpace(s[i]) }

  lemma {:induction false} TrimLeftExact(before: string, s: string)
    requires AllSpace(before) && (s != [] ==> !IsSpace(s[0]))
    ensures TrimLeft(before + s) == s
  {
    if before == [] {
      assert before + s == s;
    } else {
      assert (before + s)[1..] == before[1..] + s;
      TrimLeftExact(before[1..], s);
    }
  }

  lemma {:induction false} TrimRightExact(s: string, after: string)
    requires AllSpace(after) && (s != [] ==> !IsSpace(s[|s| - 1]))
    ensures TrimRight(s + after) == s
  {
    if after == [] {
      assert s + after == s;
    } else {
      var n := |after| - 1;
      assert (s + after)[..|s + after| - 1] == s + after[..n];
      TrimRightExact(s, after[..n]);
    }
  }

  /** Trimming takes off the spaces at both ends and nothing else. */
  lemma TrimExact(before: string, s: string, after: string)
    requires AllSpace(before) && AllSpace(after) && s != [] && !IsSpace(s[0]) && !IsSpace(s[|s| - 1])
    ensures TrimSpace(before + s + after) == s
  {
    assert before + s + after == before + (s + after);
    TrimLeftExact(before, s + after);
    TrimRightExact(s, after);
  }

  /** A sign is read as one. */
  lemma ParsesNegative(n: nat)
    ensures ParseInt("-" + Print(n)) == if n <= 9223372036854775808 then Some(0 - n as int) else None
  {
    DigitsOfPrint(n);
    var s := "-" + Print(n);
    assert s[0] == '-' && s[1..] == Print(n);
  }

  lemma ParsesPositive(n: nat)
    ensures ParseInt("+" + Print(n)) == if n <= 9223372036854775807 then Some(n) else None
  {
    DigitsOfPrint(n);
    var s := "+" + Print(n);
    assert s[0] == '+' && s[1..] == Print(n);
  }

  // ---- texts that are accepted

  lemma {:induction false} SplitParts(s: string, separator: char)
    ensures var parts := Split(s, separator);
      && separator !in parts[0]
      && (|parts| == 1 ==> s == parts[0])
      && (|parts| == 2 ==> s == parts[0] + [separator] + parts[1] && separator !in parts[1])
  {
    if s != [] {
      SplitParts(s[1..], separator);
      assert s == [s[0]] + s[1..];
    }
  }

  /** A sidecar is accepted exactly when it is, but for spaces around it, two int64 numbers with one dash between them. */
  lemma SidecarExact(text: string, a: string, b: string)
    ensures '-' !in a && '-' !in b && TrimSpace(text) == a + "-" + b ==>
      ReadSidecar(text)
      == (if ParseInt(a).Some? && ParseInt(b).Some? then Some(ByteRange(ParseInt(a).value, ParseInt(b).value)) else None)
    ensures ReadSidecar(text).Some? ==>
      exists left, right :: '-' !in left && '-' !in right && TrimSpace(text) == Dashed(left, right)
  {
    if '-' !in a && '-' !in b && TrimSpace(text) == a + "-" + b { SplitOnce(a, '-', b); }
    SplitParts(TrimSpace(text), '-');
    if ReadSidecar(text).Some? {
      var parts := Split(TrimSpace(text), '-');
      assert TrimSpace(text) == Dashed(parts[0], parts[1]);
    }
  }

  function Dashed(left: string, right: string): string { left + "-" + right }

  /** The text is `bytes a-b/n`, with these digits. */
  predicate IsContentRange(s: string, a: string, b: string, n: string) {
    a != [] && b != [] && n != [] && AllDigits(a) && AllDigits(b) && AllDigits(n) && s == "bytes " + a + "-" + b + "/" + n
  }

  /** The three numbers as a range of a total, when they are one. */
  function Named(start: Option<int>, end: Option<int>, size: Option<int>): Option<ContentRange> {
    if start.Some? && end.Some? && size.Some? && start.value <= end.value < size.value && 0 < size.value
    then Some(ContentRange(ByteRange(start.value, end.value), size.value)) else None
  }

  /** A text of this shape is accepted exactly when its numbers are int64 and name a non-empty range inside the total. */
  lemma ContentRangeAccepted(s: string, a: string, b: string, n: string)
    requires IsContentRange(s, a, b, n)
    ensures ParseContentRange(s) == Named(ParseInt(a), ParseInt(b), ParseInt(n))
  {
    ContentRangeGroups(a, b, n);
  }

  /** And no other text is. */
  lemma ContentRangeShape(s: string) returns (a: string, b: string, n: string)
    requires ParseContentRange(s).Some?
    ensures IsContentRange(s, a, b, n)
  {
    var body := s[|BYTES_SP|..];
    var i := DigitRun(body);
    var tail := body[i + 1..];
    var j := DigitRun(tail);
    a, b, n := body[..i], tail[..j], tail[j + 1..];
    Rejoin(body, i);
    Rejoin(tail, j);
    assert s == "bytes " + body;
    Concatenated("bytes ", a, [body[i]], b, [tail[j]], n);
  }

  lemma Rejoin(s: string, i: nat)
    requires i < |s|
    ensures s == s[..i] + ([s[i]] + s[i + 1..])
  {
  }

  lemma Concatenated(p: string, a: string, c: string, b: string, d: string, n: string)
    ensures p + (a + (c + (b + (d + n)))) == p + a + c + b + d + n
  {
  }

  // ---- origin responses

  lemma PartialOpensAs(resp: OriginResponse, r: ByteRange, size: nat, parsed: Option<ContentRange>)
    requires resp.status == 206 && ParseContentRange(resp.contentRange) == parsed && resp.contentLength == []
    ensures Opened(resp, r, size) == if parsed == Some(ContentRange(r, size)) then Some(resp.data) else None
  {
  }

  lemma PartialOpensWithLength(resp: OriginResponse, r: ByteRange, size: nat, parsed: Option<ContentRange>, length: Option<int>)
    requires resp.status == 206 && ParseContentRange(resp.contentRange) == parsed
    requires resp.contentLength != [] && ParseInt(resp.contentLength) == length
    ensures Opened(resp, r, size)
         == if parsed == Some(ContentRange(r, size)) && length == Some(r.end - r.start + 1) then Some(resp.data) else None
  {
  }

  /** A 206 is opened exactly when its Content-Range names the range and size asked for and its length, if given, is the range's. */
  lemma PartialOpens(r: ByteRange, size: nat, sent: ByteRange, total: nat, length: nat, data: seq<Byte>, breaks: bool)
    requires 0 <= sent.start <= sent.end < total <= MAX_INT64 && length <= MAX_INT64
    ensures var header := "bytes " + Print(sent.start) + "-" + Print(sent.end) + "/" + Print(total);
      && Opened(OriginResponse(206, header, Print(length), data, breaks), r, size)
         == (if sent == r && total == size && length == r.end - r.start + 1 then Some(data) else None)
      && Opened(OriginResponse(206, header, "", data, breaks), r, size) == (if sent == r && total == size then Some(data) else None)
  {
    var header := "bytes " + Print(sent.start) + "-" + Print(sent.end) + "/" + Print(total);
    assert header == PrintContentRange(sent, total);
    ContentRangeRoundTrip(sent, total);
    ParsePrint(length);
    var parsed := Some(ContentRange(sent, total));
    PartialOpensWithLength(OriginResponse(206, header, Print(length), data, breaks), r, size, parsed, Some(length));
    PartialOpensAs(OriginResponse(206, header, "", data, breaks), r, size, parsed);
  }

  /** A 200 is opened exactly when the range is inside the file, the body reaches it, and its length is the file's. */
  lemma WholeOpens(r: ByteRange, size: nat, header: string, length: nat, data: seq<Byte>, breaks: bool)
    requires length <= MAX_INT64
    ensures var inside := 0 <= r.start <= r.end < size && r.start <= |data|;
      && Opened(OriginResponse(200, header, Print(length), data, breaks), r, size)
         == (if inside && length == size then Some(data[r.start..Min(|data|, r.end + 1)]) else None)
      && Opened(OriginResponse(200, header, "", data, breaks), r, size)
         == (if inside then Some(data[r.start..Min(|data|, r.end + 1)]) else None)
  {
    ParsePrint(length);
  }

  lemma OtherStatusRefused(resp: OriginResponse, r: ByteRange, size: int)
    requires resp.status != 200 && resp.status != 206
    ensures Opened(resp, r, size) == None
  {
  }

  // ---- which head or tail block may hold a request

  /**
   * A request that ends in the head goes to the head block, one that starts in the tail to the tail block, and one to
   * the last byte that starts a little before the tail to a tail block widened to its start, if widening is on.
   */
  lemma ChosenBlock(r: ByteRange, size: int, z: Sizes)
    requires ValidSizes(z) && 0 <= r.start <= r.end < size
    ensures CacheBlockForRequest(r, size, z)
         == if r.end < z.headBytes then Some(CacheBlock(Head, ByteRange(0, (if z.headBytes < size then z.headBytes else size) - 1), false))
            else if size - z.tailBytes <= r.start then
              Some(CacheBlock(Tail, ByteRange(if z.tailBytes < size then size - z.tailBytes else 0, size - 1), false))
            else if r.end == size - 1 && size - z.adaptiveTailMaxBytes <= r.start then Some(CacheBlock(Tail, ByteRange(r.start, size - 1), true))
            else None
  {
  }

  // ---- the files of a block

  /** A head or tail block just installed answers exactly the requests inside it, with the origin's bytes. */
  lemma InstalledIsFound(files: Files, key: Key, name: BlockName, block: ByteRange, requested: ByteRange, origin: seq<Byte>)
    requires 0 <= block.start <= block.end < |origin| <= MAX_INT64 && NonEmpty(requested)
    ensures var found := Probe(files[EdgeBin(key, name) := Data(Slice(origin, block))][EdgeSidecar(key, name) := Text(PrintSidecar(block))],
                               key, name, requested);
      && (found.Some? <==> block.start <= requested.start && requested.end <= block.end)
      && (found.Some? ==> found.value == origin[requested.start..requested.end + 1])
  {
    SidecarRoundTrip(block);
    var now := files[EdgeBin(key, name) := Data(Slice(origin, block))][EdgeSidecar(key, name) := Text(PrintSidecar(block))];
    assert StoredRange(now, key, name) == Some(block);
    if requested.Within(block) { PartOfSlice(Slice(origin, block), origin, block, requested); }
  }

  /** Whatever its sidecar says, a head or tail file of another length is not served. */
  lemma WrongLengthIsMissed(files: Files, key: Key, name: BlockName, block: ByteRange, requested: ByteRange)
    requires 0 <= block.start <= block.end <= MAX_INT64 && NonEmpty(requested)
    requires EdgeSidecar(key, name) in files && files[EdgeSidecar(key, name)] == Text(PrintSidecar(block))
    requires EdgeBin(key, name) in files && files[EdgeBin(key, name)].Data?
    ensures |files[EdgeBin(key, name)].bytes| != block.end - block.start + 1 ==> Probe(files, key, name, requested) == None
  {
    SidecarRoundTrip(block);
  }

  /** A probe that finds an entry that does not add up takes both its files away, and no other. */
  lemma BrokenEntryIsRemoved(files: Files, key: Key, name: BlockName, p: Path)
    ensures var broken := StoredRange(files, key, name).None?;
      && (p in Probed(files, key, name) <==> p in files && !(broken && (p == EdgeBin(key, name) || p == EdgeSidecar(key, name))))
      && (p in Probed(files, key, name) ==> Probed(files, key, name)[p] == files[p])
    ensures EdgeBin(key, name) !in files || EdgeSidecar(key, name) !in files ==> StoredRange(files, key, name).None?
  {
  }

  /** A commit, a publication and a removal are steps that other actors may see one by one. */
  lemma OwnChangesAreSteps(files: Files, origins: Origins, key: Key, name: BlockName, block: ByteRange)
    requires EdgeRange(name, block, |origins(key)|) && |origins(key)| <= MAX_INT64
    ensures var id, bytes := BlockId(key, block.start, block.end), origins(key)[block.start..block.end + 1];
      && TakeSteps(files, [InstallEdge(key, name, block), InstallEdgeSidecar(key, name, block)], origins)
         == files[EdgeBin(key, name) := Data(bytes)][EdgeSidecar(key, name) := Text(PrintSidecar(block))]
      && TakeSteps(files, [InstallMiddle(id), InstallMiddleSidecar(id)], origins)
         == files[MiddleBin(id) := Data(bytes)][MiddleSidecar(id) := Text(PrintSidecar(block))]
      && TakeSteps(files, [Drop(EdgeBin(key, name)), Drop(EdgeSidecar(key, name))], origins)
         == files - {EdgeBin(key, name)} - {EdgeSidecar(key, name)}
      && TakeSteps(files, [Drop(MiddleBin(id)), Drop(MiddleSidecar(id))], origins) == files - {MiddleBin(id)} - {MiddleSidecar(id)}
  {
    var id := BlockId(key, block.start, block.end);
    TwoSteps(files, InstallEdge(key, name, block), InstallEdgeSidecar(key, name, block), origins);
    TwoSteps(files, InstallMiddle(id), InstallMiddleSidecar(id), origins);
    TwoSteps(files, Drop(EdgeBin(key, name)), Drop(EdgeSidecar(key, name)), origins);
    TwoSteps(files, Drop(MiddleBin(id)), Drop(MiddleSidecar(id)), origins);
  }

  lemma TwoSteps(files: Files, a: FileStep, b: FileStep, origins: Origins)
    ensures TakeSteps(files, [a, b], origins) == TakeStep(TakeStep(files, a, origins), b, origins)
  {
    assert [a, b][1..] == [b] && [b][1..] == [];
    assert TakeSteps(TakeStep(files, a, origins), [b], origins) == TakeStep(TakeStep(files, a, origins), b, origins);
  }

  /** A middle block whose two files are there is usable exactly when it has not expired, its size is the file's and the sidecar names its range. */
  lemma MiddleUsable(b: Block, files: Files, now: Instant, named: ByteRange)
    requires 0 <= b.id.start <= b.id.end && b.size == b.id.end - b.id.start + 1 && b.path == b.id
    requires 0 <= named.start <= MAX_INT64 && 0 <= named.end <= MAX_INT64
    requires MiddleBin(b.id) in files && files[MiddleBin(b.id)].Data?
    requires MiddleSidecar(b.id) in files && files[MiddleSidecar(b.id)] == Text(PrintSidecar(named))
    ensures Usable(b, files, now) <==>
      now < b.expiresAt && |files[MiddleBin(b.id)].bytes| == b.size && named == ByteRange(b.id.start, b.id.end)
  {
    SidecarRoundTrip(named);
  }

  /** Without either file, or with a row that contradicts its own range or points elsewhere, it is not. */
  lemma MiddleUnusable(b: Block, files: Files, now: Instant)
    requires MiddleBin(b.id) !in files || MiddleSidecar(b.id) !in files || b.path != b.id || b.size != b.id.end - b.id.start + 1
    ensures !Usable(b, files, now)
  {
  }

  /** A cache of head and tail blocks without a limit evicts nothing. */
  lemma NoLimitNoEviction(files: Files, before: Files, listing: seq<Entry>, maxBytes: int, reliable: bool)
    requires maxBytes <= 0 && AfterEviction(files, before, listing, Evicting(listing, maxBytes), reliable)
    ensures files == before
  {
    assert listing[..0] == [] && PathsOf([]) == {};
    forall p | p in before ensures p in files { assert p in before.Keys - files.Keys ==> p in PathsOf([]); }
  }
}
