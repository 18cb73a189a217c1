/** Reading a byte range from the origin: a 200 answer is cut down until it equals the 206 answer. */
module OriginBody {
  import opened Intervals
  import opened RangeText

  type Byte = x: int | 0 <= x < 256

  datatype ReadError = Ok | Eof | UnexpectedEof | Broken

  /** A response body on the wire: the bytes still to come, and whether it ends in an error instead of EOF. */
  class Body {
    const breaks: bool
    var rest: seq<Byte>

    constructor (data: seq<Byte>, breaks: bool)
      ensures rest == data && this.breaks == breaks
    {
      this.rest := data;
      this.breaks := breaks;
    }

    /** One Read: any short count, and the end reported with the last bytes or after them. */
    method Read(want: nat) returns (chunk: seq<Byte>, err: ReadError)
      requires want > 0
      modifies this
      ensures chunk + rest == old(rest) && |chunk| <= want
      ensures err == Ok ==> chunk != []
      ensures err != Ok ==> rest == []
      ensures err == Eof ==> !breaks
      ensures err == UnexpectedEof || err == Broken ==> breaks
    {
      var n := if |rest| < want then |rest| else want;
      if n > 1 {
        var fewer: nat :| 1 <= fewer <= n;
        n := fewer;
      }
      chunk, rest := rest[..n], rest[n..];
      err := Ok;
      if rest == [] {
        var late := *;
        if chunk == [] || !late {
          err := if breaks then Broken else Eof;
        }
      }
    }
  }

  datatype OriginResponse = OriginResponse(status: int, contentRange: string, contentLength: string, data: seq<Byte>, breaks: bool)

  /** The response tells the truth about the file: its bytes agree with the origin where it says they lie. */
  ghost predicate Honest(resp: OriginResponse, origin: seq<Byte>) {
    && (resp.status == 200 ==> Agrees(resp.data, origin, 0, |origin|))
    && (resp.status == 206 && ParseContentRange(resp.contentRange).Some? ==>
          var r := ParseContentRange(resp.contentRange).value.range;
          Agrees(resp.data, origin, r.start, r.Length()))
  }

  /** Up to count bytes of data equal the origin's bytes from the offset on. */
  ghost predicate Agrees(data: seq<Byte>, origin: seq<Byte>, offset: int, count: int) {
    forall i :: 0 <= i < |data| && i < count && 0 <= offset + i < |origin| ==> data[i] == origin[offset + i]
  }

  /** The io.ReadCloser of OpenRange: the raw body of a 206, or a boundedReadCloser over a 200. */
  class Reader {
    const body: Body
    const bounded: bool
    var remaining: int

    constructor (body: Body, bounded: bool, remaining: int)
      ensures this.body == body && this.bounded == bounded && this.remaining == remaining
    {
      this.body, this.bounded, this.remaining := body, bounded, remaining;
    }

    /** What a reader that never fails would still deliver. */
    function Upcoming(): seq<Byte>
      reads this, body
    {
      if !bounded then body.rest else body.rest[..Min(|body.rest|, Max(0, remaining))]
    }

    /** The bytes that were promised but that the body does not have. */
    predicate Short()
      reads this, body
    {
      bounded && |body.rest| < remaining
    }

    method Read(want: nat) returns (chunk: seq<Byte>, err: ReadError)
      requires want > 0
      modifies this`remaining, body
      ensures chunk + Upcoming() == old(Upcoming()) && |chunk| <= want
      ensures err == Ok ==> chunk != []
      ensures err == Eof ==> Upcoming() == [] && !old(Short())
      ensures err != Ok && err != Eof ==> body.rest == [] && (body.breaks || old(Short()))
      ensures bounded && old(remaining) >= 0 ==> remaining == old(remaining) - |chunk|
      ensures old(remaining) >= 0 || !bounded ==> Short() == old(Short())
    {
      if bounded && remaining <= 0 { return [], Eof; }
      ghost var before := body.rest;
      if !bounded {
        chunk, err := body.Read(want);
        assert before == chunk + body.rest;
        return;
      }
      var limit := if want > remaining then remaining else want;
      chunk, err := body.Read(limit);
      remaining := remaining - |chunk|;
      if err == Eof && remaining > 0 { err := UnexpectedEof; }
      assert before == chunk + body.rest;
      assert before[..Min(|before|, old(remaining))] == chunk + body.rest[..Min(|body.rest|, remaining)];
    }
  }

  /** io.CopyN(io.Discard, body, count). */
  method Discard(body: Body, count: nat) returns (ok: bool)
    modifies body
    ensures ok <==> old(|body.rest|) >= count
    ensures ok ==> body.rest == old(body.rest)[count..]
  {
    var skipped := 0;
    ghost var before := body.rest;
    while skipped < count
      invariant skipped <= count && skipped <= |before| && body.rest == before[skipped..]
      decreases count - skipped
    {
      var chunk, err := body.Read(count - skipped);
      assert before[skipped..] == chunk + body.rest;
      skipped := skipped + |chunk|;
      assert body.rest == before[skipped..];
      if err != Ok && skipped < count { return false; }
    }
    return true;
  }

  /** sliceStatusOKBody. */
  method SliceStatusOkBody(body: Body, lengthHeader: string, r: ByteRange, size: int) returns (reader: Option<Reader>)
    modifies body
    ensures reader.Some? ==>
      && 0 <= r.start <= r.end < size && r.start <= old(|body.rest|)
      && reader.value.body == body && fresh(reader.value) && reader.value.bounded && reader.value.remaining == r.Length()
      && body.rest == old(body.rest)[r.start..]
    ensures reader.None? <==>
      || !(0 <= r.start <= r.end < size)
      || (lengthHeader != [] && ParseInt(lengthHeader) != Some(size))
      || old(|body.rest|) < r.start
  {
    if size <= 0 || r.start < 0 || r.end < r.start || r.end >= size { return None; }
    if lengthHeader != [] {
      var parsed := ParseInt(lengthHeader);
      if parsed.None? || parsed.value != size { return None; }
    }
    if r.start > 0 {
      var ok := Discard(body, r.start);
      if !ok { return None; }
    }
    var bounded := new Reader(body, true, r.Length());
    return Some(bounded);
  }

  /** Everything an opened reader can deliver inside the range comes from the range, and a bounded reader stops at its end. */
  ghost predicate Delivers(reader: Reader, origin: seq<Byte>, r: ByteRange)
    reads reader, reader.body
  {
    && Agrees(reader.Upcoming(), origin, r.start, r.Length())
    && (reader.bounded ==> reader.remaining == r.Length() && |reader.Upcoming()| <= r.Length())
  }

  /** The response passes OpenRange's checks, has all the bytes asked for and no more, and does not break. */
  predicate Answers(resp: OriginResponse, r: ByteRange, size: int) {
    && !resp.breaks && 0 <= r.start <= r.end < size
    && (|| (resp.status == 200 && r.end < |resp.data| && (resp.contentLength == [] || ParseInt(resp.contentLength) == Some(size)))
        || (resp.status == 206 && ParseContentRange(resp.contentRange) == Some(ContentRange(r, size)) && |resp.data| == r.Length()
            && (resp.contentLength == [] || ParseInt(resp.contentLength) == Some(r.Length()))))
  }

  /** The bytes OpenRange makes available: a 206 as it is, a 200 cut to the range; None when it refuses the response. */
  function Opened(resp: OriginResponse, r: ByteRange, size: int): Option<seq<Byte>> {
    if resp.status == 206 then
      if && ParseContentRange(resp.contentRange) == Some(ContentRange(r, size))
         && (resp.contentLength == [] || ParseInt(resp.contentLength) == Some(r.Length()))
      then Some(resp.data) else None
    else if resp.status == 200 then
      if && 0 <= r.start <= r.end < size && r.start <= |resp.data|
         && (resp.contentLength == [] || ParseInt(resp.contentLength) == Some(size))
      then Some(resp.data[r.start..Min(|resp.data|, r.end + 1)]) else None
    else None
  }

  /** What a truthful origin's response makes available are the bytes of the range, wherever the response began. */
  lemma OpenedAgrees(resp: OriginResponse, r: ByteRange, size: int, origin: seq<Byte>)
    requires Honest(resp, origin) && |origin| == size && Opened(resp, r, size).Some?
    ensures 0 <= r.start <= r.end < size && Agrees(Opened(resp, r, size).value, origin, r.start, r.Length())
  {
    if resp.status == 206 {
      ContentRangeIsInside(resp.contentRange);
    } else {
      var bytes := Opened(resp, r, size).value;
      assert forall i :: 0 <= i < |bytes| ==> bytes[i] == resp.data[r.start + i];
    }
  }

  /** The reader holds what the response makes available; only a body cut from a 200 can be short of its promise. */
  ghost predicate IsAnswer(reader: Reader, resp: OriginResponse, r: ByteRange, size: int)
    reads reader, reader.body
  {
    && Opened(resp, r, size) == Some(reader.Upcoming())
    && reader.body.breaks == resp.breaks
    && (reader.bounded <==> resp.status == 200)
    && reader.Short() == (resp.status == 200 && |resp.data| <= r.end)
  }

  /** OpenRange, after the transport has answered. */
  method OpenRange(resp: OriginResponse, r: ByteRange, size: int, ghost origin: seq<Byte>) returns (reader: Option<Reader>)
    requires Honest(resp, origin) && |origin| == size
    ensures reader.Some? ==> fresh(reader.value) && fresh(reader.value.body)
    ensures reader.Some? <==> Opened(resp, r, size).Some?
    ensures reader.Some? ==> 0 <= r.start <= r.end < size && Delivers(reader.value, origin, r) && IsAnswer(reader.value, resp, r, size)
    ensures Answers(resp, r, size) ==> reader.Some? && !reader.value.Short() && |reader.value.Upcoming()| == r.Length()
  {
    if Opened(resp, r, size).Some? { OpenedAgrees(resp, r, size, origin); }
    var body := new Body(resp.data, resp.breaks);
    if resp.status == 206 {
      var parsed := ParseContentRange(resp.contentRange);
      if parsed != Some(ContentRange(r, size)) { return None; }
      if resp.contentLength != [] {
        var length := ParseInt(resp.contentLength);
        if length.None? || length.value != r.Length() { return None; }
      }
      var raw := new Reader(body, false, 0);
      return Some(raw);
    }
    if resp.status == 200 {
      reader := SliceStatusOkBody(body, resp.contentLength, r, size);
      if reader.Some? {
        ghost var end := Min(|resp.data|, r.end + 1);
        assert resp.data[r.start..][..end - r.start] == resp.data[r.start..end];
      }
      return;
    }
    return None;
  }

  lemma ConcatAssoc(a: seq<Byte>, b: seq<Byte>, c: seq<Byte>)
    ensures a + b + c == a + (b + c)
  {
  }

  /** Read until an error, as io.Copy does, with any buffer size. */
  method Drain(reader: Reader, bufferSize: nat) returns (data: seq<Byte>, err: ReadError)
    requires bufferSize > 0 && (reader.bounded ==> reader.remaining >= 0)
    modifies reader`remaining, reader.body
    ensures err != Ok
    ensures data <= old(reader.Upcoming())
    ensures err == Eof ==> data == old(reader.Upcoming()) && !old(reader.Short())
    ensures err != Eof ==> reader.body.breaks || old(reader.Short())
  {
    data, err := [], Ok;
    while err == Ok
      invariant data + reader.Upcoming() == old(reader.Upcoming())
      invariant reader.bounded ==> reader.remaining >= 0 && reader.Short() == old(reader.Short())
      invariant !reader.bounded ==> !old(reader.Short())
      invariant err == Eof ==> reader.Upcoming() == [] && !old(reader.Short())
      invariant err != Ok && err != Eof ==> reader.body.breaks || old(reader.Short())
      decreases if err == Ok then 1 else 0, |reader.Upcoming()|
    {
      var chunk: seq<Byte>;
      ghost var before := reader.Upcoming();
      chunk, err := reader.Read(bufferSize);
      ConcatAssoc(data, chunk, reader.Upcoming());
      assert err == Ok ==> |reader.Upcoming()| < |before|;
      data := data + chunk;
    }
  }

  /** io.Copy(tmp, io.LimitReader(reader, limit)): stop at the limit, at EOF, or at an error. */
  method CopyAtMost(reader: Reader, limit: nat, bufferSize: nat) returns (data: seq<Byte>, failed: bool)
    requires bufferSize > 0 && (reader.bounded ==> reader.remaining >= 0)
    modifies reader`remaining, reader.body
    ensures |data| <= limit && data <= old(reader.Upcoming())
    ensures !failed ==> |data| == Min(limit, |old(reader.Upcoming())|)
    ensures failed ==> reader.body.breaks || old(reader.Short())
  {
    data, failed := [], false;
    ghost var promised := reader.Upcoming();
    while |data| < limit
      invariant |data| <= limit && !failed && data + reader.Upcoming() == promised
      invariant reader.bounded ==> reader.remaining >= 0
      invariant reader.Short() == old(reader.Short())
      decreases limit - |data|
    {
      var want := if bufferSize < limit - |data| then bufferSize else limit - |data|;
      var chunk, err := reader.Read(want);
      ConcatAssoc(data, chunk, reader.Upcoming());
      data := data + chunk;
      if err == Eof { return; }
      if err != Ok { failed := true; return; }
    }
  }

  /** A 200 body equals a 206 body: cut to the range, it yields exactly those bytes, or an error when it is too short. */
  method SlicedBodyIsRange(resp: OriginResponse, r: ByteRange, size: int, bufferSize: nat, ghost origin: seq<Byte>)
    returns (found: bool, data: seq<Byte>, err: ReadError)
    requires Honest(resp, origin) && |origin| == size && resp.status == 200 && bufferSize > 0
    ensures found ==> 0 <= r.start <= r.end < size && data <= Slice(origin, r)
    ensures found && err == Eof ==> data == Slice(origin, r)
    ensures found && |resp.data| <= r.end ==> err != Eof
    ensures found && r.end < |resp.data| && !resp.breaks ==> err == Eof
  {
    var body := new Body(resp.data, resp.breaks);
    var reader := SliceStatusOkBody(body, resp.contentLength, r, size);
    if reader.None? { return false, [], Ok; }
    ghost var promised := reader.value.Upcoming();
    assert forall i :: 0 <= i < |promised| ==> promised[i] == resp.data[r.start + i];
    assert promised <= Slice(origin, r);
    data, err := Drain(reader.value, bufferSize);
    found := true;
  }
}
