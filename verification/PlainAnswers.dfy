/** What the plain answer is, header by header: the bytes each form of request gets, in the terms of its numbers. */
module PlainAnswers {
  import opened Intervals
  import opened RangeText
  import opened OriginBody
  import opened Playback
  import opened RangeServer

  /** A 206 for exactly these bytes. */
  predicate IsPartial(a: Answer, head: bool, start: int, end: int, meta: Meta, origin: seq<Byte>)
    requires 0 <= start <= end < |origin| == meta.size
  {
    a == Respond(206,
                 Headers(Some(end - start + 1), Some("bytes " + Print(start) + "-" + Print(end) + "/" + Print(meta.size)),
                         meta.contentType, meta.etag, meta.lastModified),
                 if head then [] else origin[start..end + 1])
  }

  /** A 200 for the whole file. */
  predicate IsWhole(a: Answer, head: bool, meta: Meta, origin: seq<Byte>) {
    a == Respond(200, Headers(Some(meta.size), None, meta.contentType, meta.etag, meta.lastModified), if head then [] else origin)
  }

  /** A 416 that names the size. */
  predicate IsUnsatisfiable(a: Answer, size: nat) {
    a == Respond(416, Headers(None, Some("bytes */" + Print(size)), "", "", ""), [])
  }

  predicate Media(meta: Meta, z: Sizes, origin: seq<Byte>) { ValidSizes(z) && 0 < |origin| == meta.size <= MAX_INT64 }

  /** The header has the two groups, up to spaces around it. */
  predicate HasGroups(value: string, left: string, right: string) {
    value != [] && ',' !in value && MatchRange(TrimSpace(value)) == Some((left, right))
  }

  lemma HeaderGroups(left: string, right: string)
    requires AllDigits(left) && AllDigits(right)
    ensures HasGroups("bytes=" + left + "-" + right, left, right)
  {
    HeaderIsClean(left, right);
  }

  lemma AnswerOfPlan(head: bool, value: string, r: ByteRange, meta: Meta, z: Sizes, origin: seq<Byte>)
    requires Media(meta, z, origin) && value != []
    requires PlanWith(value, meta.size, z) == Parsed(r) && 0 <= r.start <= r.end < meta.size
    ensures IsPartial(PlainAnswer(head, value, meta, z, origin), head, r.start, r.end, meta, origin)
  {
    PartialHeaders(r, meta);
    assert StatusOf(value, r, meta.size) == 206;
    assert Slice(origin, r) == origin[r.start..r.end + 1];
  }

  lemma PartialHeaders(r: ByteRange, meta: Meta)
    requires 0 <= r.start <= r.end < meta.size
    ensures RangeHeaders(206, r, meta)
         == Headers(Some(r.end - r.start + 1), Some("bytes " + Print(r.start) + "-" + Print(r.end) + "/" + Print(meta.size)),
                    meta.contentType, meta.etag, meta.lastModified)
  {
  }

  lemma BoundedPlan(value: string, left: string, right: string, a: nat, b: nat, size: int, z: Sizes)
    requires HasGroups(value, left, right) && ParseInt(left) == Some(a) && ParseInt(right) == Some(b) && a <= b && a < size
    ensures PlanWith(value, size, z) == Parsed(ByteRange(a, if b < size then b else size - 1))
  {
  }

  lemma SuffixPlan(value: string, right: string, n: nat, size: int, z: Sizes)
    requires HasGroups(value, "", right) && ParseInt(right) == Some(n) && 0 < n && 0 < size
    ensures PlanWith(value, size, z) == Parsed(ByteRange(if n < size then size - n else 0, size - 1))
  {
  }

  lemma OpenPlan(value: string, left: string, a: nat, size: int, z: Sizes)
    requires HasGroups(value, left, "") && ParseInt(left) == Some(a) && a < size && ValidSizes(z)
    ensures PlanWith(value, size, z).Parsed?
    ensures var r := PlanWith(value, size, z).range;
      && r.start == a
      && (a >= z.headBytes ==> r.end == size - 1)
      && (a < z.headBytes ==> r.end == OpenHeadEnd(a, size, z))
  {
  }

  /** The rest of the head, or as many bytes of it as the cap on such answers allows. */
  function OpenHeadEnd(a: int, size: int, z: Sizes): int {
    var last := (if z.headBytes < size then z.headBytes else size) - 1;
    if z.openHeadResponseBytes.Some? && a + z.openHeadResponseBytes.value - 1 < last
    then a + z.openHeadResponseBytes.value - 1 else last
  }

  /** bytes=a-b gets the bytes from a to b, or to the last byte when b is beyond it. */
  lemma BoundedAnswer(head: bool, a: nat, b: nat, meta: Meta, z: Sizes, origin: seq<Byte>)
    requires Media(meta, z, origin) && a <= b <= MAX_INT64 && a < meta.size
    ensures IsPartial(PlainAnswer(head, "bytes=" + Print(a) + "-" + Print(b), meta, z, origin),
                      head, a, if b < meta.size then b else meta.size - 1, meta, origin)
  {
    var value := "bytes=" + Print(a) + "-" + Print(b);
    HeaderGroups(Print(a), Print(b));
    ParsePrint(a);
    ParsePrint(b);
    BoundedPlan(value, Print(a), Print(b), a, b, meta.size, z);
    AnswerOfPlan(head, value, ByteRange(a, if b < meta.size then b else meta.size - 1), meta, z, origin);
  }

  /** bytes=-n gets the last n bytes, or all of them when there are fewer, still as a 206. */
  lemma SuffixAnswer(head: bool, n: nat, meta: Meta, z: Sizes, origin: seq<Byte>)
    requires Media(meta, z, origin) && 0 < n <= MAX_INT64
    ensures IsPartial(PlainAnswer(head, "bytes=-" + Print(n), meta, z, origin),
                      head, if n < meta.size then meta.size - n else 0, meta.size - 1, meta, origin)
  {
    var value := "bytes=-" + Print(n);
    assert value == "bytes=" + "" + "-" + Print(n);
    HeaderGroups("", Print(n));
    ParsePrint(n);
    SuffixPlan(value, Print(n), n, meta.size, z);
    AnswerOfPlan(head, value, ByteRange(if n < meta.size then meta.size - n else 0, meta.size - 1), meta, z, origin);
  }

  /** bytes=a- behind the head gets everything from a on, and inside the head the rest of the head, as far as the cap allows. */
  lemma OpenAnswer(head: bool, a: nat, meta: Meta, z: Sizes, origin: seq<Byte>)
    requires Media(meta, z, origin) && a < meta.size
    ensures IsPartial(PlainAnswer(head, "bytes=" + Print(a) + "-", meta, z, origin),
                      head, a, if a < z.headBytes then OpenHeadEnd(a, meta.size, z) else meta.size - 1, meta, origin)
  {
    var value := "bytes=" + Print(a) + "-";
    OpenHeader(a);
    OpenPlan(value, Print(a), a, meta.size, z);
    var r := ByteRange(a, if a < z.headBytes then OpenHeadEnd(a, meta.size, z) else meta.size - 1);
    assert PlanWith(value, meta.size, z) == Parsed(r);
    AnswerOfPlan(head, value, r, meta, z, origin);
  }

  lemma OpenHeader(a: nat)
    requires a <= MAX_INT64
    ensures HasGroups("bytes=" + Print(a) + "-", Print(a), "") && ParseInt(Print(a)) == Some(a)
  {
    assert "bytes=" + Print(a) + "-" == "bytes=" + Print(a) + "-" + "";
    HeaderGroups(Print(a), "");
    ParsePrint(a);
  }

  /** No header gets the head, as a 200 when that is the whole file and as a 206 otherwise. */
  lemma AbsentAnswer(head: bool, meta: Meta, z: Sizes, origin: seq<Byte>)
    requires Media(meta, z, origin)
    ensures var a := PlainAnswer(head, "", meta, z, origin);
      if z.headBytes < meta.size then IsPartial(a, head, 0, z.headBytes - 1, meta, origin) else IsWhole(a, head, meta, origin)
  {
    assert origin[0..|origin|] == origin;
  }

  /** A start at or beyond the size gets a 416, whatever end is asked for, and no other header does. */
  lemma UnsatisfiableAnswer(head: bool, value: string, meta: Meta, z: Sizes, origin: seq<Byte>)
    requires Media(meta, z, origin)
    ensures IsUnsatisfiable(PlainAnswer(head, value, meta, z, origin), meta.size) <==>
      exists left, right :: HasGroups(value, left, right) && ParseInt(left).Some? && ParseInt(left).value >= meta.size
  {
    var plan := PlanWith(value, meta.size, z);
    if value != [] && ',' !in value && MatchRange(TrimSpace(value)).Some? {
      var groups := MatchRange(TrimSpace(value)).value;
      assert HasGroups(value, groups.0, groups.1);
      assert plan == Bad(NotSatisfiable) <==> ParseInt(groups.0).Some? && ParseInt(groups.0).value >= meta.size;
    }
  }

  lemma UnsatisfiableStart(head: bool, a: nat, right: string, meta: Meta, z: Sizes, origin: seq<Byte>)
    requires Media(meta, z, origin) && AllDigits(right) && meta.size <= a <= MAX_INT64
    ensures IsUnsatisfiable(PlainAnswer(head, "bytes=" + Print(a) + "-" + right, meta, z, origin), meta.size)
  {
    HeaderGroups(Print(a), right);
    ParsePrint(a);
    UnsatisfiableAnswer(head, "bytes=" + Print(a) + "-" + right, meta, z, origin);
  }

  /** Several ranges, other units or shapes, no bound at all, a zero suffix, an inverted range and a number above int64. */
  predicate Malformed(value: string) {
    value != [] &&
    (',' in value || MatchRange(TrimSpace(value)).None? ||
     var (left, right) := MatchRange(TrimSpace(value)).value;
     if left == [] then ParseInt(right).None? || ParseInt(right) == Some(0)
     else ParseInt(left).None? || (right != [] && (ParseInt(right).None? || ParseInt(right).value < ParseInt(left).value)))
  }

  /** The caller's fallback takes over exactly for a malformed header whose start, if it has one, is inside the file. */
  lemma RefusedExactly(head: bool, value: string, meta: Meta, z: Sizes, origin: seq<Byte>)
    requires Media(meta, z, origin)
    ensures PlainAnswer(head, value, meta, z, origin).GiveUp? <==>
      Malformed(value) && !IsUnsatisfiable(PlainAnswer(head, value, meta, z, origin), meta.size)
  {
    if value != [] && ',' !in value && MatchRange(TrimSpace(value)).Some? {
      var groups := MatchRange(TrimSpace(value)).value;
      MatchRangeExact(TrimSpace(value), groups.0, groups.1);
      DigitsParseNonNegative(groups.0);
      DigitsParseNonNegative(groups.1);
    }
  }

  /** Only the two digit groups matter: spaces around the header do not change the answer. */
  lemma SpacesDoNotMatter(head: bool, value: string, left: string, right: string, meta: Meta, z: Sizes, origin: seq<Byte>)
    requires Media(meta, z, origin) && HasGroups(value, left, right)
    ensures PlainAnswer(head, value, meta, z, origin) == PlainAnswer(head, "bytes=" + left + "-" + right, meta, z, origin)
  {
    MatchRangeExact(TrimSpace(value), left, right);
    HeaderGroups(left, right);
    assert PlanWith(value, meta.size, z) == PlanWith("bytes=" + left + "-" + right, meta.size, z);
  }
}
