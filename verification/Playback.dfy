/** Which bytes a playback request is answered with, and which head or tail block may hold them. */
module Playback {
  import opened Intervals
  import opened RangeText

  datatype BlockName = Head | Tail

  /** PlanPlaybackRange. */
  function PlanPlaybackRange(value: string, size: int, headBytes: int, tailBytes: int,
                             openHeadResponseBytes: Option<int>): Parsed {
    match ParseRangeHeader(value, size)
    case Bad(error) => Bad(error)
    case Parsed(r) =>
      if value == [] then Parsed(ByteRange(0, Min(headBytes, size) - 1))
      else
        match MatchRange(TrimSpace(value))
        case None => Parsed(r)
        case Some((left, right)) =>
          if left == [] || right != [] then Parsed(r)
          else if r.start < Min(headBytes, size) then
            var end := Min(headBytes, size) - 1;
            if openHeadResponseBytes.Some? && openHeadResponseBytes.value > 0
            then Parsed(ByteRange(r.start, Min(r.start + openHeadResponseBytes.value - 1, end)))
            else Parsed(ByteRange(r.start, end))
          else Parsed(ByteRange(r.start, size - 1))
  }

  datatype Sizes = Sizes(headBytes: int, tailBytes: int, adaptiveTailMaxBytes: int, openHeadResponseBytes: Option<int>)

  /** What config validation guarantees about them. */
  predicate ValidSizes(z: Sizes) {
    && z.headBytes > 0 && z.tailBytes > 0 && z.adaptiveTailMaxBytes >= 0
    && (z.openHeadResponseBytes.Some? ==> z.openHeadResponseBytes.value > 0)
  }

  function PlanWith(value: string, size: int, z: Sizes): Parsed {
    PlanPlaybackRange(value, size, z.headBytes, z.tailBytes, z.openHeadResponseBytes)
  }

  datatype CacheBlock = CacheBlock(name: BlockName, range: ByteRange, adaptive: bool)

  /** headtail.BlockForRequest. */
  function BlockForRequest(r: ByteRange, size: int, headBytes: int, tailBytes: int): Option<CacheBlock> {
    var head := ByteRange(0, Min(headBytes, size) - 1);
    var tail := ByteRange(Max(0, size - tailBytes), size - 1);
    if r.Within(head) then Some(CacheBlock(Head, head, false))
    else if r.Within(tail) then Some(CacheBlock(Tail, tail, false))
    else None
  }

  /** cacheBlockForRequest, which may widen the tail block to reach a metadata read before it. */
  function CacheBlockForRequest(r: ByteRange, size: int, z: Sizes): Option<CacheBlock> {
    var fixed := BlockForRequest(r, size, z.headBytes, z.tailBytes);
    if fixed.Some? then fixed
    else if z.adaptiveTailMaxBytes <= z.tailBytes || r.end != size - 1 then None
    else if r.start < Max(0, size - z.adaptiveTailMaxBytes) then None
    else Some(CacheBlock(Tail, ByteRange(Min(Max(0, size - z.tailBytes), r.start), size - 1), true))
  }

  /** Every planned range is non-empty, below size and inside the range the header asked for. */
  lemma PlannedIsInside(value: string, size: int, z: Sizes)
    requires ValidSizes(z) && PlanWith(value, size, z).Parsed?
    ensures ParseRangeHeader(value, size).Parsed?
    ensures var r := PlanWith(value, size, z).range;
      0 <= r.start <= r.end < size && r.Within(ParseRangeHeader(value, size).range)
  {
    ParsedIsInside(value, size);
  }

  /** A header the parser takes as open-ended, spaces and leading zeros included, or no header at all. */
  predicate OpenEnded(value: string) {
    value == [] ||
    (&& ',' !in value && MatchRange(TrimSpace(value)).Some?
     && MatchRange(TrimSpace(value)).value.0 != [] && MatchRange(TrimSpace(value)).value.1 == [])
  }

  /** An absent or open-ended header lands wholly in the head, wholly in the tail, or in neither, as its start decides. */
  lemma OpenRequestLandsWhole(value: string, size: int, z: Sizes)
    requires ValidSizes(z) && OpenEnded(value) && PlanWith(value, size, z).Parsed?
    ensures var r := PlanWith(value, size, z).range;
      var block := BlockForRequest(r, size, z.headBytes, z.tailBytes);
      && (block.Some? && block.value.name.Head? <==> r.start < Min(z.headBytes, size))
      && (block.Some? && block.value.name.Tail? <==> Max(Min(z.headBytes, size), size - z.tailBytes) <= r.start)
      && (block.None? ==> r.end == size - 1 && z.headBytes <= r.start < size - z.tailBytes)
  {
    PlannedIsInside(value, size, z);
  }

  /** A chosen block contains the request; head blocks start at 0 and tail blocks end at size-1. */
  lemma ChosenBlockHolds(r: ByteRange, size: int, z: Sizes)
    requires ValidSizes(z) && 0 <= r.start <= r.end < size
    ensures var block := CacheBlockForRequest(r, size, z);
      block.Some? ==>
        && r.Within(block.value.range) && NonEmpty(block.value.range)
        && block.value.range.Within(ByteRange(0, size - 1))
        && (block.value.name.Head? ==> block.value.range.start == 0)
        && (block.value.name.Tail? ==> block.value.range.end == size - 1)
        && (block.value.adaptive ==> block.value.range.Length() <= z.adaptiveTailMaxBytes)
  {
  }
}
