/** SUM(size) over middle_blocks counts every cached byte exactly once. */
module Accounting {
  import opened Intervals
  import opened Tables
  import opened Protocol

  ghost function SumSizes(blocks: map<BlockId, Block>): int
    decreases |blocks|
  {
    if blocks == map[] then 0 else
      var b :| b in blocks;
      blocks[b].size + SumSizes(blocks - {b})
  }

  lemma {:induction false} SumRemove(blocks: map<BlockId, Block>, b: BlockId)
    requires b in blocks
    ensures SumSizes(blocks) == blocks[b].size + SumSizes(blocks - {b})
    decreases |blocks|
  {
    var c :| c in blocks && SumSizes(blocks) == blocks[c].size + SumSizes(blocks - {c});
    if c != b {
      SumRemove(blocks - {c}, b);
      SumRemove(blocks - {b}, c);
      assert blocks - {c} - {b} == blocks - {b} - {c};
    }
  }

  /** Every cached byte, as a pair of key and offset. */
  function CachedBytes(blocks: map<BlockId, Block>): set<(Key, int)> {
    set b, x | b in blocks && b.start <= x <= b.end :: (b.key, x)
  }

  function BytesOf(b: BlockId): set<(Key, int)> {
    set x | b.start <= x <= b.end :: (b.key, x)
  }

  lemma {:induction false} BytesOfSize(b: BlockId)
    requires b.start <= b.end + 1
    ensures |BytesOf(b)| == b.end - b.start + 1
    decreases b.end - b.start + 1
  {
    if b.start == b.end + 1 {
      assert BytesOf(b) == {};
    } else {
      var rest := BlockId(b.key, b.start + 1, b.end);
      BytesOfSize(rest);
      assert BytesOf(b) == {(b.key, b.start)} + BytesOf(rest);
    }
  }

  ghost predicate BlocksApart(blocks: map<BlockId, Block>) {
    && (forall b :: b in blocks ==> b.start <= b.end && blocks[b].size == b.Range().Length())
    && (forall b, c :: b in blocks && c in blocks && b != c && b.key == c.key ==> Disjoint(b.Range(), c.Range()))
  }

  lemma {:induction false} SizesCountBytes(blocks: map<BlockId, Block>)
    requires BlocksApart(blocks)
    ensures SumSizes(blocks) == |CachedBytes(blocks)|
    decreases |blocks|
  {
    if blocks == map[] {
      assert CachedBytes(blocks) == {};
    } else {
      var b :| b in blocks;
      var rest := blocks - {b};
      SumRemove(blocks, b);
      SizesCountBytes(rest);
      BytesOfSize(b);
      SplitOffBlock(blocks, b);
    }
  }

  lemma SplitOffBlock(blocks: map<BlockId, Block>, b: BlockId)
    requires BlocksApart(blocks) && b in blocks
    ensures CachedBytes(blocks) == BytesOf(b) + CachedBytes(blocks - {b})
    ensures BytesOf(b) !! CachedBytes(blocks - {b})
  {
    var rest := blocks - {b};
    forall p | p in CachedBytes(blocks)
      ensures p in BytesOf(b) || p in CachedBytes(rest)
    {
      var c, x :| c in blocks && c.start <= x <= c.end && p == (c.key, x);
      if c != b { assert c in rest; }
    }
    forall p | p in CachedBytes(rest)
      ensures p in CachedBytes(blocks) && p !in BytesOf(b)
    {
      var c, x :| c in rest && c.start <= x <= c.end && p == (c.key, x);
      assert c in blocks && c.Range().Holds(x);
      assert b.key == c.key ==> Disjoint(b.Range(), c.Range());
    }
  }

  /** On every run, the blocks of a key are pairwise disjoint and MiddleCacheBytes is the number of distinct cached bytes. */
  lemma CacheSizeIsExact(events: seq<Event>)
    ensures var blocks := Run(INITIAL, events).db.blocks;
      BlocksApart(blocks) && SumSizes(blocks) == |CachedBytes(blocks)|
  {
    assert Inv(INITIAL);
    RunKeepsInv(INITIAL, events);
    var s := Run(INITIAL, events);
    forall b, c | b in s.db.blocks && c in s.db.blocks && b != c && b.key == c.key
      ensures Disjoint(b.Range(), c.Range())
    {
      assert Owns(s, OfBlock(b)) && Owns(s, OfBlock(c));
      assert Disjoint(RangeOf(s, OfBlock(b)), RangeOf(s, OfBlock(c)));
    }
    SizesCountBytes(s.db.blocks);
  }
}
