/** Which blocks an eviction takes: the shortest prefix of the least-recently-used order that makes the rest fit. */
module Lru {
  import opened Ordering
  import opened Tables
  import opened Accounting
  import opened StateStore

  function SeqSizes(order: seq<Block>): int {
    if order == [] then 0 else order[0].size + SeqSizes(order[1..])
  }

  /** Number of rows removed, from the front of the order. */
  function EvictCount(order: seq<Block>, total: int, maxBytes: int): nat {
    if total <= maxBytes || order == [] then 0
    else 1 + EvictCount(order[1..], total - order[0].size, maxBytes)
  }

  function Without(blocks: map<BlockId, Block>, order: seq<Block>): map<BlockId, Block> {
    map b | b in blocks && blocks[b] !in order :: blocks[b]
  }

  predicate BlocksKeyed(blocks: map<BlockId, Block>) { forall b :: b in blocks ==> blocks[b].id == b }

  lemma FirstRow(blocks: map<BlockId, Block>)
    requires BlocksKeyed(blocks) && blocks != map[]
    ensures var order := LruOrder(blocks);
      order != [] && order[0].id in blocks && blocks[order[0].id] == order[0]
  {
    OrdersAreTotal();
    var b :| b in blocks;
    assert blocks[b] in BlockRows(blocks);
    assert blocks[b] in LruOrder(blocks);
    assert LruOrder(blocks)[0] in BlockRows(blocks);
  }

  lemma LruHasNoTies(blocks: map<BlockId, Block>)
    requires BlocksKeyed(blocks)
    ensures NoTies(LruLe, BlockRows(blocks))
  {
    forall x, y | x in BlockRows(blocks) && y in BlockRows(blocks) && LruLe(x, y) && LruLe(y, x)
      ensures x == y
    {
      assert IdLe(x.id, y.id) && IdLe(y.id, x.id);
      assert blocks[x.id] == x && blocks[y.id] == y;
    }
  }

  lemma OrderRest(blocks: map<BlockId, Block>, first: Block)
    requires BlocksKeyed(blocks) && LruOrder(blocks) != [] && LruOrder(blocks)[0] == first
    requires first.id in blocks && blocks[first.id] == first
    ensures LruOrder(blocks - {first.id}) == LruOrder(blocks)[1..]
  {
    OrdersAreTotal();
    var rest := blocks - {first.id};
    ListingTail(LruOrder(blocks), BlockRows(blocks), LruLe);
    RowsWithout(blocks, first);
    LruHasNoTies(rest);
    ListingUnique(LruOrder(rest), LruOrder(blocks)[1..], BlockRows(rest), LruLe);
  }

  /** Taking the first row of the order leaves the rest of the order. */
  lemma OrderTail(blocks: map<BlockId, Block>)
    requires BlocksKeyed(blocks) && blocks != map[]
    ensures var order := LruOrder(blocks);
      && order != [] && order[0].id in blocks && blocks[order[0].id] == order[0]
      && LruOrder(blocks - {order[0].id}) == order[1..]
      && SumSizes(blocks) == order[0].size + SumSizes(blocks - {order[0].id})
  {
    FirstRow(blocks);
    OrderRest(blocks, LruOrder(blocks)[0]);
    SumRemove(blocks, LruOrder(blocks)[0].id);
  }

  lemma RowsWithout(blocks: map<BlockId, Block>, row: Block)
    requires BlocksKeyed(blocks) && row.id in blocks && blocks[row.id] == row
    ensures BlockRows(blocks - {row.id}) == BlockRows(blocks) - {row}
  {
    var rest := blocks - {row.id};
    forall x | x in BlockRows(blocks) && x != row
      ensures x in BlockRows(rest)
    {
      var b :| b in blocks && blocks[b] == x;
      assert b in rest && rest[b] == x;
    }
  }

  lemma WithoutCons(blocks: map<BlockId, Block>, row: Block, more: seq<Block>)
    requires BlocksKeyed(blocks) && row.id in blocks && blocks[row.id] == row
    ensures Without(blocks, [row] + more) == Without(blocks - {row.id}, more)
  {
    var a, b := Without(blocks, [row] + more), Without(blocks - {row.id}, more);
    assert forall x :: x in [row] + more <==> x == row || x in more;
    assert a.Keys == b.Keys;
  }

  /** EvictLRUIfNeeded on the table: re-read the total and the order, and drop the first row until the rest fits. */
  ghost function Evicted(blocks: map<BlockId, Block>, maxBytes: int): map<BlockId, Block>
    requires BlocksKeyed(blocks)
    decreases |blocks|
  {
    if SumSizes(blocks) <= maxBytes || blocks == map[] then blocks else
      OrderTail(blocks);
      Evicted(blocks - {LruOrder(blocks)[0].id}, maxBytes)
  }

  /** One round of the loop does not change where it ends. */
  lemma EvictRound(blocks: map<BlockId, Block>, order: seq<Block>, maxBytes: int)
    requires BlocksKeyed(blocks) && order == LruOrder(blocks) && order != [] && SumSizes(blocks) > maxBytes
    ensures var rest := blocks - {order[0].id};
      && order[0].id in blocks && |rest| == |blocks| - 1 && LruOrder(rest) == order[1..]
      && Evicted(rest, maxBytes) == Evicted(blocks, maxBytes)
  {
    NonEmptyOrder(blocks);
    OrderTail(blocks);
    OneRowLess(blocks, order[0].id);
  }

  lemma OneRowLess(blocks: map<BlockId, Block>, b: BlockId)
    requires b in blocks
    ensures |blocks - {b}| == |blocks| - 1
  {
    assert blocks == (blocks - {b})[b := blocks[b]];
  }

  lemma NonEmptyOrder(blocks: map<BlockId, Block>)
    ensures LruOrder(blocks) == [] <==> blocks == map[]
  {
    OrdersAreTotal();
    ListingSize(LruOrder(blocks), BlockRows(blocks), LruLe);
    if blocks != map[] {
      var b :| b in blocks;
      assert blocks[b] in BlockRows(blocks);
    } else {
      assert BlockRows(blocks) == {};
    }
  }

  lemma {:induction false} CountIsShortest(order: seq<Block>, total: int, maxBytes: int)
    ensures var n := EvictCount(order, total, maxBytes);
      && n <= |order|
      && (n < |order| ==> total - SeqSizes(order[..n]) <= maxBytes)
      && forall k :: 0 <= k < n ==> total - SeqSizes(order[..k]) > maxBytes
    decreases |order|
  {
    if !(total <= maxBytes || order == []) {
      CountIsShortest(order[1..], total - order[0].size, maxBytes);
      forall k | 0 < k <= |order|
        ensures SeqSizes(order[..k]) == order[0].size + SeqSizes(order[1..][..k - 1])
      {
        assert order[..k] == [order[0]] + order[1..][..k - 1];
      }
    }
  }

  /** What is left fits, and lacks exactly the first rows of the order, whose bytes are accounted for. */
  ghost predicate IsPrefixEviction(blocks: map<BlockId, Block>, maxBytes: int, left: map<BlockId, Block>) {
    var order := LruOrder(blocks);
    var n := EvictCount(order, SumSizes(blocks), maxBytes);
    && n <= |order|
    && left == Without(blocks, order[..n])
    && SumSizes(left) <= maxBytes
    && SumSizes(blocks) == SumSizes(left) + SeqSizes(order[..n])
  }

  lemma {:induction false} EvictedIsPrefix(blocks: map<BlockId, Block>, maxBytes: int)
    requires BlocksKeyed(blocks) && maxBytes >= 0
    ensures IsPrefixEviction(blocks, maxBytes, Evicted(blocks, maxBytes))
    decreases |blocks|
  {
    if SumSizes(blocks) <= maxBytes {
      assert LruOrder(blocks)[..0] == [];
      assert Without(blocks, []) == blocks;
    } else {
      OrderTail(blocks);
      EvictedIsPrefix(blocks - {LruOrder(blocks)[0].id}, maxBytes);
      PrefixStep(blocks, maxBytes, Evicted(blocks, maxBytes));
    }
  }

  /** If the rest was evicted down by a prefix, so is the whole, by that prefix and the first row. */
  lemma PrefixStep(blocks: map<BlockId, Block>, maxBytes: int, left: map<BlockId, Block>)
    requires BlocksKeyed(blocks) && SumSizes(blocks) > maxBytes && blocks != map[] && LruOrder(blocks) != []
    requires IsPrefixEviction(blocks - {LruOrder(blocks)[0].id}, maxBytes, left)
    ensures IsPrefixEviction(blocks, maxBytes, left)
  {
    OrderTail(blocks);
    var order, total := LruOrder(blocks), SumSizes(blocks);
    var rest := blocks - {order[0].id};
    var n := CountStep(order, total, maxBytes);
    assert n == EvictCount(LruOrder(rest), SumSizes(rest), maxBytes);
    WithoutCons(blocks, order[0], order[1..][..n]);
  }

  lemma CountStep(order: seq<Block>, total: int, maxBytes: int) returns (n: nat)
    requires order != [] && total > maxBytes
    ensures n == EvictCount(order[1..], total - order[0].size, maxBytes) && EvictCount(order, total, maxBytes) == n + 1
    ensures n <= |order| - 1 ==>
      && order[..n + 1] == [order[0]] + order[1..][..n]
      && SeqSizes(order[..n + 1]) == order[0].size + SeqSizes(order[1..][..n])
  {
    n := EvictCount(order[1..], total - order[0].size, maxBytes);
    if n <= |order| - 1 { assert order[..n + 1][1..] == order[1..][..n]; }
  }

  /**
   * The removed rows are the shortest sufficient prefix of the LRU order: what is left fits, one row
   * fewer would not have been enough, and bytes are conserved.
   */
  lemma EvictionExact(blocks: map<BlockId, Block>, maxBytes: int)
    requires BlocksKeyed(blocks) && maxBytes >= 0
    ensures IsPrefixEviction(blocks, maxBytes, Evicted(blocks, maxBytes))
    ensures var order := LruOrder(blocks);
      forall k :: 0 <= k < EvictCount(order, SumSizes(blocks), maxBytes) && k <= |order| ==> SumSizes(blocks) - SeqSizes(order[..k]) > maxBytes
  {
    EvictedIsPrefix(blocks, maxBytes);
    CountIsShortest(LruOrder(blocks), SumSizes(blocks), maxBytes);
  }

  /** A block that fits by itself and was used strictly last is never evicted. */
  lemma {:induction false} NewestSurvives(blocks: map<BlockId, Block>, newest: BlockId, maxBytes: int)
    requires BlocksKeyed(blocks) && newest in blocks && blocks[newest].size <= maxBytes && maxBytes >= 0
    requires forall b :: b in blocks && b != newest ==> blocks[b].lastAccessAt < blocks[newest].lastAccessAt
    ensures newest in Evicted(blocks, maxBytes) && Evicted(blocks, maxBytes)[newest] == blocks[newest]
    decreases |blocks|
  {
    if SumSizes(blocks) > maxBytes {
      OrderTail(blocks);
      var first := LruOrder(blocks)[0].id;
      if first == newest {
        OnlyRow(blocks, newest);
      } else {
        NewestSurvives(blocks - {first}, newest, maxBytes);
      }
    }
  }

  /** If the newest row is also the oldest, it is the only row. */
  lemma OnlyRow(blocks: map<BlockId, Block>, newest: BlockId)
    requires BlocksKeyed(blocks) && newest in blocks && LruOrder(blocks) != [] && LruOrder(blocks)[0] == blocks[newest]
    requires forall b :: b in blocks && b != newest ==> blocks[b].lastAccessAt < blocks[newest].lastAccessAt
    ensures SumSizes(blocks) == blocks[newest].size
  {
    OrdersAreTotal();
    var order := LruOrder(blocks);
    forall b | b in blocks
      ensures b == newest
    {
      assert blocks[b] in order;
      assert LruLe(order[0], blocks[b]);
    }
    SumRemove(blocks, newest);
    assert blocks - {newest} == map[];
  }
}
