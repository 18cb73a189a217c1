/** Inclusive byte ranges, the unit every table, file and header of the proxy speaks in. */
module Intervals {

  datatype Option<+T> = None | Some(value: T)

  datatype ByteRange = ByteRange(start: int, end: int) {
    function Length(): int { end - start + 1 }

    predicate Holds(x: int) { start <= x <= end }

    predicate Within(outer: ByteRange) { outer.start <= start && end <= outer.end }
  }

  function Min(a: int, b: int): int { if a <= b then a else b }

  function Max(a: int, b: int): int { if a <= b then b else a }

  predicate NonEmpty(r: ByteRange) { r.start <= r.end }

  predicate Disjoint(a: ByteRange, b: ByteRange) { a.end < b.start || b.end < a.start }

  /** The byte at offset x lies in some range of the list. */
  ghost predicate InSome(rs: seq<ByteRange>, x: int) {
    exists i :: 0 <= i < |rs| && rs[i].Holds(x)
  }

  predicate AllNonEmpty(rs: seq<ByteRange>) { forall i :: 0 <= i < |rs| ==> NonEmpty(rs[i]) }

  predicate SortedByStart(rs: seq<ByteRange>) {
    forall i, j :: 0 <= i < j < |rs| ==> rs[i].start <= rs[j].start
  }

  /** Ordered, non-empty and never touching: the normal form of a set of bytes. */
  predicate Canonical(rs: seq<ByteRange>) {
    && AllNonEmpty(rs)
    && forall i, j :: 0 <= i < j < |rs| ==> rs[i].end + 1 < rs[j].start
  }

  /** The slice of a file that a range names. */
  function Slice<T>(data: seq<T>, r: ByteRange): seq<T>
    requires 0 <= r.start <= r.end + 1 <= |data|
  {
    data[r.start..r.end + 1]
  }

  lemma SliceJoin<T>(data: seq<T>, a: nat, b: nat, c: nat)
    requires a <= b <= c <= |data|
    ensures data[a..b] + data[b..c] == data[a..c]
  {
  }

  /** An answer that has reached b grows to c by the bytes between, and stays a prefix of the answer up to d. */
  lemma SliceGrows<T>(before: seq<T>, data: seq<T>, a: nat, b: nat, c: nat, d: nat)
    requires a <= b <= c <= d <= |data|
    ensures before + data[a..b] + data[b..c] == before + data[a..c]
    ensures before + data[a..c] <= before + data[a..d]
  {
    SliceJoin(data, a, b, c);
    SliceJoin(data, a, c, d);
  }

  /** A part of a prefix of a slice, read straight from the data. */
  lemma SlicePart<T>(part: seq<T>, data: seq<T>, first: nat, last: nat, from: nat, n: nat)
    requires first <= last <= |data| && part <= data[first..last] && from + n <= |part|
    ensures part[from..from + n] == data[first + from..first + from + n]
  {
    var a, b := part[from..from + n], data[first + from..first + from + n];
    forall i | 0 <= i < n
      ensures a[i] == b[i]
    {
      assert part[from + i] == data[first..last][from + i];
    }
  }

  lemma SliceOfSlice<T>(data: seq<T>, outer: ByteRange, inner: ByteRange)
    requires 0 <= outer.start <= inner.start <= inner.end <= outer.end < |data|
    ensures Slice(data, outer)[inner.start - outer.start..inner.end - outer.start + 1] == Slice(data, inner)
  {
    var from, n := inner.start - outer.start, inner.Length();
    SlicePart(Slice(data, outer), data, outer.start, outer.end + 1, from, n);
  }

  lemma PrefixExtends<T>(got: seq<T>, base: seq<T>, piece: seq<T>, whole: seq<T>)
    requires got <= base + piece && base + piece <= whole
    ensures got <= whole
  {
  }

  lemma InSomeConcat(a: seq<ByteRange>, b: seq<ByteRange>, x: int)
    ensures InSome(a + b, x) <==> InSome(a, x) || InSome(b, x)
  {
    if InSome(a, x) {
      var i :| 0 <= i < |a| && a[i].Holds(x);
      assert (a + b)[i].Holds(x);
    }
    if InSome(b, x) {
      var i :| 0 <= i < |b| && b[i].Holds(x);
      assert (a + b)[|a| + i].Holds(x);
    }
  }

  lemma InSomeCons(r: ByteRange, rest: seq<ByteRange>, x: int)
    ensures InSome([r] + rest, x) <==> r.Holds(x) || InSome(rest, x)
  {
    InSomeConcat([r], rest, x);
    assert [r][0] == r;
  }

  /** Two canonical lists naming the same bytes are the same list. */
  lemma {:induction false} CanonicalUnique(a: seq<ByteRange>, b: seq<ByteRange>)
    requires Canonical(a) && Canonical(b)
    requires forall x :: InSome(a, x) <==> InSome(b, x)
    ensures a == b
  {
    HoldsFirst(a);
    HoldsFirst(b);
    if a != [] && b != [] {
      FirstRangeNoLater(a, b);
      FirstRangeNoLater(b, a);
      assert a[0] == b[0];
      forall x ensures InSome(a[1..], x) <==> InSome(b[1..], x) {
        TailMembership(a, x);
        TailMembership(b, x);
      }
      CanonicalUnique(a[1..], b[1..]);
    }
  }

  lemma HoldsFirst(rs: seq<ByteRange>)
    requires Canonical(rs)
    ensures rs != [] ==> InSome(rs, rs[0].start)
  {
    if rs != [] { assert rs[0].Holds(rs[0].start); }
  }

  lemma FirstRangeNoLater(a: seq<ByteRange>, b: seq<ByteRange>)
    requires Canonical(a) && Canonical(b) && a != [] && b != []
    requires forall x :: InSome(a, x) <==> InSome(b, x)
    ensures b[0].start <= a[0].start
    ensures a[0].start == b[0].start ==> a[0].end <= b[0].end
  {
    assert a[0].Holds(a[0].start);
    assert InSome(b, a[0].start);
    assert forall x :: a[0].Holds(x) ==> InSome(a, x);
    assert forall x :: a[0].Holds(x) ==> InSome(b, x);
    assert !InSome(b, b[0].end + 1);
    assert a[0].start == b[0].start ==> !a[0].Holds(b[0].end + 1);
  }

  lemma TailMembership(a: seq<ByteRange>, x: int)
    requires Canonical(a) && a != []
    ensures InSome(a[1..], x) <==> InSome(a, x) && !a[0].Holds(x)
  {
    InSomeConcat([a[0]], a[1..], x);
    assert a == [a[0]] + a[1..];
    if InSome(a[1..], x) {
      var i :| 0 <= i < |a[1..]| && a[1..][i].Holds(x);
      assert a[i + 1].Holds(x);
    }
  }
}
