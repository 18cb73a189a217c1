/** ORDER BY: sorted listings of a set of rows, and the fact that a total order makes them unique. */
module Ordering {

  ghost predicate Total<T(!new)>(le: (T, T) -> bool) {
    && (forall x, y :: le(x, y) || le(y, x))
    && (forall x, y, z :: le(x, y) && le(y, z) ==> le(x, z))
  }

  /** No two different rows of the set tie. */
  ghost predicate NoTies<T(!new)>(le: (T, T) -> bool, rows: set<T>) {
    forall x, y :: x in rows && y in rows && le(x, y) && le(y, x) ==> x == y
  }

  ghost predicate SortedBy<T(!new)>(le: (T, T) -> bool, s: seq<T>) {
    forall i, j :: 0 <= i < j < |s| ==> le(s[i], s[j])
  }

  /** s lists every row of the set once, in the order le. */
  ghost predicate Lists<T(!new)>(s: seq<T>, rows: set<T>, le: (T, T) -> bool) {
    && SortedBy(le, s)
    && (forall x :: x in s <==> x in rows)
    && (forall i, j :: 0 <= i < j < |s| ==> s[i] != s[j])
  }

  function Insert<T>(x: T, s: seq<T>, le: (T, T) -> bool): seq<T> {
    if s == [] || le(x, s[0]) then [x] + s else [s[0]] + Insert(x, s[1..], le)
  }

  lemma {:induction false} InsertLists<T(!new)>(x: T, s: seq<T>, rows: set<T>, le: (T, T) -> bool)
    requires Total(le) && Lists(s, rows, le) && x !in rows
    ensures Lists(Insert(x, s, le), rows + {x}, le)
  {
    if s != [] && !le(x, s[0]) {
      var rest := rows - {s[0]};
      assert forall y :: y in s[1..] <==> y in rest;
      InsertLists(x, s[1..], rest, le);
      var t := Insert(x, s[1..], le);
      assert forall i :: 0 <= i < |t| ==> t[i] in rest + {x};
      assert forall y :: y in rest ==> le(s[0], y);
      assert rest + {x} + {s[0]} == rows + {x};
    }
  }

  /** The listing the database returns. */
  ghost function Ordered<T(!new)>(rows: set<T>, le: (T, T) -> bool): (s: seq<T>)
    requires Total(le)
    ensures Lists(s, rows, le)
  {
    if rows == {} then [] else
      var x :| x in rows;
      InsertLists(x, Ordered(rows - {x}, le), rows - {x}, le);
      assert rows - {x} + {x} == rows;
      Insert(x, Ordered(rows - {x}, le), le)
  }

  method OrderBy<T(!new, ==)>(rows: set<T>, le: (T, T) -> bool) returns (s: seq<T>)
    requires Total(le)
    ensures Lists(s, rows, le)
  {
    s := [];
    var rest := rows;
    while rest != {}
      invariant rest <= rows
      invariant Lists(s, rows - rest, le)
      decreases rest
    {
      var x :| x in rest;
      InsertLists(x, s, rows - rest, le);
      s := Insert(x, s, le);
      rest := rest - {x};
      assert rows - rest == rows - (rest + {x}) + {x};
    }
    assert rows - rest == rows;
  }

  /** Without ties there is only one listing, so re-reading the table cannot change the order. */
  lemma {:induction false} ListingUnique<T(!new)>(a: seq<T>, b: seq<T>, rows: set<T>, le: (T, T) -> bool)
    requires Total(le) && NoTies(le, rows)
    requires Lists(a, rows, le) && Lists(b, rows, le)
    ensures a == b
  {
    ListingSize(a, rows, le);
    ListingSize(b, rows, le);
    if rows != {} {
      var x :| x in rows;
      assert x in a && x in b;
      assert a[0] in b && b[0] in a;
      assert a[0] in rows && b[0] in rows;
      assert le(a[0], b[0]) && le(b[0], a[0]);
      ListingTail(a, rows, le);
      ListingTail(b, rows, le);
      ListingUnique(a[1..], b[1..], rows - {a[0]}, le);
    }
  }

  lemma ListingTail<T(!new)>(a: seq<T>, rows: set<T>, le: (T, T) -> bool)
    requires Lists(a, rows, le) && a != []
    ensures a[0] in rows && Lists(a[1..], rows - {a[0]}, le)
  {
    assert a == [a[0]] + a[1..];
    assert a[0] in rows;
    forall x ensures x in a[1..] <==> x in rows - {a[0]} {
      if x in a[1..] { var i :| 0 <= i < |a[1..]| && a[1..][i] == x; assert a[i + 1] == x; assert x in a; }
    }
  }

  lemma ListingSize<T(!new)>(s: seq<T>, rows: set<T>, le: (T, T) -> bool)
    requires Lists(s, rows, le)
    ensures |s| == |rows|
    decreases |s|
  {
    if s == [] {
      assert forall x :: x in rows ==> x in s;
    } else {
      ListingTail(s, rows, le);
      ListingSize(s[1..], rows - {s[0]}, le);
    }
  }
}
