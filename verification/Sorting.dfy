/** `list.sort(key=..., reverse=True)`: descending and stable. */
module Sorting {

  function Insert<T>(s: seq<T>, x: T, rank: T -> int): seq<T> {
    if s == [] || rank(s[|s| - 1]) >= rank(x) then s + [x] else Insert(s[..|s| - 1], x, rank) + [s[|s| - 1]]
  }

  function SortDesc<T>(s: seq<T>, rank: T -> int): seq<T> {
    if s == [] then [] else Insert(SortDesc(s[..|s| - 1], rank), s[|s| - 1], rank)
  }

  ghost predicate Descending<T>(s: seq<T>, rank: T -> int) {
    forall i, j | 0 <= i < j < |s| :: rank(s[i]) >= rank(s[j])
  }

  /** The elements of one rank, in their order. */
  function OfRank<T>(s: seq<T>, rank: T -> int, r: int): seq<T> {
    if s == [] then []
    else OfRank(s[..|s| - 1], rank, r) + if rank(s[|s| - 1]) == r then [s[|s| - 1]] else []
  }

  lemma OfRankAppend<T>(s: seq<T>, x: T, rank: T -> int, r: int)
    ensures OfRank(s + [x], rank, r) == OfRank(s, rank, r) + if rank(x) == r then [x] else []
  {
    assert (s + [x])[..|s|] == s;
  }

  lemma {:induction false} InsertMembers<T>(s: seq<T>, x: T, rank: T -> int)
    ensures multiset(Insert(s, x, rank)) == multiset(s) + multiset{x}
  {
    if !(s == [] || rank(s[|s| - 1]) >= rank(x)) {
      InsertMembers(s[..|s| - 1], x, rank);
      assert s == s[..|s| - 1] + [s[|s| - 1]];
    }
  }

  lemma {:induction false} InsertDescending<T>(s: seq<T>, x: T, rank: T -> int)
    requires Descending(s, rank)
    ensures Descending(Insert(s, x, rank), rank)
  {
    if !(s == [] || rank(s[|s| - 1]) >= rank(x)) {
      var front, last := s[..|s| - 1], s[|s| - 1];
      var t := Insert(front, x, rank);
      InsertDescending(front, x, rank);
      InsertMembers(front, x, rank);
      forall i | 0 <= i < |t| ensures rank(t[i]) >= rank(last) {
        assert t[i] in multiset(t);
        if t[i] != x {
          assert t[i] in multiset(front);
          var k :| 0 <= k < |front| && front[k] == t[i];
          assert rank(s[k]) >= rank(s[|s| - 1]);
        }
      }
    }
  }

  lemma {:induction false} InsertOfRank<T>(s: seq<T>, x: T, rank: T -> int, r: int)
    ensures OfRank(Insert(s, x, rank), rank, r) == OfRank(s, rank, r) + if rank(x) == r then [x] else []
  {
    if s == [] || rank(s[|s| - 1]) >= rank(x) {
      OfRankAppend(s, x, rank, r);
    } else {
      var front, last := s[..|s| - 1], s[|s| - 1];
      InsertOfRank(front, x, rank, r);
      OfRankAppend(Insert(front, x, rank), last, rank, r);
    }
  }

  lemma {:induction false} SortOrders<T>(s: seq<T>, rank: T -> int)
    ensures multiset(SortDesc(s, rank)) == multiset(s)
    ensures Descending(SortDesc(s, rank), rank)
  {
    if s != [] {
      var front, last := s[..|s| - 1], s[|s| - 1];
      SortOrders(front, rank);
      InsertMembers(SortDesc(front, rank), last, rank);
      InsertDescending(SortDesc(front, rank), last, rank);
      assert s == front + [last];
    }
  }

  lemma {:induction false} SortKeepsOrder<T>(s: seq<T>, rank: T -> int, r: int)
    ensures OfRank(SortDesc(s, rank), rank, r) == OfRank(s, rank, r)
  {
    if s != [] {
      var front, last := s[..|s| - 1], s[|s| - 1];
      SortKeepsOrder(front, rank, r);
      InsertOfRank(SortDesc(front, rank), last, rank, r);
    }
  }

  /** Sorting permutes, orders and is stable. */
  lemma SortDescIs<T>(s: seq<T>, rank: T -> int)
    ensures multiset(SortDesc(s, rank)) == multiset(s)
    ensures Descending(SortDesc(s, rank), rank)
    ensures forall r :: OfRank(SortDesc(s, rank), rank, r) == OfRank(s, rank, r)
  {
    SortOrders(s, rank);
    forall r { SortKeepsOrder(s, rank, r); }
  }

  lemma {:induction false} OfRankFirst<T>(s: seq<T>, rank: T -> int, r: int)
    requires s != []
    ensures OfRank(s, rank, r) == (if rank(s[0]) == r then [s[0]] else []) + OfRank(s[1..], rank, r)
  {
    if |s| == 1 {
      assert s[..0] == [] && s[1..] == [];
    } else {
      OfRankFirst(s[..|s| - 1], rank, r);
      assert s[..|s| - 1][1..] == s[1..][..|s[1..]| - 1];
    }
  }

  lemma {:induction false} OfRankNone<T>(s: seq<T>, rank: T -> int, r: int)
    requires forall x | x in s :: rank(x) < r
    ensures OfRank(s, rank, r) == []
  {
    if s != [] {
      assert s[|s| - 1] in s;
      OfRankNone(s[..|s| - 1], rank, r);
    }
  }

  /** No other sequence is ordered and stable: any sorting algorithm gives this one. */
  lemma {:induction false} SortedIsUnique<T>(a: seq<T>, b: seq<T>, rank: T -> int)
    requires Descending(a, rank) && Descending(b, rank)
    requires forall r :: OfRank(a, rank, r) == OfRank(b, rank, r)
    ensures a == b
  {
    if a != [] {
      OfRankFirst(a, rank, rank(a[0]));
      assert OfRank(b, rank, rank(a[0])) != [];
    }
    if b != [] {
      OfRankFirst(b, rank, rank(b[0]));
      assert OfRank(a, rank, rank(b[0])) != [];
    }
    if a != [] && b != [] {
      SameFirst(a, b, rank);
      forall r
        ensures OfRank(a[1..], rank, r) == OfRank(b[1..], rank, r)
      {
        OfRankFirst(a, rank, r);
        OfRankFirst(b, rank, r);
        var skip := if rank(a[0]) == r then 1 else 0;
        assert OfRank(a[1..], rank, r) == OfRank(a, rank, r)[skip..] == OfRank(b[1..], rank, r);
      }
      SortedIsUnique(a[1..], b[1..], rank);
      assert a == [a[0]] + a[1..] && b == [b[0]] + b[1..];
    }
  }

  lemma SameFirst<T>(a: seq<T>, b: seq<T>, rank: T -> int)
    requires a != [] && b != [] && Descending(a, rank) && Descending(b, rank)
    requires forall r :: OfRank(a, rank, r) == OfRank(b, rank, r)
    ensures a[0] == b[0]
  {
    OfRankFirst(a, rank, rank(a[0]));
    OfRankFirst(b, rank, rank(b[0]));
    if rank(a[0]) > rank(b[0]) {
      OfRankNone(b, rank, rank(a[0]));
    } else if rank(a[0]) < rank(b[0]) {
      OfRankNone(a, rank, rank(b[0]));
    } else {
      assert OfRank(a, rank, rank(a[0]))[0] == a[0] && OfRank(b, rank, rank(b[0]))[0] == b[0];
    }
  }
}
