/** Python's stable `list.sort(key=...)` / `sorted(..., reverse=True)` for the
    keys the core sorts by: a priority compared ascending, then a weight compared
    descending. Modelled as a stable insertion sort on values. */
module Ranking {
  import opened Seqs

  /** A sort key: `prio` ascending, then `weight` descending. */
  datatype Rank = Rank(prio: int, weight: real)

  /** `a` may come before `b`. */
  predicate RankLe(a: Rank, b: Rank) {
    a.prio < b.prio || (a.prio == b.prio && a.weight >= b.weight)
  }

  predicate SortedByRank<T>(xs: seq<T>, rank: T -> Rank) {
    forall i, j :: 0 <= i < j < |xs| ==> RankLe(rank(xs[i]), rank(xs[j]))
  }

  /** Elements whose key is exactly `k`. */
  function SameRank<T>(rank: T -> Rank, k: Rank): T -> bool {
    z => rank(z) == k
  }

  /** Places `x` before the first element it may precede, so it stays ahead of
      the elements with an equal key that came after it in the input. */
  function Insert<T>(x: T, ys: seq<T>, rank: T -> Rank): (r: seq<T>)
    ensures |r| == |ys| + 1
    ensures multiset(r) == multiset(ys) + multiset{x}
  {
    if ys == [] then [x]
    else if RankLe(rank(x), rank(ys[0])) then [x] + ys
    else
      assert ys == [ys[0]] + ys[1..];
      [ys[0]] + Insert(x, ys[1..], rank)
  }

  /** The sorted list (insertion sort from the back, which is stable). */
  function SortByRank<T>(xs: seq<T>, rank: T -> Rank): (r: seq<T>)
    ensures |r| == |xs|
    ensures multiset(r) == multiset(xs)
  {
    if xs == [] then []
    else
      assert xs == [xs[0]] + xs[1..];
      Insert(xs[0], SortByRank(xs[1..], rank), rank)
  }

  lemma {:induction false} InsertSorted<T>(x: T, ys: seq<T>, rank: T -> Rank)
    requires SortedByRank(ys, rank)
    ensures SortedByRank(Insert(x, ys, rank), rank)
  {
    if ys != [] && !RankLe(rank(x), rank(ys[0])) {
      var tail := Insert(x, ys[1..], rank);
      InsertSorted(x, ys[1..], rank);
      forall k | 0 <= k < |tail| ensures RankLe(rank(ys[0]), rank(tail[k])) {
        assert tail[k] in multiset(tail);
        if tail[k] != x {
          assert tail[k] in multiset(ys[1..]);
          var m :| 0 <= m < |ys[1..]| && ys[1..][m] == tail[k];
          assert ys[m + 1] == tail[k];
        }
      }
    }
  }

  /** The output is ordered by key. */
  lemma {:induction false} SortIsSorted<T>(xs: seq<T>, rank: T -> Rank)
    ensures SortedByRank(SortByRank(xs, rank), rank)
  {
    if xs != [] {
      SortIsSorted(xs[1..], rank);
      InsertSorted(xs[0], SortByRank(xs[1..], rank), rank);
    }
  }

  lemma {:induction false} InsertStable<T>(x: T, ys: seq<T>, rank: T -> Rank, k: Rank)
    ensures Filter(Insert(x, ys, rank), SameRank(rank, k)) ==
            (if rank(x) == k then [x] else []) + Filter(ys, SameRank(rank, k))
  {
    var same := SameRank(rank, k);
    if ys == [] {
    } else if RankLe(rank(x), rank(ys[0])) {
      assert ([x] + ys)[1..] == ys;
    } else {
      InsertStable(x, ys[1..], rank, k);
      assert ([ys[0]] + Insert(x, ys[1..], rank))[1..] == Insert(x, ys[1..], rank);
      assert rank(ys[0]) != rank(x);
    }
  }

  /** Stability: among elements with an equal key the input order is kept. */
  lemma {:induction false} SortIsStable<T>(xs: seq<T>, rank: T -> Rank, k: Rank)
    ensures Filter(SortByRank(xs, rank), SameRank(rank, k)) == Filter(xs, SameRank(rank, k))
  {
    if xs != [] {
      SortIsStable(xs[1..], rank, k);
      InsertStable(xs[0], SortByRank(xs[1..], rank), rank, k);
    }
  }
}
