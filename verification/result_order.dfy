/**
 * Ordering of the collected query results by `totalSize`, largest first,
 * as a stable sort: results of equal size keep their collection order.
 */
module ResultOrder {
  import opened Wrappers
  import opened QueryResults

  /** The sort key is read unguarded, so every result must carry it. */
  predicate HasTotalSize(r: QueryResult) {
    r.result.Some? && r.result.value.totalSize.Some?
  }

  predicate AllSized(rs: seq<QueryResult>) {
    forall r :: r in rs ==> HasTotalSize(r)
  }

  function TotalSize(r: QueryResult): int
    requires HasTotalSize(r)
  {
    r.result.value.totalSize.value
  }

  predicate NonIncreasing(rs: seq<QueryResult>)
    requires AllSized(rs)
  {
    forall i, j :: 0 <= i < j < |rs| ==> TotalSize(rs[i]) >= TotalSize(rs[j])
  }

  /** The results of size `v`, in their order in `rs`. */
  function WithSize(rs: seq<QueryResult>, v: int): seq<QueryResult>
    requires AllSized(rs)
  {
    if rs == [] then []
    else (if TotalSize(rs[0]) == v then [rs[0]] else []) + WithSize(rs[1..], v)
  }

  /** Places `x` before the first result no larger than it. */
  function Insert(x: QueryResult, ys: seq<QueryResult>): (r: seq<QueryResult>)
    requires HasTotalSize(x) && AllSized(ys)
    ensures multiset(r) == multiset(ys) + multiset{x}
    ensures AllSized(r)
  {
    if ys == [] || TotalSize(ys[0]) <= TotalSize(x) then [x] + ys
    else
      var r := [ys[0]] + Insert(x, ys[1..]);
      assert ys == [ys[0]] + ys[1..];
      r
  }

  /** `sorted(results, key=totalSize, reverse=True)`. */
  function SortByTotalSize(rs: seq<QueryResult>): (r: seq<QueryResult>)
    requires AllSized(rs)
    ensures multiset(r) == multiset(rs)
    ensures AllSized(r)
  {
    if rs == [] then []
    else
      var r := Insert(rs[0], SortByTotalSize(rs[1..]));
      assert rs == [rs[0]] + rs[1..];
      r
  }

  lemma {:induction false} InsertNonIncreasing(x: QueryResult, ys: seq<QueryResult>)
    requires HasTotalSize(x) && AllSized(ys) && NonIncreasing(ys)
    ensures NonIncreasing(Insert(x, ys))
  {
    if ys != [] && TotalSize(ys[0]) > TotalSize(x) {
      var tail := Insert(x, ys[1..]);
      InsertNonIncreasing(x, ys[1..]);
      forall j | 0 <= j < |tail|
        ensures TotalSize(ys[0]) >= TotalSize(tail[j])
      {
        assert tail[j] in multiset(ys[1..]) + multiset{x};
        if tail[j] != x {
          assert tail[j] in ys[1..];
          var m :| 0 <= m < |ys[1..]| && ys[1..][m] == tail[j];
          assert ys[m + 1] == tail[j];
        }
      }
    }
  }

  /** The sorted results are in non-increasing order of `totalSize`. */
  lemma {:induction false} SortNonIncreasing(rs: seq<QueryResult>)
    requires AllSized(rs)
    ensures NonIncreasing(SortByTotalSize(rs))
  {
    if rs != [] {
      SortNonIncreasing(rs[1..]);
      InsertNonIncreasing(rs[0], SortByTotalSize(rs[1..]));
    }
  }

  /** `WithSize` of a sequence with a given head, in terms of its tail. */
  lemma WithSizeCons(x: QueryResult, ys: seq<QueryResult>, v: int)
    requires HasTotalSize(x) && AllSized(ys)
    ensures AllSized([x] + ys)
    ensures WithSize([x] + ys, v) == (if TotalSize(x) == v then [x] else []) + WithSize(ys, v)
  {
    assert ([x] + ys)[0] == x && ([x] + ys)[1..] == ys;
  }

  /** Swapping a result past a strictly larger one does not reorder any size class. */
  lemma WithSizeSwap(x: QueryResult, y: QueryResult, rest: seq<QueryResult>, v: int)
    requires HasTotalSize(x) && HasTotalSize(y) && AllSized(rest) && TotalSize(y) > TotalSize(x)
    ensures (if TotalSize(y) == v then [y] else []) + ((if TotalSize(x) == v then [x] else []) + WithSize(rest, v))
         == (if TotalSize(x) == v then [x] else []) + WithSize([y] + rest, v)
  {
    WithSizeCons(y, rest, v);
  }

  lemma {:induction false} InsertWithSize(x: QueryResult, ys: seq<QueryResult>, v: int)
    requires HasTotalSize(x) && AllSized(ys)
    ensures WithSize(Insert(x, ys), v) == (if TotalSize(x) == v then [x] else []) + WithSize(ys, v)
  {
    if ys == [] || TotalSize(ys[0]) <= TotalSize(x) {
      assert Insert(x, ys) == [x] + ys;
      WithSizeCons(x, ys, v);
    } else {
      var y, rest := ys[0], ys[1..];
      var tail := Insert(x, rest);
      assert Insert(x, ys) == [y] + tail;
      InsertWithSize(x, rest, v);
      WithSizeCons(y, tail, v);
      assert ys == [y] + rest;
      WithSizeSwap(x, y, rest, v);
    }
  }

  /**
   * The sort is stable: for every size, the results of that size appear in
   * the output in the same order as in the input.
   */
  lemma {:induction false} SortStable(rs: seq<QueryResult>, v: int)
    requires AllSized(rs)
    ensures WithSize(SortByTotalSize(rs), v) == WithSize(rs, v)
  {
    if rs != [] {
      SortStable(rs[1..], v);
      InsertWithSize(rs[0], SortByTotalSize(rs[1..]), v);
    }
  }
}
