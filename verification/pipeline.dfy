/**
 * How the stages fit together: the results reach the aggregator sorted by
 * size, and the sort moves whole results without changing what is counted.
 */
module Pipeline {
  import opened QueryResults
  import opened ResultOrder
  import opened FieldStatsProps

  lemma {:induction false} OccurrencesCons(x: QueryResult, ys: seq<QueryResult>, f: string)
    ensures Occurrences([x] + ys, f) == ResultOccurrences(x, f) + Occurrences(ys, f)
  {
    if ys != [] {
      var n := |ys| - 1;
      OccurrencesCons(x, ys[..n], f);
      assert ([x] + ys)[..|ys|] == [x] + ys[..n];
    } else {
      assert [x] + ys == [x];
      assert [x][..0] == [];
    }
  }

  lemma {:induction false} InsertOccurrences(x: QueryResult, ys: seq<QueryResult>, f: string)
    requires HasTotalSize(x) && AllSized(ys)
    ensures Occurrences(Insert(x, ys), f) == ResultOccurrences(x, f) + Occurrences(ys, f)
  {
    if ys == [] || TotalSize(ys[0]) <= TotalSize(x) {
      OccurrencesCons(x, ys, f);
    } else {
      InsertOccurrences(x, ys[1..], f);
      OccurrencesCons(ys[0], Insert(x, ys[1..]), f);
      OccurrencesCons(ys[0], ys[1..], f);
      assert [ys[0]] + ys[1..] == ys;
    }
  }

  /**
   * Sorting by `totalSize` does not change how often any field name occurs
   * in the results, so the counts the aggregator reports do not depend on
   * the order the queries were run in.
   */
  lemma {:induction false} SortPreservesOccurrences(rs: seq<QueryResult>, f: string)
    requires AllSized(rs)
    ensures Occurrences(SortByTotalSize(rs), f) == Occurrences(rs, f)
  {
    if rs != [] {
      assert AllSized(rs[1..]) && HasTotalSize(rs[0]);
      assert SortByTotalSize(rs) == Insert(rs[0], SortByTotalSize(rs[1..]));
      SortPreservesOccurrences(rs[1..], f);
      InsertOccurrences(rs[0], SortByTotalSize(rs[1..]), f);
      OccurrencesCons(rs[0], rs[1..], f);
      assert [rs[0]] + rs[1..] == rs;
    }
  }
}
