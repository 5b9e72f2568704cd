/**
 * What the aggregator's statistics mean: each entry summarises exactly the
 * observations of its field name, and those observations are exactly the
 * (record, entry) pairs of the results that carry records.
 */
module FieldStatsProps {
  import opened Wrappers
  import opened Classifier
  import opened QueryResults
  import opened FieldStats

  /** The number of observations of `f`. */
  function CountOf(events: seq<Observation>, f: string): nat {
    if events == [] then 0
    else CountOf(events[..|events| - 1], f) + (if events[|events| - 1].field == f then 1 else 0)
  }

  // ---------------------------------------------------------------------
  // The accumulator over a sequence of observations
  // ---------------------------------------------------------------------

  /** A field has an entry exactly when it was observed. */
  lemma {:induction false} FoldDomain(events: seq<Observation>, f: string)
    ensures f in Fold(events) <==> CountOf(events, f) > 0
  {
    if events != [] {
      FoldDomain(events[..|events| - 1], f);
    }
  }

  /** `count` is the number of observations of the field. */
  lemma {:induction false} FoldCount(events: seq<Observation>, f: string)
    requires f in Fold(events)
    ensures Fold(events)[f].count == CountOf(events, f)
  {
    var n := |events| - 1;
    var pre := events[..n];
    FoldDomain(pre, f);
    if f in Fold(pre) {
      FoldCount(pre, f);
    }
  }

  /**
   * `longest` and `shortest` are the largest and smallest observed lengths
   * of the field, so `0 <= shortest <= longest`.
   */
  lemma {:induction false} FoldBounds(events: seq<Observation>, f: string)
    requires f in Fold(events)
    ensures var s := Fold(events)[f];
      && s.shortest <= s.longest
      && (forall i :: 0 <= i < |events| && events[i].field == f ==> s.shortest <= events[i].length <= s.longest)
      && (exists i :: 0 <= i < |events| && events[i].field == f && events[i].length == s.longest)
      && (exists i :: 0 <= i < |events| && events[i].field == f && events[i].length == s.shortest)
  {
    var n := |events| - 1;
    var pre, e := events[..n], events[n];
    var s := Fold(events)[f];
    assert forall i :: 0 <= i < n ==> pre[i] == events[i];
    if e.field != f {
      FoldBounds(pre, f);
    } else if f !in Fold(pre) {
      FoldDomain(pre, f);
      forall i | 0 <= i < n && events[i].field == f
        ensures false
      {
        CountPositive(pre, i, f);
      }
    } else {
      FoldBounds(pre, f);
      var p := Fold(pre)[f];
      if s.longest != e.length {
        var i :| 0 <= i < n && events[i].field == f && events[i].length == p.longest;
      }
      if s.shortest != e.length {
        var i :| 0 <= i < n && events[i].field == f && events[i].length == p.shortest;
      }
    }
  }

  /** `obj` is the object of the field's last observation. */
  lemma {:induction false} FoldObject(events: seq<Observation>, f: string)
    requires f in Fold(events)
    ensures exists i :: 0 <= i < |events| && events[i].field == f && events[i].obj == Fold(events)[f].obj
                        && forall j :: i < j < |events| ==> events[j].field != f
  {
    var n := |events| - 1;
    var pre, e := events[..n], events[n];
    if e.field == f {
      assert events[n].obj == Fold(events)[f].obj;
    } else {
      FoldObject(pre, f);
      var i :| 0 <= i < n && pre[i].field == f && pre[i].obj == Fold(pre)[f].obj
               && forall j :: i < j < n ==> pre[j].field != f;
      assert events[i] == pre[i];
      forall j | i < j < |events|
        ensures events[j].field != f
      {
        if j < n {
          assert events[j] == pre[j];
        }
      }
    }
  }

  /** `fieldLength` is the declared limit of the field's first observation. */
  lemma {:induction false} FoldFieldLength(events: seq<Observation>, f: string)
    requires f in Fold(events)
    ensures exists i :: 0 <= i < |events| && events[i].field == f && events[i].declared == Fold(events)[f].fieldLength
                        && forall j :: 0 <= j < i ==> events[j].field != f
  {
    var n := |events| - 1;
    var pre, e := events[..n], events[n];
    FoldDomain(pre, f);
    if f in Fold(pre) {
      FoldFieldLength(pre, f);
      var i :| 0 <= i < n && pre[i].field == f && pre[i].declared == Fold(pre)[f].fieldLength
               && forall j :: 0 <= j < i ==> pre[j].field != f;
      assert events[i] == pre[i];
      assert forall j :: 0 <= j < i ==> events[j] == pre[j];
    } else {
      forall j | 0 <= j < n
        ensures events[j].field != f
      {
        assert events[j] == pre[j];
        if pre[j].field == f {
          CountPositive(pre, j, f);
        }
      }
    }
  }

  lemma {:induction false} CountPositive(events: seq<Observation>, i: nat, f: string)
    requires i < |events| && events[i].field == f
    ensures CountOf(events, f) > 0
  {
    var n := |events| - 1;
    if i < n {
      assert events[..n][i] == events[i];
      CountPositive(events[..n], i, f);
    }
  }

  lemma {:induction false} CountOfAppend(a: seq<Observation>, b: seq<Observation>, f: string)
    ensures CountOf(a + b, f) == CountOf(a, f) + CountOf(b, f)
  {
    if b == [] {
      assert a + b == a;
    } else {
      var n := |b| - 1;
      assert (a + b)[..|a + b| - 1] == a + b[..n];
      CountOfAppend(a, b[..n], f);
    }
  }

  // ---------------------------------------------------------------------
  // Observations against the raw results
  // ---------------------------------------------------------------------

  /** The entries named `f` among one record's entries. */
  function FieldOccurrences(fields: seq<FieldValue>, f: string): nat {
    if fields == [] then 0
    else FieldOccurrences(fields[..|fields| - 1], f) + (if fields[|fields| - 1].name == f then 1 else 0)
  }

  function RecordOccurrences(records: seq<Record>, f: string): nat {
    if records == [] then 0
    else RecordOccurrences(records[..|records| - 1], f) + FieldOccurrences(records[|records| - 1].fields, f)
  }

  /** The (record, entry) pairs named `f` in one result; none when it is skipped. */
  function ResultOccurrences(res: QueryResult, f: string): nat {
    match RecordsOf(res)
    case None => 0
    case Some(rs) => RecordOccurrences(rs, f)
  }

  /** The (record, entry) pairs named `f` over the results that carry records. */
  function Occurrences(results: seq<QueryResult>, f: string): nat {
    if results == [] then 0
    else Occurrences(results[..|results| - 1], f) + ResultOccurrences(results[|results| - 1], f)
  }

  lemma {:induction false} FieldEventsCount(fields: seq<FieldValue>, tag: Option<string>, schema: Schema, f: string)
    requires fields == [] || Resolvable(tag, schema)
    ensures CountOf(FieldEvents(fields, tag, schema), f) == FieldOccurrences(fields, f)
  {
    if fields != [] {
      var n := |fields| - 1;
      FieldEventsCount(fields[..n], tag, schema, f);
      var e := FieldEvents(fields, tag, schema);
      assert e[..|e| - 1] == FieldEvents(fields[..n], tag, schema);
    }
  }

  lemma {:induction false} RecordsEventsCount(records: seq<Record>, tag: Option<string>, schema: Schema, f: string)
    requires RecordsOk(records, tag, schema)
    ensures CountOf(RecordsEvents(records, tag, schema), f) == RecordOccurrences(records, f)
  {
    if records != [] {
      var n := |records| - 1;
      RecordsEventsCount(records[..n], tag, schema, f);
      FieldEventsCount(records[n].fields, TagAfterRecords(records, tag), schema, f);
      CountOfAppend(RecordsEvents(records[..n], tag, schema),
                    FieldEvents(records[n].fields, TagAfterRecords(records, tag), schema), f);
    }
  }

  lemma {:induction false} ResultsEventsCount(results: seq<QueryResult>, schema: Schema, f: string)
    requires ResultsOk(results, schema)
    ensures CountOf(ResultsEvents(results, schema), f) == Occurrences(results, f)
  {
    if results != [] {
      var n := |results| - 1;
      ResultsEventsCount(results[..n], schema, f);
      match RecordsOf(results[n])
      case None =>
        CountOfAppend(ResultsEvents(results[..n], schema), [], f);
      case Some(rs) =>
        RecordsEventsCount(rs, TagAfterResults(results[..n]), schema, f);
        CountOfAppend(ResultsEvents(results[..n], schema), RecordsEvents(rs, TagAfterResults(results[..n]), schema), f);
    }
  }

  /**
   * A field name has an entry exactly when some record of a result carrying
   * records has an entry of that name, and `count` is the number of such
   * (record, entry) pairs over all objects together.
   */
  lemma AnalyzeCount(results: seq<QueryResult>, schema: Schema, f: string)
    requires ResultsOk(results, schema)
    ensures f in Analyze(results, schema) <==> Occurrences(results, f) > 0
    ensures f in Analyze(results, schema) ==> Analyze(results, schema)[f].count == Occurrences(results, f)
  {
    ResultsEventsCount(results, schema, f);
    FoldDomain(ResultsEvents(results, schema), f);
    if f in Analyze(results, schema) {
      FoldCount(ResultsEvents(results, schema), f);
    }
  }

  /** Every observation names a schema object and carries that object's declared limit. */
  ghost predicate WellDeclared(events: seq<Observation>, schema: Schema) {
    forall i :: 0 <= i < |events| ==>
      Lookup(schema, events[i].obj).Some?
      && events[i].declared == DeclaredLimit(Lookup(schema, events[i].obj).value, events[i].field)
  }

  lemma {:induction false} FieldEventsDeclared(fields: seq<FieldValue>, tag: Option<string>, schema: Schema)
    requires fields == [] || Resolvable(tag, schema)
    ensures WellDeclared(FieldEvents(fields, tag, schema), schema)
  {
    if fields != [] {
      FieldEventsDeclared(fields[..|fields| - 1], tag, schema);
    }
  }

  lemma {:induction false} RecordsEventsDeclared(records: seq<Record>, tag: Option<string>, schema: Schema)
    requires RecordsOk(records, tag, schema)
    ensures WellDeclared(RecordsEvents(records, tag, schema), schema)
  {
    if records != [] {
      var n := |records| - 1;
      RecordsEventsDeclared(records[..n], tag, schema);
      FieldEventsDeclared(records[n].fields, TagAfterRecords(records, tag), schema);
    }
  }

  lemma {:induction false} ResultsEventsDeclared(results: seq<QueryResult>, schema: Schema)
    requires ResultsOk(results, schema)
    ensures WellDeclared(ResultsEvents(results, schema), schema)
  {
    if results != [] {
      var n := |results| - 1;
      ResultsEventsDeclared(results[..n], schema);
      match RecordsOf(results[n])
      case None =>
      case Some(rs) =>
        RecordsEventsDeclared(rs, TagAfterResults(results[..n]), schema);
    }
  }

  /** Over well-declared observations, `fieldLength` is the first observation's declared limit. */
  lemma FoldFirstDeclared(events: seq<Observation>, schema: Schema, f: string)
    requires WellDeclared(events, schema) && f in Fold(events)
    ensures exists i ::
      && 0 <= i < |events| && events[i].field == f
      && (forall j :: 0 <= j < i ==> events[j].field != f)
      && Lookup(schema, events[i].obj).Some?
      && Fold(events)[f].fieldLength == DeclaredLimit(Lookup(schema, events[i].obj).value, f)
  {
    FoldFieldLength(events, f);
    var i :| 0 <= i < |events| && events[i].field == f && events[i].declared == Fold(events)[f].fieldLength
             && forall j :: 0 <= j < i ==> events[j].field != f;
    assert Lookup(schema, events[i].obj).Some?;
  }

  /**
   * `field_length` is the limit declared for the field under the object of
   * its first observation and is not revisited later, while `object` is the
   * object of its last observation.
   */
  lemma AnalyzeFirstAndLast(results: seq<QueryResult>, schema: Schema, f: string)
    requires ResultsOk(results, schema) && f in Analyze(results, schema)
    ensures exists i ::
      && 0 <= i < |ResultsEvents(results, schema)| && ResultsEvents(results, schema)[i].field == f
      && (forall j :: 0 <= j < i ==> ResultsEvents(results, schema)[j].field != f)
      && Lookup(schema, ResultsEvents(results, schema)[i].obj).Some?
      && Analyze(results, schema)[f].fieldLength
         == DeclaredLimit(Lookup(schema, ResultsEvents(results, schema)[i].obj).value, f)
    ensures exists i ::
      && 0 <= i < |ResultsEvents(results, schema)| && ResultsEvents(results, schema)[i].field == f
      && (forall j :: i < j < |ResultsEvents(results, schema)| ==> ResultsEvents(results, schema)[j].field != f)
      && Analyze(results, schema)[f].obj == ResultsEvents(results, schema)[i].obj
  {
    var events := ResultsEvents(results, schema);
    assert Analyze(results, schema) == Fold(events);
    ResultsEventsDeclared(results, schema);
    FoldFirstDeclared(events, schema, f);
    FoldObject(events, f);
  }

  /**
   * The descriptor scan yields 0 when no descriptor of a text or number type
   * names the field, and otherwise the limit of the last one that does.
   */
  lemma {:induction false} DeclaredLimitIsLastDeclaring(descs: seq<Descriptor>, field: string)
    ensures (forall i :: 0 <= i < |descs| ==> !Declares(descs[i], field)) ==> DeclaredLimit(descs, field) == Some(0)
    ensures forall i :: 0 <= i < |descs| && Declares(descs[i], field)
                        && (forall j :: i < j < |descs| ==> !Declares(descs[j], field))
                        ==> DeclaredLimit(descs, field) == LimitOf(descs[i])
  {
    if forall i :: 0 <= i < |descs| ==> !Declares(descs[i], field) {
      DeclaredLimitNoneDeclaring(descs, field);
    }
    forall i | 0 <= i < |descs| && Declares(descs[i], field)
               && (forall j :: i < j < |descs| ==> !Declares(descs[j], field))
      ensures DeclaredLimit(descs, field) == LimitOf(descs[i])
    {
      DeclaredLimitLastDeclaring(descs, field, i);
    }
  }

  lemma {:induction false} DeclaredLimitNoneDeclaring(descs: seq<Descriptor>, field: string)
    requires forall i :: 0 <= i < |descs| ==> !Declares(descs[i], field)
    ensures DeclaredLimit(descs, field) == Some(0)
  {
    if descs != [] {
      var n := |descs| - 1;
      assert forall i :: 0 <= i < n ==> descs[..n][i] == descs[i];
      DeclaredLimitNoneDeclaring(descs[..n], field);
    }
  }

  lemma {:induction false} DeclaredLimitLastDeclaring(descs: seq<Descriptor>, field: string, i: nat)
    requires i < |descs| && Declares(descs[i], field)
    requires forall j :: i < j < |descs| ==> !Declares(descs[j], field)
    ensures DeclaredLimit(descs, field) == LimitOf(descs[i])
  {
    var n := |descs| - 1;
    if i < n {
      assert !Declares(descs[n], field);
      assert forall j :: 0 <= j < n ==> descs[..n][j] == descs[j];
      DeclaredLimitLastDeclaring(descs[..n], field, i);
    }
  }
}
