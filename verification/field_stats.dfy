/**
 * The statistics aggregator: walks every record of every query result and
 * keeps, per field NAME (not per object and field), the longest and
 * shortest rendered value length, the number of occurrences, the object
 * of the last record that carried the field and the limit declared for it
 * at its first occurrence.
 */
module FieldStats {
  import opened Wrappers
  import opened Classifier
  import opened QueryResults

  /** The accumulator kept for one field name. */
  datatype FieldStat = FieldStat(longest: nat, shortest: nat, obj: string, count: nat, fieldLength: Option<int>)

  /**
   * One (record, field) pair as the aggregator meets it: the field name, the
   * rendered value length, the object tag current at that record and the
   * limit declared for the field under that object.
   */
  datatype Observation = Observation(field: string, length: nat, obj: string, declared: Option<int>)

  function Max(a: nat, b: nat): nat { if a >= b then a else b }

  function Min(a: nat, b: nat): nat { if a <= b then a else b }

  /** A null value counts as length 0; any other value by its rendering. */
  function ValueLength(v: Value): nat {
    match v
    case Null => 0
    case Present(s) => |s|
  }

  // ---------------------------------------------------------------------
  // Declared limit of a field under one object
  // ---------------------------------------------------------------------

  /** `d` names `field` and is of a type whose limit the aggregator reads. */
  predicate Declares(d: Descriptor, field: string) {
    d.name == Some(field) && (d.fieldType == Some("string") || d.fieldType == Some("double"))
  }

  function LimitOf(d: Descriptor): Option<int> {
    if d.fieldType == Some("string") then d.length else d.precision
  }

  /**
   * The limit the descriptor scan ends with: the scan starts at 0 and never
   * stops early, so the last declaring descriptor wins.
   */
  function DeclaredLimit(descs: seq<Descriptor>, field: string): Option<int> {
    if descs == [] then Some(0)
    else
      var n := |descs| - 1;
      if Declares(descs[n], field) then LimitOf(descs[n]) else DeclaredLimit(descs[..n], field)
  }

  // ---------------------------------------------------------------------
  // The accumulator
  // ---------------------------------------------------------------------

  /** Creates the entry on first sight; afterwards widens it and counts. */
  function Observe(stats: map<string, FieldStat>, e: Observation): map<string, FieldStat> {
    if e.field !in stats then
      stats[e.field := FieldStat(e.length, e.length, e.obj, 1, e.declared)]
    else
      var s := stats[e.field];
      stats[e.field := FieldStat(Max(s.longest, e.length), Min(s.shortest, e.length), e.obj, s.count + 1, s.fieldLength)]
  }

  function FoldFrom(stats: map<string, FieldStat>, events: seq<Observation>): map<string, FieldStat> {
    if events == [] then stats
    else Observe(FoldFrom(stats, events[..|events| - 1]), events[|events| - 1])
  }

  function Fold(events: seq<Observation>): map<string, FieldStat> {
    FoldFrom(map[], events)
  }

  // ---------------------------------------------------------------------
  // The observations of a run, in processing order
  // ---------------------------------------------------------------------

  /**
   * The object tag after `r`: its own `attributes.type` when it has that key
   * (`None` when the key holds null), else the previous tag.
   */
  function NextTag(r: Record, tag: Option<string>): Option<string> {
    if r.attributes.None? || r.attributes.value.typeKey.NoTypeKey? then tag
    else if r.attributes.value.typeKey.TypeName? then Some(r.attributes.value.typeKey.name)
    else None
  }

  /** The tag is bound and names an object of the schema. */
  predicate Resolvable(tag: Option<string>, schema: Schema) {
    tag.Some? && Lookup(schema, tag.value).Some?
  }

  /** The records of a result, or `None` when it is skipped as malformed. */
  function RecordsOf(res: QueryResult): Option<seq<Record>> {
    if res.result.Some? && res.result.value.records.Some? then res.result.value.records else None
  }

  function FieldEvents(fields: seq<FieldValue>, tag: Option<string>, schema: Schema): seq<Observation>
    requires fields == [] || Resolvable(tag, schema)
  {
    if fields == [] then []
    else
      var n := |fields| - 1;
      var f := fields[n];
      FieldEvents(fields[..n], tag, schema)
        + [Observation(f.name, ValueLength(f.value), tag.value, DeclaredLimit(Lookup(schema, tag.value).value, f.name))]
  }

  /** The tag in effect after the records, starting from `tag`. */
  function TagAfterRecords(records: seq<Record>, tag: Option<string>): Option<string> {
    if records == [] then tag
    else NextTag(records[|records| - 1], TagAfterRecords(records[..|records| - 1], tag))
  }

  /**
   * Every record with a field is processed under a bound tag that the schema
   * knows; otherwise the source fails on an unbound name or iterates `None`.
   */
  predicate RecordsOk(records: seq<Record>, tag: Option<string>, schema: Schema) {
    records == []
    || (&& RecordsOk(records[..|records| - 1], tag, schema)
        && (records[|records| - 1].fields == [] || Resolvable(TagAfterRecords(records, tag), schema)))
  }

  function RecordsEvents(records: seq<Record>, tag: Option<string>, schema: Schema): seq<Observation>
    requires RecordsOk(records, tag, schema)
  {
    if records == [] then []
    else
      var n := |records| - 1;
      RecordsEvents(records[..n], tag, schema) + FieldEvents(records[n].fields, TagAfterRecords(records, tag), schema)
  }

  /** The tag carried out of the results; it starts unbound. */
  function TagAfterResults(results: seq<QueryResult>): Option<string> {
    if results == [] then None
    else
      var n := |results| - 1;
      match RecordsOf(results[n])
      case None => TagAfterResults(results[..n])
      case Some(rs) => TagAfterRecords(rs, TagAfterResults(results[..n]))
  }

  predicate ResultsOk(results: seq<QueryResult>, schema: Schema) {
    results == []
    || (&& ResultsOk(results[..|results| - 1], schema)
        && (RecordsOf(results[|results| - 1]).None?
            || RecordsOk(RecordsOf(results[|results| - 1]).value, TagAfterResults(results[..|results| - 1]), schema)))
  }

  function ResultsEvents(results: seq<QueryResult>, schema: Schema): seq<Observation>
    requires ResultsOk(results, schema)
  {
    if results == [] then []
    else
      var n := |results| - 1;
      ResultsEvents(results[..n], schema)
        + match RecordsOf(results[n])
          case None => []
          case Some(rs) => RecordsEvents(rs, TagAfterResults(results[..n]), schema)
  }

  /** The statistics of a run. */
  function Analyze(results: seq<QueryResult>, schema: Schema): map<string, FieldStat>
    requires ResultsOk(results, schema)
  {
    Fold(ResultsEvents(results, schema))
  }

  // ---------------------------------------------------------------------
  // The aggregation loops
  // ---------------------------------------------------------------------

  /** The scan of an object's descriptors for the field's declared limit. */
  method ScanDeclaredLimit(allFields: seq<Descriptor>, field: string) returns (current: Option<int>)
    ensures current == DeclaredLimit(allFields, field)
  {
    current := Some(0);
    var j := 0;
    while j < |allFields|
      invariant 0 <= j <= |allFields|
      invariant current == DeclaredLimit(allFields[..j], field)
    {
      var d := allFields[j];
      assert allFields[..j + 1][..j] == allFields[..j];
      if d.name == Some(field) {
        if d.fieldType == Some("string") {
          current := d.length;
        } else if d.fieldType == Some("double") {
          current := d.precision;
        }
      }
      j := j + 1;
    }
    assert allFields[..j] == allFields;
  }

  /** The loop over one record's entries. */
  method AnalyzeRecord(record: Record, cmdName: Option<string>, schema: Schema, stats0: map<string, FieldStat>)
    returns (stats: map<string, FieldStat>)
    requires record.fields == [] || Resolvable(cmdName, schema)
    ensures stats == FoldFrom(stats0, FieldEvents(record.fields, cmdName, schema))
  {
    stats := stats0;
    var k := 0;
    while k < |record.fields|
      invariant 0 <= k <= |record.fields|
      invariant stats == FoldFrom(stats0, FieldEvents(record.fields[..k], cmdName, schema))
    {
      var field, value := record.fields[k].name, record.fields[k].value;
      var allFields := Lookup(schema, cmdName.value).value;
      var currentFieldLength := ScanDeclaredLimit(allFields, field);
      var valueLength := if value.Null? then 0 else |value.repr|;
      ghost var before := stats;
      ghost var e := Observation(field, valueLength, cmdName.value, currentFieldLength);
      assert e.length == ValueLength(record.fields[k].value);
      if field !in stats {
        stats := stats[field := FieldStat(valueLength, valueLength, cmdName.value, 1, currentFieldLength)];
        ObserveNew(before, e);
      } else {
        var s := stats[field];
        stats := stats[field := FieldStat(Max(s.longest, valueLength), Min(s.shortest, valueLength),
                                          cmdName.value, s.count + 1, s.fieldLength)];
        ObserveSeen(before, e);
      }
      assert stats == Observe(before, e);
      FieldEventsStep(record.fields, k, cmdName, schema, stats0);
      k := k + 1;
    }
    assert record.fields[..k] == record.fields;
  }

  /** The loop over one result's records, carrying the object tag. */
  method AnalyzeRecords(records: seq<Record>, cmdName0: Option<string>, schema: Schema, stats0: map<string, FieldStat>)
    returns (stats: map<string, FieldStat>, cmdName: Option<string>)
    requires RecordsOk(records, cmdName0, schema)
    ensures cmdName == TagAfterRecords(records, cmdName0)
    ensures stats == FoldFrom(stats0, RecordsEvents(records, cmdName0, schema))
  {
    stats, cmdName := stats0, cmdName0;
    var j := 0;
    while j < |records|
      invariant 0 <= j <= |records|
      invariant RecordsOk(records[..j], cmdName0, schema)
      invariant cmdName == TagAfterRecords(records[..j], cmdName0)
      invariant stats == FoldFrom(stats0, RecordsEvents(records[..j], cmdName0, schema))
    {
      var record := records[j];
      RecordsStep(records, j, cmdName0, schema);
      if record.attributes.Some? && !record.attributes.value.typeKey.NoTypeKey? {
        cmdName := if record.attributes.value.typeKey.TypeName? then Some(record.attributes.value.typeKey.name) else None;
      }
      assert cmdName == TagAfterRecords(records[..j + 1], cmdName0);
      ghost var done := RecordsEvents(records[..j], cmdName0, schema);
      ghost var more := FieldEvents(record.fields, cmdName, schema);
      stats := AnalyzeRecord(record, cmdName, schema, stats);
      FoldFromAppend(stats0, done, more);
      assert stats == FoldFrom(stats0, RecordsEvents(records[..j + 1], cmdName0, schema));
      j := j + 1;
    }
    assert records[..j] == records;
  }

  /** `analyze_field_lengths`: the statistics of all results, in order. */
  method AnalyzeFieldLengths(queryResults: seq<QueryResult>, schema: Schema)
    returns (fieldStats: map<string, FieldStat>)
    requires ResultsOk(queryResults, schema)
    ensures fieldStats == Analyze(queryResults, schema)
  {
    fieldStats := map[];
    var cmdName: Option<string> := None;
    var i := 0;
    while i < |queryResults|
      invariant 0 <= i <= |queryResults|
      invariant ResultsOk(queryResults[..i], schema)
      invariant cmdName == TagAfterResults(queryResults[..i])
      invariant fieldStats == Analyze(queryResults[..i], schema)
    {
      var result := queryResults[i];
      ResultsOkPrefix(queryResults, schema, i + 1);
      ghost var next := queryResults[..i + 1];
      assert next[..i] == queryResults[..i] && next[i] == result;
      if result.result.Some? && result.result.value.records.Some? {
        var records := result.result.value.records.value;
        ghost var done := ResultsEvents(queryResults[..i], schema);
        ghost var more := RecordsEvents(records, TagAfterResults(queryResults[..i]), schema);
        assert ResultsEvents(next, schema) == done + more;
        fieldStats, cmdName := AnalyzeRecords(records, cmdName, schema, fieldStats);
        FoldFromAppend(map[], done, more);
        assert fieldStats == Analyze(next, schema);
      } else {
        assert ResultsEvents(next, schema) == ResultsEvents(queryResults[..i], schema) + [];
        assert ResultsEvents(queryResults[..i], schema) + [] == ResultsEvents(queryResults[..i], schema);
        assert TagAfterResults(next) == TagAfterResults(queryResults[..i]);
      }
      i := i + 1;
    }
    assert queryResults[..i] == queryResults;
  }

  // ---------------------------------------------------------------------
  // Structural lemmas
  // ---------------------------------------------------------------------

  lemma {:induction false} FoldFromAppend(stats: map<string, FieldStat>, a: seq<Observation>, b: seq<Observation>)
    ensures FoldFrom(stats, a + b) == FoldFrom(FoldFrom(stats, a), b)
  {
    if b != [] {
      var n := |b| - 1;
      assert (a + b)[..|a + b| - 1] == a + b[..n];
      FoldFromAppend(stats, a, b[..n]);
    } else {
      assert a + b == a;
    }
  }

  /** One more entry of a record adds its observation to the accumulator. */
  lemma FieldEventsStep(fields: seq<FieldValue>, k: nat, tag: Option<string>, schema: Schema, stats0: map<string, FieldStat>)
    requires k < |fields| && Resolvable(tag, schema)
    ensures FoldFrom(stats0, FieldEvents(fields[..k + 1], tag, schema))
         == Observe(FoldFrom(stats0, FieldEvents(fields[..k], tag, schema)),
                    Observation(fields[k].name, ValueLength(fields[k].value), tag.value,
                                DeclaredLimit(Lookup(schema, tag.value).value, fields[k].name)))
  {
    assert fields[..k + 1][..k] == fields[..k];
  }

  /**
   * One entry step: the field gets an entry and no other entry changes; the
   * count grows by one, the object becomes the observation's, the range is
   * exactly the length on first sight and afterwards grows to cover the
   * length using only the old bounds or the length, and `field_length` is
   * set on first sight only.
   */
  lemma ObserveEffect(stats: map<string, FieldStat>, e: Observation)
    ensures var r := Observe(stats, e);
      && r.Keys == stats.Keys + {e.field}
      && (forall f :: f in stats && f != e.field ==> r[f] == stats[f])
      && r[e.field].obj == e.obj
      && r[e.field].count == (if e.field in stats then stats[e.field].count else 0) + 1
      && r[e.field].shortest <= e.length <= r[e.field].longest
      && r[e.field].fieldLength == (if e.field in stats then stats[e.field].fieldLength else e.declared)
    ensures var r := Observe(stats, e);
      e.field !in stats ==> r[e.field].longest == e.length && r[e.field].shortest == e.length
    ensures var r := Observe(stats, e);
      e.field in stats ==>
        && r[e.field].shortest <= stats[e.field].shortest && stats[e.field].longest <= r[e.field].longest
        && r[e.field].shortest in {stats[e.field].shortest, e.length}
        && r[e.field].longest in {stats[e.field].longest, e.length}
  {
  }

  /** The first observation of a field creates its entry. */
  lemma ObserveNew(stats: map<string, FieldStat>, e: Observation)
    requires e.field !in stats
    ensures Observe(stats, e) == stats[e.field := FieldStat(e.length, e.length, e.obj, 1, e.declared)]
  {
  }

  /** A later observation widens the entry, moves its object and counts. */
  lemma ObserveSeen(stats: map<string, FieldStat>, e: Observation)
    requires e.field in stats
    ensures var s := stats[e.field];
      Observe(stats, e)
      == stats[e.field := FieldStat(Max(s.longest, e.length), Min(s.shortest, e.length), e.obj, s.count + 1, s.fieldLength)]
  {
  }

  /** Accumulating one more observation. */
  lemma FoldAppendOne(events: seq<Observation>, e: Observation)
    ensures Fold(events + [e]) == Observe(Fold(events), e)
  {
    assert (events + [e])[..|events|] == events;
  }

  /** Processing one more result, in terms of the results before it. */
  lemma ResultsAppend(results: seq<QueryResult>, res: QueryResult, schema: Schema)
    ensures TagAfterResults(results + [res])
         == if RecordsOf(res).None? then TagAfterResults(results)
            else TagAfterRecords(RecordsOf(res).value, TagAfterResults(results))
    ensures ResultsOk(results + [res], schema)
        <==> ResultsOk(results, schema)
             && (RecordsOf(res).None? || RecordsOk(RecordsOf(res).value, TagAfterResults(results), schema))
    ensures ResultsOk(results + [res], schema) ==>
      ResultsEvents(results + [res], schema)
      == ResultsEvents(results, schema)
         + (if RecordsOf(res).None? then [] else RecordsEvents(RecordsOf(res).value, TagAfterResults(results), schema))
  {
    assert (results + [res])[..|results|] == results;
  }

  /** The record loop's step: record `j` after the records before it. */
  lemma RecordsStep(records: seq<Record>, j: nat, tag: Option<string>, schema: Schema)
    requires RecordsOk(records, tag, schema) && j < |records|
    ensures RecordsOk(records[..j], tag, schema) && RecordsOk(records[..j + 1], tag, schema)
    ensures TagAfterRecords(records[..j + 1], tag) == NextTag(records[j], TagAfterRecords(records[..j], tag))
    ensures records[j].fields == [] || Resolvable(NextTag(records[j], TagAfterRecords(records[..j], tag)), schema)
    ensures RecordsEvents(records[..j + 1], tag, schema)
         == RecordsEvents(records[..j], tag, schema)
            + FieldEvents(records[j].fields, NextTag(records[j], TagAfterRecords(records[..j], tag)), schema)
  {
    RecordsOkPrefix(records, tag, schema, j + 1);
    assert records[..j + 1][..j] == records[..j];
  }

  /** Processing one more record, in terms of the records before it. */
  lemma RecordsAppend(records: seq<Record>, r: Record, tag: Option<string>, schema: Schema)
    ensures TagAfterRecords(records + [r], tag) == NextTag(r, TagAfterRecords(records, tag))
    ensures RecordsOk(records + [r], tag, schema)
        <==> RecordsOk(records, tag, schema)
             && (r.fields == [] || Resolvable(NextTag(r, TagAfterRecords(records, tag)), schema))
    ensures RecordsOk(records + [r], tag, schema) ==>
      RecordsEvents(records + [r], tag, schema)
      == RecordsEvents(records, tag, schema) + FieldEvents(r.fields, NextTag(r, TagAfterRecords(records, tag)), schema)
  {
    assert (records + [r])[..|records|] == records;
  }

  /** A record with one entry makes one observation. */
  lemma OneFieldEvents(fv: FieldValue, tag: Option<string>, schema: Schema)
    requires Resolvable(tag, schema)
    ensures FieldEvents([fv], tag, schema)
         == [Observation(fv.name, ValueLength(fv.value), tag.value, DeclaredLimit(Lookup(schema, tag.value).value, fv.name))]
  {
    assert [fv][..0] == [];
  }

  lemma {:induction false} RecordsOkPrefix(records: seq<Record>, tag: Option<string>, schema: Schema, i: nat)
    requires RecordsOk(records, tag, schema) && i <= |records|
    ensures RecordsOk(records[..i], tag, schema)
  {
    if i < |records| {
      var n := |records| - 1;
      RecordsOkPrefix(records[..n], tag, schema, i);
      assert records[..n][..i] == records[..i];
    } else {
      assert records[..i] == records;
    }
  }

  lemma {:induction false} ResultsOkPrefix(results: seq<QueryResult>, schema: Schema, i: nat)
    requires ResultsOk(results, schema) && i <= |results|
    ensures ResultsOk(results[..i], schema)
  {
    if i < |results| {
      var n := |results| - 1;
      ResultsOkPrefix(results[..n], schema, i);
      assert results[..n][..i] == results[..i];
    } else {
      assert results[..i] == results;
    }
  }
}
