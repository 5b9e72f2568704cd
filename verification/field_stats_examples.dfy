/**
 * Concrete runs of the aggregator: the edge cases its callers rely on and
 * the consequences of keying the statistics by field name alone.
 */
module FieldStatsExamples {
  import opened Wrappers
  import opened Classifier
  import opened QueryResults
  import opened FieldStats

  /** A well-formed response holding `records`. */
  function Response(records: seq<Record>): QueryResult {
    QueryResult(Some(ResultBody(Some(|records|), Some(records))))
  }

  /** A record of object `obj` with the given entries. */
  function Tagged(obj: string, fields: seq<FieldValue>): Record {
    Record(Some(Attributes(TypeName(obj))), fields)
  }

  /** No results, no statistics. */
  lemma AnalyzeNoResults(schema: Schema)
    ensures ResultsOk([], schema) && Analyze([], schema) == map[]
  {
  }

  /** One record with one entry: longest and shortest are its length, count is 1. */
  lemma AnalyzeSingleValue(obj: string, descs: seq<Descriptor>, name: string, v: Value)
    ensures var schema, results := [SchemaEntry(obj, descs)], [Response([Tagged(obj, [FieldValue(name, v)])])];
      && ResultsOk(results, schema)
      && Analyze(results, schema)
         == map[name := FieldStat(ValueLength(v), ValueLength(v), obj, 1, DeclaredLimit(descs, name))]
  {
    var schema := [SchemaEntry(obj, descs)];
    var rec := Tagged(obj, [FieldValue(name, v)]);
    assert Lookup(schema, obj) == Some(descs);
    OneFieldEvents(FieldValue(name, v), Some(obj), schema);
    OneRecord(rec, None, schema);
    OneResult(Response([rec]), schema);
    FoldOne(Observation(name, ValueLength(v), obj, DeclaredLimit(descs, name)));
  }

  /**
   * Values "abc" then "abcdef" of one field give longest 6, shortest 3 and
   * count 2.
   */
  lemma AnalyzeTwoValues(obj: string, descs: seq<Descriptor>, name: string)
    ensures var schema := [SchemaEntry(obj, descs)];
      var results := [Response([Tagged(obj, [FieldValue(name, Present("abc"))]),
                                Tagged(obj, [FieldValue(name, Present("abcdef"))])])];
      && ResultsOk(results, schema)
      && Analyze(results, schema) == map[name := FieldStat(6, 3, obj, 2, DeclaredLimit(descs, name))]
  {
    var schema := [SchemaEntry(obj, descs)];
    var r1, r2 := Tagged(obj, [FieldValue(name, Present("abc"))]), Tagged(obj, [FieldValue(name, Present("abcdef"))]);
    var e1 := Observation(name, 3, obj, DeclaredLimit(descs, name));
    var e2 := Observation(name, 6, obj, DeclaredLimit(descs, name));
    assert Lookup(schema, obj) == Some(descs);
    OneFieldEvents(FieldValue(name, Present("abc")), Some(obj), schema);
    OneFieldEvents(FieldValue(name, Present("abcdef")), Some(obj), schema);
    TwoRecords(r1, r2, None, schema);
    OneResult(Response([r1, r2]), schema);
    assert ResultsEvents([Response([r1, r2])], schema) == [e1, e2];
    FoldSameFieldTwice(e1, e2);
  }

  /** A result without records is skipped: neither statistics nor the carried tag change. */
  lemma SkippedResultChangesNothing(results: seq<QueryResult>, bad: QueryResult, schema: Schema)
    requires RecordsOf(bad).None? && ResultsOk(results, schema)
    ensures ResultsOk(results + [bad], schema)
    ensures TagAfterResults(results + [bad]) == TagAfterResults(results)
    ensures Analyze(results + [bad], schema) == Analyze(results, schema)
  {
    assert (results + [bad])[..|results|] == results;
    assert ResultsEvents(results + [bad], schema) == ResultsEvents(results, schema) + [];
    assert ResultsEvents(results, schema) + [] == ResultsEvents(results, schema);
  }

  /**
   * The same field name under two objects shares one entry: the counts add
   * up, `object` names the later object and `field_length` is the one
   * declared under the earlier object.
   */
  lemma FlatKeyingMergesObjects(a: string, b: string, descsA: seq<Descriptor>, descsB: seq<Descriptor>,
                                name: string, va: Value, vb: Value)
    requires a != b
    ensures var schema := [SchemaEntry(a, descsA), SchemaEntry(b, descsB)];
      var results := [Response([Tagged(a, [FieldValue(name, va)])]), Response([Tagged(b, [FieldValue(name, vb)])])];
      && ResultsOk(results, schema)
      && Analyze(results, schema)
         == map[name := FieldStat(Max(ValueLength(va), ValueLength(vb)), Min(ValueLength(va), ValueLength(vb)),
                                  b, 2, DeclaredLimit(descsA, name))]
  {
    var schema := [SchemaEntry(a, descsA), SchemaEntry(b, descsB)];
    var results := [Response([Tagged(a, [FieldValue(name, va)])]), Response([Tagged(b, [FieldValue(name, vb)])])];
    var ea := Observation(name, ValueLength(va), a, DeclaredLimit(descsA, name));
    var eb := Observation(name, ValueLength(vb), b, DeclaredLimit(descsB, name));
    TwoObjectsEvents(a, b, descsA, descsB, name, va, vb);
    assert Analyze(results, schema) == Fold([ea, eb]);
    FoldSameFieldTwice(ea, eb);
  }

  /** The observation stream of one single-entry record under each of two objects. */
  lemma TwoObjectsEvents(a: string, b: string, descsA: seq<Descriptor>, descsB: seq<Descriptor>,
                         name: string, va: Value, vb: Value)
    requires a != b
    ensures var schema := [SchemaEntry(a, descsA), SchemaEntry(b, descsB)];
      var results := [Response([Tagged(a, [FieldValue(name, va)])]), Response([Tagged(b, [FieldValue(name, vb)])])];
      && ResultsOk(results, schema)
      && ResultsEvents(results, schema)
         == [Observation(name, ValueLength(va), a, DeclaredLimit(descsA, name)),
             Observation(name, ValueLength(vb), b, DeclaredLimit(descsB, name))]
  {
    var schema := [SchemaEntry(a, descsA), SchemaEntry(b, descsB)];
    var ra, rb := Tagged(a, [FieldValue(name, va)]), Tagged(b, [FieldValue(name, vb)]);
    assert Lookup(schema, a) == Some(descsA);
    assert Lookup(schema, b) == Some(descsB) by {
      assert schema[1..] == [SchemaEntry(b, descsB)];
    }
    OneFieldEvents(FieldValue(name, va), Some(a), schema);
    OneRecord(ra, None, schema);
    OneResult(Response([ra]), schema);
    OneFieldEvents(FieldValue(name, vb), Some(b), schema);
    OneRecord(rb, Some(a), schema);
    NextResult([Response([ra])], Response([rb]), schema);
    assert [Response([ra])] + [Response([rb])] == [Response([ra]), Response([rb])];
  }

  /** Two observations of one field merge into one entry counting 2. */
  lemma FoldSameFieldTwice(e1: Observation, e2: Observation)
    requires e1.field == e2.field
    ensures Fold([e1, e2])
         == map[e1.field := FieldStat(Max(e1.length, e2.length), Min(e1.length, e2.length), e2.obj, 2, e1.declared)]
  {
    FoldOne(e1);
    FoldAppendOne([e1], e2);
    assert [e1] + [e2] == [e1, e2];
  }

  /** A record without a type tag is analysed under the previous record's object. */
  lemma TagCarriesOver(obj: string, descs: seq<Descriptor>, n1: string, v1: Value, n2: string, v2: Value)
    requires n1 != n2
    ensures var schema := [SchemaEntry(obj, descs)];
      var results := [Response([Tagged(obj, [FieldValue(n1, v1)]), Record(None, [FieldValue(n2, v2)])])];
      && ResultsOk(results, schema)
      && n2 in Analyze(results, schema) && Analyze(results, schema)[n2].obj == obj
  {
    var schema := [SchemaEntry(obj, descs)];
    var r1, r2 := Tagged(obj, [FieldValue(n1, v1)]), Record(None, [FieldValue(n2, v2)]);
    var e1 := Observation(n1, ValueLength(v1), obj, DeclaredLimit(descs, n1));
    var e2 := Observation(n2, ValueLength(v2), obj, DeclaredLimit(descs, n2));
    assert Lookup(schema, obj) == Some(descs);
    OneFieldEvents(FieldValue(n1, v1), Some(obj), schema);
    OneFieldEvents(FieldValue(n2, v2), Some(obj), schema);
    TwoRecords(r1, r2, None, schema);
    OneResult(Response([r1, r2]), schema);
    assert ResultsEvents([Response([r1, r2])], schema) == [e1] + [e2];
    FoldOne(e1);
    FoldAppendOne([e1], e2);
  }

  /**
   * A first record with an entry but no type tag has no object to analyse
   * under: the run is outside the aggregator's precondition.
   */
  lemma UnboundTagRejected(name: string, v: Value, schema: Schema)
    ensures !ResultsOk([Response([Record(None, [FieldValue(name, v)])])], schema)
  {
    var r := Record(None, [FieldValue(name, v)]);
    RecordsAppend([], r, None, schema);
    assert [] + [r] == [r];
    ResultsAppend([], Response([r]), schema);
    assert [] + [Response([r])] == [Response([r])];
  }

  /**
   * A record whose `attributes.type` is null unbinds the object, so a later
   * untagged record with an entry is outside the aggregator's precondition,
   * whatever the schema.
   */
  lemma NullTagRejected(schema: Schema, obj: string, name: string, v: Value)
    ensures !ResultsOk([Response([Tagged(obj, []), Record(Some(Attributes(NullType)), []),
                                  Record(None, [FieldValue(name, v)])])], schema)
  {
    var r1, r2, r3 := Tagged(obj, []), Record(Some(Attributes(NullType)), []), Record(None, [FieldValue(name, v)]);
    var rs := [r1, r2, r3];
    assert rs[..2] == [r1, r2] && [r1, r2][..1] == [r1] && [r1][..0] == [];
    assert TagAfterRecords([r1], None) == Some(obj);
    assert TagAfterRecords([r1, r2], None) == None;
    assert TagAfterRecords(rs, None) == None;
    assert !RecordsOk(rs, None, schema);
    ResultsAppend([], Response(rs), schema);
    assert [] + [Response(rs)] == [Response(rs)];
  }

  // ---------------------------------------------------------------------
  // Steps of the runs above, one result or record at a time
  // ---------------------------------------------------------------------

  /** A run made of one result holding records. */
  lemma OneResult(res: QueryResult, schema: Schema)
    requires RecordsOf(res).Some? && RecordsOk(RecordsOf(res).value, None, schema)
    ensures ResultsOk([res], schema)
    ensures ResultsEvents([res], schema) == RecordsEvents(RecordsOf(res).value, None, schema)
  {
    assert [res][..0] == [];
    assert ResultsEvents([res], schema) == [] + RecordsEvents(RecordsOf(res).value, None, schema);
  }

  /** One more result holding records, processed under the carried tag. */
  lemma NextResult(results: seq<QueryResult>, res: QueryResult, schema: Schema)
    requires ResultsOk(results, schema) && RecordsOf(res).Some?
    requires RecordsOk(RecordsOf(res).value, TagAfterResults(results), schema)
    ensures ResultsOk(results + [res], schema)
    ensures ResultsEvents(results + [res], schema)
         == ResultsEvents(results, schema) + RecordsEvents(RecordsOf(res).value, TagAfterResults(results), schema)
  {
    assert (results + [res])[..|results|] == results;
  }

  /** A single record under `tag`. */
  lemma OneRecord(r: Record, tag: Option<string>, schema: Schema)
    requires r.fields == [] || Resolvable(NextTag(r, tag), schema)
    ensures RecordsOk([r], tag, schema) && TagAfterRecords([r], tag) == NextTag(r, tag)
    ensures RecordsEvents([r], tag, schema) == FieldEvents(r.fields, NextTag(r, tag), schema)
  {
    assert [r][..0] == [];
    assert TagAfterRecords([r], tag) == NextTag(r, TagAfterRecords([], tag));
    assert RecordsOk([r], tag, schema);
    assert RecordsEvents([r], tag, schema) == [] + FieldEvents(r.fields, NextTag(r, tag), schema);
  }

  /** Two records under `tag`; the second sees the first's tag. */
  lemma TwoRecords(r1: Record, r2: Record, tag: Option<string>, schema: Schema)
    requires r1.fields == [] || Resolvable(NextTag(r1, tag), schema)
    requires r2.fields == [] || Resolvable(NextTag(r2, NextTag(r1, tag)), schema)
    ensures RecordsOk([r1, r2], tag, schema)
    ensures RecordsEvents([r1, r2], tag, schema)
         == FieldEvents(r1.fields, NextTag(r1, tag), schema) + FieldEvents(r2.fields, NextTag(r2, NextTag(r1, tag)), schema)
  {
    OneRecord(r1, tag, schema);
    assert [r1, r2][..1] == [r1];
  }

  /** One observation creates one entry. */
  lemma FoldOne(e: Observation)
    ensures Fold([e]) == map[e.field := FieldStat(e.length, e.length, e.obj, 1, e.declared)]
  {
    assert [e][..0] == [];
    assert FoldFrom(map[], [e]) == Observe(FoldFrom(map[], []), e);
  }
}
