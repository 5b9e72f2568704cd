/**
 * The limit policy and the schema classifier: which custom fields of an
 * object are declared larger than the policy allows.
 */
module Classifier {
  import opened Wrappers
  import Selection

  /** The field attribute the policy compares against its threshold. */
  datatype Attribute = Length | Precision

  datatype Limit = Limit(attribute: Attribute, threshold: int)

  /** The policy table: text fields are audited on length, numbers on precision. */
  const LimitMap: map<string, Limit> := map[
    "string" := Limit(Length, 250),
    "double" := Limit(Precision, 10)
  ]

  /**
   * One entry of an object's describe output, read with `.get`, which gives
   * `None` for an absent key and for a null value alike; `custom` is
   * `Some(true)` exactly when the JSON value is `true`.
   */
  datatype FieldMeta = FieldMeta(
    name: Option<string>,
    custom: Option<bool>,
    fieldType: Option<string>,
    length: Option<int>,
    precision: Option<int>)

  /** The record kept for a flagged field; `digits` repeats the field's type. */
  datatype Descriptor = Descriptor(
    name: Option<string>,
    length: Option<int>,
    fieldType: Option<string>,
    digits: Option<string>,
    precision: Option<int>)

  /** One object of the classified schema and its flagged fields, in order. */
  datatype SchemaEntry = SchemaEntry(objectName: string, fields: seq<Descriptor>)

  /**
   * The classified schema, keyed by object name in insertion order. As a
   * dictionary it has distinct names; `Lookup` returns the first match.
   */
  type Schema = seq<SchemaEntry>

  function Lookup(schema: Schema, objectName: string): (r: Option<seq<Descriptor>>)
    ensures r.Some? <==> exists k :: 0 <= k < |schema| && schema[k].objectName == objectName
    ensures r.Some? ==> exists k :: 0 <= k < |schema| && schema[k] == SchemaEntry(objectName, r.value)
  {
    if schema == [] then None
    else if schema[0].objectName == objectName then Some(schema[0].fields)
    else
      var r := Lookup(schema[1..], objectName);
      assert forall k :: 0 <= k < |schema| - 1 ==> schema[1..][k] == schema[k + 1];
      r
  }

  /** A custom field whose type the policy covers. */
  predicate Audited(f: FieldMeta) {
    f.custom == Some(true) && f.fieldType.Some? && f.fieldType.value in LimitMap
  }

  /** The value of the attribute the policy names for the field's type. */
  function Designated(f: FieldMeta): Option<int>
    requires Audited(f)
  {
    match LimitMap[f.fieldType.value].attribute
    case Length => f.length
    case Precision => f.precision
  }

  /** An audited field whose designated attribute strictly exceeds the threshold. */
  predicate Flagged(f: FieldMeta) {
    Audited(f) && Designated(f).Some? && Designated(f).value > LimitMap[f.fieldType.value].threshold
  }

  /**
   * The policy table spelled out: a field is flagged exactly when it is
   * custom and either a text field longer than 250 or a number with a
   * precision above 10.
   */
  lemma FlaggedExactly(f: FieldMeta)
    ensures Flagged(f) <==>
      && f.custom == Some(true)
      && ((f.fieldType == Some("string") && f.length.Some? && f.length.value > 250)
          || (f.fieldType == Some("double") && f.precision.Some? && f.precision.value > 10))
  {
    assert LimitMap.Keys == {"string", "double"};
  }

  /**
   * The comparison with the threshold fails on an absent attribute, so every
   * audited field must carry its designated attribute.
   */
  predicate Classifiable(fields: seq<FieldMeta>) {
    forall f :: f in fields && Audited(f) ==> Designated(f).Some?
  }

  function Describe(f: FieldMeta): Descriptor {
    Descriptor(f.name, f.length, f.fieldType, f.fieldType, f.precision)
  }

  /** The flagged fields of one object, described, in describe order. */
  function Classify(fields: seq<FieldMeta>): seq<Descriptor> {
    Selection.Select(fields, Flagged, Describe)
  }

  /** The selection loop over the describe output's `fields` array. */
  method ClassifyFields(fields: seq<FieldMeta>) returns (info: seq<Descriptor>)
    requires Classifiable(fields)
    ensures info == Classify(fields)
  {
    info := [];
    var i := 0;
    while i < |fields|
      invariant 0 <= i <= |fields|
      invariant info == Classify(fields[..i])
    {
      var field := fields[i];
      assert fields[..i + 1] == fields[..i] + [field];
      if field.custom == Some(true) && field.fieldType.Some? && field.fieldType.value in LimitMap {
        var limit := LimitMap[field.fieldType.value];
        var fieldLength := if limit.attribute == Length then field.length else field.precision;
        assert field in fields && fieldLength == Designated(field);
        if fieldLength.value > limit.threshold {
          info := info + [Descriptor(field.name, field.length, field.fieldType, field.fieldType, field.precision)];
        }
      }
      i := i + 1;
    }
    assert fields[..i] == fields;
  }

  /**
   * The classifier keeps exactly the custom fields of a policy type whose
   * designated attribute exceeds the threshold, in input order, and each kept
   * record copies name, length, type and precision, with `digits` equal to
   * the type.
   */
  lemma ClassifyKeepsExactlyFlagged(fields: seq<FieldMeta>) returns (idx: seq<nat>)
    ensures Selection.IsSelection(fields, Classify(fields), Flagged, Describe, idx)
    ensures forall k :: 0 <= k < |idx| ==>
      var f, d := fields[idx[k]], Classify(fields)[k];
      && f.custom == Some(true)
      && f.fieldType.Some? && f.fieldType.value in LimitMap
      && Designated(f).Some? && Designated(f).value > LimitMap[f.fieldType.value].threshold
      && d.name == f.name && d.length == f.length && d.fieldType == f.fieldType
      && d.precision == f.precision && d.digits == d.fieldType
  {
    idx := Selection.SelectIndices(fields, Flagged, Describe);
  }

  /** A field list that classifies to some result is necessarily `Classify`'s. */
  lemma ClassifyIsDetermined(fields: seq<FieldMeta>, info: seq<Descriptor>, idx: seq<nat>)
    requires Selection.IsSelection(fields, info, Flagged, Describe, idx)
    ensures info == Classify(fields)
  {
    Selection.SelectionIsUnique(fields, info, Flagged, Describe, idx);
  }

  /**
   * A custom text field of declared length 300 is kept; one of length 100, or
   * a non-custom one of length 300, is dropped.
   */
  lemma ClassifyExample()
    ensures
      var long := FieldMeta(Some("Long__c"), Some(true), Some("string"), Some(300), None);
      var short := FieldMeta(Some("Short__c"), Some(true), Some("string"), Some(100), None);
      var std := FieldMeta(Some("Std"), Some(false), Some("string"), Some(300), None);
      Classify([long, short, std]) == [Descriptor(Some("Long__c"), Some(300), Some("string"), Some("string"), None)]
  {
    var long := FieldMeta(Some("Long__c"), Some(true), Some("string"), Some(300), None);
    var short := FieldMeta(Some("Short__c"), Some(true), Some("string"), Some(100), None);
    var std := FieldMeta(Some("Std"), Some(false), Some("string"), Some(300), None);
    assert [long, short, std][..2] == [long, short];
    assert [long, short][..1] == [long];
    assert [long][..0] == [];
    assert Flagged(long) && !Flagged(short) && !Flagged(std);
    assert Classify([long]) == [Describe(long)];
    assert Classify([long, short]) == [Describe(long)];
  }

  /** Every descriptor the classifier produces carries its policy attribute. */
  lemma ClassifiedCarryLimit(fields: seq<FieldMeta>)
    ensures forall d :: d in Classify(fields) ==>
      && d.fieldType.Some? && d.fieldType.value in LimitMap
      && (d.fieldType.value == "string" ==> d.length.Some? && d.length.value > 250)
      && (d.fieldType.value == "double" ==> d.precision.Some? && d.precision.value > 10)
  {
    var idx := ClassifyKeepsExactlyFlagged(fields);
    forall d | d in Classify(fields)
      ensures d.fieldType.Some? && d.fieldType.value in LimitMap
      ensures d.fieldType.value == "string" ==> d.length.Some? && d.length.value > 250
      ensures d.fieldType.value == "double" ==> d.precision.Some? && d.precision.value > 10
    {
      var k :| 0 <= k < |Classify(fields)| && Classify(fields)[k] == d;
      var f := fields[idx[k]];
      assert Flagged(f);
    }
  }
}
