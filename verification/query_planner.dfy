/**
 * The query planner: one record query per classified object that has at
 * least one flagged field, selecting exactly those fields.
 */
module QueryPlanner {
  import opened Wrappers
  import Selection
  import opened Classifier

  /** `sep.join(parts)`. */
  function Join(parts: seq<string>, sep: string): string {
    if |parts| == 0 then ""
    else if |parts| == 1 then parts[0]
    else Join(parts[..|parts| - 1], sep) + sep + parts[|parts| - 1]
  }

  /** Only a present, non-empty name is selected. */
  predicate HasName(d: Descriptor) {
    d.name.Some? && d.name.value != ""
  }

  function NameOf(d: Descriptor): string {
    d.name.GetOr("")
  }

  /** The named fields of an entry, in schema order. */
  function SelectedNames(fields: seq<Descriptor>): seq<string> {
    Selection.Select(fields, HasName, NameOf)
  }

  const CommandPrefix: string := "sf data query --json --query \""

  /** The CLI command that runs the object's query. */
  function QueryCommand(e: SchemaEntry): string {
    CommandPrefix + "SELECT " + Join(SelectedNames(e.fields), ", ") + " FROM " + e.objectName + "\""
  }

  /** Objects without flagged fields are not queried. */
  predicate NeedsQuery(e: SchemaEntry) {
    |e.fields| > 0
  }

  function PlannedQueries(schema: Schema): seq<string> {
    Selection.Select(schema, NeedsQuery, QueryCommand)
  }

  /** The planning loop. */
  method GenerateSfQueries(schema: Schema) returns (queries: seq<string>)
    ensures queries == PlannedQueries(schema)
  {
    queries := [];
    var i := 0;
    while i < |schema|
      invariant 0 <= i <= |schema|
      invariant queries == PlannedQueries(schema[..i])
    {
      var entry := schema[i];
      assert schema[..i + 1] == schema[..i] + [entry];
      if |entry.fields| > 0 {
        var fieldNames := Join(SelectedNames(entry.fields), ", ");
        var query := CommandPrefix + "SELECT " + fieldNames + " FROM " + entry.objectName + "\"";
        queries := queries + [query];
      }
      i := i + 1;
    }
    assert schema[..i] == schema;
  }

  /**
   * Exactly one query per object with a non-empty field list, in schema
   * order, and none for an empty list; each query selects, in order, the
   * named fields of its object from that object.
   */
  lemma PlannedQueriesExactly(schema: Schema) returns (idx: seq<nat>)
    ensures Selection.IsSelection(schema, PlannedQueries(schema), NeedsQuery, QueryCommand, idx)
    ensures forall k :: 0 <= k < |idx| ==>
      && |schema[idx[k]].fields| > 0
      && PlannedQueries(schema)[k] ==
           CommandPrefix + "SELECT " + Join(SelectedNames(schema[idx[k]].fields), ", ")
           + " FROM " + schema[idx[k]].objectName + "\""
    ensures forall i :: 0 <= i < |schema| && schema[i].fields == [] ==> i !in idx
  {
    idx := Selection.SelectIndices(schema, NeedsQuery, QueryCommand);
  }

  /** The select list names exactly the descriptors with a non-empty name, in order. */
  lemma SelectedNamesExactly(fields: seq<Descriptor>) returns (idx: seq<nat>)
    ensures Selection.IsSelection(fields, SelectedNames(fields), HasName, NameOf, idx)
    ensures forall k :: 0 <= k < |idx| ==>
      fields[idx[k]].name == Some(SelectedNames(fields)[k]) && SelectedNames(fields)[k] != ""
  {
    idx := Selection.SelectIndices(fields, HasName, NameOf);
  }

  /**
   * Exactly one separator stands between any two consecutive parts: the
   * join splits, at every boundary, into the join of the parts before it,
   * the separator and the join of the parts after it.
   */
  lemma {:induction false} JoinSplit(parts: seq<string>, sep: string, k: nat)
    requires 0 < k < |parts|
    ensures Join(parts, sep) == Join(parts[..k], sep) + sep + Join(parts[k..], sep)
  {
    var n := |parts| - 1;
    if k == n {
      assert parts[k..] == [parts[n]];
    } else {
      JoinSplit(parts[..n], sep, k);
      assert parts[..n][..k] == parts[..k];
      assert parts[k..][..|parts[k..]| - 1] == parts[..n][k..];
      assert parts[k..][|parts[k..]| - 1] == parts[n];
    }
  }

  /** A single part is joined to itself, without a separator. */
  lemma JoinOne(p: string, sep: string)
    ensures Join([p], sep) == p
  {
  }

  /** Of two objects, one with a flagged field and one without, only the first is queried. */
  lemma OneQueryForTwoObjects(a: SchemaEntry, b: SchemaEntry)
    requires a.fields != [] && b.fields == []
    ensures PlannedQueries([a, b]) == [QueryCommand(a)]
  {
    assert NeedsQuery(a) && !NeedsQuery(b);
    assert [a, b][..1] == [a];
    assert [a][..0] == [];
    assert PlannedQueries([a]) == [QueryCommand(a)];
  }
}
