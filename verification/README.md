# Custom metadata type field audit — verified model

`analyze_cmt.py` audits Salesforce custom metadata types (objects whose
name ends in `__mdt`). For each object it reads the field metadata, keeps
the custom fields whose declared size exceeds a policy limit (text
`length` above 250, number `precision` above 10), queries the records of
those fields, sorts the query results by `totalSize` (largest first) and
reports, per field name, the longest and shortest value length seen, how
often the field occurred, the object it was last seen on and its declared
limit.

This project models the deterministic processing between the Salesforce
CLI calls, in Dafny:

- `classifier.dfy` — the policy table `limit_map` and the field
  classification loop of `sObject_get_describe`, plus the classified
  schema (`results_map`) as an ordered list of object entries.
- `object_selector.dfy` — `filter_cmdt_out`.
- `query_planner.dfy` — `generate_sf_queries`, as a loop.
- `query_results.dfy`, `result_order.dfy` — the parsed query responses and
  the stable sort by `totalSize`, descending.
- `field_stats.dfy` — `analyze_field_lengths` as nested loops over a map
  accumulator, specified by a fold (`Analyze`) over the sequence of
  (record, entry) observations in processing order.
- `field_stats_props.dfy`, `field_stats_examples.dfy`, `pipeline.dfy` —
  what the statistics mean, concrete runs, and how the sort relates to the
  counts.
- `selection.dfy`, `wrappers.dfy` — an ordered filter-and-project with its
  exact index characterisation, and `Option`.

Behaviour of the code that the model keeps:

- Statistics are keyed by field name alone (analyze_cmt.py:243): the same
  field name under two objects shares one entry, which holds `longest`,
  `shortest`, `object`, `count` and `field_length`
  (`FieldStatsExamples.FlatKeyingMergesObjects`).
- A record's object is `cmd_name`, set only by a record whose `attributes`
  has a `type` key (analyze_cmt.py:224-225) and otherwise carried over
  from the previous record. Before any record sets it, the name is unbound
  and the lookup at analyze_cmt.py:231 fails; after a record whose `type`
  is null it is `None`, and the scan at analyze_cmt.py:234 fails. The
  aggregator's precondition `ResultsOk` excludes these runs and a record
  whose object is not in the schema; a record without entries never needs
  an object.
- A custom field of an audited type that lacks its designated attribute
  makes the comparison at analyze_cmt.py:53 fail (`None > 250`);
  `ClassifyFields` requires the attribute (`Classifiable`).
- The sort at analyze_cmt.py:358 reads `result.totalSize` unguarded, so it
  requires every result to carry it (`AllSized`); results that carry it
  but lack `records` are still skipped by the aggregator.

## Model

| member | source | states |
|---|---|---|
| `Classifier.Lookup` | analyze_cmt.py:231 | the lookup finds an object exactly when some schema entry has that name, and then returns the fields of such an entry |
| `Classifier.ClassifyFields` | analyze_cmt.py:46-61 | the classification loop builds exactly `Classify(fields)`, given that every custom field of a policy type carries its designated attribute |
| `Classifier.ClassifyKeepsExactlyFlagged` | analyze_cmt.py:47-60 | the output holds, in input order, exactly the fields with `custom` true, a type in the policy table and designated attribute strictly above the threshold; each record copies name, length, type and precision, and `digits` equals the type |
| `Classifier.ClassifyIsDetermined` | analyze_cmt.py:47-61 | any list that selects the flagged fields in order through an index list is the classifier's output, so the characterisation above is complete |
| `Classifier.FlaggedExactly` | analyze_cmt.py:8-12 | with the policy table `limit_map`, a field is flagged exactly when it is custom and either of type `string` with `length` above 250 or of type `double` with `precision` above 10 |
| `Classifier.ClassifyExample` | analyze_cmt.py:48-53 | a custom text field of length 300 is kept; one of length 100, or a non-custom one of length 300, is dropped |
| `Classifier.ClassifiedCarryLimit` | analyze_cmt.py:8-12 | every classified descriptor has a policy type, and a text one has a length above 250, a number one a precision above 10 |
| `ObjectSelector.FilterCmdtOut` | analyze_cmt.py:116 | every returned name ends in `__mdt`, and there are no more names than listing entries |
| `ObjectSelector.FilterCmdtOutExactly` | analyze_cmt.py:116 | the result lists, in order, exactly the `fullName`s of entries whose name is present and ends in `__mdt`; entries without a name never contribute |
| `ObjectSelector.FilterCmdtOutWithoutResult` | analyze_cmt.py:116 | a listing without a `result` key yields no names |
| `ObjectSelector.FilterCmdtOutExample` | analyze_cmt.py:116 | `Account` and a nameless entry are dropped; `Config__mdt` and `__mdt` are kept in order |
| `ObjectSelector.FilterCmdtOutAsWritten` | analyze_cmt.py:93-116 | applied to what the listing call returns, the filter raises exactly when the call failed and returned `[]` |
| `ObjectSelector.FilterCmdtOutOfReply` | analyze_cmt.py:116 | the filter with a failed call read as an empty listing: no names after a failure, and every name ends in `__mdt` |
| `ObjectSelector.FailedListingRaises` | analyze_cmt.py:93-116 | the failure value `[]` makes the filter as written raise, while the intended filter yields no names |
| `ObjectSelector.FilterCmdtOutOfReplyAgrees` | analyze_cmt.py:116 | the intended filter agrees with the filter as written wherever the latter does not raise, and treats a failure as a listing without `result` |
| `QueryPlanner.GenerateSfQueries` | analyze_cmt.py:167-175 | the planning loop builds exactly `PlannedQueries(schema)` |
| `QueryPlanner.PlannedQueriesExactly` | analyze_cmt.py:169-173 | one query per object with a non-empty field list, in schema order, none for an empty list; each is the `sf data query` command for `SELECT` + the field names joined by `", "` + ` FROM ` + the object |
| `QueryPlanner.SelectedNamesExactly` | analyze_cmt.py:171 | the select list names, in order, exactly the descriptors whose name is present and non-empty |
| `QueryPlanner.JoinSplit` | analyze_cmt.py:171 | `", ".join` puts exactly one separator between consecutive names: at every boundary the join is the join of the names before it, the separator, and the join of the names after it |
| `QueryPlanner.JoinOne` | analyze_cmt.py:171 | a single name is joined without a separator |
| `QueryPlanner.OneQueryForTwoObjects` | analyze_cmt.py:170 | of two objects, one with flagged fields and one without, only the first is queried |
| `ResultOrder.Insert` | analyze_cmt.py:358 | inserting a result adds exactly that result to the multiset of results |
| `ResultOrder.SortByTotalSize` | analyze_cmt.py:358 | the sorted results are a permutation of the input |
| `ResultOrder.SortNonIncreasing` | analyze_cmt.py:358 | the sorted results are in non-increasing order of `totalSize` |
| `ResultOrder.SortStable` | analyze_cmt.py:358 | for every size, the results of that size keep their input order |
| `FieldStats.ScanDeclaredLimit` | analyze_cmt.py:233-239 | the descriptor scan yields `DeclaredLimit`: 0 unless a descriptor of the field has type `string` or `double`, and then the last such one's length or precision |
| `FieldStats.AnalyzeRecord` | analyze_cmt.py:227-255 | the entry loop of one record adds exactly that record's observations to the accumulator |
| `FieldStats.AnalyzeRecords` | analyze_cmt.py:222-255 | the record loop adds the observations of all records and leaves the tag of the last record that carried one |
| `FieldStats.AnalyzeFieldLengths` | analyze_cmt.py:202-257 | the aggregator returns `Analyze(results, schema)`, the fold of all observations in processing order, skipping results without `result` or `records` |
| `FieldStats.ObserveEffect` | analyze_cmt.py:243-255 | one entry step: the field gets an entry and no other entry changes; its count grows by one, its object becomes the observed record's object, on first sight `longest` and `shortest` are both the value length, and later its shortest..longest range grows to cover the value length using only old bounds or that length, and `field_length` is set only on first sight |
| `FieldStatsProps.FoldDomain` | analyze_cmt.py:243-250 | a field name has an entry exactly when it was observed |
| `FieldStatsProps.FoldCount` | analyze_cmt.py:243-255 | `count` is the number of observations of the field |
| `FieldStatsProps.FoldBounds` | analyze_cmt.py:241-253 | `0 <= shortest <= longest`; every observed length lies between them and both are attained |
| `FieldStatsProps.FoldObject` | analyze_cmt.py:247-254 | `object` is the object of the field's last observation |
| `FieldStatsProps.FoldFieldLength` | analyze_cmt.py:249 | `field_length` is the declared limit of the field's first observation |
| `FieldStatsProps.FoldFirstDeclared` | analyze_cmt.py:231-249 | over observations that carry their object's declared limit, `field_length` is the scan result under the object of the first observation |
| `FieldStatsProps.ResultsEventsCount` | analyze_cmt.py:215-229 | the observations of a field are exactly its (record, entry) pairs over the results that carry records |
| `FieldStatsProps.ResultsEventsDeclared` | analyze_cmt.py:231-239 | every observation names a schema object and carries the limit the descriptor scan finds under it |
| `FieldStatsProps.AnalyzeCount` | analyze_cmt.py:215-255 | a field name has an entry exactly when it occurs in some record, and `count` is its number of (record, entry) pairs over all objects together |
| `FieldStatsProps.AnalyzeFirstAndLast` | analyze_cmt.py:233-254 | `field_length` is the limit declared under the object of the field's first observation, and `object` is the object of its last |
| `FieldStatsProps.DeclaredLimitIsLastDeclaring` | analyze_cmt.py:233-239 | the scan yields 0 when no descriptor of type `string`/`double` names the field, else the limit of the last one that does |
| `FieldStatsExamples.AnalyzeNoResults` | analyze_cmt.py:213 | no results give no statistics |
| `FieldStatsExamples.AnalyzeSingleValue` | analyze_cmt.py:241-250 | one record with one entry gives `longest == shortest ==` its length and `count == 1` |
| `FieldStatsExamples.AnalyzeTwoValues` | analyze_cmt.py:243-255 | values "abc" then "abcdef" give longest 6, shortest 3, count 2 |
| `FieldStatsExamples.SkippedResultChangesNothing` | analyze_cmt.py:216-218 | a result without `result` or `records` changes neither the statistics nor the carried object |
| `FieldStatsExamples.FlatKeyingMergesObjects` | analyze_cmt.py:243-254 | one field name under two objects yields a single entry with count 2, the later object and the earlier object's declared limit |
| `FieldStatsExamples.TagCarriesOver` | analyze_cmt.py:224-254 | a record without `attributes.type` is analysed under the previous record's object |
| `FieldStatsExamples.UnboundTagRejected` | analyze_cmt.py:224-231 | a first record with an entry but no type tag is outside the aggregator's precondition |
| `FieldStatsExamples.NullTagRejected` | analyze_cmt.py:224-234 | after a record whose `attributes.type` is null, an untagged record with an entry is outside the aggregator's precondition |
| `Pipeline.SortPreservesOccurrences` | analyze_cmt.py:358-361 | sorting the results does not change any field's number of occurrences |

## Left out

- The Salesforce CLI calls and JSON parsing in `sObject_get_describe`,
  `get_all_objects_from_org` and `execute_query` (lines 33-44, 63-67,
  70-99, 178-199): external process I/O. When they return JSON objects of
  the shapes the datatypes describe, those are the model's inputs
  (`FieldMeta` lists, `ListingReply`, `QueryResult`s); the listing call's
  failure value `[]` is `ListingReply.FailedCall`.
- The failure value `[]` of `sObject_get_describe` (line 67): `main`
  unpacks it into two names at line 346 and fails there; `main` is not
  part of this model.
- JSON null where the code expects an object or a list is not represented;
  `None` in the datatypes stands for an absent key, except where a type
  says otherwise (`TypeKey`, `FieldMeta`, `Value`). The code fails on
  each of these: a listing `result` of null (`for` over `None`, line 116),
  a listing entry whose `fullName` is null (`None.endswith`, line 116), a
  describe output whose `fields` is null (line 47), a query response whose
  `result` is null (`'records' in None`, line 216), a record whose
  `attributes` is null (`'type' in None`, line 224), and a `records` of
  null (`for` over `None`, line 222).
- `main` (lines 295-371): argument parsing, the `-f`/`-l` dispatch, the
  loop that stores each describe result in `results_map` and the loop that
  collects the parsed query results. The model takes the schema and the
  collected results as given.
- `write_dict_to_csv` and `print_markdown_table`: output formatting only.
- FieldStats.AnalyzeFieldLengths: the statistics are a Dafny `map`, so the
  key order of the Python dict (the order in which each field name is
  first seen, line 244) is not modelled, nor is the row order of the CSV
  file and the table that follows it (lines 146, 288); `Analyze` likewise.
- Python's `str()` rendering of non-string values: a non-null value is
  modelled by its rendering (`Value.Present`).
- The unused module globals `mdt_list`, `results_map`, `results_of_queries`.
- A record's `attributes` entry is held apart from its other entries, so
  the `attributes` skip at lines 228-229 is by construction. This relies on
  a convention the `Record` type does not enforce: the names in
  `Record.fields` are distinct and none is `"attributes"`, as holds for the
  keys of a parsed JSON object. A `fields` entry named `"attributes"` would
  be counted by the model where the code skips it.
- A describe output without `name` (line 43) would make `results_map`
  hold the key `None` (line 348); `SchemaEntry.objectName` is a string, so
  this is not represented, and the statement that a null `type` always
  makes the scan at line 234 fail assumes no such key.
- The schema is an ordered list of object entries; as a dictionary it has
  distinct names, which the model does not enforce (the lookup takes the
  first match).
- FieldStatsProps.FoldBounds: states longest and shortest over the
  observation sequence the aggregator builds (one observation per record
  entry, with the value's rendered length), not restated over the raw
  records.

## Findings

| source | as written | input that shows it | evidently intended | confidence | as-written member | corrected member |
|---|---|---|---|---|---|---|
| analyze_cmt.py:93,99,116,328 | `get_all_objects_from_org` returns `[]` when the listing command fails, and `filter_cmdt_out` then calls `.get` on that list and raises | a listing command that exits with an error or reports a non-zero status | a failed listing yields no custom metadata types, as a listing without `result` does | medium, not executed | `ObjectSelector.FilterCmdtOutAsWritten` (`ObjectSelector.FailedListingRaises`) | `ObjectSelector.FilterCmdtOutOfReply` (`ObjectSelector.FilterCmdtOutOfReplyAgrees`) |
