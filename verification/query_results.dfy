/** Parsed responses of the record-query service. */
module QueryResults {
  import opened Wrappers

  /** A field value: JSON null, or any other value through its `str()` rendering. */
  datatype Value = Null | Present(repr: string)

  /** The `type` key of a record's `attributes`: absent, null, or an object name. */
  datatype TypeKey = NoTypeKey | NullType | TypeName(name: string)

  /** A record's `attributes` entry. */
  datatype Attributes = Attributes(typeKey: TypeKey)

  /** One non-`attributes` entry of a record. */
  datatype FieldValue = FieldValue(name: string, value: Value)

  /**
   * One record: its `attributes` entry, if any, and every other entry in
   * the record's own key order.
   */
  datatype Record = Record(attributes: Option<Attributes>, fields: seq<FieldValue>)

  /** The `result` object of a response; `None` for a key it does not have. */
  datatype ResultBody = ResultBody(totalSize: Option<int>, records: Option<seq<Record>>)

  /** One parsed response; `None` when it has no `result` key. */
  datatype QueryResult = QueryResult(result: Option<ResultBody>)
}
