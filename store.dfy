/** Outcomes of the calls the client makes to its hosted store. The calls
    themselves are not modelled: each one's outcome is an input. */
module Store {

  datatype Option<T> = None | Some(value: T)

  /** The `{ data, error }` pair a select returns: an error, or data that
      may be `null`. */
  datatype Query<T> = QueryError | Data(rows: Option<T>)

  /** `rows || []` for a query that did not fail. */
  function RowsOr<T>(rows: Option<seq<T>>): seq<T> {
    match rows
    case Some(v) => v
    case None => []
  }

  /** JavaScript truthiness of a `string | null` id: `null` and `""` are
      both false. */
  predicate Truthy(id: Option<string>) {
    id.Some? && id.value != ""
  }
}
