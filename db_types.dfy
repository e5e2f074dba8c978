/** The values `db.ts` exposes: session identifiers, errors and the shape of a query result. */
module DbTypes {
  import opened Wrappers
  import opened Driver

  /** A session identifier: a random UUID string, branded so that plain strings are not mixed in. */
  datatype ConnectionId = ConnectionId(uuid: string)

  datatype Error =
    /** "Too many connections opened.": the registry already holds its maximum. */
    | TooManyConnections
    /** "No connection for <id>": the identifier is not in the registry. */
    | NoConnection(id: ConnectionId)
    /** "Unexpected": a fetched row was not an array. */
    | UnexpectedRow
    /** A driver call rejected; its message passes through unchanged. */
    | DriverError(detail: string)

  /** The `{ name }` entries of a result set's metadata. */
  datatype ColumnMeta = ColumnMeta(name: string)

  /** One entry of `Result.data`: column metadata and the rows read. */
  datatype ResultData = ResultData(metadata: seq<ColumnMeta>, rows: seq<seq<Value>>)

  /** The `Result` of `execution`. */
  datatype QueryResult = QueryResult(rowsAffected: Option<nat>, data: seq<ResultData>)
}
