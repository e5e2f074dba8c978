/**
 * The database driver as this model sees it: opaque connections, cursors that hand out
 * rows one at a time, the shape of an `execute` response, and a log of driver calls.
 */
module Driver {
  import opened Wrappers

  /** An established physical connection, known only by an opaque handle. */
  datatype Connection = Connection(handle: nat)

  /** A column value as the driver delivers it. */
  datatype Value = Null | Text(text: string) | Number(number: int)

  /** A fetched row: an array of column values, or anything else the driver might hand back. */
  datatype Row = ArrayRow(values: seq<Value>) | NonArray

  /** Column metadata as the driver reports it; only `name` reaches a result. */
  datatype Column = Column(name: string, dbTypeName: string)

  /** What `getRow` does once the buffered rows are used up: report the end, or reject. */
  datatype Tail = Exhausted | FetchFails(detail: string)

  /** A result-set cursor of the driver. */
  class Cursor {
    const metaData: seq<Column>
    /** The rows still to be fetched, in order. */
    var pending: seq<Row>
    const tail: Tail
    /** How many times `close` was called on this cursor. */
    var closeCount: nat

    constructor (metaData: seq<Column>, rows: seq<Row>, tail: Tail)
      ensures this.metaData == metaData && pending == rows && this.tail == tail
      ensures closeCount == 0
    {
      this.metaData := metaData;
      this.pending := rows;
      this.tail := tail;
      this.closeCount := 0;
    }

    /** The next row, `None` at the end of the rows, or the driver's rejection. */
    method GetRow() returns (r: Result<Option<Row>, string>)
      modifies this`pending
      ensures old(pending) != [] ==> r == Success(Some(old(pending)[0])) && pending == old(pending)[1..]
      ensures old(pending) == [] ==>
                pending == [] &&
                r == (match tail case Exhausted => Success(None) case FetchFails(d) => Failure(d))
    {
      if pending != [] {
        r := Success(Some(pending[0]));
        pending := pending[1..];
      } else {
        r := match tail case Exhausted => Success(None) case FetchFails(d) => Failure(d);
      }
    }

    /** Closes the cursor; `log` records the close, so the order of closes across cursors is observable. */
    method Close(ghost log: CloseLog)
      modifies this`closeCount, log`closed
      ensures closeCount == old(closeCount) + 1
      ensures log.closed == old(log.closed) + [this]
    {
      closeCount := closeCount + 1;
      log.closed := log.closed + [this];
    }
  }

  /** An observer of the driver: every cursor close, in the order the closes were made. */
  class CloseLog {
    ghost var closed: seq<Cursor>

    constructor ()
      ensures closed == []
    {
      closed := [];
    }
  }

  /** One entry of a response: absent, rows already fetched into an array, or an open cursor. */
  datatype Item = Missing | FetchedRows(rows: seq<seq<Value>>) | Open(cursor: Cursor)

  /** What `execute` returns: the affected-row count, the statement's own result set and the implicit results. */
  datatype Response = Response(rowsAffected: Option<nat>, resultSet: Item, implicitResults: Option<seq<Item>>)

  /** The connection-level driver calls the registry makes. */
  datatype DriverCall =
    | GetConnection
    | PingConnection(conn: Connection)
    | ExecuteStatements(conn: Connection, statements: string)
    | CloseConnection(conn: Connection)
}
