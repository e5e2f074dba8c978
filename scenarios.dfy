/** Client code showing what callers of the registry can conclude from its contracts alone. */
module Scenarios {
  import opened Wrappers
  import opened Seqs
  import opened Driver
  import opened DbTypes
  import opened Execution
  import opened Db

  /** A third session is refused while two are open. */
  method CapScenario(a: ConnectionId, b: ConnectionId, c: ConnectionId)
    requires a != b && a != c && b != c
  {
    var registry := new Registry();
    var ra := registry.Allocate(a, Success(Connection(1)));
    var rb := registry.Allocate(b, Success(Connection(2)));
    assert |registry.connections| == 2;
    var rc := registry.Allocate(c, Success(Connection(3)));
    assert rc == Failure(TooManyConnections);
    assert registry.List() == [a, b];
  }

  /** A session pings true until it is closed and false after; closing it again changes nothing. */
  method ReleaseScenario(a: ConnectionId) {
    var registry := new Registry();
    var ra := registry.Allocate(a, Success(Connection(1)));
    assert a in registry.connections;
    var alive := registry.Ping(a, Success(()));
    assert alive == Success(true);
    var closed := registry.Close(a, Success(()));
    alive := registry.Ping(a, Success(()));
    assert alive == Success(false);
    closed := registry.Close(a, Success(()));
    assert closed == Success(()) && registry.connections == map[];
  }

  /** The single cursor state of `SELECT 1 FROM DUAL`: one NUMBER column named `1` and one row. */
  function DualQuery(): seq<CursorState> {
    [CursorState([Column("1", "NUMBER")], [ArrayRow([Number(1)])], Exhausted)]
  }

  /** Visiting the dual query yields one result set with its column name and its one row. */
  lemma DualQueryRows()
    ensures Collect(DualQuery()) == Success([ResultData([ColumnMeta("1")], [[Number(1)]])])
    ensures Begun(DualQuery()) == 1
  {
    var states := DualQuery();
    assert [ArrayRow([Number(1)])][1..] == [];
    assert FetchRows([], Exhausted, RowCap - 1) == Success([]);
    assert [[Number(1)]] + [] == [[Number(1)]];
    assert Fetch(states[0]) == Success([[Number(1)]]);
    assert ColumnNames([Column("1", "NUMBER")]) == [ColumnMeta("1")];
    assert Entry(states[0]) == Success(ResultData([ColumnMeta("1")], [[Number(1)]]));
    assert states[..|states| - 1] == [];
    assert Collect(states[..|states| - 1]) == Success([]);
    assert [] + [ResultData([ColumnMeta("1")], [[Number(1)]])] == [ResultData([ColumnMeta("1")], [[Number(1)]])];
  }

  /** A query yields one result set and closes its cursor once. */
  method QueryScenario(a: ConnectionId) {
    var registry := new Registry();
    var ra := registry.Allocate(a, Success(Connection(1)));
    assert a in registry.connections;
    var cursor := new Cursor([Column("1", "NUMBER")], [ArrayRow([Number(1)])], Exhausted);
    var query := Response(None, Open(cursor), None);
    assert Candidates(query) == [Open(cursor)];
    assert Candidates(query)[1..] == [];
    ghost var cs := ResponseCursors(Success(query));
    assert cs == [cursor];
    assert Snapshot(cs) == DualQuery();
    DualQueryRows();
    var log := new CloseLog();
    var r := registry.Execute(a, "SELECT 1 FROM DUAL", Success(query), log);
    assert r == Success(QueryResult(None, [ResultData([ColumnMeta("1")], [[Number(1)]])]));
    assert cs[..1] == cs;
    assert log.closed == [cursor];
    assert cursor.closeCount == 1;
  }

  /** A DML statement yields only its row count; an unknown session fails. */
  method UpdateScenario(a: ConnectionId, unknown: ConnectionId)
    requires a != unknown
  {
    var registry := new Registry();
    var ra := registry.Allocate(a, Success(Connection(1)));
    assert a in registry.connections && unknown !in registry.connections;
    var update := Response(Some(3), Missing, None);
    assert Candidates(update) == [Missing];
    assert Candidates(update)[1..] == [];
    ghost var cs := ResponseCursors(Success(update));
    assert cs == [];
    assert Collect(Snapshot(cs)) == Success([]);
    var log := new CloseLog();
    var r := registry.Execute(a, "UPDATE t SET x = 1", Success(update), log);
    assert r == Success(QueryResult(Some(3), []));
    r := registry.Execute(unknown, "SELECT 1 FROM DUAL", Success(update), log);
    assert r == Failure(NoConnection(unknown)) && log.closed == [];
  }

  /** The cursor states of the failing block below: an empty one, one whose second row is not an array, and an empty one. */
  function FailingBlock(): seq<CursorState> {
    [CursorState([Column("A", "NUMBER")], [], Exhausted),
     CursorState([Column("B", "NUMBER")], [ArrayRow([Null]), NonArray], Exhausted),
     CursorState([Column("C", "NUMBER")], [], Exhausted)]
  }

  /** Visiting the failing block stops at its second cursor with the non-array error. */
  lemma FailingBlockStops()
    ensures Collect(FailingBlock()) == Failure(UnexpectedRow)
    ensures Begun(FailingBlock()) == 2
  {
    var states := FailingBlock();
    assert FetchRows([], Exhausted, RowCap) == Success([]);
    assert [ArrayRow([Null]), NonArray][1..] == [NonArray];
    assert FetchRows([NonArray], Exhausted, RowCap - 1) == Failure(UnexpectedRow);
    assert Fetch(states[1]) == Failure(UnexpectedRow);
    assert states[..2][..1] == states[..1] && states[..1][..0] == [];
    assert Collect(states[..1]).Success?;
    assert Collect(states[..2]) == Failure(UnexpectedRow);
    assert Begun(states[..2]) == 2;
    CollectExtendsFailure(states, 2);
    assert states[..3] == states;
  }

  /** After an absent own result set, three implicit cursors are visited in the order the block returned them. */
  lemma ImplicitCursors(c1: Cursor, c2: Cursor, c3: Cursor)
    requires c1 != c2 && c1 != c3 && c2 != c3
    ensures OpenCursors([Missing, Open(c1), Open(c2), Open(c3)]) == [c1, c2, c3]
    ensures DistinctCursors([Missing, Open(c1), Open(c2), Open(c3)])
  {
    var items := [Missing, Open(c1), Open(c2), Open(c3)];
    assert items[1..][1..][1..][1..] == [];
    assert OpenCursors(items[1..][1..][1..]) == [c3];
    assert OpenCursors(items[1..][1..]) == [c2, c3];
  }

  /** Reaching the first two of three distinct cursors closes those two, last first, and not the third. */
  lemma ReachedTwo(c1: Cursor, c2: Cursor, c3: Cursor)
    requires c1 != c3 && c2 != c3
    ensures [c1, c2, c3][..2] == [c1, c2] && c3 !in [c1, c2]
    ensures Reversed([c1, c2]) == [c2, c1]
  {
  }

  /** When the second of three cursors yields a non-array row, the first two are closed, last first, and the third is untouched. */
  method FailureClosesReachedCursors() {
    var c1 := new Cursor([Column("A", "NUMBER")], [], Exhausted);
    var c2 := new Cursor([Column("B", "NUMBER")], [ArrayRow([Null]), NonArray], Exhausted);
    var c3 := new Cursor([Column("C", "NUMBER")], [], Exhausted);
    var items := [Missing, Open(c1), Open(c2), Open(c3)];
    ImplicitCursors(c1, c2, c3);
    ghost var cs := OpenCursors(items);
    assert Snapshot(cs) == FailingBlock();
    FailingBlockStops();
    ReachedTwo(c1, c2, c3);
    var log := new CloseLog();
    var r := CollectResults(items, log);
    assert r == Failure(UnexpectedRow);
    assert log.closed == [c2, c1];
    assert c1.closeCount == 1 && c2.closeCount == 1 && c3.closeCount == 0;
  }
}
