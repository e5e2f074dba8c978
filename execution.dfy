/**
 * The result-collection part of `execution`: which response entries are cursors, how many
 * rows are read from each, what the result holds, and which cursors are closed in which order.
 */
module Execution {
  import opened Wrappers
  import opened Seqs
  import opened Driver
  import opened Disposable
  import opened DbTypes

  /** The most rows read from one cursor. */
  const RowCap: nat := 1000

  function Min(a: nat, b: nat): nat { if a <= b then a else b }

  /** The entries visited, in order: the statement's own result set, then the implicit results. */
  function Candidates(response: Response): (items: seq<Item>)
    ensures |items| == 1 + |response.implicitResults.GetOr([])|
    ensures items[0] == response.resultSet && items[1..] == response.implicitResults.GetOr([])
  {
    [response.resultSet] + response.implicitResults.GetOr([])
  }

  /** The open cursors among `items`, in order; absent entries and fetched arrays are skipped. */
  function OpenCursors(items: seq<Item>): (cs: seq<Cursor>)
    ensures |cs| <= |items|
  {
    if items == [] then []
    else (if items[0].Open? then [items[0].cursor] else []) + OpenCursors(items[1..])
  }

  /** No cursor occurs twice among `items`: the driver hands out a distinct object per result set. */
  predicate DistinctCursors(items: seq<Item>) {
    forall j, j' :: 0 <= j < j' < |items| && items[j].Open? && items[j'].Open? ==> items[j].cursor != items[j'].cursor
  }

  lemma {:induction false} OpenCursorsFrom(items: seq<Item>, c: Cursor)
    requires c in OpenCursors(items)
    ensures exists j :: 0 <= j < |items| && items[j] == Open(c)
  {
    if !(items[0].Open? && items[0].cursor == c) {
      OpenCursorsFrom(items[1..], c);
      var j :| 0 <= j < |items[1..]| && items[1..][j] == Open(c);
      assert items[j + 1] == Open(c);
    }
  }

  lemma {:induction false} DistinctCursorsOpen(items: seq<Item>)
    requires DistinctCursors(items)
    ensures Distinct(OpenCursors(items))
  {
    if items != [] {
      assert DistinctCursors(items[1..]);
      DistinctCursorsOpen(items[1..]);
      if items[0].Open? {
        var rest := items[1..];
        assert forall j :: 0 <= j < |rest| ==> rest[j] == items[j + 1];
        OpenCursorsAbsent(rest, items[0].cursor);
      }
    }
  }

  /** Every open entry's cursor is visited: the filter drops only absent entries and row arrays. */
  lemma {:induction false} OpenCursorsComplete(items: seq<Item>, j: nat)
    requires j < |items| && items[j].Open?
    ensures items[j].cursor in OpenCursors(items)
  {
    if j > 0 {
      assert items[1..][j - 1] == items[j];
      OpenCursorsComplete(items[1..], j - 1);
    }
  }

  lemma {:induction false} OpenCursorsAbsent(items: seq<Item>, c: Cursor)
    requires forall j :: 0 <= j < |items| ==> items[j] != Open(c)
    ensures c !in OpenCursors(items)
  {
    if items != [] {
      OpenCursorsAbsent(items[1..], c);
    }
  }

  lemma OpenCursorsStep(items: seq<Item>, i: nat)
    requires i < |items|
    ensures OpenCursors(items[i..]) == (if items[i].Open? then [items[i].cursor] else []) + OpenCursors(items[i + 1..])
  {
    assert items[i..][1..] == items[i + 1..];
  }

  /** Moving past entry `i` of `items` moves past one cursor of `cs` exactly when the entry is open. */
  lemma AdvanceCursors(items: seq<Item>, i: nat, cs: seq<Cursor>, n: nat)
    requires i < |items| && n <= |cs| && OpenCursors(items[i..]) == cs[n..]
    ensures items[i].Open? ==>
      n < |cs| && cs[n] == items[i].cursor && cs[..n] + [cs[n]] == cs[..n + 1] &&
      OpenCursors(items[i + 1..]) == cs[n + 1..]
    ensures !items[i].Open? ==> OpenCursors(items[i + 1..]) == cs[n..]
  {
    OpenCursorsStep(items, i);
    if items[i].Open? {
      ConsSlice(cs, n, items[i].cursor, OpenCursors(items[i + 1..]));
      assert cs[..n] + [cs[n]] == cs[..n + 1];
    }
  }

  lemma ConsSlice<T>(s: seq<T>, n: nat, x: T, t: seq<T>)
    requires n <= |s| && s[n..] == [x] + t
    ensures n < |s| && s[n] == x && s[n + 1..] == t
  {
    assert s[n..][0] == x;
    assert s[n..][1..] == t;
  }

  /** The cursors of a driver response, or none when `execute` itself rejected. */
  function ResponseCursors(response: Result<Response, string>): seq<Cursor> {
    if response.Success? then OpenCursors(Candidates(response.value)) else []
  }

  /** Cursors are visited in entry order, so the own result set's cursor comes before the implicit ones. */
  lemma {:induction false} OpenCursorsAppend(a: seq<Item>, b: seq<Item>)
    ensures OpenCursors(a + b) == OpenCursors(a) + OpenCursors(b)
  {
    if a == [] {
      assert a + b == b;
    } else {
      assert (a + b)[0] == a[0] && (a + b)[1..] == a[1..] + b;
      OpenCursorsAppend(a[1..], b);
    }
  }

  /** What a cursor looks like to `execution` before it is read. */
  datatype CursorState = CursorState(metaData: seq<Column>, pending: seq<Row>, tail: Tail)

  ghost function Snapshot(cs: seq<Cursor>): seq<CursorState>
    reads set c | c in cs
  {
    seq(|cs|, k reads set c | c in cs requires 0 <= k < |cs| =>
      CursorState(cs[k].metaData, cs[k].pending, cs[k].tail))
  }

  /**
   * Reading at most `budget` rows from a cursor whose remaining rows are `pending`:
   * the arrays read, or the error that stops the read.
   */
  function FetchRows(pending: seq<Row>, tail: Tail, budget: nat): (r: Result<seq<seq<Value>>, Error>)
    ensures r.Success? ==> |r.value| <= budget && |r.value| <= |pending|
    decreases budget
  {
    if budget == 0 then Success([])
    else if pending == [] then
      match tail
      case Exhausted => Success([])
      case FetchFails(d) => Failure(DriverError(d))
    else
      match pending[0]
      case NonArray => Failure(UnexpectedRow)
      case ArrayRow(vs) => Prepend([vs], FetchRows(pending[1..], tail, budget - 1))
  }

  lemma PrependNothing(r: Result<seq<seq<Value>>, Error>)
    ensures Prepend([], r) == r
  {
    if r.Success? {
      assert [] + r.value == r.value;
    }
  }

  function Prepend(rows: seq<seq<Value>>, r: Result<seq<seq<Value>>, Error>): Result<seq<seq<Value>>, Error> {
    match r
    case Success(more) => Success(rows + more)
    case Failure(e) => Failure(e)
  }

  lemma PrependTwice(rows: seq<seq<Value>>, more: seq<seq<Value>>, r: Result<seq<seq<Value>>, Error>)
    ensures Prepend(rows, Prepend(more, r)) == Prepend(rows + more, r)
  {
    if r.Success? {
      assert rows + (more + r.value) == (rows + more) + r.value;
    }
  }

  function Fetch(s: CursorState): Result<seq<seq<Value>>, Error> {
    FetchRows(s.pending, s.tail, RowCap)
  }

  /** The `{ name }` metadata entries of a cursor's columns, in driver order. */
  function ColumnNames(cols: seq<Column>): (metadata: seq<ColumnMeta>)
    ensures |metadata| == |cols| && forall k :: 0 <= k < |cols| ==> metadata[k].name == cols[k].name
  {
    seq(|cols|, k requires 0 <= k < |cols| => ColumnMeta(cols[k].name))
  }

  /** The result entry of one cursor: its column names and the rows read, or the error that stopped the read. */
  function Entry(s: CursorState): (e: Result<ResultData, Error>)
    ensures e.Success? <==> Fetch(s).Success?
    ensures e.Success? ==> |e.value.metadata| == |s.metaData| && |e.value.rows| <= RowCap
  {
    match Fetch(s)
    case Success(rows) => Success(ResultData(ColumnNames(s.metaData), rows))
    case Failure(e) => Failure(e)
  }

  /** Visiting one more cursor after the entries `acc`: an earlier error stands, otherwise its entry is appended. */
  function Step(acc: Result<seq<ResultData>, Error>, s: CursorState): (r: Result<seq<ResultData>, Error>)
    ensures acc.Failure? ==> r == acc
    ensures r.Success? ==> acc.Success? && |r.value| == |acc.value| + 1
  {
    match acc
    case Failure(e) => Failure(e)
    case Success(data) =>
      match Entry(s)
      case Failure(e) => Failure(e)
      case Success(entry) => Success(data + [entry])
  }

  /**
   * The result data of visiting the cursors `states` in order: one entry per cursor, or the
   * first error met.
   */
  function Collect(states: seq<CursorState>): (r: Result<seq<ResultData>, Error>)
    decreases |states|
  {
    if states == [] then Success([])
    else Step(Collect(states[..|states| - 1]), states[|states| - 1])
  }

  lemma CollectStep(states: seq<CursorState>, j: nat)
    requires j < |states|
    ensures Collect(states[..j + 1]) == Step(Collect(states[..j]), states[j])
    ensures Begun(states[..j + 1]) == if Collect(states[..j]).Failure? then Begun(states[..j]) else j + 1
  {
    assert states[..j + 1][..j] == states[..j];
  }

  /** How many of the cursors `states` were reached, and so registered for closing. */
  function Begun(states: seq<CursorState>): (n: nat)
    ensures n <= |states|
    decreases |states|
  {
    if states == [] then 0
    else if Collect(states[..|states| - 1]).Failure? then Begun(states[..|states| - 1])
    else |states|
  }

  /** A successful read yields exactly the first min(budget, remaining) rows, every one of them an array. */
  lemma {:induction false} FetchRowsPrefix(pending: seq<Row>, tail: Tail, budget: nat)
    requires FetchRows(pending, tail, budget).Success?
    ensures var rows := FetchRows(pending, tail, budget).value;
      |rows| == Min(budget, |pending|) &&
      forall k :: 0 <= k < |rows| ==> pending[k] == ArrayRow(rows[k])
  {
    if budget > 0 && pending != [] {
      FetchRowsPrefix(pending[1..], tail, budget - 1);
    }
  }

  /**
   * A read succeeds exactly when every row within reach is an array and the rows do not run
   * out into a rejecting `getRow` before the budget is spent; a failure is one of those two errors.
   */
  lemma {:induction false} FetchRowsSucceedsIff(pending: seq<Row>, tail: Tail, budget: nat)
    ensures var r := FetchRows(pending, tail, budget);
      (r.Success? <==>
        (forall k :: 0 <= k < Min(budget, |pending|) ==> pending[k].ArrayRow?) &&
        (budget <= |pending| || tail.Exhausted?)) &&
      (r.Failure? ==> r.error == UnexpectedRow || (tail.FetchFails? && r.error == DriverError(tail.detail)))
  {
    if budget > 0 && pending != [] {
      FetchRowsSucceedsIff(pending[1..], tail, budget - 1);
      var n := Min(budget, |pending|);
      if pending[0].ArrayRow? {
        assert forall k :: 1 <= k < n ==> pending[k] == pending[1..][k - 1];
      }
    }
  }

  /** Collecting succeeds exactly when every cursor's read succeeds. */
  lemma {:induction false} CollectSucceedsIff(states: seq<CursorState>)
    ensures Collect(states).Success? <==> forall k :: 0 <= k < |states| ==> Fetch(states[k]).Success?
  {
    if states != [] {
      var init := states[..|states| - 1];
      CollectSucceedsIff(init);
      assert forall k :: 0 <= k < |init| ==> init[k] == states[k];
    }
  }

  /** On success there is one entry per cursor, in cursor order, with that cursor's column names and rows. */
  lemma {:induction false} CollectShape(states: seq<CursorState>)
    requires Collect(states).Success?
    ensures var data := Collect(states).value;
      |data| == |states| &&
      forall k :: 0 <= k < |states| ==>
        Fetch(states[k]).Success? &&
        data[k] == ResultData(ColumnNames(states[k].metaData), Fetch(states[k]).value)
  {
    if states != [] {
      var init := states[..|states| - 1];
      CollectShape(init);
      assert forall k :: 0 <= k < |init| ==> init[k] == states[k];
    }
  }

  /**
   * On failure the cursors reached are those up to and including the first whose read failed,
   * and its error is the result; on success every cursor was reached.
   */
  lemma {:induction false} BegunFirstFailure(states: seq<CursorState>)
    ensures Collect(states).Success? ==> Begun(states) == |states|
    ensures Collect(states).Failure? ==>
      var n := Begun(states);
      1 <= n &&
      Fetch(states[n - 1]) == Failure(Collect(states).error) &&
      forall k :: 0 <= k < n - 1 ==> Fetch(states[k]).Success?
  {
    if states != [] {
      var init := states[..|states| - 1];
      BegunFirstFailure(init);
      assert forall k :: 0 <= k < |init| ==> init[k] == states[k];
      if Collect(init).Success? {
        CollectSucceedsIff(init);
      }
    }
  }

  /** Once a prefix of the cursors fails, visiting more changes neither the outcome nor how many were reached. */
  lemma {:induction false} CollectExtendsFailure(states: seq<CursorState>, j: nat)
    requires j <= |states| && Collect(states[..j]).Failure?
    ensures Collect(states) == Collect(states[..j]) && Begun(states) == Begun(states[..j])
    decreases |states| - j
  {
    if j < |states| {
      var init := states[..|states| - 1];
      assert init[..j] == states[..j];
      CollectExtendsFailure(init, j);
    } else {
      assert states[..j] == states;
    }
  }

  /** The metadata loop: one `{ name }` entry per driver column, in driver order. */
  method CopyMetadata(cols: seq<Column>) returns (metadata: seq<ColumnMeta>)
    ensures metadata == ColumnNames(cols)
    ensures |metadata| == |cols| && forall k :: 0 <= k < |cols| ==> metadata[k].name == cols[k].name
  {
    metadata := [];
    for i := 0 to |cols|
      invariant metadata == ColumnNames(cols[..i])
    {
      metadata := metadata + [ColumnMeta(cols[i].name)];
    }
    assert cols[..|cols|] == cols;
  }

  /** The row loop: `getRow` until `RowCap` rows are held or the cursor ends; a non-array row fails. */
  method PullRows(c: Cursor) returns (r: Result<seq<seq<Value>>, Error>)
    modifies c`pending
    ensures r == FetchRows(old(c.pending), c.tail, RowCap)
    ensures r.Success? ==> |r.value| <= |old(c.pending)| && c.pending == old(c.pending)[|r.value|..]
  {
    var rows: seq<seq<Value>> := [];
    PrependNothing(FetchRows(c.pending, c.tail, RowCap));
    while |rows| < RowCap
      invariant |rows| <= RowCap && |rows| <= |old(c.pending)|
      invariant c.pending == old(c.pending)[|rows|..]
      invariant FetchRows(old(c.pending), c.tail, RowCap) == Prepend(rows, FetchRows(c.pending, c.tail, RowCap - |rows|))
      decreases RowCap - |rows|
    {
      var next := c.GetRow();
      if next.Failure? {
        return Failure(DriverError(next.error));
      }
      if next.value.None? {
        assert rows + [] == rows;
        break;
      }
      var row := next.value.value;
      if row.NonArray? {
        return Failure(UnexpectedRow);
      }
      PrependTwice(rows, [row.values], FetchRows(c.pending, c.tail, RowCap - |rows| - 1));
      rows := rows + [row.values];
    }
    assert rows + [] == rows;
    r := Success(rows);
  }

  /** The cursor loop ends with every cursor visited, or with the error of the last one reached. */
  lemma CollectFinish(states: seq<CursorState>, n: nat, r: Result<seq<ResultData>, Error>)
    requires n <= |states|
    requires r.Success? ==> n == |states| && Collect(states[..n]) == r
    requires r.Failure? ==> Collect(states[..n]) == r && Begun(states[..n]) == n
    ensures Collect(states) == r && Begun(states) == n
  {
    if r.Success? {
      assert states[..n] == states;
      BegunFirstFailure(states);
    } else {
      CollectExtendsFailure(states, n);
    }
  }

  /** The body of the cursor loop for one open cursor: defer its close, then read its metadata and rows. */
  method Visit(stack: DisposableStack, c: Cursor) returns (entry: Result<ResultData, Error>)
    requires !stack.disposed
    modifies stack`deferred, c`pending
    ensures stack.deferred == old(stack.deferred) + [c]
    ensures entry == Entry(CursorState(c.metaData, old(c.pending), c.tail))
  {
    stack.Defer(c);
    var metadata := CopyMetadata(c.metaData);
    var rows := PullRows(c);
    entry := match rows
      case Success(rs) => Success(ResultData(metadata, rs))
      case Failure(e) => Failure(e);
  }

  /**
   * The cursor loop of `execution`: every open cursor among `items`, in order, is registered on
   * `stack` and read, until one fails. The stack ends up holding the cursors reached.
   */
  method VisitAll(items: seq<Item>, stack: DisposableStack) returns (r: Result<seq<ResultData>, Error>)
    requires DistinctCursors(items)
    requires !stack.disposed && stack.deferred == []
    modifies stack`deferred, (set c | c in OpenCursors(items))`pending
    ensures var cs := OpenCursors(items);
      var states := old(Snapshot(cs));
      r == Collect(states) && stack.deferred == cs[..Begun(states)]
  {
    ghost var cs := OpenCursors(items);
    ghost var states := Snapshot(cs);
    r := Success([]);
    var i := 0;
    ghost var n := 0;
    while i < |items| && r.Success?
      invariant 0 <= i <= |items| && 0 <= n <= |cs|
      invariant stack.deferred == cs[..n]
      invariant r == Collect(states[..n])
      invariant r.Success? ==> OpenCursors(items[i..]) == cs[n..]
      invariant r.Failure? ==> Begun(states[..n]) == n
      invariant forall j :: i <= j < |items| && items[j].Open? ==>
        items[j].cursor.pending == old(items[j].cursor.pending)
      decreases |items| - i
    {
      AdvanceCursors(items, i, cs, n);
      match items[i] {
        case Open(c) =>
          assert states[n] == CursorState(c.metaData, c.pending, c.tail);
          var entry := Visit(stack, c);
          CollectStep(states, n);
          n := n + 1;
          r := match entry
            case Failure(e) => Failure(e)
            case Success(e) => Success(r.value + [e]);
        case _ =>
      }
      i := i + 1;
    }
    if r.Success? {
      assert items[|items|..] == [];
    }
    CollectFinish(states, n, r);
  }

  /**
   * `execution` from the driver's response on: the cursor loop runs inside the scope of a fresh
   * disposable stack, which closes every registered cursor, last first, when the scope is left,
   * whether the loop ended normally or with an error. `log` observes the closes.
   */
  method CollectResults(items: seq<Item>, ghost log: CloseLog) returns (r: Result<seq<ResultData>, Error>)
    requires DistinctCursors(items)
    modifies log`closed, set c | c in OpenCursors(items)
    ensures var cs := OpenCursors(items);
      var states := old(Snapshot(cs));
      var reached := cs[..Begun(states)];
      r == Collect(states) &&
      log.closed == old(log.closed) + Reversed(reached) &&
      forall c :: c in cs ==> c.closeCount == old(c.closeCount) + if c in reached then 1 else 0
  {
    ghost var cs := OpenCursors(items);
    forall c | c in cs
      ensures Open(c) in items
    {
      OpenCursorsFrom(items, c);
    }
    var stack := new DisposableStack();
    r := VisitAll(items, stack);
    DistinctCursorsOpen(items);
    stack.DisposeAsync(log);
  }
}
