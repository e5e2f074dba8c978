# oracle-viewer: the connection registry and the execution adapter

oracle-viewer is a small web front end for Oracle databases. Everything it does with the
database goes through `src/db.ts`, and this project models that module in Dafny:

- **The session registry.** This is a process-wide map from a random session identifier to an
  open driver connection. It holds at most two sessions, and an allocation past the cap is
  refused with "Too many connections opened.". `list` returns the identifiers in allocation
  order. `ping` returns whether an identifier is known, after a round trip when it is. `close`
  removes a known session before it closes the connection, so a failing close never leaves it
  registered. An unknown identifier is left alone.
- **`execution`.** The driver's `execute` answers with an affected-row count, the statement's own
  result set and the implicit results of a PL/SQL block. The adapter walks these entries in order
  and skips absent ones and row arrays. For each open cursor it:
  - defers the cursor's close onto an async disposable stack;
  - copies the column names;
  - reads rows one at a time until 1000 are held or the cursor ends.

  A row that is not an array fails the whole call with "Unexpected". A rejected `getRow` passes
  its error on. When the scope ends, normally or by an error, the stack closes every cursor it
  was given, last first, exactly once. Cursors after a failing one are never reached.

Layout:

| file | module | contents |
|---|---|---|
| `wrappers.dfy` | `Wrappers` | `Option`, `Result` |
| `seqs.dfy` | `Seqs` | `Distinct`, `Reversed` (stack release order), `Without` (map deletion) |
| `driver.dfy` | `Driver` | stand-ins for the driver: connections, a `Cursor` class, a `CloseLog` that observes cursor closes, response entries, the log of connection-level driver calls |
| `disposable.dfy` | `Disposable` | the `DisposableStack` class |
| `db_types.dfy` | `DbTypes` | session identifiers, errors, the `Result` shape |
| `execution.dfy` | `Execution` | specification functions and their lemmas, and the loop methods proved against them |
| `db.dfy` | `Db` | the `Registry` class: `Allocate`, `List`, `Ping`, `Execute` (the source's `execution`), `Close` |
| `scenarios.dfy` | `Scenarios` | client methods that show the contracts working together on concrete sessions and cursors |

The registry's invariant `Registry.Valid` says four things:
- the allocation order has no repeats;
- the order and the map's keys hold the same identifiers;
- there are at most `MaxConnections` = 2 of them;
- every key was handed out by some allocation.

The ghost field `calls` logs every connection-level driver call the registry makes (`getConnection`,
`ping`, `execute`, `close`). The contracts use it to state which calls happen, in what order, and
that an unknown identifier causes none. Cursor closes are observed separately: `Cursor.Close`
appends the cursor to a ghost `CloseLog`, so the order of closes is stated about the calls
themselves.

The driver never runs. Every outcome it would produce is a parameter of the method that uses it:
- the connection or rejection of `getConnection`;
- the result of `ping`;
- the response of `execute`;
- the result of `close`.

The random UUID of a new session is also a parameter. It is required never to have been issued
before.

`execution` is specified by functions on values:
- `FetchRows` reads one cursor;
- `Entry` gives one cursor's result entry;
- `Collect` visits a sequence of cursor states in order;
- `Begun` counts the cursors reached.

The imperative methods `PullRows`, `CopyMetadata`, `Visit`, `VisitAll` and `CollectResults` are
proved equal to these functions. The lemmas about the functions state what the source promises:
the row cap, when a read succeeds, the result's shape, which cursors are reached, and that they
are closed in reverse.

## Model

| member | source | states |
|---|---|---|
| Db.Registry.Valid | src/db.ts:35-37 | The registry's invariant: the order lists the map's keys once each, every key was issued, and there are never more than two sessions. |
| Db.Registry.constructor | src/db.ts:27-31 | The registry starts empty: no sessions, nothing issued, no driver call made; the invariant holds. |
| Db.Registry.Allocate | src/db.ts:33-48 | At two sessions the call is refused with TooManyConnections, and it neither calls the driver nor changes anything. Below the cap it calls getConnection once. A rejection is passed on and registers nothing; success registers the new id at the end of the order and returns it. The invariant is kept. |
| Db.Registry.List | src/db.ts:50-53 | The open sessions' ids in allocation order, each once, exactly the map's keys, as many as there are sessions. |
| Db.Registry.Ping | src/db.ts:55-65 | An unknown id gives false without a driver call. A known id pings its own connection once, then gives true or the driver's rejection. The registry is unchanged. |
| Db.Registry.Execute | src/db.ts:77-127 | An unknown id fails with NoConnection before any driver call. A known id calls execute on its own connection once; a rejected execute is passed on and touches no cursor. Otherwise the result is the affected-row count plus Collect of the response's cursors as they were on entry, or Collect's error. The close log gains exactly the cursors reached, in reverse visiting order; each of them is closed once and the others not at all. A failure before the cursor loop closes nothing. |
| Db.Registry.Close | src/db.ts:129-139 | An unknown id changes nothing and succeeds. A known id is removed from the map and from the order, which keeps the other sessions in order, before its connection's close is called. A failing close is passed on and the session stays removed. The invariant is kept. |
| Seqs.Without | src/db.ts:137 | Deletion from the allocation order: exactly the other elements remain; an absent key changes nothing; no repeats after, and one element fewer when the key was present. |
| Seqs.WithoutSplice | src/db.ts:137 | For a repetition-free order, deleting the element at position i gives the order with exactly that position spliced out, so the survivors keep their relative order. |
| Seqs.WithoutAppend | src/db.ts:137 | Deleting a key from a concatenation deletes it from each part. |
| Seqs.Reversed | src/db.ts:92 | The release order of a stack: same length, and position k holds the element pushed at position length-1-k. |
| Seqs.ReversedMembers | src/db.ts:92 | Releasing a stack visits exactly the elements pushed onto it. |
| Seqs.ReversedOnce | src/db.ts:92 | Releasing a stack of distinct elements visits each element exactly once. |
| Driver.Cursor.GetRow | src/db.ts:117 | getRow hands out the next buffered row and consumes it. Once the rows are used up, it reports the end or the driver's rejection and consumes nothing. |
| Driver.Cursor.Close | src/db.ts:102 | A close increments the cursor's close count by one and appends the cursor to the close log. |
| Driver.CloseLog.constructor | src/db.ts:102 | The close log starts empty. |
| Disposable.DisposableStack.constructor | src/db.ts:92 | A new stack holds nothing and is not yet disposed. |
| Disposable.DisposableStack.Defer | src/db.ts:102 | The cursor is appended to the deferred closes. |
| Disposable.DisposableStack.DisposeAsync | src/db.ts:92 | Disposal closes the deferred cursors last first: the close log gains exactly the reversed deferred sequence. Each cursor is closed once and none of their rows are touched; a second disposal closes nothing. |
| Execution.Candidates | src/db.ts:94 | The entries walked: the statement's own result set first, then the implicit results, or nothing more when there are none. |
| Execution.OpenCursors | src/db.ts:94-100 | The open cursors of the entries, at most one per entry. |
| Execution.OpenCursorsAppend | src/db.ts:94 | The own result set's cursor is visited before the implicit results' cursors, each group in its own order. |
| Execution.OpenCursorsFrom | src/db.ts:94-100 | Every cursor visited comes from an open entry of the response. |
| Execution.OpenCursorsComplete | src/db.ts:94-100 | Every open entry's cursor is visited: only absent entries and row arrays are skipped. |
| Execution.DistinctCursorsOpen | src/db.ts:94-102 | When the response hands out a distinct cursor per entry, no cursor is visited (or deferred) twice. |
| Execution.OpenCursorsStep | src/db.ts:94-100 | Entry i contributes its cursor if open and nothing if absent or an array, ahead of the later entries. |
| Execution.AdvanceCursors | src/db.ts:94-102 | Passing entry i moves past exactly one visited cursor, that entry's, when it is open, and past none otherwise. |
| Execution.FetchRows | src/db.ts:116-123 | Reading one cursor under a budget: a success holds no more rows than the budget and no more than the cursor had. |
| Execution.FetchRowsPrefix | src/db.ts:116-123 | A successful read returns exactly the first min(1000, remaining) rows, in order, each of them the values of an array row. |
| Execution.FetchRowsSucceedsIff | src/db.ts:116-123 | A read succeeds if and only if every row it reaches is an array and the rows do not run out into a rejecting getRow before the cap. A failure is either Unexpected or the driver's rejection. |
| Execution.ColumnNames | src/db.ts:110-114 | One `{ name }` per driver column, in driver order, carrying that column's name. |
| Execution.Entry | src/db.ts:104-123 | One cursor's result entry: it exists exactly when the cursor's read succeeds, with one metadata entry per column and at most 1000 rows. |
| Execution.Step | src/db.ts:94-124 | One more cursor of the loop: an earlier error stands; a success is one entry longer than before. |
| Execution.Collect | src/db.ts:94-124 | The result data of visiting the cursors in order, or the first error; its properties are stated by CollectStep, CollectSucceedsIff, CollectShape and BegunFirstFailure. |
| Execution.Begun | src/db.ts:94-124 | At most every cursor is reached. |
| Execution.CollectStep | src/db.ts:94-124 | Visiting one more cursor extends a success by that cursor's entry and leaves an earlier failure as it is. The cursor counts as reached only if no earlier one failed. |
| Execution.CollectSucceedsIff | src/db.ts:94-124 | `execution` succeeds if and only if every cursor's read succeeds. |
| Execution.CollectShape | src/db.ts:104-123 | On success `data` has one entry per cursor, in cursor order: the cursor's column names and the rows read from it. |
| Execution.BegunFirstFailure | src/db.ts:94-124 | On success every cursor was reached. On failure the cursors reached end with the first whose read failed, its error is the result, and every earlier read succeeded. |
| Execution.CollectExtendsFailure | src/db.ts:94-124 | Once a prefix of the cursors fails, later cursors change neither the error nor the cursors reached. |
| Execution.CollectFinish | src/db.ts:94-124 | When the loop stops, either every cursor was visited with success, or the last one reached failed; its outcome is then the outcome of the whole walk. |
| Execution.CopyMetadata | src/db.ts:110-114 | The metadata loop yields one `{ name }` per driver column, in order, with that column's name. |
| Execution.PullRows | src/db.ts:116-123 | The row loop returns exactly FetchRows of the cursor's rows with the 1000 cap. On success it has consumed exactly the rows returned, and getRow is never called once 1000 rows are held. |
| Execution.Visit | src/db.ts:102-123 | One loop iteration defers the cursor's close before anything can fail, then yields exactly Entry of the cursor's state. |
| Execution.VisitAll | src/db.ts:94-124 | The cursor loop returns exactly Collect of the cursors' initial states. The stack holds exactly the cursors reached, in visiting order. |
| Execution.CollectResults | src/db.ts:92-124 | The loop's result is Collect of the cursors' initial states. Once the scope is left, whatever the outcome, the close log gains exactly the cursors reached in reverse visiting order; each is closed once and the others not at all. |
| Scenarios.DualQueryRows | src/db.ts:104-123 | `SELECT 1 FROM DUAL` with one NUMBER column named `1` yields one result set with metadata `[{ name: "1" }]` and the row `[1]`. |
| Scenarios.FailingBlockStops | src/db.ts:94-124 | For three cursors whose second holds a non-array row, the call fails with Unexpected after reaching two cursors. |
| Scenarios.ImplicitCursors | src/db.ts:94-100 | An absent own result set followed by three distinct implicit cursors visits those three in order, and the entries meet the distinct-cursor assumption. |

## Left out

- The user interface, the server actions and the routes (`src/app`) call this module and are not part of this model. Connection settings come from `src/env.ts`, which is not part of this model either: the model passes the driver's outcomes in directly, so credentials never appear.
- The `GlobalRef` trick that keeps one registry across hot reloads is modelled as a registry that starts empty (`Db.Registry.constructor`); that a process creates only one is not modelled.
- The driver is not modelled beyond the contracts of the calls made to it. Connections are opaque handles, and the outcome of each driver call is a method parameter. The driver options `resultSet: true` and `maxRows: 1` appear only in the shape of the response: entries are cursors, absent, or row arrays.
- `crypto.randomUUID` is a parameter. Its uniqueness is a precondition of `Db.Registry.Allocate`: the identifier was never issued before.
- Concurrency is not modelled. Every operation runs to completion before the next one starts. In the code, `allocate` awaits `getConnection` between the two, so interleaved allocations could exceed two sessions. The model's sequential operations always respect the cap.
- A cursor whose `close` rejects is not modelled. If a cursor's `close` rejects, the source still runs the remaining closes and then rejects with that error (a further error is wrapped in a `SuppressedError`), so even a complete result is discarded; in the model every close succeeds and is counted.
- Column values are `Null`, text or whole numbers. Oracle's other data types, fractional numbers, LOBs and dates are not modelled.
- `execution` takes no bind parameters and has no way to lift the row cap: it passes an empty bind object (`src/db.ts:85`), and its cap is the constant 1000 (`Execution.RowCap`).
- Db.Registry.Execute: the result's entries are built as values after each cursor is read. In the source an entry is pushed onto `result.data` before its rows are read and is filled in place. Because any failure discards `result`, the two orders give the same outcome.
- Db.Registry.Execute: requires that the response hands out a distinct cursor object per entry (`DistinctCursors`), and `Disposable.DisposableStack.DisposeAsync` likewise requires distinct deferred cursors. `src/db.ts:94-102` does not check this; it relies on the driver creating a fresh result set per entry. Were one cursor object to appear twice, the source would read it twice, the second time from where the first read stopped, and defer and run its close twice; the model states nothing about that case.
- Db.Registry.Execute: does not state, for an unknown identifier, that the response's cursors keep their rows and close counts. The missing connection is detected before any cursor is touched, and the `modifies` frame still limits the cursors that can change.
- Driver.Cursor.GetRow: only rows buffered in the cursor and one final outcome (end or rejection) are modelled, not a cursor whose `getRow` rejects midway and then recovers.
- The error messages are one constructor per kind (`TooManyConnections`, `NoConnection(id)`, `UnexpectedRow`, `DriverError(detail)`), and they are not rendered as strings.
