/**
 * The session registry of `src/db.ts`: a process-wide table from connection identifiers to
 * open connections, capped at two entries, and the operations that allocate, list, ping,
 * use and close its sessions.
 */
module Db {
  import opened Wrappers
  import opened Seqs
  import opened Driver
  import opened DbTypes
  import opened Execution

  /** The most sessions the registry holds at once. */
  const MaxConnections: nat := 2

  /**
   * The registry state. `connections` is the `Map` from identifiers to connections and `order`
   * the order in which its keys were inserted, which is the order the `Map` iterates in.
   * `issued` holds every identifier ever inserted and `calls` the connection-level driver calls
   * made so far; both exist for the proofs only.
   */
  class Registry {
    var connections: map<ConnectionId, Connection>
    var order: seq<ConnectionId>
    ghost var issued: set<ConnectionId>
    ghost var calls: seq<DriverCall>

    ghost predicate Valid()
      reads this
      ensures Valid() ==> |order| <= MaxConnections
    {
      Distinct(order) &&
      (forall id :: id in order <==> id in connections) &&
      |order| == |connections| &&
      |connections| <= MaxConnections &&
      connections.Keys <= issued
    }

    /** The registry is created once per process, empty. */
    constructor ()
      ensures Valid()
      ensures connections == map[] && order == [] && issued == {} && calls == []
    {
      connections := map[];
      order := [];
      issued := {};
      calls := [];
    }

    /**
     * Opens a session. `uuid` is the random UUID drawn for it, never drawn before, and
     * `connected` what the driver's `getConnection` gives back: a connection, or its rejection.
     */
    method Allocate(uuid: ConnectionId, connected: Result<Connection, string>) returns (r: Result<ConnectionId, Error>)
      requires Valid()
      requires uuid !in issued
      modifies this
      ensures Valid()
      ensures |old(connections)| >= MaxConnections ==>
        r == Failure(TooManyConnections) &&
        connections == old(connections) && order == old(order) &&
        issued == old(issued) && calls == old(calls)
      ensures |old(connections)| < MaxConnections ==>
        calls == old(calls) + [GetConnection] &&
        match connected
        case Failure(d) =>
          r == Failure(DriverError(d)) &&
          connections == old(connections) && order == old(order) && issued == old(issued)
        case Success(conn) =>
          r == Success(uuid) &&
          connections == old(connections)[uuid := conn] &&
          order == old(order) + [uuid] &&
          issued == old(issued) + {uuid}
    {
      if |connections| >= MaxConnections {
        return Failure(TooManyConnections);
      }
      calls := calls + [GetConnection];
      match connected {
        case Failure(d) =>
          return Failure(DriverError(d));
        case Success(conn) =>
          connections := connections[uuid := conn];
          order := order + [uuid];
          issued := issued + {uuid};
          return Success(uuid);
      }
    }

    /** The identifiers of the open sessions, each once, in the order they were allocated. */
    function List(): (ids: seq<ConnectionId>)
      reads this
      requires Valid()
      ensures ids == order
      ensures Distinct(ids) && |ids| == |connections|
      ensures forall id :: id in ids <==> id in connections
    {
      order
    }

    /**
     * Whether `id` names an open session; for one that does, the connection's round trip
     * `roundTrip` must succeed, and its rejection is passed on.
     */
    method Ping(id: ConnectionId, roundTrip: Result<(), string>) returns (r: Result<bool, Error>)
      requires Valid()
      modifies this`calls
      ensures Valid()
      ensures id !in connections ==> r == Success(false) && calls == old(calls)
      ensures id in connections ==>
        calls == old(calls) + [PingConnection(connections[id])] &&
        r == if roundTrip.Success? then Success(true) else Failure(DriverError(roundTrip.error))
    {
      if id !in connections {
        return Success(false);
      }
      var conn := connections[id];
      calls := calls + [PingConnection(conn)];
      if roundTrip.Failure? {
        return Failure(DriverError(roundTrip.error));
      }
      return Success(true);
    }

    /**
     * Runs `statements` on the session `id`. `response` is what the driver's `execute` gives
     * back; its cursors are read and closed as `CollectResults` describes. An unknown `id`
     * fails before any driver call.
     */
    method Execute(id: ConnectionId, statements: string, response: Result<Response, string>, ghost log: CloseLog)
      returns (r: Result<QueryResult, Error>)
      requires Valid()
      requires response.Success? ==> DistinctCursors(Candidates(response.value))
      modifies this`calls, log`closed, set c | c in ResponseCursors(response)
      ensures Valid()
      ensures id !in connections ==>
        r == Failure(NoConnection(id)) && calls == old(calls) && log.closed == old(log.closed)
      ensures id in connections ==> calls == old(calls) + [ExecuteStatements(connections[id], statements)]
      ensures id in connections && response.Failure? ==>
        r == Failure(DriverError(response.error)) && log.closed == old(log.closed)
      ensures id in connections && response.Success? ==>
        var cs := ResponseCursors(response);
        var states := old(Snapshot(cs));
        var reached := cs[..Begun(states)];
        r == (match Collect(states)
              case Success(data) => Success(QueryResult(response.value.rowsAffected, data))
              case Failure(e) => Failure(e)) &&
        log.closed == old(log.closed) + Reversed(reached) &&
        forall c :: c in cs ==> c.closeCount == old(c.closeCount) + if c in reached then 1 else 0
    {
      if id !in connections {
        return Failure(NoConnection(id));
      }
      calls := calls + [ExecuteStatements(connections[id], statements)];
      if response.Failure? {
        return Failure(DriverError(response.error));
      }
      var collected := CollectResults(Candidates(response.value), log);
      r := match collected
        case Success(data) => Success(QueryResult(response.value.rowsAffected, data))
        case Failure(e) => Failure(e);
    }

    /**
     * Closes the session `id`: an unknown identifier is left alone; a known one is removed
     * from the registry first and its connection closed after, so that a rejection `closing`
     * from the driver's `close` never leaves it registered.
     */
    method Close(id: ConnectionId, closing: Result<(), string>) returns (r: Result<(), Error>)
      requires Valid()
      modifies this`connections, this`order, this`calls
      ensures Valid()
      ensures id !in old(connections) ==>
        r == Success(()) && connections == old(connections) && order == old(order) && calls == old(calls)
      ensures id in old(connections) ==>
        connections == old(connections) - {id} &&
        order == Without(old(order), id) &&
        calls == old(calls) + [CloseConnection(old(connections)[id])] &&
        r == if closing.Success? then Success(()) else Failure(DriverError(closing.error))
    {
      if id !in connections {
        return Success(());
      }
      var conn := connections[id];
      connections := connections - {id};
      order := Without(order, id);
      calls := calls + [CloseConnection(conn)];
      if closing.Failure? {
        return Failure(DriverError(closing.error));
      }
      return Success(());
    }
  }
}
