/** The disposable stack on which `execution` defers the closing of every cursor it visits. */
module Disposable {
  import opened Seqs
  import opened Driver

  class DisposableStack {
    /** The cursors whose close has been deferred, in registration order. */
    var deferred: seq<Cursor>
    var disposed: bool

    constructor ()
      ensures deferred == [] && !disposed
    {
      deferred := [];
      disposed := false;
    }

    method Defer(c: Cursor)
      requires !disposed
      modifies this`deferred
      ensures deferred == old(deferred) + [c]
    {
      deferred := deferred + [c];
    }

    /**
     * Runs the deferred closes, last registered first; a stack already disposed does nothing.
     * `log` observes the closes as the cursors make them.
     */
    method DisposeAsync(ghost log: CloseLog)
      requires Distinct(deferred)
      modifies this`disposed, log`closed, set c | c in deferred
      ensures disposed
      ensures log.closed == old(log.closed) + if old(disposed) then [] else Reversed(deferred)
      ensures forall c :: c in deferred ==> c.pending == old(c.pending)
      ensures forall c :: c in deferred ==>
        c.closeCount == old(c.closeCount) + if old(disposed) then 0 else 1
    {
      ghost var closeOrder: seq<Cursor> := [];
      if disposed {
        assert log.closed + [] == log.closed;
        return;
      }
      disposed := true;
      var i := |deferred|;
      while i > 0
        invariant 0 <= i <= |deferred| && disposed
        invariant log.closed == old(log.closed) + closeOrder
        invariant |closeOrder| == |deferred| - i
        invariant forall k :: 0 <= k < |closeOrder| ==> closeOrder[k] == deferred[|deferred| - 1 - k]
        invariant forall k :: 0 <= k < |deferred| ==> deferred[k].pending == old(deferred[k].pending)
        invariant forall k :: 0 <= k < |deferred| ==>
          deferred[k].closeCount == old(deferred[k].closeCount) + if k >= i then 1 else 0
      {
        i := i - 1;
        deferred[i].Close(log);
        closeOrder := closeOrder + [deferred[i]];
      }
      assert closeOrder == Reversed(deferred);
    }
  }
}
