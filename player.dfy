/**
 * The per-player editing state of AbstractPlayer: the FIFO of pending change queues
 * waiting to be flushed to the world, the `processing` flag, the forwarding of undo and
 * redo to the player's history, and the player data-directory path built by `init`.
 *
 * ChangeQueue and UndoQueue are collaborators whose code is not part of this model: a change
 * queue is an abstract value, its `reset()` and `isFinished()` are function parameters,
 * and the history is an abstract state with `undo(n)` and `redo(n)` as functions returning
 * the new history and the count they report.
 */
module Players {
  import opened Wrappers

  /** A ChangeQueue as held in the pending list. */
  type Change(==)

  /** The state of the player's UndoQueue. */
  type History

  /** A message sent to the player: a configured format with its count, or plain text. */
  datatype Message = Formatted(format: string, count: int) | Text(text: string)

  // ---------------------------------------------------------------------------
  // The pending FIFO as a value.

  /** getNextPendingChange: the head, or empty when nothing is pending. */
  function Head(pending: seq<Change>): (r: Option<Change>)
    ensures r.None? <==> |pending| == 0
    ensures r.Some? ==> r.value == pending[0] && r.value in pending
  {
    if |pending| == 0 then None else Some(pending[0])
  }

  /** addPending: a null queue is refused with NullPointerException; otherwise the reset queue joins the tail. */
  function Added(pending: seq<Change>, queue: Option<Change>, reset: Change -> Change): (r: (seq<Change>, Outcome<()>))
    ensures queue.None? ==> r == (pending, Thrown(NullPointer))
    ensures queue.Some? ==> r.1 == Ok(()) && |r.0| == |pending| + 1
    ensures queue.Some? ==> r.0[..|pending|] == pending && r.0[|pending|] == reset(queue.value)
  {
    if queue.None? then (pending, Thrown(NullPointer)) else (pending + [reset(queue.value)], Ok(()))
  }

  /** clearNextPending(force): drops the head when there is one and it is finished or force is set. */
  function Cleared(pending: seq<Change>, force: bool, isFinished: Change -> bool): (r: seq<Change>)
    ensures |pending| > 0 && (force || isFinished(pending[0])) ==> pending == [pending[0]] + r
    ensures |pending| == 0 || !(force || isFinished(pending[0])) ==> r == pending
  {
    if |pending| > 0 && (isFinished(pending[0]) || force) then pending[1..] else pending
  }

  /** The queues added in order, each through addPending. */
  function AddAll(pending: seq<Change>, queues: seq<Change>, reset: Change -> Change): seq<Change>
    decreases |queues|
  {
    if |queues| == 0 then pending
    else AddAll(Added(pending, Some(queues[0]), reset).0, queues[1..], reset)
  }

  /** The heads seen by n rounds of getNextPendingChange followed by clearNextPending(true). */
  function Departures(pending: seq<Change>, n: nat): seq<Change>
    decreases n
  {
    if n == 0 || |pending| == 0 then []
    else [Head(pending).value] + Departures(Cleared(pending, true, _ => false), n - 1)
  }

  /** Each queue passed to addPending, after its reset. */
  function ResetAll(queues: seq<Change>, reset: Change -> Change): (r: seq<Change>)
    ensures |r| == |queues| && forall i | 0 <= i < |queues| :: r[i] == reset(queues[i])
  {
    seq(|queues|, i requires 0 <= i < |queues| => reset(queues[i]))
  }

  /** Adding appends the reset queues after what is already pending. */
  lemma {:induction false} AddAllAppends(pending: seq<Change>, queues: seq<Change>, reset: Change -> Change)
    ensures AddAll(pending, queues, reset) == pending + ResetAll(queues, reset)
    decreases |queues|
  {
    if |queues| > 0 {
      var next := Added(pending, Some(queues[0]), reset).0;
      AddAllAppends(next, queues[1..], reset);
      assert next == pending + [reset(queues[0])];
      assert ResetAll(queues, reset) == [reset(queues[0])] + ResetAll(queues[1..], reset);
    }
  }

  /** Forced clearing hands out exactly what is pending, head first. */
  lemma {:induction false} DrainInOrder(pending: seq<Change>)
    ensures Departures(pending, |pending|) == pending
    decreases |pending|
  {
    if |pending| > 0 {
      DrainInOrder(pending[1..]);
    }
  }

  /**
   * FIFO: queues added one after the other leave, once everything before them has been
   * cleared, in the order they were added.
   */
  lemma Fifo(pending: seq<Change>, queues: seq<Change>, reset: Change -> Change)
    ensures var all := AddAll(pending, queues, reset);
      Departures(all, |all|) == pending + ResetAll(queues, reset)
  {
    AddAllAppends(pending, queues, reset);
    DrainInOrder(AddAll(pending, queues, reset));
  }

  /** A head that has not finished survives clearNextPending(false), and the count is kept. */
  lemma UnfinishedHeadStays(pending: seq<Change>, isFinished: Change -> bool)
    requires |pending| > 0 && !isFinished(pending[0])
    ensures Cleared(pending, false, isFinished) == pending
    ensures Head(Cleared(pending, false, isFinished)) == Head(pending)
  {
  }

  // ---------------------------------------------------------------------------
  // The data directory.

  /**
   * The data-directory path of init: the configured directory, a separator when it is
   * non-empty and does not already end with one, then the player's UUID or name.
   */
  method DataPath(directory: string, separator: char, useUuids: bool, uuid: string, name: string)
      returns (path: string)
    ensures var leaf := if useUuids then uuid else name;
      var needed := |directory| > 0 && directory[|directory| - 1] != separator;
      && |path| == |directory| + (if needed then 1 else 0) + |leaf|
      && path[..|directory|] == directory
      && path[|path| - |leaf|..] == leaf
      && (|directory| > 0 ==> path[|path| - |leaf| - 1] == separator)
  {
    path := directory;
    if |path| > 0 && path[|path| - 1] != separator {
      path := path + [separator];
    }
    if useUuids {
      path := path + uuid;
    } else {
      path := path + name;
    }
  }

  // ---------------------------------------------------------------------------
  // The player.

  class AbstractPlayer {
    /** The pending LinkedList of change queues. */
    var pending: seq<Change>
    var processing: bool
    var history: History
    /** The messages sent to the player so far. */
    var sent: seq<Message>
    /** UndoQueue.undo(n) and redo(n): the new history and the count reported. */
    const undo: (History, int) -> (History, int)
    const redo: (History, int) -> (History, int)
    /** VoxelSniperConfiguration.undoMessage and redoMessage. */
    const undoMessage: string
    const redoMessage: string

    constructor (history: History, undo: (History, int) -> (History, int), redo: (History, int) -> (History, int),
                 undoMessage: string, redoMessage: string)
      ensures pending == [] && !processing && this.history == history && sent == []
      ensures this.undo == undo && this.redo == redo
      ensures this.undoMessage == undoMessage && this.redoMessage == redoMessage
    {
      pending := [];
      processing := false;
      this.history := history;
      sent := [];
      this.undo := undo;
      this.redo := redo;
      this.undoMessage := undoMessage;
      this.redoMessage := redoMessage;
    }

    method HasPendingChanges() returns (r: bool)
      ensures r <==> |pending| != 0
      ensures r <==> Head(pending).Some?
    {
      return |pending| != 0;
    }

    method GetPendingChangeCount() returns (r: int)
      ensures r == |pending| && r >= 0
      ensures r == 0 <==> Head(pending).None?
    {
      return |pending|;
    }

    method GetNextPendingChange() returns (r: Option<Change>)
      ensures r == Head(pending)
    {
      if |pending| == 0 {
        return None;
      }
      return Some(pending[0]);
    }

    method AddPending(queue: Option<Change>, reset: Change -> Change) returns (r: Outcome<()>)
      modifies this
      ensures (pending, r) == Added(old(pending), queue, reset)
      ensures processing == old(processing) && history == old(history) && sent == old(sent)
    {
      if queue.None? {
        return Thrown(NullPointer);
      }
      var q := reset(queue.value);
      pending := pending + [q];
      return Ok(());
    }

    method ClearNextPending(force: bool, isFinished: Change -> bool)
      modifies this
      ensures pending == Cleared(old(pending), force, isFinished)
      ensures processing == old(processing) && history == old(history) && sent == old(sent)
    {
      if |pending| != 0 && (isFinished(pending[0]) || force) {
        pending := pending[1..];
      }
    }

    method IsProcessing() returns (r: bool)
      ensures r == processing
    {
      return processing;
    }

    method SetProcessing(state: bool)
      modifies this
      ensures processing == state
      ensures pending == old(pending) && history == old(history) && sent == old(sent)
    {
      processing := state;
    }

    /** undoHistory(n): n goes to the history unchanged and the count it returns is reported. */
    method UndoHistory(n: int)
      modifies this
      ensures history == undo(old(history), n).0
      ensures sent == old(sent) + [Formatted(undoMessage, undo(old(history), n).1)]
      ensures pending == old(pending) && processing == old(processing)
    {
      var (h, c) := undo(history, n);
      history := h;
      sent := sent + [Formatted(undoMessage, c)];
    }

    /** redoHistory(n): n goes to the history unchanged and the count it returns is reported. */
    method RedoHistory(n: int)
      modifies this
      ensures history == redo(old(history), n).0
      ensures sent == old(sent) + [Formatted(redoMessage, redo(old(history), n).1)]
      ensures pending == old(pending) && processing == old(processing)
    {
      var (h, c) := redo(history, n);
      history := h;
      sent := sent + [Formatted(redoMessage, c)];
    }

    /** A message from another component (a command refusing, for instance). */
    method SendMessage(m: Message)
      modifies this
      ensures sent == old(sent) + [m]
      ensures pending == old(pending) && processing == old(processing) && history == old(history)
    {
      sent := sent + [m];
    }
  }
}
