/** The offline command queue kept in the browser's store (services/sync.ts): commands
    are appended to a persisted list and later sent to the server as one batch. */
module Sync {
  import opened Js
  import opened InventoryTypes

  datatype CommandType = Import | Update | ImportBatch

  /** A change waiting to be sent: its id, its kind, the record it writes, and when
      it was made. */
  datatype QueueCommand = QueueCommand(id: string, kind: CommandType, payload: Item, timestamp: int)

  /** The server's answer to a batch request: no answer at all (the request or its
      JSON failed), or the `success` flag and `message` of the reply. */
  datatype BatchReply = Unanswered(error: string) | Answered(success: bool, message: string)

  /** A message posted on the sync broadcast channel. */
  datatype Broadcast = SyncComplete(count: nat) | SyncError(error: string)

  /** What `processQueue` settles with: the number of commands sent, or the error it
      throws. */
  datatype Processed = Sent(count: nat) | Threw(message: string)

  /** The message of a failed batch: the server's, or a default when it gave none. */
  function FailureMessage(reply: BatchReply): string
  {
    match reply
    case Unanswered(e) => e
    case Answered(_, m) => if m != "" then m else "Batch sync failed"
  }

  predicate Accepted(reply: BatchReply)
  {
    reply.Answered? && reply.success
  }

  class SyncService {
    /** The queue entry of the store; absent until something is written. */
    var stored: Option<seq<QueueCommand>>
    /** The batch requests sent, oldest first. */
    var requests: seq<seq<QueueCommand>>
    /** The messages posted on the broadcast channel, oldest first. */
    var broadcasts: seq<Broadcast>

    constructor(saved: Option<seq<QueueCommand>>)
      ensures stored == saved && requests == [] && broadcasts == []
    {
      stored := saved;
      requests := [];
      broadcasts := [];
    }

    /** `getQueue`: the stored list, or the empty list when nothing is stored. */
    function Queue(): seq<QueueCommand>
      reads this
    {
      if stored.Some? then stored.value else []
    }

    method GetQueue() returns (queue: seq<QueueCommand>)
      ensures queue == Queue()
      ensures stored.None? ==> queue == []
    {
      queue := if stored.Some? then stored.value else [];
    }

    /** `addToQueue`: stores and returns the old queue with the command at its end. */
    method AddToQueue(command: QueueCommand) returns (newQueue: seq<QueueCommand>)
      modifies this
      ensures newQueue == old(Queue()) + [command]
      ensures newQueue[..|newQueue| - 1] == old(Queue()) && newQueue[|newQueue| - 1] == command
      ensures stored == Some(newQueue)
      ensures requests == old(requests) && broadcasts == old(broadcasts)
    {
      var currentQueue := GetQueue();
      newQueue := currentQueue + [command];
      stored := Some(newQueue);
    }

    /** `clearQueue`: stores the empty list. */
    method ClearQueue()
      modifies this
      ensures stored == Some([]) && Queue() == []
      ensures requests == old(requests) && broadcasts == old(broadcasts)
    {
      stored := Some([]);
    }

    /** `processQueue`: an empty queue settles with 0 and sends nothing; otherwise the
        whole queue goes out as one batch, and only an accepted batch clears the
        store and is announced with its size. */
    method ProcessQueue(reply: BatchReply) returns (r: Processed)
      modifies this
      ensures old(Queue()) == [] ==>
        r == Sent(0) && stored == old(stored) && requests == old(requests) && broadcasts == old(broadcasts)
      ensures old(Queue()) != [] ==> requests == old(requests) + [old(Queue())]
      ensures old(Queue()) != [] && Accepted(reply) ==>
        r == Sent(|old(Queue())|) && Queue() == [] && broadcasts == old(broadcasts) + [SyncComplete(|old(Queue())|)]
      ensures old(Queue()) != [] && !Accepted(reply) ==>
        r == Threw(FailureMessage(reply)) && stored == old(stored) && broadcasts == old(broadcasts)
    {
      var queue := GetQueue();
      if |queue| == 0 {
        return Sent(0);
      }
      requests := requests + [queue];
      if !Accepted(reply) {
        return Threw(FailureMessage(reply));
      }
      ClearQueue();
      broadcasts := broadcasts + [SyncComplete(|queue|)];
      return Sent(|queue|);
    }
  }

  /** Two commands queued one after the other go out together, in order, in one
      batch, and an accepted batch leaves nothing queued. */
  method AddTwiceThenProcess(first: QueueCommand, second: QueueCommand) returns (r: Processed)
    ensures r == Sent(2)
  {
    var service := new SyncService(None);
    var q1 := service.AddToQueue(first);
    var q2 := service.AddToQueue(second);
    assert q2 == [first, second];
    r := service.ProcessQueue(Answered(true, ""));
    assert service.requests == [[first, second]];
    assert service.Queue() == [];
    assert service.broadcasts == [SyncComplete(2)];
  }

  /** A rejected batch keeps every command queued for the next attempt. */
  method RejectedBatchKeepsQueue(command: QueueCommand) returns (r: Processed, left: seq<QueueCommand>)
    ensures r == Threw("Batch sync failed") && left == [command]
  {
    var service := new SyncService(Some([]));
    var _ := service.AddToQueue(command);
    r := service.ProcessQueue(Answered(false, ""));
    left := service.GetQueue();
  }
}
