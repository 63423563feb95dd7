/** The sync status shown to the user (contexts/CommandQueueContext.tsx): the
    in-memory copy of the command queue, the status machine IDLE / PENDING /
    SYNCING / SUCCESS / ERROR, the time of the last completed sync, and the
    notices it raises. Broadcast messages, timers and the interval are explicit
    events; the store and the server are a `Sync.SyncService`. */
module CommandQueue {
  import opened Js
  import opened Sync
  import Text
  import Seqs

  datatype QueueStatus = Idle | Pending | Syncing | Success | Error

  /** One entry of the per-command `results` a background sync may broadcast. */
  datatype BatchResult = BatchResult(success: Value, message: Option<string>)

  /** A message received on the sync broadcast channel; `results` is absent when
      the message carries no array. */
  datatype Event =
    | CompleteEvent(count: Value, results: Option<seq<BatchResult>>)
    | ErrorEvent(error: Value)
    | OtherEvent

  /** The notices (toasts) raised by the queue. */
  datatype Notice =
    | Restored(restored: nat)
    | ConflictWarning(conflicts: nat)
    | ErrorsReported(errors: nat)
    | SyncSucceeded(count: Value)
    | BackgroundError(message: string)
    | Offline
    | ServerUnreachable
    | SaveFailed

  /** The message the service broadcasts, as the listener receives it. */
  function EventOf(b: Broadcast): (e: Event)
    ensures b.SyncComplete? ==> e.CompleteEvent? && e.results.None?
    ensures b.SyncError? ==> e.ErrorEvent?
  {
    match b
    case SyncComplete(n) => CompleteEvent(Number(Fin(n as real)), None)
    case SyncError(m) => ErrorEvent(Str(m))
  }

  // ---------------------------------------------------------------- classification

  /** `r.success === false`. */
  predicate FailedResult(r: BatchResult)
  {
    r.success == Bool(false)
  }

  predicate MentionsConflict(r: BatchResult)
  {
    r.message.Some? && (Text.Contains(r.message.value, "conflict") || Text.Contains(r.message.value, "mismatch"))
  }

  predicate IsConflict(r: BatchResult)
  {
    FailedResult(r) && MentionsConflict(r)
  }

  function Conflicts(results: seq<BatchResult>): seq<BatchResult>
  {
    Seqs.Filter(results, IsConflict)
  }

  /** A failed result not among the conflicts. */
  function NotAmong(conflicts: seq<BatchResult>): BatchResult -> bool
  {
    r => FailedResult(r) && r !in conflicts
  }

  function Errors(results: seq<BatchResult>): seq<BatchResult>
  {
    Seqs.Filter(results, NotAmong(Conflicts(results)))
  }

  /** Conflicts and errors split the failed results: every failure is exactly one
      of them, an error is a failure that mentions no conflict, and together they
      count the failures. */
  lemma ClassificationPartitions(results: seq<BatchResult>)
    ensures forall r :: r in Conflicts(results) ==> r in results && FailedResult(r) && MentionsConflict(r)
    ensures forall r :: r in Errors(results) <==> r in results && FailedResult(r) && !MentionsConflict(r)
    ensures forall r :: r in results && FailedResult(r) ==> (r in Conflicts(results) <==> r !in Errors(results))
    ensures |Conflicts(results)| + |Errors(results)| == |Seqs.Filter(results, FailedResult)|
  {
    var conflicts := Conflicts(results);
    Seqs.FilterSplit(results, FailedResult, IsConflict, NotAmong(conflicts));
  }

  /** The notice raised for a completed sync: conflicts first, then errors, and
      otherwise success with the broadcast count. */
  function Report(count: Value, results: Option<seq<BatchResult>>): (r: Notice)
    ensures results.None? ==> r == SyncSucceeded(count)
    ensures r == SyncSucceeded(count)
            || (results.Some? && (r == ConflictWarning(|Conflicts(results.value)|)
                                  || r == ErrorsReported(|Errors(results.value)|)))
    ensures r.ConflictWarning? ==> r.conflicts > 0
    ensures r.ErrorsReported? ==> r.errors > 0
  {
    if results.None? then SyncSucceeded(count)
    else
      var conflicts := Conflicts(results.value);
      var errors := Errors(results.value);
      if |conflicts| > 0 then ConflictWarning(|conflicts|)
      else if |errors| > 0 then ErrorsReported(|errors|)
      else SyncSucceeded(count)
  }

  lemma NoConflicts(results: seq<BatchResult>)
    ensures |Conflicts(results)| == 0 <==> forall r :: r in results ==> !IsConflict(r)
  {
    var conflicts := Conflicts(results);
    if |conflicts| > 0 {
      assert conflicts[0] in conflicts;
    }
  }

  lemma NoErrors(results: seq<BatchResult>)
    ensures |Errors(results)| == 0 <==> forall r :: r in results && FailedResult(r) ==> MentionsConflict(r)
  {
    ClassificationPartitions(results);
    var errors := Errors(results);
    if |errors| > 0 {
      assert errors[0] in errors;
    }
  }

  /** Conflicts take precedence; errors are reported only when there are no
      conflicts; success is reported exactly when no result failed. */
  lemma ReportCases(count: Value, results: Option<seq<BatchResult>>)
    ensures Report(count, results).ConflictWarning? <==>
              results.Some? && exists r :: r in results.value && IsConflict(r)
    ensures Report(count, results).ErrorsReported? <==>
              results.Some? && (forall r :: r in results.value ==> !IsConflict(r))
              && exists r :: r in results.value && FailedResult(r)
    ensures Report(count, results) == SyncSucceeded(count) <==>
              results.None? || forall r :: r in results.value ==> !FailedResult(r)
  {
    if results.Some? {
      NoConflicts(results.value);
      NoErrors(results.value);
    }
  }

  /** The text of a background sync error: its `error`, or "Unknown". */
  function ErrorText(lib: Lib, error: Value): (m: string)
    ensures !Truthy(error) ==> m == "Unknown"
  {
    if Truthy(error) then ToString(lib, error) else "Unknown"
  }

  // ---------------------------------------------------------------- the state machine

  class CommandQueueState {
    var queue: seq<QueueCommand>
    var status: QueueStatus
    var lastSynced: Option<real>
    var notices: seq<Notice>
    const store: SyncService

    /** PENDING and SYNCING are only shown while commands are waiting. */
    ghost predicate Valid()
      reads this
    {
      (status == Pending || status == Syncing) ==> |queue| > 0
    }

    constructor(store: SyncService)
      ensures this.store == store
      ensures queue == [] && status == Idle && lastSynced == None && notices == []
      ensures Valid()
    {
      this.store := store;
      queue := [];
      status := Idle;
      lastSynced := None;
      notices := [];
    }

    /** `loadQueue`: a non-empty saved queue becomes the queue and is pending. */
    method LoadQueue()
      requires Valid()
      modifies this
      ensures Valid()
      ensures old(store.Queue()) == [] ==> queue == old(queue) && status == old(status) && notices == old(notices)
      ensures old(store.Queue()) != [] ==>
        queue == old(store.Queue()) && status == Pending && notices == old(notices) + [Restored(|queue|)]
      ensures lastSynced == old(lastSynced)
    {
      var savedQueue := store.GetQueue();
      if |savedQueue| > 0 {
        queue := savedQueue;
        status := Pending;
        notices := notices + [Restored(|savedQueue|)];
      }
    }

    /** `addCommand`: pending at once and appended in memory; persisted unless the
        store write fails, which raises a notice instead. */
    method AddCommand(command: QueueCommand, storeFails: bool)
      modifies this, store
      ensures Valid()
      ensures status == Pending && queue == old(queue) + [command] && lastSynced == old(lastSynced)
      ensures !storeFails ==> store.Queue() == old(store.Queue()) + [command] && notices == old(notices)
      ensures storeFails ==> store.stored == old(store.stored) && notices == old(notices) + [SaveFailed]
      ensures store.requests == old(store.requests) && store.broadcasts == old(store.broadcasts)
    {
      status := Pending;
      queue := queue + [command];
      if storeFails {
        notices := notices + [SaveFailed];
      } else {
        var _ := store.AddToQueue(command);
      }
    }

    /** `processQueueBatch`, as written: nothing while syncing or with an empty
        queue; otherwise SYNCING, and the stored queue goes out. Success is left to
        the broadcast listener; a failure sets ERROR with a notice that depends on
        whether the client is online. */
    method ProcessQueueBatch(reply: BatchReply, online: bool)
      requires Valid()
      modifies this, store
      ensures Valid()
      ensures queue == old(queue) && lastSynced == old(lastSynced)
      ensures old(status) == Syncing || old(queue) == [] ==>
        status == old(status) && notices == old(notices)
        && store.stored == old(store.stored) && store.requests == old(store.requests)
        && store.broadcasts == old(store.broadcasts)
      ensures old(status) != Syncing && old(queue) != [] && old(store.Queue()) == [] ==>
        status == Syncing && notices == old(notices) && store.requests == old(store.requests)
        && store.stored == old(store.stored) && store.broadcasts == old(store.broadcasts)
      ensures old(status) != Syncing && old(queue) != [] && old(store.Queue()) != [] ==>
        store.requests == old(store.requests) + [old(store.Queue())]
      ensures old(status) != Syncing && old(queue) != [] && old(store.Queue()) != [] && Accepted(reply) ==>
        status == Syncing && notices == old(notices) && store.Queue() == []
        && store.broadcasts == old(store.broadcasts) + [SyncComplete(|old(store.Queue())|)]
      ensures old(status) != Syncing && old(queue) != [] && old(store.Queue()) != [] && !Accepted(reply) ==>
        status == Error && notices == old(notices) + [if online then ServerUnreachable else Offline]
        && store.stored == old(store.stored) && store.broadcasts == old(store.broadcasts)
    {
      if status == Syncing || |queue| == 0 {
        return;
      }
      status := Syncing;
      var r := store.ProcessQueue(reply);
      if r.Threw? {
        status := Error;
        notices := notices + [if online then ServerUnreachable else Offline];
      }
    }

    /** The same batch step, except that a batch which sent nothing (so no
        completion will ever be broadcast) returns to PENDING instead of staying
        SYNCING. */
    method ProcessQueueBatchSettled(reply: BatchReply, online: bool)
      requires Valid()
      modifies this, store
      ensures Valid()
      ensures queue == old(queue) && lastSynced == old(lastSynced)
      ensures status == Syncing ==>
        old(status) == Syncing || (store.requests == old(store.requests) + [old(store.Queue())] && Accepted(reply))
      ensures old(status) != Syncing && old(queue) != [] && old(store.Queue()) == [] ==>
        status == Pending && notices == old(notices) && store.requests == old(store.requests)
      ensures old(status) != Syncing && old(queue) != [] && old(store.Queue()) != [] ==>
        store.requests == old(store.requests) + [old(store.Queue())]
    {
      if status == Syncing || |queue| == 0 {
        return;
      }
      status := Syncing;
      var r := store.ProcessQueue(reply);
      if r.Threw? {
        status := Error;
        notices := notices + [if online then ServerUnreachable else Offline];
      } else if r.count == 0 {
        status := Pending;
      }
    }

    /** The broadcast listener. */
    method OnMessage(lib: Lib, event: Event, now: real)
      requires Valid()
      modifies this
      ensures Valid()
      ensures event.CompleteEvent? ==>
        queue == [] && lastSynced == Some(now) && status == Success
        && notices == old(notices) + [Report(event.count, event.results)]
      ensures event.ErrorEvent? ==>
        queue == old(queue) && lastSynced == old(lastSynced) && status == Error
        && notices == old(notices) + [BackgroundError(ErrorText(lib, event.error))]
      ensures event.OtherEvent? ==>
        queue == old(queue) && lastSynced == old(lastSynced) && status == old(status) && notices == old(notices)
    {
      match event
      case CompleteEvent(count, results) =>
        queue := [];
        lastSynced := Some(now);
        status := Success;
        notices := notices + [Report(count, results)];
      case ErrorEvent(error) =>
        status := Error;
        notices := notices + [BackgroundError(ErrorText(lib, error))];
      case OtherEvent =>
    }

    /** The timer a completed sync sets: back to IDLE. */
    method OnStatusTimer()
      requires Valid()
      modifies this
      ensures Valid()
      ensures status == Idle
      ensures queue == old(queue) && lastSynced == old(lastSynced) && notices == old(notices)
    {
      status := Idle;
    }

    /** The interval: a batch starts only with commands waiting, no batch running,
        and the client online. */
    method Tick(reply: BatchReply, online: bool)
      requires Valid()
      modifies this, store
      ensures Valid()
      ensures queue == old(queue) && lastSynced == old(lastSynced)
      ensures !(old(queue) != [] && old(status) != Syncing && online) ==>
        status == old(status) && notices == old(notices)
        && store.stored == old(store.stored) && store.requests == old(store.requests)
        && store.broadcasts == old(store.broadcasts)
      ensures old(queue) != [] && old(status) != Syncing && online && old(store.Queue()) == [] ==>
        status == Syncing && notices == old(notices)
        && store.stored == old(store.stored) && store.requests == old(store.requests)
        && store.broadcasts == old(store.broadcasts)
      ensures old(queue) != [] && old(status) != Syncing && online && old(store.Queue()) != [] ==>
        store.requests == old(store.requests) + [old(store.Queue())]
      ensures old(queue) != [] && old(status) != Syncing && online && old(store.Queue()) != [] && Accepted(reply) ==>
        status == Syncing && notices == old(notices) && store.Queue() == []
        && store.broadcasts == old(store.broadcasts) + [SyncComplete(|old(store.Queue())|)]
      ensures old(queue) != [] && old(status) != Syncing && online && old(store.Queue()) != [] && !Accepted(reply) ==>
        status == Error && notices == old(notices) + [ServerUnreachable]
        && store.stored == old(store.stored) && store.broadcasts == old(store.broadcasts)
    {
      if |queue| > 0 && status != Syncing && online {
        ProcessQueueBatch(reply, online);
      }
    }
  }

  // ---------------------------------------------------------------- runs

  /** A command added, sent in an accepted batch, announced and timed out leaves an
      empty, idle queue with the sync time recorded and one success notice. */
  method AcceptedRun(lib: Lib, command: QueueCommand, now: real) returns (state: CommandQueueState)
    ensures state.queue == [] && state.status == Idle && state.lastSynced == Some(now)
    ensures state.notices == [SyncSucceeded(Number(Fin(1.0)))]
    ensures state.store.requests == [[command]] && state.store.Queue() == []
  {
    var store := new SyncService(None);
    state := new CommandQueueState(store);
    state.AddCommand(command, false);
    assert store.Queue() == [command];
    state.Tick(Answered(true, ""), true);
    assert store.requests == [[command]];
    assert store.broadcasts == [SyncComplete(1)];
    state.OnMessage(lib, EventOf(store.broadcasts[0]), now);
    state.OnStatusTimer();
  }

  /** A command whose store write failed is never sent: the batch finds the store
      empty, no completion is broadcast, and the status stays SYNCING, so later
      ticks start nothing. */
  method UnsavedCommandStallsSync(command: QueueCommand) returns (state: CommandQueueState)
    ensures state.status == Syncing && state.queue == [command]
    ensures state.store.requests == [] && state.store.broadcasts == []
  {
    var store := new SyncService(None);
    state := new CommandQueueState(store);
    state.AddCommand(command, true);
    state.Tick(Answered(true, ""), true);
    state.Tick(Answered(true, ""), true);
  }

  /** With the settled batch step the same run returns to PENDING, so the next
      tick may try again. */
  method UnsavedCommandSettles(command: QueueCommand) returns (state: CommandQueueState)
    ensures state.status == Pending && state.queue == [command]
    ensures state.store.requests == []
  {
    var store := new SyncService(None);
    state := new CommandQueueState(store);
    state.AddCommand(command, true);
    state.ProcessQueueBatchSettled(Answered(true, ""), true);
  }
}
