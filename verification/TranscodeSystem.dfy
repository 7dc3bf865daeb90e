/** The services that act on transcode jobs, over the state they share: the TranscodeJob table, the BullMQ
    queue, the cancel channel, and the worker's own token map. Every method is one atomic step of a handler
    (the code between two `await`s) and is proved to be that step of TranscodeJob.Next on its own job and
    to leave every other job alone. */
module TranscodeSystem {
  import opened Wrappers
  import opened TranscodeJob
  import opened TranscodeSafety

  type JobId = string

  datatype Published = Published(jobId: JobId, event: Event)

  function EventsOf(log: seq<Published>, id: JobId): seq<Event> {
    if log == [] then []
    else
      var earlier := EventsOf(log[..|log| - 1], id);
      var last := log[|log| - 1];
      if last.jobId == id then earlier + [last.event] else earlier
  }

  lemma {:induction false} EventsOfAppend(log: seq<Published>, p: Published)
    ensures forall id :: EventsOf(log + [p], id) ==
              if p.jobId == id then EventsOf(log, id) + [p.event] else EventsOf(log, id)
  {
    assert (log + [p])[..|log|] == log;
  }

  // A token is registered exactly while runTranscode is in progress.
  lemma RunningHasToken(j: Job)
    requires Inv(j) && j.entry.Active? && j.entry.phase.Running?
    ensures j.token.Some?
  {
  }

  lemma ClearedRowIsTerminal(j: Job)
    requires Inv(j) && j.calls.deletesCleared > 0
    ensures Terminal(j) || j.row.Deleted?
  {
  }

  function Lookup<T>(m: map<JobId, T>, id: JobId, absent: T): T {
    if id in m then m[id] else absent
  }

  function SlotOf(rows: map<JobId, Row>, issued: set<JobId>, id: JobId): RowSlot {
    if id in rows then Present(rows[id]) else if id in issued then Deleted else NeverCreated
  }

  function TokenOf(tokens: map<JobId, bool>, id: JobId): Option<bool> {
    if id in tokens then Some(tokens[id]) else None
  }

  class System {
    var rows: map<JobId, Row>               // prisma.transcodeJob
    var issued: set<JobId>                  // ids ever given to a row
    var queue: map<JobId, Entry>            // BullMQ entries
    var activeTokens: map<JobId, bool>      // the worker's CancelTokens: cancelled or not
    var handlers: map<JobId, Handler>       // `failed` handlers waiting to run
    var calls: map<JobId, Calls>            // cancelJob and deleteJob calls in flight
    var channel: multiset<JobId>            // cancel messages in flight
    var progressWrites: map<JobId, multiset<real>>
    var published: seq<Published>           // events handed to the webhook publisher by the worker

    function Slice(id: JobId): Job
      reads this
    {
      Job(
        SlotOf(rows, issued, id),
        Lookup(queue, id, NotAdded),
        TokenOf(activeTokens, id),
        Lookup(handlers, id, Idle),
        Lookup(calls, id, NO_CALLS),
        channel[id],
        Lookup(progressWrites, id, multiset{}),
        EventsOf(published, id))
    }

    ghost predicate Valid()
      reads this
    {
      rows.Keys <= issued && forall id :: Inv(Slice(id))
    }

    twostate predicate Stepped(id: JobId, a: Action)
      reads this
    {
      && Slice(id) == Next(old(Slice(id)), a)
      && forall other | other != id :: Slice(other) == old(Slice(other))
    }

    // What every method ends with: the stepped job keeps its invariant, the others did not move.
    twostate lemma KeptValid(id: JobId)
      requires old(Valid()) && rows.Keys <= issued && Inv(Slice(id))
      requires forall other | other != id :: Slice(other) == old(Slice(other))
      ensures Valid()
    {
      forall other ensures Inv(Slice(other)) {
        if other != id {
          assert Slice(other) == old(Slice(other));
        }
      }
    }

    constructor ()
      ensures Valid()
      ensures forall id :: Slice(id) == FRESH
    {
      rows, issued, queue, activeTokens := map[], {}, map[], map[];
      handlers, calls, channel, progressWrites, published := map[], map[], multiset{}, map[], [];
      new;
      FreshInv();
      assert forall id :: Slice(id) == FRESH;
    }

    // ---- submitTranscodeJob ------------------------------------------------------------

    // prisma.transcodeJob.create; the new id is one the id generator has not issued before.
    method CreateRow(id: JobId, caller: Caller)
      requires Valid() && id !in issued
      modifies this
      ensures Valid() && Stepped(id, Create(caller))
    {
      hide Inv, EventsOf, TokenOf;
      rows := rows[id := Row(caller.orgId, Some(caller.userId), Queued, 0.0, None)];
      issued := issued + {id};
      assert Slice(id) == Next(old(Slice(id)), Create(caller));
      hide Next;
      NextKeepsInv(old(Slice(id)), Create(caller));
      KeptValid(id);
    }

    // queue.add under the row's own id.
    method AddToQueue(id: JobId)
      requires Valid() && id in issued
      modifies this
      ensures Valid() && Stepped(id, Enqueue)
    {
      hide Inv, EventsOf, TokenOf;
      if Lookup(queue, id, NotAdded).NotAdded? {
        queue := queue[id := Waiting(0)];
      }
      assert Slice(id) == Next(old(Slice(id)), Enqueue);
      hide Next;
      NextKeepsInv(old(Slice(id)), Enqueue);
      KeptValid(id);
    }

    // ---- the worker callback -------------------------------------------------------------

    // BullMQ hands a waiting entry to the worker once the failed handler of the attempt before it has run.
    method TakeJob(id: JobId)
      requires Valid() && id in queue && queue[id].Waiting? && Lookup(handlers, id, Idle).Idle?
      modifies this
      ensures Valid() && Stepped(id, Pickup)
    {
      hide Inv, EventsOf, SlotOf, TokenOf;
      var attempt := queue[id].made + 1;
      queue := queue[id := Active(attempt, Picked)];
      assert Slice(id) == Next(old(Slice(id)), Pickup);
      hide Next;
      NextKeepsInv(old(Slice(id)), Pickup);
      KeptValid(id);
    }

    // updateMany where state in [QUEUED, PROCESSING]; throws UnrecoverableError when no row matched.
    method GuardStart(id: JobId) returns (count: nat)
      requires Valid() && id in queue && queue[id].Active? && queue[id].phase.Picked?
      modifies this
      ensures Valid() && Stepped(id, StartGuard)
      ensures count == 1 <==> id in old(rows) && Live(old(rows)[id].state)
      ensures count == 1 <==> queue[id] == Active(old(queue)[id].attempt, Guarded)
    {
      hide Inv, EventsOf, TokenOf;
      count := 0;
      if id in rows {
        if rows[id].state.Queued? || rows[id].state.Processing? {
          rows := rows[id := rows[id].(state := Processing)];
          count := 1;
        }
      }
      if count == 0 {
        queue := queue[id := Gone];
        handlers := handlers[id := Stopped];
      } else {
        queue := queue[id := Active(queue[id].attempt, Guarded)];
      }
      assert Slice(id) == Next(old(Slice(id)), StartGuard);
      hide Next;
      NextKeepsInv(old(Slice(id)), StartGuard);
      KeptValid(id);
    }

    // Publish STARTED, create the token and enter runTranscode.
    method RegisterToken(id: JobId)
      requires Valid() && id in queue && queue[id].Active? && queue[id].phase.Guarded?
      modifies this
      ensures Valid() && Stepped(id, Register)
    {
      hide Inv, EventsOf, SlotOf;
      var attempt := queue[id].attempt;
      EventsOfAppend(published, Published(id, Event(STARTED, attempt)));
      published := published + [Published(id, Event(STARTED, attempt))];
      activeTokens := activeTokens[id := false];
      queue := queue[id := Active(attempt, Running(0.0))];
      assert Slice(id) == Next(old(Slice(id)), Register);
      hide Next;
      NextKeepsInv(old(Slice(id)), Register);
      KeptValid(id);
    }

    // The progress callback: a database write is started every 5 percent.
    method OnProgress(id: JobId, percent: real)
      requires Valid() && id in queue && queue[id].Active? && queue[id].phase.Running?
      modifies this
      ensures Valid() && Stepped(id, Progress(percent))
    {
      hide Inv, EventsOf, SlotOf, TokenOf;
      var inFlight := Lookup(progressWrites, id, multiset{});
      if percent - queue[id].phase.lastPersisted >= 5.0 {
        queue := queue[id := Active(queue[id].attempt, Running(percent))];
        progressWrites := progressWrites[id := inFlight + multiset{percent}];
      }
      assert Slice(id) == Next(old(Slice(id)), Progress(percent));
      hide Next;
      NextKeepsInv(old(Slice(id)), Progress(percent));
      KeptValid(id);
    }

    // A progress write reaches the database, possibly long after the attempt is over.
    method LandProgress(id: JobId, percent: real)
      requires Valid() && id in progressWrites && percent in progressWrites[id]
      modifies this
      ensures Valid() && Stepped(id, ProgressLands(percent))
    {
      hide Inv, EventsOf, TokenOf;
      if id in rows {
        rows := rows[id := rows[id].(progress := percent)];
      }
      progressWrites := progressWrites[id := progressWrites[id] - multiset{percent}];
      assert Slice(id) == Next(old(Slice(id)), ProgressLands(percent));
      hide Next;
      NextKeepsInv(old(Slice(id)), ProgressLands(percent));
      KeptValid(id);
    }

    // runTranscode resolves; `finally` removes the token.
    method TranscodeReturns(id: JobId, result: Manifest)
      requires Valid() && id in queue && queue[id].Active? && queue[id].phase.Running?
      modifies this
      ensures Valid() && Stepped(id, Return(result))
    {
      hide Inv, EventsOf, SlotOf;
      activeTokens := activeTokens - {id};
      queue := queue[id := Active(queue[id].attempt, Returned(result))];
      assert Slice(id) == Next(old(Slice(id)), Return(result));
      hide Next;
      NextKeepsInv(old(Slice(id)), Return(result));
      KeptValid(id);
    }

    // runTranscode throws: for good when the token is cancelled, else BullMQ retries up to its limit.
    method TranscodeThrows(id: JobId)
      requires Valid() && id in queue && queue[id].Active? && queue[id].phase.Running?
      modifies this
      ensures Valid() && Stepped(id, Throw)
    {
      hide Inv, EventsOf, SlotOf;
      RunningHasToken(Slice(id));
      var cancelled := activeTokens[id];
      var attempt := queue[id].attempt;
      activeTokens := activeTokens - {id};
      if cancelled {
        queue := queue[id := Gone];
        handlers := handlers[id := Stopped];
      } else if attempt < MAX_ATTEMPTS {
        queue := queue[id := Waiting(attempt)];
        handlers := handlers[id := Retry(attempt)];
      } else {
        queue := queue[id := Gone];
        handlers := handlers[id := Exhausted(attempt)];
      }
      assert Slice(id) == Next(old(Slice(id)), Throw);
      hide Next;
      NextKeepsInv(old(Slice(id)), Throw);
      KeptValid(id);
    }

    // updateMany where state = PROCESSING; on no match the result is returned and nothing is published.
    method GuardComplete(id: JobId) returns (count: nat)
      requires Valid() && id in queue && queue[id].Active? && queue[id].phase.Returned?
      modifies this
      ensures Valid() && Stepped(id, CompleteGuard)
      ensures count == 1 <==> id in old(rows) && old(rows)[id].state.Processing?
    {
      hide Inv, EventsOf, TokenOf;
      count := 0;
      var result := queue[id].phase.manifest;
      if id in rows {
        if rows[id].state.Processing? {
          rows := rows[id := rows[id].(state := Completed, progress := 100.0, manifest := Some(result))];
          count := 1;
        }
      }
      queue := queue[id := if count == 0 then Gone else Active(queue[id].attempt, Announcing)];
      assert Slice(id) == Next(old(Slice(id)), CompleteGuard);
      hide Next;
      NextKeepsInv(old(Slice(id)), CompleteGuard);
      KeptValid(id);
    }

    method PublishCompleted(id: JobId)
      requires Valid() && id in queue && queue[id].Active? && queue[id].phase.Announcing?
      modifies this
      ensures Valid() && Stepped(id, AnnounceCompleted)
    {
      hide Inv, EventsOf, SlotOf, TokenOf;
      EventsOfAppend(published, Published(id, Event(COMPLETED, queue[id].attempt)));
      published := published + [Published(id, Event(COMPLETED, queue[id].attempt))];
      queue := queue[id := Gone];
      assert Slice(id) == Next(old(Slice(id)), AnnounceCompleted);
      hide Next;
      NextKeepsInv(old(Slice(id)), AnnounceCompleted);
      KeptValid(id);
    }

    // ---- the `failed` handler --------------------------------------------------------------

    method OnFailed(id: JobId)
      requires Valid() && id in handlers
      modifies this
      ensures Valid() && Stepped(id, HandleFailure)
    {
      hide Inv, EventsOf, TokenOf;
      match handlers[id] {
        case Retry(attempt) =>
          EventsOfAppend(published, Published(id, Event(RETRYING, attempt)));
          published := published + [Published(id, Event(RETRYING, attempt))];
          handlers := handlers[id := Idle];
        case Exhausted(attempt) =>
          if id in rows {
            rows := rows[id := rows[id].(state := Failed)];
            handlers := handlers[id := Recorded(attempt)];
          } else {
            handlers := handlers[id := Idle];
          }
        case Stopped =>
          handlers := handlers[id := Idle];
        case _ =>
      }
      assert Slice(id) == Next(old(Slice(id)), HandleFailure);
      hide Next;
      NextKeepsInv(old(Slice(id)), HandleFailure);
      KeptValid(id);
    }

    method PublishFailed(id: JobId)
      requires Valid() && id in handlers && handlers[id].Recorded?
      modifies this
      ensures Valid() && Stepped(id, AnnounceFailed)
    {
      hide Inv, EventsOf, SlotOf, TokenOf;
      EventsOfAppend(published, Published(id, Event(FAILED, handlers[id].attempt)));
      published := published + [Published(id, Event(FAILED, handlers[id].attempt))];
      handlers := handlers[id := Idle];
      assert Slice(id) == Next(old(Slice(id)), AnnounceFailed);
      hide Next;
      NextKeepsInv(old(Slice(id)), AnnounceFailed);
      KeptValid(id);
    }

    // ---- cancelJob ------------------------------------------------------------------------------

    // The read and the checks before the first write.
    method BeginCancel(id: JobId, caller: Caller) returns (refused: Option<Refusal>)
      requires Valid()
      modifies this
      ensures Valid() && Stepped(id, CancelRead(caller))
      ensures refused == CheckCancel(old(Slice(id)).row, caller)
      ensures refused == Some(NotFound) <==> id !in old(rows) || old(rows)[id].orgId != caller.orgId
      ensures refused == Some(PermissionDenied) <==>
                && id in old(rows) && old(rows)[id].orgId == caller.orgId
                && old(rows)[id].createdBy != Some(caller.userId)
                && "ADMIN" !in caller.roles && "OWNER" !in caller.roles
      ensures refused == Some(FailedPrecondition) <==>
                && id in old(rows) && old(rows)[id].orgId == caller.orgId
                && (old(rows)[id].createdBy == Some(caller.userId) || "ADMIN" in caller.roles
                    || "OWNER" in caller.roles)
                && old(rows)[id].state in {Completed, Failed, Cancelled}
    {
      hide Inv, EventsOf, TokenOf;
      refused := None;
      if id !in rows {
        refused := Some(NotFound);
      } else if rows[id].orgId != caller.orgId {
        refused := Some(NotFound);
      } else if !CanModify(caller, rows[id]) {
        refused := Some(PermissionDenied);
      } else if rows[id].state.Queued? || rows[id].state.Processing? {
        var c := Lookup(calls, id, NO_CALLS);
        calls := calls[id := c.(cancelsRead := c.cancelsRead + 1)];
      } else {
        refused := Some(FailedPrecondition);
      }
      assert Slice(id) == Next(old(Slice(id)), CancelRead(caller));
      hide Next;
      NextKeepsInv(old(Slice(id)), CancelRead(caller));
      KeptValid(id);
    }

    method RemoveFromQueue(id: JobId)
      requires Valid() && id in calls && calls[id].cancelsRead > 0
      modifies this
      ensures Valid() && Stepped(id, CancelRemove)
    {
      hide Inv, EventsOf, SlotOf, TokenOf;
      if id in queue {
        if queue[id].Waiting? {
          queue := queue[id := Gone];
        }
      }
      var c := calls[id];
      calls := calls[id := c.(cancelsRead := c.cancelsRead - 1, cancelsRemoved := c.cancelsRemoved + 1)];
      assert Slice(id) == Next(old(Slice(id)), CancelRemove);
      hide Next;
      NextKeepsInv(old(Slice(id)), CancelRemove);
      KeptValid(id);
    }

    // The unguarded update to CANCELLED; it throws when the row is gone.
    method WriteCancelled(id: JobId)
      requires Valid() && id in calls && calls[id].cancelsRemoved > 0
      modifies this
      ensures Valid() && Stepped(id, CancelWrite)
    {
      hide Inv, EventsOf, TokenOf;
      var c := calls[id].(cancelsRemoved := calls[id].cancelsRemoved - 1);
      if id in rows {
        rows := rows[id := rows[id].(state := Cancelled)];
        c := c.(cancelsWritten := c.cancelsWritten + 1);
      }
      calls := calls[id := c];
      assert Slice(id) == Next(old(Slice(id)), CancelWrite);
      hide Next;
      NextKeepsInv(old(Slice(id)), CancelWrite);
      KeptValid(id);
    }

    method PublishCancel(id: JobId)
      requires Valid() && id in calls && calls[id].cancelsWritten > 0
      modifies this
      ensures Valid() && Stepped(id, CancelPublish)
    {
      hide Inv, EventsOf, SlotOf, TokenOf;
      calls := calls[id := calls[id].(cancelsWritten := calls[id].cancelsWritten - 1)];
      channel := channel[id := channel[id] + 1];
      assert Slice(id) == Next(old(Slice(id)), CancelPublish);
      hide Next;
      NextKeepsInv(old(Slice(id)), CancelPublish);
      KeptValid(id);
    }

    // The worker's subscriber: kill the in-flight transcode of this job, if there is one.
    method OnCancelMessage(id: JobId)
      requires Valid() && id in channel
      modifies this
      ensures Valid() && Stepped(id, CancelDeliver)
    {
      hide Inv, EventsOf, SlotOf;
      channel := channel[id := channel[id] - 1];
      if id in activeTokens {
        activeTokens := activeTokens[id := true];
      }
      assert Slice(id) == Next(old(Slice(id)), CancelDeliver);
      hide Next;
      NextKeepsInv(old(Slice(id)), CancelDeliver);
      KeptValid(id);
    }

    method LoseCancelMessage(id: JobId)
      requires Valid() && id in channel
      modifies this
      ensures Valid() && Stepped(id, CancelLose)
    {
      hide Inv, EventsOf, SlotOf, TokenOf;
      channel := channel[id := channel[id] - 1];
      assert Slice(id) == Next(old(Slice(id)), CancelLose);
      hide Next;
      NextKeepsInv(old(Slice(id)), CancelLose);
      KeptValid(id);
    }

    // ---- deleteJob ----------------------------------------------------------------------------------

    method BeginDelete(id: JobId, caller: Caller) returns (refused: Option<Refusal>)
      requires Valid()
      modifies this
      ensures Valid() && Stepped(id, DeleteRead(caller))
      ensures refused == CheckDelete(old(Slice(id)).row, caller)
      ensures refused == Some(NotFound) <==> id !in old(rows) || old(rows)[id].orgId != caller.orgId
      ensures refused == Some(PermissionDenied) <==>
                && id in old(rows) && old(rows)[id].orgId == caller.orgId
                && old(rows)[id].createdBy != Some(caller.userId)
                && "ADMIN" !in caller.roles && "OWNER" !in caller.roles
      ensures refused == Some(FailedPrecondition) <==>
                && id in old(rows) && old(rows)[id].orgId == caller.orgId
                && (old(rows)[id].createdBy == Some(caller.userId) || "ADMIN" in caller.roles
                    || "OWNER" in caller.roles)
                && old(rows)[id].state in {Queued, Processing}
    {
      hide Inv, EventsOf, TokenOf;
      refused := None;
      if id !in rows {
        refused := Some(NotFound);
      } else if rows[id].orgId != caller.orgId {
        refused := Some(NotFound);
      } else if !CanModify(caller, rows[id]) {
        refused := Some(PermissionDenied);
      } else if rows[id].state.Queued? || rows[id].state.Processing? {
        refused := Some(FailedPrecondition);
      } else {
        var c := Lookup(calls, id, NO_CALLS);
        calls := calls[id := c.(deletesRead := c.deletesRead + 1)];
      }
      assert Slice(id) == Next(old(Slice(id)), DeleteRead(caller));
      hide Next;
      NextKeepsInv(old(Slice(id)), DeleteRead(caller));
      KeptValid(id);
    }

    // deletePrefix has gone through the job's output.
    method OutputDeleted(id: JobId)
      requires Valid() && id in calls && calls[id].deletesRead > 0
      modifies this
      ensures Valid() && Stepped(id, DeleteOutput)
    {
      hide Inv, EventsOf, SlotOf, TokenOf;
      var c := calls[id];
      calls := calls[id := c.(deletesRead := c.deletesRead - 1, deletesCleared := c.deletesCleared + 1)];
      assert Slice(id) == Next(old(Slice(id)), DeleteOutput);
      hide Next;
      NextKeepsInv(old(Slice(id)), DeleteOutput);
      KeptValid(id);
    }

    // The row found here is terminal, whatever ran since the call read it.
    method RemoveRow(id: JobId)
      requires Valid() && id in calls && calls[id].deletesCleared > 0
      modifies this
      ensures Valid() && Stepped(id, DeleteRow)
      ensures id in old(rows) ==> !Live(old(rows)[id].state)
      ensures id !in rows
    {
      hide Inv, EventsOf, TokenOf;
      ClearedRowIsTerminal(Slice(id));
      rows := rows - {id};
      calls := calls[id := calls[id].(deletesCleared := calls[id].deletesCleared - 1)];
      assert Slice(id) == Next(old(Slice(id)), DeleteRow);
      hide Next;
      NextKeepsInv(old(Slice(id)), DeleteRow);
      KeptValid(id);
    }
  }
}
