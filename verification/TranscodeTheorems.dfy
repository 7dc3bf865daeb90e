/** The safety theorems of the transcode job protocol, over every run from a fresh job. */
module TranscodeTheorems {
  import opened Wrappers
  import opened TranscodeJob
  import opened TranscodeSafety

  // ---- Terminal states -------------------------------------------------------------------

  lemma {:induction false} RunAppend(j: Job, before: seq<Action>, after: seq<Action>)
    ensures Run(j, before + after) == Run(Run(j, before), after)
    decreases |before|
  {
    hide Next;
    if before == [] {
      assert before + after == after;
    } else {
      RunAppend(Next(j, before[0]), before[1..], after);
      assert (before + after)[0] == before[0] && (before + after)[1..] == before[1..] + after;
    }
  }

  // A row that has left {QUEUED, PROCESSING} never returns to it.
  lemma {:induction false} TerminalIsForever(j: Job, actions: seq<Action>)
    requires Terminal(j) || j.row.Deleted?
    ensures Terminal(Run(j, actions)) || Run(j, actions).row.Deleted?
    decreases |actions|
  {
    if actions != [] {
      TerminalIsForever(Next(j, actions[0]), actions[1..]);
    }
  }

  predicate InState(j: Job, s: JobState) { j.row.Present? && j.row.row.state == s }

  // How many steps of the run turned the row COMPLETED.
  function Completions(j: Job, actions: seq<Action>): nat
    decreases |actions|
  {
    if actions == [] then 0
    else
      var k := Next(j, actions[0]);
      (if !InState(j, Completed) && InState(k, Completed) then 1 else 0) + Completions(k, actions[1..])
  }

  // COMPLETED is entered only from PROCESSING, by the complete guard, with the result that attempt returned.
  lemma CompletedOnlyFromProcessing(j: Job, a: Action)
    requires !InState(j, Completed) && InState(Next(j, a), Completed)
    ensures a.CompleteGuard? && InState(j, Processing)
    ensures j.entry.Active? && j.entry.phase.Returned?
    ensures Next(j, a).row.row.manifest == Some(j.entry.phase.manifest)
    ensures Next(j, a).row.row.progress == 100.0
  {
  }

  // Past its complete guard the job has no statement left that writes COMPLETED.
  predicate Spent(j: Job) { j.entry.Gone? || (j.entry.Active? && j.entry.phase.Announcing?) }

  lemma SpentStep(j: Job, a: Action)
    requires Spent(j)
    ensures Spent(Next(j, a)) && (InState(Next(j, a), Completed) ==> InState(j, Completed))
  {
  }

  lemma {:induction false} SpentNeverCompletes(j: Job, actions: seq<Action>)
    requires Spent(j)
    ensures Completions(j, actions) == 0
    decreases |actions|
  {
    hide Next, Spent;
    if actions != [] {
      SpentStep(j, actions[0]);
      SpentNeverCompletes(Next(j, actions[0]), actions[1..]);
    }
  }

  lemma {:induction false} CompletedAtMostOnce(j: Job, actions: seq<Action>)
    ensures Completions(j, actions) <= 1
    decreases |actions|
  {
    if actions != [] {
      var k := Next(j, actions[0]);
      if !InState(j, Completed) && InState(k, Completed) {
        CompletedOnlyFromProcessing(j, actions[0]);
        SpentNeverCompletes(k, actions[1..]);
      } else {
        CompletedAtMostOnce(k, actions[1..]);
      }
    }
  }

  lemma CompletedKeepsManifest(j: Job, a: Action)
    requires InState(j, Completed) && InState(Next(j, a), Completed)
    ensures Next(j, a).row.row.manifest == j.row.row.manifest
  {
  }

  lemma {:induction false} ReachableAgrees(actions: seq<Action>)
    ensures EntryAndHandlerAgree(Run(FRESH, actions)) && RowAgrees(Run(FRESH, actions))
  {
    FreshInv();
    RunKeepsInv(FRESH, actions);
  }

  // The COMPLETED event of this attempt is the next thing to be published, or the last that was and ever will be.
  predicate Announced(j: Job, attempt: nat) {
    && j.handler.Idle?
    && (|| j.entry == Active(attempt, Announcing)
        || (j.entry.Gone? && j.events != [] && j.events[|j.events| - 1] == Event(COMPLETED, attempt)))
  }

  lemma AnnouncedStep(j: Job, a: Action, attempt: nat)
    requires Announced(j, attempt)
    ensures Announced(Next(j, a), attempt)
  {
  }

  lemma GuardAnnounces(j: Job, a: Action)
    requires EntryAndHandlerAgree(j) && !InState(j, Completed) && InState(Next(j, a), Completed)
    ensures j.entry.Active? && Announced(Next(j, a), j.entry.attempt)
  {
  }

  // A completed row of any run was completed by a complete guard, from PROCESSING, and holds the manifest that
  // the attempt past that guard had returned; that attempt's COMPLETED is the last event, or about to be it.
  lemma {:induction false} CompletedByItsAttempt(actions: seq<Action>) returns (n: nat)
    requires InState(Run(FRESH, actions), Completed)
    ensures n < |actions| && actions[n].CompleteGuard?
    ensures var j := Run(FRESH, actions[..n]);
            && InState(j, Processing) && j.entry.Active? && j.entry.phase.Returned?
            && Run(FRESH, actions).row.row.manifest == Some(j.entry.phase.manifest)
            && Announced(Run(FRESH, actions), j.entry.attempt)
    decreases |actions|
  {
    hide Next, Announced;
    n := |actions| - 1;
    var before := actions[..n];
    assert actions == before + [actions[n]];
    RunSnoc(FRESH, before, actions[n]);
    if InState(Run(FRESH, before), Completed) {
      CompletedKeepsManifest(Run(FRESH, before), actions[n]);
      n := CompletedByItsAttempt(before);
      assert before[..n] == actions[..n];
      AnnouncedStep(Run(FRESH, before), actions[|actions| - 1], Run(FRESH, before[..n]).entry.attempt);
    } else {
      ReachableAgrees(before);
      CompletedOnlyFromProcessing(Run(FRESH, before), actions[n]);
      GuardAnnounces(Run(FRESH, before), actions[n]);
    }
  }

  // getOutputManifest finds a manifest on every COMPLETED row of every run.
  lemma {:induction false} CompletedHasManifest(actions: seq<Action>)
    ensures var j := Run(FRESH, actions); InState(j, Completed) ==> j.row.row.manifest.Some?
  {
    FreshInv();
    RunKeepsInv(FRESH, actions);
  }

  // A row that some deleteJob call read as terminal is still terminal, or gone, whenever that call deletes it.
  lemma {:induction false} DeleteFindsTerminalRow(actions: seq<Action>)
    ensures var j := Run(FRESH, actions);
            j.calls.deletesRead > 0 || j.calls.deletesCleared > 0 ==> Terminal(j) || j.row.Deleted?
  {
    FreshInv();
    RunKeepsInv(FRESH, actions);
  }

  lemma {:induction false} RunSnoc(j: Job, actions: seq<Action>, a: Action)
    ensures Run(j, actions + [a]) == Next(Run(j, actions), a)
  {
    hide Next;
    RunAppend(j, actions, [a]);
    assert Run(Run(j, actions), [a]) == Run(Next(Run(j, actions), a), []);
  }

  lemma {:induction false} Extend(j: Job, actions: seq<Action>, a: Action) returns (k: Job, longer: seq<Action>)
    requires j == Run(FRESH, actions)
    ensures k == Next(j, a) && k == Run(FRESH, longer) && longer == actions + [a]
  {
    RunSnoc(FRESH, actions, a);
    k, longer := Next(j, a), actions + [a];
  }

  lemma {:induction false} ReachGuarded(user: Caller) returns (j: Job, actions: seq<Action>)
    ensures j == Run(FRESH, actions)
    ensures j.entry == Active(1, Guarded) && InState(j, Processing) && CheckCancel(j.row, user).None?
    ensures j.calls == NO_CALLS && j.handler.Idle?
  {
    j, actions := Extend(FRESH, [], Create(user));
    j, actions := Extend(j, actions, Enqueue);
    j, actions := Extend(j, actions, Pickup);
    j, actions := Extend(j, actions, StartGuard);
  }

  // The unguarded write of a racing cancelJob overwrites COMPLETED: it is terminal, not absorbing.
  lemma {:induction false} CompletedIsNotAbsorbing() returns (actions: seq<Action>, last: Action)
    ensures InState(Run(FRESH, actions), Completed)
    ensures InState(Run(FRESH, actions + [last]), Cancelled)
  {
    hide Run, Inv;
    var user := Caller("u", "o", []);
    var j;
    j, actions := ReachGuarded(user);
    j, actions := Extend(j, actions, CancelRead(user));
    j, actions := Extend(j, actions, CancelRemove);
    j, actions := Extend(j, actions, Register);
    j, actions := Extend(j, actions, Return(Manifest("processed/j/master.m3u8", [])));
    j, actions := Extend(j, actions, CompleteGuard);
    last := CancelWrite;
    var k, longer := Extend(j, actions, last);
  }

  // A cancelJob call that read the row while it was live and has not written yet.
  predicate CancelPending(j: Job) { j.calls.cancelsRead > 0 || j.calls.cancelsRemoved > 0 }

  predicate Settled(j: Job) { !CancelPending(j) && (InState(j, Completed) || j.row.Deleted?) }

  lemma SettledStep(j: Job, a: Action)
    requires EntryAndHandlerAgree(j) && RowAgrees(j) && Settled(j)
    ensures Settled(Next(j, a))
  {
  }

  lemma {:induction false} SettledRun(j: Job, actions: seq<Action>)
    requires Inv(j) && Settled(j)
    ensures Settled(Run(j, actions))
    decreases |actions|
  {
    hide Next, Settled;
    if actions != [] {
      SettledStep(j, actions[0]);
      NextKeepsInv(j, actions[0]);
      SettledRun(Next(j, actions[0]), actions[1..]);
    }
  }

  lemma {:induction false} OverwriteCompleted(before: seq<Action>) returns (longer: seq<Action>)
    requires InState(Run(FRESH, before), Completed) && CancelPending(Run(FRESH, before))
    ensures before <= longer && InState(Run(FRESH, longer), Cancelled)
  {
    var j := Run(FRESH, before);
    longer := before;
    hide Run;
    if j.calls.cancelsRemoved == 0 { j, longer := Extend(j, longer, CancelRemove); }
    j, longer := Extend(j, longer, CancelWrite);
  }

  // COMPLETED is absorbing, up to deletion, exactly when no cancelJob call is past its read: a completed row
  // can take another state in some continuation if and only if such a call is pending.
  lemma {:induction false} CompletedOverwrittenIff(before: seq<Action>)
    requires InState(Run(FRESH, before), Completed)
    ensures (exists after :: var k := Run(FRESH, before + after); k.row.Present? && !InState(k, Completed))
            <==> CancelPending(Run(FRESH, before))
  {
    if CancelPending(Run(FRESH, before)) {
      var longer := OverwriteCompleted(before);
      assert longer == before + longer[|before|..];
      assert InState(Run(FRESH, before + longer[|before|..]), Cancelled);
    } else {
      FreshInv();
      RunKeepsInv(FRESH, before);
      forall after ensures Settled(Run(FRESH, before + after)) {
        RunAppend(FRESH, before, after);
        SettledRun(Run(FRESH, before), after);
      }
    }
  }

  // ---- Cancellation ------------------------------------------------------------------------

  predicate PastGuard(e: Entry) { e.Active? && !e.phase.Picked? }

  // The final attempt had passed its start guard when the cancel landed, and has either thrown already or
  // can still throw without a cancelled token.
  predicate CanStillFail(j: Job) {
    || j.handler.Exhausted?
    || (j.entry.Active? && j.entry.attempt == MAX_ATTEMPTS && j.entry.phase.Guarded?)
    || (j.entry.Active? && j.entry.attempt == MAX_ATTEMPTS && j.entry.phase.Running? && j.token != Some(true))
  }

  // k is reachable from j, where the CANCELLED write has just landed: what row and entry can be ...
  predicate StaysStopped(j: Job, k: Job) {
    && Dead(k)
    && (InState(k, Failed) || CanStillFail(k) ==> CanStillFail(j))
    && (PastGuard(k.entry) ==> PastGuard(j.entry) && k.entry.attempt == j.entry.attempt)
    && (PastGuard(k.entry) && k.entry.phase.Guarded? ==> j.entry == k.entry)
  }

  // ... and which attempts can have been started.
  ghost predicate NoNewStarts(j: Job, k: Job) {
    forall n :: Event(STARTED, n) in k.events && Event(STARTED, n) !in j.events ==> j.entry == Active(n, Guarded)
  }

  ghost predicate Stays(j: Job, k: Job) { StaysStopped(j, k) && NoNewStarts(j, k) }

  lemma StoppedStep(j: Job, k: Job, a: Action)
    requires EntryAndHandlerAgree(k) && RowAgrees(k) && StaysStopped(j, k)
    ensures StaysStopped(j, Next(k, a))
  {
  }

  // Only the step that registers a token publishes STARTED.
  lemma OnlyRegisterStarts(k: Job, a: Action, n: nat)
    requires Event(STARTED, n) in Next(k, a).events && Event(STARTED, n) !in k.events
    ensures a.Register? && k.entry == Active(n, Guarded)
  {
  }

  lemma {:induction false} StaysStep(j: Job, k: Job, a: Action)
    requires Inv(k) && Stays(j, k)
    ensures Stays(j, Next(k, a))
  {
    StoppedStep(j, k, a);
    hide Next, Inv;
    forall n | Event(STARTED, n) in Next(k, a).events && Event(STARTED, n) !in j.events
      ensures j.entry == Active(n, Guarded)
    {
      if Event(STARTED, n) !in k.events {
        OnlyRegisterStarts(k, a, n);
      }
    }
  }

  lemma {:induction false} StaysRun(j: Job, k: Job, actions: seq<Action>)
    requires Inv(k) && Stays(j, k)
    ensures Stays(j, Run(k, actions))
    decreases |actions|
  {
    if actions != [] {
      NextKeepsInv(k, actions[0]);
      StaysStep(j, k, actions[0]);
      StaysRun(j, Next(k, actions[0]), actions[1..]);
    }
  }

  // After cancelJob's CANCELLED write, with the kill message delivered, delayed or lost: the row is
  // never PROCESSING or COMPLETED again; it turns FAILED only for a final attempt that was already past
  // its start guard; and no attempt that had not passed its start guard is ever announced or transcodes.
  lemma {:induction false} CancelledForGood(before: seq<Action>, after: seq<Action>)
    requires InState(Run(FRESH, before), Cancelled)
    ensures var j, k := Run(FRESH, before), Run(FRESH, before + after);
            && (k.row.Deleted? || InState(k, Cancelled) || InState(k, Failed))
            && (InState(k, Failed) ==> CanStillFail(j))
            && (PastGuard(k.entry) ==> PastGuard(j.entry) && k.entry.attempt == j.entry.attempt)
            && (forall n :: Event(STARTED, n) in k.events && Event(STARTED, n) !in j.events ==>
                              j.entry == Active(n, Guarded))
  {
    FreshInv();
    RunKeepsInv(FRESH, before);
    RunAppend(FRESH, before, after);
    StaysRun(Run(FRESH, before), Run(FRESH, before), after);
  }

  // The steps that remain to FAILED.
  lemma {:induction false} FailFrom(j: Job, before: seq<Action>) returns (longer: seq<Action>)
    requires j == Run(FRESH, before) && j.row.Present? && j.handler.Exhausted?
    ensures before <= longer && InState(Run(FRESH, longer), Failed)
  {
    hide Run;
    var k;
    k, longer := Extend(j, before, HandleFailure);
  }

  lemma {:induction false} ThrowFrom(j: Job, before: seq<Action>) returns (longer: seq<Action>)
    requires j == Run(FRESH, before) && j.row.Present?
    requires j.entry.Active? && j.entry.attempt == MAX_ATTEMPTS && j.entry.phase.Running? && j.token != Some(true)
    ensures before <= longer && InState(Run(FRESH, longer), Failed)
  {
    hide Run;
    var k;
    k, longer := Extend(j, before, Throw);
    longer := FailFrom(k, longer);
  }

  lemma {:induction false} ReachFailed(before: seq<Action>) returns (longer: seq<Action>)
    requires InState(Run(FRESH, before), Cancelled) && CanStillFail(Run(FRESH, before))
    ensures before <= longer && InState(Run(FRESH, longer), Failed)
  {
    hide Run;
    var j := Run(FRESH, before);
    if j.handler.Exhausted? {
      longer := FailFrom(j, before);
    } else if j.entry.phase.Running? {
      longer := ThrowFrom(j, before);
    } else {
      var k;
      k, longer := Extend(j, before, Register);
      longer := ThrowFrom(k, longer);
    }
  }

  // The exception is real and exactly this one: a cancelled row can turn FAILED in some continuation if
  // and only if the final attempt can still fail.
  lemma {:induction false} CancelledTurnsFailedIff(before: seq<Action>)
    requires InState(Run(FRESH, before), Cancelled)
    ensures (exists after :: InState(Run(FRESH, before + after), Failed)) <==> CanStillFail(Run(FRESH, before))
  {
    if CanStillFail(Run(FRESH, before)) {
      var longer := ReachFailed(before);
      assert longer == before + longer[|before|..];
    } else {
      forall after ensures !InState(Run(FRESH, before + after), Failed) {
        CancelledForGood(before, after);
      }
    }
  }

  // One failed attempt, up to the start guard of the next.
  lemma {:induction false} NextAttempt(j: Job, actions: seq<Action>, user: Caller) returns (k: Job, longer: seq<Action>)
    requires j == Run(FRESH, actions) && j.handler.Idle? && j.calls == NO_CALLS
    requires j.entry.Active? && j.entry.attempt < MAX_ATTEMPTS && j.entry.phase.Guarded?
    requires InState(j, Processing) && CheckCancel(j.row, user).None?
    ensures k == Run(FRESH, longer) && k.handler.Idle? && k.calls == NO_CALLS
    ensures k.entry == Active(j.entry.attempt + 1, Guarded)
    ensures InState(k, Processing) && CheckCancel(k.row, user).None?
  {
    hide Run, CheckCancel;
    k, longer := Extend(j, actions, Register);
    k, longer := Extend(k, longer, Throw);
    k, longer := Extend(k, longer, HandleFailure);
    k, longer := Extend(k, longer, Pickup);
    k, longer := Extend(k, longer, StartGuard);
    assert k.row == j.row;
  }

  // A run in which a job cancelled past the start guard of its last attempt ends FAILED.
  lemma {:induction false} CancelledEndsFailed() returns (before: seq<Action>, longer: seq<Action>)
    ensures before <= longer && InState(Run(FRESH, before), Cancelled) && InState(Run(FRESH, longer), Failed)
  {
    hide Run;
    var user := Caller("u", "o", []);
    var j;
    j, before := ReachGuarded(user);
    j, before := NextAttempt(j, before, user);
    j, before := NextAttempt(j, before, user);
    j, before := Extend(j, before, CancelRead(user));
    j, before := Extend(j, before, CancelRemove);
    j, before := Extend(j, before, CancelWrite);
    longer := ReachFailed(before);
  }

  // An attempt whose token was cancelled while it ran, and what is left of it: no more events, no retry.
  predicate Killed(j: Job, attempt: nat, events: seq<Event>) {
    && Dead(j) && j.events == events
    && (|| (j.handler.Idle? && j.token == Some(true) && j.entry.Active? && j.entry.attempt == attempt
            && j.entry.phase.Running?)
        || (j.handler.Idle? && j.entry.Active? && j.entry.attempt == attempt && j.entry.phase.Returned?)
        || ((j.handler.Idle? || j.handler.Stopped?) && j.entry.Gone?))
  }

  lemma KilledStep(j: Job, a: Action, attempt: nat, events: seq<Event>)
    requires Killed(j, attempt, events)
    ensures Killed(Next(j, a), attempt, events)
    ensures a.Throw? ==> !(Next(j, a).entry.Active? && Next(j, a).entry.phase.Running?)
  {
  }

  lemma {:induction false} KilledRun(j: Job, actions: seq<Action>, attempt: nat, events: seq<Event>)
    requires Killed(j, attempt, events)
    ensures Killed(Run(j, actions), attempt, events)
    decreases |actions|
  {
    hide Next, Killed;
    if actions != [] {
      KilledStep(j, actions[0], attempt, events);
      KilledRun(Next(j, actions[0]), actions[1..], attempt, events);
    }
  }

  // A kill message delivered to a running attempt ends the job: nothing more is published for it, it is never
  // retried, and once it has thrown or returned and looked at the row it is gone from the queue.
  lemma {:induction false} KillEndsTheJob(before: seq<Action>, after: seq<Action>)
    requires var j := Run(FRESH, before); j.messages > 0 && j.entry.Active? && j.entry.phase.Running?
    ensures var j, k := Run(FRESH, before), Run(FRESH, before + [CancelDeliver] + after);
            && k.events == j.events && !k.entry.Waiting?
            && (k.entry.Active? ==>
                  k.entry.attempt == j.entry.attempt
                  && (k.entry.phase.Returned? || (k.entry.phase.Running? && k.token == Some(true))))
            && Next(Next(k, Throw), CompleteGuard).entry.Gone?
  {
    var j := Run(FRESH, before);
    ReachableAgrees(before);
    RunSnoc(FRESH, before, CancelDeliver);
    RunAppend(FRESH, before + [CancelDeliver], after);
    var next := Next(j, CancelDeliver);
    assert Killed(next, j.entry.attempt, j.events);
    KilledRun(next, after, j.entry.attempt, j.events);
  }

  lemma {:induction false} KillSent(j: Job, caller: Caller)
    requires j.row.Present? && j.entry.Active? && j.calls == NO_CALLS && CheckCancel(j.row, caller).None?
    ensures var k := Next(Next(Next(j, CancelRead(caller)), CancelRemove), CancelWrite);
            InState(k, Cancelled) && k.calls == NO_CALLS.(cancelsWritten := 1) && k.entry == j.entry
                && k.token == j.token
  {
    hide CheckCancel;
    var read := Next(j, CancelRead(caller));
    assert read == j.(calls := NO_CALLS.(cancelsRead := 1));
    var removed := Next(read, CancelRemove);
    assert removed == j.(calls := NO_CALLS.(cancelsRemoved := 1));
  }

  lemma {:induction false} KillArrives(j: Job)
    requires j.calls == NO_CALLS.(cancelsWritten := 1) && j.token.Some?
    ensures var k := Next(Next(j, CancelPublish), CancelDeliver);
            k.row == j.row && k.token == Some(true) && k.entry == j.entry && k.calls == NO_CALLS
  {
    assert Next(j, CancelPublish) == j.(calls := NO_CALLS, messages := j.messages + 1);
  }

  // And a cancelJob call that is let through sends one: with nothing in between, its five steps leave the row of a
  // running job CANCELLED and the attempt's token cancelled.
  lemma {:induction false} CancelKills(before: seq<Action>, caller: Caller)
    requires var j := Run(FRESH, before);
             j.entry.Active? && j.entry.phase.Running? && j.calls == NO_CALLS && CheckCancel(j.row, caller).None?
    ensures var k := Run(FRESH, before + [CancelRead(caller)] + [CancelRemove] + [CancelWrite] + [CancelPublish]
              + [CancelDeliver]);
            InState(k, Cancelled) && k.token == Some(true) && k.entry == Run(FRESH, before).entry && k.calls == NO_CALLS
  {
    ReachableAgrees(before);
    var j := Run(FRESH, before);
    assert j.row.Present? && j.token.Some?;
    var k, actions := j, before;
    hide Run, CheckCancel, Next;
    KillSent(j, caller);
    k, actions := Extend(k, actions, CancelRead(caller));
    k, actions := Extend(k, actions, CancelRemove);
    k, actions := Extend(k, actions, CancelWrite);
    KillArrives(k);
    k, actions := Extend(k, actions, CancelPublish);
    k, actions := Extend(k, actions, CancelDeliver);
  }

  lemma {:induction false} GoneForever(j: Job, actions: seq<Action>)
    requires j.entry.Gone?
    ensures Run(j, actions).entry.Gone?
    decreases |actions|
  {
    if actions != [] { GoneForever(Next(j, actions[0]), actions[1..]); }
  }

  // A job that is waiting when a cancelJob call takes it from the queue is never picked up again.
  lemma {:induction false} RemovedWhileWaiting(before: seq<Action>, after: seq<Action>)
    requires var j := Run(FRESH, before); j.entry.Waiting? && j.calls.cancelsRead > 0
    ensures Run(FRESH, before + [CancelRemove] + after).entry.Gone?
  {
    RunSnoc(FRESH, before, CancelRemove);
    RunAppend(FRESH, before + [CancelRemove], after);
    GoneForever(Next(Run(FRESH, before), CancelRemove), after);
  }

  lemma {:induction false} DeletedForever(j: Job, actions: seq<Action>)
    requires j.row.Deleted?
    ensures Run(j, actions).row.Deleted?
    decreases |actions|
  {
    if actions != [] { DeletedForever(Next(j, actions[0]), actions[1..]); }
  }

  // The delete of a deleteJob call leaves no row, and no late write of an attempt, a handler or a cancelJob call
  // brings it back.
  lemma {:induction false} DeleteIsForGood(before: seq<Action>, after: seq<Action>)
    requires Run(FRESH, before).calls.deletesCleared > 0
    ensures Run(FRESH, before + [DeleteRow] + after).row.Deleted?
  {
    DeleteFindsTerminalRow(before);
    RunSnoc(FRESH, before, DeleteRow);
    RunAppend(FRESH, before + [DeleteRow], after);
    DeletedForever(Next(Run(FRESH, before), DeleteRow), after);
  }

  // A running attempt's token is cancelled only for a row that is CANCELLED or deleted.
  lemma {:induction false} TokenCancelledOnlyWithRow(actions: seq<Action>)
    ensures var j := Run(FRESH, actions); j.token == Some(true) ==> j.row.Deleted? || InState(j, Cancelled)
  {
    FreshInv();
    RunKeepsInv(FRESH, actions);
  }

  // ---- Who cancelled, who deleted ----------------------------------------------------------------

  predicate CancelTrace(j: Job) { j.calls.cancelsRead > 0 || j.calls.cancelsRemoved > 0 || InState(j, Cancelled) }

  predicate DeleteTrace(j: Job) { j.calls.deletesRead > 0 || j.calls.deletesCleared > 0 || j.row.Deleted? }

  lemma TraceStep(j: Job, a: Action)
    ensures CancelTrace(Next(j, a)) ==> CancelTrace(j) || (a.CancelRead? && CheckCancel(j.row, a.caller).None?)
    ensures DeleteTrace(Next(j, a)) ==> DeleteTrace(j) || (a.DeleteRead? && CheckDelete(j.row, a.caller).None?)
  {
  }

  // Which calls get past their checks, on which rows.
  lemma CallsPassIff(j: Job, caller: Caller)
    ensures Next(j, CancelRead(caller)).calls.cancelsRead > j.calls.cancelsRead
            <==> && j.row.Present? && j.row.row.orgId == caller.orgId && j.row.row.state in {Queued, Processing}
                 && (j.row.row.createdBy == Some(caller.userId) || "ADMIN" in caller.roles || "OWNER" in caller.roles)
    ensures Next(j, DeleteRead(caller)).calls.deletesRead > j.calls.deletesRead
            <==> && j.row.Present? && j.row.row.orgId == caller.orgId
                 && j.row.row.state in {Completed, Failed, Cancelled}
                 && (j.row.row.createdBy == Some(caller.userId) || "ADMIN" in caller.roles || "OWNER" in caller.roles)
  {
  }

  // A row belongs to the caller that submitted it, for good.
  lemma {:induction false} OwnedByItsSubmitter(actions: seq<Action>) returns (n: nat)
    requires Run(FRESH, actions).row.Present?
    ensures n < |actions| && actions[n].Create?
    ensures var row := Run(FRESH, actions).row.row;
            row.orgId == actions[n].caller.orgId && row.createdBy == Some(actions[n].caller.userId)
    decreases |actions|
  {
    assert actions != [];
    n := |actions| - 1;
    var before, last := actions[..n], actions[n];
    assert actions == before + [last];
    RunSnoc(FRESH, before, last);
    if Run(FRESH, before).row.Present? {
      OwnerStep(Run(FRESH, before), last);
      n := OwnedByItsSubmitter(before);
    }
  }

  lemma OwnerStep(j: Job, a: Action)
    requires j.row.Present? && Next(j, a).row.Present?
    ensures Next(j, a).row.row.orgId == j.row.row.orgId && Next(j, a).row.row.createdBy == j.row.row.createdBy
  {
  }

  // Behind every cancelled row is a cancelJob call that read it while it was live, by its creator or an admin of
  // its own org.
  lemma {:induction false} CancelNeedsPermission(actions: seq<Action>) returns (n: nat)
    requires CancelTrace(Run(FRESH, actions))
    ensures n < |actions| && actions[n].CancelRead?
    ensures var row, caller := Run(FRESH, actions[..n]).row, actions[n].caller;
            && row.Present? && row.row.orgId == caller.orgId && Live(row.row.state)
            && (row.row.createdBy == Some(caller.userId) || "ADMIN" in caller.roles || "OWNER" in caller.roles)
    decreases |actions|
  {
    hide Next;
    assert actions != [];
    n := |actions| - 1;
    var before := actions[..n];
    assert actions == before + [actions[n]];
    RunSnoc(FRESH, before, actions[n]);
    TraceStep(Run(FRESH, before), actions[n]);
    if CancelTrace(Run(FRESH, before)) {
      n := CancelNeedsPermission(before);
      assert before[..n] == actions[..n];
    }
  }

  // And behind every deleted one a deleteJob call that read it as terminal, by one of the same.
  lemma {:induction false} DeleteNeedsPermission(actions: seq<Action>) returns (n: nat)
    requires DeleteTrace(Run(FRESH, actions))
    ensures n < |actions| && actions[n].DeleteRead?
    ensures var row, caller := Run(FRESH, actions[..n]).row, actions[n].caller;
            && row.Present? && row.row.orgId == caller.orgId && !Live(row.row.state)
            && (row.row.createdBy == Some(caller.userId) || "ADMIN" in caller.roles || "OWNER" in caller.roles)
    decreases |actions|
  {
    hide Next;
    assert actions != [];
    n := |actions| - 1;
    var before := actions[..n];
    assert actions == before + [actions[n]];
    RunSnoc(FRESH, before, actions[n]);
    TraceStep(Run(FRESH, before), actions[n]);
    if DeleteTrace(Run(FRESH, before)) {
      n := DeleteNeedsPermission(before);
      assert before[..n] == actions[..n];
    }
  }

  // ---- Published events -----------------------------------------------------------------------

  // What the worker has published is always a prefix of one script: a STARTED and RETRYING for each
  // failed attempt, then a STARTED and the verdict of the last one, which is FAILED only at the limit.
  lemma {:induction false} EventsFollowScript(actions: seq<Action>)
    ensures FollowsScript(Run(FRESH, actions).events)
    ensures forall e | e in Run(FRESH, actions).events :: 1 <= e.attempt <= 3 && (e.kind == FAILED ==> e.attempt == 3)
  {
    FreshInv();
    RunKeepsInv(FRESH, actions);
    var events := Run(FRESH, actions).events;
    forall e | e in events ensures 1 <= e.attempt <= 3 && (e.kind == FAILED ==> e.attempt == 3) {
      var i :| 0 <= i < |events| && events[i] == e;
      ScriptEntry(events, i);
    }
  }

  lemma {:induction false} ScriptEntry(events: seq<Event>, i: nat)
    requires FollowsScript(events) && i < |events|
    ensures 1 <= events[i].attempt <= 3 && (events[i].kind == FAILED ==> events[i].attempt == 3)
  {
    var n: nat, ok: bool :| 1 <= n <= MAX_ATTEMPTS && (ok || n == MAX_ATTEMPTS) && events <= Script(n, ok);
    assert events[i] == Script(n, ok)[i];
    if i < 2 * (n - 1) { RoundsAt(n - 1, i); }
  }

  // FAILED is announced too: the row's last attempt was the third, and its event is out or about to be.
  predicate FailureAnnounced(j: Job) {
    || j.handler == Recorded(3)
    || (j.entry.Gone? && j.handler.Idle? && j.events != [] && j.events[|j.events| - 1] == Event(FAILED, 3))
  }

  lemma FailureStep(j: Job, a: Action)
    requires EntryAndHandlerAgree(j) && RowAgrees(j) && (InState(j, Failed) ==> FailureAnnounced(j))
    ensures InState(Next(j, a), Failed) ==> FailureAnnounced(Next(j, a))
  {
  }

  lemma {:induction false} FailedIsAnnounced(actions: seq<Action>)
    requires InState(Run(FRESH, actions), Failed)
    ensures FailureAnnounced(Run(FRESH, actions))
    decreases |actions|
  {
    hide Next, FailureAnnounced;
    assert actions != [];
    var n := |actions| - 1;
    assert actions == actions[..n] + [actions[n]];
    RunSnoc(FRESH, actions[..n], actions[n]);
    ReachableAgrees(actions[..n]);
    if InState(Run(FRESH, actions[..n]), Failed) { FailedIsAnnounced(actions[..n]); }
    FailureStep(Run(FRESH, actions[..n]), actions[n]);
  }

  lemma {:induction false} RoundsAt(n: nat, i: nat)
    requires i < 2 * n
    ensures Rounds(n)[i] == Event(if i % 2 == 0 then STARTED else RETRYING, i / 2 + 1)
  {
    if i < 2 * n - 2 {
      RoundsAt(n - 1, i);
    }
  }

  lemma {:induction false} ScriptNeverRepeats(events: seq<Event>, i: nat, k: nat)
    requires FollowsScript(events) && i < k < |events|
    ensures events[i] != events[k]
  {
    var n: nat, ok: bool :| 1 <= n <= MAX_ATTEMPTS && (ok || n == MAX_ATTEMPTS) && events <= Script(n, ok);
    assert events[i] == Script(n, ok)[i] && events[k] == Script(n, ok)[k];
    if i < 2 * (n - 1) { RoundsAt(n - 1, i); }
    if k < 2 * (n - 1) { RoundsAt(n - 1, k); }
  }

  // No (type, attempt) pair is published twice, so the event ids derived from it are fresh each time.
  lemma {:induction false} EventsNeverRepeat(actions: seq<Action>, i: nat, k: nat)
    requires i < k < |Run(FRESH, actions).events|
    ensures Run(FRESH, actions).events[i] != Run(FRESH, actions).events[k]
  {
    EventsFollowScript(actions);
    ScriptNeverRepeats(Run(FRESH, actions).events, i, k);
  }
}
