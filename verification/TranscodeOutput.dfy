/** A job's output files beside its row: what the running attempt uploads while deleteJob is under way. */
module TranscodeOutput {
  import opened TranscodeJob
  import opened TranscodeSafety
  import T = TranscodeTheorems

  // The names under processed/<jobId>/ in the object store.
  datatype Stored = Stored(job: Job, output: set<string>)

  datatype StoreAction = Act(action: Action) | Upload(key: string)

  // runTranscode uploads as long as it runs, and uploadDir does not look at the token; deletePrefix takes away
  // what is there.
  function NextStored(s: Stored, a: StoreAction): Stored {
    match a
    case Upload(key) =>
      if s.job.entry.Active? && s.job.entry.phase.Running? then s.(output := s.output + {key}) else s
    case Act(action) =>
      Stored(Next(s.job, action), if action.DeleteOutput? && s.job.calls.deletesRead > 0 then {} else s.output)
  }

  function RunStored(s: Stored, acts: seq<StoreAction>): Stored
    decreases |acts|
  {
    if acts == [] then s else RunStored(NextStored(s, acts[0]), acts[1..])
  }

  // The steps of the job in a run.
  function JobActions(acts: seq<StoreAction>): seq<Action> {
    if acts == [] then []
    else if acts[0].Act? then [acts[0].action] + JobActions(acts[1..])
    else JobActions(acts[1..])
  }

  lemma {:induction false} JobRun(s: Stored, acts: seq<StoreAction>)
    ensures RunStored(s, acts).job == Run(s.job, JobActions(acts))
    decreases |acts|
  {
    hide Next;
    if acts != [] {
      JobRun(NextStored(s, acts[0]), acts[1..]);
      if acts[0].Act? {
        assert JobActions(acts)[1..] == JobActions(acts[1..]);
      }
    }
  }

  lemma {:induction false} RunStoredAppend(s: Stored, before: seq<StoreAction>, after: seq<StoreAction>)
    ensures RunStored(s, before + after) == RunStored(RunStored(s, before), after)
    decreases |before|
  {
    hide NextStored;
    if before == [] {
      assert before + after == after;
    } else {
      RunStoredAppend(NextStored(s, before[0]), before[1..], after);
      assert (before + after)[0] == before[0] && (before + after)[1..] == before[1..] + after;
    }
  }

  // ---- Output after the row --------------------------------------------------------------------------------

  // An attempt past its start guard that has not returned from runTranscode.
  predicate CanUpload(j: Job) { j.entry.Active? && (j.entry.phase.Guarded? || j.entry.phase.Running?) }

  // The row is gone, the output too, and no attempt can bring any back.
  predicate Clean(s: Stored) { s.job.row.Deleted? && s.output == {} && !CanUpload(s.job) }

  lemma CleanStep(s: Stored, a: StoreAction)
    requires Clean(s)
    ensures Clean(NextStored(s, a))
  {
  }

  lemma {:induction false} CleanRun(s: Stored, acts: seq<StoreAction>)
    requires Clean(s)
    ensures Clean(RunStored(s, acts))
    decreases |acts|
  {
    hide Clean, NextStored;
    if acts != [] {
      CleanStep(s, acts[0]);
      CleanRun(NextStored(s, acts[0]), acts[1..]);
    }
  }

  lemma {:induction false} RunStoredCons(s: Stored, a: StoreAction, acts: seq<StoreAction>)
    ensures RunStored(s, [a] + acts) == RunStored(NextStored(s, a), acts)
  {
    hide NextStored;
    assert ([a] + acts)[1..] == acts;
  }

  lemma {:induction false} UploadWhileRunning(s: Stored, key: string)
    requires s.job.entry.Active? && s.job.entry.phase.Running?
    ensures key in RunStored(s, [Upload(key)] + []).output
  {
    RunStoredCons(s, Upload(key), []);
    hide Next;
  }

  lemma {:induction false} AnUpload(s: Stored, key: string) returns (acts: seq<StoreAction>)
    requires CanUpload(s.job)
    ensures key in RunStored(s, acts).output
  {
    acts := [Upload(key)] + [];
    if s.job.entry.phase.Running? {
      UploadWhileRunning(s, key);
    } else {
      var next := NextStored(s, Act(Register));
      assert next.job.entry.Active? && next.job.entry.phase.Running?;
      UploadWhileRunning(next, key);
      hide NextStored, RunStored;
      RunStoredCons(s, Act(Register), acts);
      acts := [Act(Register)] + acts;
    }
  }

  lemma {:induction false} NoSteps(s: Stored) returns (acts: seq<StoreAction>)
    ensures RunStored(s, acts) == s
  {
    acts := [];
  }

  // Once a row is deleted, output of its job is or comes to be in the store exactly when some is there already,
  // or an attempt had passed its start guard and has not returned.
  lemma {:induction false} OrphanedIff(s: Stored)
    requires s.job.row.Deleted?
    ensures (exists acts :: RunStored(s, acts).output != {}) <==> s.output != {} || CanUpload(s.job)
  {
    hide RunStored;
    if s.output != {} {
      var acts := NoSteps(s);
      assert RunStored(s, acts).output != {};
    } else if CanUpload(s.job) {
      var acts := AnUpload(s, "master.m3u8");
      assert RunStored(s, acts).output != {};
    } else {
      forall acts ensures RunStored(s, acts).output == {} { CleanRun(s, acts); }
    }
  }

  // ---- Which jobs that can happen to -----------------------------------------------------------------------

  // A job that ended by itself: completed, or out of attempts.
  predicate Ended(j: Job) {
    && (j.row.Deleted? || (j.row.Present? && !Live(j.row.row.state)))
    && (j.entry.Gone? || (j.entry.Active? && j.entry.phase.Announcing?))
  }

  lemma EndedStep(s: Stored, a: StoreAction)
    requires Ended(s.job)
    ensures Ended(NextStored(s, a).job) && NextStored(s, a).output <= s.output
  {
  }

  lemma {:induction false} EndedRun(s: Stored, acts: seq<StoreAction>)
    requires Ended(s.job)
    ensures RunStored(s, acts).output <= s.output
    decreases |acts|
  {
    hide Ended, NextStored;
    if acts != [] {
      EndedStep(s, acts[0]);
      EndedRun(NextStored(s, acts[0]), acts[1..]);
    }
  }

  // From a state in which the row of a fresh job's run is COMPLETED or FAILED on, its output only ever shrinks:
  // deleting such a job leaves nothing behind that was not there when its output was listed.
  lemma {:induction false} EndedOutputNeverGrows(before: seq<StoreAction>, after: seq<StoreAction>)
    requires var j := RunStored(Stored(FRESH, {}), before).job; T.InState(j, Completed) || T.InState(j, Failed)
    ensures RunStored(Stored(FRESH, {}), before + after).output <= RunStored(Stored(FRESH, {}), before).output
  {
    var s := RunStored(Stored(FRESH, {}), before);
    JobRun(Stored(FRESH, {}), before);
    FreshInv();
    RunKeepsInv(FRESH, JobActions(before));
    RunStoredAppend(Stored(FRESH, {}), before, after);
    EndedRun(s, after);
  }

  lemma {:induction false} ReachCancelledRunning(user: Caller) returns (j: Job, actions: seq<Action>)
    ensures j == Run(FRESH, actions) && T.InState(j, Cancelled) && CheckDelete(j.row, user).None?
    ensures j.entry.Active? && j.entry.phase.Running? && j.calls.deletesRead == j.calls.deletesCleared == 0
  {
    j, actions := T.ReachGuarded(user);
    hide Run;
    j, actions := T.Extend(j, actions, Register);
    j, actions := T.Extend(j, actions, CancelRead(user));
    j, actions := T.Extend(j, actions, CancelRemove);
    j, actions := T.Extend(j, actions, CancelWrite);
  }

  lemma {:induction false} ReachDeletedRunning() returns (actions: seq<Action>)
    ensures var j := Run(FRESH, actions); j.row.Deleted? && j.entry.Active? && j.entry.phase.Running?
  {
    var user := Caller("u", "o", []);
    var j;
    j, actions := ReachCancelledRunning(user);
    hide Run, CheckDelete, CanModify;
    j, actions := T.Extend(j, actions, DeleteRead(user));
    j, actions := T.Extend(j, actions, DeleteOutput);
    j, actions := T.Extend(j, actions, DeleteRow);
  }

  // A cancelled job is deletable while its attempt still runs: here the upload follows the deleted row.
  lemma {:induction false} UploadOutlivesItsRow() returns (acts: seq<StoreAction>)
    ensures var end := RunStored(Stored(FRESH, {}), acts); end.job.row.Deleted? && end.output != {}
  {
    var actions := ReachDeletedRunning();
    hide Run, Next;
    var before := Acts(actions);
    JobRun(Stored(FRESH, {}), before);
    OnlyActs(actions);
    var s := RunStored(Stored(FRESH, {}), before);
    OrphanedIff(s);
    var after :| RunStored(s, after).output != {};
    hide RunStored;
    RunStoredAppend(Stored(FRESH, {}), before, after);
    DeletedStays(s, after);
    acts := before + after;
  }

  function Acts(actions: seq<Action>): seq<StoreAction> {
    if actions == [] then [] else [Act(actions[0])] + Acts(actions[1..])
  }

  lemma {:induction false} OnlyActs(actions: seq<Action>)
    ensures JobActions(Acts(actions)) == actions
  {
    if actions != [] {
      OnlyActs(actions[1..]);
      assert Acts(actions)[1..] == Acts(actions[1..]);
    }
  }

  lemma {:induction false} DeletedStays(s: Stored, acts: seq<StoreAction>)
    requires s.job.row.Deleted?
    ensures RunStored(s, acts).job.row.Deleted?
    decreases |acts|
  {
    if acts != [] { DeletedStays(NextStored(s, acts[0]), acts[1..]); }
  }
}
