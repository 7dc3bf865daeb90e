/** The progress shown for a job: where it comes from, and what a completed job shows. */
module TranscodeProgress {
  import opened TranscodeJob
  import opened TranscodeSafety
  import T = TranscodeTheorems
  import Progress

  // ---- The throttle of the job protocol is the one of the worker callback ---------------------------------

  function Reports(percents: seq<real>): (actions: seq<Action>)
    ensures |actions| == |percents|
    ensures forall i | 0 <= i < |percents| :: actions[i] == Action.Progress(percents[i])
  {
    if percents == [] then []
    else Reports(percents[..|percents| - 1]) + [Action.Progress(percents[|percents| - 1])]
  }

  // Percents reported to an attempt that has just begun start exactly the writes of the throttle.
  lemma {:induction false} ReportsWriteThrottled(j: Job, percents: seq<real>)
    requires j.entry.Active? && j.entry.phase == Running(0.0)
    ensures var k := Run(j, Reports(percents));
            && k.entry == Active(j.entry.attempt, Running(Progress.LastPersisted(percents)))
            && k.progressWrites == j.progressWrites + multiset(Progress.Writes(percents))
            && k.row == j.row && k.events == j.events
    decreases |percents|
  {
    if percents == [] {
      assert multiset(Progress.Writes(percents)) == multiset{};
    } else {
      var n := |percents| - 1;
      ReportsWriteThrottled(j, percents[..n]);
      T.RunSnoc(j, Reports(percents[..n]), Action.Progress(percents[n]));
    }
  }

  // ---- What a row shows --------------------------------------------------------------------------------------

  // 0, 100, or a percent reported before.
  predicate Known(actions: seq<Action>, p: real) { p == 0.0 || p == 100.0 || Action.Progress(p) in actions }

  predicate AllKnown(actions: seq<Action>, j: Job) {
    && (j.row.Present? ==> Known(actions, j.row.row.progress))
    && (forall p | p in j.progressWrites :: Known(actions, p))
  }

  lemma KnownStep(actions: seq<Action>, j: Job, a: Action)
    requires AllKnown(actions, j)
    ensures AllKnown(actions + [a], Next(j, a))
  {
  }

  lemma {:induction false} ProgressWasReported(actions: seq<Action>)
    ensures AllKnown(actions, Run(FRESH, actions))
    decreases |actions|
  {
    hide Next, AllKnown;
    if actions == [] {
      NothingReported();
    } else {
      var n := |actions| - 1;
      assert actions == actions[..n] + [actions[n]];
      ProgressWasReported(actions[..n]);
      KnownStep(actions[..n], Run(FRESH, actions[..n]), actions[n]);
      T.RunSnoc(FRESH, actions[..n], actions[n]);
    }
  }

  lemma NothingReported()
    ensures AllKnown([], FRESH)
  {
  }

  // ---- COMPLETED and 100 percent -----------------------------------------------------------------------------

  predicate ShowsHundred(j: Job) {
    T.Spent(j) && (j.row.Present? ==> j.row.row.progress == 100.0) && forall p | p in j.progressWrites :: p == 100.0
  }

  lemma HundredStep(j: Job, a: Action)
    requires ShowsHundred(j)
    ensures ShowsHundred(Next(j, a)) || Next(j, a).row.NeverCreated? || j.row.NeverCreated?
  {
  }

  lemma {:induction false} HundredRun(j: Job, actions: seq<Action>)
    requires ShowsHundred(j) && !j.row.NeverCreated?
    ensures ShowsHundred(Run(j, actions)) && !Run(j, actions).row.NeverCreated?
    decreases |actions|
  {
    hide ShowsHundred;
    if actions != [] {
      HundredStep(j, actions[0]);
      HundredRun(Next(j, actions[0]), actions[1..]);
    }
  }

  predicate ShowsLess(j: Job) { T.InState(j, Completed) && j.row.row.progress != 100.0 }

  // The complete guard sets 100, but the throttled writes are not awaited: a COMPLETED row shows or comes to show
  // another percent exactly when it does already, or such a write is still on its way.
  lemma {:induction false} CompletedShowsLessIff(before: seq<Action>)
    requires T.InState(Run(FRESH, before), Completed)
    ensures (exists after :: ShowsLess(Run(Run(FRESH, before), after)))
            <==> ShowsLess(Run(FRESH, before)) || exists p :: p in Run(FRESH, before).progressWrites && p != 100.0
  {
    var j := Run(FRESH, before);
    if ShowsLess(j) {
      var after := NoActions(j);
      assert ShowsLess(Run(j, after));
    } else if p :| p in j.progressWrites && p != 100.0 {
      var after := OneAction(j, ProgressLands(p));
      assert ShowsLess(Run(j, after));
    } else {
      T.ReachableAgrees(before);
      forall after ensures !ShowsLess(Run(j, after)) { HundredRun(j, after); }
    }
  }

  // Such a run: the write of 50 percent lands after the row is completed.
  lemma {:induction false} CompletedShowingHalf(user: Caller, result: Manifest) returns (actions: seq<Action>)
    ensures ShowsLess(Run(FRESH, actions)) && Run(FRESH, actions).row.row.progress == 50.0
  {
    var j;
    j, actions := T.ReachGuarded(user);
    hide Run;
    j, actions := T.Extend(j, actions, Register);
    j, actions := T.Extend(j, actions, Action.Progress(50.0));
    j, actions := T.Extend(j, actions, Return(result));
    j, actions := T.Extend(j, actions, CompleteGuard);
    j, actions := T.Extend(j, actions, ProgressLands(50.0));
  }

  lemma {:induction false} NoActions(j: Job) returns (actions: seq<Action>)
    ensures Run(j, actions) == j
  {
    actions := [];
  }

  lemma {:induction false} OneAction(j: Job, a: Action) returns (actions: seq<Action>)
    ensures Run(j, actions) == Next(j, a)
  {
    actions := [a];
    assert Run(j, [a]) == Run(Next(j, a), []);
  }
}
