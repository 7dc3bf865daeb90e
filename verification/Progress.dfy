/** Progress of one transcode attempt: scaling per-rendition percents into overall percents, throttling the
    database writes, and the cancel token the renditions run under. */
module Progress {

  // ---- The rendition loop of runTranscode ---------------------------------------------------------

  // One rendition: the percents ffmpeg reports while it runs, and whether it ends in an error.
  datatype Rendering = Rendering(percents: seq<real>, fails: bool)

  datatype Outcome = Finished | Cancelled | Failed

  function Overall(i: nat, total: nat, percent: real): real
    requires total > 0
  {
    (i as real / total as real) * 100.0 + percent / total as real
  }

  function ScaleAll(i: nat, total: nat, percents: seq<real>): (r: seq<real>)
    requires total > 0
    ensures |r| == |percents|
    ensures forall k | 0 <= k < |percents| :: r[k] == Overall(i, total, percents[k])
  {
    if percents == [] then []
    else ScaleAll(i, total, percents[..|percents| - 1]) + [Overall(i, total, percents[|percents| - 1])]
  }

  // The overall percents reported while the first n renditions run.
  function Reported(renditions: seq<Rendering>, n: nat): seq<real>
    requires n <= |renditions|
  {
    if n == 0 then [] else Reported(renditions, n - 1) + ScaleAll(n - 1, |renditions|, renditions[n - 1].percents)
  }

  // `cancelled[i]` is what the token says when rendition i is about to start.
  method RunRenditions(renditions: seq<Rendering>, cancelled: seq<bool>)
    returns (outcome: Outcome, started: nat, overall: seq<real>)
    requires |cancelled| == |renditions|
    ensures started <= |renditions| && overall == Reported(renditions, started)
    ensures forall i | 0 <= i < started :: !cancelled[i] && (i < started - 1 ==> !renditions[i].fails)
    ensures outcome == (if started > 0 && renditions[started - 1].fails then Failed
                        else if started < |renditions| then Cancelled
                        else Finished)
    ensures outcome.Cancelled? ==> cancelled[started]
  {
    var total := |renditions|;
    overall, started := [], 0;
    for i := 0 to total
      invariant started == i
      invariant overall == Reported(renditions, i)
      invariant forall k | 0 <= k < i :: !cancelled[k] && !renditions[k].fails
    {
      if cancelled[i] {
        return Cancelled, started, overall;
      }
      started := i + 1;
      var percents := renditions[i].percents;
      for k := 0 to |percents|
        invariant overall == Reported(renditions, i) + ScaleAll(i, total, percents[..k])
      {
        assert percents[..k + 1][..k] == percents[..k];
        overall := overall + [(i as real / total as real) * 100.0 + percents[k] / total as real];
      }
      assert percents[..|percents|] == percents;
      if renditions[i].fails {
        return Failed, started, overall;
      }
    }
    outcome := Finished;
  }

  // Overall progress is the average over all renditions: the ones done at 100, this one at its percent, the rest at 0.
  lemma {:induction false} OverallIsAverage(i: nat, total: nat, percent: real)
    requires i < total
    ensures Overall(i, total, percent) * total as real == 100.0 * i as real + percent
  {
    var t := total as real;
    assert (i as real / t) * t == i as real;
    assert (percent / t) * t == percent;
    assert ((i as real / t) * 100.0) * t == ((i as real / t) * t) * 100.0;
  }

  predicate NonDecreasing(s: seq<real>) { forall i, j | 0 <= i < j < |s| :: s[i] <= s[j] }

  predicate Within(s: seq<real>, lo: real, hi: real) { forall i | 0 <= i < |s| :: lo <= s[i] <= hi }

  // Where rendition i starts on the overall scale.
  function Floor(i: nat, total: nat): real
    requires total > 0
  {
    (i as real / total as real) * 100.0
  }

  lemma {:induction false} FloorStep(i: nat, total: nat, percent: real)
    requires i < total && 0.0 <= percent <= 100.0
    ensures Floor(i, total) <= Overall(i, total, percent) <= Floor(i + 1, total)
    ensures 0.0 <= Floor(i, total) && Floor(i + 1, total) <= 100.0
  {
    var t := total as real;
    assert (i as real + 1.0) / t == i as real / t + 1.0 / t;
    assert percent / t <= 100.0 / t;
    assert 0.0 <= i as real / t && (i + 1) as real / t <= 1.0;
  }

  lemma {:induction false} OverallOrdered(i: nat, total: nat, p: real, q: real)
    requires i < total && p <= q
    ensures Overall(i, total, p) <= Overall(i, total, q)
  {
    assert p / total as real <= q / total as real;
  }

  lemma AppendAbove(before: seq<real>, after: seq<real>, lo: real, mid: real, hi: real)
    requires NonDecreasing(before) && Within(before, lo, mid) && NonDecreasing(after) && Within(after, mid, hi)
    requires lo <= mid <= hi
    ensures NonDecreasing(before + after) && Within(before + after, lo, hi)
  {
  }

  // If every rendition's percents are non-decreasing in [0, 100], so are the overall percents.
  lemma {:induction false} OverallNeverDrops(renditions: seq<Rendering>, n: nat)
    requires n <= |renditions|
    requires forall i | 0 <= i < |renditions| ::
               NonDecreasing(renditions[i].percents) && Within(renditions[i].percents, 0.0, 100.0)
    ensures NonDecreasing(Reported(renditions, n))
    ensures Within(Reported(renditions, n), 0.0, if n == 0 then 0.0 else Floor(n, |renditions|))
    ensures Within(Reported(renditions, n), 0.0, 100.0)
  {
    if n > 0 {
      var total := |renditions|;
      OverallNeverDrops(renditions, n - 1);
      var percents := renditions[n - 1].percents;
      var scaled := ScaleAll(n - 1, total, percents);
      FloorStep(n - 1, total, 0.0);
      forall k | 0 <= k < |scaled| ensures Floor(n - 1, total) <= scaled[k] <= Floor(n, total) {
        FloorStep(n - 1, total, percents[k]);
      }
      forall j, k | 0 <= j < k < |scaled| ensures scaled[j] <= scaled[k] {
        OverallOrdered(n - 1, total, percents[j], percents[k]);
      }
      hide Overall;
      assert n == 1 ==> Reported(renditions, n - 1) == [];
      AppendAbove(Reported(renditions, n - 1), scaled, 0.0, Floor(n - 1, total), Floor(n, total));
    }
  }

  // ---- The throttle of the worker callback ------------------------------------------------------------

  const STEP := 5.0

  // lastPersisted after these reports ...
  function LastPersisted(reports: seq<real>): real {
    if reports == [] then 0.0
    else
      var last := LastPersisted(reports[..|reports| - 1]);
      var percent := reports[|reports| - 1];
      if percent - last >= STEP then percent else last
  }

  // ... and the percents written to the database.
  function Writes(reports: seq<real>): seq<real> {
    if reports == [] then []
    else
      var before := reports[..|reports| - 1];
      var percent := reports[|reports| - 1];
      if percent - LastPersisted(before) >= STEP then Writes(before) + [percent] else Writes(before)
  }

  class Throttle {
    var lastPersisted: real
    var writes: seq<real>
    ghost var reports: seq<real>

    ghost predicate Valid()
      reads this
    {
      lastPersisted == LastPersisted(reports) && writes == Writes(reports)
    }

    constructor ()
      ensures Valid() && reports == []
    {
      lastPersisted, writes, reports := 0.0, [], [];
    }

    method OnProgress(percent: real)
      requires Valid()
      modifies this
      ensures Valid() && reports == old(reports) + [percent]
    {
      reports := reports + [percent];
      assert reports[..|reports| - 1] == old(reports);
      if percent - lastPersisted >= 5.0 {
        lastPersisted := percent;
        writes := writes + [percent];
      }
    }
  }

  predicate Spaced(w: seq<real>) {
    (|w| > 0 ==> w[0] >= STEP) && forall i | 0 < i < |w| :: w[i] >= w[i - 1] + STEP
  }

  lemma {:induction false} WritesAreSpaced(reports: seq<real>)
    ensures Spaced(Writes(reports))
    ensures LastPersisted(reports) == if Writes(reports) == [] then 0.0 else Writes(reports)[|Writes(reports)| - 1]
    ensures forall w | w in Writes(reports) :: w in reports
    decreases |reports|
  {
    if reports != [] {
      WritesAreSpaced(reports[..|reports| - 1]);
    }
  }

  lemma {:induction false} SpacedGrows(w: seq<real>, i: nat)
    requires Spaced(w) && i < |w|
    ensures w[i] >= STEP * (i + 1) as real
  {
    if i > 0 {
      SpacedGrows(w, i - 1);
    }
  }

  // Each write is at least 5 above the one before, and percents up to 100 make at most 20 of them.
  lemma {:induction false} WritesAreFew(reports: seq<real>)
    requires forall r | r in reports :: r <= 100.0
    ensures |Writes(reports)| <= 20
    ensures forall i | 0 < i < |Writes(reports)| :: Writes(reports)[i] >= Writes(reports)[i - 1] + 5.0
  {
    WritesAreSpaced(reports);
    var w := Writes(reports);
    assert forall i | 0 <= i < |w| :: w[i] in w && w[i] <= 100.0;
    if |w| > 20 {
      SpacedGrows(w, 20);
    }
  }

  // After every callback the persisted percent is less than 5 behind the reported one, and it is the last write.
  lemma {:induction false} PersistedKeepsUp(reports: seq<real>)
    requires reports != []
    ensures reports[|reports| - 1] - LastPersisted(reports) < 5.0
    ensures LastPersisted(reports) == if Writes(reports) == [] then 0.0 else Writes(reports)[|Writes(reports)| - 1]
  {
    WritesAreSpaced(reports);
  }

  // ---- CancelToken -------------------------------------------------------------------------------------------

  // A process an ffmpeg invocation registers a killer for.
  type Process = nat

  class CancelToken {
    var cancelled: bool
    var killer: seq<Process>          // the current killer, if any
    var killed: set<Process>          // processes whose killer has been fired

    // Once cancelled, the process registered last has been killed; nothing is killed before.
    ghost predicate Valid()
      reads this
    {
      && |killer| <= 1
      && (cancelled && killer != [] ==> killer[0] in killed)
      && (killed != {} ==> cancelled)
    }

    constructor ()
      ensures Valid() && !cancelled && killed == {} && killer == []
    {
      cancelled, killer, killed := false, [], {};
    }

    method Cancel()
      requires Valid()
      modifies this
      ensures Valid() && cancelled && killer == old(killer)
      ensures killed == old(killed) + (if old(killer) == [] then {} else {old(killer)[0]})
    {
      cancelled := true;
      if killer != [] {
        killed := killed + {killer[0]};
      }
    }

    // A process that registers after the cancel is killed at once.
    method Register(process: Process)
      requires Valid()
      modifies this
      ensures Valid() && killer == [process] && cancelled == old(cancelled)
      ensures killed == old(killed) + (if old(cancelled) then {process} else {})
    {
      killer := [process];
      if cancelled {
        killed := killed + {process};
      }
    }
  }
}
