/** What the figures of the proof evaluation say about the runs that they are computed from. */
module ProofMeaning {
  import opened ProofBench
  import opened Selection

  // ---- the interval ----

  /** The ends of the interval are, within 2^-41, the quantiles of Beta(successes + 1/2, failures + 1/2) that leave
      half of the mass that is not asked for on either side: every quantile, for whatever function stands for that
      distribution. */
  lemma IntervalHoldsQuantiles(betai: (real, real, real) -> real, successes: int, trials: int, mass: real,
                               lo: real, hi: real)
    requires var cdf := (x: real) => betai(successes as real + 0.5, trials as real - successes as real + 0.5, x);
             IsQuantile(cdf, (1.0 - mass) / 2.0, lo) && IsQuantile(cdf, (1.0 + mass) / 2.0, hi)
    ensures var cdf := Posterior(betai, successes, trials);
            && -Width(41) <= Bisect(cdf, (1.0 - mass) / 2.0, 40).Mid() - lo <= Width(41)
            && -Width(41) <= Bisect(cdf, 1.0 - (1.0 - mass) / 2.0, 40).Mid() - hi <= Width(41)
  {
    var cdf := Posterior(betai, successes, trials);
    assert forall x :: cdf(x) == betai(successes as real + 0.5, trials as real - successes as real + 0.5, x);
    BracketHoldsQuantile(cdf, (1.0 - mass) / 2.0, lo, 40);
    BracketHoldsQuantile(cdf, 1.0 - (1.0 - mass) / 2.0, hi, 40);
    assert Width(41) == Width(40) / 2.0;
  }

  // ---- the stage of a run ----

  /** How far one event shows the run to have come, from 0 for the extraction to 4 for the verdict. */
  function Shows(e: Event): int {
    match e
    case Written => 1
    case Tested(compiled, realPass) => if realPass then 3 else if compiled then 2 else 0
    case TaskDone(outcome) => if outcome == "passed_verified" then 4 else 0
    case _ => 0
  }

  /** The stage is the furthest that any event shows, for a run that broke down nowhere and extracted the
      finding. */
  lemma StageIsFurthest(events: seq<Event>, findingId: string)
    ensures StageOf(events, findingId) == Errored <==>
            RunError in events || SandboxUnavailable in events || Timeout in events
    ensures StageOf(events, findingId) == NotExtracted <==>
            && RunError !in events && SandboxUnavailable !in events && Timeout !in events
            && (OnlyIdsNotFound in events || forall ids | Extracted(ids) in events :: findingId !in ids)
    ensures StageOf(events, findingId).OnLadder? ==>
              && (forall e | e in events :: Shows(e) <= StageOf(events, findingId).rung)
              && (StageOf(events, findingId).rung > 0 ==>
                    exists e | e in events :: Shows(e) == StageOf(events, findingId).rung)
  {
    forall e | e in events && IsInfra(e) ensures e == RunError || e == SandboxUnavailable || e == Timeout {
    }
    if RunError in events || SandboxUnavailable in events || Timeout in events {
      assert exists e | e in events :: IsInfra(e);
    }
    if e :| e in events && e.Extracted? && findingId in e.ids {
      assert Extracted(e.ids) in events;
    }
    if StageOf(events, findingId).OnLadder? {
      Furthest(events, findingId);
    }
  }

  lemma Furthest(events: seq<Event>, findingId: string)
    requires StageOf(events, findingId).OnLadder?
    ensures var rung := StageOf(events, findingId).rung;
            && (forall e | e in events :: Shows(e) <= rung)
            && (rung > 0 ==> exists e | e in events :: Shows(e) == rung)
  {
    var rung := StageOf(events, findingId).rung;
    if rung == 4 {
      assert Shows(TaskDone("passed_verified")) == 4;
    } else if rung == 1 {
      assert Shows(Written) == 1;
    }
  }

  // ---- the funnel ----

  /** The places of the runs that reached rung `s` at least. */
  function ReachedAt(outcomes: seq<CaseOutcome>, s: nat): set<int> {
    set i | 0 <= i < |outcomes| && outcomes[i].stage.OnLadder? && outcomes[i].stage.rung >= s
  }

  lemma {:induction false} SurvivorsAre(outcomes: seq<CaseOutcome>, s: nat)
    ensures Survivors(outcomes, s) == |ReachedAt(outcomes, s)|
  {
    if outcomes != [] {
      var n := |outcomes| - 1;
      SurvivorsAre(outcomes[..n], s);
      var last := outcomes[n].stage;
      assert ReachedAt(outcomes, s) ==
             ReachedAt(outcomes[..n], s) + if last.OnLadder? && last.rung >= s then {n} else {};
    }
  }

  /** The casualties of a rung are the names of the runs that stopped right below it, in order: below the first one,
      those that are not on the ladder. */
  lemma {:induction false} CasualtiesAre(outcomes: seq<CaseOutcome>, s: nat)
    ensures Picks(outcomes, StoppedBelow(s), NAME, Casualties(outcomes, s))
  {
    hide Picks;
    if outcomes == [] {
      PicksNothing(StoppedBelow(s), NAME);
    } else {
      var init, last := outcomes[..|outcomes| - 1], outcomes[|outcomes| - 1];
      CasualtiesAre(init, s);
      PicksMore(init, StoppedBelow(s), NAME, Casualties(init, s), last);
      assert Casualties(outcomes, s) ==
             if StoppedBelow(s)(last) then Casualties(init, s) + [NAME(last)] else Casualties(init, s);
      assert outcomes == init + [last];
    }
  }

  const NAME: CaseOutcome -> string := (o: CaseOutcome) => o.caseId

  function StoppedBelow(s: nat): CaseOutcome -> bool {
    (o: CaseOutcome) => if s == 0 then !o.stage.OnLadder? else o.stage.OnLadder? && o.stage.rung == s - 1
  }

  function OffBy(stage: Stage): CaseOutcome -> bool {
    (o: CaseOutcome) => o.stage == stage
  }

  /** The runs off the ladder are listed by what kept them off, in order. */
  lemma {:induction false} OffLadderAre(outcomes: seq<CaseOutcome>, stage: Stage)
    ensures Picks(outcomes, OffBy(stage), NAME, OffLadder(outcomes, stage))
  {
    hide Picks;
    if outcomes == [] {
      PicksNothing(OffBy(stage), NAME);
    } else {
      var init, last := outcomes[..|outcomes| - 1], outcomes[|outcomes| - 1];
      OffLadderAre(init, stage);
      PicksMore(init, OffBy(stage), NAME, OffLadder(init, stage), last);
      assert OffLadder(outcomes, stage) ==
             if OffBy(stage)(last) then OffLadder(init, stage) + [NAME(last)] else OffLadder(init, stage);
      assert outcomes == init + [last];
    }
  }

  /** The numerator counts the runs whose outcome is `passed_verified`. */
  lemma {:induction false} SuccessesAre(outcomes: seq<CaseOutcome>)
    ensures Successes(outcomes) == |set i | 0 <= i < |outcomes| && outcomes[i].outcome == "passed_verified"|
  {
    if outcomes != [] {
      var n := |outcomes| - 1;
      SuccessesAre(outcomes[..n]);
      var before := set i | 0 <= i < n && outcomes[..n][i].outcome == "passed_verified";
      assert (set i | 0 <= i < |outcomes| && outcomes[i].outcome == "passed_verified")
          == before + if outcomes[n].outcome == "passed_verified" then {n} else {};
    }
  }
}
