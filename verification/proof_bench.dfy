/** The proof evaluation: a quantile by bisection and the interval built on it, and the attrition
    funnel over the stages of a run. */
module ProofBench {

  datatype Result<+T> = Ok(value: T) | BadCounts

  // ---- the quantile, over exact reals ----

  const PPF_ITMAX: nat := 200
  const PPF_TOL: real := 0.000000000001

  datatype Bracket = Bracket(lo: real, hi: real) {
    function Mid(): real {
      0.5 * (lo + hi)
    }
  }

  /** One halving: `cdf` is the distribution function whose quantile is sought. */
  function Halve(cdf: real -> real, p: real, b: Bracket): Bracket {
    if cdf(b.Mid()) < p then Bracket(b.Mid(), b.hi) else Bracket(b.lo, b.Mid())
  }

  function Bisect(cdf: real -> real, p: real, n: nat): Bracket {
    if n == 0 then Bracket(0.0, 1.0) else Halve(cdf, p, Bisect(cdf, p, n - 1))
  }

  /** 2^-n */
  function Width(n: nat): real {
    if n == 0 then 1.0 else Width(n - 1) / 2.0
  }

  lemma {:induction false} BracketWidth(cdf: real -> real, p: real, n: nat)
    ensures var b := Bisect(cdf, p, n); 0.0 <= b.lo < b.hi <= 1.0 && b.hi - b.lo == Width(n)
  {
    if n > 0 {
      BracketWidth(cdf, p, n - 1);
    }
  }

  /** 1024 halves ten times. */
  lemma WidthTen(n: nat)
    ensures Width(n + 10) * 1024.0 == Width(n)
  {
    assert Width(n + 5) * 32.0 == Width(n) by { WidthFive(n); }
    assert Width(n + 10) * 32.0 == Width(n + 5) by { WidthFive(n + 5); }
  }

  lemma WidthFive(n: nat)
    ensures Width(n + 5) * 32.0 == Width(n)
  {
    assert Width(n + 1) * 2.0 == Width(n);
    assert Width(n + 2) * 2.0 == Width(n + 1);
    assert Width(n + 3) * 2.0 == Width(n + 2);
    assert Width(n + 4) * 2.0 == Width(n + 3);
    assert Width(n + 5) * 2.0 == Width(n + 4);
  }

  /** The tolerance is reached at the fortieth halving and not before. */
  lemma FortyHalvings()
    ensures Width(40) < PPF_TOL <= Width(39)
  {
    WidthTen(0);
    WidthTen(10);
    WidthTen(20);
    WidthTen(30);
    assert Width(0) == 1.0;
    assert Width(40) * 1099511627776.0 == 1.0;
    assert Width(39) == 2.0 * Width(40);
  }

  lemma {:induction false} WidthShrinks(m: nat, n: nat)
    requires m <= n
    ensures 0.0 < Width(n) <= Width(m)
    decreases n
  {
    if m < n {
      WidthShrinks(m, n - 1);
    } else if n > 0 {
      WidthShrinks(n - 1, n - 1);
    }
  }

  /** The loop stops after forty halvings, well under its cap. */
  method BetaPpf(cdf: real -> real, p: real) returns (q: real)
    ensures q == Bisect(cdf, p, 40).Mid()
  {
    var lo, hi := 0.0, 1.0;
    FortyHalvings();
    var n := 0;
    while n < PPF_ITMAX
      invariant 0 <= n < 40
      invariant Bracket(lo, hi) == Bisect(cdf, p, n)
    {
      var mid := 0.5 * (lo + hi);
      if cdf(mid) < p {
        lo := mid;
      } else {
        hi := mid;
      }
      n := n + 1;
      BracketWidth(cdf, p, n);
      if hi - lo < PPF_TOL {
        assert n == 40 by {
          if n < 40 { WidthShrinks(n, 39); }
        }
        break;
      }
    }
    return 0.5 * (lo + hi);
  }

  /** Two searches over the same distribution function keep step: their brackets are equal until they
      part, and from then on the one for the smaller probability lies below. */
  lemma {:induction false} BisectInStep(cdf: real -> real, p: real, q: real, n: nat)
    requires p <= q
    ensures Bisect(cdf, p, n) == Bisect(cdf, q, n) || Bisect(cdf, p, n).hi <= Bisect(cdf, q, n).lo
  {
    if n > 0 {
      BisectInStep(cdf, p, q, n - 1);
      BracketWidth(cdf, p, n - 1);
      BracketWidth(cdf, q, n - 1);
    }
  }

  /** The quantile grows with the probability, for any function in the place of the distribution
      function. */
  lemma QuantileIsMonotone(cdf: real -> real, p: real, q: real, n: nat)
    requires p <= q
    ensures Bisect(cdf, p, n).Mid() <= Bisect(cdf, q, n).Mid()
  {
    BisectInStep(cdf, p, q, n);
    BracketWidth(cdf, p, n);
    BracketWidth(cdf, q, n);
  }

  ghost predicate IsMonotone(cdf: real -> real) {
    forall x, y | x <= y :: cdf(x) <= cdf(y)
  }

  /** `x` parts the unit interval: below it the distribution function is under `p`, above it is not. */
  ghost predicate IsQuantile(cdf: real -> real, p: real, x: real) {
    && 0.0 <= x <= 1.0
    && (forall y | 0.0 <= y < x :: cdf(y) < p)
    && (forall y | x < y <= 1.0 :: cdf(y) >= p)
  }

  lemma {:induction false} BracketEnds(cdf: real -> real, p: real, n: nat)
    ensures var b := Bisect(cdf, p, n); (b.lo == 0.0 || cdf(b.lo) < p) && (b.hi == 1.0 || cdf(b.hi) >= p)
  {
    if n > 0 {
      BracketEnds(cdf, p, n - 1);
    }
  }

  /** Every quantile lies in every bracket, so the answer is within 2^-41 of it. */
  lemma BracketHoldsQuantile(cdf: real -> real, p: real, x: real, n: nat)
    requires IsQuantile(cdf, p, x)
    ensures var b := Bisect(cdf, p, n);
            b.lo <= x <= b.hi && -Width(n) <= 2.0 * (b.Mid() - x) <= Width(n)
  {
    BracketEnds(cdf, p, n);
    BracketWidth(cdf, p, n);
  }

  /** For a monotone distribution function the bracket itself parts the unit interval. */
  lemma BracketParts(cdf: real -> real, p: real, n: nat)
    requires IsMonotone(cdf)
    ensures var b := Bisect(cdf, p, n);
            && (forall y | 0.0 < y <= b.lo :: cdf(y) < p)
            && (forall y | b.hi <= y < 1.0 :: cdf(y) >= p)
  {
    BracketEnds(cdf, p, n);
    BracketWidth(cdf, p, n);
  }

  datatype Interval = Interval(lo: real, hi: real, mass: real, successes: int, trials: int)

  /** The posterior of the Jeffreys prior: Beta(successes + 1/2, failures + 1/2). */
  function Posterior(betai: (real, real, real) -> real, successes: int, trials: int): real -> real {
    (x: real) => betai(successes as real + 0.5, (trials - successes) as real + 0.5, x)
  }

  /** `betai(a, b, x)` stands for the regularized incomplete beta function; nothing is asked of it. */
  method CredibleInterval(betai: (real, real, real) -> real, successes: int, trials: int, mass: real)
    returns (r: Result<Interval>)
    ensures r.BadCounts? <==> !(0 <= successes <= trials)
    ensures r.Ok? ==>
              && 0.0 <= r.value.lo <= 1.0 && 0.0 <= r.value.hi <= 1.0
              && (mass >= 0.0 ==> r.value.lo <= r.value.hi)
              && (trials == 0 ==> r.value.lo == 0.0 && r.value.hi == 1.0)
              && r.value.successes == successes && r.value.trials == trials && r.value.mass == mass
    ensures r.Ok? && trials > 0 ==>
              var cdf := Posterior(betai, successes, trials);
              && r.value.lo == Bisect(cdf, (1.0 - mass) / 2.0, 40).Mid()
              && r.value.hi == Bisect(cdf, 1.0 - (1.0 - mass) / 2.0, 40).Mid()
  {
    hide Posterior, Bisect;
    if trials < 0 || successes < 0 || successes > trials {
      return BadCounts;
    }
    var cdf := Posterior(betai, successes, trials);
    var tail := (1.0 - mass) / 2.0;
    var lo, hi := 0.0, 1.0;
    if trials != 0 {
      lo := BetaPpf(cdf, tail);
      hi := BetaPpf(cdf, 1.0 - tail);
      BracketWidth(cdf, tail, 40);
      BracketWidth(cdf, 1.0 - tail, 40);
      if mass >= 0.0 {
        QuantileIsMonotone(cdf, tail, 1.0 - tail, 40);
      }
    }
    return Ok(Interval(lo, hi, mass, successes, trials));
  }

  // ---- the stage a run reached ----

  /** Finding ids are in lower case. */
  datatype Event =
    | Extracted(ids: seq<string>)
    | OnlyIdsNotFound
    | Written
    | Tested(compiled: bool, realPass: bool)
    | TaskDone(outcome: string)
    | RunError
    | SandboxUnavailable
    | Timeout
    | OtherEvent

  const STAGE_COUNT: nat := 5

  type Rung = r: nat | r < STAGE_COUNT

  const EXTRACTED: Rung := 0
  const DRAFT: Rung := 1
  const COMPILED: Rung := 2
  const REAL_PASS: Rung := 3
  const VERIFIED: Rung := 4

  datatype Stage = OnLadder(rung: Rung) | NotExtracted | Errored

  predicate IsInfra(e: Event) {
    e.RunError? || e.SandboxUnavailable? || e.Timeout?
  }

  /** No infrastructure event, and the finding was among those extracted. */
  predicate IsCleanRun(events: seq<Event>, findingId: string) {
    && (forall e | e in events :: !IsInfra(e) && !e.OnlyIdsNotFound?)
    && exists e | e in events :: e.Extracted? && findingId in e.ids
  }

  function StageOf(events: seq<Event>, findingId: string): Stage {
    if exists e | e in events :: IsInfra(e) then Errored
    else if !(exists e | e in events :: e.Extracted? && findingId in e.ids) || OnlyIdsNotFound in events
    then NotExtracted
    else if TaskDone("passed_verified") in events then OnLadder(VERIFIED)
    else if exists e | e in events :: e.Tested? && e.realPass then OnLadder(REAL_PASS)
    else if exists e | e in events :: e.Tested? && e.compiled then OnLadder(COMPILED)
    else if Written in events then OnLadder(DRAFT)
    else OnLadder(EXTRACTED)
  }

  /** The outcome of a run is that of its last `task_done`, if it has one. */
  function OutcomeOf(events: seq<Event>): string {
    if events == [] then ""
    else
      var last := events[|events| - 1];
      if last.TaskDone? then last.outcome else OutcomeOf(events[..|events| - 1])
  }

  predicate OneTask(events: seq<Event>) {
    forall i, j | 0 <= i < j < |events| :: !(events[i].TaskDone? && events[j].TaskDone?)
  }

  lemma {:induction false} OutcomeOfOneTask(events: seq<Event>, outcome: string)
    requires OneTask(events) && outcome != ""
    ensures OutcomeOf(events) == outcome <==> TaskDone(outcome) in events
  {
    if events != [] {
      var front, last := events[..|events| - 1], events[|events| - 1];
      assert events == front + [last];
      OutcomeOfOneTask(front, outcome);
    }
  }

  /** The stage and the outcome of a one-task run agree on success, except that a success reported
      beside an infrastructure error, or for a finding that was not extracted, counts as an outcome but
      not as a stage. */
  lemma StageAgreesWithOutcome(events: seq<Event>, findingId: string)
    requires OneTask(events)
    ensures (StageOf(events, findingId) == OnLadder(VERIFIED) <==> OutcomeOf(events) == "passed_verified")
       <==> (OutcomeOf(events) != "passed_verified" || IsCleanRun(events, findingId))
  {
    OutcomeOfOneTask(events, "passed_verified");
  }

  /** Such a run: a failed recompile is logged and the proof is verified later. */
  lemma StageAndOutcomeCanDrift()
    ensures var events := [Extracted(["h-01"]), Written, RunError, TaskDone("passed_verified")];
            OneTask(events) && StageOf(events, "h-01") == Errored && OutcomeOf(events) == "passed_verified"
  {
    var events := [Extracted(["h-01"]), Written, RunError, TaskDone("passed_verified")];
    assert events[2] in events && IsInfra(events[2]);
    assert events[3].TaskDone?;
  }

  // ---- the funnel ----

  datatype CaseOutcome = CaseOutcome(caseId: string, stage: Stage, outcome: string) {
    /** One past the rung reached; an off-ladder run reached none. */
    function Reached(): nat {
      match stage
      case OnLadder(rung) => rung + 1
      case _ => 0
    }
  }

  datatype Funnel = Funnel(survivors: seq<nat>, casualties: seq<seq<string>>,
                           notExtracted: seq<string>, errored: seq<string>)

  /** How many runs reached at least rung `s`. */
  function Survivors(outcomes: seq<CaseOutcome>, s: nat): nat {
    if outcomes == [] then 0
    else Survivors(outcomes[..|outcomes| - 1], s) + if outcomes[|outcomes| - 1].Reached() > s then 1 else 0
  }

  /** The runs that fell just short of rung `s`, by name and in order. */
  function Casualties(outcomes: seq<CaseOutcome>, s: nat): seq<string> {
    if outcomes == [] then []
    else
      var last := outcomes[|outcomes| - 1];
      Casualties(outcomes[..|outcomes| - 1], s) + if last.Reached() == s then [last.caseId] else []
  }

  function OffLadder(outcomes: seq<CaseOutcome>, stage: Stage): seq<string> {
    if outcomes == [] then []
    else
      var last := outcomes[|outcomes| - 1];
      OffLadder(outcomes[..|outcomes| - 1], stage) + if last.stage == stage then [last.caseId] else []
  }

  method BuildFunnel(outcomes: seq<CaseOutcome>) returns (f: Funnel)
    ensures |f.survivors| == |f.casualties| == STAGE_COUNT
    ensures forall s | 0 <= s < STAGE_COUNT :: f.survivors[s] == Survivors(outcomes, s)
    ensures forall s | 0 <= s < STAGE_COUNT :: f.casualties[s] == Casualties(outcomes, s)
    ensures f.notExtracted == OffLadder(outcomes, NotExtracted) && f.errored == OffLadder(outcomes, Errored)
  {
    var survivors: seq<nat> := [0, 0, 0, 0, 0];
    var casualties: seq<seq<string>> := [[], [], [], [], []];
    var notExtracted: seq<string>, errored: seq<string> := [], [];
    for n := 0 to |outcomes|
      invariant |survivors| == |casualties| == STAGE_COUNT
      invariant forall s | 0 <= s < STAGE_COUNT :: survivors[s] == Survivors(outcomes[..n], s)
      invariant forall s | 0 <= s < STAGE_COUNT :: casualties[s] == Casualties(outcomes[..n], s)
      invariant notExtracted == OffLadder(outcomes[..n], NotExtracted) && errored == OffLadder(outcomes[..n], Errored)
    {
      var o := outcomes[n];
      assert outcomes[..n + 1][..n] == outcomes[..n] && outcomes[..n + 1][n] == o;
      if !o.stage.OnLadder? {
        if o.stage.NotExtracted? {
          notExtracted := notExtracted + [o.caseId];
        } else {
          errored := errored + [o.caseId];
        }
        casualties := casualties[0 := casualties[0] + [o.caseId]];
        continue;
      }
      var reached := o.stage.rung;
      for i := 0 to STAGE_COUNT
        invariant |survivors| == STAGE_COUNT
        invariant forall s | 0 <= s < STAGE_COUNT ::
                    survivors[s] == if s < i then Survivors(outcomes[..n + 1], s) else Survivors(outcomes[..n], s)
      {
        if i <= reached {
          survivors := survivors[i := survivors[i] + 1];
        }
      }
      if reached + 1 < STAGE_COUNT {
        casualties := casualties[reached + 1 := casualties[reached + 1] + [o.caseId]];
      }
    }
    assert outcomes[..|outcomes|] == outcomes;
    return Funnel(survivors, casualties, notExtracted, errored);
  }

  function Fallen(outcomes: seq<CaseOutcome>, stages: nat): nat {
    if stages == 0 then 0 else Fallen(outcomes, stages - 1) + |Casualties(outcomes, stages - 1)|
  }

  lemma {:induction false} DropIsCasualties(outcomes: seq<CaseOutcome>, s: nat)
    ensures Survivors(outcomes, s) == Survivors(outcomes, s + 1) + |Casualties(outcomes, s + 1)|
  {
    if outcomes != [] {
      DropIsCasualties(outcomes[..|outcomes| - 1], s);
    }
  }

  lemma {:induction false} FirstStage(outcomes: seq<CaseOutcome>)
    ensures Survivors(outcomes, 0) + |Casualties(outcomes, 0)| == |outcomes|
    ensures |Casualties(outcomes, 0)| == |OffLadder(outcomes, NotExtracted)| + |OffLadder(outcomes, Errored)|
  {
    if outcomes != [] {
      FirstStage(outcomes[..|outcomes| - 1]);
    }
  }

  lemma {:induction false} FallenAndStanding(outcomes: seq<CaseOutcome>, s: nat)
    ensures Fallen(outcomes, s + 1) + Survivors(outcomes, s) == |outcomes|
  {
    if s == 0 {
      FirstStage(outcomes);
    } else {
      FallenAndStanding(outcomes, s - 1);
      DropIsCasualties(outcomes, s - 1);
    }
  }

  /** No run is lost: each drop is the casualties named at the later stage, and all casualties with the
      verified survivors are all runs. */
  lemma FunnelConserves(outcomes: seq<CaseOutcome>)
    ensures forall s | 0 <= s < VERIFIED ::
              Survivors(outcomes, s) == Survivors(outcomes, s + 1) + |Casualties(outcomes, s + 1)|
    ensures Survivors(outcomes, 0) + |OffLadder(outcomes, NotExtracted)| + |OffLadder(outcomes, Errored)| == |outcomes|
    ensures Fallen(outcomes, STAGE_COUNT) + Survivors(outcomes, VERIFIED) == |outcomes|
  {
    forall s | 0 <= s < VERIFIED
      ensures Survivors(outcomes, s) == Survivors(outcomes, s + 1) + |Casualties(outcomes, s + 1)|
    {
      DropIsCasualties(outcomes, s);
    }
    FirstStage(outcomes);
    FallenAndStanding(outcomes, VERIFIED);
  }

  /** The numerator of the interval. */
  function Successes(outcomes: seq<CaseOutcome>): nat {
    if outcomes == [] then 0
    else Successes(outcomes[..|outcomes| - 1]) + if outcomes[|outcomes| - 1].outcome == "passed_verified" then 1 else 0
  }

  /** The top of the funnel is the numerator of the interval when stage and outcome agree on every run. */
  lemma {:induction false} TopIsNumerator(outcomes: seq<CaseOutcome>)
    requires forall i | 0 <= i < |outcomes| ::
               outcomes[i].stage == OnLadder(VERIFIED) <==> outcomes[i].outcome == "passed_verified"
    ensures Survivors(outcomes, VERIFIED) == Successes(outcomes)
  {
    if outcomes != [] {
      var last := outcomes[|outcomes| - 1];
      TopIsNumerator(outcomes[..|outcomes| - 1]);
    }
  }
}
