/** The loop that drafts a proof of concept, runs it, repairs it and decides what it is worth. The model, the
    sandbox and the deterministic fixers are arbitrary. */
module PocLoop {
  import opened Wrappers

  // ---- what the loop meets ----

  /** The exit was clean, and the output shows that the suite was built and run. */
  datatype Test = Test(passed: bool, compiled: bool, output: string)

  datatype RunResult = Unavailable | Crashed | Ran(test: Test)

  datatype Outcome =
    | DraftFailed | Unknown | SandboxUnavailable | RunError | FixFailed
    | PassedVerified | PassedUnchecked | UnverifiedPass | CompiledOnly
    | VacuousPass | RevertedExhausted | CompileOnlyDefective | Exhausted

  // ---- the check of a pass against the fix of the bug ----

  /** The fix found for the finding, whether it applies to a copy of the sources, and the run on that copy. */
  datatype Mutation = Mutation(fix: Option<string>, applies: bool, run: RunResult)

  datatype Verdict = Verified | StillPasses | Unchecked(reason: string)

  /** A pass is verified exactly when the fixed sources build and the test then fails; it is turned down
      exactly when they build and it still passes; nothing else counts against it. */
  function MutationVerify(m: Mutation): (v: Verdict)
    ensures v == Verified <==> m.fix.Some? && m.applies && m.run.Ran? && m.run.test.compiled && !m.run.test.passed
    ensures v == StillPasses <==> m.fix.Some? && m.applies && m.run.Ran? && m.run.test.compiled && m.run.test.passed
    ensures v == Unchecked("no_fix") <==> m.fix.None?
    ensures v == Unchecked("patch_failed") <==> m.fix.Some? && !m.applies
    ensures v == Unchecked("infra") <==> m.fix.Some? && m.applies && !m.run.Ran?
    ensures v == Unchecked("patched_no_build") <==> m.fix.Some? && m.applies && m.run.Ran? && !m.run.test.compiled
  {
    if m.fix.None? then Unchecked("no_fix")
    else if !m.applies then Unchecked("patch_failed")
    else if !m.run.Ran? then Unchecked("infra")
    else if !m.run.test.compiled then Unchecked("patched_no_build")
    else if m.run.test.passed then StillPasses
    else Verified
  }

  // ---- the loop, as a function ----

  const DET_REPAIR_ROUNDS := 2

  datatype Env = Env(
    runs: nat -> RunResult,                          // of the k-th drafting run
    fixes: nat -> Option<string>,                    // the model's reply after an attempt; none when it is down
    mutations: nat -> Mutation,                      // met when the pass of an attempt is checked
    repair: (string, string) -> (string, bool),      // in-place fixers: code and output to code; did one apply
    postmodel: string -> string,
    defective: string -> bool,
    blank: string -> bool,
    requirePassEffective: bool)

  /** A file that was run, and what came of it. */
  datatype Entry = Entry(code: string, result: RunResult)

  /** An attempt under way: the code at hand, the file, the test result that counts, all runs so far. */
  datatype Trial = Trial(code: string, disk: string, test: Test, log: seq<Entry>)

  /** In-place repairs of a file that does not compile. A run that breaks down keeps the earlier result. */
  function Repaired(env: Env, t: Trial, rounds: nat): Trial
    decreases rounds
  {
    if rounds == 0 || t.test.compiled then t
    else
      var fixed := env.repair(t.code, t.test.output);
      if !fixed.1 then t.(code := fixed.0)
      else
        var r := env.runs(|t.log|);
        var log := t.log + [Entry(fixed.0, r)];
        if r.Ran? then Repaired(env, Trial(fixed.0, fixed.0, r.test, log), rounds - 1)
        else Trial(fixed.0, fixed.0, t.test, log)
  }

  function PassOutcome(v: Verdict): Outcome {
    match v
    case Verified => PassedVerified
    case StillPasses => UnverifiedPass
    case Unchecked(_) => PassedUnchecked
  }

  /** What an attempt comes to, if it ends the loop. */
  function Settled(env: Env, attempt: nat, last: bool, t: Trial): Option<Outcome> {
    var defects := env.defective(t.code);
    if t.test.passed && !defects then Some(PassOutcome(MutationVerify(env.mutations(attempt))))
    else if t.test.compiled && !defects && !env.requirePassEffective then Some(CompiledOnly)
    else if last then
      Some(if t.test.passed then VacuousPass
           else if t.test.compiled && !defects then RevertedExhausted
           else if t.test.compiled then CompileOnlyDefective
           else Exhausted)
    else None
  }

  /** The code of the next attempt; a reply without code keeps the last one. */
  function NextCode(env: Env, code: string, reply: string): string {
    env.postmodel(if env.blank(reply) && code != "" then code else reply)
  }

  datatype Played = Played(outcome: Outcome, disk: string, log: seq<Entry>, final: Option<Trial>)

  function Play(env: Env, attempt: nat, attempts: nat, code: string, log: seq<Entry>): Played
    requires 1 <= attempt <= attempts
    decreases attempts - attempt
  {
    var r := env.runs(|log|);
    var log' := log + [Entry(code, r)];
    if r.Unavailable? then Played(SandboxUnavailable, code, log', None)
    else if r.Crashed? then Played(RunError, code, log', None)
    else
      var t := Repaired(env, Trial(code, code, r.test, log'), DET_REPAIR_ROUNDS);
      var settled := Settled(env, attempt, attempt == attempts, t);
      if settled.Some? then Played(settled.value, t.disk, t.log, Some(t))
      else
        var reply := env.fixes(attempt);
        if reply.None? then Played(FixFailed, t.disk, t.log, Some(t))
        else Play(env, attempt + 1, attempts, NextCode(env, t.code, reply.value), t.log)
  }

  // ---- the loop itself ----

  class Workspace {
    /** The file under the test directory, and the one in quarantine. */
    var poc: Option<string>
    var quarantined: Option<string>

    method WritePoc(code: string)
      modifies this`poc
      ensures poc == Some(code)
    {
      poc := Some(code);
    }

    /** Runs the code, repairs it in place while it does not compile. */
    method RunAndRepair(env: Env, code: string, log: seq<Entry>) returns (first: RunResult, t: Trial)
      modifies this`poc
      ensures first == env.runs(|log|)
      ensures first.Ran? ==>
                t == Repaired(env, Trial(code, code, first.test, log + [Entry(code, first)]), DET_REPAIR_ROUNDS)
      ensures !first.Ran? ==> t.disk == code && t.log == log + [Entry(code, first)]
      ensures poc == Some(t.disk)
    {
      WritePoc(code);
      first := env.runs(|log|);
      var runs := log + [Entry(code, first)];
      if !first.Ran? {
        t := Trial(code, code, Test(false, false, ""), runs);
        return;
      }
      var current, test := code, first.test;
      t := Trial(current, current, test, runs);
      ghost var start := t;
      for round := 0 to DET_REPAIR_ROUNDS
        invariant t == Trial(current, current, test, runs) && poc == Some(current)
        invariant Repaired(env, t, DET_REPAIR_ROUNDS - round) == Repaired(env, start, DET_REPAIR_ROUNDS)
      {
        if test.compiled {
          return;
        }
        var fixed := env.repair(current, test.output);
        if !fixed.1 {
          t := t.(code := fixed.0);
          return;
        }
        current := fixed.0;
        WritePoc(current);
        var again := env.runs(|runs|);
        runs := runs + [Entry(current, again)];
        t := Trial(current, current, test, runs);
        if !again.Ran? {
          return;
        }
        test := again.test;
        t := Trial(current, current, test, runs);
      }
    }

    /** A finding from draft to verdict; a file that did not make it goes to quarantine. */
    method ProcessFinding(env: Env, draft: Option<string>, attempts: nat) returns (outcome: Outcome, log: seq<Entry>)
      modifies this
      ensures draft.None? || env.blank(draft.value) ==>
                outcome == DraftFailed && log == [] && poc == old(poc) && quarantined == old(quarantined)
      ensures draft.Some? && !env.blank(draft.value) && attempts == 0 ==>
                outcome == Unknown && log == [] && poc == old(poc) && quarantined == old(quarantined)
      ensures draft.Some? && !env.blank(draft.value) && attempts > 0 ==>
                var played := Play(env, 1, attempts, env.postmodel(draft.value), []);
                && outcome == played.outcome && log == played.log
                && if outcome == PassedVerified || outcome == PassedUnchecked || outcome == CompiledOnly
                   then poc == Some(played.disk) && quarantined == old(quarantined)
                   else poc == None && quarantined == Some(played.disk)
    {
      hide Repaired;
      if draft.None? || env.blank(draft.value) {
        return DraftFailed, [];
      }
      var code := env.postmodel(draft.value);
      outcome, log := Unknown, [];
      var written: Option<string> := None;
      for attempt := 1 to attempts + 1
        invariant attempt == 1 ==>
                  outcome == Unknown && written.None? && poc == old(poc) && code == env.postmodel(draft.value)
                                   && log == []
        invariant attempt > 1 ==> written.Some? && poc == written
        invariant quarantined == old(quarantined)
        invariant 0 < attempt <= attempts ==>
                    Play(env, attempt, attempts, code, log) == Play(env, 1, attempts, env.postmodel(draft.value), [])
        invariant attempts > 0 ==> attempt <= attempts
      {
        var first, t := RunAndRepair(env, code, log);
        log, written := t.log, Some(t.disk);
        if first.Unavailable? {
          outcome := SandboxUnavailable;
          break;
        }
        if first.Crashed? {
          outcome := RunError;
          break;
        }
        code := t.code;
        var settled := Decide(env, attempt, attempt == attempts, t);
        if settled.Some? {
          outcome := settled.value;
          break;
        }
        var reply := env.fixes(attempt);
        if reply.None? {
          outcome := FixFailed;
          break;
        }
        var next := reply.value;
        if env.blank(next) && code != "" {
          next := code;
        }
        code := env.postmodel(next);
      }
      if outcome !in {PassedVerified, PassedUnchecked, CompiledOnly} && written.Some? {
        quarantined, poc := written, None;
      }
    }
  }

  method Decide(env: Env, attempt: nat, last: bool, t: Trial) returns (o: Option<Outcome>)
    ensures o == Settled(env, attempt, last, t)
    ensures o.Some? ==> Means(env, o.value, t)
    ensures o.None? ==>
              !last && (env.defective(t.code) || (!t.test.passed && (t.test.compiled ==> env.requirePassEffective)))
  {
    var defects := env.defective(t.code);
    var realPass := t.test.passed && !defects;
    var compiledReal := t.test.compiled && !defects;
    if realPass {
      var verdict := MutationVerify(env.mutations(attempt));
      if verdict == Verified {
        return Some(PassedVerified);
      } else if verdict == StillPasses {
        return Some(UnverifiedPass);
      } else {
        return Some(PassedUnchecked);
      }
    }
    if compiledReal && !env.requirePassEffective {
      return Some(CompiledOnly);
    }
    if last {
      return Some(if t.test.passed then VacuousPass
                  else if t.test.compiled && !defects then RevertedExhausted
                  else if t.test.compiled then CompileOnlyDefective
                  else Exhausted);
    }
    return None;
  }

  // ---- what every run of the loop shows ----

  /** The result that counts is that of the last run, or of the one before it when the last broke down; a
      result that compiled is always that of the file as it is. */
  ghost predicate Sound(t: Trial) {
    && |t.log| > 0 && t.log[|t.log| - 1].code == t.disk
    && (t.log[|t.log| - 1].result.Ran? ==> t.log[|t.log| - 1].result.test == t.test)
    && (!t.log[|t.log| - 1].result.Ran? ==>
          |t.log| > 1 && t.log[|t.log| - 2].result == Ran(t.test) && !t.test.compiled)
    && (t.test.compiled ==> t.code == t.disk)
  }

  lemma {:induction false} RepairedIsSound(env: Env, t: Trial, rounds: nat)
    requires Sound(t) && t.log[|t.log| - 1].result.Ran? && t.code == t.disk
    ensures Sound(Repaired(env, t, rounds))
    ensures t.log <= Repaired(env, t, rounds).log && |Repaired(env, t, rounds).log| <= |t.log| + rounds
    decreases rounds
  {
    if rounds == 0 || t.test.compiled {
    } else {
      var fixed := env.repair(t.code, t.test.output);
      if fixed.1 {
        var r := env.runs(|t.log|);
        var log := t.log + [Entry(fixed.0, r)];
        if r.Ran? {
          RepairedIsSound(env, Trial(fixed.0, fixed.0, r.test, log), rounds - 1);
        }
      }
    }
  }

  /** Every attempt ends in a sound trial. */
  lemma AttemptIsSound(env: Env, code: string, log: seq<Entry>, test: Test)
    requires env.runs(|log|) == Ran(test)
    ensures var t := Repaired(env, Trial(code, code, test, log + [Entry(code, Ran(test))]), DET_REPAIR_ROUNDS);
            && Sound(t) && log <= t.log && |log| < |t.log| <= |log| + 1 + DET_REPAIR_ROUNDS
            && log + [Entry(code, Ran(test))] <= t.log
  {
    RepairedIsSound(env, Trial(code, code, test, log + [Entry(code, Ran(test))]), DET_REPAIR_ROUNDS);
  }

  lemma SettledIsAssigned(env: Env, attempt: nat, last: bool, t: Trial)
    ensures var o := Settled(env, attempt, last, t);
            (last ==> o.Some?) && (o.Some? ==> o.value != Unknown && o.value != DraftFailed)
  {
    hide MutationVerify;
  }

  /** With at least one attempt the loop ends with an assigned outcome, within its budget of runs; what it
      leaves on disk is what it ran last. */
  lemma {:induction false} LoopSettles(env: Env, attempt: nat, attempts: nat, code: string, log: seq<Entry>)
    requires 1 <= attempt <= attempts
    ensures var p := Play(env, attempt, attempts, code, log);
            && p.outcome != Unknown && p.outcome != DraftFailed
            && log <= p.log && |log| < |p.log| <= |log| + (attempts - attempt + 1) * (1 + DET_REPAIR_ROUNDS)
            && p.log[|p.log| - 1].code == p.disk
    decreases attempts - attempt
  {
    hide Repaired, Settled;
    var r := env.runs(|log|);
    if r.Ran? {
      AttemptIsSound(env, code, log, r.test);
      var t := Repaired(env, Trial(code, code, r.test, log + [Entry(code, r)]), DET_REPAIR_ROUNDS);
      SettledIsAssigned(env, attempt, attempt == attempts, t);
      if Settled(env, attempt, attempt == attempts, t).None? && env.fixes(attempt).Some? {
        LoopSettles(env, attempt + 1, attempts, NextCode(env, t.code, env.fixes(attempt).value), t.log);
      }
    }
  }

  /** What the outcome says about the test result that counts and about the code it was judged with. */
  ghost predicate Means(env: Env, o: Outcome, t: Trial) {
    var defects := env.defective(t.code);
    && (o == PassedVerified || o == PassedUnchecked || o == UnverifiedPass ==> t.test.passed && !defects)
    && (o == CompiledOnly ==> t.test.compiled && !t.test.passed && !defects && !env.requirePassEffective)
    && (o == VacuousPass ==> t.test.passed && defects)
    && (o == RevertedExhausted ==> !t.test.passed && t.test.compiled && !defects && env.requirePassEffective)
    && (o == CompileOnlyDefective ==> !t.test.passed && t.test.compiled && defects)
    && (o == Exhausted ==> !t.test.passed && !t.test.compiled)
  }

  lemma {:induction false} LoopMeans(env: Env, attempt: nat, attempts: nat, code: string, log: seq<Entry>)
    requires 1 <= attempt <= attempts
    ensures var p := Play(env, attempt, attempts, code, log);
            if p.final.None? then p.outcome == SandboxUnavailable || p.outcome == RunError
            else Sound(p.final.value) && Means(env, p.outcome, p.final.value)
                 && p.disk == p.final.value.disk && p.log == p.final.value.log
    decreases attempts - attempt
  {
    hide Repaired, Sound, MutationVerify;
    var r := env.runs(|log|);
    if r.Ran? {
      AttemptIsSound(env, code, log, r.test);
      var t := Repaired(env, Trial(code, code, r.test, log + [Entry(code, r)]), DET_REPAIR_ROUNDS);
      if Settled(env, attempt, attempt == attempts, t).None? && env.fixes(attempt).Some? {
        LoopMeans(env, attempt + 1, attempts, NextCode(env, t.code, env.fixes(attempt).value), t.log);
      }
    }
  }

  /** A file reported as compiled is exactly the code of the last run, which compiled, and is free of
      defects, whatever repairs and broken-down runs came before. */
  lemma CompiledIsOfTheFile(env: Env, attempts: nat, code: string)
    requires attempts > 0 && Play(env, 1, attempts, code, []).outcome == CompiledOnly
    ensures var p := Play(env, 1, attempts, code, []);
            && |p.log| > 0 && p.log[|p.log| - 1].code == p.disk && !env.defective(p.disk)
            && p.log[|p.log| - 1].result.Ran? && p.log[|p.log| - 1].result.test.compiled
  {
    hide Play;
    LoopMeans(env, 1, attempts, code, []);
  }

  // ---- what a reported pass is worth ----

  predicate Passed(o: Outcome) {
    o == PassedVerified || o == PassedUnchecked || o == UnverifiedPass
  }

  /** The last run was of the file as it is, built it and passed, and the file has no defects. */
  predicate BuiltPass(env: Env, p: Played) {
    && |p.log| > 0 && p.log[|p.log| - 1].code == p.disk && !env.defective(p.disk)
    && p.log[|p.log| - 1].result.Ran?
    && p.log[|p.log| - 1].result.test.passed && p.log[|p.log| - 1].result.test.compiled
  }

  /** Run number `n`, of `code`, builds nothing, and neither does any of up to `rounds` repairs that follow it:
      none applies, or the run after one breaks down, or that run builds nothing either. */
  predicate StaysUnbuilt(env: Env, code: string, n: nat, rounds: nat)
    decreases rounds
  {
    && env.runs(n).Ran? && !env.runs(n).test.compiled
    && var fixed := env.repair(code, env.runs(n).test.output);
       rounds == 0 || !fixed.1 || !env.runs(n + 1).Ran? || StaysUnbuilt(env, fixed.0, n + 1, rounds - 1)
  }

  lemma {:induction false} UnbuiltAfterRepair(env: Env, t: Trial, rounds: nat)
    requires |t.log| > 0 && env.runs(|t.log| - 1) == Ran(t.test)
    ensures !Repaired(env, t, rounds).test.compiled <==> StaysUnbuilt(env, t.code, |t.log| - 1, rounds)
    ensures exists k :: env.runs(k) == Ran(Repaired(env, t, rounds).test)
    decreases rounds
  {
    if rounds > 0 && !t.test.compiled {
      var fixed := env.repair(t.code, t.test.output);
      var r := env.runs(|t.log|);
      if fixed.1 && r.Ran? {
        UnbuiltAfterRepair(env, Trial(fixed.0, fixed.0, r.test, t.log + [Entry(fixed.0, r)]), rounds - 1);
      }
    }
  }

  /** How the last attempt began: the number of its first run, and the code of that run. */
  function LastAttempt(env: Env, attempt: nat, attempts: nat, code: string, log: seq<Entry>): (nat, string)
    requires 1 <= attempt <= attempts
    decreases attempts - attempt
  {
    var r := env.runs(|log|);
    if !r.Ran? then (|log|, code)
    else
      var t := Repaired(env, Trial(code, code, r.test, log + [Entry(code, r)]), DET_REPAIR_ROUNDS);
      if attempt == attempts || Settled(env, attempt, false, t).Some? || env.fixes(attempt).None? then (|log|, code)
      else LastAttempt(env, attempt + 1, attempts, NextCode(env, t.code, env.fixes(attempt).value), t.log)
  }

  /** A reported pass is that of a built, defect-free file exactly when the last attempt, from its first run on,
      does not stay unbuilt; what counts is what the repairs made of that run. */
  lemma {:induction false} PassIsBuilt(env: Env, attempt: nat, attempts: nat, code: string, log: seq<Entry>)
    requires 1 <= attempt <= attempts && Passed(Play(env, attempt, attempts, code, log).outcome)
    ensures var p := Play(env, attempt, attempts, code, log);
            var (n, tried) := LastAttempt(env, attempt, attempts, code, log);
            && |log| <= n < |p.log| && p.log[n] == Entry(tried, env.runs(n)) && env.runs(n).Ran?
            && p.final == Some(Repaired(env, Trial(tried, tried, env.runs(n).test, p.log[..n + 1]), DET_REPAIR_ROUNDS))
            && (BuiltPass(env, p) <==> !StaysUnbuilt(env, tried, n, DET_REPAIR_ROUNDS))
    decreases attempts - attempt
  {
    hide Repaired, MutationVerify, StaysUnbuilt, Sound;
    var r := env.runs(|log|);
    var start := Trial(code, code, r.test, log + [Entry(code, r)]);
    var t := Repaired(env, start, DET_REPAIR_ROUNDS);
    AttemptIsSound(env, code, log, r.test);
    SameUnlessLast(env, attempt, t);
    if Settled(env, attempt, attempt == attempts, t).Some? {
      UnbuiltAfterRepair(env, start, DET_REPAIR_ROUNDS);
      LogKept(start.log, t.log, |log|);
      SoundPass(env, t, Play(env, attempt, attempts, code, log));
    } else {
      PassIsBuilt(env, attempt + 1, attempts, NextCode(env, t.code, env.fixes(attempt).value), t.log);
    }
  }

  /** Being the last attempt makes no difference to what settles as a pass. */
  lemma SameUnlessLast(env: Env, attempt: nat, t: Trial)
    ensures Settled(env, attempt, false, t).Some? ==> Settled(env, attempt, true, t) == Settled(env, attempt, false, t)
  {
  }

  /** With a single attempt: a reported pass is real exactly when the draft does not stay unbuilt. */
  lemma SinglePassIsBuilt(env: Env, code: string)
    requires Passed(Play(env, 1, 1, code, []).outcome)
    ensures BuiltPass(env, Play(env, 1, 1, code, [])) <==> !StaysUnbuilt(env, code, 0, DET_REPAIR_ROUNDS)
  {
    hide Play, Repaired, StaysUnbuilt, BuiltPass;
    PassIsBuilt(env, 1, 1, code, []);
  }

  /** The result that counts for a pass is that of some clean exit; the pass is real if that run built. */
  lemma PassHasARun(env: Env, attempt: nat, attempts: nat, code: string, log: seq<Entry>) returns (k: nat)
    requires 1 <= attempt <= attempts && Passed(Play(env, attempt, attempts, code, log).outcome)
    ensures env.runs(k).Ran? && env.runs(k).test.passed
    ensures BuiltPass(env, Play(env, attempt, attempts, code, log)) <==> env.runs(k).test.compiled
  {
    hide Play, Repaired, StaysUnbuilt, LastAttempt;
    var p := Play(env, attempt, attempts, code, log);
    var (n, tried) := LastAttempt(env, attempt, attempts, code, log);
    PassIsBuilt(env, attempt, attempts, code, log);
    LoopMeans(env, attempt, attempts, code, log);
    UnbuiltAfterRepair(env, Trial(tried, tried, env.runs(n).test, p.log[..n + 1]), DET_REPAIR_ROUNDS);
    k :| env.runs(k) == Ran(p.final.value.test);
  }

  lemma LogKept(a: seq<Entry>, b: seq<Entry>, n: nat)
    requires n + 1 == |a| && a <= b
    ensures b[n] == a[n] && b[..n + 1] == a
  {
  }

  lemma SoundPass(env: Env, t: Trial, p: Played)
    requires Sound(t) && p.disk == t.disk && p.log == t.log && t.test.passed && !env.defective(t.code)
    ensures BuiltPass(env, p) <==> t.test.compiled
  {
  }

  /** If every clean exit of a run means that something was built, then every reported pass is that of a
      built, defect-free file. */
  lemma CleanExitsMakePassesReal(env: Env, attempts: nat, code: string)
    requires attempts > 0 && Passed(Play(env, 1, attempts, code, []).outcome)
    requires forall k | env.runs(k).Ran? && env.runs(k).test.passed :: env.runs(k).test.compiled
    ensures BuiltPass(env, Play(env, 1, attempts, code, []))
  {
    hide Play;
    var k := PassHasARun(env, 1, attempts, code, []);
  }

  /** A run that exits cleanly without building anything, and no repair for it: a pass is reported for a file
      that was never built. */
  lemma AnUnbuiltPass(code: string)
    ensures var env := BuildsNothing();
            var p := Play(env, 1, 1, code, []);
            && p.outcome == PassedUnchecked && p.disk == code && p.log == [Entry(code, Ran(Test(true, false, "")))]
            && !BuiltPass(env, p)
  {
    var env, clean := BuildsNothing(), Ran(Test(true, false, ""));
    var log := [] + [Entry(code, clean)];
    assert log == [Entry(code, clean)];
    assert Repaired(env, Trial(code, code, clean.test, log), 2) == Trial(code, code, clean.test, log);
  }

  function BuildsNothing(): Env {
    Env((k: nat) => Ran(Test(true, false, "")), (k: nat) => None,
        (k: nat) => Mutation(None, false, Crashed), (c: string, o: string) => (c, false),
        (c: string) => c, (c: string) => false, (c: string) => c == "", false)
  }

  /** A run that exits cleanly without building anything, a repair, and a second run that breaks down: the
      pass of the first run is reported for the repaired file, which never ran to an end. */
  lemma AStalePass(before: string, after: string)
    ensures var clean := Ran(Test(true, false, ""));
            var env := BreaksDownOnce(after);
            var p := Play(env, 1, 1, before, []);
            p.outcome == PassedUnchecked && p.disk == after && p.log == [Entry(before, clean), Entry(after, Crashed)]
  {
    var env, clean := BreaksDownOnce(after), Ran(Test(true, false, ""));
    var log := [] + [Entry(before, clean)];
    assert log == [Entry(before, clean)];
    var t := Trial(before, before, clean.test, log);
    assert Repaired(env, t, 2) == Trial(after, after, clean.test, log + [Entry(after, Crashed)]);
  }

  function BreaksDownOnce(after: string): Env {
    Env((k: nat) => if k == 0 then Ran(Test(true, false, "")) else Crashed, (k: nat) => None,
        (k: nat) => Mutation(None, false, Crashed), (c: string, o: string) => (after, true),
        (c: string) => c, (c: string) => false, (c: string) => c == "", false)
  }
}
