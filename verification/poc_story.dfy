/** What a run of the loop comes to, told without the loop: as a list of attempts, each of them a chain of files
    that were run one after the other. */
module PocStory {
  import opened PocLoop
  import opened Wrappers

  /** The files run in turn, `files[i]` as run number `first + i`, and the code that is judged in the end. */
  datatype Attempt = Attempt(first: nat, files: seq<string>, judged: string) {
    ghost predicate Valid() {
      0 < |files| <= 1 + DET_REPAIR_ROUNDS
    }

    /** The number of the last run. */
    function Last(): nat
      requires files != []
    {
      first + |files| - 1
    }
  }

  predicate BuildsNot(env: Env, n: nat) {
    env.runs(n).Ran? && !env.runs(n).test.compiled
  }

  function TestOf(env: Env, n: nat): Test {
    if env.runs(n).Ran? then env.runs(n).test else Test(false, false, "")
  }

  /** Run number `n` was of `before` and built nothing, and `after` is its repair. */
  predicate IsRepair(env: Env, n: nat, before: string, after: string) {
    BuildsNot(env, n) && env.repair(before, TestOf(env, n).output) == (after, true)
  }

  /** Each file but the first is the repair of the one before. */
  ghost predicate Repairs(env: Env, a: Attempt) {
    forall i | 1 <= i < |a.files| :: IsRepair(env, a.first + i - 1, a.files[i - 1], a.files[i])
  }

  /** No more repairs: the last run broke down or was built, the rounds are used up, or none applies; then its
      answer is judged all the same. */
  ghost predicate Stops(env: Env, a: Attempt)
    requires a.Valid()
  {
    var code := a.files[|a.files| - 1];
    if !BuildsNot(env, a.Last()) || |a.files| == 1 + DET_REPAIR_ROUNDS then a.judged == code
    else env.repair(code, TestOf(env, a.Last()).output) == (a.judged, false)
  }

  ghost predicate IsAttempt(env: Env, a: Attempt) {
    && a.Valid() && Repairs(env, a) && (env.runs(a.first).Ran? ==> Stops(env, a))
    && (!env.runs(a.first).Ran? ==> |a.files| == 1 && a.judged == a.files[0])
  }

  /** The result that counts: that of the last run that did not break down. */
  ghost function Counting(env: Env, a: Attempt): Test
    requires IsAttempt(env, a) && env.runs(a.first).Ran?
  {
    TestOf(env, if env.runs(a.Last()).Ran? then a.Last() else a.Last() - 1)
  }

  /** A pass or, where that is enough, a build, without defects. */
  ghost predicate Good(env: Env, a: Attempt)
    requires IsAttempt(env, a) && env.runs(a.first).Ran?
  {
    && !env.defective(a.judged)
    && (Counting(env, a).passed || (Counting(env, a).compiled && !env.requirePassEffective))
  }

  /** Attempt number `k` is followed by the next one. */
  ghost predicate Follows(env: Env, k: nat, a: Attempt, b: Attempt)
    requires IsAttempt(env, a)
  {
    && env.runs(a.first).Ran? && !Good(env, a) && env.fixes(k).Some?
    && b.first == a.first + |a.files| && b.files != []
    && b.files[0] ==
       env.postmodel(if env.blank(env.fixes(k).value) && a.judged != "" then a.judged else env.fixes(k).value)
  }

  /** The attempts from number `k` on, the first of them with this code as run number `n`. */
  ghost predicate Story(env: Env, k: nat, attempts: nat, code: string, n: nat, story: seq<Attempt>) {
    && 0 < |story| <= attempts - k + 1
    && (forall i | 0 <= i < |story| :: IsAttempt(env, story[i]))
    && story[0].first == n && story[0].files[0] == code
    && (forall i | 1 <= i < |story| :: Follows(env, k + i - 1, story[i - 1], story[i]))
    && var last := story[|story| - 1];
       !env.runs(last.first).Ran? || Good(env, last) || |story| == attempts - k + 1 || env.fixes(k + |story| - 1).None?
  }

  /** The log holds the runs of an attempt, which began no earlier than run number `n`. */
  ghost predicate Holds(env: Env, a: Attempt, n: nat, log: seq<Entry>) {
    && n <= a.first && a.first + |a.files| <= |log|
    && forall i | 0 <= i < |a.files| :: log[a.first + i] == Entry(a.files[i], env.runs(a.first + i))
  }

  /** The log holds the runs of the story from run number `n` on, and nothing else. */
  ghost predicate Logs(env: Env, story: seq<Attempt>, n: nat, log: seq<Entry>) {
    && (forall j | 0 <= j < |story| :: Holds(env, story[j], n, log))
    && story != [] && |log| == story[|story| - 1].first + |story[|story| - 1].files|
  }

  /** The mutation is a fix that applies and builds. */
  predicate Checked(m: Mutation) {
    m.fix.Some? && m.applies && m.run.Ran? && m.run.test.compiled
  }

  /** What is reported when attempt number `k`, of `attempts`, is the last one. */
  ghost predicate Reported(env: Env, k: nat, attempts: nat, a: Attempt, outcome: Outcome)
    requires IsAttempt(env, a)
  {
    if !env.runs(a.first).Ran? then outcome == if env.runs(a.first).Unavailable? then SandboxUnavailable else RunError
    else
      var test, defects, m := Counting(env, a), env.defective(a.judged), env.mutations(k);
      var built := test.compiled && !test.passed;
      && (outcome == PassedVerified <==> test.passed && !defects && Checked(m) && !m.run.test.passed)
      && (outcome == UnverifiedPass <==> test.passed && !defects && Checked(m) && m.run.test.passed)
      && (outcome == PassedUnchecked <==> test.passed && !defects && !Checked(m))
      && (outcome == CompiledOnly <==> built && !defects && !env.requirePassEffective)
      && (outcome == FixFailed <==> !Good(env, a) && k < attempts)
      && (outcome == VacuousPass <==> test.passed && defects && k == attempts)
      && (outcome == RevertedExhausted <==> built && !defects && env.requirePassEffective && k == attempts)
      && (outcome == CompileOnlyDefective <==> built && defects && k == attempts)
      && (outcome == Exhausted <==> !test.passed && !test.compiled && k == attempts)
  }

  // ---- an attempt ----

  /** The repairs of a file that was run as run number `n`, up to `rounds` of them. */
  lemma {:induction false} RepairsAreAChain(env: Env, t: Trial, rounds: nat) returns (files: seq<string>)
    requires rounds <= DET_REPAIR_ROUNDS && |t.log| > 0 && t.code == t.disk
    requires t.log[|t.log| - 1] == Entry(t.code, env.runs(|t.log| - 1)) && env.runs(|t.log| - 1) == Ran(t.test)
    ensures ChainOf(env, t, rounds, Attempt(|t.log| - 1, files, Repaired(env, t, rounds).code))
    decreases rounds
  {
    files := [t.code];
    if rounds > 0 && !t.test.compiled {
      var fixed := env.repair(t.code, t.test.output);
      if fixed.1 {
        var r := env.runs(|t.log|);
        var log := t.log + [Entry(fixed.0, r)];
        if r.Ran? {
          var u := Trial(fixed.0, fixed.0, r.test, log);
          var more := RepairsAreAChain(env, u, rounds - 1);
          files := [t.code] + more;
          ChainGrows(env, t, u, rounds, more);
        } else {
          files := [t.code, fixed.0];
        }
      }
    }
  }

  /** The chain of files that a trial and its repairs run. */
  ghost predicate ChainOf(env: Env, t: Trial, rounds: nat, a: Attempt) {
    var u := Repaired(env, t, rounds);
    var last := a.first + |a.files| - 1;
    && 0 < |a.files| <= 1 + rounds && a.first == |t.log| - 1 && a.files[0] == t.code && a.judged == u.code
    && Repairs(env, a)
    && (if !BuildsNot(env, last) || |a.files| == 1 + rounds then a.judged == a.files[|a.files| - 1]
        else env.repair(a.files[|a.files| - 1], TestOf(env, last).output) == (a.judged, false))
    && u.disk == a.files[|a.files| - 1]
    && |u.log| == last + 1 && t.log <= u.log
    && Holds(env, a, a.first, u.log)
    && (env.runs(last).Ran? ==> u.test == TestOf(env, last))
    && (!env.runs(last).Ran? ==> |a.files| > 1 && u.test == TestOf(env, last - 1))
  }

  lemma ChainGrows(env: Env, t: Trial, u: Trial, rounds: nat, more: seq<string>)
    requires rounds > 0 && !t.test.compiled && |t.log| > 0 && env.runs(|t.log| - 1) == Ran(t.test)
    requires t.log[|t.log| - 1] == Entry(t.code, env.runs(|t.log| - 1))
    requires env.repair(t.code, t.test.output) == (u.code, true) && env.runs(|t.log|) == Ran(u.test)
    requires u == Trial(u.code, u.code, u.test, t.log + [Entry(u.code, env.runs(|t.log|))])
    requires ChainOf(env, u, rounds - 1, Attempt(|t.log|, more, Repaired(env, u, rounds - 1).code))
    ensures ChainOf(env, t, rounds, Attempt(|t.log| - 1, [t.code] + more, Repaired(env, t, rounds).code))
  {
    hide Repaired, Repairs, BuildsNot, Holds;
    var v := Repaired(env, u, rounds - 1);
    var a, b := Attempt(|t.log|, more, v.code), Attempt(|t.log| - 1, [t.code] + more, v.code);
    OneRepair(env, t, u, rounds);
    assert b.files[1..] == a.files && b.files[|b.files| - 1] == a.files[|a.files| - 1];
    assert BuildsNot(env, b.first) by { BuiltNothing(env, b.first, t.test); }
    assert IsRepair(env, b.first, b.files[0], a.files[0]);
    RepairsGrow(env, a, b);
    assert v.log[b.first] == u.log[b.first] == t.log[b.first];
    EntriesGrow(env, a, b, v.log);
  }

  lemma OneRepair(env: Env, t: Trial, u: Trial, rounds: nat)
    requires rounds > 0 && !t.test.compiled && env.repair(t.code, t.test.output) == (u.code, true)
    requires env.runs(|t.log|) == Ran(u.test)
    requires u == Trial(u.code, u.code, u.test, t.log + [Entry(u.code, env.runs(|t.log|))])
    ensures Repaired(env, t, rounds) == Repaired(env, u, rounds - 1)
  {
  }

  lemma BuiltNothing(env: Env, n: nat, test: Test)
    requires env.runs(n) == Ran(test) && !test.compiled
    ensures BuildsNot(env, n)
  {
  }

  lemma RepairsGrow(env: Env, a: Attempt, b: Attempt)
    requires a.files != [] && Repairs(env, a) && |b.files| == |a.files| + 1 && b.files[1..] == a.files
    requires a.first == b.first + 1 && IsRepair(env, b.first, b.files[0], a.files[0])
    ensures Repairs(env, b)
  {
    hide IsRepair;
    forall i | 1 <= i < |b.files| ensures IsRepair(env, b.first + i - 1, b.files[i - 1], b.files[i]) {
      assert b.files[i] == a.files[i - 1];
      if i > 1 {
        assert b.files[i - 1] == a.files[i - 2];
        assert IsRepair(env, a.first + (i - 1) - 1, a.files[i - 2], a.files[i - 1]);
      }
    }
  }

  lemma EntriesGrow(env: Env, a: Attempt, b: Attempt, log: seq<Entry>)
    requires |b.files| == |a.files| + 1 && b.files[1..] == a.files && a.first == b.first + 1
    requires Holds(env, a, a.first, log) && log[b.first] == Entry(b.files[0], env.runs(b.first))
    ensures Holds(env, b, b.first, log)
  {
    forall i | 0 <= i < |b.files| ensures log[b.first + i] == Entry(b.files[i], env.runs(b.first + i)) {
      if i > 0 {
        assert b.files[i] == a.files[i - 1];
        assert log[a.first + (i - 1)] == Entry(a.files[i - 1], env.runs(a.first + (i - 1)));
      }
    }
  }

  // ---- the loop ----

  /** Every run of the loop is a story, and reports what its last attempt comes to. */
  lemma {:induction false} PlayIsAStory(env: Env, k: nat, attempts: nat, code: string, log: seq<Entry>)
    returns (story: seq<Attempt>)
    requires 1 <= k <= attempts
    ensures Told(env, k, attempts, code, log, story, Play(env, k, attempts, code, log))
    decreases attempts - k
  {
    hide Repaired, Settled, Counting, ChainOf, Story, Logs, Reported, Good, NextCode;
    var r := env.runs(|log|);
    if !r.Ran? {
      story := [Attempt(|log|, [code], code)];
      BrokenDown(env, k, attempts, code, log);
    } else {
      var start := Trial(code, code, r.test, log + [Entry(code, r)]);
      var t := Repaired(env, start, DET_REPAIR_ROUNDS);
      var files := RepairsAreAChain(env, start, DET_REPAIR_ROUNDS);
      var a := Attempt(|log|, files, t.code);
      ChainIsAttempt(env, code, log, a);
      SettledMeans(env, k, attempts, a, t);
      if !Good(env, a) && k < attempts && env.fixes(k).Some? {
        var next := NextCode(env, t.code, env.fixes(k).value);
        var rest := PlayIsAStory(env, k + 1, attempts, next, t.log);
        story := [a] + rest;
        GoesOn(env, k, attempts, code, log, a, t.log, rest, Play(env, k + 1, attempts, next, t.log));
      } else {
        story := [a];
        LastAttemptTold(env, k, attempts, code, log, a, Play(env, k, attempts, code, log));
      }
    }
  }

  /** The story tells the run: it is one, the log holds its runs, the disk the file of the last one, and the
      outcome is that of the last attempt. */
  ghost predicate Told(env: Env, k: nat, attempts: nat, code: string, log: seq<Entry>, story: seq<Attempt>, p: Played) {
    && Story(env, k, attempts, code, |log|, story) && Logs(env, story, |log|, p.log) && log <= p.log
    && |log| < |p.log| && p.disk == p.log[|p.log| - 1].code
    && Reported(env, k + |story| - 1, attempts, story[|story| - 1], p.outcome)
  }

  lemma BrokenDown(env: Env, k: nat, attempts: nat, code: string, log: seq<Entry>)
    requires 1 <= k <= attempts && !env.runs(|log|).Ran?
    ensures Told(env, k, attempts, code, log, [Attempt(|log|, [code], code)], Play(env, k, attempts, code, log))
  {
  }

  lemma LastAttemptTold(env: Env, k: nat, attempts: nat, code: string, log: seq<Entry>, a: Attempt, p: Played)
    requires 1 <= k <= attempts && IsAttempt(env, a) && a.first == |log| && a.files[0] == code
    requires env.runs(a.first).Ran? && (Good(env, a) || k == attempts || env.fixes(k).None?)
    requires Logs(env, [a], |log|, p.log) && log <= p.log && p.log != [] && p.disk == p.log[|p.log| - 1].code
    requires Reported(env, k, attempts, a, p.outcome)
    ensures Told(env, k, attempts, code, log, [a], p)
  {
    hide Counting, Good, Reported;
    assert [a][0] == a;
  }

  lemma ChainIsAttempt(env: Env, code: string, log: seq<Entry>, a: Attempt)
    requires env.runs(|log|).Ran?
    requires ChainOf(env, Trial(code, code, env.runs(|log|).test, log + [Entry(code, env.runs(|log|))]),
                     DET_REPAIR_ROUNDS, a)
    ensures var t := Repaired(env, Trial(code, code, env.runs(|log|).test, log + [Entry(code, env.runs(|log|))]),
                              DET_REPAIR_ROUNDS);
            && IsAttempt(env, a) && a.first == |log| && a.files[0] == code && a.judged == t.code
            && Counting(env, a) == t.test && Logs(env, [a], |log|, t.log) && log < t.log
            && t.disk == t.log[|t.log| - 1].code
  {
    hide Repaired, Repairs;
    assert [a][0] == a;
  }

  /** What the tests at the end of an attempt come to. */
  lemma SettledMeans(env: Env, k: nat, attempts: nat, a: Attempt, t: Trial)
    requires 1 <= k <= attempts && IsAttempt(env, a) && env.runs(a.first).Ran?
    requires t.code == a.judged && t.test == Counting(env, a)
    ensures var settled := Settled(env, k, k == attempts, t);
            && (settled.None? <==> !Good(env, a) && k < attempts)
            && (settled.Some? ==> Reported(env, k, attempts, a, settled.value))
            && (settled.None? ==> Reported(env, k, attempts, a, FixFailed))
  {
    hide Counting, IsAttempt;
  }

  lemma GoesOn(env: Env, k: nat, attempts: nat, code: string, log: seq<Entry>, a: Attempt, between: seq<Entry>,
               rest: seq<Attempt>, p: Played)
    requires 1 <= k < attempts && IsAttempt(env, a) && a.first == |log| && a.files[0] == code
    requires env.runs(a.first).Ran? && !Good(env, a) && env.fixes(k).Some?
    requires Logs(env, [a], |log|, between) && log <= between
    requires Told(env, k + 1, attempts, NextCode(env, a.judged, env.fixes(k).value), between, rest, p)
    ensures Told(env, k, attempts, code, log, [a] + rest, p)
  {
    hide IsAttempt, Good, Reported, Logs, Story;
    StoryGrows(env, k, attempts, code, a, rest, between);
    LogsGrow(env, a, rest, between, p.log);
    NonEmptyStory(env, k + 1, attempts, NextCode(env, a.judged, env.fixes(k).value), |between|, rest);
    assert ([a] + rest)[|rest|] == rest[|rest| - 1];
  }

  lemma NonEmptyStory(env: Env, k: nat, attempts: nat, code: string, n: nat, story: seq<Attempt>)
    requires k <= attempts + 1 && Story(env, k, attempts, code, n, story)
    ensures story != []
  {
  }

  lemma StoryGrows(env: Env, k: nat, attempts: nat, code: string, a: Attempt, rest: seq<Attempt>, log: seq<Entry>)
    requires 1 <= k < attempts && IsAttempt(env, a) && a.files[0] == code
    requires env.runs(a.first).Ran? && !Good(env, a) && env.fixes(k).Some?
    requires Logs(env, [a], a.first, log)
    requires Story(env, k + 1, attempts, NextCode(env, a.judged, env.fixes(k).value), |log|, rest)
    ensures Story(env, k, attempts, code, a.first, [a] + rest)
  {
    hide IsAttempt, Good;
    var story := [a] + rest;
    assert |log| == a.first + |a.files| by { assert [a][0] == a; }
    assert rest[0].files != [] by { AttemptHasFiles(env, rest[0]); }
    assert Follows(env, k, a, rest[0]);
    hide Follows;
    forall i | 0 <= i < |story| ensures IsAttempt(env, story[i]) {
      if i > 0 {
        assert story[i] == rest[i - 1];
      }
    }
    forall i | 1 <= i < |story| ensures Follows(env, k + i - 1, story[i - 1], story[i]) {
      assert story[i] == rest[i - 1];
      if i > 1 {
        assert story[i - 1] == rest[i - 2];
        assert Follows(env, k + 1 + (i - 1) - 1, rest[i - 2], rest[i - 1]);
      }
    }
  }

  lemma AttemptHasFiles(env: Env, a: Attempt)
    requires IsAttempt(env, a)
    ensures a.files != []
  {
  }

  lemma LogsGrow(env: Env, a: Attempt, rest: seq<Attempt>, log: seq<Entry>, all: seq<Entry>)
    requires log <= all && Logs(env, [a], a.first, log) && Logs(env, rest, |log|, all)
    ensures Logs(env, [a] + rest, a.first, all)
  {
    hide Holds;
    var story := [a] + rest;
    assert [a][0] == a;
    HoldsLater(env, a, a.first, log, a.first, all);
    forall j | 0 <= j < |story| ensures Holds(env, story[j], a.first, all) {
      if j > 0 {
        assert story[j] == rest[j - 1];
        HoldsLater(env, rest[j - 1], |log|, all, a.first, all);
      }
    }
  }

  lemma HoldsLater(env: Env, a: Attempt, n: nat, log: seq<Entry>, m: nat, all: seq<Entry>)
    requires Holds(env, a, n, log) && m <= n && log <= all
    ensures Holds(env, a, m, all)
  {
  }
}
