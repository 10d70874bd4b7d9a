/** What the final severities, links and chains are, in terms of the findings as they come in. */
module Stage3Meaning {
  import opened Segments
  import opened Selection
  import opened Stage3
  import opened Wrappers

  /** One more precondition of a finding counts if it is active. */
  lemma ActiveCountIs(preconditions: map<int, bool>, k: int, active: bool)
    requires k !in preconditions
    ensures ActiveCount(preconditions[k := active]) == ActiveCount(preconditions) + if active then 1 else 0
  {
    var before := set j | j in preconditions && preconditions[j];
    var more := preconditions[k := active];
    assert (set j | j in more && more[j]) == before + if active then {k} else {};
  }

  lemma NoneIsActive()
    ensures ActiveCount(map[]) == 0
  {
  }

  lemma FileIs(f: Finding, file: string)
    ensures f.File() == file <==> IsFirst(f.location, ':', file)
  {
    FirstSegmentIs(f.location, ':', file);
  }

  lemma FunctionIs(f: Finding, name: string)
    ensures f.Function() == name <==> IsLast(f.location, ':', name)
  {
    hide IsLast;
    LastSegmentIs(f.location, ':');
    if IsLast(f.location, ':', name) {
      OnlyOneLast(f.location, ':', name, f.Function());
    }
  }

  /** The finding is high or critical once corrected, and nothing mitigates it. */
  predicate IsSevere(f: Finding, severity: Severity) {
    |f.mitigations| == 0 && Corrected(f, severity) in {High, Critical}
  }

  /** Two findings of one file whose functions interfere, or whose file has no graph. */
  ghost predicate Chained(sigs: Interferences, f: Finding, g: Finding) {
    exists file | IsFirst(f.location, ':', file) && IsFirst(g.location, ':', file) ::
      file !in sigs ||
      exists a, b | IsLast(f.location, ':', a) && IsLast(g.location, ':', b) :: sigs[file](a, b)
  }

  lemma ChainedIs(sigs: Interferences, f: Finding, g: Finding)
    ensures f != g && Chained(sigs, f, g) <==> g.File() == f.File() && Interacts(sigs, f, g)
  {
    hide IsFirst, IsLast, FirstSegment, LastSegment;
    forall file { FileIs(f, file); }
    forall file { FileIs(g, file); }
    forall name { FunctionIs(f, name); }
    forall name { FunctionIs(g, name); }
  }

  /** A finding is elevated when it is severe and so is another one that it is chained with. */
  lemma ElevatedIs(sigs: Interferences, before: Severities, f: Finding)
    requires f in before
    ensures Elevated(sigs, before, f) <==>
            IsSevere(f, before[f]) && exists g | g in before && g != f :: IsSevere(g, before[g]) && Chained(sigs, f, g)
  {
    hide Chained, Interacts, Corrected, Finding.File;
    forall g | g in before { ChainedIs(sigs, f, g); }
    forall g | g in before ensures IsSevere(g, before[g]) <==> Severe(g, Corrected(g, before[g])) { }
  }

  /** The final severity: critical for the elevated; for any other finding the severity that the two rules allow it
      and that is nearest to the one it came in with. */
  lemma FinalIs(sigs: Interferences, before: Severities, f: Finding, other: Severity)
    requires f in before
    ensures Elevated(sigs, before, f) ==> Final(sigs, before, f) == Critical
    ensures var active := |set k | k in f.preconditions && f.preconditions[k]|;
            var final := Final(sigs, before, f);
            !Elevated(sigs, before, f) ==>
              && Allowed(final, active, |f.mitigations| > 0)
              && (Allowed(other, active, |f.mitigations| > 0) ==>
                    Distance(before[f], final) < Distance(before[f], other) || final == other)
  {
    hide Elevated, CheckSeverity;
    forall o | Allowed(o, f.Active(), f.Mitigated()) { NearestAllowed(before[f], f.Active(), f.Mitigated(), o); }
    assert Allowed(if f.Mitigated() then Medium else High, f.Active(), f.Mitigated());
  }

  // ---- groups, links and chains ----

  function OfFile(file: string): Finding -> bool {
    (f: Finding) => f.File() == file
  }

  function InteractsWith(sigs: Interferences, f: Finding): Finding -> bool {
    (g: Finding) => Interacts(sigs, f, g)
  }

  ghost function IsElevated(sigs: Interferences, before: Severities): Finding -> bool {
    (f: Finding) => f in before && Elevated(sigs, before, f)
  }

  const SAME: Finding -> Finding := (f: Finding) => f

  const ID: Finding -> string := (f: Finding) => f.findingId

  /** The group of a file are its findings, in order. */
  lemma {:induction false} GroupIs(findings: seq<Finding>, file: string)
    ensures Picks(findings, OfFile(file), SAME, Group(findings, file))
  {
    hide Picks, Finding.File;
    if findings == [] {
      PicksNothing(OfFile(file), SAME);
    } else {
      var init, last := findings[..|findings| - 1], findings[|findings| - 1];
      GroupIs(init, file);
      PicksMore(init, OfFile(file), SAME, Group(init, file), last);
      assert findings == init + [last];
    }
  }

  /** The links of a finding are the ids of those of its group that it interacts with, in order; one that is alone in
      its file keeps its own. */
  lemma LinksAre(sigs: Interferences, f: Finding, group: seq<Finding>, links: seq<string>)
    ensures |group| >= 2 ==> Picks(group, InteractsWith(sigs, f), ID, NewLinks(sigs, group, f, links))
    ensures |group| <= 1 ==> NewLinks(sigs, group, f, links) == links
  {
    hide Picks, LinkedIds, InteractsWith;
    LinkedAre(sigs, f, group);
  }

  lemma {:induction false} LinkedAre(sigs: Interferences, f: Finding, group: seq<Finding>)
    ensures Picks(group, InteractsWith(sigs, f), ID, LinkedIds(sigs, f, group))
  {
    hide Picks, Interacts;
    if group == [] {
      PicksNothing(InteractsWith(sigs, f), ID);
    } else {
      var init, last := group[..|group| - 1], group[|group| - 1];
      LinkedAre(sigs, f, init);
      PicksMore(init, InteractsWith(sigs, f), ID, LinkedIds(sigs, f, init), last);
      assert group == init + [last];
    }
  }

  /** The chain of a file names its elevated findings, in order, if there are any. */
  lemma ChainIs(sigs: Interferences, before: Severities, file: string, group: seq<Finding>)
    requires forall f | f in group :: f in before
    ensures var chain := Chains(sigs, before, file, group);
            && (chain == [] <==> forall f | f in group :: !Elevated(sigs, before, f))
            && (chain != [] ==> |chain| == 1 && chain[0].file == file
                                && Picks(group, IsElevated(sigs, before), ID, chain[0].findingIds))
  {
    hide Picks, Elevated;
    IdsOfElevated(sigs, before, group);
    var es := ElevatedOf(sigs, before, group);
    if es != [] {
      assert es[0] in es;
    }
  }

  lemma {:induction false} IdsOfElevated(sigs: Interferences, before: Severities, group: seq<Finding>)
    requires forall f | f in group :: f in before
    ensures Picks(group, IsElevated(sigs, before), ID, IdsOf(ElevatedOf(sigs, before, group)))
  {
    hide Picks, Elevated;
    if group == [] {
      PicksNothing(IsElevated(sigs, before), ID);
      assert IdsOf([]) == [];
    } else {
      var init, last := group[..|group| - 1], group[|group| - 1];
      IdsOfElevated(sigs, before, init);
      var es := ElevatedOf(sigs, before, init);
      PicksMore(init, IsElevated(sigs, before), ID, IdsOf(es), last);
      assert group == init + [last];
      assert IdsOf(es + [last]) == IdsOf(es) + [last.findingId];
    }
  }
}
