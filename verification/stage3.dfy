/** Severity correction of findings, and the linking and elevation of those that interact. */
module Stage3 {
  import opened Wrappers
  import opened Segments
  import opened Selection
  import Sig

  datatype Severity = Informational | Low | Medium | High | Critical {
    function Rank(): nat {
      match this
      case Informational => 0
      case Low => 1
      case Medium => 2
      case High => 3
      case Critical => 4
    }
  }

  // ---- the severity rules ----

  datatype Correction = Downgraded(from: Severity) | Upgraded(from: Severity, activePreconditions: nat)

  datatype Verdict = Verdict(original: Severity, corrected: Option<Severity>, reason: Option<Correction>) {
    function Final(): Severity {
      if corrected.Some? then corrected.value else original
    }
  }

  /** A mitigation caps the severity at medium; four active preconditions without one floor it at
      high. */
  function CheckSeverity(severity: Severity, active: nat, mitigated: bool): (v: Verdict)
    ensures v.original == severity
    ensures mitigated ==> v.Final().Rank() <= Medium.Rank()
    ensures !mitigated && active >= 4 ==> v.Final().Rank() >= High.Rank()
    ensures v.corrected.Some? <==> v.Final() != severity
    ensures v.corrected.Some? <==> v.reason.Some?
  {
    if mitigated && severity.Rank() > Medium.Rank() then
      Verdict(severity, Some(Medium), Some(Downgraded(severity)))
    else if active >= 4 && !mitigated && severity.Rank() < High.Rank() then
      Verdict(severity, Some(High), Some(Upgraded(severity, active)))
    else Verdict(severity, None, None)
  }

  /** A severity that both rules allow: no mitigated finding above medium, none with four active preconditions
      and no mitigation below high. */
  predicate Allowed(severity: Severity, active: nat, mitigated: bool) {
    && (mitigated ==> severity in {Informational, Low, Medium})
    && (!mitigated && active >= 4 ==> severity in {High, Critical})
  }

  /** Steps between two severities, on the scale from informational to critical. */
  function Distance(a: Severity, b: Severity): nat {
    if a.Rank() < b.Rank() then b.Rank() - a.Rank() else a.Rank() - b.Rank()
  }

  /** The scale, and so the distance, is the one of the five severities in their order. */
  lemma ScaleOfSeverities()
    ensures Distance(Informational, Low) == 1 && Distance(Low, Medium) == 1
    ensures Distance(Medium, High) == 1 && Distance(High, Critical) == 1
    ensures forall a, b, c | Distance(a, b) == Distance(a, c) == 1 && b != c :: Distance(b, c) == 2
  {
  }

  /** The correction is the least one: the severity the rules allow that is nearest to the one that came in, which
      is that one itself if they allow it. */
  lemma NearestAllowed(severity: Severity, active: nat, mitigated: bool, other: Severity)
    requires Allowed(other, active, mitigated)
    ensures var final := CheckSeverity(severity, active, mitigated).Final();
            && Allowed(final, active, mitigated)
            && (Distance(severity, final) < Distance(severity, other) || final == other)
            && (Allowed(severity, active, mitigated) ==> final == severity)
  {
  }

  /** The reason given is that of the correction made. */
  lemma ReasonOfCorrection(severity: Severity, active: nat, mitigated: bool)
    ensures var v := CheckSeverity(severity, active, mitigated);
            && (v.reason == Some(Downgraded(severity)) <==> v.Final().Rank() < severity.Rank())
            && (v.reason == Some(Upgraded(severity, active)) <==> v.Final().Rank() > severity.Rank())
            && (v.reason == None <==> v.Final() == severity)
  {
  }

  // ---- findings ----

  function ActiveCount(preconditions: map<int, bool>): nat {
    |set k | k in preconditions && preconditions[k]|
  }

  class Finding {
    const findingId: string
    const location: string
    const preconditions: map<int, bool>
    const mitigations: seq<string>
    var severity: Severity
    var combinedWith: seq<string>

    constructor (findingId: string, location: string, preconditions: map<int, bool>, mitigations: seq<string>,
                 severity: Severity)
      ensures this.findingId == findingId && this.location == location && this.preconditions == preconditions
      ensures this.mitigations == mitigations && this.severity == severity && combinedWith == []
    {
      this.findingId, this.location := findingId, location;
      this.preconditions, this.mitigations := preconditions, mitigations;
      this.severity, combinedWith := severity, [];
    }

    function File(): string {
      FirstSegment(location, ':')
    }

    function Function(): string {
      LastSegment(location, ':')
    }

    function Active(): nat {
      ActiveCount(preconditions)
    }

    predicate Mitigated() {
      |mitigations| > 0
    }
  }

  /** Which functions of a file interfere. */
  type Interference = (string, string) -> bool

  type Interferences = map<string, Interference>

  ghost predicate Symmetric(sigs: Interferences) {
    forall file, a, b | file in sigs :: sigs[file](a, b) == sigs[file](b, a)
  }

  /** The interference of a state interference graph is symmetric. */
  lemma GraphIsSymmetric(sig: Sig.StateInterferenceGraph)
    ensures forall a, b :: sig.Interferes(a, b) == sig.Interferes(b, a)
  {
    forall a, b ensures sig.Interferes(a, b) == sig.Interferes(b, a) {
      if a in sig.functions && b in sig.functions {
        var fa, fb := sig.functions[a], sig.functions[b];
        assert fa.writeSet * (fb.readSet + fb.writeSet) == (fb.readSet + fb.writeSet) * fa.writeSet;
      }
    }
  }

  /** Two findings of one file interact: without a graph for the file, any two do. */
  predicate Interacts(sigs: Interferences, a: Finding, b: Finding) {
    a != b && (a.File() !in sigs || sigs[a.File()](a.Function(), b.Function()))
  }

  // ---- the result, as a function of the findings alone ----

  /** The severities that findings come in with. */
  type Severities = map<Finding, Severity>

  function Corrected(f: Finding, severity: Severity): Severity {
    CheckSeverity(severity, f.Active(), f.Mitigated()).Final()
  }

  predicate Severe(f: Finding, severity: Severity) {
    severity.Rank() >= High.Rank() && !f.Mitigated()
  }

  /** The finding is severe once corrected, and so is another one of its file that it interacts with. */
  ghost predicate Elevated(sigs: Interferences, before: Severities, f: Finding)
    requires f in before
  {
    && Severe(f, Corrected(f, before[f]))
    && exists g | g in before :: g.File() == f.File() && Severe(g, Corrected(g, before[g])) && Interacts(sigs, f, g)
  }

  ghost function Final(sigs: Interferences, before: Severities, f: Finding): Severity
    requires f in before
  {
    if Elevated(sigs, before, f) then Critical else Corrected(f, before[f])
  }

  ghost function Finals(sigs: Interferences, before: Severities): Severities {
    map f | f in before :: Final(sigs, before, f)
  }

  lemma CorrectingTwice(f: Finding, severity: Severity)
    ensures Corrected(f, Corrected(f, severity)) == Corrected(f, severity)
  {
  }

  lemma SevereStaysSevere(sigs: Interferences, before: Severities, f: Finding)
    requires f in before
    ensures var after := Finals(sigs, before);
            && Corrected(f, after[f]) == after[f]
            && (Severe(f, after[f]) <==> Severe(f, Corrected(f, before[f])))
  {
    hide FirstSegment, LastSegment, ActiveCount;
  }

  /** Running the stage on its own result changes no severity. */
  lemma StageIsIdempotent(sigs: Interferences, before: Severities)
    ensures Finals(sigs, Finals(sigs, before)) == Finals(sigs, before)
  {
    hide Corrected, Severe, Interacts;
    var after := Finals(sigs, before);
    forall f | f in before ensures Final(sigs, after, f) == after[f] {
      forall g | g in before { SevereStaysSevere(sigs, before, g); }
      assert Elevated(sigs, after, f) <==> Elevated(sigs, before, f);
    }
  }

  /** What the rules guarantee of the final severities. */
  lemma FinalBounds(sigs: Interferences, before: Severities, f: Finding)
    requires f in before
    ensures f.Mitigated() ==> Final(sigs, before, f).Rank() <= Medium.Rank()
    ensures !f.Mitigated() && f.Active() >= 4 ==> Final(sigs, before, f).Rank() >= High.Rank()
    ensures Final(sigs, before, f).Rank() >= Corrected(f, before[f]).Rank()
  {
    hide FirstSegment, LastSegment, ActiveCount, Interacts;
  }

  /** Nobody is elevated alone: the partner is elevated too. */
  lemma ElevatedInPairs(sigs: Interferences, before: Severities, f: Finding)
    requires Symmetric(sigs) && f in before && Elevated(sigs, before, f)
    ensures exists g | g in before && g != f && g.File() == f.File() ::
            Elevated(sigs, before, g) && Interacts(sigs, f, g)
  {
    hide Corrected, Severe;
    var g :| g in before && g.File() == f.File() && Severe(g, Corrected(g, before[g])) && Interacts(sigs, f, g);
    assert Interacts(sigs, g, f);
    assert Elevated(sigs, before, g);
  }

  // ---- the stage itself ----

  ghost function SeveritiesOf(findings: seq<Finding>): Severities
    reads findings
  {
    map f | f in findings :: f.severity
  }

  /** The findings of one file, in order. */
  function Group(findings: seq<Finding>, file: string): (g: seq<Finding>)
    ensures forall f | f in g :: f in findings && f.File() == file
    ensures forall f | f in findings :: f.File() == file ==> f in g
  {
    if findings == [] then []
    else
      var before, last := Group(findings[..|findings| - 1], file), findings[|findings| - 1];
      assert findings == findings[..|findings| - 1] + [last];
      if last.File() == file then before + [last] else before
  }

  lemma GroupMembers(findings: seq<Finding>, file: string, before: Severities)
    requires forall f :: f in before <==> f in findings
    ensures forall f :: f in Group(findings, file) <==> f in before && f.File() == file
  {
  }

  lemma NoGroup(findings: seq<Finding>, file: string)
    requires forall f | f in findings :: f.File() != file
    ensures Group(findings, file) == []
  {
  }

  /** The ids of the findings of a group that interact with `f`, in order. */
  function LinkedIds(sigs: Interferences, f: Finding, group: seq<Finding>): seq<string> {
    if group == [] then []
    else
      var before, last := LinkedIds(sigs, f, group[..|group| - 1]), group[|group| - 1];
      if Interacts(sigs, f, last) then before + [last.findingId] else before
  }

  /** The findings of `fs` that are elevated, in order. */
  ghost function ElevatedOf(sigs: Interferences, before: Severities, fs: seq<Finding>): (es: seq<Finding>)
    requires forall f | f in fs :: f in before
    ensures forall f | f in es :: f in fs && Elevated(sigs, before, f)
    ensures forall f | f in fs :: Elevated(sigs, before, f) ==> f in es
  {
    hide Elevated;
    if fs == [] then []
    else
      var es, last := ElevatedOf(sigs, before, fs[..|fs| - 1]), fs[|fs| - 1];
      assert fs == fs[..|fs| - 1] + [last];
      if Elevated(sigs, before, last) then es + [last] else es
  }

  /** The findings of `fs` that are severe once corrected, in order. */
  ghost function SevereOf(before: Severities, fs: seq<Finding>): (es: seq<Finding>)
    requires forall f | f in fs :: f in before
    ensures forall f | f in es :: f in fs && Severe(f, Corrected(f, before[f]))
    ensures forall f | f in fs :: Severe(f, Corrected(f, before[f])) ==> f in es
  {
    hide Severe, Corrected;
    if fs == [] then []
    else
      var es, last := SevereOf(before, fs[..|fs| - 1]), fs[|fs| - 1];
      assert fs == fs[..|fs| - 1] + [last];
      if Severe(last, Corrected(last, before[last])) then es + [last] else es
  }

  /** Only severe findings are elevated. */
  lemma {:induction false} ElevatedAmongSevere(sigs: Interferences, before: Severities, fs: seq<Finding>)
    requires forall f | f in fs :: f in before
    ensures ElevatedOf(sigs, before, SevereOf(before, fs)) == ElevatedOf(sigs, before, fs)
  {
    hide Corrected, Severe, Interacts;
    if fs == [] {
    } else {
      var init, last := fs[..|fs| - 1], fs[|fs| - 1];
      ElevatedAmongSevere(sigs, before, init);
      if Severe(last, Corrected(last, before[last])) {
        assert SevereOf(before, fs)[..|SevereOf(before, fs)| - 1] == SevereOf(before, init);
      }
    }
  }

  function IdsOf(fs: seq<Finding>): seq<string> {
    seq(|fs|, i requires 0 <= i < |fs| => fs[i].findingId)
  }

  /** The links of `f` after the stage: a finding alone in its file keeps its own. */
  function NewLinks(sigs: Interferences, group: seq<Finding>, f: Finding, links: seq<string>): seq<string> {
    if |group| < 2 then links else LinkedIds(sigs, f, group)
  }

  datatype Combination = Combination(file: string, findingIds: seq<string>)

  method LinkGroup(sigs: Interferences, group: seq<Finding>)
    modifies group
    ensures forall f | f in group :: f.combinedWith == LinkedIds(sigs, f, group) && f.severity == old(f.severity)
  {
    hide Interacts;
    for i := 0 to |group|
      invariant forall f | f in group :: f.severity == old(f.severity)
      invariant forall f | f in group[..i] :: f.combinedWith == LinkedIds(sigs, f, group)
    {
      var ids: seq<string> := [];
      for j := 0 to |group|
        invariant ids == LinkedIds(sigs, group[i], group[..j])
      {
        assert group[..j + 1][..j] == group[..j];
        if Interacts(sigs, group[i], group[j]) {
          ids := ids + [group[j].findingId];
        }
      }
      assert group[..|group|] == group;
      group[i].combinedWith := ids;
      assert group[..i + 1] == group[..i] + [group[i]];
    }
    assert group[..|group|] == group;
  }

  /** The severe findings of a group, in order. */
  method FindSevere(group: seq<Finding>, ghost before: Severities) returns (severe: seq<Finding>)
    requires forall f | f in group :: f in before && f.severity == Corrected(f, before[f])
    ensures severe == SevereOf(before, group)
  {
    hide Severe, Corrected;
    severe := [];
    for i := 0 to |group|
      invariant severe == SevereOf(before, group[..i])
    {
      assert group[..i + 1][..i] == group[..i];
      if Severe(group[i], group[i].severity) {
        severe := severe + [group[i]];
      }
    }
    assert group[..|group|] == group;
  }

  /** Those of the severe findings that interact with another of them, in order. */
  method FindInteracting(sigs: Interferences, severe: seq<Finding>, ghost before: Severities)
    returns (elevate: seq<Finding>)
    requires forall f | f in severe ::
               f in before && (Elevated(sigs, before, f) <==> exists g | g in severe :: Interacts(sigs, f, g))
    ensures elevate == ElevatedOf(sigs, before, severe)
  {
    hide Interacts, Elevated;
    elevate := [];
    for i := 0 to |severe|
      invariant elevate == ElevatedOf(sigs, before, severe[..i])
    {
      assert severe[..i + 1][..i] == severe[..i];
      assert severe[i] in severe;
      if exists g | g in severe :: Interacts(sigs, severe[i], g) {
        elevate := elevate + [severe[i]];
      }
    }
    assert severe[..|severe|] == severe;
  }

  method FindElevated(sigs: Interferences, file: string, group: seq<Finding>, ghost before: Severities)
    returns (elevate: seq<Finding>)
    requires forall f :: f in group <==> f in before && f.File() == file
    requires forall f | f in group :: f.severity == Corrected(f, before[f])
    ensures elevate == ElevatedOf(sigs, before, group)
  {
    hide Interacts, Severe, Corrected, Elevated, ElevatedOf;
    var severe := FindSevere(group, before);
    forall f | f in severe { PartnerIsSevere(sigs, before, file, group, f); }
    elevate := FindInteracting(sigs, severe, before);
    ElevatedAmongSevere(sigs, before, group);
  }

  lemma PartnerIsSevere(sigs: Interferences, before: Severities, file: string, group: seq<Finding>, f: Finding)
    requires forall g :: g in group <==> g in before && g.File() == file
    requires f in SevereOf(before, group)
    ensures Elevated(sigs, before, f) <==> exists g | g in SevereOf(before, group) :: Interacts(sigs, f, g)
  {
    hide Interacts, Severe, Corrected;
    if Elevated(sigs, before, f) {
      var g :| g in before && g.File() == f.File() && Severe(g, Corrected(g, before[g])) && Interacts(sigs, f, g);
      assert g in group;
      assert g in SevereOf(before, group);
    }
  }

  /** One elevated finding comes with another. */
  lemma ElevatedTogether(sigs: Interferences, before: Severities, file: string, group: seq<Finding>)
    requires Symmetric(sigs)
    requires forall f :: f in group <==> f in before && f.File() == file
    ensures var es := ElevatedOf(sigs, before, group); es != [] ==> |es| >= 2
    ensures |group| < 2 ==> ElevatedOf(sigs, before, group) == []
  {
    hide Corrected, Severe, Interacts, Symmetric, Elevated;
    var es := ElevatedOf(sigs, before, group);
    if es != [] {
      var f := es[0];
      ElevatedInPairs(sigs, before, f);
      var g :| g in before && g != f && g.File() == f.File() && Elevated(sigs, before, g) && Interacts(sigs, f, g);
      assert g in group && f in group;
      assert g in es;
    }
  }

  /** What one group of findings adds to the combinations. */
  ghost function Chains(sigs: Interferences, before: Severities, file: string, group: seq<Finding>): seq<Combination>
    requires forall f | f in group :: f in before
  {
    var es := ElevatedOf(sigs, before, group);
    if es == [] then [] else [Combination(file, IdsOf(es))]
  }

  /** One group: links its findings and elevates those that form a chain. */
  method ProcessGroup(sigs: Interferences, file: string, group: seq<Finding>, ghost before: Severities)
    returns (combinations: seq<Combination>)
    requires Symmetric(sigs)
    requires forall f :: f in group <==> f in before && f.File() == file
    requires forall f | f in group :: f.severity == Corrected(f, before[f])
    modifies group
    ensures forall f | f in group :: f.severity == Final(sigs, before, f)
    ensures forall f | f in group :: f.combinedWith == NewLinks(sigs, group, f, old(f.combinedWith))
    ensures combinations == Chains(sigs, before, file, group)
  {
    hide Corrected, Severe, Interacts, Symmetric, Elevated, ElevatedOf;
    ElevatedTogether(sigs, before, file, group);
    if |group| < 2 {
      return [];
    }
    LinkGroup(sigs, group);
    var elevate := FindElevated(sigs, file, group, before);
    combinations := [];
    if |elevate| >= 2 {
      for i := 0 to |elevate|
        invariant forall f | f in group ::
                    f.severity == (if f in elevate[..i] then Critical else Corrected(f, before[f]))
        invariant forall f | f in group :: f.combinedWith == LinkedIds(sigs, f, group)
      {
        assert elevate[i] in elevate;
        elevate[i].severity := Critical;
        assert elevate[..i + 1] == elevate[..i] + [elevate[i]];
      }
      assert elevate[..|elevate|] == elevate;
      combinations := [Combination(file, IdsOf(elevate))];
    }
  }

  /** Pass 2 is over for the findings of these files, and the others are as they came: corrected, and with the
      links they had. */
  ghost predicate Halfway(sigs: Interferences, before: Severities, links: map<Finding, seq<string>>,
                          findings: seq<Finding>, done: set<string>)
    requires forall f | f in findings :: f in before && f in links
    reads findings
  {
    forall f | f in findings ::
      if f.File() in done then
        f.severity == Final(sigs, before, f)
        && f.combinedWith == NewLinks(sigs, Group(findings, f.File()), f, links[f])
      else f.severity == Corrected(f, before[f]) && f.combinedWith == links[f]
  }

  /** The group of one file, seen among all findings: those of other files are left alone. */
  method ProcessFile(sigs: Interferences, findings: seq<Finding>, file: string, group: seq<Finding>,
                     ghost before: Severities, ghost links: map<Finding, seq<string>>, ghost done: set<string>)
    returns (combinations: seq<Combination>)
    requires Symmetric(sigs)
    requires forall f :: f in before <==> f in findings
    requires forall f | f in findings :: f in links
    requires group == Group(findings, file)
    requires file !in done && Halfway(sigs, before, links, findings, done)
    modifies findings
    ensures Halfway(sigs, before, links, findings, done + {file})
    ensures combinations == Chains(sigs, before, file, group)
  {
    hide Corrected, Severe, Interacts, Symmetric, Elevated, Chains, FirstSegment, Final, Group, NewLinks, Finding.File;
    GroupMembers(findings, file, before);
    assert forall k | 0 <= k < |group| :: group[k] in findings;
    combinations := ProcessGroup(sigs, file, group, before);
  }

  /** The findings that are corrected, by the place at which they first occur. */
  function CorrectedFirst(findings: seq<Finding>, before: Severities): int -> bool
    requires forall f | f in findings :: f in before
  {
    (i: int) => 0 <= i < |findings| && findings[i] !in findings[..i]
                && Corrected(findings[i], before[findings[i]]) != before[findings[i]]
  }

  function ReasonAt(findings: seq<Finding>, before: Severities): int -> Option<Correction>
    requires forall f | f in findings :: f in before
  {
    (i: int) => if 0 <= i < |findings|
                then CheckSeverity(before[findings[i]], findings[i].Active(), findings[i].Mitigated()).reason else None
  }

  /** A finding is corrected when it first occurs, and for the reason it came in with. */
  lemma CorrectedWhenFirst(findings: seq<Finding>, before: Severities, i: nat, severity: Severity)
    requires i < |findings| && forall f | f in findings :: f in before
    requires var f := findings[i]; severity == if f in findings[..i] then Corrected(f, before[f]) else before[f]
    ensures var f := findings[i];
            var verdict := CheckSeverity(severity, f.Active(), f.Mitigated());
            && verdict.Final() == Corrected(f, before[f])
            && (verdict.corrected.Some? <==> CorrectedFirst(findings, before)(i))
            && (verdict.corrected.Some? ==> verdict.reason.Some? && ReasonAt(findings, before)(i) == verdict.reason)
  {
    hide FirstSegment, LastSegment, ActiveCount;
    CorrectingTwice(findings[i], before[findings[i]]);
  }

  /** One more finding of pass 1. */
  lemma ReasonsGoOn(findings: seq<Finding>, before: Severities, i: nat, corrections: seq<Correction>, r: Correction)
    requires i < |findings| && forall f | f in findings :: f in before
    requires Picks(Numbers(i), CorrectedFirst(findings, before), ReasonAt(findings, before), Somes(corrections))
    ensures var picked := CorrectedFirst(findings, before)(i);
            (picked ==> ReasonAt(findings, before)(i) == Some(r)) ==>
              Picks(Numbers(i + 1), CorrectedFirst(findings, before), ReasonAt(findings, before),
                    Somes(if picked then corrections + [r] else corrections))
  {
    hide Picks;
    PicksMore(Numbers(i), CorrectedFirst(findings, before), ReasonAt(findings, before), Somes(corrections), i);
    assert Numbers(i) + [i] == Numbers(i + 1);
    assert Somes(corrections + [r]) == Somes(corrections) + [Some(r)];
  }

  /** Pass 1 is over for the first `n` findings of the list. */
  ghost predicate PartCorrected(findings: seq<Finding>, before: Severities, links: map<Finding, seq<string>>, n: nat)
    requires n <= |findings| && forall f | f in findings :: f in before && f in links
    reads findings
  {
    forall f | f in findings ::
      && f.severity == (if f in findings[..n] then Corrected(f, before[f]) else before[f])
      && f.combinedWith == links[f]
  }

  /** The findings corrected among the first `n`. */
  ghost function CorrectedUpTo(findings: seq<Finding>, before: Severities, n: nat): set<Finding>
    requires n <= |findings| && forall f | f in findings :: f in before
  {
    set f | f in findings[..n] && Corrected(f, before[f]) != before[f]
  }

  lemma OneMoreCorrected(findings: seq<Finding>, before: Severities, n: nat)
    requires n < |findings| && forall f | f in findings :: f in before
    ensures |CorrectedUpTo(findings, before, n + 1)| ==
            |CorrectedUpTo(findings, before, n)| + if CorrectedFirst(findings, before)(n) then 1 else 0
  {
    hide Corrected;
    var f, done := findings[n], CorrectedUpTo(findings, before, n);
    assert findings[..n + 1] == findings[..n] + [f];
    assert CorrectedUpTo(findings, before, n + 1) == done + if Corrected(f, before[f]) != before[f] then {f} else {};
    assert f in done <==> f in findings[..n] && Corrected(f, before[f]) != before[f];
    assert f in done ==> done + {f} == done;
  }

  /** One finding of pass 1, and why it was corrected, if it was. */
  method CorrectNext(findings: seq<Finding>, i: nat, ghost before: Severities, ghost links: map<Finding, seq<string>>)
    returns (correction: Option<Correction>)
    requires i < |findings| && forall f | f in findings :: f in before && f in links
    requires PartCorrected(findings, before, links, i)
    modifies findings
    ensures PartCorrected(findings, before, links, i + 1)
    ensures correction == if CorrectedFirst(findings, before)(i) then ReasonAt(findings, before)(i) else None
    ensures correction.Some? <==> CorrectedFirst(findings, before)(i)
  {
    hide CheckSeverity, Corrected, CorrectedFirst, ReasonAt;
    var f := findings[i];
    var verdict := CheckSeverity(f.severity, f.Active(), f.Mitigated());
    CorrectedWhenFirst(findings, before, i, f.severity);
    assert findings[..i + 1] == findings[..i] + [f];
    correction := None;
    if verdict.corrected.Some? {
      f.severity := verdict.Final();
      correction := Some(verdict.reason.value);
    }
  }

  /** Pass 1: every finding gets its corrected severity. */
  method CorrectAll(findings: seq<Finding>, ghost before: Severities) returns (corrections: seq<Correction>)
    requires before == SeveritiesOf(findings)
    modifies findings
    ensures forall f | f in findings :: f.severity == Corrected(f, before[f]) && f.combinedWith == old(f.combinedWith)
    ensures |corrections| == |set f | f in before && Corrected(f, before[f]) != before[f]|
    ensures Picks(Numbers(|findings|), CorrectedFirst(findings, before), ReasonAt(findings, before), Somes(corrections))
  {
    hide Corrected, Picks, CorrectedFirst, ReasonAt;
    corrections := [];
    ghost var links := map f | f in findings :: f.combinedWith;
    PicksNothing(CorrectedFirst(findings, before), ReasonAt(findings, before));
    assert Numbers(0) == [] && Somes<Correction>([]) == [];
    for i := 0 to |findings|
      invariant PartCorrected(findings, before, links, i)
      invariant |corrections| == |CorrectedUpTo(findings, before, i)|
      invariant Picks(Numbers(i), CorrectedFirst(findings, before), ReasonAt(findings, before), Somes(corrections))
    {
      hide PartCorrected, CorrectedUpTo;
      var correction := CorrectNext(findings, i, before, links);
      OneMoreCorrected(findings, before, i);
      ReasonsGoOn(findings, before, i, corrections, if correction.Some? then correction.value else Downgraded(Low));
      if correction.Some? {
        corrections := corrections + [correction.value];
      }
    }
    assert findings[..|findings|] == findings;
    assert CorrectedUpTo(findings, before, |findings|) == set f | f in before && Corrected(f, before[f]) != before[f];
  }

  /** Pass 2 starts by grouping the findings by file, in order of first appearance. */
  method GroupByFile(findings: seq<Finding>) returns (files: seq<string>, groups: map<string, seq<Finding>>)
    ensures Distinct(files)
    ensures forall file :: file in groups <==> file in files
    ensures forall file | file in groups :: groups[file] == Group(findings, file)
    ensures forall f | f in findings :: f.File() in groups
  {
    hide FirstSegment;
    files, groups := [], map[];
    for i := 0 to |findings|
      invariant Distinct(files)
      invariant forall file :: file in groups <==> file in files
      invariant forall file | file in groups :: groups[file] == Group(findings[..i], file)
      invariant forall f | f in findings[..i] :: f.File() in groups
    {
      var f := findings[i];
      var file := f.File();
      assert findings[..i + 1] == findings[..i] + [f] && findings[..i + 1][..i] == findings[..i];
      if file !in groups {
        NoGroup(findings[..i], file);
        files, groups := files + [file], groups[file := []];
      }
      groups := groups[file := groups[file] + [f]];
    }
    assert findings[..|findings|] == findings;
  }

  ghost function ChainsOf(sigs: Interferences, before: Severities, findings: seq<Finding>, files: seq<string>)
    : seq<Combination>
    requires forall f | f in findings :: f in before
  {
    if files == [] then []
    else
      var last := files[|files| - 1];
      ChainsOf(sigs, before, findings, files[..|files| - 1]) + Chains(sigs, before, last, Group(findings, last))
  }

  /** The whole stage. */
  method RunStage3(findings: seq<Finding>, sigs: Interferences)
    returns (corrections: seq<Correction>, combinations: seq<Combination>, files: seq<string>)
    requires Symmetric(sigs)
    modifies findings
    ensures SeveritiesOf(findings) == Finals(sigs, old(SeveritiesOf(findings)))
    ensures forall f | f in findings ::
              f.combinedWith == NewLinks(sigs, Group(findings, f.File()), f, old(f.combinedWith))
    ensures var before := old(SeveritiesOf(findings));
            |corrections| == |set f | f in before && Corrected(f, before[f]) != before[f]|
    ensures var before := old(SeveritiesOf(findings));
            Picks(Numbers(|findings|), CorrectedFirst(findings, before), ReasonAt(findings, before), Somes(corrections))
    ensures Distinct(files)
    ensures forall f | f in findings :: f.File() in files
    ensures combinations == ChainsOf(sigs, old(SeveritiesOf(findings)), findings, files)
  {
    hide Picks, CorrectedFirst, ReasonAt, Corrected, Elevated, Chains, ChainsOf, FirstSegment, Final, Group, NewLinks,
      Finding.File, Symmetric;
    ghost var before := SeveritiesOf(findings);
    corrections := CorrectAll(findings, before);
    assert forall f | f in findings :: f.combinedWith == old(f.combinedWith);
    files, combinations := LinkAndElevate(findings, sigs, before);
  }

  /** Pass 2. */
  method LinkAndElevate(findings: seq<Finding>, sigs: Interferences, ghost before: Severities)
    returns (files: seq<string>, combinations: seq<Combination>)
    requires Symmetric(sigs)
    requires forall f :: f in before <==> f in findings
    requires forall f | f in findings :: f.severity == Corrected(f, before[f])
    modifies findings
    ensures forall f | f in findings ::
              && f.severity == Final(sigs, before, f)
              && f.combinedWith == NewLinks(sigs, Group(findings, f.File()), f, old(f.combinedWith))
    ensures Distinct(files)
    ensures forall f | f in findings :: f.File() in files
    ensures combinations == ChainsOf(sigs, before, findings, files)
  {
    hide Corrected, Interacts, Symmetric, Chains, FirstSegment, Final, Group, NewLinks, Finding.File, Distinct;
    var groups;
    files, groups := GroupByFile(findings);
    combinations := [];
    ghost var links := map f | f in findings :: f.combinedWith;
    ghost var done: set<string> := {};
    for i := 0 to |files|
      invariant forall file :: file in done <==> file in files[..i]
      invariant Halfway(sigs, before, links, findings, done)
      invariant combinations == ChainsOf(sigs, before, findings, files[..i])
    {
      hide Halfway;
      NotSeenBefore(files, i);
      var more := ProcessFile(sigs, findings, files[i], groups[files[i]], before, links, done);
      combinations, done := combinations + more, done + {files[i]};
    }
    assert files[..|files|] == files;
  }

  // ---- what a run comes to ----

  /** The second findings are copies of the first, one of each. */
  ghost predicate Copies(xs: Severities, ys: Severities, copy: map<Finding, Finding>) {
    && (forall f | f in xs :: f in copy && copy[f] in ys && SameFinding(f, copy[f]) && xs[f] == ys[copy[f]])
    && (forall g | g in ys :: exists f | f in xs && f in copy :: copy[f] == g)
    && (forall f, g | f in xs && g in xs && f in copy && g in copy :: copy[f] == copy[g] ==> f == g)
  }

  predicate SameFinding(f: Finding, g: Finding) {
    f.location == g.location && f.preconditions == g.preconditions && f.mitigations == g.mitigations
  }

  /** Two lists that hold the same findings, in whatever order and however often, end with the same
      severities. */
  method RunOnCopies(xs: seq<Finding>, ys: seq<Finding>, sigs: Interferences, ghost copy: map<Finding, Finding>)
    requires Symmetric(sigs) && Copies(SeveritiesOf(xs), SeveritiesOf(ys), copy)
    requires forall f | f in xs :: f !in ys
    modifies xs, ys
    ensures forall f | f in xs :: f in copy && copy[f] in ys && f.severity == copy[f].severity
  {
    hide Symmetric, Finals, Copies;
    ghost var before, beforeCopies := SeveritiesOf(xs), SeveritiesOf(ys);
    CopiesEndTheSame(sigs, before, beforeCopies, copy);
    FinalSeverities(xs, sigs);
    label Between:
    assert SeveritiesOf(ys) == beforeCopies;
    FinalSeverities(ys, sigs);
    assert SeveritiesOf(xs) == old@Between(SeveritiesOf(xs));
    CopiesAgree(xs, ys, copy);
  }

  method FinalSeverities(findings: seq<Finding>, sigs: Interferences)
    requires Symmetric(sigs)
    modifies findings
    ensures SeveritiesOf(findings) == Finals(sigs, old(SeveritiesOf(findings)))
  {
    hide Symmetric, Finals, NewLinks, Group, ChainsOf, Corrected, Finding.File;
    var corrections, combinations, files := RunStage3(findings, sigs);
  }

  lemma CopiesAgree(xs: seq<Finding>, ys: seq<Finding>, copy: map<Finding, Finding>)
    requires Copies(SeveritiesOf(xs), SeveritiesOf(ys), copy)
    ensures forall f | f in xs :: f in copy && copy[f] in ys && f.severity == copy[f].severity
  {
    hide SameFinding;
    assert forall f | f in xs :: f in SeveritiesOf(xs) && f.severity == SeveritiesOf(xs)[f];
  }

  lemma CopiesEndTheSame(sigs: Interferences, xs: Severities, ys: Severities, copy: map<Finding, Finding>)
    requires Copies(xs, ys, copy)
    ensures Copies(Finals(sigs, xs), Finals(sigs, ys), copy)
  {
    hide SameFinding, Final;
    forall f | f in xs { CopyEndsTheSame(sigs, xs, ys, copy, f); }
  }

  lemma SameRules(f: Finding, g: Finding, severity: Severity)
    requires SameFinding(f, g)
    ensures f.File() == g.File() && f.Function() == g.Function()
    ensures Corrected(f, severity) == Corrected(g, severity) && Severe(f, severity) == Severe(g, severity)
  {
    hide FirstSegment, LastSegment, ActiveCount, CheckSeverity;
  }

  lemma CopyEndsTheSame(sigs: Interferences, xs: Severities, ys: Severities, copy: map<Finding, Finding>, f: Finding)
    requires Copies(xs, ys, copy) && f in xs
    ensures Final(sigs, ys, copy[f]) == Final(sigs, xs, f)
  {
    hide Corrected, Severe, SameFinding, Finding.File, Finding.Function;
    forall h | h in xs
      ensures h.File() == copy[h].File() && h.Function() == copy[h].Function()
      ensures Corrected(copy[h], xs[h]) == Corrected(h, xs[h])
      ensures Severe(copy[h], Corrected(h, xs[h])) == Severe(h, Corrected(h, xs[h]))
    {
      SameRules(h, copy[h], xs[h]);
      SameRules(h, copy[h], Corrected(h, xs[h]));
    }
    if Elevated(sigs, xs, f) {
      var h :| h in xs && h.File() == f.File() && Severe(h, Corrected(h, xs[h])) && Interacts(sigs, f, h);
      assert Interacts(sigs, copy[f], copy[h]);
      assert copy[h] in ys && copy[h].File() == copy[f].File();
      assert Elevated(sigs, ys, copy[f]);
    }
    if Elevated(sigs, ys, copy[f]) {
      var g :| g in ys && g.File() == copy[f].File() && Severe(g, Corrected(g, ys[g])) && Interacts(sigs, copy[f], g);
      var h :| h in xs && copy[h] == g;
      assert h.File() == f.File() && Interacts(sigs, f, h);
      assert Elevated(sigs, xs, f);
    }
  }

  lemma {:induction false} ChainOfFile(sigs: Interferences, before: Severities, findings: seq<Finding>,
                                       files: seq<string>, c: Combination)
    requires forall f | f in findings :: f in before
    ensures c in ChainsOf(sigs, before, findings, files) <==>
            exists file | file in files :: c in Chains(sigs, before, file, Group(findings, file))
  {
    hide Chains;
    if files != [] {
      var init, last := files[..|files| - 1], files[|files| - 1];
      assert files == init + [last];
      if c in Chains(sigs, before, last, Group(findings, last)) {
        assert last in files;
      } else {
        ChainOfFile(sigs, before, findings, init, c);
        assert c in ChainsOf(sigs, before, findings, files) <==> c in ChainsOf(sigs, before, findings, init);
      }
    }
  }

  /** Every chain reported names two different findings that are elevated; so two different ids, if different
      findings have different ids. */
  lemma ChainsNameTwo(sigs: Interferences, before: Severities, findings: seq<Finding>, files: seq<string>,
                      c: Combination)
    requires Symmetric(sigs)
    requires forall f :: f in findings <==> f in before
    requires c in ChainsOf(sigs, before, findings, files)
    ensures exists f, g | f in findings && g in findings && f != g && f.File() == c.file == g.File() ::
              && Elevated(sigs, before, f) && Elevated(sigs, before, g)
              && f.findingId in c.findingIds && g.findingId in c.findingIds
    ensures |c.findingIds| >= 2
  {
    hide Elevated, ElevatedOf, ChainsOf, Symmetric, Interacts;
    ChainOfFile(sigs, before, findings, files, c);
    var file :| file in files && c in Chains(sigs, before, file, Group(findings, file));
    var group := Group(findings, file);
    GroupMembers(findings, file, before);
    ElevatedTogether(sigs, before, file, group);
    var es := ElevatedOf(sigs, before, group);
    var f := es[0];
    assert f in es;
    ElevatedInPairs(sigs, before, f);
    var g :| g in before && g != f && g.File() == f.File() && Elevated(sigs, before, g) && Interacts(sigs, f, g);
    assert g in group;
    NamedInIds(es, f);
    NamedInIds(es, g);
  }

  lemma NamedInIds(fs: seq<Finding>, f: Finding)
    requires f in fs
    ensures f.findingId in IdsOf(fs)
  {
    var k :| 0 <= k < |fs| && fs[k] == f;
    assert IdsOf(fs)[k] == f.findingId;
  }

  /** Every elevated finding is named by a chain of its file. */
  lemma ElevatedIsNamed(sigs: Interferences, before: Severities, findings: seq<Finding>, files: seq<string>, f: Finding)
    requires forall g :: g in findings <==> g in before
    requires f in findings && f.File() in files && Elevated(sigs, before, f)
    ensures exists c | c in ChainsOf(sigs, before, findings, files) :: c.file == f.File() && f.findingId in c.findingIds
  {
    hide Elevated, ChainsOf;
    var group := Group(findings, f.File());
    GroupMembers(findings, f.File(), before);
    var es := ElevatedOf(sigs, before, group);
    NamedInIds(es, f);
    var c := Combination(f.File(), IdsOf(es));
    assert c in Chains(sigs, before, f.File(), group);
    ChainOfFile(sigs, before, findings, files, c);
  }
}
