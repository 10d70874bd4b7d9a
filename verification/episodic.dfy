/** The signed, append-only memory: what a load can return after any sequence of writes and of edits by
    someone who can change the files but cannot sign. */
module Episodic {
  import opened Wrappers
  import opened Sorting

  datatype SourceType = HumanInput | ToolOutput | ExternalLlmOutput | HumanRelayedTool | LlmInference

  datatype StatusChange = StatusChange(findingId: string, oldStatus: string, newStatus: string, reason: string)

  /** The signed fields of a record. `content` stands for the rest of what a record holds. */
  datatype Fields = Fields(recordId: string, projectId: string, target: string, source: SourceType,
                           statusChange: Option<StatusChange>, supersedes: Option<string>, content: string)

  datatype Record = Record(fields: Fields, signature: Option<string>)

  /** A line of a store file: empty, not a well-formed record, or a record. */
  datatype Line = Blank | Garbage | Parsed(record: Record)

  /** A file of a project's directory, by its name without the suffix. */
  datatype Path = Path(dir: string, file: string)

  datatype WriteResult = Written(record: Record) | PrincipalMismatch | StatusForbidden | SupersedesForbidden

  datatype LoadResult = Loaded(records: seq<Record>) | WrongPrincipal

  const REQUIRES_HUMAN_CONFIRMATION: set<string> := {"verified_safe", "skip_analysis", "audit_complete"}

  // ---- policy ----

  /** A correction names the record it overrides; an empty name counts as none. */
  predicate Overrides(f: Fields) {
    f.supersedes.Some? && f.supersedes.value != ""
  }

  function StatusRules(f: Fields): Option<WriteResult> {
    if f.statusChange.None? then None
    else if f.statusChange.value.newStatus in REQUIRES_HUMAN_CONFIRMATION && f.source != HumanInput
    then Some(StatusForbidden)
    else if Overrides(f) && f.source != HumanInput then Some(SupersedesForbidden)
    else None
  }

  predicate Accepted(f: Fields, principal: Option<string>) {
    (principal.Some? ==> f.projectId == principal.value) && StatusRules(f).None?
  }

  function SafeName(target: string): string {
    if target == "" then ""
    else (if target[0] == '/' then "_" else if target[0] == ':' then "__" else [target[0]]) + SafeName(target[1..])
  }

  /** When a write is accepted: for the own project; with a status that needs a human from a human only; and, beside
      a status change, with an override from a human only. */
  lemma AcceptedMeans(f: Fields, principal: Option<string>)
    ensures Accepted(f, principal) <==>
              && (principal == None || principal == Some(f.projectId))
              && (f.statusChange.Some? && f.source != HumanInput ==>
                    && f.statusChange.value.newStatus !in {"verified_safe", "skip_analysis", "audit_complete"}
                    && (f.supersedes == None || f.supersedes == Some("")))
  {
  }

  /** A file name is made character by character: `_` for a slash, `__` for a colon, itself for any other. */
  lemma SafeNameIs(a: string, c: char, b: string)
    ensures SafeName([c]) == if c == '/' then "_" else if c == ':' then "__" else [c]
    ensures SafeName(a + b) == SafeName(a) + SafeName(b) && SafeName("") == ""
  {
    assert [c][1..] == "" && SafeName("") == "";
    SafeNameJoins(a, b);
  }

  lemma {:induction false} SafeNameJoins(a: string, b: string)
    ensures SafeName(a + b) == SafeName(a) + SafeName(b)
  {
    if a == "" {
      assert a + b == b;
    } else {
      SafeNameJoins(a[1..], b);
      assert (a + b)[1..] == a[1..] + b && (a + b)[0] == a[0];
    }
  }

  /** `sign` stands for the keyed hash over the canonical form of the fields, `dirOf` for the directory that a
      project id names: two ids may name the same one. */
  datatype Site = Site(sign: Fields -> string, dirOf: string -> string)

  function PathOf(site: Site, projectId: string, target: string): Path {
    Path(site.dirOf(projectId), SafeName(target))
  }

  /** The fields go to the file of this project and target. */
  predicate SameFile(site: Site, f: Fields, projectId: string, target: string) {
    site.dirOf(f.projectId) == site.dirOf(projectId) && SafeName(f.target) == SafeName(target)
  }

  // ---- signatures ----

  function Signed(site: Site, f: Fields): Record {
    Record(f, Some(site.sign(f)))
  }

  predicate GoodSignature(site: Site, r: Record) {
    r.signature == Some(site.sign(r.fields))
  }

  predicate GoodLine(site: Site, l: Line) {
    l.Parsed? && GoodSignature(site, l.record)
  }

  // ---- loading one file ----

  /** `valid[record_id] = record`, for a table that keeps the order of first insertion. */
  function Put(valid: seq<Record>, r: Record): seq<Record> {
    if valid == [] then [r]
    else if valid[0].fields.recordId == r.fields.recordId then [r] + valid[1..]
    else [valid[0]] + Put(valid[1..], r)
  }

  /** The table after reading the lines in turn. */
  function Table(site: Site, lines: seq<Line>): seq<Record> {
    if lines == [] then []
    else
      var before, last := Table(site, lines[..|lines| - 1]), lines[|lines| - 1];
      if GoodLine(site, last) then Put(before, last.record) else before
  }

  /** The ids that records override. */
  function Superseded(records: seq<Record>): set<string> {
    set i | 0 <= i < |records| && Overrides(records[i].fields) :: records[i].fields.supersedes.value
  }

  function Without(records: seq<Record>, ids: set<string>): seq<Record> {
    if records == [] then []
    else
      var before, last := Without(records[..|records| - 1], ids), records[|records| - 1];
      if last.fields.recordId in ids then before else before + [last]
  }

  function LoadLines(site: Site, lines: seq<Line>): seq<Record> {
    var table := Table(site, lines);
    Without(table, Superseded(table))
  }

  method ApplySupersedes(records: seq<Record>) returns (r: seq<Record>)
    ensures r == Without(records, Superseded(records))
  {
    var supersededIds: set<string> := {};
    for i := 0 to |records|
      invariant supersededIds == Superseded(records[..i])
    {
      assert records[..i + 1][..i] == records[..i] && forall j | 0 <= j < i :: records[..i + 1][j] == records[..i][j];
      assert records[..i + 1][i] == records[i];
      if records[i].fields.supersedes.Some? && records[i].fields.supersedes.value != "" {
        supersededIds := supersededIds + {records[i].fields.supersedes.value};
      }
    }
    assert records[..|records|] == records;
    r := [];
    for i := 0 to |records|
      invariant r == Without(records[..i], supersededIds)
    {
      assert records[..i + 1][..i] == records[..i];
      if records[i].fields.recordId !in supersededIds {
        r := r + [records[i]];
      }
    }
  }

  // ---- the store ----

  /** The files, and the fields of every record a write has accepted. */
  datatype Store = Store(files: map<Path, seq<Line>>, written: seq<Fields>) {
    function LinesAt(path: Path): seq<Line> {
      if path in files then files[path] else []
    }

    function Append(site: Site, f: Fields): Store {
      var path := PathOf(site, f.projectId, f.target);
      Store(files[path := LinesAt(path) + [Parsed(Signed(site, f))]], written + [f])
    }
  }

  class EpisodicMemory {
    const site: Site
    var files: map<Path, seq<Line>>
    /** The history of accepted writes. */
    ghost var written: seq<Fields>

    constructor (site: Site)
      ensures this.site == site && State() == Store(map[], [])
    {
      this.site := site;
      files, written := map[], [];
    }

    ghost function State(): Store
      reads this
    {
      Store(files, written)
    }

    method Write(f: Fields, principal: Option<string>) returns (r: WriteResult)
      modifies this
      ensures r.Written? <==> Accepted(f, principal)
      ensures r.Written? ==> r.record == Signed(site, f)
      ensures State() == if Accepted(f, principal) then old(State()).Append(site, f) else old(State())
      ensures r.PrincipalMismatch? <==> principal.Some? && f.projectId != principal.value
      ensures r.StatusForbidden? <==>
                && !r.PrincipalMismatch? && f.statusChange.Some? && f.source != HumanInput
                && f.statusChange.value.newStatus in {"verified_safe", "skip_analysis", "audit_complete"}
    {
      if principal.Some? && f.projectId != principal.value {
        return PrincipalMismatch;
      }
      if f.statusChange.Some? {
        if f.statusChange.value.newStatus in REQUIRES_HUMAN_CONFIRMATION {
          if f.source != HumanInput {
            return StatusForbidden;
          }
        }
        if f.supersedes.Some? && f.supersedes.value != "" && f.source != HumanInput {
          return SupersedesForbidden;
        }
      }
      var record := Record(f, Some(site.sign(f)));
      var path := PathOf(site, f.projectId, f.target);
      var lines := if path in files then files[path] else [];
      files := files[path := lines + [Parsed(record)]];
      written := written + [f];
      return Written(record);
    }

    method Load(projectId: string, target: string, principal: Option<string>) returns (r: LoadResult)
      ensures r == if principal.Some? && projectId != principal.value then WrongPrincipal
                   else Loaded(LoadLines(site, State().LinesAt(PathOf(site, projectId, target))))
    {
      if principal.Some? && projectId != principal.value {
        return WrongPrincipal;
      }
      var records := LoadFile(PathOf(site, projectId, target));
      return Loaded(records);
    }

    method LoadFile(path: Path) returns (records: seq<Record>)
      ensures records == LoadLines(site, State().LinesAt(path))
    {
      if path !in files {
        return [];
      }
      var lines := files[path];
      var valid: seq<Record> := [];
      for n := 0 to |lines|
        invariant valid == Table(site, lines[..n])
      {
        assert lines[..n + 1][..n] == lines[..n];
        var line := lines[n];
        if !line.Parsed? {
          continue;
        }
        if line.record.signature.None? {
          continue;
        }
        if line.record.signature.value != site.sign(line.record.fields) {
          continue;
        }
        valid := Put(valid, line.record);
      }
      assert lines[..|lines|] == lines;
      records := ApplySupersedes(valid);
    }

    /** The integrity scan of one file. */
    method VerifyFile(path: Path) returns (total: nat, valid: nat, invalid: nat)
      ensures total == valid + invalid
      ensures valid == Good(site, State().LinesAt(path)) && invalid == Bad(site, State().LinesAt(path))
      ensures var lines := State().LinesAt(path);
              && total == |set i | 0 <= i < |lines| && lines[i] != Blank|
              && invalid == |set i | 0 <= i < |lines| && lines[i] != Blank && !GoodLine(site, lines[i])|
    {
      total, valid, invalid := 0, 0, 0;
      var lines := if path in files then files[path] else [];
      for n := 0 to |lines|
        invariant total == valid + invalid
        invariant valid == Good(site, lines[..n]) && invalid == Bad(site, lines[..n])
      {
        assert lines[..n + 1][..n] == lines[..n];
        if lines[n].Blank? {
          continue;
        }
        total := total + 1;
        if lines[n].Parsed? && lines[n].record.signature == Some(site.sign(lines[n].record.fields)) {
          valid := valid + 1;
        } else {
          invalid := invalid + 1;
        }
      }
      assert lines[..|lines|] == lines;
      CountsAre(site, lines);
    }

    /** The files of a directory in the order of their names. */
    method ListFiles(dir: string) returns (listing: seq<Path>)
      ensures IsListing(State(), dir, listing) && listing == ListingOf(State(), dir)
    {
      listing := [];
      var rest := set path | path in files && path.dir == dir;
      while rest != {}
        invariant rest <= set path | path in files && path.dir == dir
        invariant forall path | path in files && path.dir == dir :: path in rest <==> path !in listing
        invariant forall path | path in listing :: path in files && path.dir == dir
        invariant Distinct(listing) && Ascending(listing, ByName)
      {
        var path :| path in rest;
        InsertKeepsAscending(path, listing, ByName);
        InsertFresh(path, listing, ByName);
        forall x { InsertHolds(path, listing, ByName, x); }
        listing, rest := Insert(path, listing, ByName), rest - {path};
      }
      ListingIsThe(State(), dir, listing);
    }

    /** All records of a principal's project, file by file in the order of the names. */
    method LoadForPrincipal(projectId: string) returns (records: seq<Record>)
      ensures records == LoadAll(site, State(), ListingOf(State(), site.dirOf(projectId)))
    {
      var paths := ListFiles(site.dirOf(projectId));
      records := [];
      for n := 0 to |paths|
        invariant records == LoadAll(site, State(), paths[..n])
      {
        assert paths[..n + 1][..n] == paths[..n];
        var more := LoadFile(paths[n]);
        records := records + more;
      }
      assert paths[..|paths|] == paths;
    }

    /** The integrity scan of a project, with a table of the files by their stems. */
    method VerifyIntegrity(projectId: string)
      returns (total: nat, valid: nat, invalid: nat, perTarget: map<string, Tally>)
      ensures total == valid + invalid
      ensures var listing := ListingOf(State(), site.dirOf(projectId));
              && valid == GoodIn(site, State(), listing) && invalid == BadIn(site, State(), listing)
              && perTarget == PerTarget(site, State(), listing)
    {
      hide Good, Bad, IsListing, ListingOf, Stem;
      var paths := ListFiles(site.dirOf(projectId));
      total, valid, invalid, perTarget := 0, 0, 0, map[];
      for n := 0 to |paths|
        invariant total == valid + invalid
        invariant valid == GoodIn(site, State(), paths[..n]) && invalid == BadIn(site, State(), paths[..n])
        invariant perTarget == PerTarget(site, State(), paths[..n])
      {
        assert paths[..n + 1][..n] == paths[..n];
        var t, v, w := VerifyFile(paths[n]);
        perTarget := perTarget[Stem(paths[n].file) := Tally(t, v, w)];
        total, valid, invalid := total + t, valid + v, invalid + w;
      }
      assert paths[..|paths|] == paths;
    }
  }

  function Good(site: Site, lines: seq<Line>): nat {
    if lines == [] then 0
    else Good(site, lines[..|lines| - 1]) + if GoodLine(site, lines[|lines| - 1]) then 1 else 0
  }

  /** The lines that are neither empty nor records with a good signature. */
  function Bad(site: Site, lines: seq<Line>): nat {
    if lines == [] then 0
    else
      var last := lines[|lines| - 1];
      Bad(site, lines[..|lines| - 1]) + if last.Blank? || GoodLine(site, last) then 0 else 1
  }

  /** The counts of any lines, whoever wrote them: every line that is not empty counts once. */
  lemma CountsAre(site: Site, lines: seq<Line>)
    ensures Good(site, lines) == |set i | 0 <= i < |lines| && GoodLine(site, lines[i])|
    ensures Bad(site, lines) == |set i | 0 <= i < |lines| && lines[i] != Blank && !GoodLine(site, lines[i])|
    ensures Good(site, lines) + Bad(site, lines) == |set i | 0 <= i < |lines| && lines[i] != Blank|
  {
    hide GoodLine, Good, Bad;
    GoodIs(site, lines);
    BadIs(site, lines);
    var good := set i | 0 <= i < |lines| && GoodLine(site, lines[i]);
    var bad := set i | 0 <= i < |lines| && lines[i] != Blank && !GoodLine(site, lines[i]);
    forall i | 0 <= i < |lines| && lines[i] == Blank ensures !GoodLine(site, lines[i]) {
      BlankIsUnsigned(site, lines[i]);
    }
    assert good !! bad && (set i | 0 <= i < |lines| && lines[i] != Blank) == good + bad;
  }

  lemma BlankIsUnsigned(site: Site, line: Line)
    requires line == Blank
    ensures !GoodLine(site, line)
  {
  }

  lemma {:induction false} GoodIs(site: Site, lines: seq<Line>)
    ensures Good(site, lines) == |set i | 0 <= i < |lines| && GoodLine(site, lines[i])|
  {
    hide GoodLine;
    if lines != [] {
      var n := |lines| - 1;
      var init := lines[..n];
      GoodIs(site, init);
      var before := set i | 0 <= i < n && GoodLine(site, init[i]);
      assert (set i | 0 <= i < |lines| && GoodLine(site, lines[i]))
          == before + if GoodLine(site, lines[n]) then {n} else {};
    }
  }

  lemma {:induction false} BadIs(site: Site, lines: seq<Line>)
    ensures Bad(site, lines) == |set i | 0 <= i < |lines| && lines[i] != Blank && !GoodLine(site, lines[i])|
  {
    hide GoodLine;
    if lines != [] {
      var n := |lines| - 1;
      var init := lines[..n];
      BadIs(site, init);
      var before := set i | 0 <= i < n && init[i] != Blank && !GoodLine(site, init[i]);
      assert (set i | 0 <= i < |lines| && lines[i] != Blank && !GoodLine(site, lines[i]))
          == before + if lines[n] != Blank && !GoodLine(site, lines[n]) then {n} else {};
    }
  }

  // ---- runs ----

  datatype Event =
    | Write(fields: Fields, principal: Option<string>)
    | Edit(path: Path, lines: seq<Line>)

  function Step(site: Site, s: Store, e: Event): Store {
    match e
    case Write(f, principal) => if Accepted(f, principal) then s.Append(site, f) else s
    case Edit(path, lines) => s.(files := s.files[path := lines])
  }

  function Run(site: Site, events: seq<Event>): Store {
    if events == [] then Store(map[], []) else Step(site, Run(site, events[..|events| - 1]), events[|events| - 1])
  }

  /** An editor may write any lines, old ones included, but a line that verifies holds fields that were
      signed before. */
  predicate EditorCannotSign(s: Store, site: Site, lines: seq<Line>) {
    forall i | 0 <= i < |lines| && GoodLine(site, lines[i]) :: lines[i].record.fields in s.written
  }

  predicate Possible(site: Site, events: seq<Event>) {
    events == [] ||
    (var before, last := events[..|events| - 1], events[|events| - 1];
     Possible(site, before) && (last.Edit? ==> EditorCannotSign(Run(site, before), site, last.lines)))
  }

  /** Every line that verifies was written, and every record written was within policy. */
  predicate Genuine(site: Site, s: Store) {
    && (forall path | path in s.files :: EditorCannotSign(s, site, s.files[path]))
    && (forall f | f in s.written :: StatusRules(f).None?)
  }

  lemma {:induction false} RunsStayGenuine(site: Site, events: seq<Event>)
    requires Possible(site, events)
    ensures Genuine(site, Run(site, events))
  {
    if events != [] {
      RunsStayGenuine(site, events[..|events| - 1]);
    }
  }

  lemma {:induction false} TableHoldsLines(site: Site, lines: seq<Line>, r: Record)
    requires r in Table(site, lines)
    ensures GoodSignature(site, r) && Parsed(r) in lines
  {
    var before, last := lines[..|lines| - 1], lines[|lines| - 1];
    if GoodLine(site, last) {
      PutHolds(Table(site, before), last.record, r);
    }
    if r in Table(site, before) {
      TableHoldsLines(site, before, r);
    }
  }

  lemma {:induction false} PutHolds(valid: seq<Record>, r: Record, x: Record)
    requires x in Put(valid, r)
    ensures x == r || x in valid
  {
    if valid != [] && valid[0].fields.recordId != r.fields.recordId && x != valid[0] {
      PutHolds(valid[1..], r, x);
    }
  }

  lemma {:induction false} WithoutHolds(records: seq<Record>, ids: set<string>, r: Record)
    ensures r in Without(records, ids) <==> r in records && r.fields.recordId !in ids
  {
    if records != [] {
      var before, last := records[..|records| - 1], records[|records| - 1];
      assert records == before + [last];
      WithoutHolds(before, ids, r);
    }
  }

  /** Whatever was written and whatever was edited, each record a load returns was accepted by an earlier
      write; so a privileged status in it comes from a human, and so does a status change that overrides
      another record. */
  lemma LoadedWasWritten(site: Site, events: seq<Event>, path: Path, r: Record)
    requires Possible(site, events)
    requires r in LoadLines(site, Run(site, events).LinesAt(path))
    ensures r == Signed(site, r.fields) && r.fields in Run(site, events).written
    ensures r.fields.statusChange.Some? ==>
              && (r.fields.statusChange.value.newStatus in REQUIRES_HUMAN_CONFIRMATION ==>
                    r.fields.source == HumanInput)
              && (Overrides(r.fields) ==> r.fields.source == HumanInput)
  {
    RunsStayGenuine(site, events);
    var s := Run(site, events);
    var table := Table(site, s.LinesAt(path));
    WithoutHolds(table, Superseded(table), r);
    TableHoldsLines(site, s.LinesAt(path), r);
    var i :| 0 <= i < |s.LinesAt(path)| && s.LinesAt(path)[i] == Parsed(r);
  }

  /** The rule on overriding is only applied beside a status change: a record that overrides another
      without a human source is accepted exactly when it carries none. */
  lemma OverridingWithoutHuman(f: Fields, principal: Option<string>)
    requires Overrides(f) && f.source != HumanInput && (principal.Some? ==> f.projectId == principal.value)
    ensures Accepted(f, principal) <==> f.statusChange.None?
  {
  }

  // ---- untouched files ----

  predicate OnlyWrites(events: seq<Event>) {
    forall i | 0 <= i < |events| :: events[i].Write?
  }

  /** The accepted fields that went to one file, in order. */
  function WrittenTo(site: Site, written: seq<Fields>, path: Path): seq<Fields> {
    if written == [] then []
    else
      var before, last := WrittenTo(site, written[..|written| - 1], path), written[|written| - 1];
      if PathOf(site, last.projectId, last.target) == path then before + [last] else before
  }

  function SignedAll(site: Site, fs: seq<Fields>): seq<Record> {
    seq(|fs|, i requires 0 <= i < |fs| => Signed(site, fs[i]))
  }

  function AsLines(records: seq<Record>): seq<Line> {
    seq(|records|, i requires 0 <= i < |records| => Parsed(records[i]))
  }

  lemma OneMoreSigned(site: Site, fs: seq<Fields>, f: Fields)
    ensures AsLines(SignedAll(site, fs + [f])) == AsLines(SignedAll(site, fs)) + [Parsed(Signed(site, f))]
  {
    hide Signed;
  }

  lemma WrittenToGrows(site: Site, written: seq<Fields>, f: Fields, path: Path)
    ensures WrittenTo(site, written + [f], path) ==
            var before := WrittenTo(site, written, path);
            if PathOf(site, f.projectId, f.target) == path then before + [f] else before
  {
    assert (written + [f])[..|written|] == written;
  }

  lemma {:induction false} UntouchedFiles(site: Site, events: seq<Event>, path: Path)
    requires OnlyWrites(events)
    ensures var s := Run(site, events);
            s.LinesAt(path) == AsLines(SignedAll(site, WrittenTo(site, s.written, path)))
  {
    hide PathOf, Accepted, Signed, SignedAll, AsLines, WrittenTo;
    if events != [] {
      UntouchedFiles(site, events[..|events| - 1], path);
      var s, last := Run(site, events[..|events| - 1]), events[|events| - 1];
      if Accepted(last.fields, last.principal) {
        WrittenToGrows(site, s.written, last.fields, path);
        OneMoreSigned(site, WrittenTo(site, s.written, path), last.fields);
      }
    } else {
      NothingWritten(site, path);
    }
  }

  lemma NothingWritten(site: Site, path: Path)
    ensures AsLines(SignedAll(site, WrittenTo(site, [], path))) == []
  {
  }

  predicate DistinctIds(records: seq<Record>) {
    forall i, j | 0 <= i < j < |records| :: records[i].fields.recordId != records[j].fields.recordId
  }

  lemma {:induction false} PutFresh(valid: seq<Record>, r: Record)
    requires forall i | 0 <= i < |valid| :: valid[i].fields.recordId != r.fields.recordId
    ensures Put(valid, r) == valid + [r]
  {
    if valid != [] {
      PutFresh(valid[1..], r);
    }
  }

  lemma {:induction false} TableOfDistinct(site: Site, records: seq<Record>)
    requires DistinctIds(records) && forall r | r in records :: GoodSignature(site, r)
    ensures Table(site, AsLines(records)) == records
  {
    if records != [] {
      var before, last := records[..|records| - 1], records[|records| - 1];
      assert AsLines(records)[..|records| - 1] == AsLines(before);
      TableOfDistinct(site, before);
      PutFresh(before, last);
    }
  }

  /** With distinct ids and no edits, a load returns, in order, exactly the records written to the file
      that no record written to it overrides. */
  lemma UntouchedLoad(site: Site, events: seq<Event>, path: Path)
    requires OnlyWrites(events)
    requires DistinctIds(SignedAll(site, WrittenTo(site, Run(site, events).written, path)))
    ensures var records := SignedAll(site, WrittenTo(site, Run(site, events).written, path));
            LoadLines(site, Run(site, events).LinesAt(path)) == Without(records, Superseded(records))
  {
    UntouchedFiles(site, events, path);
    TableOfDistinct(site, SignedAll(site, WrittenTo(site, Run(site, events).written, path)));
  }

  lemma OneOverride(human: Record, model: Record)
    requires !Overrides(human.fields) && Overrides(model.fields)
    requires model.fields.supersedes.value == human.fields.recordId != model.fields.recordId
    ensures Superseded([human, model]) == {human.fields.recordId}
    ensures Without([human, model], {human.fields.recordId}) == [model]
  {
    var records := [human, model];
    assert records[1].fields.supersedes.value in Superseded(records);
    assert records[..1] == [human] && [human][..0] == [];
    assert Without([human], {human.fields.recordId}) == [];
  }

  lemma TwoWrites(site: Site, f: Fields, g: Fields, principal: Option<string>, path: Path)
    requires Accepted(f, principal) && Accepted(g, principal)
    requires PathOf(site, f.projectId, f.target) == path == PathOf(site, g.projectId, g.target)
    ensures var events := [Write(f, principal), Write(g, principal)];
            OnlyWrites(events) && Run(site, events).written == [f, g]
    ensures WrittenTo(site, [f, g], path) == [f, g]
  {
    hide PathOf, Accepted;
    var first := [Write(f, principal)];
    assert first[..0] == [] && [Write(f, principal), Write(g, principal)][..1] == first;
    assert Run(site, first).written == [f];
    assert [f, g][..1] == [f] && [f][..0] == [];
    assert WrittenTo(site, [f], path) == [f];
  }

  /** A model's record without a status change takes a human's record out of sight. */
  lemma AnOverrideWithoutHuman(site: Site)
    ensures var human := Fields("r1", "p", "t", HumanInput, None, None, "finding");
            var model := Fields("r2", "p", "t", ExternalLlmOutput, None, Some("r1"), "correction");
            var s := Run(site, [Write(human, Some("p")), Write(model, Some("p"))]);
            s.written == [human, model] && LoadLines(site, s.LinesAt(PathOf(site, "p", "t"))) == [Signed(site, model)]
  {
    hide PathOf, Run, LoadLines, WrittenTo, Superseded, Without;
    var human := Fields("r1", "p", "t", HumanInput, None, None, "finding");
    var model := Fields("r2", "p", "t", ExternalLlmOutput, None, Some("r1"), "correction");
    var path := PathOf(site, "p", "t");
    TwoWrites(site, human, model, Some("p"), path);
    assert SignedAll(site, [human, model]) == [Signed(site, human), Signed(site, model)];
    UntouchedLoad(site, [Write(human, Some("p")), Write(model, Some("p"))], path);
    OneOverride(Signed(site, human), Signed(site, model));
  }

  lemma {:induction false} WrittenToHolds(site: Site, written: seq<Fields>, path: Path, f: Fields)
    ensures f in WrittenTo(site, written, path) <==> f in written && PathOf(site, f.projectId, f.target) == path
  {
    if written != [] {
      var before, last := written[..|written| - 1], written[|written| - 1];
      assert written == before + [last];
      WrittenToHolds(site, before, path, f);
    }
  }

  lemma SignedAllHolds(site: Site, fs: seq<Fields>, r: Record)
    ensures r in SignedAll(site, fs) <==> r == Signed(site, r.fields) && r.fields in fs
  {
    if r == Signed(site, r.fields) && r.fields in fs {
      var i :| 0 <= i < |fs| && fs[i] == r.fields;
      assert SignedAll(site, fs)[i] == r;
    }
  }

  lemma SupersededHolds(site: Site, fs: seq<Fields>, recordId: string)
    ensures recordId in Superseded(SignedAll(site, fs)) <==>
            exists f | f in fs :: Overrides(f) && f.supersedes.value == recordId
  {
    var records := SignedAll(site, fs);
    if f :| f in fs && Overrides(f) && f.supersedes.value == recordId {
      var i :| 0 <= i < |fs| && fs[i] == f;
      assert records[i].fields == f;
    }
  }

  /** Ids that differ among all writes differ among those to one file. */
  lemma {:induction false} DistinctWritten(site: Site, written: seq<Fields>, path: Path)
    requires forall i, j | 0 <= i < j < |written| :: written[i].recordId != written[j].recordId
    ensures DistinctIds(SignedAll(site, WrittenTo(site, written, path)))
  {
    if written != [] {
      var before, last := written[..|written| - 1], written[|written| - 1];
      DistinctWritten(site, before, path);
      var to := WrittenTo(site, before, path);
      forall i | 0 <= i < |to| ensures to[i].recordId != last.recordId {
        assert to[i] in to;
        WrittenToHolds(site, before, path, to[i]);
        var k :| 0 <= k < |before| && before[k] == to[i];
      }
      assert SignedAll(site, to + [last]) == SignedAll(site, to) + [Signed(site, last)];
    }
  }

  /** The same, record by record: what comes back for a project and target is what was accepted for a
      project of that directory, under a target with the same file name, and was not overridden there. */
  lemma UntouchedLoadHolds(site: Site, events: seq<Event>, projectId: string, target: string, r: Record)
    requires OnlyWrites(events)
    requires DistinctIds(SignedAll(site, WrittenTo(site, Run(site, events).written, PathOf(site, projectId, target))))
    ensures r in LoadLines(site, Run(site, events).LinesAt(PathOf(site, projectId, target))) <==>
            && r == Signed(site, r.fields) && r.fields in Run(site, events).written
            && SameFile(site, r.fields, projectId, target)
            && !exists f | f in Run(site, events).written ::
                 SameFile(site, f, projectId, target) && Overrides(f) && f.supersedes.value == r.fields.recordId
  {
    hide Run, LoadLines, Signed, SignedAll, Superseded, Without, WrittenTo, SafeName;
    var written, path := Run(site, events).written, PathOf(site, projectId, target);
    var to := WrittenTo(site, written, path);
    var records := SignedAll(site, to);
    UntouchedLoad(site, events, path);
    WithoutHolds(records, Superseded(records), r);
    SignedAllHolds(site, to, r);
    SupersededHolds(site, to, r.fields.recordId);
    forall f { WrittenToHolds(site, written, path, f); }
  }

  /** An integrity scan of an untouched file finds nothing invalid and counts every accepted write. */
  lemma UntouchedScan(site: Site, events: seq<Event>, path: Path)
    requires OnlyWrites(events)
    ensures var s := Run(site, events);
            Bad(site, s.LinesAt(path)) == 0 && Good(site, s.LinesAt(path)) == |WrittenTo(site, s.written, path)|
  {
    UntouchedFiles(site, events, path);
    CountSigned(site, WrittenTo(site, Run(site, events).written, path));
  }

  lemma {:induction false} CountSigned(site: Site, fs: seq<Fields>)
    ensures var lines := AsLines(SignedAll(site, fs)); Bad(site, lines) == 0 && Good(site, lines) == |fs|
  {
    if fs != [] {
      CountSigned(site, fs[..|fs| - 1]);
      var lines := AsLines(SignedAll(site, fs));
      assert lines[..|fs| - 1] == AsLines(SignedAll(site, fs[..|fs| - 1]));
    }
  }

  // ---- a whole project ----

  const ByName: Path -> string := (path: Path) => path.file + ".jsonl"

  /** The files of the directory, each once, in the order of their names. */
  predicate IsListing(s: Store, dir: string, listing: seq<Path>) {
    && Distinct(listing)
    && Ascending(listing, ByName)
    && (forall path | path in s.files && path.dir == dir :: path in listing)
    && (forall path | path in listing :: path in s.files && path.dir == dir)
  }

  ghost function ListingOf(s: Store, dir: string): seq<Path> {
    if listing :| IsListing(s, dir, listing) then listing else []
  }

  lemma ListingIsThe(s: Store, dir: string, listing: seq<Path>)
    requires IsListing(s, dir, listing)
    ensures ListingOf(s, dir) == listing
  {
    ListingIsUnique(listing, ListingOf(s, dir));
  }

  lemma NamedAlike(a: Path, b: Path)
    requires a.dir == b.dir && LexLeq(ByName(a), ByName(b)) && LexLeq(ByName(b), ByName(a))
    ensures a == b
  {
    LexAntisymmetric(ByName(a), ByName(b));
    assert ByName(a)[..|ByName(a)| - 6] == a.file && ByName(b)[..|ByName(b)| - 6] == b.file;
  }

  lemma HoldsItsFirst(s: seq<Path>)
    ensures s == [] || s[0] in s
  {
  }

  /** The files of a directory can be put in order of their names in one way only. */
  lemma {:induction false} ListingIsUnique(a: seq<Path>, b: seq<Path>)
    requires Distinct(a) && Distinct(b) && Ascending(a, ByName) && Ascending(b, ByName)
    requires forall path :: path in a <==> path in b
    requires forall path, path' | path in a && path' in a :: path.dir == path'.dir
    ensures a == b
  {
    hide LexLeq;
    HoldsItsFirst(b);
    if a != [] {
      assert a[0] in b;
      assert b[0] in a;
      if a[0] != b[0] {
        var i :| 0 <= i < |b| && b[i] == a[0];
        var j :| 0 <= j < |a| && a[j] == b[0];
        NamedAlike(a[0], b[0]);
        assert false;
      }
      forall path ensures path in a[1..] <==> path in b[1..] {
        assert path in a <==> path == a[0] || path in a[1..];
        assert path in b <==> path == b[0] || path in b[1..];
      }
      ListingIsUnique(a[1..], b[1..]);
    }
  }

  lemma InsertHolds(path: Path, listing: seq<Path>, id: Path -> string, x: Path)
    ensures x in Insert(path, listing, id) <==> x == path || x in listing
  {
    assert x in Insert(path, listing, id) <==> x in multiset(Insert(path, listing, id));
  }

  lemma {:induction false} InsertFresh(path: Path, listing: seq<Path>, id: Path -> string)
    requires Distinct(listing) && path !in listing
    ensures Distinct(Insert(path, listing, id))
  {
    hide LexLeq;
    if listing != [] && !LexLeq(id(path), id(listing[0])) {
      var rest := Insert(path, listing[1..], id);
      InsertFresh(path, listing[1..], id);
      forall j | 0 <= j < |rest| ensures rest[j] != listing[0] {
        InsertHolds(path, listing[1..], id, rest[j]);
      }
    }
  }

  function LoadAll(site: Site, s: Store, listing: seq<Path>): seq<Record> {
    if listing == [] then []
    else LoadAll(site, s, listing[..|listing| - 1]) + LoadLines(site, s.LinesAt(listing[|listing| - 1]))
  }

  function GoodIn(site: Site, s: Store, listing: seq<Path>): nat {
    if listing == [] then 0
    else GoodIn(site, s, listing[..|listing| - 1]) + Good(site, s.LinesAt(listing[|listing| - 1]))
  }

  function BadIn(site: Site, s: Store, listing: seq<Path>): nat {
    if listing == [] then 0
    else BadIn(site, s, listing[..|listing| - 1]) + Bad(site, s.LinesAt(listing[|listing| - 1]))
  }

  datatype Tally = Tally(total: nat, valid: nat, invalid: nat)

  function Scan(site: Site, s: Store, path: Path): Tally {
    var good, bad := Good(site, s.LinesAt(path)), Bad(site, s.LinesAt(path));
    Tally(good + bad, good, bad)
  }

  /** `path.stem` of a file of this name: a name of nothing but the suffix is its own stem. */
  function Stem(file: string): string {
    if file == "" then ".jsonl" else file
  }

  function PerTarget(site: Site, s: Store, listing: seq<Path>): map<string, Tally> {
    if listing == [] then map[]
    else
      var last := listing[|listing| - 1];
      PerTarget(site, s, listing[..|listing| - 1])[Stem(last.file) := Scan(site, s, last)]
  }

  lemma {:induction false} PerTargetIs(site: Site, s: Store, listing: seq<Path>, k: nat)
    requires k < |listing| && forall j | k < j < |listing| :: Stem(listing[j].file) != Stem(listing[k].file)
    ensures var table := PerTarget(site, s, listing);
            Stem(listing[k].file) in table && table[Stem(listing[k].file)] == Scan(site, s, listing[k])
  {
    hide Scan, Stem;
    if k < |listing| - 1 {
      PerTargetIs(site, s, listing[..|listing| - 1], k);
    }
  }

  /** The table tells of every file, save the one whose target is empty when there is one for `.jsonl`. */
  lemma PerTargetTells(site: Site, s: Store, dir: string, listing: seq<Path>, path: Path)
    requires IsListing(s, dir, listing) && path in listing
    requires path.file == "" ==> Path(dir, ".jsonl") !in listing
    ensures var table := PerTarget(site, s, listing);
            Stem(path.file) in table && table[Stem(path.file)] == Scan(site, s, path)
    ensures var table, lines := PerTarget(site, s, listing), s.LinesAt(path);
            var stem := if path.file == "" then ".jsonl" else path.file;
            && stem in table
            && table[stem].total == |set i | 0 <= i < |lines| && lines[i] != Blank|
            && table[stem].valid == |set i | 0 <= i < |lines| && GoodLine(site, lines[i])|
            && table[stem].invalid == |set i | 0 <= i < |lines| && lines[i] != Blank && !GoodLine(site, lines[i])|
  {
    CountsAre(site, s.LinesAt(path));
    var k :| 0 <= k < |listing| && listing[k] == path;
    forall j | k < j < |listing| ensures Stem(listing[j].file) != Stem(path.file) {
      if Stem(listing[j].file) == Stem(path.file) {
        assert listing[j].file == "" && path.file == ".jsonl";
        assert ByName(path) == ".jsonl" + ".jsonl" && ByName(listing[j]) == ".jsonl";
        LongerIsLater(".jsonl", ".jsonl");
        assert false;
      }
    }
    PerTargetIs(site, s, listing, k);
  }

  lemma {:induction false} LongerIsLater(a: string, b: string)
    requires b != ""
    ensures !LexLeq(a + b, a)
  {
    if a != "" {
      assert (a + b)[1..] == a[1..] + b;
      LongerIsLater(a[1..], b);
    }
  }

  /** How many records were accepted for the directory. */
  function CountFor(site: Site, written: seq<Fields>, dir: string): nat {
    if written == [] then 0
    else
      var last := written[|written| - 1];
      CountFor(site, written[..|written| - 1], dir) + if site.dirOf(last.projectId) == dir then 1 else 0
  }

  function CountIn(site: Site, written: seq<Fields>, listing: seq<Path>): nat {
    if listing == [] then 0
    else CountIn(site, written, listing[..|listing| - 1]) + |WrittenTo(site, written, listing[|listing| - 1])|
  }

  lemma {:induction false} CountOneMore(site: Site, written: seq<Fields>, f: Fields, listing: seq<Path>)
    requires Distinct(listing)
    ensures CountIn(site, written + [f], listing) ==
            CountIn(site, written, listing) + if PathOf(site, f.projectId, f.target) in listing then 1 else 0
  {
    if listing == [] {
    } else {
      var init, last := listing[..|listing| - 1], listing[|listing| - 1];
      CountOneMore(site, written, f, init);
      assert listing == init + [last];
      assert (written + [f])[..|written|] == written;
    }
  }

  lemma {:induction false} CountOfNothing(site: Site, listing: seq<Path>)
    ensures CountIn(site, [], listing) == 0
  {
    if listing != [] {
      CountOfNothing(site, listing[..|listing| - 1]);
    }
  }

  lemma {:induction false} EachCountedOnce(site: Site, written: seq<Fields>, dir: string, listing: seq<Path>)
    requires Distinct(listing)
    requires forall path | path in listing :: path.dir == dir
    requires forall f | f in written && site.dirOf(f.projectId) == dir :: PathOf(site, f.projectId, f.target) in listing
    ensures CountIn(site, written, listing) == CountFor(site, written, dir)
  {
    if written == [] {
      CountOfNothing(site, listing);
    } else {
      var init, last := written[..|written| - 1], written[|written| - 1];
      assert written == init + [last];
      EachCountedOnce(site, init, dir, listing);
      CountOneMore(site, init, last, listing);
    }
  }

  lemma {:induction false} WrittenHasFile(site: Site, events: seq<Event>, f: Fields)
    requires OnlyWrites(events) && f in Run(site, events).written
    ensures PathOf(site, f.projectId, f.target) in Run(site, events).files
  {
    var init, last := events[..|events| - 1], events[|events| - 1];
    if f in Run(site, init).written {
      WrittenHasFile(site, init, f);
    }
  }

  lemma {:induction false} ScansAddUp(site: Site, events: seq<Event>, listing: seq<Path>)
    requires OnlyWrites(events)
    ensures var s := Run(site, events);
            GoodIn(site, s, listing) == CountIn(site, s.written, listing) && BadIn(site, s, listing) == 0
  {
    if listing == [] {
    } else {
      ScansAddUp(site, events, listing[..|listing| - 1]);
      UntouchedScan(site, events, listing[|listing| - 1]);
    }
  }

  /** On an untouched store the scan of a project counts every write accepted for its directory once, and
      nothing as invalid. */
  lemma UntouchedIntegrity(site: Site, events: seq<Event>, projectId: string, listing: seq<Path>)
    requires OnlyWrites(events) && IsListing(Run(site, events), site.dirOf(projectId), listing)
    ensures var s := Run(site, events);
            GoodIn(site, s, listing) == CountFor(site, s.written, site.dirOf(projectId)) && BadIn(site, s, listing) == 0
  {
    var s, dir := Run(site, events), site.dirOf(projectId);
    ScansAddUp(site, events, listing);
    forall f | f in s.written && site.dirOf(f.projectId) == dir ensures PathOf(site, f.projectId, f.target) in listing {
      WrittenHasFile(site, events, f);
    }
    EachCountedOnce(site, s.written, dir, listing);
  }

  lemma {:induction false} LoadAllHolds(site: Site, s: Store, listing: seq<Path>, r: Record)
    ensures r in LoadAll(site, s, listing) <==> exists path | path in listing :: r in LoadLines(site, s.LinesAt(path))
  {
    hide LoadLines;
    if listing == [] {
    } else {
      var init, last := listing[..|listing| - 1], listing[|listing| - 1];
      assert listing == init + [last];
      LoadAllHolds(site, s, init, r);
    }
  }

  // ---- isolation ----

  /** After these events the record is among those loaded for a principal of the project. */
  predicate Sees(site: Site, events: seq<Event>, projectId: string, listing: seq<Path>, r: Record) {
    && IsListing(Run(site, events), site.dirOf(projectId), listing)
    && r in LoadAll(site, Run(site, events), listing)
  }

  /** Whatever was edited, each record loaded for a principal was accepted by an earlier write; and if
      nothing was edited, it was accepted for a project of that principal's directory. */
  lemma PrincipalSeesItsOwn(site: Site, events: seq<Event>, projectId: string, listing: seq<Path>, r: Record)
    requires Possible(site, events) && Sees(site, events, projectId, listing, r)
    ensures r.fields in Run(site, events).written
    ensures OnlyWrites(events) ==> site.dirOf(r.fields.projectId) == site.dirOf(projectId)
  {
    hide LoadLines, Possible;
    var s := Run(site, events);
    LoadAllHolds(site, s, listing, r);
    var path :| path in listing && r in LoadLines(site, s.LinesAt(path));
    LoadedWasWritten(site, events, path, r);
    if OnlyWrites(events) {
      LoadedWasIn(site, events, path, r);
    }
  }

  lemma LoadedWasIn(site: Site, events: seq<Event>, path: Path, r: Record)
    requires OnlyWrites(events) && r in LoadLines(site, Run(site, events).LinesAt(path))
    ensures site.dirOf(r.fields.projectId) == path.dir
  {
    var s := Run(site, events);
    var table, to := Table(site, s.LinesAt(path)), WrittenTo(site, s.written, path);
    WithoutHolds(table, Superseded(table), r);
    TableHoldsLines(site, s.LinesAt(path), r);
    UntouchedFiles(site, events, path);
    var i :| 0 <= i < |to| && AsLines(SignedAll(site, to))[i] == Parsed(r);
    WrittenToHolds(site, s.written, path, to[i]);
  }

  /** Every write is for one of these projects. */
  predicate UsesIds(events: seq<Event>, ids: set<string>) {
    forall i | 0 <= i < |events| && events[i].Write? :: events[i].fields.projectId in ids
  }

  /** However the store was written, a principal of the project is given records of that project only. */
  ghost predicate Isolated(site: Site, projectId: string, ids: set<string>) {
    forall events, listing, r |
      OnlyWrites(events) && UsesIds(events, ids) && Sees(site, events, projectId, listing, r) ::
      r.fields.projectId == projectId
  }

  /** No other id names the directory of the project. */
  predicate Separated(site: Site, projectId: string, ids: set<string>) {
    forall id | id in ids && id != projectId :: site.dirOf(id) != site.dirOf(projectId)
  }

  lemma {:induction false} WrittenUsesIds(site: Site, events: seq<Event>, ids: set<string>, f: Fields)
    requires OnlyWrites(events) && UsesIds(events, ids) && f in Run(site, events).written
    ensures f.projectId in ids
  {
    var init, last := events[..|events| - 1], events[|events| - 1];
    if f in Run(site, init).written {
      WrittenUsesIds(site, init, ids, f);
    }
  }

  lemma {:induction false} WritesArePossible(site: Site, events: seq<Event>)
    requires OnlyWrites(events)
    ensures Possible(site, events)
  {
    if events != [] {
      WritesArePossible(site, events[..|events| - 1]);
    }
  }

  /** Projects are kept apart exactly as far as their ids name different directories. */
  lemma IsolationIffSeparated(site: Site, projectId: string, ids: set<string>)
    ensures Isolated(site, projectId, ids) <==> Separated(site, projectId, ids)
  {
    hide Sees, Run, Possible;
    if Separated(site, projectId, ids) {
      forall events, listing, r |
        OnlyWrites(events) && UsesIds(events, ids) && Sees(site, events, projectId, listing, r)
        ensures r.fields.projectId == projectId
      {
        WritesArePossible(site, events);
        PrincipalSeesItsOwn(site, events, projectId, listing, r);
        WrittenUsesIds(site, events, ids, r.fields);
      }
    } else {
      var id :| id in ids && id != projectId && site.dirOf(id) == site.dirOf(projectId);
      var f := Fields("r1", id, "t", ToolOutput, None, None, "finding");
      OneWriteIsSeen(site, f, projectId);
      assert UsesIds([Write(f, Some(id))], ids) && OnlyWrites([Write(f, Some(id))]);
    }
  }

  lemma OneRun(site: Site, f: Fields)
    requires f.statusChange.None?
    ensures Run(site, [Write(f, Some(f.projectId))]) == Store(map[], []).Append(site, f)
  {
    hide PathOf;
    var events := [Write(f, Some(f.projectId))];
    assert events[..0] == [] && Accepted(f, Some(f.projectId));
    assert Run(site, events) == Step(site, Run(site, events[..0]), events[0]);
  }

  lemma OneRecordLoads(site: Site, f: Fields)
    requires !Overrides(f)
    ensures LoadLines(site, [Parsed(Signed(site, f))]) == [Signed(site, f)]
  {
    var records := [Signed(site, f)];
    assert AsLines(records) == [Parsed(Signed(site, f))];
    TableOfDistinct(site, records);
    assert records[..0] == [] && Superseded(records) == {};
    assert Without(records, {}) == records;
  }

  /** A single write, as every principal of the directory sees it. */
  lemma OneWriteIsSeen(site: Site, f: Fields, projectId: string)
    requires f.statusChange.None? && f.supersedes.None? && site.dirOf(f.projectId) == site.dirOf(projectId)
    ensures Sees(site, [Write(f, Some(f.projectId))], projectId, [PathOf(site, f.projectId, f.target)], Signed(site, f))
  {
    hide SafeName, LoadLines, Run;
    var events, path := [Write(f, Some(f.projectId))], PathOf(site, f.projectId, f.target);
    var s := Run(site, events);
    OneRun(site, f);
    assert s.LinesAt(path) == [Parsed(Signed(site, f))];
    OneRecordLoads(site, f);
    assert [path][..0] == [] && LoadAll(site, s, [path]) == LoadLines(site, s.LinesAt(path));
  }

  /** Two spellings of one directory: a principal of `./q` is given what a principal of `q` wrote. */
  lemma AliasedIds(site: Site)
    requires site.dirOf("./q") == site.dirOf("q")
    ensures var f := Fields("r1", "q", "t", ToolOutput, None, None, "finding");
            Sees(site, [Write(f, Some("q"))], "./q", [PathOf(site, "q", "t")], Signed(site, f))
    ensures !Isolated(site, "./q", {"q"})
  {
    OneWriteIsSeen(site, Fields("r1", "q", "t", ToolOutput, None, None, "finding"), "./q");
    assert "q" != "./q";
    IsolationIffSeparated(site, "./q", {"q"});
  }
}
