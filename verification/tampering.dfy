/** What somebody who changes the files of the memory can and cannot achieve: what a load returns from any lines,
    and what the integrity scan says of a changed one. */
module Tampering {
  import opened Episodic
  import opened Wrappers

  // ---- loads from any lines ----

  /** A well-signed record with this id. */
  predicate HasId(site: Site, line: Line, recordId: string) {
    GoodLine(site, line) && line.record.fields.recordId == recordId
  }

  /** Line `i` is this record, well signed, and no later record has its id. */
  predicate Stands(site: Site, lines: seq<Line>, i: int, r: Record) {
    && 0 <= i < |lines| && lines[i] == Parsed(r) && GoodLine(site, lines[i])
    && forall j | i < j < |lines| :: !HasId(site, lines[j], r.fields.recordId)
  }

  lemma PutIs(valid: seq<Record>, r: Record, x: Record)
    requires DistinctIds(valid)
    ensures DistinctIds(Put(valid, r))
    ensures x in Put(valid, r) <==> x == r || (x in valid && x.fields.recordId != r.fields.recordId)
  {
    if valid != [] && valid[0].fields.recordId != r.fields.recordId {
      PutIs(valid[1..], r, x);
      var rest := Put(valid[1..], r);
      forall k | 0 <= k < |rest| ensures rest[k].fields.recordId != valid[0].fields.recordId {
        PutIs(valid[1..], r, rest[k]);
      }
    }
  }

  lemma {:induction false} TableIs(site: Site, lines: seq<Line>, r: Record)
    ensures DistinctIds(Table(site, lines))
    ensures r in Table(site, lines) <==> exists i :: Stands(site, lines, i, r)
  {
    hide Put, DistinctIds, Stands;
    if lines == [] {
      NothingStands(site, r);
    } else {
      var n := |lines| - 1;
      TableIs(site, lines[..n], r);
      StandsThen(site, lines, r);
      if GoodLine(site, lines[n]) {
        PutIs(Table(site, lines[..n]), lines[n].record, r);
      }
    }
  }

  lemma NothingStands(site: Site, r: Record)
    ensures DistinctIds([]) && forall i :: !Stands(site, [], i, r)
  {
  }

  lemma StandsThen(site: Site, lines: seq<Line>, r: Record)
    requires lines != []
    ensures var init, last := lines[..|lines| - 1], lines[|lines| - 1];
            (exists i :: Stands(site, lines, i, r)) <==>
            || (last == Parsed(r) && GoodLine(site, last))
            || ((exists i :: Stands(site, init, i, r)) && !HasId(site, last, r.fields.recordId))
  {
    hide GoodLine;
    var n := |lines| - 1;
    var init := lines[..n];
    if lines[n] == Parsed(r) && GoodLine(site, lines[n]) {
      assert Stands(site, lines, n, r);
    }
    if i :| Stands(site, init, i, r) && !HasId(site, lines[n], r.fields.recordId) {
      forall j | i < j < |lines| ensures !HasId(site, lines[j], r.fields.recordId) {
        assert j < n ==> init[j] == lines[j];
      }
      assert Stands(site, lines, i, r);
    }
    if i :| Stands(site, lines, i, r) && i != n {
      forall j | i < j < |init| ensures !HasId(site, init[j], r.fields.recordId) {
        assert init[j] == lines[j];
      }
      assert Stands(site, init, i, r);
    }
  }

  /** What a load returns from any lines: the last well-signed record of every id, unless another such record
      names it as superseded. */
  lemma LoadedFromAnyLines(site: Site, lines: seq<Line>, r: Record)
    ensures DistinctIds(Table(site, lines))
    ensures r in LoadLines(site, lines) <==>
            && (exists i :: Stands(site, lines, i, r))
            && (r.fields.recordId != "" ==>
                  !exists j, q :: Stands(site, lines, j, q) && q.fields.supersedes == Some(r.fields.recordId))
  {
    hide Stands, DistinctIds;
    var table, recordId := Table(site, lines), r.fields.recordId;
    TableIs(site, lines, r);
    WithoutHolds(table, Superseded(table), r);
    if recordId in Superseded(table) {
      var k :| 0 <= k < |table| && Overrides(table[k].fields) && table[k].fields.supersedes.value == recordId;
      TableIs(site, lines, table[k]);
    }
    if j, q :| Stands(site, lines, j, q) && q.fields.supersedes == Some(recordId) && recordId != "" {
      TableIs(site, lines, q);
      var k :| 0 <= k < |table| && table[k] == q;
      assert Overrides(table[k].fields);
    }
  }

  // ---- the scan of a changed file ----

  function Pairs(path: Path, numbers: set<int>): set<(Path, int)> {
    set i | i in numbers :: (path, i)
  }

  lemma {:induction false} AsManyPairs(path: Path, numbers: set<int>, n: nat)
    requires forall i | i in numbers :: 0 <= i < n
    ensures |Pairs(path, numbers)| == |numbers|
  {
    if n == 0 {
      assert forall i :: i !in numbers;
      assert numbers == {};
      assert Pairs(path, numbers) == {};
    } else if n - 1 in numbers {
      AsManyPairs(path, numbers - {n - 1}, n - 1);
      assert Pairs(path, numbers) == Pairs(path, numbers - {n - 1}) + {(path, n - 1)};
    } else {
      AsManyPairs(path, numbers, n - 1);
    }
  }

  function BadNumbers(site: Site, lines: seq<Line>): set<int> {
    set i | 0 <= i < |lines| && IsBad(site, lines[i])
  }

  lemma NumbersAreInRange(site: Site, lines: seq<Line>)
    ensures forall i | i in BadNumbers(site, lines) :: 0 <= i < |lines|
  {
  }

  /** The lines of these files that are neither empty nor well-signed records. */
  function BadLines(site: Site, s: Store, listing: seq<Path>): set<(Path, int)> {
    set path, i | path in listing && 0 <= i < |s.LinesAt(path)| && IsBad(site, s.LinesAt(path)[i]) :: (path, i)
  }

  lemma BadLinesStep(site: Site, s: Store, init: seq<Path>, last: Path)
    requires last !in init
    ensures var here := Pairs(last, BadNumbers(site, s.LinesAt(last)));
            && BadLines(site, s, init + [last]) == BadLines(site, s, init) + here
            && BadLines(site, s, init) !! here
  {
    hide IsBad;
  }

  /** What the scan of a project calls invalid is the number of such lines in its files. */
  lemma {:induction false} InvalidLinesAre(site: Site, s: Store, listing: seq<Path>)
    requires Distinct(listing)
    ensures BadIn(site, s, listing) == |BadLines(site, s, listing)|
  {
    hide Bad, IsBad, BadLines, BadNumbers, Pairs;
    if listing == [] {
      assert BadLines(site, s, []) == {} by { NoBadLines(site, s); }
    } else {
      var init, last := listing[..|listing| - 1], listing[|listing| - 1];
      assert listing == init + [last];
      InvalidLinesAre(site, s, init);
      BadIsCount(site, s.LinesAt(last));
      NumbersAreInRange(site, s.LinesAt(last));
      AsManyPairs(last, BadNumbers(site, s.LinesAt(last)), |s.LinesAt(last)|);
      BadLinesStep(site, s, init, last);
    }
  }

  lemma NoBadLines(site: Site, s: Store)
    ensures BadLines(site, s, []) == {}
  {
  }

  lemma BadIsCount(site: Site, lines: seq<Line>)
    ensures Bad(site, lines) == |BadNumbers(site, lines)|
  {
    BadIs(site, lines);
    assert BadNumbers(site, lines)
        == set i | 0 <= i < |lines| && lines[i] != Blank && !GoodLine(site, lines[i]);
  }

  /** One line of a file is replaced. */
  lemma {:induction false} CountsAfterChange(site: Site, lines: seq<Line>, k: nat, line: Line)
    requires k < |lines|
    ensures Good(site, lines[k := line]) ==
            Good(site, lines) - (if GoodLine(site, lines[k]) then 1 else 0) + if GoodLine(site, line) then 1 else 0
    ensures Bad(site, lines[k := line]) ==
            Bad(site, lines) - (if IsBad(site, lines[k]) then 1 else 0) + if IsBad(site, line) then 1 else 0
  {
    var n, changed := |lines| - 1, lines[k := line];
    if k == n {
      assert changed[..n] == lines[..n];
    } else {
      CountsAfterChange(site, lines[..n], k, line);
      assert changed[..n] == lines[..n][k := line] && changed[n] == lines[n];
    }
  }

  /** Neither empty nor a well-signed record. */
  predicate IsBad(site: Site, line: Line) {
    line != Blank && !GoodLine(site, line)
  }

  /** Another version of one file of the listing. */
  lemma {:induction false} TotalsAfterChange(site: Site, s: Store, listing: seq<Path>, path: Path, lines: seq<Line>)
    requires Distinct(listing)
    ensures var t := s.(files := s.files[path := lines]);
            && GoodIn(site, t, listing) - GoodIn(site, s, listing) ==
               (if path in listing then Good(site, lines) - Good(site, s.LinesAt(path)) else 0)
            && BadIn(site, t, listing) - BadIn(site, s, listing) ==
               (if path in listing then Bad(site, lines) - Bad(site, s.LinesAt(path)) else 0)
  {
    hide Good, Bad;
    if listing != [] {
      var init, last := listing[..|listing| - 1], listing[|listing| - 1];
      assert listing == init + [last];
      TotalsAfterChange(site, s, init, path, lines);
    }
  }

  lemma AllLinesGood(site: Site, events: seq<Event>, path: Path, k: nat)
    requires OnlyWrites(events) && k < |Run(site, events).LinesAt(path)|
    ensures GoodLine(site, Run(site, events).LinesAt(path)[k])
  {
    hide Run, WrittenTo;
    UntouchedFiles(site, events, path);
  }

  /** Somebody replaces one line of an untouched memory by a record whose signature is not the one its fields have:
      the scan of the project then reports exactly one invalid line, and one valid line less than were written. */
  lemma TamperedRecordIsReported(site: Site, events: seq<Event>, projectId: string, listing: seq<Path>, path: Path,
                                 k: nat, r: Record)
    requires OnlyWrites(events) && IsListing(Run(site, events), site.dirOf(projectId), listing) && path in listing
    requires k < |Run(site, events).LinesAt(path)| && r.signature != Some(site.sign(r.fields))
    ensures var dir, s := site.dirOf(projectId), Run(site, events);
            var edited := events + [Edit(path, s.LinesAt(path)[k := Parsed(r)])];
            var t := Run(site, edited);
            && Possible(site, edited) && IsListing(t, dir, listing)
            && BadIn(site, t, listing) == 1 && GoodIn(site, t, listing) == CountFor(site, s.written, dir) - 1
  {
    hide Run, Possible, CountFor, GoodIn, BadIn, Good, Bad, Genuine, EditorCannotSign;
    var s := Run(site, events);
    var lines := s.LinesAt(path)[k := Parsed(r)];
    AllLinesGood(site, events, path, k);
    CountsAfterChange(site, s.LinesAt(path), k, Parsed(r));
    TotalsAfterChange(site, s, listing, path, lines);
    UntouchedIntegrity(site, events, projectId, listing);
    WritesArePossible(site, events);
    ChangeIsPossible(site, events, path, k, r);
    EditIsLast(site, events, path, lines);
    ListedAsBefore(s, site.dirOf(projectId), listing, path, lines);
  }

  lemma EditIsLast(site: Site, events: seq<Event>, path: Path, lines: seq<Line>)
    ensures var s := Run(site, events);
            Run(site, events + [Edit(path, lines)]) == s.(files := s.files[path := lines])
    ensures Possible(site, events + [Edit(path, lines)]) <==>
            Possible(site, events) && EditorCannotSign(Run(site, events), site, lines)
  {
    hide EditorCannotSign;
    var edited := events + [Edit(path, lines)];
    assert edited[..|edited| - 1] == events;
  }

  lemma ListedAsBefore(s: Store, dir: string, listing: seq<Path>, path: Path, lines: seq<Line>)
    requires IsListing(s, dir, listing) && path in listing
    ensures IsListing(s.(files := s.files[path := lines]), dir, listing)
  {
  }

  lemma ChangeIsPossible(site: Site, events: seq<Event>, path: Path, k: nat, r: Record)
    requires Possible(site, events) && k < |Run(site, events).LinesAt(path)| && r.signature != Some(site.sign(r.fields))
    ensures EditorCannotSign(Run(site, events), site, Run(site, events).LinesAt(path)[k := Parsed(r)])
  {
    hide Run, Possible;
    var s := Run(site, events);
    RunsStayGenuine(site, events);
    assert path in s.files;
    var lines, changed := s.LinesAt(path), s.LinesAt(path)[k := Parsed(r)];
    forall i | 0 <= i < |changed| && GoodLine(site, changed[i]) ensures changed[i].record.fields in s.written {
      assert i != k && changed[i] == lines[i];
    }
  }
}
