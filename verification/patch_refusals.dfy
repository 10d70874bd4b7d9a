/** When there is no patch, and what is then said. */
module PatchRefusals {
  import opened IllustrativeDiff
  import opened PatchApplies
  import opened PatchReconstruct
  import opened Selection
  import opened Text
  import opened UnifiedDiff
  import opened Wrappers

  // ---- blocks that do not parse ----

  /** Every marker comes after some header of a new file. */
  predicate MarkersHaveFiles(lines: seq<string>) {
    forall j | 0 <= j < |lines| && "@@" <= lines[j] :: exists i | 0 <= i < j :: "+++ " <= lines[i]
  }

  /** A block parses if and only if it has a marker, and every marker comes after some header; otherwise it is called
      malformed. */
  lemma ParsesIff(block: string)
    ensures Parsed(block).Ok? <==>
            && MarkersHaveFiles(SplitLines(block))
            && exists j | 0 <= j < |SplitLines(block)| :: "@@" <= SplitLines(block)[j]
    ensures Parsed(block).Refused? ==> Parsed(block).reason == Malformed
  {
    hide SplitLines, ParseLines, MarkersHaveFiles, AnyHunk;
    ParsesFrom(Parser([], false), SplitLines(block));
    NoHunks();
  }

  lemma NoHunks()
    ensures !AnyHunk([])
  {
  }

  lemma {:induction false} ParsesFrom(p: Parser, lines: seq<string>)
    requires p.Valid()
    ensures var r := ParseLines(p, lines);
            && (r.Ok? <==> p.files != [] || MarkersHaveFiles(lines))
            && (r.Refused? ==> r.reason == Malformed)
            && (r.Ok? ==> (AnyHunk(r.value.files) <==>
                           AnyHunk(p.files) || exists j | 0 <= j < |lines| :: "@@" <= lines[j]))
    decreases lines
  {
    hide ParseLine, AnyHunk, MarkersHaveFiles;
    if lines == [] {
      NoMarkers(lines);
    } else {
      LineStep(p, lines[0]);
      MarkersStep(lines);
      if ParseLine(p, lines[0]).Ok? {
        ParsesFrom(ParseLine(p, lines[0]).value, lines[1..]);
      }
      assert (exists j | 0 <= j < |lines| :: "@@" <= lines[j]) <==>
             "@@" <= lines[0] || exists j | 0 <= j < |lines[1..]| :: "@@" <= lines[1..][j] by {
        assert forall j | 0 < j < |lines| :: lines[j] == lines[1..][j - 1];
      }
    }
  }

  lemma NoMarkers(lines: seq<string>)
    requires lines == []
    ensures MarkersHaveFiles(lines)
  {
  }

  lemma MarkersStep(lines: seq<string>)
    requires lines != []
    ensures MarkersHaveFiles(lines) <==>
            !("@@" <= lines[0]) && ("+++ " <= lines[0] || MarkersHaveFiles(lines[1..]))
  {
    var rest := lines[1..];
    assert forall j | 0 < j < |lines| :: lines[j] == rest[j - 1];
    if MarkersHaveFiles(lines) && !("+++ " <= lines[0]) {
      forall j | 0 <= j < |rest| && "@@" <= rest[j] ensures exists i | 0 <= i < j :: "+++ " <= rest[i] {
        var i :| 0 <= i < j + 1 && "+++ " <= lines[i];
        assert "+++ " <= rest[i - 1];
      }
    }
    if !("@@" <= lines[0]) && ("+++ " <= lines[0] || MarkersHaveFiles(rest)) {
      forall j | 0 <= j < |lines| && "@@" <= lines[j] ensures exists i | 0 <= i < j :: "+++ " <= lines[i] {
        if !("+++ " <= lines[0]) {
          var i :| 0 <= i < j - 1 && "+++ " <= rest[i];
          assert "+++ " <= lines[i + 1];
        }
      }
    }
  }

  lemma LineStep(p: Parser, raw: string)
    requires p.Valid()
    ensures var r := ParseLine(p, raw);
            && (r.Refused? <==> "@@" <= raw && p.files == [])
            && (r.Refused? ==> r.reason == Malformed)
            && (r.Ok? ==> (r.value.files != [] <==> p.files != [] || "+++ " <= raw))
            && (r.Ok? ==> (AnyHunk(r.value.files) <==> AnyHunk(p.files) || "@@" <= raw))
  {
    hide MarkerAnchor, IllustrativeDiff.ReadBodyLine, StripAb, Strip, AnyHunk;
    assert "--- " <= raw ==> raw[0] == '-';
    assert "+++ " <= raw ==> raw[0] == '+';
    assert "@@" <= raw ==> raw[0] == '@';
    if "+++ " <= raw {
      OneMoreFile(p.files, FilePatch(StripAb(Strip(raw[4..])), []));
    } else if "@@" <= raw {
      if p.files != [] {
        var f := Last(p.files);
        OtherLast(p.files, f.(hunks := f.hunks + [Hunk(MarkerAnchor(raw), [])]));
      }
    } else if !("--- " <= raw) && p.open {
      var f := Last(p.files);
      OtherLast(p.files, ParseLine(p, raw).value.files[|p.files| - 1]);
    }
  }

  lemma OneMoreFile(files: seq<FilePatch>, f: FilePatch)
    ensures AnyHunk(files + [f]) <==> AnyHunk(files) || f.hunks != []
  {
    assert (files + [f])[|files|] == f;
    assert forall i | 0 <= i < |files| :: (files + [f])[i] == files[i];
  }

  lemma OtherLast(files: seq<FilePatch>, f: FilePatch)
    requires files != [] && f.hunks != []
    ensures AnyHunk(SetLast(files, f))
    ensures Last(files).hunks != [] ==> AnyHunk(files)
  {
    assert SetLast(files, f)[|files| - 1] == f;
  }

  // ---- hunks that do not stand ----

  const IN_OLD := (line: BodyLine) => line.kind != Addition
  const IN_NEW := (line: BodyLine) => line.kind != Removal
  const TEXT := (line: BodyLine) => line.text

  /** The old side of a body is all but its additions. */
  lemma {:induction false} OldSideIs(body: seq<BodyLine>)
    ensures Picks(body, IN_OLD, TEXT, OldSide(body))
  {
    hide Picks, OldSide;
    if body == [] {
      PicksNothing(IN_OLD, TEXT);
      SidesOfNone();
    } else {
      var init, last := body[..|body| - 1], body[|body| - 1];
      assert body == init + [last];
      OldSideIs(init);
      OldSideOfConcat(init, [last]);
      SidesOfOne(last);
      PicksMore(init, IN_OLD, TEXT, OldSide(init), last);
      assert OldSide(body) == if IN_OLD(last) then OldSide(init) + [TEXT(last)] else OldSide(init);
    }
  }

  lemma SidesOfNone()
    ensures OldSide([]) == [] == NewSide([])
  {
  }

  lemma SidesOfOne(line: BodyLine)
    ensures OldSide([line]) == if line.kind != Addition then [line.text] else []
    ensures NewSide([line]) == if line.kind != Removal then [line.text] else []
  {
  }

  /** The new side is all but its removals. */
  lemma {:induction false} NewSideIs(body: seq<BodyLine>)
    ensures Picks(body, IN_NEW, TEXT, NewSide(body))
  {
    hide Picks, NewSide;
    if body == [] {
      PicksNothing(IN_NEW, TEXT);
      SidesOfNone();
    } else {
      var init, last := body[..|body| - 1], body[|body| - 1];
      assert body == init + [last];
      NewSideIs(init);
      NewSideOfConcat(init, [last]);
      SidesOfOne(last);
      PicksMore(init, IN_NEW, TEXT, NewSide(init), last);
      assert NewSide(body) == if IN_NEW(last) then NewSide(init) + [TEXT(last)] else NewSide(init);
    }
  }

  /** A line is the anchor but for the white space around it. */
  predicate Anchors(source: seq<string>, anchor: string, i: int) {
    0 <= i < |source| && Strip(source[i]) == Strip(anchor)
  }

  /** Why a hunk is refused: no line is its anchor, or two are, or one is and the old side of its body does not
      follow. */
  lemma HunkRefusalIs(source: seq<string>, hunk: Hunk)
    ensures EditOf(source, hunk) == Refused(AnchorNotFound) <==> forall i :: !Anchors(source, hunk.anchor, i)
    ensures EditOf(source, hunk) == Refused(AnchorAmbiguous) <==>
            exists i, j | i < j :: Anchors(source, hunk.anchor, i) && Anchors(source, hunk.anchor, j)
    ensures EditOf(source, hunk) == Refused(ContextMismatch) <==>
            exists i :: && Anchors(source, hunk.anchor, i) && (forall j | j != i :: !Anchors(source, hunk.anchor, j))
                        && !(OldSide(hunk.body) <= source[i + 1..])
    ensures EditOf(source, hunk).Ok? ==>
              var at := EditOf(source, hunk).value.at;
              && Anchors(source, hunk.anchor, at) && (forall j | j != at :: !Anchors(source, hunk.anchor, j))
              && OldSide(hunk.body) <= source[at + 1..]
    ensures EditOf(source, hunk).Refused? ==>
              EditOf(source, hunk).reason in {AnchorNotFound, AnchorAmbiguous, ContextMismatch}
  {
    hide Strip, OldSide, LocateAnchor;
    LocatedExactly(source, hunk.anchor);
    forall i: nat ensures Anchors(source, hunk.anchor, i) <==> IsHit(source, hunk.anchor, i) {
    }
    forall at: nat | at < |source| ensures BodyFits(source, at, hunk.body) <==> OldSide(hunk.body) <= source[at + 1..] {
      FitsIsPrefix(source, at, OldSide(hunk.body));
    }
  }

  lemma FitsIsPrefix(source: seq<string>, at: nat, texts: seq<string>)
    requires at < |source|
    ensures texts <= source[at + 1..] <==> at + 1 + |texts| <= |source| && source[at + 1..at + 1 + |texts|] == texts
  {
    if texts <= source[at + 1..] {
      assert source[at + 1..][..|texts|] == source[at + 1..at + 1 + |texts|];
    }
    if at + 1 + |texts| <= |source| && source[at + 1..at + 1 + |texts|] == texts {
      assert source[at + 1..][..|texts|] == texts;
    }
  }

  // ---- the first refusal ----

  /** Hunk `i` of section `k` is the first that does not stand, and this is why; or the file of the section does not
      exist. */
  ghost predicate FirstRefused(patches: seq<FilePatch>, files: map<string, string>, k: nat, i: nat, reason: Reason) {
    && k < |patches| && AllStand(patches[..k], files)
    && if patches[k].path !in files then i == 0 && reason == FileNotFound
       else
         var source := SplitNewline(files[patches[k].path]);
         && i < |patches[k].hunks| && (forall j | 0 <= j < i :: Stands(source, patches[k].hunks[j]))
         && EditOf(source, patches[k].hunks[i]) == Refused(reason)
  }

  lemma {:induction false} FileHunksRefused(source: seq<string>, found: seq<Result<Edit>>, delta: int, i: nat)
    requires AllFit(source, found)
    requires i < |found| && found[i].Refused? && forall j | 0 <= j < i :: found[j].Ok?
    ensures FileHunks(source, found, delta) == Refused(found[i].reason)
    decreases found
  {
    hide Edit.Printed;
    if i > 0 {
      var h := found[0].value.Printed(source, delta);
      FileHunksRefused(source, found[1..], delta + h.newCount - h.oldCount, i - 1);
    }
  }

  lemma FirstRefusalInFile(patch: FilePatch, files: map<string, string>, i: nat)
    requires patch.path in files && i < |patch.hunks|
    requires var source := SplitNewline(files[patch.path]);
             && EditOf(source, patch.hunks[i]).Refused?
             && forall j | 0 <= j < i :: Stands(source, patch.hunks[j])
    ensures DiffOf(patch, files) == Refused(EditOf(SplitNewline(files[patch.path]), patch.hunks[i]).reason)
  {
    hide EditOf, FileHunks, SplitNewline, Stands;
    var source := SplitNewline(files[patch.path]);
    forall j | 0 <= j < i ensures EditOf(source, patch.hunks[j]).Ok? { StandsIffLocated(source, patch.hunks[j]); }
    FileHunksRefused(source, Located(source, patch.hunks), 0, i);
  }

  lemma RefusedSomewhere(patch: FilePatch, files: map<string, string>) returns (i: nat)
    requires DiffOf(patch, files).Refused? && patch.path in files
    ensures i < |patch.hunks|
    ensures var source := SplitNewline(files[patch.path]);
            && EditOf(source, patch.hunks[i]) == Refused(DiffOf(patch, files).reason)
            && forall j | 0 <= j < i :: Stands(source, patch.hunks[j])
  {
    hide EditOf, FileHunks, SplitNewline, Stands, DiffOf;
    var source := SplitNewline(files[patch.path]);
    DiffOk(patch, files);
    i := 0;
    while Stands(source, patch.hunks[i])
      invariant i < |patch.hunks| && forall j | 0 <= j < i :: Stands(source, patch.hunks[j])
      decreases |patch.hunks| - i
    {
      i := i + 1;
    }
    StandsIffLocated(source, patch.hunks[i]);
    FirstRefusalInFile(patch, files, i);
  }

  lemma SectionRefused(patches: seq<FilePatch>, files: map<string, string>, k: nat, i: nat, reason: Reason)
    requires FirstRefused(patches, files, k, i, reason)
    ensures Gather(Diffs(patches, files)) == Refused(reason)
  {
    hide EditOf, SplitNewline, Stands, DiffOf;
    var diffs := Diffs(patches, files);
    forall n | 0 <= n < k ensures diffs[n].Ok? {
      assert patches[..k][n] == patches[n];
      DiffOk(patches[n], files);
    }
    RefusedAt(patches[k], files, i, reason);
    assert diffs[k] == Refused(reason);
  }

  lemma RefusedAt(patch: FilePatch, files: map<string, string>, i: nat, reason: Reason)
    requires FirstRefused([patch], files, 0, i, reason)
    ensures DiffOf(patch, files) == Refused(reason)
  {
    hide EditOf, SplitNewline, Stands;
    if patch.path in files {
      FirstRefusalInFile(patch, files, i);
    }
  }

  lemma SomeSectionRefused(patches: seq<FilePatch>, files: map<string, string>) returns (k: nat, i: nat)
    requires Gather(Diffs(patches, files)).Refused?
    ensures FirstRefused(patches, files, k, i, Gather(Diffs(patches, files)).reason)
  {
    hide EditOf, SplitNewline, Stands, DiffOf, AllStand, Gather;
    var reason := Gather(Diffs(patches, files)).reason;
    k := FirstSectionRefused(patches, files, reason);
    i := 0;
    SectionsStand(patches[..k], files);
    if patches[k].path in files {
      i := RefusedSomewhere(patches[k], files);
    } else {
      DiffOfMissing(patches[k], files);
    }
  }

  lemma FirstSectionRefused(patches: seq<FilePatch>, files: map<string, string>, reason: Reason) returns (k: nat)
    requires Gather(Diffs(patches, files)) == Refused(reason)
    ensures k < |patches| && DiffOf(patches[k], files) == Refused(reason)
    ensures forall n | 0 <= n < k :: DiffOf(patches[..k][n], files).Ok?
  {
    hide DiffOf;
    var diffs := Diffs(patches, files);
    k :| k < |diffs| && diffs[k] == Refused(reason) && forall n | 0 <= n < k :: diffs[n].Ok?;
    forall n | 0 <= n < k ensures DiffOf(patches[..k][n], files).Ok? {
      assert diffs[n].Ok?;
    }
  }

  lemma SectionsStand(patches: seq<FilePatch>, files: map<string, string>)
    requires forall n | 0 <= n < |patches| :: DiffOf(patches[n], files).Ok?
    ensures AllStand(patches, files)
  {
    hide EditOf, SplitNewline, Stands, DiffOf;
    forall n | 0 <= n < |patches| { DiffOk(patches[n], files); }
  }

  lemma DiffOfMissing(patch: FilePatch, files: map<string, string>)
    requires patch.path !in files
    ensures DiffOf(patch, files) == Refused(FileNotFound)
  {
  }

  /** What is said of a block that parses and has no patch: the first section whose file does not exist, or the first
      hunk of it that does not stand, decides. */
  lemma RefusalIs(block: string, files: map<string, string>, reason: Reason)
    requires !HasRealHeader(block) && Parsed(block).Ok?
    ensures Reconstructed(block, files) == Refused(reason) <==>
            exists k, i :: FirstRefused(Parsed(block).value, files, k, i, reason)
  {
    hide HasRealHeader, Parsed, FirstRefused, Diffs, Gather, PrintDiffFiles, JoinNewline;
    var patches := Parsed(block).value;
    if Reconstructed(block, files) == Refused(reason) {
      var k, i := SomeSectionRefused(patches, files);
    }
    forall k, i | FirstRefused(patches, files, k, i, reason) ensures Reconstructed(block, files) == Refused(reason) {
      SectionRefused(patches, files, k, i, reason);
    }
  }
}
