/** Which blocks are taken for real diffs already, and that a reconstructed patch is one of them. */
module PatchHeaders {
  import opened IllustrativeDiff
  import opened PatchApplies
  import opened PatchReconstruct
  import opened Text
  import opened UnifiedDiff
  import opened Wrappers

  // ---- what a real hunk header is ----

  /** Decimal digits, one or more. */
  predicate Digits(s: string) {
    s != "" && forall c | c in s :: c in "0123456789"
  }

  /** The count of a range, with its comma, or nothing. */
  predicate Count(s: string) {
    s == "" || (s[0] == ',' && Digits(s[1..]))
  }

  function HeaderText(start: string, count: string, newStart: string, newCount: string, rest: string): string {
    "@@ -" + start + count + " +" + newStart + newCount + " @@" + rest
  }

  ghost predicate Ranges(start: string, count: string, newStart: string, newCount: string) {
    Digits(start) && Count(count) && Digits(newStart) && Count(newCount)
  }

  lemma DigitsAre(s: string)
    ensures (forall c | c in s :: IsDigit(c)) <==> forall c | c in s :: c in "0123456789"
  {
    forall c: char ensures IsDigit(c) <==> c in "0123456789" {
      if IsDigit(c) {
        assert "0123456789"[c as int - '0' as int] == c;
      }
    }
  }

  lemma ReadsDigits(digits: string, rest: string)
    requires Digits(digits) && (rest == "" || !IsDigit(rest[0]))
    ensures ReadNat(digits + rest).Some? && ReadNat(digits + rest).value.1 == rest
  {
    DigitsAre(digits);
    DigitRunOf(digits, rest);
    assert (digits + rest)[|digits|..] == rest;
  }

  lemma SkipsRange(start: string, count: string, rest: string)
    requires Digits(start) && Count(count) && rest != "" && rest[0] == ' '
    ensures SkipRange(start + count + rest) == Some(rest)
  {
    hide ReadNat;
    assert start + count + rest == start + (count + rest);
    ReadsDigits(start, count + rest);
    if count != "" {
      assert (count + rest)[1..] == count[1..] + rest;
      ReadsDigits(count[1..], rest);
    } else {
      assert count + rest == rest;
    }
  }

  lemma NatIsDigits(s: string) returns (digits: string)
    requires ReadNat(s).Some?
    ensures Digits(digits) && s == digits + ReadNat(s).value.1
  {
    digits := s[..DigitRun(s)];
    DigitsAre(digits);
  }

  lemma RangeIsDigits(s: string) returns (start: string, count: string)
    requires SkipRange(s).Some?
    ensures Digits(start) && Count(count) && s == start + count + SkipRange(s).value
  {
    hide ReadNat;
    start := NatIsDigits(s);
    count := "";
    var rest := ReadNat(s).value.1;
    assert start + "" + rest == start + rest;
    if StartsWith(rest, ",") && ReadNat(rest[1..]).Some? {
      var digits := NatIsDigits(rest[1..]);
      count := "," + digits;
      assert count[1..] == digits;
      assert rest == "," + rest[1..];
      assert rest == count + ReadNat(rest[1..]).value.1;
      assert start + (count + ReadNat(rest[1..]).value.1) == start + count + ReadNat(rest[1..]).value.1;
    }
  }

  /** A line is a real hunk header exactly when it is `@@ -d[,d] +d[,d] @@` and anything, in digits. */
  lemma RealHeaderIs(line: string)
    ensures IsRealHeader(line) <==>
            exists start, count, newStart, newCount, rest | Ranges(start, count, newStart, newCount) ::
              line == HeaderText(start, count, newStart, newCount, rest)
  {
    hide SkipRange;
    if IsRealHeader(line) {
      var start, count := RangeIsDigits(line[4..]);
      var after := SkipRange(line[4..]).value;
      var newStart, newCount := RangeIsDigits(after[2..]);
      var last := SkipRange(after[2..]).value;
      assert last == " @@" + last[3..];
      assert after == " +" + after[2..] && line == "@@ -" + line[4..];
      HeaderJoins(start, count, newStart, newCount, last[3..]);
      assert line == HeaderText(start, count, newStart, newCount, last[3..]);
    }
    forall start, count, newStart, newCount, rest |
      Ranges(start, count, newStart, newCount) && line == HeaderText(start, count, newStart, newCount, rest)
      ensures IsRealHeader(line)
    {
      HeaderIsReal(start, count, newStart, newCount, rest);
    }
  }

  lemma HeaderJoins(start: string, count: string, newStart: string, newCount: string, rest: string)
    ensures HeaderText(start, count, newStart, newCount, rest) ==
            "@@ -" + (start + count + (" +" + (newStart + newCount + (" @@" + rest))))
  {
  }

  lemma HeaderIsReal(start: string, count: string, newStart: string, newCount: string, rest: string)
    requires Ranges(start, count, newStart, newCount)
    ensures IsRealHeader(HeaderText(start, count, newStart, newCount, rest))
  {
    hide SkipRange, Digits, Count;
    HeaderJoins(start, count, newStart, newCount, rest);
    var last := " @@" + rest;
    var after := " +" + (newStart + newCount + last);
    var line := "@@ -" + (start + count + after);
    assert line[4..] == start + count + after && after[2..] == newStart + newCount + last;
    SkipsRange(start, count, after);
    SkipsRange(newStart, newCount, last);
  }

  // ---- a reconstructed patch is a real diff ----

  lemma PrintedNatIsDigits(n: nat)
    ensures Digits(PrintNat(n)) && Count("," + PrintNat(n))
  {
    DigitsAre(PrintNat(n));
    assert ("," + PrintNat(n))[1..] == PrintNat(n);
  }

  /** A printed header is a real one, if it starts at no negative line. */
  lemma PrintedHeaderIsReal(oldStart: nat, oldCount: nat, newStart: nat, newCount: nat)
    ensures IsRealHeader(PrintHeader(oldStart, oldCount, newStart, newCount))
  {
    hide Digits, Count, IsRealHeader, PrintNat, PrintHeader, HeaderText;
    PrintedNatIsDigits(oldStart);
    PrintedNatIsDigits(oldCount);
    PrintedNatIsDigits(newStart);
    PrintedNatIsDigits(newCount);
    var a, b, c, d := PrintNat(oldStart), PrintNat(oldCount), PrintNat(newStart), PrintNat(newCount);
    HeaderIsReal(a, "," + b, c, "," + d, "");
    HeaderShape(oldStart, oldCount, newStart, newCount);
    HeaderJoins(a, "," + b, c, "," + d, "");
    var last := " @@" + "";
    assert last == " @@" && c + ("," + d) + last == c + ("," + (d + " @@"));
    var after := " +" + (c + ("," + (d + " @@")));
    assert a + ("," + b) + after == a + ("," + (b + after));
  }

  lemma FirstIsPrinted(hunks: seq<DiffHunk>)
    requires hunks != []
    ensures var h := hunks[0];
            PrintHeader(h.oldStart, h.oldCount, h.newStart, h.newCount) in PrintDiffHunks(hunks)
  {
    hide PrintHeader, PrintBody;
    assert PrintHunk(hunks[0])[0] in PrintHunk(hunks[0]);
  }

  lemma {:induction false} HunksArePrinted(diff: seq<DiffFile>, k: nat, line: string)
    requires k < |diff| && line in PrintDiffHunks(diff[k].hunks)
    ensures line in PrintDiffFiles(diff)
  {
    hide PrintDiffHunks;
    if k > 0 {
      HunksArePrinted(diff[1..], k - 1, line);
    }
  }

  /** The lines of a text whose last line is ended. */
  lemma LinesOfEnded(lines: seq<string>)
    requires lines != [] && forall i | 0 <= i < |lines| :: NoNewline(lines[i])
    ensures SplitNewline(JoinNewline(lines) + "\n") == lines + [""]
  {
    JoinConcat(lines, [""]);
    assert JoinNewline(lines + [""]) == JoinNewline(lines) + "\n";
    forall i | 0 <= i < |lines + [""]| ensures NoNewline((lines + [""])[i]) {
      assert i < |lines| ==> (lines + [""])[i] == lines[i];
    }
    SplitUndoesJoin(lines + [""]);
  }

  /** Ending a text changes no line of it. */
  lemma {:induction false} SplitEnded(s: string)
    ensures SplitNewline(s + "\n") == SplitNewline(s) + [""]
  {
    if s == "" {
      assert s + "\n" == "\n" && "\n"[1..] == "";
    } else {
      SplitEnded(s[1..]);
      assert (s + "\n")[1..] == s[1..] + "\n" && (s + "\n")[0] == s[0];
    }
  }

  lemma HeaderStays(block: string)
    requires HasRealHeader(block)
    ensures HasRealHeader(block + "\n")
  {
    hide IsRealHeader;
    SplitEnded(block);
    var lines := SplitNewline(block);
    var i :| 0 <= i < |lines| && IsRealHeader(lines[i]);
    assert (lines + [""])[i] == lines[i];
  }

  /** The first hunk of a file starts, old and new side alike, at the line of its anchor. */
  lemma FirstStart(source: seq<string>, hunks: seq<Hunk>)
    requires hunks != [] && FileHunks(source, Located(source, hunks), 0).Ok?
    ensures var printed := FileHunks(source, Located(source, hunks), 0).value;
            && printed != [] && printed[0].oldStart == printed[0].newStart > 0
            && printed[0].oldCount >= 0 && printed[0].newCount >= 0
  {
    hide EditOf, Edit.Fits;
  }

  /** A patch printed from an illustrative block holds a real hunk header. */
  lemma PrintedHasHeader(block: string, files: map<string, string>)
    requires !HasRealHeader(block) && Reconstructed(block, files).Ok?
    ensures HasRealHeader(Reconstructed(block, files).value)
  {
    hide HasRealHeader, IsRealHeader, Parsed, DiffOf, PrintDiffFiles, PrintDiffHunks, FileHunks, PrintHeader,
         DiffIsGood, JoinNewline, Placed, PrintedFor;
    var patches := Parsed(block).value;
    var diff := Gather(Diffs(patches, files)).value;
    ParsedIsClean(block);
    PatchIffAllStand(block, files);
    forall k | 0 <= k < |patches| ensures DiffIsGood(diff[k]) { DiffGoesThrough(patches[k], files); }
    AllGood(diff);
    FilesAreLines(diff);
    var lines := PrintDiffFiles(diff);
    var k := SomeHunk(block);
    var line := FirstHeader(patches[k], files);
    HunksArePrinted(diff, k, line);
    LinesOfEnded(lines);
    LineOf(JoinNewline(lines) + "\n", lines + [""], line);
  }

  lemma SomeHunk(block: string) returns (k: nat)
    requires Parsed(block).Ok?
    ensures k < |Parsed(block).value| && Parsed(block).value[k].hunks != []
  {
    k :| 0 <= k < |Parsed(block).value| && Parsed(block).value[k].hunks != [];
  }

  lemma FirstHeader(patch: FilePatch, files: map<string, string>) returns (line: string)
    requires patch.hunks != [] && DiffOf(patch, files).Ok?
    ensures IsRealHeader(line) && line in PrintDiffHunks(DiffOf(patch, files).value.hunks)
  {
    hide FileHunks, PrintHeader, IsRealHeader, PrintDiffHunks;
    var source := SplitNewline(files[patch.path]);
    FirstStart(source, patch.hunks);
    var h := DiffOf(patch, files).value.hunks[0];
    FirstIsPrinted(DiffOf(patch, files).value.hunks);
    PrintedHeaderIsReal(h.oldStart, h.oldCount, h.newStart, h.newCount);
    line := PrintHeader(h.oldStart, h.oldCount, h.newStart, h.newCount);
  }

  lemma LineOf(text: string, lines: seq<string>, line: string)
    requires SplitNewline(text) == lines && line in lines && IsRealHeader(line)
    ensures HasRealHeader(text)
  {
    hide IsRealHeader;
    var i :| 0 <= i < |lines| && lines[i] == line;
  }

  /** A real diff comes back as it is, over any files, with its last line ended. */
  lemma RealDiffPassesThrough(text: string, files: map<string, string>)
    requires HasRealHeader(text)
    ensures text != "" && text[|text| - 1] == '\n' ==> Reconstructed(text, files) == Ok(text)
    ensures text == "" || text[|text| - 1] != '\n' ==> Reconstructed(text, files) == Ok(text + "\n")
  {
    hide HasRealHeader, Parsed, Gather, Diffs, PrintDiffFiles, JoinNewline;
  }

  /** Whatever is reconstructed, reconstructing it again, over any files, gives it back. */
  lemma ReconstructionIsIdempotent(block: string, files: map<string, string>, again: map<string, string>)
    requires Reconstructed(block, files).Ok?
    ensures Reconstructed(Reconstructed(block, files).value, again) == Reconstructed(block, files)
  {
    hide HasRealHeader, Parsed, Gather, Diffs, PrintDiffFiles, JoinNewline;
    var text := Reconstructed(block, files).value;
    if HasRealHeader(block) {
      HeaderStays(block);
    } else {
      PrintedHasHeader(block, files);
    }
    RealDiffPassesThrough(text, again);
  }

  // ---- blocks that are no real diffs ----

  lemma {:induction false} HeadersInHunks(hunks: seq<Hunk>)
    ensures (exists line | line in PrintHunks(hunks) :: IsRealHeader(line)) <==>
            exists i | 0 <= i < |hunks| :: IsRealHeader("@@ " + hunks[i].anchor)
  {
    hide IsRealHeader;
    if hunks != [] {
      HeadersInHunks(hunks[1..]);
      var first, body := "@@ " + hunks[0].anchor, PrintBody(hunks[0].body);
      forall line | line in body ensures !IsRealHeader(line) { BodyIsNoHeader(hunks[0].body, line); }
      assert PrintHunks(hunks) == [first] + body + PrintHunks(hunks[1..]);
      if i :| 0 <= i < |hunks| && IsRealHeader("@@ " + hunks[i].anchor) {
        if i > 0 {
          assert hunks[1..][i - 1] == hunks[i];
        } else {
          assert first in PrintHunks(hunks);
        }
      }
    }
  }

  lemma BodyIsNoHeader(body: seq<BodyLine>, line: string)
    requires line in PrintBody(body)
    ensures !IsRealHeader(line)
  {
    hide SkipRange;
    var i :| 0 <= i < |body| && line == PrintBodyLine(body[i]);
    assert line[0] != '@';
  }

  lemma {:induction false} HeadersInFiles(files: seq<FilePatch>)
    ensures (exists line | line in PrintFiles(files) :: IsRealHeader(line)) <==>
            exists k, i | 0 <= k < |files| && 0 <= i < |files[k].hunks| ::
              IsRealHeader("@@ " + files[k].hunks[i].anchor)
  {
    hide IsRealHeader, PrintHunks;
    if files != [] {
      HeadersInFiles(files[1..]);
      HeadersInHunks(files[0].hunks);
      PathsAreNoHeaders(files[0].path);
      if k, i :| 0 <= k < |files| && 0 <= i < |files[k].hunks| && IsRealHeader("@@ " + files[k].hunks[i].anchor) {
        if k > 0 {
          assert files[1..][k - 1] == files[k];
        }
      }
    }
  }

  lemma PathsAreNoHeaders(path: string)
    ensures !IsRealHeader("--- a/" + path) && !IsRealHeader("+++ b/" + path)
  {
    hide SkipRange;
    assert ("--- a/" + path)[0] == '-' && ("+++ b/" + path)[0] == '+';
  }

  lemma {:induction false} SplitEndLines(lines: seq<string>)
    requires forall i | 0 <= i < |lines| :: NoNewline(lines[i])
    ensures SplitNewline(EndLines(lines)) == lines + [""]
  {
    if lines != [] {
      SplitEndLines(lines[1..]);
      SplitLine(lines[0], EndLines(lines[1..]));
      assert lines == [lines[0]] + lines[1..];
    }
  }

  /** A printed block is taken for a real diff exactly when one of its anchors makes it look like one. */
  lemma PrintedBlockHasHeader(files: seq<FilePatch>)
    requires forall i | 0 <= i < |files| :: PrintableFile(files[i])
    ensures HasRealHeader(EndLines(PrintFiles(files))) <==>
            exists k, i | 0 <= k < |files| && 0 <= i < |files[k].hunks| ::
              IsRealHeader("@@ " + files[k].hunks[i].anchor)
  {
    hide IsRealHeader, PrintFiles, PrintableFile;
    var lines, block := PrintFiles(files), EndLines(PrintFiles(files));
    PrintedFilesAreLines(files);
    OneLineNoNewline(lines);
    SplitEndLines(lines);
    HeadersInFiles(files);
    assert !IsRealHeader("") by { NoEmptyHeader(); }
    if line :| line in lines && IsRealHeader(line) {
      LineOf(block, lines + [""], line);
    }
    if HasRealHeader(block) {
      var i :| 0 <= i < |SplitNewline(block)| && IsRealHeader(SplitNewline(block)[i]);
      assert (lines + [""])[i] in lines;
    }
  }

  lemma NoEmptyHeader()
    ensures !IsRealHeader("")
  {
  }

  lemma OneLineNoNewline(lines: seq<string>)
    requires forall i | 0 <= i < |lines| :: OneLine(lines[i])
    ensures forall i | 0 <= i < |lines| :: NoNewline(lines[i])
  {
  }

  lemma NoSuchAnchor(anchor: string)
    requires anchor == "" || anchor[0] != '-'
    ensures !IsRealHeader("@@ " + anchor)
  {
    hide SkipRange;
    var line := "@@ " + anchor;
    assert |line| > 3 ==> line[3] == anchor[0];
  }

  /** From the structure of an illustrative diff to the edited files: a block that is printed from files whose
      anchors do not begin with `-` is no real diff, gives a patch exactly when all its hunks stand, and that
      patch makes the edits. */
  lemma PrintedBlockDoesTheEdits(patches: seq<FilePatch>, files: map<string, string>)
    requires AnyHunk(patches) && forall i | 0 <= i < |patches| :: PrintableFile(patches[i])
    requires forall k, i | 0 <= k < |patches| && 0 <= i < |patches[k].hunks| ::
               patches[k].hunks[i].anchor == "" || patches[k].hunks[i].anchor[0] != '-'
    ensures var block := EndLines(PrintFiles(patches));
            && !HasRealHeader(block)
            && (Reconstructed(block, files).Ok? <==> AllStand(patches, files))
            && (AllStand(patches, files) ==>
                  && AllPlaced(patches, files)
                  && var diff := ReadPatch(Reconstructed(block, files).value);
                     diff.Some? && ApplyPatch(files, diff.value) == AfterEdits(patches, files, files))
  {
    hide HasRealHeader, IsRealHeader, Parsed, AnyHunk, PrintableFile, AllStand, AllPlaced, ApplyPatch, AfterEdits,
         Reconstructed, ReadPatch, PrintFiles, EndLines;
    var block := EndLines(PrintFiles(patches));
    ParseUndoesPrint(patches);
    PrintedBlockHasHeader(patches);
    forall k, i | 0 <= k < |patches| && 0 <= i < |patches[k].hunks|
      ensures !IsRealHeader("@@ " + patches[k].hunks[i].anchor)
    {
      NoSuchAnchor(patches[k].hunks[i].anchor);
    }
    PatchIffAllStand(block, files);
    if AllStand(patches, files) {
      PatchDoesTheEdits(block, files);
    }
  }
}
