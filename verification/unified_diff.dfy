/** A reference reader and a reference applier for the unified diff format (POSIX `diff`, "Diff -u or
    -U Output Format"). The applier is strict: a hunk must sit exactly where its header says, on both
    sides, and its context and removal lines must equal the file's. */
module UnifiedDiff {
  import opened Wrappers
  import opened Text
  import opened IllustrativeDiff

  datatype DiffHunk = DiffHunk(oldStart: int, oldCount: int, newStart: int, newCount: int,
                               lines: seq<BodyLine>)

  datatype DiffFile = DiffFile(path: string, hunks: seq<DiffHunk>)

  function OldTexts(line: BodyLine): seq<string> {
    if line.kind == Addition then [] else [line.text]
  }

  function NewTexts(line: BodyLine): seq<string> {
    if line.kind == Removal then [] else [line.text]
  }

  /** The lines a hunk body expects in the old file. */
  function OldSide(lines: seq<BodyLine>): seq<string> {
    if lines == [] then []
    else OldTexts(lines[0]) + OldSide(lines[1..])
  }

  /** The lines a hunk body leaves in the new file. */
  function NewSide(lines: seq<BodyLine>): seq<string> {
    if lines == [] then []
    else NewTexts(lines[0]) + NewSide(lines[1..])
  }

  function Contexts(texts: seq<string>): seq<BodyLine> {
    seq(|texts|, i requires 0 <= i < |texts| => BodyLine(Context, texts[i]))
  }

  lemma ConcatAssociates<T>(a: seq<T>, b: seq<T>, c: seq<T>)
    ensures a + (b + c) == (a + b) + c
  {
  }

  lemma {:induction false} OldSideOfConcat(a: seq<BodyLine>, b: seq<BodyLine>)
    ensures OldSide(a + b) == OldSide(a) + OldSide(b)
  {
    if a == [] {
      assert a + b == b;
    } else {
      OldSideOfConcat(a[1..], b);
      assert (a + b)[1..] == a[1..] + b;
      ConcatAssociates(OldTexts(a[0]), OldSide(a[1..]), OldSide(b));
    }
  }

  lemma {:induction false} NewSideOfConcat(a: seq<BodyLine>, b: seq<BodyLine>)
    ensures NewSide(a + b) == NewSide(a) + NewSide(b)
  {
    if a == [] {
      assert a + b == b;
    } else {
      NewSideOfConcat(a[1..], b);
      assert (a + b)[1..] == a[1..] + b;
      ConcatAssociates(NewTexts(a[0]), NewSide(a[1..]), NewSide(b));
    }
  }

  lemma {:induction false} SidesOfContexts(texts: seq<string>)
    ensures OldSide(Contexts(texts)) == texts && NewSide(Contexts(texts)) == texts
  {
    if texts != [] {
      SidesOfContexts(texts[1..]);
      assert Contexts(texts)[1..] == Contexts(texts[1..]);
      assert texts == [texts[0]] + texts[1..];
    }
  }

  // ---- reading ----

  function Expect(s: string, literal: string): Option<string> {
    if StartsWith(s, literal) then Some(s[|literal|..]) else None
  }

  function ReadNat(s: string): Option<(nat, string)> {
    var k := DigitRun(s);
    if k == 0 then None else Some((ValueOf(s[..k]), s[k..]))
  }

  /** A number with an optional sign. The format knows no negative numbers; reading one leaves the
      refusal to the applier. */
  function ReadInt(s: string): Option<(int, string)> {
    if StartsWith(s, "-") then
      match ReadNat(s[1..])
      case Some((n, rest)) => Some((-(n as int), rest))
      case None => None
    else
      match ReadNat(s)
      case Some((n, rest)) => Some((n, rest))
      case None => None
  }

  /** "start,count", or "start" alone for a range of one line */
  function ReadRange(s: string): Option<(int, int, string)> {
    match ReadInt(s)
    case None => None
    case Some((start, rest)) =>
      if !StartsWith(rest, ",") then Some((start, 1, rest))
      else
        match ReadInt(rest[1..])
        case None => None
        case Some((count, rest')) => Some((start, count, rest'))
  }

  function ReadRangeAfter(s: string, literal: string): Option<(int, int, string)> {
    match Expect(s, literal)
    case None => None
    case Some(rest) => ReadRange(rest)
  }

  function ReadHeader(s: string): Option<DiffHunk> {
    match ReadRangeAfter(s, "@@ -")
    case None => None
    case Some((oldStart, oldCount, rest)) =>
      match ReadRangeAfter(rest, " +")
      case None => None
      case Some((newStart, newCount, rest')) =>
        if StartsWith(rest', " @@") then Some(DiffHunk(oldStart, oldCount, newStart, newCount, []))
        else None
  }

  /** Reads body lines until both counts are used up. */
  function ReadBody(lines: seq<string>, old_: int, new_: int): (r: Option<(seq<BodyLine>, seq<string>)>)
    ensures r.Some? ==> |r.value.1| <= |lines|
  {
    if old_ == 0 && new_ == 0 then Some(([], lines))
    else if old_ < 0 || new_ < 0 || lines == [] || lines[0] == "" then None
    else
      var tag, text := lines[0][0], lines[0][1..];
      if tag == ' ' then ConsBody(BodyLine(Context, text), ReadBody(lines[1..], old_ - 1, new_ - 1))
      else if tag == '-' then ConsBody(BodyLine(Removal, text), ReadBody(lines[1..], old_ - 1, new_))
      else if tag == '+' then ConsBody(BodyLine(Addition, text), ReadBody(lines[1..], old_, new_ - 1))
      else None
  }

  function ConsBody(line: BodyLine, r: Option<(seq<BodyLine>, seq<string>)>)
    : Option<(seq<BodyLine>, seq<string>)>
  {
    match r
    case None => None
    case Some((body, rest)) => Some(([line] + body, rest))
  }

  function ReadHunks(lines: seq<string>): (r: Option<(seq<DiffHunk>, seq<string>)>)
    ensures r.Some? ==> |r.value.1| <= |lines|
    decreases |lines|
  {
    if lines == [] || !StartsWith(lines[0], "@@") then Some(([], lines))
    else
      match ReadHeader(lines[0])
      case None => None
      case Some(h) =>
        match ReadBody(lines[1..], h.oldCount, h.newCount)
        case None => None
        case Some((body, rest)) =>
          match ReadHunks(rest)
          case None => None
          case Some((hunks, rest')) => Some(([h.(lines := body)] + hunks, rest'))
  }

  function ReadFiles(lines: seq<string>): Option<seq<DiffFile>>
    decreases |lines|
  {
    if lines == [] then Some([])
    else if |lines| < 2 || !StartsWith(lines[0], "--- a/") || !StartsWith(lines[1], "+++ b/") then None
    else
      match ReadHunks(lines[2..])
      case None => None
      case Some((hunks, rest)) =>
        match ReadFiles(rest)
        case None => None
        case Some(files) => Some([DiffFile(lines[1][6..], hunks)] + files)
  }

  /** Reads a whole patch; every line of it ends in a newline. */
  function ReadPatch(text: string): Option<seq<DiffFile>> {
    var lines := SplitNewline(text);
    if lines[|lines| - 1] != "" then None else ReadFiles(lines[..|lines| - 1])
  }

  // ---- applying ----

  /** The 0-based line of the file at which a range begins: an empty range names the line before it. */
  function RangeStart(start: int, count: int): int {
    if count == 0 then start else start - 1
  }

  predicate HunkFits(file: seq<string>, pos: nat, made: nat, h: DiffHunk)
    requires pos <= |file|
  {
    var start, old_, new_ := RangeStart(h.oldStart, h.oldCount), OldSide(h.lines), NewSide(h.lines);
    && pos <= start && start + |old_| <= |file|
    && file[start..start + |old_|] == old_
    && h.oldCount == |old_| && h.newCount == |new_|
    && RangeStart(h.newStart, h.newCount) == made + (start - pos)
  }

  /** Applies the hunks to `file[pos..]`, `made` lines of the new file being there already. */
  function ApplyFrom(file: seq<string>, pos: nat, made: nat, hunks: seq<DiffHunk>): Option<seq<string>>
    requires pos <= |file|
    decreases hunks
  {
    if hunks == [] then Some(file[pos..])
    else if !HunkFits(file, pos, made, hunks[0]) then None
    else
      var h := hunks[0];
      var start, new_ := RangeStart(h.oldStart, h.oldCount), NewSide(h.lines);
      match ApplyFrom(file, start + |OldSide(h.lines)|, made + (start - pos) + |new_|, hunks[1..])
      case None => None
      case Some(rest) => Some(file[pos..start] + new_ + rest)
  }

  function Apply(file: seq<string>, hunks: seq<DiffHunk>): Option<seq<string>> {
    ApplyFrom(file, 0, 0, hunks)
  }

  /** Applies hunks to a text. A patch line that is not followed by the marker for a missing final
      newline stands for a line that has one, so only the newline-terminated lines can be touched;
      what follows the last newline stays as it is. */
  function ApplyToText(text: string, hunks: seq<DiffHunk>): Option<string> {
    var lines := SplitNewline(text);
    match Apply(lines[..|lines| - 1], hunks)
    case None => None
    case Some(out) => Some(JoinNewline(out + [lines[|lines| - 1]]))
  }

  /** Applies the sections of a patch one after the other: a path named twice is patched twice. */
  function ApplyPatch(files: map<string, string>, diff: seq<DiffFile>): Option<map<string, string>>
    decreases diff
  {
    if diff == [] then Some(files)
    else if diff[0].path !in files then None
    else
      match ApplyToText(files[diff[0].path], diff[0].hunks)
      case None => None
      case Some(text) => ApplyPatch(files[diff[0].path := text], diff[1..])
  }

  // ---- printing, and reading back what was printed ----

  function PrintHeader(oldStart: int, oldCount: int, newStart: int, newCount: int): string {
    "@@ -" + PrintInt(oldStart) + "," + PrintInt(oldCount)
    + " +" + PrintInt(newStart) + "," + PrintInt(newCount) + " @@"
  }

  function PrintHunk(h: DiffHunk): seq<string> {
    [PrintHeader(h.oldStart, h.oldCount, h.newStart, h.newCount)] + PrintBody(h.lines)
  }

  function PrintDiffHunks(hunks: seq<DiffHunk>): seq<string> {
    if hunks == [] then [] else PrintHunk(hunks[0]) + PrintDiffHunks(hunks[1..])
  }

  function PrintDiffFiles(files: seq<DiffFile>): seq<string> {
    if files == [] then []
    else ["--- a/" + files[0].path, "+++ b/" + files[0].path] + PrintDiffHunks(files[0].hunks)
         + PrintDiffFiles(files[1..])
  }

  predicate CountsHold(h: DiffHunk) {
    h.oldCount == |OldSide(h.lines)| && h.newCount == |NewSide(h.lines)|
  }

  lemma {:induction false} DigitRunOf(digits: string, rest: string)
    requires forall c | c in digits :: IsDigit(c)
    requires rest == "" || !IsDigit(rest[0])
    ensures DigitRun(digits + rest) == |digits|
  {
    if digits == "" {
      assert digits + rest == rest;
    } else {
      DigitRunOf(digits[1..], rest);
      assert (digits + rest)[1..] == digits[1..] + rest;
      assert (digits + rest)[0] in digits;
    }
  }

  lemma ReadPrintedNat(n: nat, rest: string)
    requires rest == "" || !IsDigit(rest[0])
    ensures ReadNat(PrintNat(n) + rest) == Some((n, rest))
  {
    var digits := PrintNat(n);
    DigitRunOf(digits, rest);
    ValueOfPrinted(n);
    assert (digits + rest)[..|digits|] == digits && (digits + rest)[|digits|..] == rest;
  }

  lemma ReadPrintedNegative(n: nat, rest: string)
    requires rest == "" || !IsDigit(rest[0])
    ensures ReadInt(("-" + PrintNat(n)) + rest) == Some((-(n as int), rest))
  {
    hide ReadNat, PrintNat;
    ReadPrintedNat(n, rest);
    var s := PrintNat(n) + rest;
    assert ("-" + PrintNat(n)) + rest == "-" + s;
    assert ("-" + s)[1..] == s && StartsWith("-" + s, "-");
  }

  lemma ReadPrintedUnsigned(n: nat, rest: string)
    requires rest == "" || !IsDigit(rest[0])
    ensures ReadInt(PrintNat(n) + rest) == Some((n, rest))
  {
    ReadPrintedNat(n, rest);
    var digits := PrintNat(n);
    assert digits[0] in digits;
    assert (digits + rest)[0] != '-';
  }

  lemma ReadPrintedInt(n: int, rest: string)
    requires rest == "" || !IsDigit(rest[0])
    ensures ReadInt(PrintInt(n) + rest) == Some((n, rest))
  {
    hide ReadInt, PrintNat;
    if n < 0 {
      ReadPrintedNegative(-n, rest);
    } else {
      ReadPrintedUnsigned(n, rest);
    }
  }

  lemma ReadPrintedRange(before: string, start: int, count: int, rest: string)
    requires rest != "" && !IsDigit(rest[0])
    ensures ReadRangeAfter(before + (PrintInt(start) + ("," + (PrintInt(count) + rest))), before)
         == Some((start, count, rest))
  {
    hide ReadInt, PrintInt;
    var tail := "," + (PrintInt(count) + rest);
    assert (before + (PrintInt(start) + tail))[|before|..] == PrintInt(start) + tail;
    ReadPrintedInt(start, tail);
    assert tail[1..] == PrintInt(count) + rest;
    ReadPrintedInt(count, rest);
  }

  function HeaderEnd(newStart: int, newCount: int): string {
    " +" + (PrintInt(newStart) + ("," + (PrintInt(newCount) + " @@")))
  }

  lemma HeaderShape(oldStart: int, oldCount: int, newStart: int, newCount: int)
    ensures PrintHeader(oldStart, oldCount, newStart, newCount)
         == "@@ -" + (PrintInt(oldStart) + ("," + (PrintInt(oldCount) + HeaderEnd(newStart, newCount))))
    ensures StartsWith(PrintHeader(oldStart, oldCount, newStart, newCount), "@@")
  {
    var a, b, c, d := PrintInt(oldStart), PrintInt(oldCount), PrintInt(newStart), PrintInt(newCount);
    assert PrintHeader(oldStart, oldCount, newStart, newCount)
        == "@@ -" + (a + ("," + (b + (" +" + (c + ("," + (d + " @@")))))));
  }

  lemma ReadPrintedHeader(oldStart: int, oldCount: int, newStart: int, newCount: int)
    ensures ReadHeader(PrintHeader(oldStart, oldCount, newStart, newCount))
         == Some(DiffHunk(oldStart, oldCount, newStart, newCount, []))
  {
    HeaderShape(oldStart, oldCount, newStart, newCount);
    assert HeaderEnd(newStart, newCount)[0] == ' ';
    ReadPrintedRange("@@ -", oldStart, oldCount, HeaderEnd(newStart, newCount));
    ReadPrintedRange(" +", newStart, newCount, " @@");
  }

  lemma ReadBodyLine(line: BodyLine, more: seq<string>, old_: nat, new_: nat,
                     body: seq<BodyLine>, rest: seq<string>)
    requires ReadBody(more, old_, new_) == Some((body, rest))
    ensures ReadBody([PrintBodyLine(line)] + more, old_ + |OldTexts(line)|, new_ + |NewTexts(line)|)
         == Some(([line] + body, rest))
  {
    var lines := [PrintBodyLine(line)] + more;
    assert lines[1..] == more && lines[0] == PrintBodyLine(line);
    assert lines[0][1..] == line.text;
    assert lines[0][0] == match line.kind case Context => ' ' case Removal => '-' case Addition => '+';
  }

  lemma PrintBodyFirst(body: seq<BodyLine>, rest: seq<string>)
    requires body != []
    ensures PrintBody(body) + rest == [PrintBodyLine(body[0])] + (PrintBody(body[1..]) + rest)
  {
  }

  lemma {:induction false} ReadPrintedBody(body: seq<BodyLine>, rest: seq<string>)
    ensures ReadBody(PrintBody(body) + rest, |OldSide(body)|, |NewSide(body)|) == Some((body, rest))
  {
    if body == [] {
      assert PrintBody(body) + rest == rest;
    } else {
      var more := PrintBody(body[1..]) + rest;
      ReadPrintedBody(body[1..], rest);
      ReadBodyLine(body[0], more, |OldSide(body[1..])|, |NewSide(body[1..])|, body[1..], rest);
      PrintBodyFirst(body, rest);
      assert [body[0]] + body[1..] == body;
    }
  }

  lemma ReadPrintedHunk(h: DiffHunk, more: seq<string>, hunks: seq<DiffHunk>, rest: seq<string>)
    requires CountsHold(h) && ReadHunks(more) == Some((hunks, rest))
    ensures ReadHunks(PrintHunk(h) + more) == Some(([h] + hunks, rest))
  {
    hide PrintHeader, ReadHeader, PrintBody, ReadBody, OldSide, NewSide, StartsWith;
    var header := PrintHeader(h.oldStart, h.oldCount, h.newStart, h.newCount);
    var body := PrintBody(h.lines) + more;
    var lines := PrintHunk(h) + more;
    assert lines == [header] + body;
    assert lines[1..] == body;
    HeaderShape(h.oldStart, h.oldCount, h.newStart, h.newCount);
    ReadPrintedHeader(h.oldStart, h.oldCount, h.newStart, h.newCount);
    ReadPrintedBody(h.lines, more);
  }

  lemma ReadNoHunks(rest: seq<string>)
    requires rest == [] || !StartsWith(rest[0], "@@")
    ensures ReadHunks(rest) == Some(([], rest))
  {
  }

  lemma {:induction false} ReadPrintedHunks(hunks: seq<DiffHunk>, rest: seq<string>)
    requires forall i | 0 <= i < |hunks| :: CountsHold(hunks[i])
    requires rest == [] || !StartsWith(rest[0], "@@")
    ensures ReadHunks(PrintDiffHunks(hunks) + rest) == Some((hunks, rest))
  {
    hide ReadHunks, PrintHunk;
    if hunks == [] {
      ReadNoHunks(rest);
      assert PrintDiffHunks(hunks) + rest == rest;
    } else {
      var more := PrintDiffHunks(hunks[1..]) + rest;
      ReadPrintedHunks(hunks[1..], rest);
      ReadPrintedHunk(hunks[0], more, hunks[1..], rest);
      ConcatAssociates(PrintHunk(hunks[0]), PrintDiffHunks(hunks[1..]), rest);
      assert [hunks[0]] + hunks[1..] == hunks;
    }
  }

  lemma FileHeader(path: string)
    ensures StartsWith("--- a/" + path, "--- a/") && StartsWith("+++ b/" + path, "+++ b/")
    ensures ("+++ b/" + path)[6..] == path && !StartsWith("--- a/" + path, "@@")
  {
    assert ("--- a/" + path)[0] == '-';
  }

  lemma ReadPrintedFile(f: DiffFile, more: seq<string>, files: seq<DiffFile>)
    requires forall j | 0 <= j < |f.hunks| :: CountsHold(f.hunks[j])
    requires more == [] || !StartsWith(more[0], "@@")
    requires ReadFiles(more) == Some(files)
    ensures ReadFiles(["--- a/" + f.path, "+++ b/" + f.path] + (PrintDiffHunks(f.hunks) + more))
         == Some([f] + files)
  {
    var lines := ["--- a/" + f.path, "+++ b/" + f.path] + (PrintDiffHunks(f.hunks) + more);
    assert lines[2..] == PrintDiffHunks(f.hunks) + more;
    FileHeader(f.path);
    ReadPrintedHunks(f.hunks, more);
  }

  lemma {:induction false} ReadPrintedFiles(files: seq<DiffFile>)
    requires forall i, j | 0 <= i < |files| && 0 <= j < |files[i].hunks| :: CountsHold(files[i].hunks[j])
    ensures ReadFiles(PrintDiffFiles(files)) == Some(files)
  {
    hide PrintDiffHunks, CountsHold, StartsWith;
    if files != [] {
      var f, more := files[0], PrintDiffFiles(files[1..]);
      if more != [] {
        FileHeader(files[1].path);
        assert more[0] == "--- a/" + files[1].path;
      }
      ReadPrintedFiles(files[1..]);
      ReadPrintedFile(f, more, files[1..]);
      ConcatAssociates(["--- a/" + f.path, "+++ b/" + f.path], PrintDiffHunks(f.hunks), more);
      assert [f] + files[1..] == files;
    }
  }

  /** Reading undoes printing, for newline-free lines and true counts. */
  lemma ReadUndoesPrint(files: seq<DiffFile>)
    requires files != []
    requires forall i, j | 0 <= i < |files| && 0 <= j < |files[i].hunks| :: CountsHold(files[i].hunks[j])
    requires var lines := PrintDiffFiles(files); forall i | 0 <= i < |lines| :: NoNewline(lines[i])
    ensures ReadPatch(JoinNewline(PrintDiffFiles(files)) + "\n") == Some(files)
  {
    var lines := PrintDiffFiles(files);
    assert SplitNewline(JoinNewline(lines) + "\n") == lines + [""] by {
      JoinConcat(lines, [""]);
      assert JoinNewline(lines + [""]) == JoinNewline(lines) + "\n";
      forall i | 0 <= i < |lines + [""]| ensures NoNewline((lines + [""])[i]) {
        assert i < |lines| ==> (lines + [""])[i] == lines[i];
      }
      SplitUndoesJoin(lines + [""]);
    }
    assert (lines + [""])[..|lines|] == lines;
    ReadPrintedFiles(files);
  }
}
