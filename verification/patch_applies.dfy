/** What a reconstructed patch does when it is applied, and when there is one. */
module PatchApplies {
  import opened Wrappers
  import opened Text
  import opened IllustrativeDiff
  import opened UnifiedDiff
  import opened PatchReconstruct

  /** A hunk stands in the source when exactly one line is its anchor and its context and removal
      lines are the source lines that follow. */
  ghost predicate Stands(source: seq<string>, hunk: Hunk) {
    exists at: nat :: OnlyHit(source, hunk.anchor, at) && BodyFits(source, at, hunk.body)
  }

  ghost predicate AllStand(patches: seq<FilePatch>, files: map<string, string>) {
    forall k | 0 <= k < |patches| ::
      && patches[k].path in files
      && forall i | 0 <= i < |patches[k].hunks| :: Stands(SplitNewline(files[patches[k].path]), patches[k].hunks[i])
  }

  lemma StandsIffLocated(source: seq<string>, hunk: Hunk)
    ensures EditOf(source, hunk).Ok? <==> Stands(source, hunk)
    ensures EditOf(source, hunk).Ok? ==>
              && OnlyHit(source, hunk.anchor, EditOf(source, hunk).value.at)
              && EditOf(source, hunk).value.body == hunk.body
  {
    hide Strip, Hits, BodyFits, IsHit;
    var r := LocateAnchor(source, hunk.anchor);
    LocatedExactly(source, hunk.anchor);
  }

  lemma {:induction false} FileHunksOk(source: seq<string>, found: seq<Result<Edit>>, delta: int)
    requires AllFit(source, found)
    ensures FileHunks(source, found, delta).Ok? <==> forall i | 0 <= i < |found| :: found[i].Ok?
    decreases found
  {
    hide Edit.Printed;
    if found != [] && found[0].Ok? {
      var h := found[0].value.Printed(source, delta);
      FileHunksOk(source, found[1..], delta + h.newCount - h.oldCount);
      assert forall i | 0 < i < |found| :: found[i] == found[1..][i - 1];
    }
  }

  lemma DiffOk(patch: FilePatch, files: map<string, string>)
    ensures DiffOf(patch, files).Ok? <==>
            && patch.path in files
            && forall i | 0 <= i < |patch.hunks| :: Stands(SplitNewline(files[patch.path]), patch.hunks[i])
  {
    hide EditOf;
    if patch.path in files {
      var source := SplitNewline(files[patch.path]);
      var found := Located(source, patch.hunks);
      FileHunksOk(source, found, 0);
      forall i | 0 <= i < |patch.hunks| ensures found[i].Ok? <==> Stands(source, patch.hunks[i]) {
        StandsIffLocated(source, patch.hunks[i]);
      }
    }
  }

  /** A block that parses and holds no real hunk header gives a patch exactly when every file exists
      and every hunk stands in it; one hunk that does not leaves no patch at all. */
  lemma PatchIffAllStand(block: string, files: map<string, string>)
    requires !HasRealHeader(block) && Parsed(block).Ok?
    ensures Reconstructed(block, files).Ok? <==> AllStand(Parsed(block).value, files)
  {
    hide DiffOf, HasRealHeader;
    var patches := Parsed(block).value;
    forall k | 0 <= k < |patches| { DiffOk(patches[k], files); }
  }

  /** The edits of a file whose hunks all stand. */
  function Edits(found: seq<Result<Edit>>): (edits: seq<Edit>)
    requires forall i | 0 <= i < |found| :: found[i].Ok?
    ensures |edits| == |found| && forall i | 0 <= i < |edits| :: edits[i] == found[i].value
  {
    seq(|found|, i requires 0 <= i < |found| => found[i].value)
  }

  predicate EditsFit(source: seq<string>, edits: seq<Edit>) {
    forall i | 0 <= i < |edits| :: edits[i].Fits(source)
  }

  /** The ranges of lines the hunks show are ascending and disjoint and end by line `limit`. */
  predicate Orderly(source: seq<string>, edits: seq<Edit>, limit: nat)
    requires EditsFit(source, edits)
  {
    && (forall i | 0 <= i < |edits| :: edits[i].End(source) <= limit)
    && (forall i, j | 0 <= i < j < |edits| :: edits[i].End(source) <= edits[j].at)
  }

  /** The lines the hunk shows are in `file` where they are in `source`. */
  predicate StillThere(source: seq<string>, file: seq<string>, e: Edit)
    requires e.Fits(source)
  {
    e.End(source) <= |file| && file[e.at..e.End(source)] == source[e.at..e.End(source)]
  }

  /** The ranges are orderly, and their lines are still there. */
  predicate StandIn(source: seq<string>, file: seq<string>, edits: seq<Edit>)
    requires EditsFit(source, edits)
  {
    Orderly(source, edits, |file|) && forall i | 0 <= i < |edits| :: StillThere(source, file, edits[i])
  }

  /** The bodies come one after the other, from line `pos` on and by line `limit`. */
  predicate InTurn(edits: seq<Edit>, pos: nat, limit: nat)
    decreases edits
  {
    edits == [] || (pos <= edits[0].at && edits[0].BodyEnd() <= limit && InTurn(edits[1..], edits[0].BodyEnd(), limit))
  }

  /** `file[pos..]` with the removals of each hunk dropped and its additions put in place. */
  function Edited(file: seq<string>, pos: nat, edits: seq<Edit>): seq<string>
    requires pos <= |file| && InTurn(edits, pos, |file|)
    decreases edits
  {
    if edits == [] then file[pos..]
    else
      var e := edits[0];
      file[pos..e.at + 1] + NewSide(e.body) + Edited(file, e.BodyEnd(), edits[1..])
  }

  function PrintedHunks(source: seq<string>, edits: seq<Edit>, delta: int): seq<DiffHunk>
    requires EditsFit(source, edits)
    decreases edits
  {
    if edits == [] then []
    else
      var h := edits[0].Printed(source, delta);
      [h] + PrintedHunks(source, edits[1..], delta + h.newCount - h.oldCount)
  }

  lemma OrderlyFirst(source: seq<string>, edits: seq<Edit>, limit: nat)
    requires EditsFit(source, edits) && edits != []
    ensures EditsFit(source, edits[1..])
    ensures Orderly(source, edits, limit) <==>
            && edits[0].End(source) <= limit
            && Orderly(source, edits[1..], limit)
            && (edits[1..] != [] ==> edits[0].End(source) <= edits[1..][0].at)
  {
    hide Edit.Fits, Edit.End;
    var rest := edits[1..];
    assert forall i | 0 < i < |edits| :: edits[i] == rest[i - 1];
  }

  lemma {:induction false} InTurnLater(edits: seq<Edit>, pos: nat, q: nat, limit: nat)
    requires InTurn(edits, pos, limit) && (edits != [] ==> q <= edits[0].at)
    ensures InTurn(edits, q, limit)
  {
  }

  lemma {:induction false} OrderlyInTurn(source: seq<string>, edits: seq<Edit>, limit: nat)
    requires EditsFit(source, edits) && Orderly(source, edits, limit)
    ensures InTurn(edits, 0, limit)
    decreases edits
  {
    hide Edit.Fits, Orderly;
    if edits != [] {
      OrderlyFirst(source, edits, limit);
      OrderlyInTurn(source, edits[1..], limit);
      InTurnLater(edits[1..], 0, edits[0].BodyEnd(), limit);
    }
  }

  lemma EditedNothing(file: seq<string>, pos: nat)
    requires pos <= |file|
    ensures Edited(file, pos, []) == file[pos..]
  {
  }

  lemma EditedFirst(file: seq<string>, pos: nat, edits: seq<Edit>)
    requires pos <= |file| && edits != [] && InTurn(edits, pos, |file|)
    ensures pos <= edits[0].at < edits[0].BodyEnd() <= |file| && InTurn(edits[1..], edits[0].BodyEnd(), |file|)
    ensures Edited(file, pos, edits)
         == file[pos..edits[0].at + 1] + NewSide(edits[0].body) + Edited(file, edits[0].BodyEnd(), edits[1..])
  {
  }

  /** Trailing context changes nothing: starting after it is starting before it. */
  lemma SkipContext(file: seq<string>, pos: nat, q: nat, edits: seq<Edit>)
    requires pos <= q <= |file| && InTurn(edits, pos, |file|) && (edits != [] ==> q <= edits[0].at)
    ensures InTurn(edits, q, |file|)
    ensures Edited(file, pos, edits) == file[pos..q] + Edited(file, q, edits)
  {
    hide NewSide, OldSide, Edited;
    InTurnLater(edits, pos, q, |file|);
    if edits == [] {
      EditedNothing(file, pos);
      EditedNothing(file, q);
      assert file[pos..] == file[pos..q] + file[q..];
    } else {
      EditedFirst(file, pos, edits);
      EditedFirst(file, q, edits);
      var e := edits[0];
      assert file[pos..e.at + 1] == file[pos..q] + file[q..e.at + 1];
      Regroup3(file[pos..q], file[q..e.at + 1], NewSide(e.body), Edited(file, e.BodyEnd(), edits[1..]));
    }
  }

  lemma Regroup3<T>(a: seq<T>, b: seq<T>, n: seq<T>, rest: seq<T>)
    ensures (a + b) + n + rest == a + (b + n + rest)
  {
  }

  /** A printed hunk fits at `pos` exactly when it starts no earlier and the lines it shows are there. */
  lemma PrintedFits(source: seq<string>, file: seq<string>, pos: nat, made: nat, e: Edit, delta: int)
    requires e.Fits(source) && pos <= |file| && made == pos + delta
    ensures HunkFits(file, pos, made, e.Printed(source, delta)) <==> pos <= e.at && StillThere(source, file, e)
  {
    ShownOld(source, e);
    ShownNew(source, e);
  }

  lemma StandInFirst(source: seq<string>, file: seq<string>, edits: seq<Edit>)
    requires EditsFit(source, edits) && edits != []
    ensures EditsFit(source, edits[1..])
    ensures StandIn(source, file, edits) <==>
            && StillThere(source, file, edits[0])
            && StandIn(source, file, edits[1..])
            && (edits[1..] != [] ==> edits[0].End(source) <= edits[1..][0].at)
  {
    hide Edit.Fits, Edit.End, Orderly;
    OrderlyFirst(source, edits, |file|);
    var rest := edits[1..];
    assert forall i | 0 < i < |edits| :: edits[i] == rest[i - 1];
  }

  /** Applying the hunks printed for `source` to any file succeeds exactly when their ranges are ascending
      and disjoint and the lines they show are in the file where they are in `source`; then it gives the
      edited file. */
  lemma {:induction false} ApplyPrinted(source: seq<string>, file: seq<string>, pos: nat, made: nat, edits: seq<Edit>,
                                        delta: int)
    requires EditsFit(source, edits) && pos <= |file| && made == pos + delta
    ensures var r := ApplyFrom(file, pos, made, PrintedHunks(source, edits, delta));
            && (r.Some? <==> StandIn(source, file, edits) && (edits != [] ==> pos <= edits[0].at))
            && (r.Some? ==> InTurn(edits, pos, |file|) && r.value == Edited(file, pos, edits))
    decreases edits
  {
    hide ApplyFrom, Edit.Printed, Edit.Shown, Edit.Fits, Edit.End, StandIn, Edited, InTurn, StillThere;
    if edits == [] {
      ApplyNothing(file, pos, made);
      NothingStands(source, file, pos);
    } else {
      var e, rest := edits[0], edits[1..];
      var h := e.Printed(source, delta);
      var delta' := delta + h.newCount - h.oldCount;
      var more := PrintedHunks(source, rest, delta');
      StandInFirst(source, file, edits);
      ApplyFirst(source, file, pos, made, e, delta, more);
      if pos <= e.at && StillThere(source, file, e) {
        SameLines(source, file, e);
        ApplyPrinted(source, file, e.End(source), e.End(source) + delta', rest, delta');
        if StandIn(source, file, rest) && (rest != [] ==> e.End(source) <= rest[0].at) {
          EditedFromEnd(source, file, pos, edits);
        }
      }
    }
  }

  lemma NothingStands(source: seq<string>, file: seq<string>, pos: nat)
    requires pos <= |file|
    ensures StandIn(source, file, []) && InTurn([], pos, |file|) && Edited(file, pos, []) == file[pos..]
  {
  }

  lemma EditedFromEnd(source: seq<string>, file: seq<string>, pos: nat, edits: seq<Edit>)
    requires edits != [] && edits[0].Fits(source) && pos <= edits[0].at && edits[0].End(source) <= |file|
    requires InTurn(edits[1..], edits[0].End(source), |file|)
    ensures var e, rest := edits[0], edits[1..];
            && InTurn(edits, pos, |file|)
            && Edited(file, pos, edits) ==
               file[pos..e.at + 1] + NewSide(e.body)
               + (file[e.BodyEnd()..e.End(source)] + Edited(file, e.End(source), rest))
  {
    hide NewSide, Edit.Fits;
    var e, rest := edits[0], edits[1..];
    FirstAfter(rest, e.End(source), |file|);
    InTurnLater(rest, e.End(source), e.BodyEnd(), |file|);
    SkipContext(file, e.BodyEnd(), e.End(source), rest);
  }

  lemma FirstAfter(edits: seq<Edit>, pos: nat, limit: nat)
    requires InTurn(edits, pos, limit)
    ensures edits != [] ==> pos <= edits[0].at
  {
  }

  lemma ApplyNothing(file: seq<string>, pos: nat, made: nat)
    requires pos <= |file|
    ensures ApplyFrom(file, pos, made, []) == Some(file[pos..])
  {
  }

  /** Applying one printed hunk and then the rest. */
  lemma ApplyFirst(source: seq<string>, file: seq<string>, pos: nat, made: nat, e: Edit, delta: int,
                   more: seq<DiffHunk>)
    requires e.Fits(source) && pos <= |file| && made == pos + delta
    ensures var h := e.Printed(source, delta);
            var made' := e.End(source) + delta + h.newCount - h.oldCount;
            var r := ApplyFrom(file, pos, made, [h] + more);
            if pos <= e.at && StillThere(source, file, e) then
              && made' >= 0
              && var r' := ApplyFrom(file, e.End(source), made', more);
              && (r.Some? <==> r'.Some?)
              && (r.Some? ==> r.value == file[pos..e.at + 1] + NewSide(e.body)
                                         + (file[e.BodyEnd()..e.End(source)] + r'.value))
            else r.None?
  {
    hide OldSide, NewSide, Edit.Shown;
    var h := e.Printed(source, delta);
    assert ([h] + more)[1..] == more;
    PrintedFits(source, file, pos, made, e, delta);
    ShownOld(source, e);
    if pos <= e.at && StillThere(source, file, e) {
      var made' := made + (e.at - pos) + |NewSide(h.lines)|;
      var r' := ApplyFrom(file, e.End(source), made', more);
      if r'.Some? {
        Spliced(source, file, pos, e, r'.value);
      }
    }
  }

  lemma Spliced(source: seq<string>, file: seq<string>, pos: nat, e: Edit, rest: seq<string>)
    requires e.Fits(source) && pos <= e.at && StillThere(source, file, e)
    ensures file[pos..e.at] + NewSide(e.Shown(source)) + rest
         == file[pos..e.at + 1] + NewSide(e.body) + (file[e.BodyEnd()..e.End(source)] + rest)
  {
    hide NewSide, Edit.Shown, Edit.Fits, StillThere;
    ShownNew(source, e);
    SameLines(source, file, e);
    var a, x, n, t := file[pos..e.at], [source[e.at]], NewSide(e.body), source[e.BodyEnd()..e.End(source)];
    assert a + x == file[pos..e.at + 1];
    Regroup(a, x, n, t, rest);
  }

  lemma SameLines(source: seq<string>, file: seq<string>, e: Edit)
    requires e.Fits(source) && StillThere(source, file, e)
    ensures e.End(source) <= |file| && file[e.at] == source[e.at]
    ensures file[e.BodyEnd()..e.End(source)] == source[e.BodyEnd()..e.End(source)]
  {
    var n := e.End(source) - e.at;
    assert forall k | 0 <= k < n :: file[e.at..e.End(source)][k] == source[e.at..e.End(source)][k];
    assert forall k | 0 <= k < n ::
           file[e.at + k] == file[e.at..e.End(source)][k] && source[e.at + k] == source[e.at..e.End(source)][k];
    assert file[e.at + 0] == source[e.at + 0];
  }

  lemma Regroup<T>(a: seq<T>, x: seq<T>, n: seq<T>, t: seq<T>, rest: seq<T>)
    ensures a + (x + (n + t)) + rest == (a + x) + n + (t + rest)
  {
  }

  /** The edits of a patch whose hunks all stand. */
  function EditsOf(source: seq<string>, hunks: seq<Hunk>): (edits: seq<Edit>)
    requires forall i | 0 <= i < |hunks| :: EditOf(source, hunks[i]).Ok?
    ensures EditsFit(source, edits)
  {
    hide EditOf, Edit.Fits;
    Edits(Located(source, hunks))
  }

  lemma {:induction false} FileHunksArePrinted(source: seq<string>, found: seq<Result<Edit>>, delta: int)
    requires AllFit(source, found)
    requires forall i | 0 <= i < |found| :: found[i].Ok?
    ensures FileHunks(source, found, delta) == Ok(PrintedHunks(source, Edits(found), delta))
    decreases found
  {
    hide Edit.Printed, Edit.Fits;
    if found != [] {
      var h := found[0].value.Printed(source, delta);
      FileHunksArePrinted(source, found[1..], delta + h.newCount - h.oldCount);
      assert Edits(found)[1..] == Edits(found[1..]);
    }
  }

  lemma {:induction false} PrintedCountsHold(source: seq<string>, edits: seq<Edit>, delta: int)
    requires EditsFit(source, edits)
    ensures forall h | h in PrintedHunks(source, edits, delta) :: CountsHold(h)
    decreases edits
  {
    hide Edit.Shown, Edit.Fits, CountsHold;
    if edits != [] {
      var h := edits[0].Printed(source, delta);
      var delta' := delta + h.newCount - h.oldCount;
      PrintedCountsHold(source, edits[1..], delta');
      PrintedHolds(source, edits[0], delta);
    }
  }

  lemma PrintedHolds(source: seq<string>, e: Edit, delta: int)
    requires e.Fits(source)
    ensures CountsHold(e.Printed(source, delta))
  {
  }

  /** What follows the lines that are edited is not touched. */
  lemma {:induction false} EditedThen(file: seq<string>, pos: nat, edits: seq<Edit>, rest: seq<string>)
    requires pos <= |file| && InTurn(edits, pos, |file|)
    ensures InTurn(edits, pos, |file + rest|)
    ensures Edited(file, pos, edits) + rest == Edited(file + rest, pos, edits)
    decreases edits
  {
    if edits == [] {
      assert file[pos..] + rest == (file + rest)[pos..];
    } else {
      var e := edits[0];
      EditedThen(file, e.BodyEnd(), edits[1..], rest);
      hide NewSide;
      var a, b := file[pos..e.at + 1] + NewSide(e.body), Edited(file, e.BodyEnd(), edits[1..]);
      ConcatAssociates(a, b, rest);
      assert (file + rest)[pos..e.at + 1] == file[pos..e.at + 1];
    }
  }

  /** The hunks printed for one file, applied to any list of lines. */
  lemma FileApplies(source: seq<string>, hunks: seq<Hunk>, file: seq<string>)
    requires forall i | 0 <= i < |hunks| :: EditOf(source, hunks[i]).Ok?
    ensures var edits := EditsOf(source, hunks);
            var printed := FileHunks(source, Located(source, hunks), 0);
            && printed.Ok?
            && var r := Apply(file, printed.value);
            && (r.Some? <==> StandIn(source, file, edits))
            && (r.Some? ==> InTurn(edits, 0, |file|) && r.value == Edited(file, 0, edits))
  {
    hide EditOf, Edit.Fits, ApplyFrom, PrintedHunks, StandIn, Edited, InTurn;
    var edits := EditsOf(source, hunks);
    FileHunksArePrinted(source, Located(source, hunks), 0);
    ApplyPrinted(source, file, 0, 0, edits, 0);
  }

  /** The newline-terminated lines of a text. */
  function Terminated(text: string): seq<string> {
    var lines := SplitNewline(text);
    lines[..|lines| - 1]
  }

  /** The text with the edits made; they leave its last, unterminated piece alone. */
  function EditedText(text: string, edits: seq<Edit>): string
    requires InTurn(edits, 0, |Terminated(text)|)
  {
    hide InTurn, Edited, SplitNewline;
    EditedThen(Terminated(text), 0, edits, [SplitNewline(text)[|SplitNewline(text)| - 1]]);
    assert SplitNewline(text) == Terminated(text) + [SplitNewline(text)[|SplitNewline(text)| - 1]];
    JoinNewline(Edited(SplitNewline(text), 0, edits))
  }

  /** The same for texts: the hunks printed for `text` go through on `target` exactly when they stand in its
      terminated lines. */
  lemma TextApplies(text: string, hunks: seq<Hunk>, target: string)
    requires var source := SplitNewline(text); forall i | 0 <= i < |hunks| :: EditOf(source, hunks[i]).Ok?
    ensures var source := SplitNewline(text);
            var edits := EditsOf(source, hunks);
            var printed := FileHunks(source, Located(source, hunks), 0);
            && printed.Ok?
            && var r := ApplyToText(target, printed.value);
            && (r.Some? <==> StandIn(source, Terminated(target), edits))
            && (r.Some? ==> InTurn(edits, 0, |Terminated(target)|) && r.value == EditedText(target, edits))
  {
    hide EditOf, Edit.Fits, Apply, StandIn, FileHunks, Edited, InTurn, SplitNewline;
    var source, lines := SplitNewline(text), SplitNewline(target);
    var edits := EditsOf(source, hunks);
    FileApplies(source, hunks, Terminated(target));
    if StandIn(source, Terminated(target), edits) {
      EditedThen(Terminated(target), 0, edits, [lines[|lines| - 1]]);
      assert lines == Terminated(target) + [lines[|lines| - 1]];
    }
  }

  /** In its own text a hunk's lines are there; so only the order of the ranges matters. */
  lemma OwnLinesStand(text: string, edits: seq<Edit>)
    requires EditsFit(SplitNewline(text), edits)
    ensures var source := SplitNewline(text);
            StandIn(source, Terminated(text), edits) <==> Orderly(source, edits, |source| - 1)
  {
    hide Edit.Fits, SplitNewline;
    var source := SplitNewline(text);
    if Orderly(source, edits, |source| - 1) {
      forall i | 0 <= i < |edits| ensures StillThere(source, Terminated(text), edits[i]) {
        assert Terminated(text)[edits[i].at..edits[i].End(source)] == source[edits[i].at..edits[i].End(source)];
      }
    }
  }

  /** The hunks give a patch of the text. */
  predicate Prints(text: string, hunks: seq<Hunk>) {
    var source := SplitNewline(text);
    FileHunks(source, Located(source, hunks), 0).Ok?
  }

  /** And that patch applies to the text. */
  predicate Applies(text: string, hunks: seq<Hunk>) {
    Prints(text, hunks) &&
    var source := SplitNewline(text);
    ApplyToText(text, FileHunks(source, Located(source, hunks), 0).value).Some?
  }

  const SAMPLE: string := "a\nb\n"
  const SAMPLE_HUNKS := [Hunk("b", [BodyLine(Addition, "x")]), Hunk("a", [BodyLine(Addition, "y")])]

  lemma SampleLines()
    ensures SplitNewline(SAMPLE) == ["a", "b", ""]
  {
    var lines := ["a", "b", ""];
    assert JoinNewline([lines[2]]) == "";
    assert JoinNewline([lines[1], lines[2]]) == "b\n" by { assert [lines[1], lines[2]][1..] == [lines[2]]; }
    assert JoinNewline(lines) == SAMPLE by { assert lines[1..] == [lines[1], lines[2]]; }
    SplitUndoesJoin(lines);
  }

  lemma StripLetter(c: char)
    requires !IsSpace(c)
    ensures Strip([c]) == [c]
  {
  }

  lemma SampleStands(anchor: char, text: string, at: nat)
    requires (anchor == 'a' && at == 0) || (anchor == 'b' && at == 1)
    ensures Stands(["a", "b", ""], Hunk([anchor], [BodyLine(Addition, text)]))
    ensures OnlyHit(["a", "b", ""], [anchor], at)
  {
    hide Strip;
    var source, hunk := ["a", "b", ""], Hunk([anchor], [BodyLine(Addition, text)]);
    StripLetter('a');
    StripLetter('b');
    assert Strip("") == "" by { StripNothing(); }
    assert OnlyHit(source, [anchor], at);
    assert OldSide(hunk.body) == [] by { assert hunk.body[1..] == []; }
    assert BodyFits(source, at, hunk.body);
  }

  lemma StripNothing()
    ensures Strip("") == ""
  {
  }

  /** Hunks are neither sorted nor checked for overlap: two that stand, listed bottom first, give a
      patch that does not apply. */
  lemma ReversedHunksDoNotApply()
    ensures var source := SplitNewline(SAMPLE);
            && Stands(source, SAMPLE_HUNKS[0]) && Stands(source, SAMPLE_HUNKS[1])
            && Prints(SAMPLE, SAMPLE_HUNKS) && !Applies(SAMPLE, SAMPLE_HUNKS)
  {
    hide ApplyToText, FileHunks, EditOf, Strip, Stands, SplitNewline, OldSide, BodyFits;
    SampleLines();
    var source := SplitNewline(SAMPLE);
    SampleStands('b', "x", 1);
    SampleStands('a', "y", 0);
    StandsIffLocated(source, SAMPLE_HUNKS[0]);
    StandsIffLocated(source, SAMPLE_HUNKS[1]);
    TextApplies(SAMPLE, SAMPLE_HUNKS, SAMPLE);
    OwnLinesStand(SAMPLE, EditsOf(source, SAMPLE_HUNKS));
    var edits := EditsOf(source, SAMPLE_HUNKS);
    assert edits[0].at == 1 && edits[1].at == 0;
  }

  /** A hunk at a last line without a newline stands too, and its patch does not apply either. */
  lemma UnterminatedLineDoesNotApply()
    ensures var hunks := [Hunk("a", [BodyLine(Addition, "x")])];
            var source := SplitNewline("a");
            Stands(source, hunks[0]) && Prints("a", hunks) && !Applies("a", hunks)
  {
    hide ApplyToText, FileHunks, EditOf, Strip, Stands, SplitNewline, OldSide, BodyFits;
    SplitOneLine("a");
    var source, hunk := SplitNewline("a"), Hunk("a", [BodyLine(Addition, "x")]);
    OneLineStands(hunk);
    StandsIffLocated(source, hunk);
    TextApplies("a", [hunk], "a");
    OwnLinesStand("a", EditsOf(source, [hunk]));
    assert EditsOf(source, [hunk])[0].at == 0;
  }

  lemma OneLineStands(hunk: Hunk)
    requires hunk == Hunk("a", [BodyLine(Addition, "x")])
    ensures Stands(["a"], hunk) && OnlyHit(["a"], "a", 0)
  {
    hide Strip;
    StripLetter('a');
    assert OnlyHit(["a"], "a", 0);
    assert OldSide(hunk.body) == [] by { assert hunk.body[1..] == []; }
    assert BodyFits(["a"], 0, hunk.body);
  }

  // ---- the text of the patch ----

  lemma IntIsOneLine(n: int)
    ensures NoNewline(PrintInt(n))
  {
    var digits := PrintNat(if n < 0 then -n else n);
    assert '\n' in digits ==> IsDigit('\n');
  }

  lemma HeaderIsOneLine(a: int, b: int, c: int, d: int)
    ensures NoNewline(PrintHeader(a, b, c, d))
  {
    hide PrintInt;
    IntIsOneLine(a);
    IntIsOneLine(b);
    IntIsOneLine(c);
    IntIsOneLine(d);
  }

  predicate Lines(lines: seq<string>) {
    forall i | 0 <= i < |lines| :: NoNewline(lines[i])
  }

  lemma LinesConcat(a: seq<string>, b: seq<string>)
    requires Lines(a) && Lines(b)
    ensures Lines(a + b)
  {
    hide NoNewline;
  }

  predicate Tidy(h: DiffHunk) {
    forall j | 0 <= j < |h.lines| :: NoNewline(h.lines[j].text)
  }

  lemma HunkIsLines(h: DiffHunk)
    requires Tidy(h)
    ensures Lines(PrintHunk(h))
  {
    hide PrintHeader, PrintBodyLine;
    HeaderIsOneLine(h.oldStart, h.oldCount, h.newStart, h.newCount);
    forall j | 0 <= j < |h.lines| ensures NoNewline(PrintBody(h.lines)[j]) {
      BodyLineIsOneLine(h.lines[j]);
    }
  }

  lemma BodyLineIsOneLine(line: BodyLine)
    requires NoNewline(line.text)
    ensures NoNewline(PrintBodyLine(line))
  {
  }

  lemma {:induction false} HunksAreLines(hunks: seq<DiffHunk>)
    requires forall i | 0 <= i < |hunks| :: Tidy(hunks[i])
    ensures Lines(PrintDiffHunks(hunks))
  {
    hide PrintHunk, Tidy, NoNewline;
    if hunks != [] {
      HunksAreLines(hunks[1..]);
      HunkIsLines(hunks[0]);
      LinesConcat(PrintHunk(hunks[0]), PrintDiffHunks(hunks[1..]));
    }
  }

  lemma HeadersAreLines(path: string)
    requires NoNewline(path)
    ensures Lines(["--- a/" + path, "+++ b/" + path])
  {
  }

  lemma {:induction false} FilesAreLines(files: seq<DiffFile>)
    requires forall k | 0 <= k < |files| :: NoNewline(files[k].path)
    requires forall k, i | 0 <= k < |files| && 0 <= i < |files[k].hunks| :: Tidy(files[k].hunks[i])
    ensures Lines(PrintDiffFiles(files))
  {
    hide Tidy, NoNewline, PrintDiffHunks, Lines;
    if files != [] {
      FilesAreLines(files[1..]);
      HunksAreLines(files[0].hunks);
      var header := ["--- a/" + files[0].path, "+++ b/" + files[0].path];
      HeadersAreLines(files[0].path);
      LinesConcat(header, PrintDiffHunks(files[0].hunks));
      LinesConcat(header + PrintDiffHunks(files[0].hunks), PrintDiffFiles(files[1..]));
    } else {
      LinesOfNothing();
    }
  }

  lemma LinesOfNothing()
    ensures Lines([])
  {
  }

  lemma PrintedIsTidy(source: seq<string>, e: Edit, delta: int)
    requires e.Fits(source) && Lines(source)
    requires forall j | 0 <= j < |e.body| :: NoNewline(e.body[j].text)
    ensures Tidy(e.Printed(source, delta))
  {
    hide OldSide, NewSide;
    var shown := e.Shown(source);
    var trail := source[e.BodyEnd()..e.End(source)];
    forall j | 0 <= j < |shown| ensures NoNewline(shown[j].text) {
      if 0 < j <= |e.body| {
        assert shown[j] == e.body[j - 1];
      } else if |e.body| < j {
        assert shown[j].text == trail[j - 1 - |e.body|] == source[e.BodyEnd() + j - 1 - |e.body|];
      }
    }
  }

  lemma {:induction false} PrintedAreTidy(source: seq<string>, edits: seq<Edit>, delta: int)
    requires EditsFit(source, edits) && Lines(source)
    requires forall i, j | 0 <= i < |edits| && 0 <= j < |edits[i].body| :: NoNewline(edits[i].body[j].text)
    ensures forall h | h in PrintedHunks(source, edits, delta) :: Tidy(h)
    decreases edits
  {
    hide Edit.Printed, Tidy, Edit.Fits;
    if edits != [] {
      var h := edits[0].Printed(source, delta);
      var delta' := delta + h.newCount - h.oldCount;
      PrintedAreTidy(source, edits[1..], delta');
      PrintedIsTidy(source, edits[0], delta);
    }
  }

  // ---- applying the whole patch ----

  /** The file is there and every hunk is located in it. */
  ghost predicate Placed(patch: FilePatch, files: map<string, string>) {
    && patch.path in files
    && forall i | 0 <= i < |patch.hunks| :: EditOf(SplitNewline(files[patch.path]), patch.hunks[i]).Ok?
  }

  ghost predicate AllPlaced(patches: seq<FilePatch>, files: map<string, string>) {
    forall k | 0 <= k < |patches| :: Placed(patches[k], files)
  }

  ghost function EditsFor(patch: FilePatch, files: map<string, string>): seq<Edit>
    requires Placed(patch, files)
  {
    EditsOf(SplitNewline(files[patch.path]), patch.hunks)
  }

  /** The lines that the section shows, located in `files`, stand in `text` at the same line numbers. */
  ghost predicate SectionStands(patch: FilePatch, files: map<string, string>, text: string)
    requires Placed(patch, files)
  {
    hide EditOf, SplitNewline;
    StandIn(SplitNewline(files[patch.path]), Terminated(text), EditsFor(patch, files))
  }

  ghost function SectionEdited(patch: FilePatch, files: map<string, string>, text: string): string
    requires Placed(patch, files) && SectionStands(patch, files, text)
  {
    hide EditOf, SplitNewline, Edit.Fits;
    OrderlyInTurn(SplitNewline(files[patch.path]), EditsFor(patch, files), |Terminated(text)|);
    EditedText(text, EditsFor(patch, files))
  }

  /** The files after the edits of all sections in turn, each located in the original `files`; none if a
      section does not stand in what the earlier ones left. */
  ghost function AfterEdits(patches: seq<FilePatch>, files: map<string, string>, current: map<string, string>)
    : Option<map<string, string>>
    requires AllPlaced(patches, files) && files.Keys <= current.Keys
    decreases patches
  {
    hide Placed, SectionStands, SectionEdited;
    if patches == [] then Some(current)
    else
      var p := patches[0];
      assert Placed(p, files) && p.path in files by { PlacedFirst(patches, files); }
      if !SectionStands(p, files, current[p.path]) then None
      else
        assert AllPlaced(patches[1..], files) by { PlacedFirst(patches, files); }
        AfterEdits(patches[1..], files, current[p.path := SectionEdited(p, files, current[p.path])])
  }

  lemma PlacedFirst(patches: seq<FilePatch>, files: map<string, string>)
    requires AllPlaced(patches, files) && patches != []
    ensures Placed(patches[0], files) && patches[0].path in files && AllPlaced(patches[1..], files)
  {
    hide EditOf;
    forall k | 0 <= k < |patches[1..]| ensures Placed(patches[1..][k], files) {
      assert patches[1..][k] == patches[k + 1];
    }
  }

  /** A section of the diff is the one printed for its section of the block. */
  ghost predicate PrintedFor(patch: FilePatch, files: map<string, string>, f: DiffFile) {
    Placed(patch, files) && DiffOf(patch, files) == Ok(f)
  }

  lemma SectionApplies(patch: FilePatch, files: map<string, string>, f: DiffFile, text: string)
    requires PrintedFor(patch, files, f)
    ensures f.path == patch.path
    ensures ApplyToText(text, f.hunks) ==
            if SectionStands(patch, files, text) then Some(SectionEdited(patch, files, text)) else None
  {
    hide EditOf, SplitNewline, Edit.Fits, StandIn, ApplyToText, EditedText, FileHunks, InTurn, Orderly;
    TextApplies(files[patch.path], patch.hunks, text);
  }

  lemma {:induction false} SectionsApply(patches: seq<FilePatch>, files: map<string, string>, diff: seq<DiffFile>,
                                         current: map<string, string>)
    requires AllPlaced(patches, files) && files.Keys <= current.Keys && |diff| == |patches|
    requires forall k | 0 <= k < |patches| :: PrintedFor(patches[k], files, diff[k])
    ensures ApplyPatch(current, diff) == AfterEdits(patches, files, current)
    decreases patches
  {
    hide Placed, SectionStands, SectionEdited, PrintedFor, ApplyToText, AllPlaced;
    if patches != [] {
      PlacedFirst(patches, files);
      var p, text := patches[0], current[patches[0].path];
      assert PrintedFor(patches[0], files, diff[0]);
      SectionApplies(p, files, diff[0], text);
      if SectionStands(p, files, text) {
        forall k | 0 <= k < |patches[1..]| ensures PrintedFor(patches[1..][k], files, diff[1..][k]) {
          assert patches[1..][k] == patches[k + 1] && diff[1..][k] == diff[k + 1];
        }
        SectionsApply(patches[1..], files, diff[1..], current[p.path := SectionEdited(p, files, text)]);
      }
    }
  }

  /** A block whose hunks all stand gives a patch that reads back, and applying it is making the edits of
      its sections one after the other: it goes through exactly when every section stands in what the
      earlier ones left. */
  lemma PatchDoesTheEdits(block: string, files: map<string, string>)
    requires !HasRealHeader(block) && Parsed(block).Ok? && AllStand(Parsed(block).value, files)
    ensures Reconstructed(block, files).Ok? && AllPlaced(Parsed(block).value, files)
    ensures var diff := ReadPatch(Reconstructed(block, files).value);
            diff.Some? && ApplyPatch(files, diff.value) == AfterEdits(Parsed(block).value, files, files)
  {
    hide DiffOf, HasRealHeader, Parsed, AnyHunk, PrintDiffFiles, PrintedFor, Placed, ApplyPatch, AfterEdits, DiffIsGood;
    var patches := Parsed(block).value;
    PatchIffAllStand(block, files);
    ParsedIsClean(block);
    var diff := Gather(Diffs(patches, files)).value;
    forall k | 0 <= k < |patches|
      ensures DiffIsGood(diff[k]) && PrintedFor(patches[k], files, diff[k]) && Placed(patches[k], files)
    {
      DiffGoesThrough(patches[k], files);
    }
    AllGood(diff);
    FilesAreLines(diff);
    AnyHunkMeansAFile(patches);
    ReadUndoesPrint(diff);
    SectionsApply(patches, files, diff, files);
  }

  lemma AnyHunkMeansAFile(patches: seq<FilePatch>)
    requires AnyHunk(patches)
    ensures patches != []
  {
  }

  /** The section can be printed and read back. */
  ghost predicate DiffIsGood(f: DiffFile) {
    && NoNewline(f.path)
    && (forall i | 0 <= i < |f.hunks| :: CountsHold(f.hunks[i]))
    && (forall i | 0 <= i < |f.hunks| :: Tidy(f.hunks[i]))
  }

  lemma AllGood(diff: seq<DiffFile>)
    requires forall k | 0 <= k < |diff| :: DiffIsGood(diff[k])
    ensures forall k | 0 <= k < |diff| :: NoNewline(diff[k].path)
    ensures forall k, i | 0 <= k < |diff| && 0 <= i < |diff[k].hunks| :: CountsHold(diff[k].hunks[i])
    ensures forall k, i | 0 <= k < |diff| && 0 <= i < |diff[k].hunks| :: Tidy(diff[k].hunks[i])
  {
    hide CountsHold, Tidy, NoNewline;
  }

  lemma DiffGoesThrough(patch: FilePatch, files: map<string, string>)
    requires CleanFile(patch) && patch.path in files
    requires forall i | 0 <= i < |patch.hunks| :: Stands(SplitNewline(files[patch.path]), patch.hunks[i])
    ensures DiffOf(patch, files).Ok? && Placed(patch, files)
    ensures PrintedFor(patch, files, DiffOf(patch, files).value) && DiffIsGood(DiffOf(patch, files).value)
  {
    hide EditOf, Edit.Fits, FileHunks, PrintedHunks, CountsHold, Stands;
    var source := SplitNewline(files[patch.path]);
    forall i | 0 <= i < |patch.hunks| ensures EditOf(source, patch.hunks[i]).Ok? {
      StandsIffLocated(source, patch.hunks[i]);
    }
    var edits := EditsOf(source, patch.hunks);
    FileHunksArePrinted(source, Located(source, patch.hunks), 0);
    PrintedCountsHold(source, edits, 0);
    forall i, j | 0 <= i < |edits| && 0 <= j < |edits[i].body| ensures NoNewline(edits[i].body[j].text) {
      StandsIffLocated(source, patch.hunks[i]);
      assert OneLine(patch.hunks[i].body[j].text);
    }
    PrintedAreTidy(source, edits, 0);
    assert NoNewline(patch.path);
  }

  // ---- distinct and repeated paths ----

  predicate DistinctPaths(patches: seq<FilePatch>) {
    forall i, j | 0 <= i < j < |patches| :: patches[i].path != patches[j].path
  }

  ghost predicate SectionOrderly(patch: FilePatch, files: map<string, string>)
    requires Placed(patch, files)
  {
    hide EditOf, SplitNewline;
    var source := SplitNewline(files[patch.path]);
    Orderly(source, EditsFor(patch, files), |source| - 1)
  }

  lemma OwnSectionStands(patch: FilePatch, files: map<string, string>)
    requires Placed(patch, files)
    ensures SectionStands(patch, files, files[patch.path]) <==> SectionOrderly(patch, files)
  {
    hide EditOf, SplitNewline, Edit.Fits, StandIn, Orderly;
    OwnLinesStand(files[patch.path], EditsFor(patch, files));
  }

  /** When no path is named twice the patch applies exactly when every section is orderly; then every named
      file is edited by its section and every other file is as before. */
  lemma {:induction false} DistinctPathsDoTheEdits(patches: seq<FilePatch>, files: map<string, string>,
                                                   current: map<string, string>)
    requires AllPlaced(patches, files) && files.Keys <= current.Keys && DistinctPaths(patches)
    requires forall k | 0 <= k < |patches| ::
             patches[k].path in files && current[patches[k].path] == files[patches[k].path]
    ensures var after := AfterEdits(patches, files, current);
            && (after.Some? <==> forall k | 0 <= k < |patches| :: SectionOrderly(patches[k], files))
            && (after.Some? ==>
                  && after.value.Keys == current.Keys
                  && (forall k | 0 <= k < |patches| ::
                        && SectionStands(patches[k], files, files[patches[k].path])
                        && after.value[patches[k].path] == SectionEdited(patches[k], files, files[patches[k].path]))
                  && (forall path | path in current && (forall k | 0 <= k < |patches| :: patches[k].path != path) ::
                        after.value[path] == current[path]))
    decreases patches
  {
    hide Placed, SectionStands, SectionEdited, SectionOrderly;
    if patches != [] {
      PlacedFirst(patches, files);
      var p, rest := patches[0], patches[1..];
      assert forall k | 0 <= k < |rest| :: rest[k] == patches[k + 1];
      forall k | 0 <= k < |patches| { OwnSectionStands(patches[k], files); }
      if SectionStands(p, files, files[p.path]) {
        DistinctPathsDoTheEdits(rest, files, current[p.path := SectionEdited(p, files, files[p.path])]);
      }
    }
  }

  const SAMPLE_SECTIONS := [FilePatch("f", [Hunk("a", [BodyLine(Addition, "x")])]),
                            FilePatch("f", [Hunk("b", [BodyLine(Addition, "y")])])]

  /** One section of the sample: the line its anchor stands at, and its range. */
  lemma SampleSection(k: nat)
    requires k < 2
    ensures var p, files := SAMPLE_SECTIONS[k], map["f" := SAMPLE];
            && Placed(p, files) && SectionOrderly(p, files)
            && EditsFor(p, files) == [Edit(k, p.hunks[0].body)]
            && Edit(k, p.hunks[0].body).Fits(["a", "b", ""]) && Edit(k, p.hunks[0].body).End(["a", "b", ""]) == 2
  {
    hide EditOf, Strip, Stands, SplitNewline, OnlyHit;
    var p, files := SAMPLE_SECTIONS[k], map["f" := SAMPLE];
    SampleLines();
    var source := SplitNewline(SAMPLE);
    SampleStands(if k == 0 then 'a' else 'b', if k == 0 then "x" else "y", k);
    StandsIffLocated(source, p.hunks[0]);
    var e := EditOf(source, p.hunks[0]).value;
    OnlyOne(source, p.hunks[0].anchor, e.at, k);
    assert e == Edit(k, p.hunks[0].body);
    assert OldSide(p.hunks[0].body) == [] by { assert p.hunks[0].body[1..] == []; }
  }

  lemma OnlyOne(source: seq<string>, anchor: string, i: nat, j: nat)
    requires OnlyHit(source, anchor, i) && OnlyHit(source, anchor, j)
    ensures i == j
  {
  }

  /** What the first section leaves of the sample. */
  lemma SampleAfterFirst()
    ensures var p, files := SAMPLE_SECTIONS[0], map["f" := SAMPLE];
            && Placed(p, files) && SectionStands(p, files, SAMPLE)
            && Terminated(SectionEdited(p, files, SAMPLE)) == ["a", "x", "b"]
  {
    hide EditOf, Strip, Stands, SplitNewline, OnlyHit, JoinNewline, SectionOrderly, Placed, SectionStands;
    var p, files := SAMPLE_SECTIONS[0], map["f" := SAMPLE];
    SampleSection(0);
    SampleLines();
    OwnSectionStands(p, files);
    var body := p.hunks[0].body;
    var source, e := ["a", "b", ""], Edit(0, body);
    assert EditsFor(p, files) == [e] && [e][1..] == [];
    assert OldSide(body) == [] && NewSide(body) == ["x"] by { assert body[1..] == []; }
    assert InTurn([e], 0, 3) && Edited(source, 0, [e]) == source[0..1] + ["x"] + Edited(source, 1, []);
    EditedNothing(source, 1);
    assert Edited(source, 0, [e]) == ["a", "x", "b", ""];
    SplitUndoesJoin(["a", "x", "b", ""]);
  }

  /** Two sections for one path: each is orderly, and yet the second does not stand in what the first
      leaves, since it was located in the original. */
  lemma RepeatedPathDoesNotApply()
    ensures var patches, files := SAMPLE_SECTIONS, map["f" := SAMPLE];
            && AllPlaced(patches, files)
            && SectionOrderly(patches[0], files) && SectionOrderly(patches[1], files)
            && AfterEdits(patches, files, files).None?
  {
    hide EditOf, Strip, Stands, SplitNewline, OnlyHit, JoinNewline, SectionOrderly, Placed, SectionEdited, Edit.End,
         Edit.Fits;
    var patches, files := SAMPLE_SECTIONS, map["f" := SAMPLE];
    SampleSection(0);
    SampleSection(1);
    SampleAfterFirst();
    SampleLines();
    var text := SectionEdited(patches[0], files, SAMPLE);
    var e := Edit(1, patches[1].hunks[0].body);
    assert !StillThere(["a", "b", ""], ["a", "x", "b"], e) by {
      assert ["a", "x", "b"][1..2] == ["x"] && ["a", "b", ""][1..2] == ["b"];
    }
    assert EditsFor(patches[1], files)[0] == e;
    assert !SectionStands(patches[1], files, text);
    assert patches[1..][0] == patches[1];
  }
}
