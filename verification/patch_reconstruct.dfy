/** Turning an illustrative diff into a line-numbered unified diff, or refusing. */
module PatchReconstruct {
  import opened Wrappers
  import opened Text
  import opened IllustrativeDiff
  import opened UnifiedDiff

  const TRAILING_CONTEXT: nat := 3

  // ---- locating the anchor ----

  predicate IsHit(source: seq<string>, anchor: string, i: nat) {
    i < |source| && Strip(source[i]) == Strip(anchor)
  }

  function Hits(source: seq<string>, key: string, from: nat): seq<nat>
    requires from <= |source|
    decreases |source| - from
  {
    if from == |source| then []
    else if Strip(source[from]) == key then [from] + Hits(source, key, from + 1)
    else Hits(source, key, from + 1)
  }

  lemma {:induction false} HitsAscend(source: seq<string>, key: string, from: nat)
    requires from <= |source|
    ensures var hits := Hits(source, key, from);
            && (hits != [] ==> from <= hits[0] < |source| && Strip(source[hits[0]]) == key)
            && (|hits| > 1 ==> hits[0] < hits[1] < |source| && Strip(source[hits[1]]) == key)
    decreases |source| - from
  {
    hide Strip;
    if from < |source| {
      HitsAscend(source, key, from + 1);
    }
  }

  lemma {:induction false} HitsComplete(source: seq<string>, key: string, from: nat, i: nat)
    requires from <= i < |source| && Strip(source[i]) == key
    ensures i in Hits(source, key, from)
    decreases |source| - from
  {
    hide Strip;
    if from < i {
      HitsComplete(source, key, from + 1, i);
    }
  }

  ghost predicate OnlyHit(source: seq<string>, anchor: string, i: nat) {
    IsHit(source, anchor, i) && forall j: nat | IsHit(source, anchor, j) :: j == i
  }

  ghost predicate TwoHits(source: seq<string>, anchor: string) {
    exists i: nat, j: nat | i < j :: IsHit(source, anchor, i) && IsHit(source, anchor, j)
  }

  function LocateAnchor(source: seq<string>, anchor: string): (r: Result<nat>)
    ensures r.Ok? ==> OnlyHit(source, anchor, r.value)
    ensures r.Refused? ==>
              || (r.reason == AnchorNotFound && forall i: nat :: !IsHit(source, anchor, i))
              || (r.reason == AnchorAmbiguous && TwoHits(source, anchor))
  {
    hide Strip, Hits;
    var hits := Hits(source, Strip(anchor), 0);
    HitsAscend(source, Strip(anchor), 0);
    assert forall j: nat | IsHit(source, anchor, j) :: j in hits by {
      forall j: nat | IsHit(source, anchor, j) ensures j in hits {
        HitsComplete(source, Strip(anchor), 0, j);
      }
    }
    if hits == [] then Refused(AnchorNotFound)
    else if |hits| > 1 then
      assert IsHit(source, anchor, hits[0]) && IsHit(source, anchor, hits[1]);
      Refused(AnchorAmbiguous)
    else Ok(hits[0])
  }

  /** Exactly one line matches, or the anchor is refused. */
  lemma LocatedExactly(source: seq<string>, anchor: string)
    ensures LocateAnchor(source, anchor).Ok? <==> exists i: nat :: OnlyHit(source, anchor, i)
    ensures LocateAnchor(source, anchor) == Refused(AnchorAmbiguous) <==> TwoHits(source, anchor)
  {
    var r := LocateAnchor(source, anchor);
    if r.Ok? {
      assert OnlyHit(source, anchor, r.value);
    }
  }

  // ---- one hunk ----

  /** Every context and removal line of the body equals the source line it stands for. */
  predicate BodyFits(source: seq<string>, at: nat, body: seq<BodyLine>) {
    var end := at + 1 + |OldSide(body)|;
    end <= |source| && source[at + 1..end] == OldSide(body)
  }

  predicate EndsAtChange(body: seq<BodyLine>) {
    body != [] && body[|body| - 1].kind != Context
  }

  /** One past the last line that trailing context may show. */
  function TrailLimit(source: seq<string>): nat {
    if source != [] && source[|source| - 1] == "" then |source| - 1 else |source|
  }

  /** Where the trailing context after line `si` stops. */
  function TrailStop(source: seq<string>, si: nat): (end: nat)
    requires si <= |source|
    ensures si <= end <= |source|
  {
    if si + TRAILING_CONTEXT < TrailLimit(source) then si + TRAILING_CONTEXT
    else if TrailLimit(source) < si then si
    else TrailLimit(source)
  }

  /** One past the last line a hunk shows, its body having ended before line `si`. */
  function TrailEnd(source: seq<string>, si: nat, body: seq<BodyLine>): (end: nat)
    requires si <= |source|
    ensures si <= end <= |source|
  {
    if EndsAtChange(body) then TrailStop(source, si) else si
  }

  /** An illustrative hunk with the line of the source where its anchor stands. */
  datatype Edit = Edit(at: nat, body: seq<BodyLine>) {
    predicate Fits(source: seq<string>) {
      at < |source| && BodyFits(source, at, body)
    }

    /** One past the last source line the body itself speaks of. */
    function BodyEnd(): nat {
      at + 1 + |OldSide(body)|
    }

    /** One past the last source line the printed hunk shows. */
    function End(source: seq<string>): (end: nat)
      requires Fits(source)
      ensures at < BodyEnd() <= end <= |source|
    {
      TrailEnd(source, BodyEnd(), body)
    }

    function Shown(source: seq<string>): seq<BodyLine>
      requires Fits(source)
    {
      [BodyLine(Context, source[at])] + (body + Contexts(source[BodyEnd()..End(source)]))
    }

    function Printed(source: seq<string>, delta: int): DiffHunk
      requires Fits(source)
    {
      var shown := Shown(source);
      DiffHunk(at + 1, |OldSide(shown)|, at + 1 + delta, |NewSide(shown)|, shown)
    }
  }

  function EditAt(source: seq<string>, at: nat, body: seq<BodyLine>): (r: Result<Edit>)
    requires at < |source|
    ensures r.Ok? ==> r.value.Fits(source) && r.value.body == body
  {
    if BodyFits(source, at, body) then Ok(Edit(at, body)) else Refused(ContextMismatch)
  }

  function EditOf(source: seq<string>, hunk: Hunk): (r: Result<Edit>)
    ensures r.Ok? ==> r.value.Fits(source) && r.value.body == hunk.body
  {
    match LocateAnchor(source, hunk.anchor)
    case Refused(reason) => Refused(reason)
    case Ok(at) => EditAt(source, at, hunk.body)
  }

  lemma ShownOld(source: seq<string>, e: Edit)
    requires e.Fits(source)
    ensures OldSide(e.Shown(source)) == source[e.at..e.End(source)]
  {
    hide OldSide, TrailEnd;
    var rest := source[e.BodyEnd()..e.End(source)];
    OldSideOfFirst(source[e.at], e.body + Contexts(rest));
    OldSideOfConcat(e.body, Contexts(rest));
    SidesOfContexts(rest);
    SplitAt(source, e.at, e.BodyEnd(), e.End(source));
  }

  lemma ShownNew(source: seq<string>, e: Edit)
    requires e.Fits(source)
    ensures NewSide(e.Shown(source))
         == [source[e.at]] + (NewSide(e.body) + source[e.BodyEnd()..e.End(source)])
  {
    hide OldSide, NewSide, TrailEnd;
    var rest := source[e.BodyEnd()..e.End(source)];
    NewSideOfFirst(source[e.at], e.body + Contexts(rest));
    NewSideOfConcat(e.body, Contexts(rest));
    SidesOfContexts(rest);
  }

  lemma SplitAt(source: seq<string>, at: nat, mid: nat, end: nat)
    requires at < mid <= end <= |source|
    ensures source[at..end] == [source[at]] + (source[at + 1..mid] + source[mid..end])
  {
  }

  lemma OldSideOfFirst(text: string, body: seq<BodyLine>)
    ensures OldSide([BodyLine(Context, text)] + body) == [text] + OldSide(body)
  {
    assert ([BodyLine(Context, text)] + body)[1..] == body;
  }

  lemma NewSideOfFirst(text: string, body: seq<BodyLine>)
    ensures NewSide([BodyLine(Context, text)] + body) == [text] + NewSide(body)
  {
    assert ([BodyLine(Context, text)] + body)[1..] == body;
  }

  /** What one more line of the body adds to each side. */
  lemma NextLine(body: seq<BodyLine>, n: nat)
    requires n < |body|
    ensures OldSide(body[n..]) == OldTexts(body[n]) + OldSide(body[n + 1..])
    ensures NewSide(body[n..]) == NewTexts(body[n]) + NewSide(body[n + 1..])
  {
    assert body[n..][1..] == body[n + 1..];
  }

  lemma PrintNext(body: seq<BodyLine>, n: nat)
    requires n < |body|
    ensures PrintBody(body[..n + 1]) == PrintBody(body[..n]) + [PrintBodyLine(body[n])]
  {
  }

  lemma Mismatch(source: seq<string>, at: nat, body: seq<BodyLine>, done: seq<string>, text: string,
                 rest: seq<string>)
    requires OldSide(body) == done + ([text] + rest)
    requires at + 1 + |done| >= |source| || source[at + 1 + |done|] != text
    ensures !BodyFits(source, at, body)
  {
    var end := at + 1 + |OldSide(body)|;
    if end <= |source| {
      assert source[at + 1..end][|done|] == source[at + 1 + |done|];
      assert OldSide(body)[|done|] == text;
    }
  }

  lemma EmptyBody()
    ensures OldSide([]) == [] && NewSide([]) == [] && PrintBody([]) == []
  {
  }

  lemma FitsWhenDone(source: seq<string>, at: nat, body: seq<BodyLine>)
    ensures BodyFits(source, at, body) <==>
            at + 1 + |OldSide(body)| <= |source| && source[at + 1..at + 1 + |OldSide(body)|] == OldSide(body)
  {
  }

  /** The body of a hunk: its printed lines and counts, or a mismatch. */
  method EmitBody(source: seq<string>, i: nat, body: seq<BodyLine>)
    returns (fits: bool, out: seq<string>, oldCount: nat, newCount: nat, si: nat)
    requires i < |source|
    ensures fits <==> BodyFits(source, i, body)
    ensures fits ==> out == [" " + source[i]] + PrintBody(body)
    ensures fits ==> oldCount == 1 + |OldSide(body)| && newCount == 1 + |NewSide(body)|
    ensures fits ==> si == i + oldCount <= |source|
  {
    hide OldSide, NewSide, PrintBody, BodyFits;
    out := [" " + source[i]];
    oldCount, newCount := 1, 1;
    si := i + 1;
    EmptyBody();
    FitsWhenDone(source, i, body);
    assert body[..0] == [] && body[0..] == body;
    ghost var done: seq<string> := [];
    for n := 0 to |body|
      invariant out == [" " + source[i]] + PrintBody(body[..n])
      invariant OldSide(body) == done + OldSide(body[n..])
      invariant oldCount == 1 + |done| && newCount + |NewSide(body[n..])| == 1 + |NewSide(body)|
      invariant si == i + oldCount <= |source|
      invariant source[i + 1..si] == done
    {
      NextLine(body, n);
      PrintNext(body, n);
      var kind, text := body[n].kind, body[n].text;
      if kind == Addition {
        out := out + ["+" + text];
        newCount := newCount + 1;
        assert [] + OldSide(body[n + 1..]) == OldSide(body[n + 1..]);
        continue;
      }
      if si >= |source| || source[si] != text {
        Mismatch(source, i, body, done, text, OldSide(body[n + 1..]));
        fits := false;
        return;
      }
      out := out + [(if kind == Context then " " else "-") + text];
      oldCount := oldCount + 1;
      si := si + 1;
      ConcatAssociates(done, [text], OldSide(body[n + 1..]));
      done := done + [text];
      if kind == Context {
        newCount := newCount + 1;
      }
    }
    assert body[..|body|] == body && body[|body|..] == [];
    assert done + [] == done;
    fits := true;
  }

  /** The printed hunk and the line change it makes. */
  function HunkText(source: seq<string>, edit: Result<Edit>, delta: int): Result<(string, int)>
    requires edit.Ok? ==> edit.value.Fits(source)
  {
    match edit
    case Refused(reason) => Refused(reason)
    case Ok(e) =>
      var h := e.Printed(source, delta);
      Ok((JoinNewline(PrintHunk(h)), h.newCount - h.oldCount))
  }

  method ReconstructHunk(source: seq<string>, hunk: Hunk, delta: int) returns (r: Result<(string, int)>)
    ensures r == HunkText(source, EditOf(source, hunk), delta)
  {
    var located := LocateAnchor(source, hunk.anchor);
    if located.Refused? {
      return Refused(located.reason);
    }
    r := PrintAt(source, located.value, hunk.body, delta);
  }

  /** The rest of the work once the anchor is found at line `i`. */
  method PrintAt(source: seq<string>, i: nat, body: seq<BodyLine>, delta: int)
    returns (r: Result<(string, int)>)
    requires i < |source|
    ensures r == HunkText(source, EditAt(source, i, body), delta)
  {
    hide OldSide, NewSide, PrintBody, JoinNewline, PrintHeader, PrintHunk, Edit.Printed, Edit.Shown, BodyFits;
    var fits, out, oldCount, newCount, si := EmitBody(source, i, body);
    if !fits {
      return Refused(ContextMismatch);
    }
    ghost var e := Edit(i, body);
    var trail: seq<string>, n := [], 0;
    if body != [] && body[|body| - 1].kind != Context {
      trail, n := EmitTrail(source, si);
    }
    oldCount := oldCount + n;
    newCount := newCount + n;
    var oldStart := i + 1;
    var newStart := oldStart + delta;
    var header := PrintHeader(oldStart, oldCount, newStart, newCount);
    Counted(source, e, out, trail, oldCount, newCount, delta, header);
    r := Ok((JoinNewline([header] + (out + trail)), newCount as int - oldCount as int));
  }

  /** Source lines `from..to` as printed context. */
  function Spaced(source: seq<string>, from: nat, to: nat): seq<string>
    requires from <= to <= |source|
  {
    seq(to - from, i requires 0 <= i < to - from => " " + source[from + i])
  }

  /** The trailing context after a hunk that ends at a change, and how many lines it has. */
  method EmitTrail(source: seq<string>, si: nat) returns (out: seq<string>, n: nat)
    requires si <= |source|
    ensures si + n == TrailStop(source, si) && out == Spaced(source, si, si + n)
  {
    var limit := if source != [] && source[|source| - 1] == "" then |source| - 1 else |source|;
    var end := if si + TRAILING_CONTEXT < limit then si + TRAILING_CONTEXT else limit;
    out, n := [], 0;
    var j := si;
    while j < end
      invariant n == j - si && (j <= end || j == si)
      invariant out == Spaced(source, si, j)
    {
      out := out + [" " + source[j]];
      n := n + 1;
      j := j + 1;
    }
  }

  lemma Counted(source: seq<string>, e: Edit, out: seq<string>, trail: seq<string>,
                oldCount: nat, newCount: nat, delta: int, header: string)
    requires e.Fits(source)
    requires out == [" " + source[e.at]] + PrintBody(e.body)
    requires trail == Spaced(source, e.BodyEnd(), e.End(source))
    requires oldCount == 1 + |OldSide(e.body)| + (e.End(source) - e.BodyEnd())
    requires newCount == 1 + |NewSide(e.body)| + (e.End(source) - e.BodyEnd())
    requires header == PrintHeader(e.at + 1, oldCount, e.at + 1 + delta, newCount)
    ensures HunkText(source, Ok(e), delta)
         == Ok((JoinNewline([header] + (out + trail)), newCount as int - oldCount as int))
  {
    hide OldSide, NewSide, PrintBody, JoinNewline, Edit.Shown, PrintHunk, TrailEnd, PrintHeader;
    ShownCounts(source, e);
    ShownText(source, e, out, trail, delta, header);
  }

  lemma ShownText(source: seq<string>, e: Edit, out: seq<string>, trail: seq<string>, delta: int,
                  header: string)
    requires e.Fits(source)
    requires out == [" " + source[e.at]] + PrintBody(e.body)
    requires trail == Spaced(source, e.BodyEnd(), e.End(source))
    requires var h := e.Printed(source, delta);
             header == PrintHeader(h.oldStart, h.oldCount, h.newStart, h.newCount)
    ensures PrintHunk(e.Printed(source, delta)) == [header] + (out + trail)
  {
    ShownPrints(source, e);
  }

  lemma ShownCounts(source: seq<string>, e: Edit)
    requires e.Fits(source)
    ensures |OldSide(e.Shown(source))| == 1 + |OldSide(e.body)| + (e.End(source) - e.BodyEnd())
    ensures |NewSide(e.Shown(source))| == 1 + |NewSide(e.body)| + (e.End(source) - e.BodyEnd())
  {
    ShownOld(source, e);
    ShownNew(source, e);
  }

  lemma ShownPrints(source: seq<string>, e: Edit)
    requires e.Fits(source)
    ensures PrintBody(e.Shown(source))
         == [" " + source[e.at]] + PrintBody(e.body) + Spaced(source, e.BodyEnd(), e.End(source))
  {
    hide OldSide, NewSide, PrintBodyLine;
    var first, trail := BodyLine(Context, source[e.at]), Contexts(source[e.BodyEnd()..e.End(source)]);
    PrintsContexts(source, e.BodyEnd(), e.End(source));
    PrintsConcat([first], e.body + trail);
    PrintsConcat(e.body, trail);
    PrintsOne(first);
    ConcatAssociates(PrintBody([first]), PrintBody(e.body), PrintBody(trail));
  }

  lemma PrintsContexts(source: seq<string>, from: nat, to: nat)
    requires from <= to <= |source|
    ensures PrintBody(Contexts(source[from..to])) == Spaced(source, from, to)
  {
  }

  lemma PrintsConcat(a: seq<BodyLine>, b: seq<BodyLine>)
    ensures PrintBody(a + b) == PrintBody(a) + PrintBody(b)
  {
  }

  lemma PrintsOne(line: BodyLine)
    ensures PrintBody([line]) == [PrintBodyLine(line)]
    ensures line.kind == Context ==> PrintBodyLine(line) == " " + line.text
  {
  }

  // ---- whole blocks ----

  /** Where the hunks of a file stand, or why they do not. */
  function Located(source: seq<string>, hunks: seq<Hunk>): (found: seq<Result<Edit>>)
    ensures |found| == |hunks|
    ensures forall i | 0 <= i < |found| :: found[i] == EditOf(source, hunks[i])
  {
    seq(|hunks|, i requires 0 <= i < |hunks| => EditOf(source, hunks[i]))
  }

  predicate AllFit(source: seq<string>, found: seq<Result<Edit>>) {
    forall i | 0 <= i < |found| && found[i].Ok? :: found[i].value.Fits(source)
  }

  /** The hunks of one file, each shifted by what the hunks before it add and remove; the first hunk
      that does not stand anywhere refuses the file. */
  function FileHunks(source: seq<string>, found: seq<Result<Edit>>, delta: int): Result<seq<DiffHunk>>
    requires AllFit(source, found)
    decreases found
  {
    if found == [] then Ok([])
    else if found[0].Refused? then Refused(found[0].reason)
    else
      var h := found[0].value.Printed(source, delta);
      OnTop([h], FileHunks(source, found[1..], delta + h.newCount - h.oldCount))
  }

  function DiffOf(patch: FilePatch, files: map<string, string>): Result<DiffFile> {
    if patch.path !in files then Refused(FileNotFound)
    else
      var source := SplitNewline(files[patch.path]);
      match FileHunks(source, Located(source, patch.hunks), 0)
      case Refused(reason) => Refused(reason)
      case Ok(hunks) => Ok(DiffFile(patch.path, hunks))
  }

  function Diffs(patches: seq<FilePatch>, files: map<string, string>): (diffs: seq<Result<DiffFile>>)
    ensures |diffs| == |patches|
    ensures forall i | 0 <= i < |diffs| :: diffs[i] == DiffOf(patches[i], files)
  {
    seq(|patches|, i requires 0 <= i < |patches| => DiffOf(patches[i], files))
  }

  /** All of the values, or the first refusal. */
  function Gather<T>(rs: seq<Result<T>>): (r: Result<seq<T>>)
    ensures r.Ok? <==> forall i | 0 <= i < |rs| :: rs[i].Ok?
    ensures r.Ok? ==> |r.value| == |rs| && forall i | 0 <= i < |rs| :: rs[i].value == r.value[i]
    ensures r.Refused? ==> exists i | 0 <= i < |rs| ::
                             rs[i] == Refused(r.reason) && forall j | 0 <= j < i :: rs[j].Ok?
  {
    if rs == [] then Ok([])
    else if rs[0].Refused? then Refused(rs[0].reason)
    else
      var rest := Gather(rs[1..]);
      assert forall i | 0 < i < |rs| :: rs[i] == rs[1..][i - 1];
      OnTop([rs[0].value], rest)
  }

  function OnTop<T>(done: seq<T>, r: Result<seq<T>>): Result<seq<T>> {
    match r
    case Refused(reason) => Refused(reason)
    case Ok(rest) => Ok(done + rest)
  }

  /** A header of a real unified diff: `^@@ -\d+(?:,\d+)? \+\d+(?:,\d+)? @@`, over ASCII digits. */
  predicate IsRealHeader(line: string) {
    StartsWith(line, "@@ -") &&
    match SkipRange(line[4..])
    case None => false
    case Some(rest) =>
      StartsWith(rest, " +") &&
      match SkipRange(rest[2..])
      case None => false
      case Some(rest') => StartsWith(rest', " @@")
  }

  /** What follows `\d+(?:,\d+)?` */
  function SkipRange(s: string): Option<string> {
    match ReadNat(s)
    case None => None
    case Some((_, rest)) =>
      if !StartsWith(rest, ",") then Some(rest)
      else
        match ReadNat(rest[1..])
        case None => Some(rest)
        case Some((_, rest')) => Some(rest')
  }

  predicate HasRealHeader(block: string) {
    exists i | 0 <= i < |SplitNewline(block)| :: IsRealHeader(SplitNewline(block)[i])
  }

  function Reconstructed(block: string, files: map<string, string>): Result<string> {
    if HasRealHeader(block) then Ok(if block != "" && Last(block) == '\n' then block else block + "\n")
    else
      match Parsed(block)
      case Refused(reason) => Refused(reason)
      case Ok(patches) =>
        match Gather(Diffs(patches, files))
        case Refused(reason) => Refused(reason)
        case Ok(diff) => Ok(JoinNewline(PrintDiffFiles(diff)) + "\n")
  }

  lemma {:induction false} PrintHunksThen(a: seq<DiffHunk>, h: DiffHunk)
    ensures PrintDiffHunks(a + [h]) == PrintDiffHunks(a) + PrintHunk(h)
  {
    if a == [] {
      assert a + [h] == [h] && [h][1..] == [];
    } else {
      PrintHunksThen(a[1..], h);
      assert (a + [h])[1..] == a[1..] + [h];
      ConcatAssociates(PrintHunk(a[0]), PrintDiffHunks(a[1..]), PrintHunk(h));
    }
  }

  function PrintFile(f: DiffFile): seq<string> {
    ["--- a/" + f.path, "+++ b/" + f.path] + PrintDiffHunks(f.hunks)
  }

  lemma {:induction false} PrintFilesThen(a: seq<DiffFile>, f: DiffFile)
    ensures PrintDiffFiles(a + [f]) == PrintDiffFiles(a) + PrintFile(f)
  {
    if a == [] {
      assert a + [f] == [f] && [f][1..] == [];
    } else {
      PrintFilesThen(a[1..], f);
      assert (a + [f])[1..] == a[1..] + [f];
      ConcatAssociates(PrintFile(a[0]), PrintDiffFiles(a[1..]), PrintFile(f));
    }
  }

  lemma JoinMore(parts: seq<string>, lines: seq<string>, block: seq<string>)
    requires block != [] && (parts == [] <==> lines == []) && JoinNewline(parts) == JoinNewline(lines)
    ensures JoinNewline(parts + [JoinNewline(block)]) == JoinNewline(lines + block)
  {
    if parts == [] {
      assert parts + [JoinNewline(block)] == [JoinNewline(block)] && lines + block == block;
    } else {
      JoinConcat(parts, [JoinNewline(block)]);
      JoinConcat(lines, block);
    }
  }

  lemma OnTopOfNothing<T>(r: Result<seq<T>>)
    ensures OnTop([], r) == r
  {
    assert r.Ok? ==> [] + r.value == r.value;
  }

  lemma NextOnTop<T>(done: seq<T>, x: T, r: Result<seq<T>>)
    ensures OnTop(done, OnTop([x], r)) == OnTop(done + [x], r)
  {
    if r.Ok? {
      ConcatAssociates(done, [x], r.value);
    }
  }

  lemma NextHunk(source: seq<string>, found: seq<Result<Edit>>, n: nat, delta: int, done: seq<DiffHunk>)
    requires n < |found| && AllFit(source, found)
    ensures AllFit(source, found[n..]) && AllFit(source, found[n + 1..])
    ensures found[n].Refused? ==> OnTop(done, FileHunks(source, found[n..], delta)) == Refused(found[n].reason)
    ensures found[n].Ok? ==>
              var h := found[n].value.Printed(source, delta);
              OnTop(done, FileHunks(source, found[n..], delta))
              == OnTop(done + [h], FileHunks(source, found[n + 1..], delta + h.newCount - h.oldCount))
  {
    hide Edit.Printed;
    assert found[n..][0] == found[n] && found[n..][1..] == found[n + 1..];
    if found[n].Ok? {
      var h := found[n].value.Printed(source, delta);
      NextOnTop(done, h, FileHunks(source, found[n + 1..], delta + h.newCount - h.oldCount));
    }
  }

  /** The loop over the hunks of one file: `before` are the parts so far, which join to the lines
      `shown`. */
  method ReconstructFile(source: seq<string>, hunks: seq<Hunk>, before: seq<string>, ghost shown: seq<string>)
    returns (r: Result<seq<string>>)
    requires before != [] && shown != [] && JoinNewline(before) == JoinNewline(shown)
    ensures var spec := FileHunks(source, Located(source, hunks), 0);
            if spec.Refused? then r == Refused(spec.reason)
            else r.Ok? && r.value != []
                 && JoinNewline(r.value) == JoinNewline(shown + PrintDiffHunks(spec.value))
  {
    hide Edit.Printed, EditOf, EditAt, LocateAnchor, JoinNewline, PrintHunk;
    var parts := before;
    var delta := 0;
    ghost var found := Located(source, hunks);
    ghost var done: seq<DiffHunk> := [];
    assert shown + PrintDiffHunks(done) == shown && found[0..] == found;
    OnTopOfNothing(FileHunks(source, found, 0));
    for n := 0 to |hunks|
      invariant AllFit(source, found[n..])
      invariant parts != [] && JoinNewline(parts) == JoinNewline(shown + PrintDiffHunks(done))
      invariant FileHunks(source, found, 0) == OnTop(done, FileHunks(source, found[n..], delta))
    {
      NextHunk(source, found, n, delta, done);
      var printed := ReconstructHunk(source, hunks[n], delta);
      if printed.Refused? {
        return Refused(printed.reason);
      }
      ghost var h := found[n].value.Printed(source, delta);
      NextPart(parts, shown, done, h);
      parts := parts + [printed.value.0];
      delta := delta + printed.value.1;
      done := done + [h];
    }
    assert found[|hunks|..] == [] && done + [] == done;
    return Ok(parts);
  }

  lemma NextPart(parts: seq<string>, shown: seq<string>, done: seq<DiffHunk>, h: DiffHunk)
    requires parts != [] && shown != [] && JoinNewline(parts) == JoinNewline(shown + PrintDiffHunks(done))
    ensures JoinNewline(parts + [JoinNewline(PrintHunk(h))]) == JoinNewline(shown + PrintDiffHunks(done + [h]))
  {
    JoinMore(parts, shown + PrintDiffHunks(done), PrintHunk(h));
    PrintHunksThen(done, h);
    ConcatAssociates(shown, PrintDiffHunks(done), PrintHunk(h));
  }

  lemma NextFile(diffs: seq<Result<DiffFile>>, k: nat, done: seq<DiffFile>)
    requires k < |diffs|
    ensures diffs[k].Refused? ==> OnTop(done, Gather(diffs[k..])) == Refused(diffs[k].reason)
    ensures diffs[k].Ok? ==> OnTop(done, Gather(diffs[k..])) == OnTop(done + [diffs[k].value], Gather(diffs[k + 1..]))
  {
    assert diffs[k..][0] == diffs[k] && diffs[k..][1..] == diffs[k + 1..];
    if diffs[k].Ok? {
      NextOnTop(done, diffs[k].value, Gather(diffs[k + 1..]));
    }
  }

  lemma NextHeader(parts: seq<string>, shown: seq<string>, path: string)
    requires (parts == [] <==> shown == []) && JoinNewline(parts) == JoinNewline(shown)
    ensures JoinNewline(parts + ["--- a/" + path] + ["+++ b/" + path])
         == JoinNewline(shown + ["--- a/" + path, "+++ b/" + path])
  {
    JoinMore(parts, shown, ["--- a/" + path]);
    JoinMore(parts + ["--- a/" + path], shown + ["--- a/" + path], ["+++ b/" + path]);
    ConcatAssociates(shown, ["--- a/" + path], ["+++ b/" + path]);
    assert ["--- a/" + path] + ["+++ b/" + path] == ["--- a/" + path, "+++ b/" + path];
  }

  /** `files` is what reading a path gives; a path it lacks does not exist. */
  method Reconstruct(block: string, files: map<string, string>) returns (r: Result<string>)
    ensures r == Reconstructed(block, files)
  {
    hide Parsed, Gather, Diffs, JoinNewline, PrintDiffFiles, IsRealHeader;
    if HasRealHeader(block) {
      return Ok(if block != "" && block[|block| - 1] == '\n' then block else block + "\n");
    }
    var parsed := ParseIllustrative(block);
    if parsed.Refused? {
      return Refused(parsed.reason);
    }
    var printed := PrintPatches(parsed.value, files);
    if printed.Refused? {
      return Refused(printed.reason);
    }
    return Ok(printed.value + "\n");
  }

  function PatchText(diff: Result<seq<DiffFile>>): Result<string> {
    if diff.Refused? then Refused(diff.reason) else Ok(JoinNewline(PrintDiffFiles(diff.value)))
  }

  /** The loop over the files of a block. */
  method PrintPatches(patches: seq<FilePatch>, files: map<string, string>) returns (r: Result<string>)
    ensures r == PatchText(Gather(Diffs(patches, files)))
  {
    var parts: seq<string> := [];
    ghost var diffs := Diffs(patches, files);
    ghost var done: seq<DiffFile> := [];
    assert diffs[0..] == diffs;
    OnTopOfNothing(Gather(diffs));
    for k := 0 to |patches|
      invariant (parts == [] <==> PrintDiffFiles(done) == []) && JoinNewline(parts) == JoinNewline(PrintDiffFiles(done))
      invariant Gather(diffs) == OnTop(done, Gather(diffs[k..]))
    {
      NextFile(diffs, k, done);
      var path := patches[k].path;
      if path !in files {
        return Refused(FileNotFound);
      }
      var source := SplitNewline(files[path]);
      ghost var shown := PrintDiffFiles(done);
      NextHeader(parts, shown, path);
      parts := parts + ["--- a/" + path] + ["+++ b/" + path];
      shown := shown + ["--- a/" + path, "+++ b/" + path];
      var printed := ReconstructFile(source, patches[k].hunks, parts, shown);
      if printed.Refused? {
        return Refused(printed.reason);
      }
      parts := printed.value;
      ghost var f := diffs[k].value;
      PrintFilesThen(done, f);
      ConcatAssociates(PrintDiffFiles(done), ["--- a/" + path, "+++ b/" + path], PrintDiffHunks(f.hunks));
      done := done + [f];
    }
    assert diffs[|patches|..] == [] && done + [] == done;
    return Ok(JoinNewline(parts));
  }
}
