/** The pieces that the patch reconstruction works with, in terms of the texts they are cut from. */
module PatchMeaning {
  import opened IllustrativeDiff
  import opened PatchReconstruct
  import opened Text
  import opened UnifiedDiff
  import opened Wrappers

  // ---- white space and lines ----

  predicate AllSpace(s: string) {
    forall c | c in s :: IsSpace(c)
  }

  /** Exactly these characters are white space, and exactly these end a line. */
  lemma CharactersAre(c: char)
    ensures IsSpace(c) <==>
              || 9 <= c as int <= 13 || 28 <= c as int <= 32 || 8192 <= c as int <= 8202
              || c as int in {133, 160, 5760, 8232, 8233, 8239, 8287, 12288}
    ensures IsLineBreak(c) <==> c as int in {10, 11, 12, 13, 28, 29, 30, 133, 8232, 8233}
  {
  }

  lemma {:induction false} StripLeftIs(s: string) returns (front: string)
    ensures AllSpace(front) && s == front + StripLeft(s)
  {
    front := "";
    if s != "" && IsSpace(s[0]) {
      var rest := StripLeftIs(s[1..]);
      front := [s[0]] + rest;
    }
  }

  lemma {:induction false} StripRightIs(s: string) returns (back: string)
    ensures AllSpace(back) && s == StripRight(s) + back
  {
    back := "";
    if s != "" && IsSpace(s[|s| - 1]) {
      var rest := StripRightIs(s[..|s| - 1]);
      back := rest + [s[|s| - 1]];
      assert s == s[..|s| - 1] + [s[|s| - 1]];
    }
  }

  /** Stripping takes white space off both ends, and all of it. */
  lemma StripIs(s: string) returns (front: string, back: string)
    ensures AllSpace(front) && AllSpace(back) && s == front + Strip(s) + back
    ensures Strip(s) == "" || (!IsSpace(Strip(s)[0]) && !IsSpace(Strip(s)[|Strip(s)| - 1]))
  {
    front := StripLeftIs(s);
    back := StripRightIs(StripLeft(s));
    assert Strip(s) != "" ==> Strip(s)[0] == StripLeft(s)[0];
  }

  /** Joining undoes splitting. */
  lemma {:induction false} JoinUndoesSplit(s: string)
    ensures JoinNewline(SplitNewline(s)) == s
  {
    if s != "" {
      var rest := SplitNewline(s[1..]);
      JoinUndoesSplit(s[1..]);
      assert s == [s[0]] + s[1..];
      if s[0] == '\n' {
        Text.JoinMore("", rest);
        assert "" + "\n" + s[1..] == [s[0]] + s[1..];
      } else {
        JoinPrepended(s[0], rest);
      }
    }
  }

  lemma JoinPrepended(c: char, lines: seq<string>)
    requires lines != []
    ensures JoinNewline(Prepend(c, lines)) == [c] + JoinNewline(lines)
  {
    if |lines| > 1 {
      Text.JoinMore(lines[0], lines[1..]);
      assert lines == [lines[0]] + lines[1..];
      Text.JoinMore([c] + lines[0], lines[1..]);
      hide JoinNewline;
      assert [c] + (lines[0] + "\n" + JoinNewline(lines[1..])) == ([c] + lines[0]) + "\n" + JoinNewline(lines[1..]);
    } else {
      assert Prepend(c, lines) == [[c] + lines[0]];
    }
  }

  /** What ends a line: `\r\n` as a whole, or one of the characters. */
  predicate EndsLine(mark: string, rest: string) {
    || mark == "\r\n"
    || (|mark| == 1 && IsLineBreak(mark[0]) && !(mark == "\r" && rest != "" && rest[0] == '\n'))
  }

  /** Splitting into lines: no line of nothing, one of a text without a mark, and otherwise the line up to the first
      mark and the lines of what follows it. */
  lemma {:induction false} LinesAre(line: string, mark: string, rest: string)
    requires OneLine(line)
    ensures SplitLines("") == [] && (line != "" ==> SplitLines(line) == [line])
    ensures EndsLine(mark, rest) ==> SplitLines(line + mark + rest) == [line] + SplitLines(rest)
  {
    if line == "" {
      assert line + mark + rest == mark + rest;
      if EndsLine(mark, rest) {
        assert (mark + rest)[|mark|..] == rest;
      }
    } else {
      LinesAre(line[1..], mark, rest);
      assert (line + mark + rest)[1..] == line[1..] + mark + rest && (line + mark + rest)[0] == line[0];
      assert line[0] in line && line == [line[0]] + line[1..];
      assert line[1..] != "" ==> Prepend(line[0], [line[1..]]) == [line];
      assert line[1..] == "" ==> line == [line[0]];
      assert !IsLineBreak(line[0]) && line[0] != '\r';
    }
  }

  // ---- hunk markers and body lines ----

  /** White space, at most two `@`, white space. */
  ghost predicate Tail(s: string) {
    exists x, marks, y | AllSpace(x) && AllSpace(y) && marks in {"", "@", "@@"} :: s == x + marks + y
  }

  lemma {:induction false} StripLeftOf(x: string, rest: string)
    requires AllSpace(x) && (rest == "" || !IsSpace(rest[0]))
    ensures StripLeft(x + rest) == rest
  {
    if x == "" {
      assert x + rest == rest;
    } else {
      assert (x + rest)[1..] == x[1..] + rest && x[0] in x;
      StripLeftOf(x[1..], rest);
    }
  }

  lemma TailIs(s: string)
    ensures MarkerTail(s) <==> Tail(s)
  {
    if MarkerTail(s) {
      var x := StripLeftIs(s);
      var t := StripLeft(s);
      var once := DropAt(t);
      var y := StripLeftIs(DropAt(once));
      assert y + "" == y && DropAt(once) == y;
      var marks := if t == once then "" else if once == y then "@" else "@@";
      assert t == marks + y;
      assert s == x + marks + y;
    }
    if x, marks, y :| AllSpace(x) && AllSpace(y) && marks in {"", "@", "@@"} && s == x + marks + y {
      MarksAreTail(x, marks, y);
    }
  }

  lemma MarksAreTail(x: string, marks: string, y: string)
    requires AllSpace(x) && AllSpace(y) && marks in {"", "@", "@@"}
    ensures MarkerTail(x + marks + y)
  {
    hide StripLeft;
    var s := x + marks + y;
    assert y != "" ==> y[0] in y;
    StripLeftOf(y, "");
    assert y + "" == y;
    if marks == "" {
      assert s == (x + y) + "";
      StripLeftOf(x + y, "");
      StripLeftOf("", "");
      assert "" + "" == "";
    } else {
      assert s == x + (marks + y);
      StripLeftOf(x, marks + y);
      assert DropAt(marks + y) == marks[1..] + y;
      if marks == "@" {
        assert marks[1..] + y == y && DropAt(y) == y;
      } else {
        assert DropAt(marks[1..] + y) == y;
      }
    }
  }

  lemma {:induction false} LazyAnchorIs(s: string) returns (tail: string)
    ensures s == LazyAnchor(s) + tail && Tail(tail)
    ensures forall k | 0 <= k < |LazyAnchor(s)| :: !Tail(s[k..])
  {
    hide Tail;
    TailIs(s);
    TailIs("");
    tail := s;
    if s == "" {
      assert MarkerTail("");
    } else if !MarkerTail(s) {
      tail := LazyAnchorIs(s[1..]);
      assert s == [s[0]] + s[1..];
      NoTailBefore(s, |LazyAnchor(s[1..])|);
    }
  }

  lemma NoTailBefore(s: string, n: nat)
    requires n < |s| && !Tail(s) && forall k | 0 <= k < n :: !Tail(s[1..][k..])
    ensures forall k | 0 <= k < n + 1 :: !Tail(s[k..])
  {
    hide Tail;
    forall k | 0 <= k < n + 1 ensures !Tail(s[k..]) {
      if k == 0 {
        assert s[0..] == s;
      } else {
        var j := k - 1;
        assert !Tail(s[1..][j..]);
        assert s[k..] == s[1..][j..];
      }
    }
  }

  /** A hunk marker is `@@`, one white space if there is any, the anchor, and a tail; the anchor is the shortest that
      leaves a tail. */
  lemma MarkerIs(raw: string) returns (space: string, tail: string)
    requires StartsWith(raw, "@@")
    ensures var anchor := MarkerAnchor(raw);
            && raw == "@@" + space + anchor + tail && Tail(tail)
            && |space| <= 1 && AllSpace(space) && (space == "" ==> |raw| == 2 || !IsSpace(raw[2]))
            && forall k | 0 <= k < |anchor| :: !Tail((anchor + tail)[k..])
  {
    hide Tail, LazyAnchor, IsSpace;
    var rest := raw[2..];
    space := if rest != "" && IsSpace(rest[0]) then rest[..1] else "";
    var marked := rest[|space|..];
    assert marked == if rest != "" && IsSpace(rest[0]) then rest[1..] else rest;
    tail := LazyAnchorIs(marked);
    hide MarkerAnchor;
    var anchor := LazyAnchor(marked);
    assert raw == "@@" + rest && rest == space + marked && marked == anchor + tail;
    assert raw == "@@" + space + anchor + tail;
  }

  /** What a path in a header stands for. */
  lemma PathIs(path: string)
    ensures StripAb("a/" + path) == path && StripAb("b/" + path) == path
    ensures |path| < 2 || path[..2] !in {"a/", "b/"} ==> StripAb(path) == path
  {
    assert StartsWith(path, "a/") ==> path[..2] == "a/";
    assert StartsWith(path, "b/") ==> path[..2] == "b/";
  }

  /** What a body line stands for. */
  lemma BodyLineIs(text: string)
    ensures IllustrativeDiff.ReadBodyLine("+" + text) == BodyLine(Addition, text)
    ensures IllustrativeDiff.ReadBodyLine("-" + text) == BodyLine(Removal, text)
    ensures IllustrativeDiff.ReadBodyLine(" " + text) == BodyLine(Context, text)
    ensures text == "" || text[0] !in "+- " ==> IllustrativeDiff.ReadBodyLine(text) == BodyLine(Context, text)
  {
    assert ("-" + text)[0] == '-' && (" " + text)[0] == ' ';
    assert ("+" + text)[1..] == text && ("-" + text)[1..] == text && (" " + text)[1..] == text;
  }

  /** What one line of a block does: an old-file header nothing, a new-file header begins a file, a marker begins a
      hunk of the current file and is refused without one, any other line is a body line of the current hunk, or
      nothing if the current file has none yet. */
  lemma LineDoes(p: Parser, raw: string)
    requires p.Valid()
    ensures "--- " <= raw ==> ParseLine(p, raw) == Ok(p)
    ensures "+++ " <= raw ==>
              ParseLine(p, raw) == Ok(Parser(p.files + [FilePatch(StripAb(Strip(raw[4..])), [])], false))
    ensures "@@" <= raw && p.files == [] ==> ParseLine(p, raw) == Refused(Malformed)
    ensures "@@" <= raw && p.files != [] ==>
              var n := |p.files| - 1;
              var f := p.files[n];
              ParseLine(p, raw) ==
              Ok(Parser(p.files[..n] + [FilePatch(f.path, f.hunks + [Hunk(MarkerAnchor(raw), [])])], true))
    ensures !("--- " <= raw) && !("+++ " <= raw) && !("@@" <= raw) && !p.open ==> ParseLine(p, raw) == Ok(p)
    ensures !("--- " <= raw) && !("+++ " <= raw) && !("@@" <= raw) && p.open ==>
              var n := |p.files| - 1;
              var f := p.files[n];
              var m := |f.hunks| - 1;
              var h := f.hunks[m];
              var body := h.body + [IllustrativeDiff.ReadBodyLine(raw)];
              ParseLine(p, raw) ==
              Ok(Parser(p.files[..n] + [FilePatch(f.path, f.hunks[..m] + [Hunk(h.anchor, body)])], true))
  {
    hide MarkerAnchor, IllustrativeDiff.ReadBodyLine, StripAb, Strip;
    assert "--- " <= raw ==> raw[0] == '-';
    assert "+++ " <= raw ==> raw[0] == '+';
    assert "@@" <= raw ==> raw[0] == '@';
  }

  // ---- what a printed hunk shows ----

  /** After a body that ends at a change a hunk shows the next three lines of the source, or all that there are, not
      counting the empty piece after a final newline; after any other body none. */
  lemma TrailIs(source: seq<string>, e: Edit)
    requires e.Fits(source)
    ensures var left := |source| - (if source[|source| - 1] == "" then 1 else 0) - e.BodyEnd();
            e.End(source) - e.BodyEnd() ==
            if e.body == [] || e.body[|e.body| - 1].kind == Context || left < 0 then 0
            else if left < 3 then left else 3
  {
  }

  /** So a hunk ends at a change only where the file ends. */
  lemma EndsInContext(source: seq<string>, e: Edit)
    requires e.Fits(source)
    ensures var shown := e.Shown(source);
            shown[|shown| - 1].kind != Context ==>
              e.BodyEnd() == |source| || (e.BodyEnd() == |source| - 1 && source[|source| - 1] == "")
  {
    var shown := e.Shown(source);
    var trail := Contexts(source[e.BodyEnd()..e.End(source)]);
    if trail != [] {
      assert shown[|shown| - 1] == trail[|trail| - 1];
    } else if e.body != [] {
      assert shown[|shown| - 1] == e.body[|e.body| - 1];
    }
  }
}
