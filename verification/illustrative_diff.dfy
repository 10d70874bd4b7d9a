/** The illustrative diffs of an audit report: file headers as in a real diff, but hunk markers that
    carry an anchor line of source instead of line numbers. */
module IllustrativeDiff {
  import opened Text

  datatype Kind = Context | Removal | Addition

  datatype BodyLine = BodyLine(kind: Kind, text: string)

  datatype Hunk = Hunk(anchor: string, body: seq<BodyLine>)

  datatype FilePatch = FilePatch(path: string, hunks: seq<Hunk>)

  datatype Reason = AnchorNotFound | AnchorAmbiguous | ContextMismatch | FileNotFound | Malformed

  datatype Result<+T> = Ok(value: T) | Refused(reason: Reason)

  function StripAb(path: string): string {
    if StartsWith(path, "a/") || StartsWith(path, "b/") then path[2..] else path
  }

  function DropAt(s: string): string {
    if s != "" && s[0] == '@' then s[1..] else s
  }

  /** The whole of `s` matches `\s*@?@?\s*`. */
  predicate MarkerTail(s: string) {
    StripLeft(DropAt(DropAt(StripLeft(s)))) == ""
  }

  /** The lazy group of the hunk-marker pattern: the shortest prefix of `s` whose remainder is a
      marker tail. */
  function LazyAnchor(s: string): string {
    if s == "" || MarkerTail(s) then "" else [s[0]] + LazyAnchor(s[1..])
  }

  function MarkerAnchor(raw: string): string
    requires StartsWith(raw, "@@")
  {
    var rest := raw[2..];
    LazyAnchor(if rest != "" && IsSpace(rest[0]) then rest[1..] else rest)
  }

  /** What the parse loop holds: the files so far, the last of which is the current one, and
      whether the last hunk of that file takes the body lines that follow. */
  datatype Parser = Parser(files: seq<FilePatch>, open: bool) {
    predicate Valid() {
      open ==> files != [] && Last(files).hunks != []
    }
  }

  function Last<T>(s: seq<T>): T
    requires s != []
  {
    s[|s| - 1]
  }

  function SetLast<T>(s: seq<T>, x: T): seq<T>
    requires s != []
  {
    s[..|s| - 1] + [x]
  }

  function AddHunk(files: seq<FilePatch>, h: Hunk): seq<FilePatch>
    requires files != []
  {
    SetLast(files, Last(files).(hunks := Last(files).hunks + [h]))
  }

  function AddBodyLine(files: seq<FilePatch>, line: BodyLine): seq<FilePatch>
    requires files != [] && Last(files).hunks != []
  {
    var f := Last(files);
    SetLast(files, f.(hunks := SetLast(f.hunks, Last(f.hunks).(body := Last(f.hunks).body + [line]))))
  }

  function ReadBodyLine(raw: string): BodyLine {
    if StartsWith(raw, "+") then BodyLine(Addition, raw[1..])
    else if StartsWith(raw, "-") then BodyLine(Removal, raw[1..])
    else BodyLine(Context, if StartsWith(raw, " ") then raw[1..] else raw)
  }

  /** One turn of the parse loop. */
  function ParseLine(p: Parser, raw: string): (r: Result<Parser>)
    requires p.Valid()
    ensures r.Ok? ==> r.value.Valid()
  {
    if StartsWith(raw, "--- ") then Ok(p)
    else if StartsWith(raw, "+++ ") then
      Ok(Parser(p.files + [FilePatch(StripAb(Strip(raw[4..])), [])], false))
    else if StartsWith(raw, "@@") then
      if p.files == [] then Refused(Malformed)
      else Ok(Parser(AddHunk(p.files, Hunk(MarkerAnchor(raw), [])), true))
    else if !p.open then Ok(p)
    else Ok(p.(files := AddBodyLine(p.files, ReadBodyLine(raw))))
  }

  function ParseLines(p: Parser, lines: seq<string>): (r: Result<Parser>)
    requires p.Valid()
    ensures r.Ok? ==> r.value.Valid()
    decreases lines
  {
    if lines == [] then Ok(p)
    else match ParseLine(p, lines[0])
      case Ok(p') => ParseLines(p', lines[1..])
      case Refused(reason) => Refused(reason)
  }

  predicate AnyHunk(files: seq<FilePatch>) {
    exists i | 0 <= i < |files| :: files[i].hunks != []
  }

  function Parsed(block: string): Result<seq<FilePatch>> {
    match ParseLines(Parser([], false), SplitLines(block))
    case Ok(p) => if AnyHunk(p.files) then Ok(p.files) else Refused(Malformed)
    case Refused(reason) => Refused(reason)
  }

  method ParseIllustrative(block: string) returns (r: Result<seq<FilePatch>>)
    ensures r == Parsed(block)
  {
    var files: seq<FilePatch> := [];
    var open := false;
    var lines := SplitLines(block);
    for n := 0 to |lines|
      invariant Parser(files, open).Valid()
      invariant ParseLines(Parser([], false), lines) == ParseLines(Parser(files, open), lines[n..])
    {
      var raw := lines[n];
      assert lines[n..][0] == raw && lines[n..][1..] == lines[n + 1..];
      if StartsWith(raw, "--- ") {
        continue;
      }
      if StartsWith(raw, "+++ ") {
        files := files + [FilePatch(StripAb(Strip(raw[4..])), [])];
        open := false;
        continue;
      }
      if StartsWith(raw, "@@") {
        if files == [] {
          return Refused(Malformed);
        }
        files := AddHunk(files, Hunk(MarkerAnchor(raw), []));
        open := true;
        continue;
      }
      if !open {
        continue;
      }
      if StartsWith(raw, "+") {
        files := AddBodyLine(files, BodyLine(Addition, raw[1..]));
      } else if StartsWith(raw, "-") {
        files := AddBodyLine(files, BodyLine(Removal, raw[1..]));
      } else {
        files := AddBodyLine(files, BodyLine(Context, if StartsWith(raw, " ") then raw[1..] else raw));
      }
    }
    if !AnyHunk(files) {
      return Refused(Malformed);
    }
    return Ok(files);
  }

  // ---- a printer, and the round trip ----

  function PrintBodyLine(line: BodyLine): string {
    match line.kind
    case Context => " " + line.text
    case Removal => "-" + line.text
    case Addition => "+" + line.text
  }

  function PrintBody(body: seq<BodyLine>): seq<string> {
    seq(|body|, i requires 0 <= i < |body| => PrintBodyLine(body[i]))
  }

  function PrintHunks(hunks: seq<Hunk>): seq<string> {
    if hunks == [] then []
    else ["@@ " + hunks[0].anchor] + PrintBody(hunks[0].body) + PrintHunks(hunks[1..])
  }

  function PrintFiles(files: seq<FilePatch>): seq<string> {
    if files == [] then []
    else ["--- a/" + files[0].path, "+++ b/" + files[0].path] + PrintHunks(files[0].hunks)
         + PrintFiles(files[1..])
  }

  /** Every line ended by a newline. */
  function EndLines(lines: seq<string>): string {
    if lines == [] then "" else lines[0] + "\n" + EndLines(lines[1..])
  }

  predicate PrintableBodyLine(line: BodyLine) {
    && OneLine(line.text)
    && (line.kind == Addition ==> !StartsWith(line.text, "++ "))
    && (line.kind == Removal ==> !StartsWith(line.text, "-- "))
  }

  predicate PrintableAnchor(anchor: string) {
    && OneLine(anchor)
    && (anchor != "" ==> Last(anchor) != '@' && !IsSpace(Last(anchor)))
  }

  predicate PrintablePath(path: string) {
    OneLine(path) && (path != "" ==> !IsSpace(Last(path)))
  }

  predicate PrintableHunk(h: Hunk) {
    PrintableAnchor(h.anchor) && forall i | 0 <= i < |h.body| :: PrintableBodyLine(h.body[i])
  }

  predicate PrintableFile(f: FilePatch) {
    PrintablePath(f.path) && forall i | 0 <= i < |f.hunks| :: PrintableHunk(f.hunks[i])
  }

  lemma {:induction false} StripLeftKeepsEnd(s: string)
    requires s != "" && !IsSpace(Last(s))
    ensures StripLeft(s) != "" && Last(StripLeft(s)) == Last(s)
  {
    if IsSpace(s[0]) {
      StripLeftKeepsEnd(s[1..]);
    }
  }

  /** The marker gives an anchor back exactly when the anchor does not end like a marker tail. */
  lemma {:induction false} AnchorKept(a: string)
    ensures LazyAnchor(a) == a <==> a == "" || (Last(a) != '@' && !IsSpace(Last(a)))
  {
    if a == "" {
    } else if |a| == 1 {
      AnchorOfOne(a);
    } else {
      AnchorKept(a[1..]);
      assert Last(a[1..]) == Last(a);
      assert a == [a[0]] + a[1..];
      if Last(a) != '@' && !IsSpace(Last(a)) {
        NoTail(a);
      }
    }
  }

  lemma AnchorOfOne(a: string)
    requires |a| == 1
    ensures LazyAnchor(a) == a <==> Last(a) != '@' && !IsSpace(Last(a))
  {
    assert a[1..] == "" && LazyAnchor("") == "";
    if Last(a) != '@' && !IsSpace(Last(a)) {
      NoTail(a);
    } else if a[0] == '@' {
      assert StripLeft(a) == a && DropAt(a) == "" && DropAt("") == "";
    } else {
      assert StripLeft(a) == "" && DropAt("") == "";
    }
  }

  lemma NoTail(a: string)
    requires a != "" && Last(a) != '@' && !IsSpace(Last(a))
    ensures !MarkerTail(a)
  {
    StripLeftKeepsEnd(a);
    var b := StripLeft(a);
    var c := DropAt(DropAt(b));
    assert c != "" && Last(c) == Last(a);
    StripLeftKeepsEnd(c);
  }

  lemma HeaderPathKept(path: string)
    requires PrintablePath(path)
    ensures StripAb(Strip("b/" + path)) == path
  {
    var s := "b/" + path;
    assert StripLeft(s) == s;
    assert Last(s) == if path == "" then '/' else Last(path);
    assert StripAb(s) == path;
  }

  lemma HunkLine(done: seq<FilePatch>, path: string, hs: seq<Hunk>, open: bool, anchor: string)
    requires open ==> hs != []
    requires PrintableAnchor(anchor)
    ensures ParseLine(Parser(done + [FilePatch(path, hs)], open), "@@ " + anchor)
         == Ok(Parser(done + [FilePatch(path, hs + [Hunk(anchor, [])])], true))
  {
    var raw := "@@ " + anchor;
    assert raw[0] == '@';
    assert StartsWith(raw, "@@") && raw[2..][1..] == anchor;
    AnchorKept(anchor);
  }

  lemma NoMarker(line: BodyLine)
    requires PrintableBodyLine(line)
    ensures var raw := PrintBodyLine(line);
            !StartsWith(raw, "--- ") && !StartsWith(raw, "+++ ") && !StartsWith(raw, "@@")
  {
    hide StartsWith;
    var raw := PrintBodyLine(line);
    assert raw == [raw[0]] + line.text;
    TwoStarts(raw[0], line.text, '-', "-- ");
    TwoStarts(raw[0], line.text, '+', "++ ");
    TwoStarts(raw[0], line.text, '@', "@");
    assert ['-'] + "-- " == "--- " && ['+'] + "++ " == "+++ " && ['@'] + "@" == "@@";
  }

  lemma BodyLineRead(line: BodyLine)
    ensures ReadBodyLine(PrintBodyLine(line)) == line
  {
    var raw := PrintBodyLine(line);
    assert raw[1..] == line.text;
    assert StartsWith(raw, raw[..1]) && raw[..1] == [raw[0]];
    assert forall c :: StartsWith(raw, [c]) ==> raw[0] == c;
  }

  lemma BodyLineKept(done: seq<FilePatch>, path: string, hs: seq<Hunk>, h: Hunk, line: BodyLine)
    requires PrintableBodyLine(line)
    ensures ParseLine(Parser(done + [FilePatch(path, hs + [h])], true), PrintBodyLine(line))
         == Ok(Parser(done + [FilePatch(path, hs + [h.(body := h.body + [line])])], true))
  {
    hide StartsWith, PrintBodyLine, ReadBodyLine;
    NoMarker(line);
    BodyLineRead(line);
  }

  lemma TwoStarts(c: char, s: string, d: char, prefix: string)
    ensures StartsWith([c] + s, [d] + prefix) <==> c == d && StartsWith(s, prefix)
  {
    var t, u := [c] + s, [d] + prefix;
    assert t[1..] == s && u[1..] == prefix;
    assert c == d && StartsWith(s, prefix) ==> t[..|u|] == u;
    assert StartsWith(t, u) ==> t[0] == u[0] && s[..|prefix|] == t[1..][..|prefix|] == prefix;
  }

  function Followed(lines: seq<string>, tail: seq<string>): seq<string> {
    lines + tail
  }

  /** Parsing `lines` first takes the parser from `p` to `q`, whatever follows. */
  ghost predicate Parses(p: Parser, lines: seq<string>, q: Parser) {
    p.Valid() && q.Valid() && forall tail {:trigger Followed(lines, tail)} ::
      ParseLines(p, Followed(lines, tail)) == ParseLines(q, tail)
  }

  lemma ParsesOne(p: Parser, raw: string)
    requires p.Valid() && ParseLine(p, raw).Ok?
    ensures Parses(p, [raw], ParseLine(p, raw).value)
  {
    forall tail ensures ParseLines(p, Followed([raw], tail)) == ParseLines(ParseLine(p, raw).value, tail) {
      assert ([raw] + tail)[1..] == tail;
    }
  }

  lemma ParsesThen(p: Parser, a: seq<string>, q: Parser, b: seq<string>, r: Parser)
    requires Parses(p, a, q) && Parses(q, b, r)
    ensures Parses(p, a + b, r)
  {
    forall tail ensures ParseLines(p, Followed(a + b, tail)) == ParseLines(r, tail) {
      assert Followed(a + b, tail) == Followed(a, Followed(b, tail));
    }
  }

  lemma ParsesNothing(p: Parser)
    requires p.Valid()
    ensures Parses(p, [], p)
  {
    forall tail ensures Followed([], tail) == tail { }
  }

  lemma {:induction false} ParseBody(done: seq<FilePatch>, path: string, hs: seq<Hunk>, h: Hunk,
                                     body: seq<BodyLine>)
    requires forall i | 0 <= i < |body| :: PrintableBodyLine(body[i])
    ensures Parses(Parser(done + [FilePatch(path, hs + [h])], true), PrintBody(body),
                   Parser(done + [FilePatch(path, hs + [h.(body := h.body + body)])], true))
    decreases body
  {
    var p := Parser(done + [FilePatch(path, hs + [h])], true);
    if body == [] {
      assert h.(body := h.body + body) == h;
      ParsesNothing(p);
    } else {
      var h' := h.(body := h.body + [body[0]]);
      BodyLineKept(done, path, hs, h, body[0]);
      ParsesOne(p, PrintBodyLine(body[0]));
      ParseBody(done, path, hs, h', body[1..]);
      assert PrintBody(body) == [PrintBodyLine(body[0])] + PrintBody(body[1..]);
      assert h'.body + body[1..] == h.body + body;
      ParsesThen(p, [PrintBodyLine(body[0])], Parser(done + [FilePatch(path, hs + [h'])], true),
                 PrintBody(body[1..]),
                 Parser(done + [FilePatch(path, hs + [h.(body := h.body + body)])], true));
    }
  }

  lemma ParseHunk(done: seq<FilePatch>, path: string, hs: seq<Hunk>, open: bool, h: Hunk)
    requires open ==> hs != []
    requires PrintableHunk(h)
    ensures Parses(Parser(done + [FilePatch(path, hs)], open), ["@@ " + h.anchor] + PrintBody(h.body),
                   Parser(done + [FilePatch(path, hs + [h])], true))
  {
    HunkLine(done, path, hs, open, h.anchor);
    ParsesOne(Parser(done + [FilePatch(path, hs)], open), "@@ " + h.anchor);
    ParseBody(done, path, hs, Hunk(h.anchor, []), h.body);
    assert Hunk(h.anchor, []).(body := [] + h.body) == h;
    ParsesThen(Parser(done + [FilePatch(path, hs)], open), ["@@ " + h.anchor],
               Parser(done + [FilePatch(path, hs + [Hunk(h.anchor, [])])], true), PrintBody(h.body),
               Parser(done + [FilePatch(path, hs + [h])], true));
  }

  lemma {:induction false} ParseHunks(done: seq<FilePatch>, path: string, hs: seq<Hunk>, open: bool,
                                      hunks: seq<Hunk>)
    requires open ==> hs != []
    requires forall i | 0 <= i < |hunks| :: PrintableHunk(hunks[i])
    ensures Parses(Parser(done + [FilePatch(path, hs)], open), PrintHunks(hunks),
                   Parser(done + [FilePatch(path, hs + hunks)], open || hunks != []))
    decreases hunks
  {
    var p := Parser(done + [FilePatch(path, hs)], open);
    if hunks == [] {
      assert hs + hunks == hs;
      ParsesNothing(p);
    } else {
      ParseHunk(done, path, hs, open, hunks[0]);
      ParseHunks(done, path, hs + [hunks[0]], true, hunks[1..]);
      assert hs + [hunks[0]] + hunks[1..] == hs + hunks;
      ParsesThen(p, ["@@ " + hunks[0].anchor] + PrintBody(hunks[0].body),
                 Parser(done + [FilePatch(path, hs + [hunks[0]])], true), PrintHunks(hunks[1..]),
                 Parser(done + [FilePatch(path, hs + hunks)], true));
    }
  }

  lemma OldHeaderLine(p: Parser, path: string)
    requires p.Valid()
    ensures ParseLine(p, "--- a/" + path) == Ok(p)
  {
    assert StartsWith("--- a/" + path, "--- ");
  }

  lemma NewHeaderLine(p: Parser, path: string)
    requires p.Valid() && PrintablePath(path)
    ensures ParseLine(p, "+++ b/" + path) == Ok(Parser(p.files + [FilePatch(path, [])], false))
  {
    var raw := "+++ b/" + path;
    assert raw[0] == '+' && StartsWith(raw, "+++ ") && raw[4..] == "b/" + path;
    HeaderPathKept(path);
  }

  lemma ParseFile(p: Parser, f: FilePatch)
    requires p.Valid() && PrintableFile(f)
    ensures Parses(p, ["--- a/" + f.path, "+++ b/" + f.path] + PrintHunks(f.hunks),
                   Parser(p.files + [f], f.hunks != []))
  {
    var old_, new_ := "--- a/" + f.path, "+++ b/" + f.path;
    var q := Parser(p.files + [FilePatch(f.path, [])], false);
    OldHeaderLine(p, f.path);
    ParsesOne(p, old_);
    NewHeaderLine(p, f.path);
    ParsesOne(p, new_);
    ParsesThen(p, [old_], p, [new_], q);
    assert [old_, new_] == [old_] + [new_];
    ParseHunks(p.files, f.path, [], false, f.hunks);
    assert FilePatch(f.path, [] + f.hunks) == f;
    ParsesThen(p, [old_, new_], q, PrintHunks(f.hunks), Parser(p.files + [f], f.hunks != []));
  }

  lemma {:induction false} ParsePrintedFiles(p: Parser, files: seq<FilePatch>)
    requires p.Valid()
    requires forall i | 0 <= i < |files| :: PrintableFile(files[i])
    ensures exists open :: Parses(p, PrintFiles(files), Parser(p.files + files, open))
    decreases files
  {
    if files == [] {
      assert p.files + files == p.files;
      ParsesNothing(p);
      assert Parses(p, PrintFiles(files), Parser(p.files + files, p.open));
    } else {
      var f := files[0];
      var q := Parser(p.files + [f], f.hunks != []);
      ParseFile(p, f);
      ParsePrintedFiles(q, files[1..]);
      assert q.files + files[1..] == p.files + files;
      var open :| Parses(q, PrintFiles(files[1..]), Parser(p.files + files, open));
      ParsesThen(p, ["--- a/" + f.path, "+++ b/" + f.path] + PrintHunks(f.hunks), q,
                 PrintFiles(files[1..]), Parser(p.files + files, open));
    }
  }

  lemma {:induction false} SplitEndedLine(l: string, s: string)
    requires OneLine(l)
    ensures SplitLines(l + "\n" + s) == [l] + SplitLines(s)
  {
    if l == "" {
      assert (l + "\n" + s)[1..] == s;
    } else {
      var t := l + "\n" + s;
      SplitEndedLine(l[1..], s);
      assert t[1..] == l[1..] + "\n" + s;
      assert t[0] == l[0] && l[0] in l;
      assert [l[0]] + l[1..] == l;
      assert SplitLines(t) == Prepend(l[0], [l[1..]] + SplitLines(s));
    }
  }

  lemma {:induction false} SplitEndedLines(lines: seq<string>)
    requires forall i | 0 <= i < |lines| :: OneLine(lines[i])
    ensures SplitLines(EndLines(lines)) == lines
  {
    if lines != [] {
      SplitEndedLines(lines[1..]);
      SplitEndedLine(lines[0], EndLines(lines[1..]));
    }
  }

  lemma {:induction false} PrintedHunksAreLines(hunks: seq<Hunk>)
    requires forall i | 0 <= i < |hunks| :: PrintableHunk(hunks[i])
    ensures forall i | 0 <= i < |PrintHunks(hunks)| :: OneLine(PrintHunks(hunks)[i])
  {
    if hunks != [] {
      PrintedHunksAreLines(hunks[1..]);
      var body := hunks[0].body;
      forall i | 0 <= i < |body| ensures OneLine(PrintBody(body)[i]) {
        assert PrintableBodyLine(body[i]);
      }
      assert OneLine("@@ " + hunks[0].anchor);
    }
  }

  lemma {:induction false} PrintedFilesAreLines(files: seq<FilePatch>)
    requires forall i | 0 <= i < |files| :: PrintableFile(files[i])
    ensures forall i | 0 <= i < |PrintFiles(files)| :: OneLine(PrintFiles(files)[i])
  {
    if files != [] {
      PrintedFilesAreLines(files[1..]);
      PrintedHunksAreLines(files[0].hunks);
      assert OneLine("--- a/" + files[0].path) && OneLine("+++ b/" + files[0].path);
    }
  }

  lemma ParseAll(p: Parser, lines: seq<string>, q: Parser)
    requires Parses(p, lines, q)
    ensures ParseLines(p, lines) == Ok(q)
  {
    assert Followed(lines, []) == lines;
    assert ParseLines(q, []) == Ok(q);
  }

  lemma ParsePrinted(files: seq<FilePatch>) returns (open: bool)
    requires forall i | 0 <= i < |files| :: PrintableFile(files[i])
    ensures ParseLines(Parser([], false), PrintFiles(files)) == Ok(Parser(files, open))
  {
    var p := Parser([], false);
    ParsePrintedFiles(p, files);
    assert p.files + files == files;
    open :| Parses(p, PrintFiles(files), Parser(files, open));
    ParseAll(p, PrintFiles(files), Parser(files, open));
  }

  lemma ParsedFrom(block: string, lines: seq<string>, files: seq<FilePatch>, open: bool)
    requires SplitLines(block) == lines && AnyHunk(files)
    requires ParseLines(Parser([], false), lines) == Ok(Parser(files, open))
    ensures Parsed(block) == Ok(files)
  {
  }

  /** Parsing undoes printing. */
  lemma ParseUndoesPrint(files: seq<FilePatch>)
    requires AnyHunk(files)
    requires forall i | 0 <= i < |files| :: PrintableFile(files[i])
    ensures Parsed(EndLines(PrintFiles(files))) == Ok(files)
  {
    PrintedFilesAreLines(files);
    SplitEndedLines(PrintFiles(files));
    var open := ParsePrinted(files);
    ParsedFrom(EndLines(PrintFiles(files)), PrintFiles(files), files, open);
  }

  // ---- what a parse can return ----

  predicate CleanFile(f: FilePatch) {
    && OneLine(f.path)
    && forall i, j | 0 <= i < |f.hunks| && 0 <= j < |f.hunks[i].body| :: OneLine(f.hunks[i].body[j].text)
  }

  predicate Clean(files: seq<FilePatch>) {
    forall i | 0 <= i < |files| :: CleanFile(files[i])
  }

  lemma ParseLineKeepsClean(p: Parser, raw: string)
    requires p.Valid() && Clean(p.files) && OneLine(raw)
    ensures var r := ParseLine(p, raw); r.Ok? ==> Clean(r.value.files)
  {
    if StartsWith(raw, "--- ") {
    } else if StartsWith(raw, "+++ ") {
      StripKeepsOneLine(raw[4..]);
    } else if StartsWith(raw, "@@") {
      if p.files != [] {
        assert CleanFile(Last(p.files));
      }
    } else if p.open {
      var f := Last(p.files);
      assert CleanFile(f);
      var line := ReadBodyLine(raw);
      assert OneLine(line.text);
      var f' := Last(AddBodyLine(p.files, line));
      forall i, j | 0 <= i < |f'.hunks| && 0 <= j < |f'.hunks[i].body|
        ensures OneLine(f'.hunks[i].body[j].text)
      {
        if i < |f.hunks| - 1 || j < |f'.hunks[i].body| - 1 {
          assert f'.hunks[i].body[j] == f.hunks[i].body[j];
        }
      }
    }
  }

  lemma {:induction false} ParseLinesKeepsClean(p: Parser, lines: seq<string>)
    requires p.Valid() && Clean(p.files)
    requires forall i | 0 <= i < |lines| :: OneLine(lines[i])
    ensures var r := ParseLines(p, lines); r.Ok? ==> Clean(r.value.files)
    decreases lines
  {
    if lines != [] {
      ParseLineKeepsClean(p, lines[0]);
      var r := ParseLine(p, lines[0]);
      if r.Ok? {
        ParseLinesKeepsClean(r.value, lines[1..]);
      }
    }
  }

  /** Paths and body lines of a parsed block never hold a line break. */
  lemma ParsedIsClean(block: string)
    ensures Parsed(block).Ok? ==> Clean(Parsed(block).value) && AnyHunk(Parsed(block).value)
  {
    ParseLinesKeepsClean(Parser([], false), SplitLines(block));
  }
}
