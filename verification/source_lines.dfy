/** The lines of a drafted source, as the deterministic rewriters see them, and the import lists that the text
    holds. */
module SourceLines {
  import opened Wrappers

  /** A word is a maximal run of word characters; `Text` is anything else but a dot. */
  datatype Token = Word(word: string) | Dot | Text(text: string)

  /** Imports from `@...` or `forge-std` are library imports. */
  datatype Path = Path(library: bool, tokens: seq<Token>)

  /** An item of an import list; `Piece` is text that is no name. */
  datatype Name = Plain(name: string) | Aliased(name: string, alias: string) | Piece

  /** What named imports are made of after the word `import`, and any other text. */
  datatype Part =
    | LeftBrace | Item(name: Name) | Comma | RightBrace | From | Source(path: Path) | Semicolon
    | Other(tokens: seq<Token>)

  /** A named import on one line; the first line of one that is broken anywhere, and a line that goes on with
      one; another line that begins with `import` or `pragma`; any other line. */
  datatype Line =
    | Import(names: seq<Name>, path: Path)
    | Start(parts: seq<Part>)
    | More(parts: seq<Part>)
    | Header(tokens: seq<Token>)
    | Code(tokens: seq<Token>)

  /** Where the project files declare their contracts. */
  type FileMap = map<string, Path>

  // ---- where imports go ----

  /** The line begins with `import` or `pragma`. */
  predicate Begins(line: Line) {
    line.Import? || line.Start? || line.Header?
  }

  /** After the last line that begins with `import` or `pragma`. */
  function InsertAt(lines: seq<Line>): (k: nat)
    ensures k <= |lines| && (k > 0 ==> Begins(lines[k - 1])) && forall i | k <= i < |lines| :: !Begins(lines[i])
  {
    if lines == [] then 0
    else if Begins(lines[|lines| - 1]) then |lines|
    else InsertAt(lines[..|lines| - 1])
  }

  function Splice(lines: seq<Line>, additions: seq<Line>): seq<Line> {
    lines[..InsertAt(lines)] + additions + lines[InsertAt(lines)..]
  }

  lemma SpliceNothing(lines: seq<Line>)
    ensures Splice(lines, []) == lines
  {
  }

  lemma SplicedLine(lines: seq<Line>, additions: seq<Line>, line: Line)
    ensures line in Splice(lines, additions) <==> line in lines || line in additions
  {
    assert lines == lines[..InsertAt(lines)] + lines[InsertAt(lines)..];
  }

  // ---- reading the import lists of a text ----

  datatype ImportList = ImportList(names: seq<Name>, path: Path)

  /** How far an unfinished import has got: after the word `import`, in its list, with the names so far and the
      item at hand, after the list, after `from`, after the path. */
  datatype Stage =
    | Outside
    | Keyword
    | InList(names: seq<Name>, item: Option<Name>)
    | Closed(names: seq<Name>)
    | Sourced(names: seq<Name>)
    | Pathed(names: seq<Name>, path: Path)

  /** The lists read so far, and the import that is not finished yet. */
  datatype Reader = Reader(lists: seq<ImportList>, stage: Stage)

  const UNREAD := Reader([], Outside)

  predicate HasBrace(tokens: seq<Token>) {
    exists i | 0 <= i < |tokens| :: tokens[i].Text? && '}' in tokens[i].text
  }

  /** The names of a list when its item at hand ends. */
  function Ended(names: seq<Name>, item: Option<Name>): seq<Name> {
    if item.None? then names else names + [item.value]
  }

  /** The word `import`: in a list it is no more than text. */
  function ReadKeyword(r: Reader): Reader {
    r.(stage := if r.stage.InList? then InList(r.stage.names, Some(Piece)) else Keyword)
  }

  /** A list ends at the first closing brace, whatever stands in it. Anywhere else what does not go on with the
      import breaks it off. */
  function ReadPart(r: Reader, part: Part): Reader {
    if part.Other? then ReadText(r, part.tokens)
    else
      match r.stage
      case Outside => r
      case Keyword => r.(stage := if part.LeftBrace? then InList([], None) else Outside)
      case InList(names, item) =>
        r.(stage := if part.RightBrace? then Closed(Ended(names, item))
                    else if part.Comma? then InList(Ended(names, item), None)
                    else InList(names, Some(if part.Item? && item.None? then part.name else Piece)))
      case Closed(names) => r.(stage := if part.From? then Sourced(names) else Outside)
      case Sourced(names) => r.(stage := if part.Source? then Pathed(names, part.path) else Outside)
      case Pathed(names, path) =>
        Reader(if part.Semicolon? then r.lists + [ImportList(names, path)] else r.lists, Outside)
  }

  /** A brace in other text ends no import. */
  function ReadText(r: Reader, tokens: seq<Token>): Reader {
    if tokens == [] then r
    else r.(stage := if r.stage.InList? && !HasBrace(tokens) then InList(r.stage.names, Some(Piece)) else Outside)
  }

  function ReadParts(r: Reader, parts: seq<Part>): Reader {
    if parts == [] then r else ReadPart(ReadParts(r, parts[..|parts| - 1]), parts[|parts| - 1])
  }

  /** An import that stands inside an open list ends it, and its first name is no name any more. */
  function ReadLine(r: Reader, line: Line): Reader {
    match line
    case Import(names, path) =>
      Reader(r.lists + [ImportList(if r.stage.InList? then Swallowed(r.stage.names, names) else names, path)], Outside)
    case Start(parts) => ReadParts(ReadKeyword(r), parts)
    case More(parts) => ReadParts(r, parts)
    case Header(tokens) => ReadText(r, tokens)
    case Code(tokens) => ReadText(r, tokens)
  }

  function Swallowed(open: seq<Name>, names: seq<Name>): seq<Name> {
    open + [Piece] + if names == [] then [] else names[1..]
  }

  function ReadFrom(r: Reader, lines: seq<Line>): Reader {
    if lines == [] then r else ReadLine(ReadFrom(r, lines[..|lines| - 1]), lines[|lines| - 1])
  }

  function Read(lines: seq<Line>): Reader {
    ReadFrom(UNREAD, lines)
  }

  predicate Listed(lists: seq<ImportList>, name: string) {
    exists i | 0 <= i < |lists| :: Plain(name) in lists[i].names
  }

  /** The text imports `name`, on one line or on several. */
  predicate Imported(lines: seq<Line>, name: string) {
    Listed(Read(lines).lists, name)
  }

  /** What is read before imports are inserted, and how far an import has got there. */
  function BeforeInsertion(lines: seq<Line>): Reader {
    Read(lines[..InsertAt(lines)])
  }

  /** The names of an import that is unfinished at the insertion point, if the lines that follow finish it. */
  function FinishedLater(lines: seq<Line>): seq<Name> {
    var before, all := BeforeInsertion(lines).lists, Read(lines).lists;
    if |before| < |all| then all[|before|].names else []
  }

  // ---- one-line imports are read as their parts ----

  /** The items of a list, with commas between them. */
  function Listing(names: seq<Name>): seq<Part> {
    if names == [] then []
    else if |names| == 1 then [Item(names[0])]
    else Listing(names[..|names| - 1]) + [Comma, Item(names[|names| - 1])]
  }

  function PartsOf(names: seq<Name>, path: Path): seq<Part> {
    [LeftBrace] + Listing(names) + [RightBrace, From, Source(path), Semicolon]
  }

  lemma {:induction false} PartsJoin(r: Reader, a: seq<Part>, b: seq<Part>)
    ensures ReadParts(r, a + b) == ReadParts(ReadParts(r, a), b)
  {
    hide ReadPart;
    if b == [] {
      assert a + b == a;
    } else {
      PartsJoin(r, a, b[..|b| - 1]);
      assert (a + b)[..|a + b| - 1] == a + b[..|b| - 1] && (a + b)[|a + b| - 1] == b[|b| - 1];
    }
  }

  lemma ReadOnePart(r: Reader, a: Part)
    ensures ReadParts(r, [a]) == ReadPart(r, a)
  {
    assert [a][..0] == [];
  }

  lemma ReadTwoParts(r: Reader, a: Part, b: Part)
    ensures ReadParts(r, [a, b]) == ReadPart(ReadPart(r, a), b)
  {
    hide ReadPart;
    assert [a] + [b] == [a, b];
    PartsJoin(r, [a], [b]);
    ReadOnePart(r, a);
    ReadOnePart(ReadPart(r, a), b);
  }

  lemma OneItemMore(before: seq<Name>, names: seq<Name>)
    requires |names| > 1
    ensures var init := names[..|names| - 1];
            before + names[1..|names| - 1] ==
            if |init| == 1 then before else before + init[1..|init| - 1] + [init[|init| - 1]]
  {
    var init := names[..|names| - 1];
    assert names[1..|names| - 1] == init[1..];
    if |init| > 1 {
      assert init[1..] == init[1..|init| - 1] + [init[|init| - 1]];
    }
  }

  /** In a list: a clean item at hand becomes the first name, an unclean one spoils it. */
  lemma {:induction false} ReadListing(r: Reader, open: seq<Name>, item: Option<Name>, names: seq<Name>)
    requires r.stage == InList(open, item) && names != []
    ensures var first := if item.None? then names[0] else Piece;
            ReadParts(r, Listing(names)) ==
            r.(stage := if |names| == 1 then InList(open, Some(first))
                        else InList(open + [first] + names[1..|names| - 1], Some(names[|names| - 1])))
    decreases |names|
  {
    if |names| == 1 {
      ReadOnePart(r, Item(names[0]));
    } else {
      var init, last := names[..|names| - 1], names[|names| - 1];
      ReadListing(r, open, item, init);
      PartsJoin(r, Listing(init), [Comma, Item(last)]);
      ReadTwoParts(ReadParts(r, Listing(init)), Comma, Item(last));
      OneItemMore(open + [if item.None? then names[0] else Piece], names);
    }
  }

  /** A named import on one line is read as the word `import` and its parts. */
  lemma ImportIsItsParts(r: Reader, names: seq<Name>, path: Path)
    ensures ReadLine(r, Import(names, path)) == ReadLine(r, Start(PartsOf(names, path)))
  {
    hide ReadParts, Listing;
    var tail := [RightBrace, From, Source(path), Semicolon];
    var k := ReadKeyword(r);
    var open := ReadPart(k, LeftBrace);
    PartsJoin(k, [LeftBrace] + Listing(names), tail);
    PartsJoin(k, [LeftBrace], Listing(names));
    ReadOnePart(k, LeftBrace);
    assert [RightBrace, From] + [Source(path), Semicolon] == tail;
    var listed := ReadParts(open, Listing(names));
    PartsJoin(listed, [RightBrace, From], [Source(path), Semicolon]);
    ReadTwoParts(listed, RightBrace, From);
    ReadTwoParts(ReadPart(ReadPart(listed, RightBrace), From), Source(path), Semicolon);
    ListingRead(open, names);
    assert r.stage.InList? ==> open.stage == InList(r.stage.names, Some(Piece));
    assert [] + names == names;
    assert ReadParts(k, PartsOf(names, path)) == ReadParts(listed, tail);
  }

  lemma ListingRead(r: Reader, names: seq<Name>)
    requires r.stage.InList?
    ensures var q := ReadParts(r, Listing(names));
            && q.lists == r.lists && q.stage.InList?
            && (r.stage.item.None? ==> Ended(q.stage.names, q.stage.item) == r.stage.names + names)
            && (r.stage.item == Some(Piece) ==> Ended(q.stage.names, q.stage.item) == Swallowed(r.stage.names, names))
  {
    hide ReadPart;
    if names != [] {
      ReadListing(r, r.stage.names, r.stage.item, names);
    }
  }

  // ---- what an insertion does ----

  lemma ListedJoin(a: seq<ImportList>, b: seq<ImportList>, name: string)
    ensures Listed(a + b, name) <==> Listed(a, name) || Listed(b, name)
  {
    var all := a + b;
    forall i | 0 <= i < |a| && Plain(name) in a[i].names ensures Listed(all, name) { assert all[i] == a[i]; }
    forall i | 0 <= i < |b| && Plain(name) in b[i].names ensures Listed(all, name) { assert all[|a| + i] == b[i]; }
    forall i | 0 <= i < |all| && Plain(name) in all[i].names ensures Listed(a, name) || Listed(b, name) {
      if i < |a| {
        assert a[i] == all[i];
      } else {
        assert b[i - |a|] == all[i];
      }
    }
  }

  lemma {:induction false} ReadJoin(r: Reader, a: seq<Line>, b: seq<Line>)
    ensures ReadFrom(r, a + b) == ReadFrom(ReadFrom(r, a), b)
  {
    hide ReadLine;
    if b == [] {
      assert a + b == a;
    } else {
      ReadJoin(r, a, b[..|b| - 1]);
      assert (a + b)[..|a + b| - 1] == a + b[..|b| - 1] && (a + b)[|a + b| - 1] == b[|b| - 1];
    }
  }

  lemma {:induction false} ReadRestParts(r: Reader, parts: seq<Part>)
    requires r.stage.Outside?
    ensures ReadParts(r, parts) == r
  {
    if parts != [] {
      ReadRestParts(r, parts[..|parts| - 1]);
    }
  }

  lemma {:induction false} ReadRest(r: Reader, rest: seq<Line>)
    requires r.stage.Outside? && forall i | 0 <= i < |rest| :: !Begins(rest[i])
    ensures ReadFrom(r, rest) == r
  {
    if rest != [] {
      var last := rest[|rest| - 1];
      ReadRest(r, rest[..|rest| - 1]);
      if last.More? {
        ReadRestParts(r, last.parts);
      }
    }
  }

  predicate KeepsNames(a: seq<Name>, b: seq<Name>) {
    forall n | n in a && n.Plain? :: n in b
  }

  function NamesSoFar(stage: Stage): seq<Name> {
    if stage.Outside? || stage.Keyword? then [] else stage.names
  }

  /** The import unfinished in `r` is still so, was broken off, or was finished with all its names. */
  predicate GoesOn(r: Reader, q: Reader) {
    || q == r.(stage := Outside)
    || (q.lists == r.lists && KeepsNames(NamesSoFar(r.stage), NamesSoFar(q.stage)))
    || (q.stage.Outside? && |q.lists| > 0 && q.lists[..|q.lists| - 1] == r.lists
        && KeepsNames(NamesSoFar(r.stage), q.lists[|q.lists| - 1].names))
  }

  lemma PartGoesOn(r: Reader, q: Reader, part: Part)
    requires GoesOn(r, q)
    ensures GoesOn(r, ReadPart(q, part))
  {
    hide HasBrace;
  }

  lemma {:induction false} PartsGoOn(r: Reader, q: Reader, parts: seq<Part>)
    requires GoesOn(r, q)
    ensures GoesOn(r, ReadParts(q, parts))
  {
    hide ReadPart, GoesOn;
    if parts != [] {
      PartsGoOn(r, q, parts[..|parts| - 1]);
      PartGoesOn(r, ReadParts(q, parts[..|parts| - 1]), parts[|parts| - 1]);
    }
  }

  /** Lines that begin no import finish an unfinished one at most once. */
  lemma {:induction false} ReadUnfinishedRest(r: Reader, rest: seq<Line>)
    requires forall i | 0 <= i < |rest| :: !Begins(rest[i])
    ensures GoesOn(r, ReadFrom(r, rest))
  {
    hide ReadParts, ReadPart, ReadText, GoesOn;
    if rest == [] {
      GoesOnItself(r);
    } else {
      var last, q := rest[|rest| - 1], ReadFrom(r, rest[..|rest| - 1]);
      ReadUnfinishedRest(r, rest[..|rest| - 1]);
      if last.More? {
        PartsGoOn(r, q, last.parts);
      } else {
        PartGoesOn(r, q, Other(last.tokens));
        OtherIsText(q, last.tokens);
      }
    }
  }

  lemma GoesOnItself(r: Reader)
    ensures GoesOn(r, r)
  {
  }

  lemma OtherIsText(r: Reader, tokens: seq<Token>)
    ensures ReadPart(r, Other(tokens)) == ReadText(r, tokens)
  {
  }

  function ListsOf(imports: seq<Line>): seq<ImportList>
    requires forall i | 0 <= i < |imports| :: imports[i].Import?
  {
    seq(|imports|, i requires 0 <= i < |imports| => ImportList(imports[i].names, imports[i].path))
  }

  lemma {:induction false} ReadImports(r: Reader, imports: seq<Line>)
    requires !r.stage.InList? && imports != [] && forall i | 0 <= i < |imports| :: imports[i].Import?
    ensures ReadFrom(r, imports) == Reader(r.lists + ListsOf(imports), Outside)
  {
    var init, last := imports[..|imports| - 1], imports[|imports| - 1];
    if init == [] {
      assert ListsOf(imports) == [ImportList(last.names, last.path)];
    } else {
      ReadImports(r, init);
      assert ListsOf(imports) == ListsOf(init) + [ImportList(last.names, last.path)];
    }
  }

  /** What is read once imports are put into the lines: where no import is unfinished they come on top of all
      that was read; an unfinished one is lost, and if its list is open it swallows the first of them. */
  function SplicedLists(lines: seq<Line>, imports: seq<Line>): seq<ImportList>
    requires forall i | 0 <= i < |imports| :: imports[i].Import?
  {
    var before := BeforeInsertion(lines);
    if imports == [] || before.stage.Outside? then Read(lines).lists + ListsOf(imports)
    else if before.stage.InList? then
      before.lists + [ImportList(Swallowed(before.stage.names, imports[0].names), imports[0].path)]
      + ListsOf(imports[1..])
    else before.lists + ListsOf(imports)
  }

  lemma ReadSplicedIn(lines: seq<Line>, imports: seq<Line>)
    requires imports != [] && forall i | 0 <= i < |imports| :: imports[i].Import?
    ensures Read(Splice(lines, imports)).lists == ReadFrom(BeforeInsertion(lines), imports).lists
    ensures BeforeInsertion(lines).stage.Outside? ==> Read(lines) == BeforeInsertion(lines)
  {
    hide ReadFrom, ReadLine;
    var k := InsertAt(lines);
    var before, rest := lines[..k], lines[k..];
    assert lines == before + rest && Splice(lines, imports) == (before + imports) + rest;
    ReadJoin(UNREAD, before, rest);
    ReadJoin(UNREAD, before + imports, rest);
    ReadJoin(UNREAD, before, imports);
    EndsOutside(Read(before), imports);
    ReadRest(ReadFrom(Read(before), imports), rest);
    if Read(before).stage.Outside? {
      ReadRest(Read(before), rest);
    }
  }

  lemma EndsOutside(r: Reader, imports: seq<Line>)
    requires imports != [] && forall i | 0 <= i < |imports| :: imports[i].Import?
    ensures ReadFrom(r, imports).stage.Outside?
  {
  }

  lemma ReadSpliced(lines: seq<Line>, imports: seq<Line>)
    requires forall i | 0 <= i < |imports| :: imports[i].Import?
    ensures Read(Splice(lines, imports)).lists == SplicedLists(lines, imports)
  {
    hide ReadFrom, Read, InsertAt;
    if imports == [] {
      SpliceNothing(lines);
      assert Read(lines).lists + ListsOf(imports) == Read(lines).lists;
    } else {
      var r, first, rest := BeforeInsertion(lines), imports[0], imports[1..];
      ReadSplicedIn(lines, imports);
      if !r.stage.InList? {
        ReadImports(r, imports);
      } else {
        assert imports == [first] + rest;
        ReadJoin(r, [first], rest);
        ReadOne(r, first);
        var q := ReadLine(r, first);
        if rest == [] {
          ReadFromNothing(q);
          assert q.lists + ListsOf(rest) == q.lists;
        } else {
          ReadImports(q, rest);
        }
      }
    }
  }

  lemma ReadFromNothing(r: Reader)
    ensures ReadFrom(r, []) == r
  {
  }

  lemma ReadOne(r: Reader, line: Line)
    ensures ReadFrom(r, [line]) == ReadLine(r, line)
  {
    assert [line][..0] == [];
  }

  /** The text imports what is read before the insertion point and what is finished later; if a list open there
      names `name`, then the text imports it or nothing is finished later. */
  lemma ReadBeforeInsertion(lines: seq<Line>, name: string)
    ensures var before := BeforeInsertion(lines);
            && (Imported(lines, name) <==> Listed(before.lists, name) || Plain(name) in FinishedLater(lines))
            && (before.stage.Outside? ==> FinishedLater(lines) == [])
            && (Plain(name) in NamesSoFar(before.stage) ==> Imported(lines, name) || FinishedLater(lines) == [])
  {
    hide ReadFrom;
    var k := InsertAt(lines);
    var before, rest := lines[..k], lines[k..];
    var r, q := Read(before), Read(lines);
    assert lines == before + rest;
    ReadJoin(UNREAD, before, rest);
    ReadUnfinishedRest(r, rest);
    if r.stage.Outside? {
      ReadRest(r, rest);
    }
    if q.lists != r.lists {
      var l := q.lists[|r.lists|];
      assert q.lists == r.lists + [l];
      ListedJoin(r.lists, [l], name);
      ListedOne(l, name);
    }
  }

  lemma ListedOne(l: ImportList, name: string)
    ensures Listed([l], name) <==> Plain(name) in l.names
  {
    assert [l][0] == l;
  }

  /** What the lines import once `import { name } from ...` lines are put in. */
  lemma ImportedSpliced(lines: seq<Line>, imports: seq<Line>, names: seq<string>, n: string)
    requires |imports| == |names| > 0
    requires forall i | 0 <= i < |imports| :: imports[i].Import? && imports[i].names == [Plain(names[i])]
    ensures var before := BeforeInsertion(lines);
            Imported(Splice(lines, imports), n) <==>
            if before.stage.Outside? then Imported(lines, n) || n in names
            else if before.stage.InList?
            then Listed(before.lists, n) || Plain(n) in before.stage.names || n in names[1..]
            else Listed(before.lists, n) || n in names
  {
    hide Read, Splice, InsertAt, BeforeInsertion, Listed;
    var before := BeforeInsertion(lines);
    ReadSpliced(lines, imports);
    ListsNamed(imports, names, n);
    ListedJoin(Read(lines).lists, ListsOf(imports), n);
    ListedJoin(before.lists, ListsOf(imports), n);
    if before.stage.InList? {
      var first := ImportList(Swallowed(before.stage.names, imports[0].names), imports[0].path);
      ListedJoin(before.lists + [first], ListsOf(imports[1..]), n);
      ListedJoin(before.lists, [first], n);
      ListedOne(first, n);
      assert imports[0].names[1..] == [];
      ListsNamed(imports[1..], names[1..], n);
    }
  }

  lemma ListsNamed(imports: seq<Line>, names: seq<string>, n: string)
    requires |imports| == |names|
    requires forall i | 0 <= i < |imports| :: imports[i].Import? && imports[i].names == [Plain(names[i])]
    ensures Listed(ListsOf(imports), n) <==> n in names
  {
    var lists := ListsOf(imports);
    if n in names {
      var i :| 0 <= i < |names| && names[i] == n;
      assert Plain(n) in lists[i].names;
    }
  }

  lemma NotInTail(names: seq<string>)
    requires Distinct(names) && names != []
    ensures names[0] !in names[1..] && forall n | n in names :: n == names[0] || n in names[1..]
  {
  }

  lemma ReadNothing()
    ensures Read([]) == UNREAD && InsertAt([]) == 0
  {
  }

  lemma ReadNext(lines: seq<Line>, line: Line)
    ensures Read(lines + [line]) == ReadLine(Read(lines), line)
    ensures InsertAt(lines + [line]) == if Begins(line) then |lines| + 1 else InsertAt(lines)
  {
    assert (lines + [line])[..|lines|] == lines;
  }

  lemma ReadListEnd(r: Reader, n: Name, path: Path)
    requires r.stage.InList? && r.stage.item.None?
    ensures ReadParts(r, [Item(n), RightBrace, From, Source(path), Semicolon]) ==
            Reader(r.lists + [ImportList(r.stage.names + [n], path)], Outside)
  {
    hide ReadParts;
    assert [Item(n), RightBrace, From, Source(path), Semicolon]
        == [Item(n), RightBrace] + ([From, Source(path)] + [Semicolon]);
    PartsJoin(r, [Item(n), RightBrace], [From, Source(path)] + [Semicolon]);
    ReadTwoParts(r, Item(n), RightBrace);
    ReadImportEnd(r.(stage := Closed(r.stage.names + [n])), path);
  }

  lemma ReadImportEnd(r: Reader, path: Path)
    requires r.stage.Closed?
    ensures ReadParts(r, [From, Source(path)] + [Semicolon]) ==
            Reader(r.lists + [ImportList(r.stage.names, path)], Outside)
  {
    hide ReadParts;
    PartsJoin(r, [From, Source(path)], [Semicolon]);
    ReadTwoParts(r, From, Source(path));
    ReadOnePart(r.(stage := Pathed(r.stage.names, path)), Semicolon);
  }

  /** The lines read one after the other, and the insertion point when only the first two begin as imports do. */
  lemma ReadFourLines(a: Line, b: Line, c: Line, d: Line)
    requires Begins(a) && Begins(b) && !Begins(c) && !Begins(d)
    ensures Read([a, b, c, d]) == ReadLine(ReadLine(ReadLine(ReadLine(UNREAD, a), b), c), d)
    ensures Read([a, b]) == ReadLine(ReadLine(UNREAD, a), b) && InsertAt([a, b, c, d]) == 2
  {
    hide ReadLine, Begins, Read;
    ReadNothing();
    ReadNext([], a);
    ReadNext([a], b);
    ReadNext([a, b], c);
    ReadNext([a, b, c], d);
    assert [] + [a] == [a] && [a] + [b] == [a, b] && [a, b] + [c] == [a, b, c] && [a, b, c] + [d] == [a, b, c, d];
  }

  lemma ReadTwoLines(a: Line, b: Line)
    requires Begins(a) && !Begins(b)
    ensures Read([a, b]) == ReadLine(ReadLine(UNREAD, a), b)
    ensures Read([a]) == ReadLine(UNREAD, a) && InsertAt([a, b]) == 1
  {
    hide ReadLine, Begins, Read;
    ReadNothing();
    ReadNext([], a);
    ReadNext([a], b);
    assert [] + [a] == [a] && [a] + [b] == [a, b];
  }
}
