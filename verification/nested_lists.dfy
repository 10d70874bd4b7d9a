/** What the rewriter of nested types does to the import lists that the text holds, those over several lines
    included, and inputs on which it does less than it is for. */
module NestedLists {
  import opened NestedFixer
  import opened Qualifying
  import opened SourceLines
  import opened SymbolLookup
  import opened Wrappers

  // ---- lists spread over several lines ----

  function QualifyList(l: ImportList, containers: map<string, string>): ImportList {
    ImportList(QualifyNames(l.names, containers), QualifyPath(l.path, containers))
  }

  function QualifyItem(item: Option<Name>, containers: map<string, string>): Option<Name> {
    if item.Some? then Some(QualifyName(item.value, containers)) else None
  }

  function QualifyStage(stage: Stage, containers: map<string, string>): Stage {
    match stage
    case InList(names, item) => InList(QualifyNames(names, containers), QualifyItem(item, containers))
    case Closed(names) => Closed(QualifyNames(names, containers))
    case Sourced(names) => Sourced(QualifyNames(names, containers))
    case Pathed(names, path) => Pathed(QualifyNames(names, containers), QualifyPath(path, containers))
    case _ => stage
  }

  function QualifyLists(lists: seq<ImportList>, containers: map<string, string>): seq<ImportList> {
    seq(|lists|, i requires 0 <= i < |lists| => QualifyList(lists[i], containers))
  }

  function QualifyReader(r: Reader, containers: map<string, string>): Reader {
    Reader(QualifyLists(r.lists, containers), QualifyStage(r.stage, containers))
  }

  lemma EndedQualified(names: seq<Name>, item: Option<Name>, containers: map<string, string>)
    ensures QualifyNames(Ended(names, item), containers)
         == Ended(QualifyNames(names, containers), QualifyItem(item, containers))
  {
    hide QualifyName;
  }

  lemma SwallowedQualified(open: seq<Name>, names: seq<Name>, containers: map<string, string>)
    ensures QualifyNames(Swallowed(open, names), containers)
         == Swallowed(QualifyNames(open, containers), QualifyNames(names, containers))
  {
    hide QualifyName;
    PiecesStay(containers);
    var rest := if names == [] then [] else names[1..];
    QualifyJoin(open + [Piece], rest, containers);
    QualifyJoin(open, [Piece], containers);
    assert QualifyNames([Piece], containers) == [Piece];
    assert names != [] ==> QualifyNames(names[1..], containers) == QualifyNames(names, containers)[1..];
  }

  lemma PiecesStay(containers: map<string, string>)
    ensures QualifyName(Piece, containers) == Piece
  {
  }

  lemma QualifyJoin(a: seq<Name>, b: seq<Name>, containers: map<string, string>)
    ensures QualifyNames(a + b, containers) == QualifyNames(a, containers) + QualifyNames(b, containers)
  {
    hide QualifyName;
  }

  lemma {:induction false} BraceQualified(tokens: seq<Token>, containers: map<string, string>)
    ensures HasBrace(Qualify(tokens, containers)) <==> HasBrace(tokens)
  {
    hide HasBrace, Qualify, QualifyOne;
    if tokens == [] {
      NothingIsBare(containers);
    } else {
      var init, t := tokens[..|tokens| - 1], tokens[|tokens| - 1];
      BraceQualified(init, containers);
      assert tokens == init + [t];
      QualifyStep(init, t, containers);
      BraceJoin(init, [t]);
      BraceJoin(Qualify(init, containers), QualifyOne(t, EndsInDot(init), containers));
      BraceOfOne(t, EndsInDot(init), containers);
    }
  }

  lemma BraceJoin(a: seq<Token>, b: seq<Token>)
    ensures HasBrace(a + b) <==> HasBrace(a) || HasBrace(b)
  {
    var all := a + b;
    assert forall i | 0 <= i < |a| :: all[i] == a[i];
    assert forall i | 0 <= i < |b| :: all[|a| + i] == b[i];
  }

  lemma BraceOfOne(t: Token, afterDot: bool, containers: map<string, string>)
    ensures HasBrace(QualifyOne(t, afterDot, containers)) <==> HasBrace([t])
  {
    var q := QualifyOne(t, afterDot, containers);
    assert q[|q| - 1] == t == [t][0];
  }

  lemma TextQualified(r: Reader, tokens: seq<Token>, containers: map<string, string>)
    ensures ReadText(QualifyReader(r, containers), Qualify(tokens, containers))
         == QualifyReader(ReadText(r, tokens), containers)
  {
    hide Qualify, HasBrace, QualifyName;
    PiecesStay(containers);
    BraceQualified(tokens, containers);
    QualifyGrows(tokens, containers);
    NothingIsBare(containers);
  }

  lemma PartQualified(r: Reader, part: Part, containers: map<string, string>)
    ensures ReadPart(QualifyReader(r, containers), QualifyPart(part, containers))
         == QualifyReader(ReadPart(r, part), containers)
  {
    hide Qualify, HasBrace, QualifyName, ReadText;
    PiecesStay(containers);
    if part.Other? {
      TextQualified(r, part.tokens, containers);
    }
    if r.stage.InList? {
      EndedQualified(r.stage.names, r.stage.item, containers);
    }
    assert QualifyNames([], containers) == [];
  }

  lemma {:induction false} PartsQualified(r: Reader, parts: seq<Part>, containers: map<string, string>)
    ensures ReadParts(QualifyReader(r, containers), QualifyParts(parts, containers))
         == QualifyReader(ReadParts(r, parts), containers)
  {
    hide ReadPart, QualifyPart, QualifyReader;
    if parts != [] {
      var init := parts[..|parts| - 1];
      PartsQualified(r, init, containers);
      assert QualifyParts(parts, containers)[..|parts| - 1] == QualifyParts(init, containers);
      PartQualified(ReadParts(r, init), parts[|parts| - 1], containers);
    }
  }

  lemma KeywordQualified(r: Reader, containers: map<string, string>)
    ensures ReadKeyword(QualifyReader(r, containers)) == QualifyReader(ReadKeyword(r), containers)
  {
    hide QualifyName;
    PiecesStay(containers);
  }

  lemma ReadLineQualified(r: Reader, line: Line, containers: map<string, string>)
    ensures ReadLine(QualifyReader(r, containers), QualifyLine(line, containers))
         == QualifyReader(ReadLine(r, line), containers)
  {
    hide Qualify, QualifyNames, QualifyParts, ReadParts, ReadText, ReadKeyword, QualifyPath, Swallowed;
    match line
    case Import(names, path) =>
      if r.stage.InList? {
        SwallowedQualified(r.stage.names, names, containers);
      }
    case Start(parts) =>
      KeywordQualified(r, containers);
      PartsQualified(ReadKeyword(r), parts, containers);
    case More(parts) => PartsQualified(r, parts, containers);
    case Header(tokens) => TextQualified(r, tokens, containers);
    case Code(tokens) => TextQualified(r, tokens, containers);
  }

  /** Rewriting first and reading then is reading first and rewriting then. */
  lemma {:induction false} ReadQualified(lines: seq<Line>, containers: map<string, string>)
    ensures Read(QualifyLines(lines, containers)) == QualifyReader(Read(lines), containers)
  {
    hide ReadLine, QualifyLine;
    if lines == [] {
    } else {
      var init := lines[..|lines| - 1];
      ReadQualified(init, containers);
      assert QualifyLines(lines, containers)[..|lines| - 1] == QualifyLines(init, containers);
      ReadLineQualified(Read(init), lines[|lines| - 1], containers);
    }
  }

  /** A project list names a nested type, other than one of `containers`, by its own name. */
  ghost predicate NamesNested(symbols: Symbols, containers: map<string, string>, l: ImportList) {
    !l.path.library && exists n | n in l.names ::
      n.Plain? && Identifier(n.name) && n.name !in containers && Container(symbols, n.name).Some?
  }

  ghost predicate SomeListNested(symbols: Symbols, containers: map<string, string>, lists: seq<ImportList>) {
    exists i | 0 <= i < |lists| :: NamesNested(symbols, containers, lists[i])
  }

  lemma NestedQualified(symbols: Symbols, containers: map<string, string>, l: ImportList)
    ensures NamesNested(symbols, map[], QualifyList(l, containers)) <==> NamesNested(symbols, containers, l)
  {
    hide Container, Qualify, Identifier, QualifyWord;
    var q := QualifyList(l, containers);
    forall w
      ensures if w in containers then !Identifier(QualifyWord(w, containers)) else QualifyWord(w, containers) == w
    {
      WordQualified(w, containers);
    }
    forall i | 0 <= i < |l.names| && l.names[i].Plain?
      ensures q.names[i] == Plain(QualifyWord(l.names[i].name, containers))
    {
    }
    if NamesNested(symbols, containers, l) {
      var n :| n in l.names && n.Plain? && Identifier(n.name) && n.name !in containers
               && Container(symbols, n.name).Some?;
      var i :| 0 <= i < |l.names| && l.names[i] == n;
      assert q.names[i] == n;
    }
  }

  lemma WordQualified(w: string, containers: map<string, string>)
    ensures if w in containers then !Identifier(QualifyWord(w, containers)) else QualifyWord(w, containers) == w
  {
    if w in containers {
      assert QualifyWord(w, containers)[|containers[w]|] == '.';
    }
  }

  /** As the text reads, the result imports a nested type by its own name exactly when, before the rewriting, a
      list did whose name is none of the removed ones: of those read before, or brought by an import that was
      added. Where an import is unfinished its own list is lost, and an open one swallows the first addition. */
  lemma NestedListsLeft(symbols: Symbols, lines: seq<Line>, fileMap: FileMap)
    requires PlainImports(lines) && Separate(Containers(symbols, lines))
    ensures AllImports(Additions(symbols, lines, fileMap))
    ensures var containers, pruned := Containers(symbols, lines), Pruned(symbols, lines);
            var additions, before := Additions(symbols, lines, fileMap), BeforeInsertion(pruned);
            SomeListNested(symbols, map[], Read(NestedFixed(symbols, lines, fileMap)).lists) <==>
            if additions == [] || before.stage.Outside? then
              SomeListNested(symbols, containers, Read(pruned).lists)
              || SomeListNested(symbols, containers, ListsOf(additions))
            else if before.stage.InList? then
              SomeListNested(symbols, containers, before.lists)
              || NamesNested(symbols, containers, ImportList(before.stage.names, additions[0].path))
              || SomeListNested(symbols, containers, ListsOf(additions[1..]))
            else
              SomeListNested(symbols, containers, before.lists)
              || SomeListNested(symbols, containers, ListsOf(additions))
  {
    hide Container, Pruned, NamedIn, Additions, Containers, NestedFixed, Removed, Splice, NamesNested, PlainImports,
         Read, QualifyList, BeforeInsertion, Separate, QualifyLines, SomeListNested;
    var containers, pruned := Containers(symbols, lines), Pruned(symbols, lines);
    var additions, before := Additions(symbols, lines, fileMap), BeforeInsertion(pruned);
    AdditionsImport(symbols, lines, fileMap);
    FixedAtOnce(symbols, lines, fileMap);
    ReadQualified(Rebuilt(symbols, lines, fileMap), containers);
    ReadSpliced(pruned, additions);
    ListsQualified(symbols, containers, Read(Rebuilt(symbols, lines, fileMap)).lists);
    NestedJoin(symbols, containers, Read(pruned).lists, ListsOf(additions));
    NestedJoin(symbols, containers, before.lists, ListsOf(additions));
    if additions != [] && before.stage.InList? {
      MissingNamesOne(symbols, lines, fileMap);
      var open, path := before.stage.names, additions[0].path;
      var first := ImportList(Swallowed(open, additions[0].names), path);
      NestedJoin(symbols, containers, before.lists + [first], ListsOf(additions[1..]));
      NestedJoin(symbols, containers, before.lists, [first]);
      NestedSwallowed(symbols, containers, open, additions[0].names, path);
    }
  }

  /** The added imports name one container each. */
  lemma MissingNamesOne(symbols: Symbols, lines: seq<Line>, fileMap: FileMap)
    ensures forall line | line in Additions(symbols, lines, fileMap) :: line.Import? && |line.names| == 1
  {
    hide Additions, Containers, Pruned;
    forall line | line in Additions(symbols, lines, fileMap) ensures line.Import? && |line.names| == 1 {
      AdditionsAre(symbols, lines, fileMap, line);
    }
  }

  lemma NestedSwallowed(symbols: Symbols, containers: map<string, string>, open: seq<Name>, names: seq<Name>,
                        path: Path)
    requires |names| == 1
    ensures SomeListNested(symbols, containers, [ImportList(Swallowed(open, names), path)]) <==>
            NamesNested(symbols, containers, ImportList(open, path))
  {
    hide Container;
    var l := ImportList(Swallowed(open, names), path);
    assert names[1..] == [] && l.names == open + [Piece] && [l][0] == l;
    assert forall n: Name | n.Plain? :: n in l.names <==> n in open;
  }

  predicate AllImports(lines: seq<Line>) {
    forall i | 0 <= i < |lines| :: lines[i].Import?
  }

  lemma AdditionsImport(symbols: Symbols, lines: seq<Line>, fileMap: FileMap)
    ensures AllImports(Additions(symbols, lines, fileMap))
  {
    hide Additions, Containers, Pruned;
    forall line | line in Additions(symbols, lines, fileMap) ensures line.Import? {
      AdditionsAre(symbols, lines, fileMap, line);
    }
  }

  lemma ListsQualified(symbols: Symbols, containers: map<string, string>, lists: seq<ImportList>)
    ensures SomeListNested(symbols, map[], QualifyLists(lists, containers)) <==>
            SomeListNested(symbols, containers, lists)
  {
    hide NamesNested, QualifyList;
    var q := QualifyLists(lists, containers);
    forall i | 0 <= i < |lists|
      ensures q[i] == QualifyList(lists[i], containers)
      ensures NamesNested(symbols, map[], q[i]) <==> NamesNested(symbols, containers, lists[i])
    {
      NestedQualified(symbols, containers, lists[i]);
    }
  }

  lemma NestedJoin(symbols: Symbols, containers: map<string, string>, a: seq<ImportList>, b: seq<ImportList>)
    ensures SomeListNested(symbols, containers, a + b) <==>
            SomeListNested(symbols, containers, a) || SomeListNested(symbols, containers, b)
  {
    hide NamesNested;
    var all := a + b;
    assert forall i | 0 <= i < |a| :: all[i] == a[i];
    assert forall i | 0 <= i < |b| :: all[|a| + i] == b[i];
  }

  /** One of the additions from number `from` on imports `n`. */
  predicate Adds(additions: seq<Line>, from: nat, n: string)
    requires AllImports(additions)
  {
    exists k | from <= k < |additions| :: Plain(n) in additions[k].names
  }

  /** What the result imports, as the text reads: no removed name, and otherwise what was imported before and what
      was added. An import that is unfinished where the additions go is lost, and if its list is open the first
      addition is lost in it. */
  lemma ImportedAfterwards(symbols: Symbols, lines: seq<Line>, fileMap: FileMap, n: string)
    requires PlainImports(lines) && Separate(Containers(symbols, lines)) && Identifier(n)
    ensures AllImports(Additions(symbols, lines, fileMap))
    ensures var pruned, additions := Pruned(symbols, lines), Additions(symbols, lines, fileMap);
            var before := BeforeInsertion(pruned);
            Imported(NestedFixed(symbols, lines, fileMap), n) <==>
            && n !in Containers(symbols, lines)
            && if additions == [] || before.stage.Outside? then Imported(pruned, n) || Adds(additions, 0, n)
               else if before.stage.InList? then
                 Listed(before.lists, n) || Plain(n) in before.stage.names || Adds(additions, 1, n)
               else Listed(before.lists, n) || Adds(additions, 0, n)
  {
    hide Pruned, Splice, Imported, BeforeInsertion, Listed, Additions, Containers, NestedFixed, PlainImports,
         Identifier, QualifyLines, Separate, Distinct;
    var containers, pruned := Containers(symbols, lines), Pruned(symbols, lines);
    var additions := Additions(symbols, lines, fileMap);
    AdditionsImport(symbols, lines, fileMap);
    FixedAtOnce(symbols, lines, fileMap);
    ImportedQualified(Rebuilt(symbols, lines, fileMap), containers, n);
    var missing := MissingNames(symbols, lines, fileMap);
    if additions == [] {
      SpliceNothing(pruned);
    } else {
      ImportedSpliced(pruned, additions, missing, n);
      AddsMissing(additions, missing, n);
    }
  }

  lemma AddsMissing(additions: seq<Line>, missing: seq<string>, n: string)
    requires AllImports(additions) && |missing| == |additions| > 0
    requires forall i | 0 <= i < |additions| :: additions[i].names == [Plain(missing[i])]
    ensures Adds(additions, 0, n) <==> n in missing
    ensures Adds(additions, 1, n) <==> n in missing[1..]
  {
    if n in missing {
      var i :| 0 <= i < |missing| && missing[i] == n;
      assert Plain(n) in additions[i].names;
    }
    if n in missing[1..] {
      var i :| 0 <= i < |missing[1..]| && missing[1..][i] == n;
      assert Plain(n) in additions[i + 1].names;
    }
    if k :| 1 <= k < |additions| && Plain(n) in additions[k].names {
      assert missing[1..][k - 1] == n;
    }
  }

  lemma ImportedQualified(lines: seq<Line>, containers: map<string, string>, n: string)
    requires Identifier(n)
    ensures Imported(QualifyLines(lines, containers), n) <==> Imported(lines, n) && n !in containers
  {
    hide Read, Qualify, QualifyLines;
    ReadQualified(lines, containers);
    var lists := Read(lines).lists;
    var q := QualifyLists(lists, containers);
    forall i | 0 <= i < |lists| ensures Plain(n) in q[i].names <==> Plain(n) in lists[i].names && n !in containers {
      NameQualified(lists[i].names, containers, n);
    }
  }

  lemma NameQualified(names: seq<Name>, containers: map<string, string>, n: string)
    requires Identifier(n)
    ensures Plain(n) in QualifyNames(names, containers) <==> Plain(n) in names && n !in containers
  {
    hide QualifyWord;
    var q := QualifyNames(names, containers);
    forall w
      ensures if w in containers then !Identifier(QualifyWord(w, containers)) else QualifyWord(w, containers) == w
    {
      WordQualified(w, containers);
    }
    if Plain(n) in names && n !in containers {
      var i :| 0 <= i < |names| && names[i] == Plain(n);
      assert q[i] == Plain(n);
    }
  }

  /** Whether the result imports a container that was added: it does where no list is open; otherwise all but the
      first are, and that one only if it was read before or the open list names it. */
  lemma AdditionsRead(symbols: Symbols, lines: seq<Line>, fileMap: FileMap, k: nat)
    requires PlainImports(lines) && Separate(Containers(symbols, lines)) && k < |Additions(symbols, lines, fileMap)|
    requires AllImports(Additions(symbols, lines, fileMap))
    ensures var before, line := BeforeInsertion(Pruned(symbols, lines)), Additions(symbols, lines, fileMap)[k];
            |line.names| == 1 && line.names[0].Plain? &&
            (Identifier(line.names[0].name) ==>
               (Imported(NestedFixed(symbols, lines, fileMap), line.names[0].name) <==>
                  || !before.stage.InList? || k > 0
                  || Listed(before.lists, line.names[0].name) || line.names[0] in before.stage.names))
  {
    hide Pruned, Imported, BeforeInsertion, Listed, Additions, Containers, NestedFixed, PlainImports, Identifier;
    var additions := Additions(symbols, lines, fileMap);
    var missing := MissingNames(symbols, lines, fileMap);
    var c := missing[k];
    AdditionsAre(symbols, lines, fileMap, additions[k]);
    AddsMissing(additions, missing, c);
    if Identifier(c) {
      ImportedAfterwards(symbols, lines, fileMap, c);
      if k > 0 {
        assert missing[1..][k - 1] == c;
      } else {
        NotInTail(missing);
      }
    }
  }

  /** The names that the added imports bring in, in order. */
  lemma MissingNames(symbols: Symbols, lines: seq<Line>, fileMap: FileMap) returns (missing: seq<string>)
    ensures Distinct(missing) && |missing| == |Additions(symbols, lines, fileMap)|
    ensures forall i | 0 <= i < |missing| ::
              && Additions(symbols, lines, fileMap)[i].Import?
              && Additions(symbols, lines, fileMap)[i].names == [Plain(missing[i])]
  {
    hide AllRemovals, Pruned, FirstSeen, Latest, NamesOf, MissingFrom, PathFor;
    LatestAre(AllRemovals(symbols, lines));
    MissingAre(Pruned(symbols, lines), Order(symbols, lines), Removed(symbols, lines));
    missing := MissingFrom(Pruned(symbols, lines), Order(symbols, lines), Removed(symbols, lines));
  }

  // ---- inputs on which less is achieved ----

  lemma OneType(symbols: Symbols, name: string, c: string)
    requires Lookup(symbols, name) == [Symbol(name, "struct", c, "")] && c != ""
    ensures Container(symbols, name) == Some(c)
  {
    hide Lookup, Container;
    assert Symbol(name, "struct", c, "") in Lookup(symbols, name) && IsType(Symbol(name, "struct", c, ""));
    assert DeclaredOnlyIn(symbols, name, c);
    ContainerIs(symbols, name);
  }

  lemma OneImport(symbols: Symbols, name: string, path: Path)
    requires Container(symbols, name).Some? && !path.library
    ensures var line := Import([Plain(name)], path);
            && ImportsNested(symbols, line) && SomeNested(symbols, [line]) && Pruned(symbols, [line]) == []
            && AllRemovals(symbols, [line]) == [Removal(name, Container(symbols, name).value, path)]
  {
    hide Container;
    var line := Import([Plain(name)], path);
    assert Nested(symbols, Plain(name)) && Plain(name) in line.names && [line][0] == line;
    assert [Plain(name)][..0] == [] && Kept(symbols, [Plain(name)]) == [];
    assert [line][..0] == [] && AllRemovals(symbols, []) == [];
    assert Removals(symbols, [Plain(name)], path) == [] + [Removal(name, Container(symbols, name).value, path)];
    assert AllRemovals(symbols, [line]) == [] + Removals(symbols, [Plain(name)], path);
    assert NamedBy(symbols, [line][0], name);
  }

  lemma OrderOfOne(r: Removal)
    ensures FirstSeen(NamesOf([r])) == [r.name] && Latest([r]) == map[r.name := r]
  {
    assert [r][..0] == [] && [r.name][..0] == [];
    assert NamesOf([r]) == [r.name];
  }

  lemma MissingOfOne(lines: seq<Line>, r: Removal)
    requires !OnALine(lines, r.container)
    ensures MissingFrom(lines, [r.name], map[r.name := r]) == [r.container]
  {
    hide OnALine;
    assert [r.container][..0] == [];
    assert ContainerList([r.name], map[r.name := r]) == [r.container];
    assert FirstSeen([r.container]) == [r.container];
    assert Absent(lines, [r.container]) == [] + [r.container];
  }

  lemma PathOfOne(fileMap: FileMap, r: Removal)
    requires r.container !in fileMap
    ensures ContainerList([r.name], map[r.name := r]) == [r.container]
    ensures PathFor(r.container, [r.name], map[r.name := r], fileMap) == r.path
  {
    assert [r.name][..0] == [];
    assert ContainerList([r.name], map[r.name := r])[0] == r.container;
    assert LastWith([r.name], map[r.name := r], r.container) == Some(r.name);
  }

  /** One removal: what is added for it, when no line imports the container. */
  lemma OneRemoval(symbols: Symbols, lines: seq<Line>, fileMap: FileMap, r: Removal)
    requires AllRemovals(symbols, lines) == [r]
    requires !OnALine(Pruned(symbols, lines), r.container) && r.container !in fileMap
    ensures Containers(symbols, lines) == map[r.name := r.container] && Order(symbols, lines) == [r.name]
    ensures Additions(symbols, lines, fileMap) == [Import([Plain(r.container)], r.path)]
  {
    hide AllRemovals, Pruned, OnALine, FirstSeen, Latest, NamesOf, MissingFrom, PathFor, ContainerList;
    OrderOfOne(r);
    MissingOfOne(Pruned(symbols, lines), r);
    PathOfOne(fileMap, r);
  }

  /** A container that is itself listed as a nested type elsewhere: the pass imports it, and a second pass
      would take it away again. */
  lemma NestedContainerIsImported(path: Path)
    requires !path.library
    ensures var symbols := map["A" := [Symbol("A", "struct", "B", "")], "B" := [Symbol("B", "struct", "C", "")]];
            var lines := [Import([Plain("A")], path)];
            SomeNested(symbols, lines) && SomeNested(symbols, NestedFixed(symbols, lines, map[]))
  {
    hide Container, Pruned, SomeNested, NamedIn, AllRemovals, NestedFixed, Containers, OnALine;
    var symbols := map["A" := [Symbol("A", "struct", "B", "")], "B" := [Symbol("B", "struct", "C", "")]];
    var lines := [Import([Plain("A")], path)];
    OneType(symbols, "A", "B");
    OneType(symbols, "B", "C");
    OneImport(symbols, "A", path);
    NoLines("B");
    OneRemoval(symbols, lines, map[], Removal("A", "B", path));
    assert PlainImports(lines);
    NestedImportsLeft(symbols, lines, map[]);
    ContainersAre(symbols, lines, "A");
    assert BringsNested(symbols, lines, map[], "A");
  }

  lemma NoLines(c: string)
    ensures !OnALine([], c)
  {
  }

  /** A nested type in a list over several lines is not seen at all. */
  lemma SplitListKeepsNested(path: Path)
    requires !path.library
    ensures var symbols := map["T" := [Symbol("T", "struct", "C", "")]];
            var lines := [Start([LeftBrace]), More(ListEnd("T", path))];
            !SomeNested(symbols, lines) && SomeListNested(symbols, map[], Read(lines).lists)
  {
    hide Container, Read;
    var symbols := map["T" := [Symbol("T", "struct", "C", "")]];
    OneType(symbols, "T", "C");
    var list := ImportList([Plain("T")], path);
    SplitListIsRead("T", path);
    assert Plain("T") in list.names && Identifier("T");
    assert NamesNested(symbols, map[], list);
    assert Read([Start([LeftBrace]), More(ListEnd("T", path))]).lists[0] == list;
  }

  function ListEnd(n: string, path: Path): seq<Part> {
    [Item(Plain(n)), RightBrace, From, Source(path), Semicolon]
  }

  lemma SplitListIsRead(n: string, path: Path)
    ensures var first, last := Start([LeftBrace]), More(ListEnd(n, path));
            && Read([first]) == Reader([], InList([], None)) && InsertAt([first, last]) == 1
            && Read([first, last]) == Reader([ImportList([Plain(n)], path)], Outside)
  {
    hide Read, InsertAt, ReadParts;
    ReadTwoLines(Start([LeftBrace]), More(ListEnd(n, path)));
    ReadOnePart(Reader([], Keyword), LeftBrace);
    ReadListEnd(Reader([], InList([], None)), Plain(n), path);
    var list := ImportList([Plain(n)], path);
    assert [] + [Plain(n)] == list.names && [] + [list] == [list];
  }

  /** A list over several lines is the last import: the container lands inside it and is not read. */
  lemma ContainerLostInAList(path: Path)
    requires !path.library
    ensures var symbols := map["T" := [Symbol("T", "struct", "C", "")]];
            var lines := [Import([Plain("T")], path), Start([LeftBrace]), More(ListEnd("A", path))];
            && Additions(symbols, lines, map[]) == [Import([Plain("C")], path)]
            && !Imported(NestedFixed(symbols, lines, map[]), "C")
  {
    hide Container, Imported, Read, InsertAt, Pruned, Additions, NestedFixed, AllRemovals, Containers;
    var symbols := map["T" := [Symbol("T", "struct", "C", "")]];
    var first, last := Start([LeftBrace]), More(ListEnd("A", path));
    var lines := [Import([Plain("T")], path), first, last];
    OneType(symbols, "T", "C");
    PrunedToTail(symbols, path, first, last);
    assert !OnALine([first, last], "C");
    OneRemoval(symbols, lines, map[], Removal("T", "C", path));
    SplitListIsRead("A", path);
    assert [first, last][..1] == [first];
    AdditionsImport(symbols, lines, map[]);
    AdditionsRead(symbols, lines, map[], 0);
  }

  /** A project import of a nested type, followed by two lines that are no imports of their own. */
  lemma PrunedToTail(symbols: Symbols, path: Path, first: Line, last: Line)
    requires Container(symbols, "T") == Some("C") && !path.library && !first.Import? && !last.Import?
    ensures var lines := [Import([Plain("T")], path), first, last];
            && Pruned(symbols, lines) == [first, last]
            && AllRemovals(symbols, lines) == [Removal("T", "C", path)]
  {
    hide Container;
    var lines := [Import([Plain("T")], path), first, last];
    OneImport(symbols, "T", path);
    assert lines[..2][..1] == [lines[0]] && lines[..2] == [lines[0], lines[1]];
    assert Pruned(symbols, [lines[0]]) == [];
    assert [lines[0], lines[1]][..1] == [lines[0]];
    assert Pruned(symbols, [lines[0], lines[1]]) == [] + [lines[1]];
    assert AllRemovals(symbols, [lines[0], lines[1]]) == AllRemovals(symbols, [lines[0]]) + [];
    assert lines[..|lines| - 1] == [lines[0], lines[1]];
  }

  // ---- import lines are rewritten too ----

  /** Aliased and library imports are left alone exactly when no removed type is one of their words: of the
      names, of the aliases or of the path. */
  lemma ImportLeftAlone(line: Line, containers: map<string, string>)
    requires line.Import?
    ensures QualifyLine(line, containers) == line <==>
              && NoBareUse(line.path.tokens, containers.Keys)
              && forall n | n in line.names :: WordsOf(n) !! containers.Keys
  {
    hide Qualify, NoBareUse;
    QualifyGrows(line.path.tokens, containers);
    var names := QualifyNames(line.names, containers);
    forall w ensures QualifyWord(w, containers) == w <==> w !in containers {
      if w in containers {
        assert |QualifyWord(w, containers)| > |w|;
      }
    }
    forall i | 0 <= i < |names| ensures names[i] == line.names[i] <==> WordsOf(line.names[i]) !! containers.Keys {
    }
    if NoBareUse(line.path.tokens, containers.Keys) {
      QualifyNothing(line.path.tokens, containers);
    }
    if forall n | n in line.names :: WordsOf(n) !! containers.Keys {
      assert names == line.names;
    }
    if names == line.names {
      forall n | n in line.names ensures WordsOf(n) !! containers.Keys {
        var i :| 0 <= i < |names| && line.names[i] == n;
        assert names[i] == line.names[i];
      }
    }
  }

  /** An aliased import of a removed type is rewritten, and so is a path that holds its name. */
  lemma AliasIsRewritten()
    ensures QualifyLine(Import([Aliased("T", "U")], Path(false, [Word("T")])), map["T" := "C"])
         == Import([Aliased("C.T", "U")], Path(false, [Word("C"), Dot, Word("T")]))
  {
    var m := map["T" := "C"];
    QualifyStep([], Word("T"), m);
    assert [Word("T")] == [] + [Word("T")];
    assert QualifyWord("T", m) == "C.T" && QualifyWord("U", m) == "U";
    assert QualifyNames([Aliased("T", "U")], m) == [Aliased("C.T", "U")];
  }
}
