/** The rewriter that imports names the compiler found undeclared. */
module UndeclaredFixer {
  import opened SourceLines
  import opened Wrappers

  /** `name` is not imported yet and the project declares it. */
  predicate Repairable(lines: seq<Line>, fileMap: FileMap, name: string) {
    !Imported(lines, name) && name in fileMap
  }

  /** The flagged names that can be repaired, each once and in order. */
  function Repairs(lines: seq<Line>, flagged: seq<string>, fileMap: FileMap): seq<string> {
    if flagged == [] then []
    else
      var before, last := Repairs(lines, flagged[..|flagged| - 1], fileMap), flagged[|flagged| - 1];
      if Repairable(lines, fileMap, last) && last !in before then before + [last] else before
  }

  lemma {:induction false} RepairsAre(lines: seq<Line>, flagged: seq<string>, fileMap: FileMap)
    ensures Distinct(Repairs(lines, flagged, fileMap))
    ensures forall n :: n in Repairs(lines, flagged, fileMap) <==> n in flagged && Repairable(lines, fileMap, n)
  {
    hide Repairable, Distinct;
    if flagged == [] {
      NoneRepeated<string>();
    } else {
      var init, last := flagged[..|flagged| - 1], flagged[|flagged| - 1];
      RepairsAre(lines, init, fileMap);
      assert flagged == init + [last];
      if last !in Repairs(lines, init, fileMap) {
        DistinctGrows(Repairs(lines, init, fileMap), last);
      }
    }
  }

  function ImportsOf(names: seq<string>, fileMap: FileMap): (imports: seq<Line>)
    requires forall n | n in names :: n in fileMap
    ensures |imports| == |names|
    ensures forall i | 0 <= i < |imports| :: imports[i] == Import([Plain(names[i])], fileMap[names[i]])
  {
    seq(|names|, i requires 0 <= i < |names| => Import([Plain(names[i])], fileMap[names[i]]))
  }

  function Repaired(lines: seq<Line>, flagged: seq<string>, fileMap: FileMap): seq<Line> {
    hide Repairable;
    RepairsAre(lines, flagged, fileMap);
    RepairablesAreDeclared(lines, fileMap);
    Splice(lines, ImportsOf(Repairs(lines, flagged, fileMap), fileMap))
  }

  lemma RepairablesAreDeclared(lines: seq<Line>, fileMap: FileMap)
    ensures forall n | Repairable(lines, fileMap, n) :: n in fileMap
  {
  }

  /** The names that the text imports. */
  method ImportedNames(lines: seq<Line>) returns (names: set<string>)
    ensures forall n :: n in names <==> Imported(lines, n)
  {
    var r := UNREAD;
    for i := 0 to |lines|
      invariant r == Read(lines[..i])
    {
      assert lines[..i + 1][..i] == lines[..i];
      r := ReadLine(r, lines[i]);
    }
    assert lines[..|lines|] == lines;
    names := set i, n | 0 <= i < |r.lists| && n in r.lists[i].names && n.Plain? :: n.name;
    forall n ensures n in names <==> Imported(lines, n) {
      if Imported(lines, n) {
        var i :| 0 <= i < |r.lists| && Plain(n) in r.lists[i].names;
      }
    }
  }

  /** Imports the flagged names that the project declares. */
  method FixUndeclaredImport(lines: seq<Line>, flagged: seq<string>, fileMap: FileMap)
    returns (fixed: seq<Line>, changed: bool)
    ensures changed <==> exists n | n in flagged :: Repairable(lines, fileMap, n)
    ensures fixed == if changed then Repaired(lines, flagged, fileMap) else lines
  {
    hide Repairable, Splice, Imported;
    RepairsAre(lines, flagged, fileMap);
    var imported := ImportedNames(lines);
    ghost var before := imported;
    var names: seq<string> := [];
    for i := 0 to |flagged|
      invariant names == Repairs(lines, flagged[..i], fileMap)
      invariant forall n :: n in imported <==> n in before || n in names
      invariant forall n | n in names :: n in fileMap
    {
      assert flagged[..i + 1][..i] == flagged[..i];
      RepairableMeans(lines, fileMap, flagged[i]);
      if flagged[i] in imported || flagged[i] !in fileMap {
        continue;
      }
      names := names + [flagged[i]];
      imported := imported + {flagged[i]};
    }
    assert flagged[..|flagged|] == flagged;
    if names == [] {
      return lines, false;
    }
    assert names[0] in names;
    return Splice(lines, ImportsOf(names, fileMap)), true;
  }

  lemma RepairableMeans(lines: seq<Line>, fileMap: FileMap, n: string)
    ensures Repairable(lines, fileMap, n) <==> !Imported(lines, n) && n in fileMap
  {
  }

  /** Nothing that is asked for is lost where the new imports go: no import is unfinished there; or its list is
      open and names the first of them already; or it is past its keyword or its list, and goes on to import
      no flagged name of the project that is not read before. */
  predicate InsertsSafely(lines: seq<Line>, flagged: seq<string>, fileMap: FileMap) {
    var repairs, before := Repairs(lines, flagged, fileMap), BeforeInsertion(lines);
    if before.stage.Outside? then true
    else if before.stage.InList? then repairs != [] && Plain(repairs[0]) in before.stage.names
    else forall n | n in flagged && n in fileMap && Plain(n) in FinishedLater(lines) :: Listed(before.lists, n)
  }

  /** What the text imports after a repair. Where no import is unfinished that is all it did and the repaired
      names; otherwise what the unfinished one goes on to name is lost, and if its list is open the first of
      the repaired names too. */
  lemma RepairedImports(lines: seq<Line>, flagged: seq<string>, fileMap: FileMap, n: string)
    requires Repairs(lines, flagged, fileMap) != []
    ensures var repairs, before := Repairs(lines, flagged, fileMap), BeforeInsertion(lines);
            Imported(Repaired(lines, flagged, fileMap), n) <==>
            if before.stage.Outside? then Imported(lines, n) || n in repairs
            else if before.stage.InList?
            then Listed(before.lists, n) || Plain(n) in before.stage.names || n in repairs[1..]
            else Listed(before.lists, n) || n in repairs
  {
    hide Imported, Splice, Repairable, BeforeInsertion, Listed;
    RepairsAre(lines, flagged, fileMap);
    RepairablesAreDeclared(lines, fileMap);
    var names := Repairs(lines, flagged, fileMap);
    ImportedSpliced(lines, ImportsOf(names, fileMap), names, n);
  }

  /** After a repair every flagged name that the project declares is imported exactly when the new imports
      were inserted safely. */
  lemma RepairIsComplete(lines: seq<Line>, flagged: seq<string>, fileMap: FileMap)
    requires Repairs(lines, flagged, fileMap) != []
    ensures (forall n | n in flagged && n in fileMap :: Imported(Repaired(lines, flagged, fileMap), n)) <==>
            InsertsSafely(lines, flagged, fileMap)
  {
    hide Repaired, Imported, Distinct, BeforeInsertion, Listed, Repairs, FinishedLater;
    var names, stage := Repairs(lines, flagged, fileMap), BeforeInsertion(lines).stage;
    RepairsAre(lines, flagged, fileMap);
    forall n { RepairedImports(lines, flagged, fileMap, n); }
    forall n { ReadBeforeInsertion(lines, n); }
    if stage.InList? {
      NotInTail(names);
      assert names[0] in names;
    }
  }

  /** Under the same compiler output a second pass changes the code again exactly when the first one did not
      insert safely. */
  method FixUndeclaredTwice(lines: seq<Line>, flagged: seq<string>, fileMap: FileMap)
    returns (once: seq<Line>, twice: seq<Line>, changed: bool, changedAgain: bool)
    ensures changedAgain <==> changed && !InsertsSafely(lines, flagged, fileMap)
    ensures !changedAgain ==> twice == once
  {
    hide Imported, InsertsSafely, Repaired;
    once, changed := FixUndeclaredImport(lines, flagged, fileMap);
    twice, changedAgain := FixUndeclaredImport(once, flagged, fileMap);
    RepairsAre(lines, flagged, fileMap);
    if changed {
      var n :| n in flagged && Repairable(lines, fileMap, n);
      assert n in Repairs(lines, flagged, fileMap);
      RepairIsComplete(lines, flagged, fileMap);
    }
  }

  // ---- inputs on which the repair is not complete ----

  lemma OneRepair(lines: seq<Line>, fileMap: FileMap, x: string)
    requires x in fileMap && !Imported(lines, x)
    ensures Repairs(lines, [x], fileMap) == [x]
  {
    hide Imported;
    assert [x][..0] == [];
    assert Repairable(lines, fileMap, x);
  }

  /** A list spread over several lines is the last import: the new one lands inside it and is not read. */
  lemma SplitListBreaksTheRepair(path: Path, pragma: seq<Token>)
    ensures var first, more := Start([LeftBrace]), More([Item(Plain("A")), Comma]);
            var last := More([Item(Plain("B")), RightBrace, From, Source(path), Semicolon]);
            var lines, fileMap: FileMap := [Header(pragma), first, more, last], map["X" := path];
            && Imported(lines, "A") && Imported(lines, "B") && Repairs(lines, ["X"], fileMap) == ["X"]
            && Repaired(lines, ["X"], fileMap) == [Header(pragma), first, Import([Plain("X")], path), more, last]
            && !Imported(Repaired(lines, ["X"], fileMap), "X") && !InsertsSafely(lines, ["X"], fileMap)
  {
    hide Repaired, Repairs, Read, InsertAt;
    var first, more := Start([LeftBrace]), More([Item(Plain("A")), Comma]);
    var last := More([Item(Plain("B")), RightBrace, From, Source(path), Semicolon]);
    var lines, fileMap: FileMap := [Header(pragma), first, more, last], map["X" := path];
    SplitListIsRead(path, pragma);
    assert lines[..2] == [Header(pragma), first] && lines[2..] == [more, last];
    var all := ImportList([Plain("A"), Plain("B")], path);
    ListedOne(all, "A");
    ListedOne(all, "B");
    ListedOne(all, "X");
    OneRepair(lines, fileMap, "X");
    RepairedImports(lines, ["X"], fileMap, "X");
    OneRepaired(lines, ["X"], fileMap, "X");
  }

  lemma SplitListIsRead(path: Path, pragma: seq<Token>)
    ensures var first, more := Start([LeftBrace]), More([Item(Plain("A")), Comma]);
            var last := More([Item(Plain("B")), RightBrace, From, Source(path), Semicolon]);
            && Read([Header(pragma), first]) == Reader([], InList([], None))
            && Read([Header(pragma), first, more, last]) ==
               Reader([ImportList([Plain("A"), Plain("B")], path)], Outside)
            && InsertAt([Header(pragma), first, more, last]) == 2
  {
    hide Read, InsertAt, ReadParts, HasBrace;
    var first, more := Start([LeftBrace]), More([Item(Plain("A")), Comma]);
    var last := More([Item(Plain("B")), RightBrace, From, Source(path), Semicolon]);
    ReadFourLines(Header(pragma), first, more, last);
    ReadOnePart(Reader([], Keyword), LeftBrace);
    ReadTwoParts(Reader([], InList([], None)), Item(Plain("A")), Comma);
    ReadListEnd(Reader([], InList([Plain("A")], None)), Plain("B"), path);
    var all := ImportList([Plain("A"), Plain("B")], path);
    assert [Plain("A")] + [Plain("B")] == all.names && [] + [Plain("A")] == [Plain("A")] && [] + [all] == [all];
  }

  lemma OneRepaired(lines: seq<Line>, flagged: seq<string>, fileMap: FileMap, x: string)
    requires Repairs(lines, flagged, fileMap) == [x] && x in fileMap
    ensures Repaired(lines, flagged, fileMap) ==
            lines[..InsertAt(lines)] + [Import([Plain(x)], fileMap[x])] + lines[InsertAt(lines)..]
  {
    hide Repairs, InsertAt;
  }

  /** The last import is broken after its list: the new one is read, but the old one no longer is. */
  lemma BrokenImportIsLost(path: Path)
    ensures var first, more := Start([LeftBrace, Item(Plain("A")), RightBrace]), More([From, Source(path), Semicolon]);
            var lines, fileMap: FileMap := [first, more], map["A" := path, "X" := path];
            && Imported(lines, "A") && Repairs(lines, ["A", "X"], fileMap) == ["X"]
            && Repaired(lines, ["A", "X"], fileMap) == [first, Import([Plain("X")], path), more]
            && !BeforeInsertion(lines).stage.InList? && !Imported(Repaired(lines, ["A", "X"], fileMap), "A")
            && !InsertsSafely(lines, ["A", "X"], fileMap)
  {
    hide Repaired, Repairs, Read, InsertAt, ReadParts;
    var first, more := Start([LeftBrace, Item(Plain("A")), RightBrace]), More([From, Source(path), Semicolon]);
    var lines, fileMap: FileMap := [first, more], map["A" := path, "X" := path];
    ReadTwoLines(first, more);
    assert [LeftBrace] + [Item(Plain("A")), RightBrace] == [LeftBrace, Item(Plain("A")), RightBrace];
    PartsJoin(Reader([], Keyword), [LeftBrace], [Item(Plain("A")), RightBrace]);
    ReadOnePart(Reader([], Keyword), LeftBrace);
    ReadTwoParts(Reader([], InList([], None)), Item(Plain("A")), RightBrace);
    assert [From, Source(path)] + [Semicolon] == [From, Source(path), Semicolon] && [] + [Plain("A")] == [Plain("A")];
    ReadImportEnd(Reader([], Closed([Plain("A")])), path);
    var all := ImportList([Plain("A")], path);
    assert [] + [all] == [all];
    assert Read(lines) == Reader([all], Outside);
    ListedOne(all, "A");
    ListedOne(all, "X");
    assert lines[..1] == [first] && lines[1..] == [more];
    OneOfTwoRepairs(lines, fileMap, "A", "X");
    RepairedImports(lines, ["A", "X"], fileMap, "A");
    OneRepaired(lines, ["A", "X"], fileMap, "X");
    assert Plain("A") in FinishedLater(lines);
  }

  lemma OneOfTwoRepairs(lines: seq<Line>, fileMap: FileMap, a: string, x: string)
    requires x in fileMap && !Imported(lines, x) && Imported(lines, a)
    ensures Repairs(lines, [a, x], fileMap) == [x]
  {
    hide Imported;
    assert [a, x][..1] == [a] && [a][..0] == [];
    assert Repairable(lines, fileMap, x) && !Repairable(lines, fileMap, a);
    assert Repairs(lines, [a], fileMap) == [];
  }
}
