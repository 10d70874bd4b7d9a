/** The rewriter that replaces imports of nested types by imports of their containers. */
module NestedFixer {
  import opened Qualifying
  import opened SourceLines
  import opened SymbolLookup
  import opened Wrappers

  // ---- nested types ----

  ghost predicate Nested(symbols: Symbols, n: Name) {
    n.Plain? && Container(symbols, n.name).Some?
  }

  /** A project import, on one line, of a type that is nested in a contract. */
  ghost predicate ImportsNested(symbols: Symbols, line: Line) {
    line.Import? && !line.path.library && exists n | n in line.names :: Nested(symbols, n)
  }

  ghost predicate SomeNested(symbols: Symbols, lines: seq<Line>) {
    exists i | 0 <= i < |lines| :: ImportsNested(symbols, lines[i])
  }

  /** A line of its own imports `name`. */
  predicate ImportedBy(line: Line, name: string) {
    line.Import? && Plain(name) in line.names
  }

  predicate OnALine(lines: seq<Line>, name: string) {
    exists i | 0 <= i < |lines| :: ImportedBy(lines[i], name)
  }

  ghost function Kept(symbols: Symbols, names: seq<Name>): seq<Name> {
    if names == [] then []
    else
      var last := names[|names| - 1];
      Kept(symbols, names[..|names| - 1]) + if Nested(symbols, last) then [] else [last]
  }

  lemma {:induction false} KeptAre(symbols: Symbols, names: seq<Name>)
    ensures forall n :: n in Kept(symbols, names) <==> n in names && !Nested(symbols, n)
  {
    hide Nested;
    if names == [] {
    } else {
      KeptAre(symbols, names[..|names| - 1]);
      assert names == names[..|names| - 1] + [names[|names| - 1]];
    }
  }

  /** The line without its nested types; none if nothing is left of it. */
  ghost function PrunedLine(symbols: Symbols, line: Line): seq<Line> {
    if !ImportsNested(symbols, line) then [line]
    else if Kept(symbols, line.names) == [] then []
    else [Import(Kept(symbols, line.names), line.path)]
  }

  ghost function Pruned(symbols: Symbols, lines: seq<Line>): seq<Line> {
    if lines == [] then [] else Pruned(symbols, lines[..|lines| - 1]) + PrunedLine(symbols, lines[|lines| - 1])
  }

  ghost predicate NamedBy(symbols: Symbols, line: Line, name: string) {
    ImportsNested(symbols, line) && Plain(name) in line.names && Container(symbols, name).Some?
  }

  /** Some project import names the nested type `name`. */
  ghost predicate NamedIn(symbols: Symbols, lines: seq<Line>, name: string) {
    exists i | 0 <= i < |lines| :: NamedBy(symbols, lines[i], name)
  }

  /** Import lists of the project that stand on one line hold identifiers. */
  predicate PlainImports(lines: seq<Line>) {
    forall i | 0 <= i < |lines| && lines[i].Import? && !lines[i].path.library ::
      forall n | n in lines[i].names && n.Plain? :: Identifier(n.name)
  }

  /** What one nested name needs. */
  datatype Removal = Removal(name: string, container: string, path: Path)

  ghost function Removals(symbols: Symbols, names: seq<Name>, path: Path): seq<Removal> {
    if names == [] then []
    else
      var last := names[|names| - 1];
      Removals(symbols, names[..|names| - 1], path) +
      if Nested(symbols, last) then [Removal(last.name, Container(symbols, last.name).value, path)] else []
  }

  lemma {:induction false} RemovalsAre(symbols: Symbols, names: seq<Name>, path: Path)
    ensures forall r | r in Removals(symbols, names, path) ::
              Plain(r.name) in names && Container(symbols, r.name) == Some(r.container) && r.path == path
    ensures forall n | n in names && Nested(symbols, n) ::
              Removal(n.name, Container(symbols, n.name).value, path) in Removals(symbols, names, path)
    ensures |Kept(symbols, names)| + |Removals(symbols, names, path)| == |names|
  {
    hide Container;
    if names == [] {
    } else {
      var init, last := names[..|names| - 1], names[|names| - 1];
      RemovalsAre(symbols, init, path);
      assert names == init + [last];
    }
  }

  ghost function RemovalsOf(symbols: Symbols, line: Line): seq<Removal> {
    if line.Import? && !line.path.library then Removals(symbols, line.names, line.path) else []
  }

  ghost function AllRemovals(symbols: Symbols, lines: seq<Line>): seq<Removal> {
    if lines == [] then []
    else AllRemovals(symbols, lines[..|lines| - 1]) + RemovalsOf(symbols, lines[|lines| - 1])
  }

  /** One project import: what stays of its list, and what has to go. */
  method PruneNames(symbols: Symbols, names: seq<Name>, path: Path) returns (keep: seq<Name>, gone: seq<Removal>)
    ensures keep == Kept(symbols, names) && gone == Removals(symbols, names, path)
  {
    hide Container, Lookup;
    keep, gone := [], [];
    for i := 0 to |names|
      invariant keep == Kept(symbols, names[..i]) && gone == Removals(symbols, names[..i], path)
    {
      assert names[..i + 1][..i] == names[..i];
      var container := None;
      if names[i].Plain? {
        container := NestedContainer(symbols, names[i].name);
      }
      if container.Some? {
        gone := gone + [Removal(names[i].name, container.value, path)];
      } else {
        keep := keep + [names[i]];
      }
    }
    assert names[..|names|] == names;
  }

  /** The first pass over the lines. */
  method PruneLines(symbols: Symbols, lines: seq<Line>) returns (out: seq<Line>, gone: seq<Removal>)
    ensures out == Pruned(symbols, lines) && gone == AllRemovals(symbols, lines)
  {
    hide Kept, Removals, Nested;
    out, gone := [], [];
    for i := 0 to |lines|
      invariant out == Pruned(symbols, lines[..i]) && gone == AllRemovals(symbols, lines[..i])
    {
      var line := lines[i];
      assert lines[..i + 1][..i] == lines[..i];
      if !line.Import? || line.path.library {
        out := out + [line];
      } else {
        var keep, more := PruneNames(symbols, line.names, line.path);
        gone := gone + more;
        NothingToPrune(symbols, line.names);
        if |keep| == |line.names| {
          out := out + [line];
        } else if keep != [] {
          out := out + [Import(keep, line.path)];
        }
      }
    }
    assert lines[..|lines|] == lines;
  }

  lemma {:induction false} NothingToPrune(symbols: Symbols, names: seq<Name>)
    ensures |Kept(symbols, names)| <= |names|
    ensures |Kept(symbols, names)| == |names| <==> !exists n | n in names :: Nested(symbols, n)
  {
    hide Nested;
    if names == [] {
    } else {
      NothingToPrune(symbols, names[..|names| - 1]);
      assert names == names[..|names| - 1] + [names[|names| - 1]];
    }
  }

  lemma RemovalsOfAre(symbols: Symbols, line: Line)
    ensures forall r | r in RemovalsOf(symbols, line) ::
              NamedBy(symbols, line, r.name) && Container(symbols, r.name) == Some(r.container) && !r.path.library
    ensures forall n | NamedBy(symbols, line, n) :: exists r | r in RemovalsOf(symbols, line) :: r.name == n
    ensures RemovalsOf(symbols, line) == [] <==> !ImportsNested(symbols, line)
  {
    hide Container, Removals, Kept;
    if line.Import? && !line.path.library {
      RemovalsAre(symbols, line.names, line.path);
      NothingToPrune(symbols, line.names);
      forall n | NamedBy(symbols, line, n) ensures exists r | r in RemovalsOf(symbols, line) :: r.name == n {
        assert Removal(n, Container(symbols, n).value, line.path) in RemovalsOf(symbols, line);
      }
    }
  }

  lemma {:induction false} RemovalIsNamed(symbols: Symbols, lines: seq<Line>, r: Removal)
    requires r in AllRemovals(symbols, lines)
    ensures NamedIn(symbols, lines, r.name) && Container(symbols, r.name) == Some(r.container) && !r.path.library
  {
    hide Container, RemovalsOf, NamedBy, NamedIn;
    var init, last := lines[..|lines| - 1], lines[|lines| - 1];
    assert lines == init + [last];
    NamedInOneMore(symbols, init, last);
    if r in AllRemovals(symbols, init) {
      RemovalIsNamed(symbols, init, r);
    } else {
      RemovalsOfAre(symbols, last);
    }
  }

  lemma {:induction false} NamedIsRemoved(symbols: Symbols, lines: seq<Line>, n: string)
    requires NamedIn(symbols, lines, n)
    ensures exists r | r in AllRemovals(symbols, lines) :: r.name == n
  {
    hide Container, RemovalsOf, NamedBy, NamedIn;
    if lines == [] {
      NothingIsNamed(symbols, n);
    } else {
      var init, last := lines[..|lines| - 1], lines[|lines| - 1];
      assert lines == init + [last];
      NamedInOneMore(symbols, init, last);
      if NamedIn(symbols, init, n) {
        NamedIsRemoved(symbols, init, n);
        var r :| r in AllRemovals(symbols, init) && r.name == n;
        assert r in AllRemovals(symbols, lines);
      } else {
        RemovalsOfAre(symbols, last);
        var r :| r in RemovalsOf(symbols, last) && r.name == n;
        assert r in AllRemovals(symbols, lines);
      }
    }
  }

  lemma NothingIsNamed(symbols: Symbols, n: string)
    ensures !NamedIn(symbols, [], n) && !SomeNested(symbols, [])
  {
  }

  lemma {:induction false} RemovalsWhenNested(symbols: Symbols, lines: seq<Line>)
    ensures AllRemovals(symbols, lines) == [] <==> !SomeNested(symbols, lines)
  {
    hide Container, RemovalsOf, ImportsNested, SomeNested;
    if lines == [] {
      NothingIsNamed(symbols, "");
    } else {
      var init, last := lines[..|lines| - 1], lines[|lines| - 1];
      assert lines == init + [last];
      NamedInOneMore(symbols, init, last);
      RemovalsOfAre(symbols, last);
      RemovalsWhenNested(symbols, init);
    }
  }

  lemma NamedInOneMore(symbols: Symbols, lines: seq<Line>, line: Line)
    ensures forall n :: NamedIn(symbols, lines + [line], n) <==> NamedIn(symbols, lines, n) || NamedBy(symbols, line, n)
    ensures SomeNested(symbols, lines + [line]) <==> SomeNested(symbols, lines) || ImportsNested(symbols, line)
  {
    hide ImportsNested, NamedBy;
    var all := lines + [line];
    assert forall i | 0 <= i < |lines| :: all[i] == lines[i];
    assert all[|lines|] == line;
  }

  // ---- the containers ----

  /** Each string once, in order of first appearance. */
  function FirstSeen(s: seq<string>): seq<string> {
    if s == [] then []
    else
      var before, last := FirstSeen(s[..|s| - 1]), s[|s| - 1];
      if last in before then before else before + [last]
  }

  lemma {:induction false} FirstSeenAre(s: seq<string>)
    ensures Distinct(FirstSeen(s)) && forall x :: x in FirstSeen(s) <==> x in s
  {
    hide Distinct;
    if s == [] {
      NoneRepeated<string>();
    } else {
      var init, last := s[..|s| - 1], s[|s| - 1];
      FirstSeenAre(init);
      assert s == init + [last];
      if last !in FirstSeen(init) {
        DistinctGrows(FirstSeen(init), last);
      }
    }
  }

  function NamesOf(gone: seq<Removal>): seq<string> {
    seq(|gone|, i requires 0 <= i < |gone| => gone[i].name)
  }

  /** The last removal of each name. */
  function Latest(gone: seq<Removal>): map<string, Removal> {
    if gone == [] then map[] else Latest(gone[..|gone| - 1])[gone[|gone| - 1].name := gone[|gone| - 1]]
  }

  lemma {:induction false} LatestAre(gone: seq<Removal>)
    ensures forall n | n in Latest(gone) :: Latest(gone)[n] in gone && Latest(gone)[n].name == n
    ensures forall r | r in gone :: r.name in Latest(gone)
    ensures forall n :: n in Latest(gone) <==> n in FirstSeen(NamesOf(gone))
  {
    hide FirstSeen;
    FirstSeenAre(NamesOf(gone));
    if gone != [] {
      var init, last := gone[..|gone| - 1], gone[|gone| - 1];
      LatestAre(init);
      FirstSeenAre(NamesOf(init));
      assert gone == init + [last];
      assert NamesOf(gone) == NamesOf(init) + [last.name];
    }
  }

  method Collect(gone: seq<Removal>) returns (order: seq<string>, removed: map<string, Removal>)
    ensures order == FirstSeen(NamesOf(gone)) && removed == Latest(gone)
    ensures forall n :: n in order <==> n in removed
  {
    order, removed := [], map[];
    for i := 0 to |gone|
      invariant order == FirstSeen(NamesOf(gone[..i])) && removed == Latest(gone[..i])
    {
      var r := gone[i];
      assert gone[..i + 1][..i] == gone[..i];
      assert NamesOf(gone[..i + 1]) == NamesOf(gone[..i]) + [r.name];
      assert (NamesOf(gone[..i]) + [r.name])[..i] == NamesOf(gone[..i]);
      LatestAre(gone[..i]);
      if r.name !in removed {
        order := order + [r.name];
      }
      removed := removed[r.name := r];
    }
    assert gone[..|gone|] == gone;
    LatestAre(gone);
  }

  function ContainersOf(removed: map<string, Removal>): map<string, string> {
    map n | n in removed :: removed[n].container
  }

  function ContainerList(order: seq<string>, removed: map<string, Removal>): seq<string>
    requires forall n | n in order :: n in removed
  {
    seq(|order|, i requires 0 <= i < |order| => removed[order[i]].container)
  }

  /** The last of the names whose container is `c`. */
  function LastWith(order: seq<string>, removed: map<string, Removal>, c: string): Option<string>
    requires forall n | n in order :: n in removed
  {
    if order == [] then None
    else if removed[order[|order| - 1]].container == c then Some(order[|order| - 1])
    else LastWith(order[..|order| - 1], removed, c)
  }

  lemma {:induction false} LastWithIs(order: seq<string>, removed: map<string, Removal>, c: string)
    requires forall n | n in order :: n in removed
    ensures LastWith(order, removed, c).Some? ==>
              LastWith(order, removed, c).value in order && removed[LastWith(order, removed, c).value].container == c
    ensures LastWith(order, removed, c).Some? <==> c in ContainerList(order, removed)
  {
    if order != [] {
      var init, last := order[..|order| - 1], order[|order| - 1];
      LastWithIs(init, removed, c);
      assert ContainerList(order, removed) == ContainerList(init, removed) + [removed[last].container];
    }
  }

  /** Where a container is imported from: where the project declares it, or else where the last name nested
      in it was imported. */
  function PathFor(c: string, order: seq<string>, removed: map<string, Removal>, fileMap: FileMap): Path
    requires (forall n | n in order :: n in removed) && c in ContainerList(order, removed)
  {
    LastWithIs(order, removed, c);
    if c in fileMap then fileMap[c] else removed[LastWith(order, removed, c).value].path
  }

  /** The containers that no line imports, each once and in order. */
  function Absent(lines: seq<Line>, cs: seq<string>): seq<string> {
    if cs == [] then []
    else
      var last := cs[|cs| - 1];
      Absent(lines, cs[..|cs| - 1]) + if OnALine(lines, last) then [] else [last]
  }

  lemma {:induction false} AbsentAre(lines: seq<Line>, cs: seq<string>)
    requires Distinct(cs)
    ensures forall c :: c in Absent(lines, cs) <==> c in cs && !OnALine(lines, c)
    ensures Distinct(Absent(lines, cs))
  {
    hide OnALine, Distinct;
    if cs == [] {
      NoneRepeated<string>();
    } else {
      var init, last := cs[..|cs| - 1], cs[|cs| - 1];
      NotSeenBefore(cs, |cs| - 1);
      DistinctPart(cs, |cs| - 1);
      AbsentAre(lines, init);
      assert cs == init + [last] && cs[..|cs|] == cs;
      assert Absent(lines, init) + [] == Absent(lines, init);
      DistinctGrows(Absent(lines, init), last);
    }
  }

  function ContainerImports(cs: seq<string>, order: seq<string>, removed: map<string, Removal>, fileMap: FileMap)
    : (imports: seq<Line>)
    requires (forall n | n in order :: n in removed) && forall c | c in cs :: c in ContainerList(order, removed)
    ensures |imports| == |cs| && forall i | 0 <= i < |imports| ::
              imports[i] == Import([Plain(cs[i])], PathFor(cs[i], order, removed, fileMap))
  {
    seq(|cs|, i requires 0 <= i < |cs| => Import([Plain(cs[i])], PathFor(cs[i], order, removed, fileMap)))
  }

  function MissingFrom(lines: seq<Line>, order: seq<string>, removed: map<string, Removal>): (cs: seq<string>)
    requires forall n | n in order :: n in removed
    ensures forall c | c in cs :: c in ContainerList(order, removed)
  {
    FirstSeenAre(ContainerList(order, removed));
    AbsentAre(lines, FirstSeen(ContainerList(order, removed)));
    Absent(lines, FirstSeen(ContainerList(order, removed)))
  }

  /** The containers in order of first appearance, with the path of the last name nested in each. */
  method ContainersInOrder(order: seq<string>, removed: map<string, Removal>)
    returns (containers: seq<string>, latest: map<string, Path>)
    requires forall n | n in order :: n in removed
    ensures containers == FirstSeen(ContainerList(order, removed))
    ensures forall c :: c in latest <==> c in ContainerList(order, removed)
    ensures forall c | c in latest :: latest[c] == OriginalPath(order, removed, c)
  {
    hide FirstSeen, OriginalPath, ContainerList;
    containers, latest := [], map[];
    NoContainers(order, removed);
    for i := 0 to |order|
      invariant forall n | n in order[..i] :: n in removed
      invariant containers == FirstSeen(ContainerList(order[..i], removed))
      invariant forall c :: c in latest <==> c in ContainerList(order[..i], removed)
      invariant forall c | c in latest :: latest[c] == OriginalPath(order[..i], removed, c)
    {
      var c := removed[order[i]].container;
      ContainerListStep(order, removed, i);
      if c !in latest {
        containers := containers + [c];
      }
      ghost var was := latest;
      latest := latest[c := removed[order[i]].path];
      forall d | d in latest ensures latest[d] == OriginalPath(order[..i + 1], removed, d) {
        OriginalPathStep(order, removed, i, d);
        assert d != c ==> d in was && was[d] == OriginalPath(order[..i], removed, d);
      }
    }
    assert order[..|order|] == order;
  }

  lemma NoContainers(order: seq<string>, removed: map<string, Removal>)
    ensures FirstSeen(ContainerList(order[..0], removed)) == [] && ContainerList(order[..0], removed) == []
  {
  }

  /** The imports that are missing for the containers of the removed names. */
  method MissingContainers(lines: seq<Line>, order: seq<string>, removed: map<string, Removal>, fileMap: FileMap)
    returns (additions: seq<Line>)
    requires forall n | n in order :: n in removed
    ensures additions == ContainerImports(MissingFrom(lines, order, removed), order, removed, fileMap)
  {
    hide OnALine, PathFor, ContainerList, FirstSeen, OriginalPath;
    var containers, latest := ContainersInOrder(order, removed);
    FirstSeenAre(ContainerList(order, removed));
    ghost var missing: seq<string> := [];
    additions := [];
    for i := 0 to |containers|
      invariant missing == Absent(lines, containers[..i])
      invariant forall c | c in missing :: c in ContainerList(order, removed)
      invariant additions == ContainerImports(missing, order, removed, fileMap)
    {
      var c := containers[i];
      assert containers[..i + 1][..i] == containers[..i] && c in containers;
      if !OnALine(lines, c) {
        PathForIs(c, order, removed, fileMap);
        additions := additions + [Import([Plain(c)], if c in fileMap then fileMap[c] else latest[c])];
        missing := missing + [c];
      }
    }
    assert containers[..|containers|] == containers;
  }

  /** The path of the last name whose container is `c`. */
  function OriginalPath(order: seq<string>, removed: map<string, Removal>, c: string): Path
    requires (forall n | n in order :: n in removed) && c in ContainerList(order, removed)
  {
    LastWithIs(order, removed, c);
    removed[LastWith(order, removed, c).value].path
  }

  lemma PathForIs(c: string, order: seq<string>, removed: map<string, Removal>, fileMap: FileMap)
    requires (forall n | n in order :: n in removed) && c in ContainerList(order, removed)
    ensures PathFor(c, order, removed, fileMap) == if c in fileMap then fileMap[c] else OriginalPath(order, removed, c)
  {
  }

  lemma ContainerListStep(order: seq<string>, removed: map<string, Removal>, i: nat)
    requires i < |order| && forall n | n in order :: n in removed
    ensures forall n | n in order[..i + 1] :: n in removed
    ensures ContainerList(order[..i + 1], removed) == ContainerList(order[..i], removed) + [removed[order[i]].container]
    ensures FirstSeen(ContainerList(order[..i + 1], removed)) ==
            var before, c := FirstSeen(ContainerList(order[..i], removed)), removed[order[i]].container;
            if c in ContainerList(order[..i], removed) then before else before + [c]
    ensures forall c | c in ContainerList(order[..i + 1], removed) ::
              OriginalPath(order[..i + 1], removed, c) ==
              if c == removed[order[i]].container then removed[order[i]].path else OriginalPath(order[..i], removed, c)
  {
    hide OriginalPath;
    assert order[..i + 1] == order[..i] + [order[i]];
    var before, c := ContainerList(order[..i], removed), removed[order[i]].container;
    assert ContainerList(order[..i + 1], removed) == before + [c];
    assert (before + [c])[..|before|] == before;
    FirstSeenAre(before);
    forall d | d in before + [c] { OriginalPathStep(order, removed, i, d); }
  }

  lemma OriginalPathStep(order: seq<string>, removed: map<string, Removal>, i: nat, d: string)
    requires i < |order| && (forall n | n in order :: n in removed) && d in ContainerList(order[..i + 1], removed)
    ensures var c := removed[order[i]].container;
            && (d == c || d in ContainerList(order[..i], removed))
            && OriginalPath(order[..i + 1], removed, d) ==
               if d == c then removed[order[i]].path else OriginalPath(order[..i], removed, d)
  {
    assert order[..i + 1][..i] == order[..i] && order[..i + 1][i] == order[i];
    LastWithIs(order[..i], removed, d);
    assert ContainerList(order[..i + 1], removed) == ContainerList(order[..i], removed) + [removed[order[i]].container];
  }

  // ---- the fixer ----

  ghost function Order(symbols: Symbols, lines: seq<Line>): seq<string> {
    FirstSeen(NamesOf(AllRemovals(symbols, lines)))
  }

  ghost function Removed(symbols: Symbols, lines: seq<Line>): map<string, Removal> {
    Latest(AllRemovals(symbols, lines))
  }

  /** The removed names with their containers. */
  ghost function Containers(symbols: Symbols, lines: seq<Line>): map<string, string> {
    ContainersOf(Removed(symbols, lines))
  }

  /** The imports that the fixer adds. */
  ghost function Additions(symbols: Symbols, lines: seq<Line>, fileMap: FileMap): seq<Line> {
    hide AllRemovals, Pruned;
    LatestAre(AllRemovals(symbols, lines));
    ContainerImports(MissingFrom(Pruned(symbols, lines), Order(symbols, lines), Removed(symbols, lines)),
                     Order(symbols, lines), Removed(symbols, lines), fileMap)
  }

  /** The lines before the rewriting. */
  ghost function Rebuilt(symbols: Symbols, lines: seq<Line>, fileMap: FileMap): seq<Line> {
    Splice(Pruned(symbols, lines), Additions(symbols, lines, fileMap))
  }

  ghost function NestedFixed(symbols: Symbols, lines: seq<Line>, fileMap: FileMap): seq<Line> {
    hide AllRemovals, Pruned, Rebuilt;
    LatestAre(AllRemovals(symbols, lines));
    QualifyInTurn(Rebuilt(symbols, lines, fileMap), Order(symbols, lines), Containers(symbols, lines))
  }

  /** Nested types cannot be imported by name: drops them from the project imports, imports their
      containers instead and qualifies their bare uses. */
  method FixNestedTypeImports(lines: seq<Line>, symbols: Symbols, fileMap: FileMap)
    returns (fixed: seq<Line>, changed: bool)
    ensures changed <==> SomeNested(symbols, lines)
    ensures fixed == if changed then NestedFixed(symbols, lines, fileMap) else lines
  {
    hide Pruned, AllRemovals, SomeNested, Container, Splice, FirstSeen, Latest, QualifyLines, NamesOf;
    var out, gone := PruneLines(symbols, lines);
    RemovalsWhenNested(symbols, lines);
    if gone == [] {
      return lines, false;
    }
    var order, removed := Collect(gone);
    var missing := MissingContainers(out, order, removed, fileMap);
    SpliceNothing(out);
    fixed := if missing != [] then Splice(out, missing) else out;
    ghost var rebuilt := fixed;
    for i := 0 to |order|
      invariant forall n | n in order[..i] :: n in removed
      invariant fixed == QualifyInTurn(rebuilt, order[..i], ContainersOf(removed))
    {
      assert order[..i + 1][..i] == order[..i] && order[i] in order;
      fixed := QualifyLines(fixed, map[order[i] := removed[order[i]].container]);
    }
    assert order[..|order|] == order;
    return fixed, true;
  }

  // ---- what the fixer achieves ----

  lemma ContainersAre(symbols: Symbols, lines: seq<Line>, n: string)
    ensures n in Containers(symbols, lines) <==> NamedIn(symbols, lines, n)
    ensures n in Containers(symbols, lines) <==> n in Order(symbols, lines)
    ensures n in Containers(symbols, lines) ==>
              Container(symbols, n) == Some(Containers(symbols, lines)[n]) && !Removed(symbols, lines)[n].path.library
  {
    hide AllRemovals, NamedIn, Container, FirstSeen, Latest, NamesOf;
    LatestAre(AllRemovals(symbols, lines));
    if n in Removed(symbols, lines) {
      RemovalIsNamed(symbols, lines, Removed(symbols, lines)[n]);
    }
    if NamedIn(symbols, lines, n) {
      NamedIsRemoved(symbols, lines, n);
    }
  }

  lemma RemovedAreIdentifiers(symbols: Symbols, lines: seq<Line>, n: string)
    requires PlainImports(lines) && NamedIn(symbols, lines, n)
    ensures Identifier(n)
  {
    hide Container, Identifier;
    var i :| 0 <= i < |lines| && NamedBy(symbols, lines[i], n);
    assert Plain(n) in lines[i].names;
  }

  /** When no container is itself one of the removed names, rewriting in turn is rewriting at once. */
  lemma FixedAtOnce(symbols: Symbols, lines: seq<Line>, fileMap: FileMap)
    requires PlainImports(lines) && Separate(Containers(symbols, lines))
    ensures NestedFixed(symbols, lines, fileMap) ==
            QualifyLines(Rebuilt(symbols, lines, fileMap), Containers(symbols, lines))
  {
    hide AllRemovals, NamedIn, Container, Pruned, Separate, Identifier, QualifyLines, Distinct, Rebuilt, PlainImports,
         FirstSeen, Latest, NamesOf;
    var containers, order := Containers(symbols, lines), Order(symbols, lines);
    LatestAre(AllRemovals(symbols, lines));
    FirstSeenAre(NamesOf(AllRemovals(symbols, lines)));
    forall n | n in order ensures n in containers && Identifier(n) {
      ContainersAre(symbols, lines, n);
      RemovedAreIdentifiers(symbols, lines, n);
    }
    QualifyInTurnIsAtOnce(Rebuilt(symbols, lines, fileMap), order, containers);
    assert Restricted(containers, order) == containers;
  }

  /** An added import brings in one container that no line imported, from a project path or from where the
      project declares it; every such container gets one. */
  lemma AdditionsAre(symbols: Symbols, lines: seq<Line>, fileMap: FileMap, line: Line)
    ensures line in Additions(symbols, lines, fileMap) ==>
              line.Import? && exists n | n in Containers(symbols, lines) ::
                && var c := Containers(symbols, lines)[n];
                && line.names == [Plain(c)] && !OnALine(Pruned(symbols, lines), c)
                && if c in fileMap then line.path == fileMap[c] else !line.path.library
  {
    hide AllRemovals, Container, Pruned, FirstSeen, Latest, NamesOf, OnALine, NamedIn;
    var order, removed := Order(symbols, lines), Removed(symbols, lines);
    LatestAre(AllRemovals(symbols, lines));
    var missing := MissingFrom(Pruned(symbols, lines), order, removed);
    MissingAre(Pruned(symbols, lines), order, removed);
    if line in Additions(symbols, lines, fileMap) {
      var i :| 0 <= i < |missing| && Additions(symbols, lines, fileMap)[i] == line;
      var c := missing[i];
      LastWithIs(order, removed, c);
      var n := LastWith(order, removed, c).value;
      ContainersAre(symbols, lines, n);
      assert n in Containers(symbols, lines) && Containers(symbols, lines)[n] == c;
    }
  }

  lemma MissingAre(lines: seq<Line>, order: seq<string>, removed: map<string, Removal>)
    requires forall n | n in order :: n in removed
    ensures forall c :: c in MissingFrom(lines, order, removed) <==>
            c in ContainerList(order, removed) && !OnALine(lines, c)
    ensures Distinct(MissingFrom(lines, order, removed))
  {
    hide OnALine;
    FirstSeenAre(ContainerList(order, removed));
    AbsentAre(lines, FirstSeen(ContainerList(order, removed)));
  }

  lemma ContainerAdded(symbols: Symbols, lines: seq<Line>, fileMap: FileMap, n: string)
    requires n in Containers(symbols, lines)
    ensures var c := Containers(symbols, lines)[n];
            OnALine(Pruned(symbols, lines), c) ||
            exists line | line in Additions(symbols, lines, fileMap) :: ImportedBy(line, c)
                          && (c in fileMap ==> line.path == fileMap[c]) && (c !in fileMap ==> !line.path.library)
  {
    hide AllRemovals, Container, Pruned, FirstSeen, Latest, NamesOf, OnALine, NamedIn;
    var order, removed := Order(symbols, lines), Removed(symbols, lines);
    var c := removed[n].container;
    LatestAre(AllRemovals(symbols, lines));
    MissingAre(Pruned(symbols, lines), order, removed);
    if !OnALine(Pruned(symbols, lines), c) {
      var k :| 0 <= k < |order| && order[k] == n;
      assert ContainerList(order, removed)[k] == c;
      var missing := MissingFrom(Pruned(symbols, lines), order, removed);
      var i :| 0 <= i < |missing| && missing[i] == c;
      var line := Additions(symbols, lines, fileMap)[i];
      assert line in Additions(symbols, lines, fileMap);
      AdditionsAre(symbols, lines, fileMap, line);
      assert line.names == [Plain(c)];
    }
  }

  lemma {:induction false} PrunedHasNone(symbols: Symbols, lines: seq<Line>, line: Line)
    requires line in Pruned(symbols, lines)
    ensures !ImportsNested(symbols, line)
  {
    hide Container, Kept;
    var init, last := lines[..|lines| - 1], lines[|lines| - 1];
    if line in Pruned(symbols, init) {
      PrunedHasNone(symbols, init, line);
    } else {
      assert line in PrunedLine(symbols, last);
      if last.Import? {
        KeptAre(symbols, last.names);
      }
    }
  }

  /** Qualifying leaves the plain names of a project import alone when none of them is a removed type. */
  lemma QualifiedImport(symbols: Symbols, containers: map<string, string>, line: Line)
    requires forall n | n in containers :: Container(symbols, n).Some?
    requires line.Import? && !line.path.library && forall n | n in line.names && n.Plain? :: n.name !in containers
    ensures ImportsNested(symbols, QualifyLine(line, containers)) <==> ImportsNested(symbols, line)
  {
    hide Container, Qualify;
    var names := QualifyNames(line.names, containers);
    forall i | 0 <= i < |names| ensures Nested(symbols, names[i]) == Nested(symbols, line.names[i]) {
      assert line.names[i] in line.names;
    }
  }

  /** A removed name has a container that is itself a nested type, that no line imports and that the project
      is asked for. */
  ghost predicate BringsNested(symbols: Symbols, lines: seq<Line>, fileMap: FileMap, n: string) {
    && NamedIn(symbols, lines, n) && Container(symbols, n).Some?
    && var c := Container(symbols, n).value;
       Container(symbols, c).Some? && !OnALine(Pruned(symbols, lines), c) && (c in fileMap ==> !fileMap[c].library)
  }

  lemma AddedNested(symbols: Symbols, lines: seq<Line>, fileMap: FileMap)
    ensures (exists line | line in Additions(symbols, lines, fileMap) :: ImportsNested(symbols, line)) <==>
            exists n :: BringsNested(symbols, lines, fileMap, n)
  {
    hide Container, Pruned, NamedIn, OnALine, Additions, Containers, Removed;
    forall line | line in Additions(symbols, lines, fileMap) && ImportsNested(symbols, line)
      ensures exists n :: BringsNested(symbols, lines, fileMap, n)
    {
      AdditionsAre(symbols, lines, fileMap, line);
      var n :| n in Containers(symbols, lines) && line.names == [Plain(Containers(symbols, lines)[n])]
               && !OnALine(Pruned(symbols, lines), Containers(symbols, lines)[n])
               && if Containers(symbols, lines)[n] in fileMap then line.path == fileMap[Containers(symbols, lines)[n]]
                  else !line.path.library;
      ContainersAre(symbols, lines, n);
      assert BringsNested(symbols, lines, fileMap, n);
    }
    forall n | BringsNested(symbols, lines, fileMap, n)
      ensures exists line | line in Additions(symbols, lines, fileMap) :: ImportsNested(symbols, line)
    {
      ContainersAre(symbols, lines, n);
      ContainerAdded(symbols, lines, fileMap, n);
      var c := Containers(symbols, lines)[n];
      var line :| line in Additions(symbols, lines, fileMap) && ImportedBy(line, c)
                  && (c in fileMap ==> line.path == fileMap[c]) && (c !in fileMap ==> !line.path.library);
      assert Nested(symbols, Plain(c));
    }
  }

  lemma RebuiltLine(symbols: Symbols, lines: seq<Line>, fileMap: FileMap, line: Line)
    requires Separate(Containers(symbols, lines)) && line in Rebuilt(symbols, lines, fileMap)
    ensures ImportsNested(symbols, QualifyLine(line, Containers(symbols, lines))) <==>
            line in Additions(symbols, lines, fileMap) && ImportsNested(symbols, line)
  {
    hide Container, Kept, Pruned, Splice, Qualify, NamedIn, Additions, Containers, OnALine, Removed;
    var containers := Containers(symbols, lines);
    SplicedLine(Pruned(symbols, lines), Additions(symbols, lines, fileMap), line);
    forall n { ContainersAre(symbols, lines, n); }
    if line.Import? && !line.path.library {
      if line in Additions(symbols, lines, fileMap) {
        AdditionsAre(symbols, lines, fileMap, line);
        var n :| n in containers && line.names == [Plain(containers[n])];
        QualifiedImport(symbols, containers, line);
      } else {
        PrunedHasNone(symbols, lines, line);
        QualifiedImport(symbols, containers, line);
      }
    }
  }

  /** The result names a nested type in a one-line project import exactly when the container of a name it
      removed is itself a nested type, imported by no line and asked for from the project. */
  lemma NestedImportsLeft(symbols: Symbols, lines: seq<Line>, fileMap: FileMap)
    requires PlainImports(lines) && Separate(Containers(symbols, lines))
    ensures SomeNested(symbols, NestedFixed(symbols, lines, fileMap)) <==>
            exists n :: BringsNested(symbols, lines, fileMap, n)
  {
    hide Container, Pruned, NamedIn, Additions, Containers, Rebuilt, BringsNested, NestedFixed, QualifyLine,
         ImportsNested, Separate, PlainImports;
    FixedAtOnce(symbols, lines, fileMap);
    AddedNested(symbols, lines, fileMap);
    var rebuilt, fixed := Rebuilt(symbols, lines, fileMap), NestedFixed(symbols, lines, fileMap);
    forall i | 0 <= i < |rebuilt|
      ensures ImportsNested(symbols, fixed[i]) <==>
              rebuilt[i] in Additions(symbols, lines, fileMap) && ImportsNested(symbols, rebuilt[i])
    {
      RebuiltLine(symbols, lines, fileMap, rebuilt[i]);
      assert fixed[i] == QualifyLine(rebuilt[i], Containers(symbols, lines));
    }
    forall line | line in Additions(symbols, lines, fileMap) && ImportsNested(symbols, line)
      ensures SomeNested(symbols, fixed)
    {
      AdditionIsRebuilt(symbols, lines, fileMap, line);
      var i :| 0 <= i < |rebuilt| && rebuilt[i] == line;
      assert ImportsNested(symbols, fixed[i]);
    }
  }

  lemma AdditionIsRebuilt(symbols: Symbols, lines: seq<Line>, fileMap: FileMap, line: Line)
    requires line in Additions(symbols, lines, fileMap)
    ensures line in Rebuilt(symbols, lines, fileMap)
  {
    hide Pruned, Additions, Splice;
    SplicedLine(Pruned(symbols, lines), Additions(symbols, lines, fileMap), line);
  }

  /** With containers that are not nested types themselves a second pass finds nothing to do. */
  lemma SecondPassChangesNothing(symbols: Symbols, lines: seq<Line>, fileMap: FileMap)
    requires PlainImports(lines)
    requires forall n | NamedIn(symbols, lines, n) && Container(symbols, n).Some? ::
               Container(symbols, Container(symbols, n).value).None?
    ensures !SomeNested(symbols, NestedFixed(symbols, lines, fileMap))
  {
    hide Container, Pruned, NamedIn, SomeNested, Containers, NestedFixed, Removed;
    var containers := Containers(symbols, lines);
    forall n | n in containers ensures containers[n] !in containers {
      ContainersAre(symbols, lines, n);
      ContainersAre(symbols, lines, containers[n]);
    }
    NestedImportsLeft(symbols, lines, fileMap);
  }

  /** The container of every removed name is imported by a line of its own. The path of that line is as it was
      exactly when no removed name is a word of it. */
  lemma ContainersImported(symbols: Symbols, lines: seq<Line>, fileMap: FileMap, n: string) returns (i: nat)
    requires PlainImports(lines) && Separate(Containers(symbols, lines)) && NamedIn(symbols, lines, n)
    ensures var rebuilt, fixed := Rebuilt(symbols, lines, fileMap), NestedFixed(symbols, lines, fileMap);
            var c := Container(symbols, n).value;
            && Container(symbols, n).Some?
            && i < |fixed| == |rebuilt| && ImportedBy(rebuilt[i], c) && ImportedBy(fixed[i], c)
            && (rebuilt[i] in Pruned(symbols, lines) || rebuilt[i] in Additions(symbols, lines, fileMap))
            && (fixed[i].path == rebuilt[i].path <==>
                  NoBareUse(rebuilt[i].path.tokens, set m | m in Containers(symbols, lines)))
  {
    hide Container, Pruned, NamedIn, Additions, Containers, NestedFixed, Removed, Splice, Qualify, NoBareUse,
         PlainImports;
    var containers := Containers(symbols, lines);
    ContainersAre(symbols, lines, n);
    FixedAtOnce(symbols, lines, fileMap);
    var c, rebuilt := containers[n], Rebuilt(symbols, lines, fileMap);
    ContainerAdded(symbols, lines, fileMap, n);
    var line;
    if OnALine(Pruned(symbols, lines), c) {
      var k :| 0 <= k < |Pruned(symbols, lines)| && ImportedBy(Pruned(symbols, lines)[k], c);
      line := Pruned(symbols, lines)[k];
    } else {
      line :| line in Additions(symbols, lines, fileMap) && ImportedBy(line, c);
    }
    SplicedLine(Pruned(symbols, lines), Additions(symbols, lines, fileMap), line);
    i :| 0 <= i < |rebuilt| && rebuilt[i] == line;
    StillImportedBy(line, containers, c);
    QualifyGrows(line.path.tokens, containers);
    if NoBareUse(line.path.tokens, containers.Keys) {
      QualifyNothing(line.path.tokens, containers);
    }
    assert (set m | m in containers) == containers.Keys;
  }

  lemma StillImportedBy(line: Line, containers: map<string, string>, c: string)
    requires ImportedBy(line, c) && c !in containers
    ensures ImportedBy(QualifyLine(line, containers), c)
  {
    hide Qualify;
    var k :| 0 <= k < |line.names| && line.names[k] == Plain(c);
    assert QualifyNames(line.names, containers)[k] == Plain(c);
  }

  /** The words of an import list item. */
  function WordsOf(n: Name): set<string> {
    match n
    case Plain(name) => {name}
    case Aliased(name, alias) => {name, alias}
    case Piece => {}
  }

  /** No bare use of a removed type is left on any line: not in its text or path, and not in its names. */
  lemma EveryUseQualified(symbols: Symbols, lines: seq<Line>, fileMap: FileMap, i: nat)
    requires PlainImports(lines) && Separate(Containers(symbols, lines)) && i < |NestedFixed(symbols, lines, fileMap)|
    ensures var line := NestedFixed(symbols, lines, fileMap)[i];
            && (forall tokens | tokens in TextsOn(line) :: NoBareUse(tokens, Containers(symbols, lines).Keys))
            && forall n | n in NamesOn(line) :: WordsOf(n) !! Containers(symbols, lines).Keys
  {
    hide Container, Pruned, NamedIn, Additions, NestedFixed, Removed, Splice, Qualify, NoBareUse, PlainImports, Rebuilt,
         Identifier, QualifyWord;
    var containers := Containers(symbols, lines);
    FixedAtOnce(symbols, lines, fileMap);
    var line := Rebuilt(symbols, lines, fileMap)[i];
    assert NestedFixed(symbols, lines, fileMap)[i] == QualifyLine(line, containers);
    forall tokens | tokens in TextsOn(QualifyLine(line, containers)) ensures NoBareUse(tokens, containers.Keys) {
      TextIsQualified(line, containers, tokens);
    }
    forall m { QualifiedIsNoName(symbols, lines, m); }
    forall n | n in NamesOn(QualifyLine(line, containers)) ensures WordsOf(n) !! containers.Keys {
      var m := NameIsQualified(line, containers, n);
    }
  }

  lemma TextIsQualified(line: Line, containers: map<string, string>, tokens: seq<Token>)
    requires Separate(containers) && tokens in TextsOn(QualifyLine(line, containers))
    ensures NoBareUse(tokens, containers.Keys)
  {
    hide Qualify, NoBareUse, Separate;
    forall tokens { QualifiedHasNoBareUse(tokens, containers); }
    if line.Start? || line.More? {
      var parts := QualifyParts(line.parts, containers);
      var i :| 0 <= i < |parts| && (if parts[i].Source? then parts[i].path.tokens == tokens
                                    else parts[i].Other? && parts[i].tokens == tokens);
      assert parts[i] == QualifyPart(line.parts[i], containers);
    }
  }

  lemma NameIsQualified(line: Line, containers: map<string, string>, n: Name) returns (m: Name)
    requires n in NamesOn(QualifyLine(line, containers))
    ensures m in NamesOn(line) && n == QualifyName(m, containers)
  {
    hide QualifyName, Qualify;
    if line.Import? {
      var names := QualifyNames(line.names, containers);
      var i :| 0 <= i < |names| && names[i] == n;
      m := line.names[i];
    } else {
      var parts := QualifyParts(line.parts, containers);
      var i :| 0 <= i < |parts| && parts[i].Item? && parts[i].name == n;
      assert parts[i] == QualifyPart(line.parts[i], containers);
      assert line.parts[i] in line.parts;
      m := line.parts[i].name;
    }
  }

  lemma QualifiedIsNoName(symbols: Symbols, lines: seq<Line>, m: string)
    requires PlainImports(lines)
    ensures QualifyWord(m, Containers(symbols, lines)) !in Containers(symbols, lines)
  {
    hide Container, NamedIn, Removed, PlainImports;
    var containers := Containers(symbols, lines);
    var q := QualifyWord(m, containers);
    if m in containers {
      assert q[|containers[m]|] == '.';
      if q in containers {
        ContainersAre(symbols, lines, q);
        RemovedAreIdentifiers(symbols, lines, q);
      }
    }
  }
}
