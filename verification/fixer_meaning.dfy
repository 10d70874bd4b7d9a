/** What the source rewriters keep, drop, add and rewrite, place by place. */
module FixerMeaning {
  import opened NestedFixer
  import opened Qualifying
  import opened Selection
  import opened SourceLines
  import opened SymbolLookup
  import opened UndeclaredFixer
  import opened Wrappers

  // ---- qualifying ----

  /** Token after token: a word that is one of the names, right after no dot, gets its container and a dot before it;
      every other token stays as it is. */
  lemma QualifyIs(tokens: seq<Token>, t: Token, containers: map<string, string>)
    ensures Qualify([], containers) == []
    ensures Qualify(tokens + [t], containers) ==
            Qualify(tokens, containers) +
            if t.Word? && t.word in containers && (tokens == [] || tokens[|tokens| - 1] != Dot)
            then [Word(containers[t.word]), Dot, Word(t.word)] else [t]
  {
    QualifyStep(tokens, t, containers);
  }

  /** In import lines the names and aliases are rewritten as words of their own, and so are the words of the path. */
  lemma QualifiedLineIs(names: seq<Name>, path: Path, tokens: seq<Token>, containers: map<string, string>, i: nat)
    requires i < |names|
    ensures QualifyLine(Code(tokens), containers) == Code(Qualify(tokens, containers))
    ensures QualifyLine(Header(tokens), containers) == Header(Qualify(tokens, containers))
    ensures var line := QualifyLine(Import(names, path), containers);
            && line.Import? && |line.names| == |names|
            && line.path == Path(path.library, Qualify(path.tokens, containers))
            && line.names[i] ==
               match names[i]
               case Plain(n) => Plain(if n in containers then containers[n] + "." + n else n)
               case Aliased(n, a) => Aliased(if n in containers then containers[n] + "." + n else n,
                                             if a in containers then containers[a] + "." + a else a)
               case Piece => Piece
  {
  }

  // ---- pruning ----

  /** A type that is nested in exactly one contract, named without an alias. */
  ghost predicate IsNested(symbols: Symbols, n: Name) {
    n.Plain? && exists c :: DeclaredOnlyIn(symbols, n.name, c)
  }

  lemma NestedIs(symbols: Symbols, n: Name)
    ensures Nested(symbols, n) <==> IsNested(symbols, n)
    ensures Nested(symbols, n) ==> DeclaredOnlyIn(symbols, n.name, Container(symbols, n.name).value)
  {
    if n.Plain? {
      ContainerIs(symbols, n.name);
      if Container(symbols, n.name).Some? {
        assert DeclaredOnlyIn(symbols, n.name, Container(symbols, n.name).value);
      }
    }
  }

  ghost function Stays(symbols: Symbols): Name -> bool {
    (n: Name) => !IsNested(symbols, n)
  }

  ghost function Goes(symbols: Symbols): Name -> bool {
    (n: Name) => IsNested(symbols, n)
  }

  function Whole(): Name -> Name {
    (n: Name) => n
  }

  ghost function RemovalOf(symbols: Symbols, path: Path): Name -> Option<Removal> {
    (n: Name) => if n.Plain? && Container(symbols, n.name).Some?
                 then Some(Removal(n.name, Container(symbols, n.name).value, path)) else None
  }

  /** Of a list the nested types go, each with its container and the path, and the rest stays, both in order. */
  lemma {:induction false} PrunedNamesAre(symbols: Symbols, names: seq<Name>, path: Path)
    ensures Picks(names, Stays(symbols), Whole(), Kept(symbols, names))
    ensures Picks(names, Goes(symbols), RemovalOf(symbols, path), Somes(Removals(symbols, names, path)))
  {
    hide Picks, IsNested, Container;
    if names == [] {
      PicksNothing(Stays(symbols), Whole());
      PicksNothing(Goes(symbols), RemovalOf(symbols, path));
      assert Somes<Removal>([]) == [];
    } else {
      var init, last := names[..|names| - 1], names[|names| - 1];
      PrunedNamesAre(symbols, init, path);
      NestedIs(symbols, last);
      PicksMore(init, Stays(symbols), Whole(), Kept(symbols, init), last);
      var gone := Removals(symbols, init, path);
      PicksMore(init, Goes(symbols), RemovalOf(symbols, path), Somes(gone), last);
      assert names == init + [last];
      assert Kept(symbols, names) ==
             if IsNested(symbols, last) then Kept(symbols, init) else Kept(symbols, init) + [last];
      if IsNested(symbols, last) {
        var r := Removal(last.name, Container(symbols, last.name).value, path);
        assert Removals(symbols, names, path) == gone + [r];
        assert Somes(gone + [r]) == Somes(gone) + [Some(r)];
      } else {
        assert Removals(symbols, names, path) == gone;
      }
    }
  }

  /** Line after line: a project import on one line loses its nested types, and goes altogether with its last name;
      every other line stays. */
  lemma PrunedLinesAre(symbols: Symbols, lines: seq<Line>, line: Line)
    ensures Pruned(symbols, []) == [] && AllRemovals(symbols, []) == []
    ensures var kept := if line.Import? then Kept(symbols, line.names) else [];
            var loses := line.Import? && !line.path.library && exists n | n in line.names :: IsNested(symbols, n);
            && Pruned(symbols, lines + [line]) ==
               Pruned(symbols, lines) +
               (if !loses then [line] else if kept == [] then [] else [Import(kept, line.path)])
            && AllRemovals(symbols, lines + [line]) ==
               AllRemovals(symbols, lines) +
               if line.Import? && !line.path.library then Removals(symbols, line.names, line.path) else []
  {
    hide IsNested, Nested, Kept, Removals;
    forall n { NestedIs(symbols, n); }
    assert (lines + [line])[..|lines|] == lines;
  }

  /** A container is imported on a line of its own if some line is a named import that lists it. */
  lemma OnALineIs(lines: seq<Line>, name: string)
    ensures OnALine(lines, name) <==> exists line | line in lines :: line.Import? && Plain(name) in line.names
  {
    if line :| line in lines && line.Import? && Plain(name) in line.names {
      var i :| 0 <= i < |lines| && lines[i] == line;
      assert ImportedBy(lines[i], name);
    }
  }

  // ---- what is added ----

  /** The container of the last of the names nested in it, in the order in which they were first removed, gives the
      path, unless the project declares it. */
  lemma {:induction false} LastNameWith(order: seq<string>, removed: map<string, Removal>, c: string) returns (k: nat)
    requires (forall n | n in order :: n in removed) && c in ContainerList(order, removed)
    ensures k < |order| && removed[order[k]].container == c && LastWith(order, removed, c) == Some(order[k])
    ensures forall j | k < j < |order| :: removed[order[j]].container != c
  {
    k := |order| - 1;
    if removed[order[k]].container != c {
      var init := order[..k];
      var i :| 0 <= i < |order| && ContainerList(order, removed)[i] == c;
      assert ContainerList(init, removed)[i] == c;
      k := LastNameWith(init, removed, c);
    }
  }

  /** Where a container is imported from. */
  lemma PathIs(order: seq<string>, removed: map<string, Removal>, fileMap: FileMap, c: string)
    requires (forall n | n in order :: n in removed) && c in ContainerList(order, removed)
    ensures c in fileMap ==> PathFor(c, order, removed, fileMap) == fileMap[c]
    ensures c !in fileMap ==>
              exists k | 0 <= k < |order| ::
                && removed[order[k]].container == c && PathFor(c, order, removed, fileMap) == removed[order[k]].path
                && forall j | k < j < |order| :: removed[order[j]].container != c
  {
    hide LastWith;
    var k := LastNameWith(order, removed, c);
  }

  /** The places at which strings first occur. */
  function FirstAt(s: seq<string>): int -> bool {
    (i: int) => 0 <= i < |s| && s[i] !in s[..i]
  }

  function At(s: seq<string>): int -> string {
    (i: int) => if 0 <= i < |s| then s[i] else ""
  }

  /** Each string once, at the place where it first occurs. */
  lemma FirstSeenIs(s: seq<string>)
    ensures Picks(Numbers(|s|), FirstAt(s), At(s), FirstSeen(s))
  {
    FirstSeenUpTo(s, |s|);
    assert s[..|s|] == s;
  }

  lemma {:induction false} FirstSeenUpTo(s: seq<string>, n: nat)
    requires n <= |s|
    ensures Picks(Numbers(n), FirstAt(s), At(s), FirstSeen(s[..n]))
  {
    hide Picks;
    if n == 0 {
      PicksNothing(FirstAt(s), At(s));
      assert Numbers(0) == [];
    } else {
      FirstSeenUpTo(s, n - 1);
      PicksMore(Numbers(n - 1), FirstAt(s), At(s), FirstSeen(s[..n - 1]), n - 1);
      assert Numbers(n - 1) + [n - 1] == Numbers(n) && s[..n][..n - 1] == s[..n - 1];
      FirstSeenAre(s[..n - 1]);
    }
  }

  // ---- the repair of undeclared names ----

  /** A flagged name, where it first occurs, that the project declares and the text does not import. */
  function ToRepair(lines: seq<Line>, flagged: seq<string>, fileMap: FileMap): int -> bool {
    (i: int) =>
      && 0 <= i < |flagged| && flagged[i] !in flagged[..i]
      && flagged[i] in fileMap && !Imported(lines, flagged[i])
  }

  lemma {:induction false} RepairsUpTo(lines: seq<Line>, flagged: seq<string>, fileMap: FileMap, n: nat)
    requires n <= |flagged|
    ensures Picks(Numbers(n), ToRepair(lines, flagged, fileMap), At(flagged), Repairs(lines, flagged[..n], fileMap))
  {
    hide Picks, Imported, Distinct;
    if n == 0 {
      PicksNothing(ToRepair(lines, flagged, fileMap), At(flagged));
      assert Numbers(0) == [];
    } else {
      RepairsUpTo(lines, flagged, fileMap, n - 1);
      var before := Repairs(lines, flagged[..n - 1], fileMap);
      PicksMore(Numbers(n - 1), ToRepair(lines, flagged, fileMap), At(flagged), before, n - 1);
      assert Numbers(n - 1) + [n - 1] == Numbers(n) && flagged[..n][..n - 1] == flagged[..n - 1];
      RepairsAre(lines, flagged[..n - 1], fileMap);
    }
  }

  /** The repaired text: after the last line that begins with `import` or `pragma`, one import for each name to
      repair, in the order in which they were flagged, from where the project declares it. */
  lemma RepairIs(lines: seq<Line>, flagged: seq<string>, fileMap: FileMap) returns (k: nat, names: seq<string>)
    ensures Picks(Numbers(|flagged|), ToRepair(lines, flagged, fileMap), At(flagged), names)
    ensures k <= |lines| && (k > 0 ==> Begins(lines[k - 1])) && forall i | k <= i < |lines| :: !Begins(lines[i])
    ensures forall n | n in names :: n in fileMap
    ensures var added := seq(|names|, i requires 0 <= i < |names| => Import([Plain(names[i])], fileMap[names[i]]));
            Repaired(lines, flagged, fileMap) == lines[..k] + added + lines[k..]
  {
    hide Picks, Imported;
    k, names := InsertAt(lines), Repairs(lines, flagged, fileMap);
    assert flagged[..|flagged|] == flagged;
    RepairsUpTo(lines, flagged, fileMap, |flagged|);
    RepairsAre(lines, flagged, fileMap);
    RepairablesAreDeclared(lines, fileMap);
    var added := seq(|names|, i requires 0 <= i < |names| => Import([Plain(names[i])], fileMap[names[i]]));
    assert added == ImportsOf(names, fileMap);
  }
}
