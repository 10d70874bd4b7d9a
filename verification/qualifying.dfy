/** The rewriting that puts its container before every bare use of a nested type. */
module Qualifying {
  import opened SourceLines
  import opened Wrappers

  // ---- qualifying ----

  /** Puts its container before every bare use of a nested type: a word that no dot precedes. */
  function Qualify(tokens: seq<Token>, containers: map<string, string>): seq<Token> {
    if tokens == [] then []
    else
      var n := |tokens| - 1;
      Qualify(tokens[..n], containers) + QualifyOne(tokens[n], n > 0 && tokens[n - 1] == Dot, containers)
  }

  function QualifyOne(t: Token, afterDot: bool, containers: map<string, string>): seq<Token> {
    if t.Word? && t.word in containers && !afterDot then [Word(containers[t.word]), Dot, t] else [t]
  }

  predicate EndsInDot(tokens: seq<Token>) {
    tokens != [] && tokens[|tokens| - 1] == Dot
  }

  lemma QualifyStep(tokens: seq<Token>, t: Token, containers: map<string, string>)
    ensures Qualify(tokens + [t], containers)
         == Qualify(tokens, containers) + QualifyOne(t, EndsInDot(tokens), containers)
  {
    assert (tokens + [t])[..|tokens|] == tokens;
  }

  lemma QualifyEnd(tokens: seq<Token>, containers: map<string, string>)
    ensures EndsInDot(Qualify(tokens, containers)) <==> EndsInDot(tokens)
  {
  }

  /** No container is itself one of the names. */
  predicate Separate(containers: map<string, string>) {
    forall n | n in containers :: containers[n] !in containers
  }

  /** No bare use of the names is left. */
  predicate NoBareUse(tokens: seq<Token>, names: set<string>) {
    forall i | 0 <= i < |tokens| && tokens[i].Word? && tokens[i].word in names :: i > 0 && tokens[i - 1] == Dot
  }

  lemma NoBareUseStep(tokens: seq<Token>, t: Token, containers: map<string, string>)
    requires Separate(containers) && NoBareUse(tokens, containers.Keys)
    ensures NoBareUse(tokens + QualifyOne(t, EndsInDot(tokens), containers), containers.Keys)
  {
    var all := tokens + QualifyOne(t, EndsInDot(tokens), containers);
    forall i | 0 <= i < |all| && all[i].Word? && all[i].word in containers.Keys ensures i > 0 && all[i - 1] == Dot {
      if i < |tokens| {
        assert all[i] == tokens[i];
      }
    }
  }

  lemma {:induction false} QualifiedHasNoBareUse(tokens: seq<Token>, containers: map<string, string>)
    requires Separate(containers)
    ensures NoBareUse(Qualify(tokens, containers), containers.Keys)
  {
    hide NoBareUse, QualifyOne, Qualify;
    if tokens == [] {
      NothingIsBare(containers);
    } else {
      var init, t := tokens[..|tokens| - 1], tokens[|tokens| - 1];
      QualifiedHasNoBareUse(init, containers);
      QualifyEnd(init, containers);
      QualifyStep(init, t, containers);
      assert tokens == init + [t];
      NoBareUseStep(Qualify(init, containers), t, containers);
    }
  }

  lemma NothingIsBare(containers: map<string, string>)
    ensures Qualify([], containers) == [] && NoBareUse([], containers.Keys)
  {
  }

  /** Without bare uses there is nothing to qualify. */
  lemma {:induction false} QualifyNothing(tokens: seq<Token>, containers: map<string, string>)
    requires NoBareUse(tokens, containers.Keys)
    ensures Qualify(tokens, containers) == tokens
  {
    if tokens == [] {
    } else {
      var n := |tokens| - 1;
      QualifyNothing(tokens[..n], containers);
      assert tokens == tokens[..n] + [tokens[n]];
    }
  }

  lemma QualifyOneTwice(done: seq<Token>, t: Token, containers: map<string, string>, name: string, container: string)
    requires name !in containers && Separate(containers[name := container])
    ensures Qualify(done + QualifyOne(t, EndsInDot(done), containers), map[name := container]) ==
            Qualify(done, map[name := container]) + QualifyOne(t, EndsInDot(done), containers[name := container])
  {
    hide Qualify;
    var m := map[name := container];
    QualifyStep(done, t, m);
    if t.Word? && t.word in containers && !EndsInDot(done) {
      var c := Word(containers[t.word]);
      assert containers[t.word] == containers[name := container][t.word] != name;
      QualifyStep(done, c, m);
      QualifyStep(done + [c], Dot, m);
      QualifyStep(done + [c] + [Dot], t, m);
      assert done + [c, Dot, t] == done + [c] + [Dot] + [t];
      assert Qualify(done, m) + [c, Dot, t] == Qualify(done, m) + [c] + [Dot] + [t];
    }
  }

  /** Qualifying name by name comes to the same as qualifying all at once. */
  lemma {:induction false} QualifyOneMore(tokens: seq<Token>, containers: map<string, string>, name: string,
                                          container: string)
    requires name !in containers && Separate(containers[name := container])
    ensures Qualify(Qualify(tokens, containers), map[name := container])
         == Qualify(tokens, containers[name := container])
  {
    hide Qualify, QualifyOne, Separate;
    if tokens == [] {
      NothingIsBare(containers);
      NothingIsBare(map[name := container]);
      NothingIsBare(containers[name := container]);
    } else {
      var init, t := tokens[..|tokens| - 1], tokens[|tokens| - 1];
      QualifyOneMore(init, containers, name, container);
      assert tokens == init + [t];
      QualifyStep(init, t, containers);
      QualifyStep(init, t, containers[name := container]);
      QualifyEnd(init, containers);
      QualifyOneTwice(Qualify(init, containers), t, containers, name, container);
    }
  }

  lemma {:induction false} QualifyGrows(tokens: seq<Token>, containers: map<string, string>)
    ensures |Qualify(tokens, containers)| >= |tokens|
    ensures |Qualify(tokens, containers)| == |tokens| <==> NoBareUse(tokens, containers.Keys)
  {
    hide NoBareUse, Qualify, QualifyOne;
    if tokens == [] {
      NothingIsBare(containers);
    } else {
      var init, t := tokens[..|tokens| - 1], tokens[|tokens| - 1];
      QualifyGrows(init, containers);
      assert tokens == init + [t];
      QualifyStep(init, t, containers);
      BareOneMore(init, t, containers);
    }
  }

  lemma BareOneMore(tokens: seq<Token>, t: Token, containers: map<string, string>)
    ensures NoBareUse(tokens + [t], containers.Keys) <==>
              NoBareUse(tokens, containers.Keys) && |QualifyOne(t, EndsInDot(tokens), containers)| == 1
    ensures |QualifyOne(t, EndsInDot(tokens), containers)| >= 1
  {
    var all := tokens + [t];
    assert forall i | 0 <= i < |tokens| :: all[i] == tokens[i];
    assert all[|tokens|] == t;
  }

  // ---- lines ----

  function QualifyWord(name: string, containers: map<string, string>): string {
    if name in containers then containers[name] + "." + name else name
  }

  function QualifyName(n: Name, containers: map<string, string>): Name {
    match n
    case Plain(name) => Plain(QualifyWord(name, containers))
    case Aliased(name, alias) => Aliased(QualifyWord(name, containers), QualifyWord(alias, containers))
    case Piece => n
  }

  function QualifyNames(names: seq<Name>, containers: map<string, string>): seq<Name> {
    seq(|names|, i requires 0 <= i < |names| => QualifyName(names[i], containers))
  }

  function QualifyPath(path: Path, containers: map<string, string>): Path {
    path.(tokens := Qualify(path.tokens, containers))
  }

  function QualifyPart(part: Part, containers: map<string, string>): Part {
    match part
    case Item(n) => Item(QualifyName(n, containers))
    case Source(path) => Source(QualifyPath(path, containers))
    case Other(tokens) => Other(Qualify(tokens, containers))
    case _ => part
  }

  function QualifyParts(parts: seq<Part>, containers: map<string, string>): seq<Part> {
    seq(|parts|, i requires 0 <= i < |parts| => QualifyPart(parts[i], containers))
  }

  /** The rewriting looks at every word of every line, those of import lines included. */
  function QualifyLine(line: Line, containers: map<string, string>): Line {
    match line
    case Import(names, path) => Import(QualifyNames(names, containers), QualifyPath(path, containers))
    case Start(parts) => Start(QualifyParts(parts, containers))
    case More(parts) => More(QualifyParts(parts, containers))
    case Header(tokens) => Header(Qualify(tokens, containers))
    case Code(tokens) => Code(Qualify(tokens, containers))
  }

  function QualifyLines(lines: seq<Line>, containers: map<string, string>): seq<Line> {
    seq(|lines|, i requires 0 <= i < |lines| => QualifyLine(lines[i], containers))
  }

  /** The list items of a line. */
  function NamesOn(line: Line): set<Name> {
    match line
    case Import(names, _) => set n | n in names
    case Start(parts) => set part | part in parts && part.Item? :: part.name
    case More(parts) => set part | part in parts && part.Item? :: part.name
    case _ => {}
  }

  /** The path and the other text on a line. */
  function TextsOn(line: Line): set<seq<Token>> {
    match line
    case Import(_, path) => {path.tokens}
    case Start(parts) => TextsIn(parts)
    case More(parts) => TextsIn(parts)
    case Header(tokens) => {tokens}
    case Code(tokens) => {tokens}
  }

  function TextsIn(parts: seq<Part>): set<seq<Token>> {
    (set part | part in parts && part.Source? :: part.path.tokens)
    + set part | part in parts && part.Other? :: part.tokens
  }

  predicate Identifier(name: string) {
    '.' !in name
  }

  lemma QualifyWordOneMore(w: string, containers: map<string, string>, name: string, container: string)
    requires name !in containers && Identifier(name)
    ensures QualifyWord(QualifyWord(w, containers), map[name := container])
         == QualifyWord(w, containers[name := container])
  {
    if w in containers {
      var q := containers[w] + "." + w;
      assert q[|containers[w]|] == '.';
    }
  }

  lemma QualifyNamesOneMore(names: seq<Name>, containers: map<string, string>, name: string, container: string)
    requires name !in containers && Identifier(name)
    ensures QualifyNames(QualifyNames(names, containers), map[name := container])
         == QualifyNames(names, containers[name := container])
  {
    hide QualifyWord, Identifier;
    forall w { QualifyWordOneMore(w, containers, name, container); }
  }

  lemma QualifyPartsOneMore(parts: seq<Part>, containers: map<string, string>, name: string, container: string)
    requires name !in containers && Identifier(name) && Separate(containers[name := container])
    ensures QualifyParts(QualifyParts(parts, containers), map[name := container])
         == QualifyParts(parts, containers[name := container])
  {
    hide QualifyPart, Separate, Identifier;
    forall i | 0 <= i < |parts|
      ensures QualifyPart(QualifyPart(parts[i], containers), map[name := container])
           == QualifyPart(parts[i], containers[name := container])
    {
      QualifyPartOneMore(parts[i], containers, name, container);
    }
  }

  lemma QualifyPartOneMore(part: Part, containers: map<string, string>, name: string, container: string)
    requires name !in containers && Identifier(name) && Separate(containers[name := container])
    ensures QualifyPart(QualifyPart(part, containers), map[name := container])
         == QualifyPart(part, containers[name := container])
  {
    hide Qualify, QualifyWord, Separate, Identifier;
    match part
    case Item(n) => forall w { QualifyWordOneMore(w, containers, name, container); }
    case Source(path) => QualifyOneMore(path.tokens, containers, name, container);
    case Other(tokens) => QualifyOneMore(tokens, containers, name, container);
    case _ =>
  }

  lemma QualifyLineOneMore(line: Line, containers: map<string, string>, name: string, container: string)
    requires name !in containers && Identifier(name) && Separate(containers[name := container])
    ensures QualifyLine(QualifyLine(line, containers), map[name := container])
         == QualifyLine(line, containers[name := container])
  {
    hide Qualify, QualifyNames, QualifyParts, Separate, Identifier;
    match line
    case Import(names, path) =>
      QualifyNamesOneMore(names, containers, name, container);
      QualifyOneMore(path.tokens, containers, name, container);
    case Start(parts) => QualifyPartsOneMore(parts, containers, name, container);
    case More(parts) => QualifyPartsOneMore(parts, containers, name, container);
    case Header(tokens) => QualifyOneMore(tokens, containers, name, container);
    case Code(tokens) => QualifyOneMore(tokens, containers, name, container);
  }

  lemma QualifyLinesOneMore(lines: seq<Line>, containers: map<string, string>, name: string, container: string)
    requires name !in containers && Identifier(name) && Separate(containers[name := container])
    ensures QualifyLines(QualifyLines(lines, containers), map[name := container])
         == QualifyLines(lines, containers[name := container])
  {
    hide QualifyLine, Separate, Identifier;
    forall i | 0 <= i < |lines| { QualifyLineOneMore(lines[i], containers, name, container); }
  }

  lemma QualifyLinesByNothing(lines: seq<Line>)
    ensures QualifyLines(lines, map[]) == lines
  {
    hide Qualify;
    forall tokens { QualifyNothing(tokens, map[]); }
    forall i | 0 <= i < |lines| ensures QualifyLine(lines[i], map[]) == lines[i] {
      assert lines[i].Import? ==> QualifyNames(lines[i].names, map[]) == lines[i].names;
      assert lines[i].Start? || lines[i].More? ==> QualifyParts(lines[i].parts, map[]) == lines[i].parts;
    }
  }

  /** The rewriting of one name after the other. */
  function QualifyInTurn(lines: seq<Line>, order: seq<string>, containers: map<string, string>): seq<Line>
    requires forall n | n in order :: n in containers
  {
    if order == [] then lines
    else
      var last := order[|order| - 1];
      QualifyLines(QualifyInTurn(lines, order[..|order| - 1], containers), map[last := containers[last]])
  }

  /** Rewriting name by name comes to the same as qualifying all names at once. */
  lemma {:induction false} QualifyInTurnIsAtOnce(lines: seq<Line>, order: seq<string>, containers: map<string, string>)
    requires Distinct(order) && (forall n | n in order :: n in containers && Identifier(n)) && Separate(containers)
    ensures QualifyInTurn(lines, order, containers) == QualifyLines(lines, Restricted(containers, order))
  {
    hide QualifyLines, Distinct, Identifier, Separate;
    if order == [] {
      QualifyLinesByNothing(lines);
      assert Restricted(containers, order) == map[];
    } else {
      var init, last := order[..|order| - 1], order[|order| - 1];
      NotSeenBefore(order, |order| - 1);
      assert order[..|order|] == order;
      DistinctPart(order, |order| - 1);
      QualifyInTurnIsAtOnce(lines, init, containers);
      RestrictedSeparate(containers, order);
      assert Restricted(containers, order) == Restricted(containers, init)[last := containers[last]];
      QualifyLinesOneMore(lines, Restricted(containers, init), last, containers[last]);
    }
  }

  lemma DistinctPart(order: seq<string>, n: nat)
    requires Distinct(order) && n <= |order|
    ensures Distinct(order[..n])
  {
  }

  function Restricted(containers: map<string, string>, order: seq<string>): map<string, string>
    requires forall n | n in order :: n in containers
  {
    map n | n in order :: containers[n]
  }

  lemma RestrictedSeparate(containers: map<string, string>, order: seq<string>)
    requires (forall n | n in order :: n in containers) && Separate(containers)
    ensures Separate(Restricted(containers, order))
  {
  }
}
