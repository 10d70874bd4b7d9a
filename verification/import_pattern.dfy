/** The imports of a text are what the pattern `import { ... } from "...";` finds in it, from left to right, white
    space and line breaks apart. */
module ImportPattern {
  import opened Wrappers
  import opened SourceLines

  // ---- the text without its line breaks ----

  /** The word `import`, or another part of the text. */
  datatype Symbol = ImportWord | Of(part: Part)

  /** Blank parts are nothing to the pattern. */
  function SymbolsOf(parts: seq<Part>): seq<Symbol> {
    if parts == [] then []
    else
      var last := parts[|parts| - 1];
      SymbolsOf(parts[..|parts| - 1]) + if last == Other([]) then [] else [Of(last)]
  }

  function SymbolsOn(line: Line): seq<Symbol> {
    match line
    case Import(names, path) => [ImportWord] + SymbolsOf(PartsOf(names, path))
    case Start(parts) => [ImportWord] + SymbolsOf(parts)
    case More(parts) => SymbolsOf(parts)
    case Header(tokens) => SymbolsOf([Other(tokens)])
    case Code(tokens) => SymbolsOf([Other(tokens)])
  }

  function TextOf(lines: seq<Line>): seq<Symbol> {
    if lines == [] then [] else TextOf(lines[..|lines| - 1]) + SymbolsOn(lines[|lines| - 1])
  }

  // ---- the pattern ----

  predicate Closes(x: Symbol) {
    x == Of(RightBrace) || (x.Of? && x.part.Other? && HasBrace(x.part.tokens))
  }

  predicate Ends(tail: seq<Symbol>) {
    && |tail| >= 3 && tail[0] == Of(From) && tail[1].Of? && tail[1].part.Source? && tail[2] == Of(Semicolon)
  }

  /** The text begins with an import: the word, a list without a closing brace in it, and the rest. */
  ghost predicate IsImport(text: seq<Symbol>, list: seq<Symbol>, path: Path, rest: seq<Symbol>) {
    && text == [ImportWord, Of(LeftBrace)] + list + [Of(RightBrace), Of(From), Of(Source(path)), Of(Semicolon)] + rest
    && forall i | 0 <= i < |list| :: !Closes(list[i])
  }

  /** The place of the first closing brace. */
  function Closing(text: seq<Symbol>): (k: nat)
    ensures k <= |text| && (k < |text| ==> Closes(text[k])) && forall i | 0 <= i < k :: !Closes(text[i])
  {
    if text == [] || Closes(text[0]) then 0 else 1 + Closing(text[1..])
  }

  /** The length of the list of an import that the text begins with. */
  function ListAt(text: seq<Symbol>): (length: Option<nat>)
    ensures length.Some? ==>
              && 6 + length.value <= |text| && Ends(text[3 + length.value..])
              && text[4 + length.value].Of? && text[4 + length.value].part.Source?
  {
    if |text| >= 2 && text[0] == ImportWord && text[1] == Of(LeftBrace) then
      var k := 2 + Closing(text[2..]);
      assert k < |text| ==> |text[k + 1..]| >= 2 ==> text[k + 1..][1] == text[k + 2];
      if k < |text| && text[k] == Of(RightBrace) && Ends(text[k + 1..]) then Some(k - 2) else None
    else None
  }

  /** It is the one that the pattern matches there. */
  lemma ListAtIs(text: seq<Symbol>, list: seq<Symbol>, path: Path, rest: seq<Symbol>)
    ensures IsImport(text, list, path, rest) <==>
            && ListAt(text) == Some(|list|)
            && list == text[2..2 + |list|] && text[4 + |list|] == Of(Source(path)) && rest == text[6 + |list|..]
  {
    hide ListAt, IsImport;
    if IsImport(text, list, path, rest) {
      ImportIsThere(text, list, path, rest);
    }
    if && ListAt(text) == Some(|list|)
       && list == text[2..2 + |list|] && text[4 + |list|] == Of(Source(path)) && rest == text[6 + |list|..] {
      ThereIsImport(text, list, path, rest);
    }
  }

  lemma ImportIsThere(text: seq<Symbol>, list: seq<Symbol>, path: Path, rest: seq<Symbol>)
    requires IsImport(text, list, path, rest)
    ensures ListAt(text) == Some(|list|)
    ensures list == text[2..2 + |list|] && text[4 + |list|] == Of(Source(path)) && rest == text[6 + |list|..]
  {
    hide Closes;
    var n, after := |list|, text[2..];
    assert after == list + [Of(RightBrace), Of(From), Of(Source(path)), Of(Semicolon)] + rest;
    assert after[n] == Of(RightBrace) && Closes(after[n]) by { BraceCloses(); }
    assert forall i | 0 <= i < n :: after[i] == list[i];
    FirstClosing(after, n);
    assert text[3 + n..][0] == text[3 + n] && text[3 + n..][1] == text[4 + n] && text[3 + n..][2] == text[5 + n];
  }

  lemma BraceCloses()
    ensures Closes(Of(RightBrace))
  {
  }

  lemma ThereIsImport(text: seq<Symbol>, list: seq<Symbol>, path: Path, rest: seq<Symbol>)
    requires && ListAt(text) == Some(|list|)
             && list == text[2..2 + |list|] && text[4 + |list|] == Of(Source(path)) && rest == text[6 + |list|..]
    ensures IsImport(text, list, path, rest)
  {
    hide Closes;
    var n, after := |list|, text[2..];
    assert Ends(text[3 + n..]);
    assert text[5 + n] == Of(Semicolon) && text[3 + n] == Of(From) && text[2 + n] == Of(RightBrace);
    forall i | 0 <= i < n ensures !Closes(list[i]) { assert after[i] == list[i]; }
    assert text[2 + n..6 + n] == [Of(RightBrace), Of(From), Of(Source(path)), Of(Semicolon)];
    assert text == text[..2] + text[2..2 + n] + text[2 + n..6 + n] + text[6 + n..];
  }

  lemma FirstClosing(text: seq<Symbol>, n: nat)
    requires n < |text| && Closes(text[n]) && forall i | 0 <= i < n :: !Closes(text[i])
    ensures Closing(text) == n
  {
    hide Closes;
  }

  function FirstComma(list: seq<Symbol>): (k: nat)
    ensures k <= |list| && (k < |list| ==> list[k] == Of(Comma)) && forall i | 0 <= i < k :: list[i] != Of(Comma)
  {
    if list == [] || list[0] == Of(Comma) then 0 else 1 + FirstComma(list[1..])
  }

  /** What stands between two commas is a name if it is an item and nothing else. */
  function NameIn(piece: seq<Symbol>): seq<Name> {
    if piece == [] then []
    else if |piece| == 1 && piece[0].Of? && piece[0].part.Item? then [piece[0].part.name]
    else [Piece]
  }

  function NamesIn(list: seq<Symbol>): seq<Name> {
    var k := FirstComma(list);
    NameIn(list[..k]) + if k < |list| then NamesIn(list[k + 1..]) else []
  }

  /** The matches of the pattern, from left to right, none of which overlaps another. */
  function FindAll(text: seq<Symbol>): seq<ImportList>
    decreases |text|
  {
    if text == [] then []
    else
      match ListAt(text)
      case None => FindAll(text[1..])
      case Some(n) => [FoundAt(text, n)] + FindAll(text[6 + n..])
  }

  function FoundAt(text: seq<Symbol>, n: nat): ImportList
    requires 4 + n < |text| && text[4 + n].Of? && text[4 + n].part.Source?
  {
    ImportList(NamesIn(text[2..2 + n]), text[4 + n].part.path)
  }

  // ---- the reader, over the text ----

  function ReadSymbol(r: Reader, x: Symbol): Reader {
    match x
    case ImportWord => ReadKeyword(r)
    case Of(part) => ReadPart(r, part)
  }

  function ReadSymbols(r: Reader, text: seq<Symbol>): Reader
    decreases |text|
  {
    if text == [] then r else ReadSymbols(ReadSymbol(r, text[0]), text[1..])
  }

  lemma {:induction false} SymbolsJoin(r: Reader, a: seq<Symbol>, b: seq<Symbol>)
    ensures ReadSymbols(r, a + b) == ReadSymbols(ReadSymbols(r, a), b)
    decreases |a|
  {
    hide ReadSymbol;
    if a == [] {
      assert a + b == b;
    } else {
      SymbolsJoin(ReadSymbol(r, a[0]), a[1..], b);
      assert (a + b)[1..] == a[1..] + b;
    }
  }

  lemma ReadOneSymbol(r: Reader, x: Symbol)
    ensures ReadSymbols(r, [x]) == ReadSymbol(r, x)
  {
    hide ReadSymbol;
    assert [x][1..] == [];
    assert ReadSymbols(ReadSymbol(r, x), []) == ReadSymbol(r, x);
  }

  lemma {:induction false} PartsAreSymbols(r: Reader, parts: seq<Part>)
    ensures ReadParts(r, parts) == ReadSymbols(r, SymbolsOf(parts))
  {
    hide ReadPart, ReadSymbols;
    if parts == [] {
      NoSymbols(r);
    } else {
      var init, last := parts[..|parts| - 1], parts[|parts| - 1];
      PartsAreSymbols(r, init);
      if last == Other([]) {
        BlankIsNothing(ReadParts(r, init));
        assert SymbolsOf(parts) == SymbolsOf(init);
      } else {
        SymbolsJoin(r, SymbolsOf(init), [Of(last)]);
        ReadOneSymbol(ReadParts(r, init), Of(last));
      }
    }
  }

  lemma NoSymbols(r: Reader)
    ensures ReadSymbols(r, []) == r
  {
  }

  lemma BlankIsNothing(r: Reader)
    ensures ReadPart(r, Other([])) == r
  {
  }

  lemma LineIsSymbols(r: Reader, line: Line)
    ensures ReadLine(r, line) == ReadSymbols(r, SymbolsOn(line))
  {
    hide ReadParts, ReadSymbols, SymbolsOf, ReadText, Swallowed, PartsOf;
    match line
    case Import(names, path) =>
      ImportIsItsParts(r, names, path);
      StartIsSymbols(r, PartsOf(names, path));
    case Start(parts) => StartIsSymbols(r, parts);
    case More(parts) => PartsAreSymbols(r, parts);
    case Header(tokens) => TextIsSymbols(r, tokens);
    case Code(tokens) => TextIsSymbols(r, tokens);
  }

  lemma StartIsSymbols(r: Reader, parts: seq<Part>)
    ensures ReadParts(ReadKeyword(r), parts) == ReadSymbols(r, [ImportWord] + SymbolsOf(parts))
  {
    hide ReadParts, ReadSymbols, ReadKeyword, ReadPart;
    SymbolsJoin(r, [ImportWord], SymbolsOf(parts));
    ReadOneSymbol(r, ImportWord);
    PartsAreSymbols(ReadKeyword(r), parts);
  }

  lemma TextIsSymbols(r: Reader, tokens: seq<Token>)
    ensures ReadText(r, tokens) == ReadSymbols(r, SymbolsOf([Other(tokens)]))
  {
    hide ReadParts, ReadSymbols;
    PartsAreSymbols(r, [Other(tokens)]);
    ReadOnePart(r, Other(tokens));
  }

  lemma {:induction false} LinesAreSymbols(r: Reader, lines: seq<Line>)
    ensures ReadFrom(r, lines) == ReadSymbols(r, TextOf(lines))
  {
    hide ReadLine, ReadSymbols, SymbolsOn;
    if lines == [] {
      NoSymbols(r);
    } else {
      var init, last := lines[..|lines| - 1], lines[|lines| - 1];
      LinesAreSymbols(r, init);
      LineIsSymbols(ReadFrom(r, init), last);
      SymbolsJoin(r, TextOf(init), SymbolsOn(last));
    }
  }

  // ---- the reader finds what the pattern finds ----

  /** What is said of an item at hand when another part of the text is read. */
  function ItemWith(item: Option<Name>, x: Symbol): Name {
    if item.None? && x.Of? && x.part.Item? then x.part.name else Piece
  }

  /** The names of the rest of a list, its item at hand being `item`. */
  function NamesOn(item: Option<Name>, list: seq<Symbol>): seq<Name>
    decreases |list|
  {
    if list == [] then Ended([], item)
    else if list[0] == Of(Comma) then Ended([], item) + NamesOn(None, list[1..])
    else NamesOn(Some(ItemWith(item, list[0])), list[1..])
  }

  function PieceOn(item: Option<Name>, piece: seq<Symbol>): seq<Name> {
    if item.None? then NameIn(piece) else if piece == [] then [item.value] else [Piece]
  }

  lemma {:induction false} NamesOnAre(item: Option<Name>, list: seq<Symbol>)
    ensures var k := FirstComma(list);
            NamesOn(item, list) == PieceOn(item, list[..k]) + if k < |list| then NamesIn(list[k + 1..]) else []
    decreases |list|
  {
    hide PieceOn, NamesIn, ItemWith, NameIn;
    if list == [] {
      assert NamesOn(item, []) == PieceOn(item, []) by { NothingOn(item); }
    } else if list[0] == Of(Comma) {
      NamesOnAre(None, list[1..]);
      NamesInAre(list[1..]);
      NothingOn(item);
      assert list[..0] == [];
    } else {
      NamesOnAre(Some(ItemWith(item, list[0])), list[1..]);
      var k := FirstComma(list[1..]);
      assert FirstComma(list) == k + 1 && list[1..][k..] == list[k + 1..];
      OneSymbolOn(item, list[0], list[1..][..k]);
      assert [list[0]] + list[1..][..k] == list[..k + 1];
      if k < |list[1..]| {
        assert list[1..][k + 1..] == list[k + 2..];
      }
    }
  }

  lemma NothingOn(item: Option<Name>)
    ensures NamesOn(item, []) == Ended([], item) == PieceOn(item, [])
  {
  }

  lemma OneSymbolOn(item: Option<Name>, x: Symbol, rest: seq<Symbol>)
    ensures PieceOn(Some(ItemWith(item, x)), rest) == PieceOn(item, [x] + rest)
  {
  }

  lemma NamesInAre(list: seq<Symbol>)
    ensures var k := FirstComma(list);
            NamesIn(list) == PieceOn(None, list[..k]) + if k < |list| then NamesIn(list[k + 1..]) else []
  {
  }

  // ---- an unfinished import goes on as the pattern says ----

  function AfterPath(names: seq<Name>, path: Path, text: seq<Symbol>): seq<ImportList> {
    if text != [] && text[0] == Of(Semicolon) then [ImportList(names, path)] + FindAll(text[1..]) else FindAll(text)
  }

  function AfterFrom(names: seq<Name>, text: seq<Symbol>): seq<ImportList> {
    if text != [] && text[0].Of? && text[0].part.Source? then AfterPath(names, text[0].part.path, text[1..])
    else FindAll(text)
  }

  function AfterList(names: seq<Name>, text: seq<Symbol>): seq<ImportList> {
    if text != [] && text[0] == Of(From) then AfterFrom(names, text[1..]) else FindAll(text)
  }

  function InList(names: seq<Name>, item: Option<Name>, text: seq<Symbol>): seq<ImportList> {
    var k := Closing(text);
    if k == |text| then []
    else if text[k] == Of(RightBrace) then AfterList(names + NamesOn(item, text[..k]), text[k + 1..])
    else FindAll(text[k + 1..])
  }

  function AfterWord(text: seq<Symbol>): seq<ImportList> {
    if text != [] && text[0] == Of(LeftBrace) then InList([], None, text[1..]) else FindAll(text)
  }

  /** The lists that the rest of the text makes of an unfinished import and holds itself. */
  function GoingOn(stage: Stage, text: seq<Symbol>): seq<ImportList> {
    match stage
    case Outside => FindAll(text)
    case Keyword => AfterWord(text)
    case InList(names, item) => InList(names, item, text)
    case Closed(names) => AfterList(names, text)
    case Sourced(names) => AfterFrom(names, text)
    case Pathed(names, path) => AfterPath(names, path, text)
  }

  lemma NotThere(text: seq<Symbol>)
    requires text != [] && ListAt(text) == None
    ensures FindAll(text) == FindAll(text[1..])
  {
  }

  /** A tail that is no end of an import is looked through for others. */
  lemma AfterListIs(names: seq<Name>, text: seq<Symbol>)
    ensures AfterList(names, text) ==
            if Ends(text) then [ImportList(names, text[1].part.path)] + FindAll(text[3..]) else FindAll(text)
  {
    hide ListAt;
    if text != [] && text[0] == Of(From) {
      SkipsOther(text);
      if |text| > 1 && text[1].Of? && text[1].part.Source? {
        SkipsOther(text[1..]);
        assert text[1..][1..] == text[2..];
        if Ends(text) {
          assert text[2..][1..] == text[3..];
        }
      }
    }
  }

  lemma SkipsOther(text: seq<Symbol>)
    requires text != [] && text[0] != ImportWord
    ensures FindAll(text) == FindAll(text[1..])
  {
  }

  /** Up to the first closing brace there is nothing to find if what comes after it is no end of an import. */
  lemma {:induction false} NothingBefore(text: seq<Symbol>)
    requires var k := Closing(text);
             k < |text| && text[k] == Of(RightBrace) ==> !Ends(text[k + 1..])
    ensures var k := Closing(text);
            FindAll(text) == if k == |text| then [] else FindAll(text[k + 1..])
    decreases |text|
  {
    hide Ends, NamesIn;
    var k := Closing(text);
    if text == [] {
    } else if k == 0 {
      SkipsOther(text);
    } else {
      assert Closing(text[1..]) == k - 1;
      if k < |text| {
        assert text[1..][k - 1 + 1..] == text[k + 1..] && text[1..][k - 1] == text[k];
      }
      NoListHere(text);
      NotThere(text);
      NothingBefore(text[1..]);
    }
  }

  lemma NoListHere(text: seq<Symbol>)
    requires var k := Closing(text);
             0 < k && (k < |text| && text[k] == Of(RightBrace) ==> !Ends(text[k + 1..]))
    ensures ListAt(text) == None
  {
    hide Ends;
    var k := Closing(text);
    if ListAt(text).Some? {
      FirstClosing(text, 2 + ListAt(text).value);
    }
  }

  /** After the word `import` the text goes on as it is read with the word. */
  lemma AfterWordIs(text: seq<Symbol>)
    ensures AfterWord(text) == FindAll([ImportWord] + text)
  {
    hide Ends, NamesIn, Closes, FindAll, Closing, ListAt, AfterList;
    var all := [ImportWord] + text;
    assert all[1..] == text;
    if text != [] && text[0] == Of(LeftBrace) {
      var rest := text[1..];
      var k := Closing(rest);
      assert all[2..] == rest;
      ListThere(all);
      if k < |rest| && rest[k] == Of(RightBrace) && Ends(rest[k + 1..]) {
        FoundThere(all, k);
        AfterListIs(NamesIn(rest[..k]), rest[k + 1..]);
        NamesOnAll(rest[..k]);
        assert [] + NamesIn(rest[..k]) == NamesIn(rest[..k]);
        assert all[2..2 + k] == rest[..k] && all[6 + k..] == rest[k + 1..][3..] && all[4 + k] == rest[k + 1..][1];
      } else {
        NotThere(all);
        SkipsOther(text);
        NothingBefore(rest);
        if k < |rest| && rest[k] == Of(RightBrace) {
          AfterListIs([] + NamesOn(None, rest[..k]), rest[k + 1..]);
        }
      }
    } else {
      ListThere(all);
      NotThere(all);
    }
  }

  lemma NamesOnAll(list: seq<Symbol>)
    ensures NamesOn(None, list) == NamesIn(list)
  {
    NamesOnAre(None, list);
    NamesInAre(list);
  }

  lemma ListThere(text: seq<Symbol>)
    requires text != []
    ensures ListAt(text) ==
            if |text| >= 2 && text[0] == ImportWord && text[1] == Of(LeftBrace) then
              var rest := text[2..];
              var k := Closing(rest);
              if k < |rest| && rest[k] == Of(RightBrace) && Ends(rest[k + 1..]) then Some(k) else None
            else None
  {
    hide Ends, Closes;
    if |text| >= 2 {
      var k := Closing(text[2..]);
      if k < |text[2..]| {
        assert text[2..][k] == text[2 + k] && text[2..][k + 1..] == text[3 + k..];
      }
    }
  }

  lemma FoundThere(text: seq<Symbol>, n: nat)
    requires ListAt(text) == Some(n)
    ensures FindAll(text) == [FoundAt(text, n)] + FindAll(text[6 + n..])
  {
    hide FoundAt, ListAt, Ends;
  }

  /** In a list, one more part of the text. */
  lemma ListGoesOn(r: Reader, x: Symbol, rest: seq<Symbol>)
    requires r.stage.InList? && x != Of(Other([]))
    ensures var q := ReadSymbol(r, x);
            q.lists == r.lists && GoingOn(q.stage, rest) == InList(r.stage.names, r.stage.item, [x] + rest)
  {
    hide HasBrace, FindAll, AfterList;
    var text := [x] + rest;
    assert text[1..] == rest;
    if Closes(x) {
      assert Closing(text) == 0 && text[..0] == [] && text[0 + 1..] == rest;
      NothingOn(r.stage.item);
      assert Ended(r.stage.names, r.stage.item) == r.stage.names + Ended([], r.stage.item);
    } else {
      var k := Closing(rest);
      assert Closing(text) == k + 1;
      assert text[..k + 1] == [x] + rest[..k];
      if k < |rest| {
        assert text[k + 2..] == rest[k + 1..] && text[k + 1] == rest[k];
      }
      ListNames(r.stage.names, r.stage.item, x, rest[..k]);
    }
  }

  lemma ListNames(names: seq<Name>, item: Option<Name>, x: Symbol, list: seq<Symbol>)
    ensures names + NamesOn(item, [x] + list) ==
            if x == Of(Comma) then Ended(names, item) + NamesOn(None, list)
            else names + NamesOn(Some(ItemWith(item, x)), list)
  {
    assert ([x] + list)[1..] == list;
  }

  /** One more part of the text, wherever an import has got to. */
  lemma TextGoesOn(r: Reader, x: Symbol, rest: seq<Symbol>)
    requires x != Of(Other([]))
    ensures var q := ReadSymbol(r, x);
            q.lists + GoingOn(q.stage, rest) == r.lists + GoingOn(r.stage, [x] + rest)
  {
    hide InList, HasBrace, FindAll, Ends;
    var text := [x] + rest;
    assert text[1..] == rest && text[0] == x;
    if r.stage.InList? {
      ListGoesOn(r, x, rest);
    } else {
      if x == ImportWord {
        AfterWordIs(rest);
      } else {
        SkipsOther(text);
      }
    }
  }

  lemma {:induction false} ReaderFinds(r: Reader, text: seq<Symbol>)
    requires Of(Other([])) !in text
    ensures ReadSymbols(r, text).lists == r.lists + GoingOn(r.stage, text)
    decreases |text|
  {
    hide ReadSymbol, GoingOn;
    if text == [] {
      NothingGoesOn(r.stage);
    } else {
      TextGoesOn(r, text[0], text[1..]);
      assert [text[0]] + text[1..] == text;
      ReaderFinds(ReadSymbol(r, text[0]), text[1..]);
    }
  }

  lemma NothingGoesOn(stage: Stage)
    ensures GoingOn(stage, []) == []
  {
  }

  lemma {:induction false} NoBlanksIn(parts: seq<Part>)
    ensures Of(Other([])) !in SymbolsOf(parts)
  {
    if parts != [] {
      NoBlanksIn(parts[..|parts| - 1]);
    }
  }

  lemma {:induction false} NoBlanks(lines: seq<Line>)
    ensures Of(Other([])) !in TextOf(lines)
  {
    hide SymbolsOf;
    if lines != [] {
      NoBlanks(lines[..|lines| - 1]);
      match lines[|lines| - 1]
      case Import(names, path) => NoBlanksIn(PartsOf(names, path));
      case Start(parts) => NoBlanksIn(parts);
      case More(parts) => NoBlanksIn(parts);
      case Header(tokens) => NoBlanksIn([Other(tokens)]);
      case Code(tokens) => NoBlanksIn([Other(tokens)]);
    }
  }

  /** What is read of a text are the matches of the pattern in it. */
  lemma ReadIsFound(lines: seq<Line>)
    ensures Read(lines).lists == FindAll(TextOf(lines))
    ensures forall name :: Imported(lines, name) <==> exists l | l in FindAll(TextOf(lines)) :: Plain(name) in l.names
  {
    hide ReadSymbols, ReadFrom, TextOf, FindAll;
    LinesAreSymbols(UNREAD, lines);
    NoBlanks(lines);
    ReaderFinds(UNREAD, TextOf(lines));
    var lists := FindAll(TextOf(lines));
    assert [] + lists == lists;
    forall name ensures Listed(lists, name) <==> exists l | l in lists :: Plain(name) in l.names {
      if l :| l in lists && Plain(name) in l.names {
        var i :| 0 <= i < |lists| && lists[i] == l;
      }
    }
  }
}
