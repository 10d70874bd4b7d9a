/** Looking symbols up by name, and the bounded round trips in which a model asks for them. */
module SymbolLookup {
  import opened Segments
  import opened Wrappers

  /** `contract` is empty for a top-level declaration. */
  datatype Symbol = Symbol(name: string, kind: string, contract: string, definition: string)

  type Symbols = map<string, seq<Symbol>>

  function Get(symbols: Symbols, name: string): seq<Symbol> {
    if name in symbols then symbols[name] else []
  }

  /** The symbols of that very name, if there are any; otherwise those of what follows the last dot of the name, if
      it has one. */
  lemma LookupIs(symbols: Symbols, name: string, bare: string)
    ensures name in symbols && symbols[name] != [] ==> Lookup(symbols, name) == symbols[name]
    ensures (name !in symbols || symbols[name] == []) && '.' !in name ==> Lookup(symbols, name) == []
    ensures (name !in symbols || symbols[name] == []) && '.' in name && IsLast(name, '.', bare) ==>
              Lookup(symbols, name) == if bare in symbols then symbols[bare] else []
  {
    hide IsLast;
    LastDotIs(name);
    if '.' in name && IsLast(name, '.', bare) {
      OnlyOneLast(name, '.', bare, AfterLastDot(name).value);
    }
  }

  lemma {:induction false} LastDotIs(s: string)
    ensures AfterLastDot(s).Some? <==> '.' in s
    ensures AfterLastDot(s).Some? ==> IsLast(s, '.', AfterLastDot(s).value)
  {
    if s != "" {
      LastDotIs(s[1..]);
      if AfterLastDot(s[1..]).Some? {
        var r := AfterLastDot(s[1..]).value;
        var front :| s[1..] == front + "." + r;
        assert s == ([s[0]] + front) + "." + r;
      } else if s[0] == '.' {
        assert s == "" + "." + s[1..];
      }
    }
  }

  /** `s.rsplit(".", 1)[-1]` when there is a dot. */
  function AfterLastDot(s: string): Option<string> {
    if s == "" then None
    else
      var rest := AfterLastDot(s[1..]);
      if rest.Some? then rest else if s[0] == '.' then Some(s[1..]) else None
  }

  /** All symbols of that name; failing those, of the last part of a qualified name. */
  function Lookup(symbols: Symbols, name: string): seq<Symbol> {
    var matches := Get(symbols, name);
    var bare := AfterLastDot(name);
    if matches == [] && bare.Some? then Get(symbols, bare.value) else matches
  }

  predicate IsType(s: Symbol) {
    s.kind == "struct" || s.kind == "enum"
  }

  /** The contract that a struct or enum of that name is declared in, when there is exactly one and no
      declaration at top level. */
  method NestedContainer(symbols: Symbols, name: string) returns (c: Option<string>)
    ensures c == Container(symbols, name)
  {
    hide Lookup;
    ContainerIs(symbols, name);
    var types: seq<Symbol> := [];
    var found := Lookup(symbols, name);
    for i := 0 to |found|
      invariant forall s :: s in types <==> s in found[..i] && IsType(s)
    {
      assert found[..i + 1] == found[..i] + [found[i]];
      if IsType(found[i]) {
        types := types + [found[i]];
      }
    }
    assert found[..|found|] == found;
    if types == [] {
      assert forall s | s in found :: !IsType(s) by {
        forall s | s in found ensures !IsType(s) { assert s in types <==> IsType(s); }
      }
      return None;
    }
    assert types[0] in types;
    if exists s | s in types :: s.contract == "" {
      return None;
    }
    if forall s | s in types :: s.contract == types[0].contract {
      return Some(types[0].contract);
    }
    return None;
  }

  /** `c` is the one place where types of that name are declared. */
  ghost predicate DeclaredOnlyIn(symbols: Symbols, name: string, c: string) {
    && c != "" && (exists s | s in Lookup(symbols, name) :: IsType(s))
    && forall s | s in Lookup(symbols, name) :: IsType(s) ==> s.contract == c
  }

  ghost function Container(symbols: Symbols, name: string): Option<string> {
    if d :| DeclaredOnlyIn(symbols, name, d) then Some(d) else None
  }

  lemma ContainerIs(symbols: Symbols, name: string)
    ensures forall c :: Container(symbols, name) == Some(c) <==> DeclaredOnlyIn(symbols, name, c)
    ensures forall c :: Container(symbols, name) == Some(c) <==>
              && c != "" && (exists s | s in Lookup(symbols, name) :: s.kind in {"struct", "enum"})
              && forall s | s in Lookup(symbols, name) && s.kind in {"struct", "enum"} :: s.contract == c
  {
    forall s: Symbol ensures IsType(s) <==> s.kind in {"struct", "enum"} { }
    forall c, d | DeclaredOnlyIn(symbols, name, c) && DeclaredOnlyIn(symbols, name, d) ensures c == d {
      var s :| s in Lookup(symbols, name) && IsType(s);
    }
  }

  // ---- the round trips ----

  /** A request that was answered. */
  datatype Answer = Answer(name: string, matches: seq<Symbol>)

  /** What the model has been told so far, reply by reply. */
  type Told = seq<seq<Answer>>

  /** The raw text, with the names of its LOOKUP lines. */
  datatype MarkerReply = MarkerReply(names: seq<string>, text: string)

  /** Structured tool calls, calls written out as text, and the text; a call without a name has an empty one. */
  datatype ToolReply = ToolReply(structured: seq<string>, written: seq<string>, text: string)

  function CallsOf(r: ToolReply): seq<string> {
    if r.structured != [] then r.structured else r.written
  }

  /** A request without a name is answered with nothing. */
  function AnswerTo(symbols: Symbols, name: string): Answer {
    Answer(name, if name != "" then Lookup(symbols, name) else [])
  }

  function AnswersTo(symbols: Symbols, names: seq<string>): seq<Answer> {
    seq(|names|, i requires 0 <= i < |names| => AnswerTo(symbols, names[i]))
  }

  function Flat(told: Told): seq<Answer> {
    if told == [] then [] else Flat(told[..|told| - 1]) + told[|told| - 1]
  }

  /** The requests served of those a reply makes. */
  function Served(asks: Told -> seq<string>, budget: int, told: Told): seq<string> {
    var names := asks(told);
    if budget <= |Flat(told)| then []
    else if |names| <= budget - |Flat(told)| then names
    else names[..budget - |Flat(told)|]
  }

  /** What a model that asks by `asks` is told in the end. Each reply serves at least one request of the
      budget, or is the last. */
  function Conversation(asks: Told -> seq<string>, symbols: Symbols, budget: int, told: Told): Told
    decreases if budget <= |Flat(told)| then 0 else budget - |Flat(told)|
  {
    var names := Served(asks, budget, told);
    if names == [] then told
    else
      assert (told + [AnswersTo(symbols, names)])[..|told|] == told;
      Conversation(asks, symbols, budget, told + [AnswersTo(symbols, names)])
  }

  function Resolve(symbols: Symbols, names: seq<string>): (answers: seq<Answer>)
    requires forall i | 0 <= i < |names| :: names[i] != ""
    ensures answers == AnswersTo(symbols, names) && |answers| == |names|
  {
    seq(|names|, i requires 0 <= i < |names| => Answer(names[i], Lookup(symbols, names[i])))
  }

  lemma NamesServed(asked: seq<string>, names: seq<string>)
    requires names <= asked && forall name | name in asked :: name != ""
    ensures forall i | 0 <= i < |names| :: names[i] != ""
  {
    forall i | 0 <= i < |names| ensures names[i] != "" {
      assert asked[i] in asked;
    }
  }

  // ---- what a model is told ----

  /** How many requests were answered. */
  function Count(told: Told): nat {
    if told == [] then 0 else Count(told[..|told| - 1]) + |told[|told| - 1]|
  }

  lemma {:induction false} FlatCounts(told: Told)
    ensures |Flat(told)| == Count(told)
  {
    if told != [] {
      FlatCounts(told[..|told| - 1]);
    }
  }

  /** The first of these requests are answered, as many as are left, each by what is found under its name; a request
      without a name by nothing. */
  predicate Answers(symbols: Symbols, left: int, names: seq<string>, answers: seq<Answer>) {
    && left > 0 && names != [] && |answers| == (if |names| <= left then |names| else left)
    && forall k | 0 <= k < |answers| ::
         answers[k].name == names[k] && answers[k].matches == if names[k] == "" then [] else Lookup(symbols, names[k])
  }

  /** Reply after reply the model is told the answers to what it asks for, until it asks for nothing or nothing is
      left of the budget. */
  ghost predicate IsConversation(asks: Told -> seq<string>, symbols: Symbols, budget: int, told: Told) {
    && (forall n | 0 <= n < |told| :: Answers(symbols, budget - Count(told[..n]), asks(told[..n]), told[n]))
    && (asks(told) == [] || Count(told) >= budget)
  }

  lemma {:induction false} ConversationGoesOn(asks: Told -> seq<string>, symbols: Symbols, budget: int, told: Told)
    requires forall n | 0 <= n < |told| :: Answers(symbols, budget - Count(told[..n]), asks(told[..n]), told[n])
    ensures IsConversation(asks, symbols, budget, Conversation(asks, symbols, budget, told))
    decreases if budget <= |Flat(told)| then 0 else budget - |Flat(told)|
  {
    hide Lookup, Answers, AnswersTo, Flat, Count;
    FlatCounts(told);
    ConversationStep(asks, symbols, budget, told);
    var names := Served(asks, budget, told);
    if names != [] {
      AnswersGoOn(asks, symbols, budget, told);
      ConversationGoesOn(asks, symbols, budget, told + [AnswersTo(symbols, names)]);
    }
  }

  lemma AnswersGoOn(asks: Told -> seq<string>, symbols: Symbols, budget: int, told: Told)
    requires forall n | 0 <= n < |told| :: Answers(symbols, budget - Count(told[..n]), asks(told[..n]), told[n])
    requires Served(asks, budget, told) != []
    ensures var more := told + [AnswersTo(symbols, Served(asks, budget, told))];
            forall n | 0 <= n < |more| :: Answers(symbols, budget - Count(more[..n]), asks(more[..n]), more[n])
  {
    hide Lookup, Answers, AnswersTo, Served, Count;
    var more := told + [AnswersTo(symbols, Served(asks, budget, told))];
    ServedAreAnswered(asks, symbols, budget, told);
    forall n | 0 <= n < |more| ensures Answers(symbols, budget - Count(more[..n]), asks(more[..n]), more[n]) {
      assert more[..n] == told[..n] && (n == |told| ==> told[..n] == told);
    }
  }

  lemma ServedAreAnswered(asks: Told -> seq<string>, symbols: Symbols, budget: int, told: Told)
    requires Served(asks, budget, told) != []
    ensures Answers(symbols, budget - Count(told), asks(told), AnswersTo(symbols, Served(asks, budget, told)))
  {
    FlatCounts(told);
  }

  /** The whole of it. */
  lemma ConversationIs(asks: Told -> seq<string>, symbols: Symbols, budget: int)
    ensures IsConversation(asks, symbols, budget, Conversation(asks, symbols, budget, []))
  {
    ConversationGoesOn(asks, symbols, budget, []);
  }

  /** The same for a model that asks by tool calls: by the structured ones if there are any, else by those that are
      written out. */
  lemma ToolConversationIs(model: Told -> ToolReply, symbols: Symbols, budget: int)
    ensures IsConversation(StructuredOrWritten(model), symbols, budget,
                           Conversation(t => CallsOf(model(t)), symbols, budget, []))
  {
    hide Conversation, IsConversation;
    var asks := t => CallsOf(model(t));
    ConversationIs(asks, symbols, budget);
    forall t: Told ensures asks(t) == StructuredOrWritten(model)(t) {
      assert asks(t) == CallsOf(model(t));
      assert StructuredOrWritten(model)(t) == CallsOf(model(t));
    }
    SameAsks(asks, StructuredOrWritten(model), symbols, budget, Conversation(asks, symbols, budget, []));
  }

  function StructuredOrWritten(model: Told -> ToolReply): Told -> seq<string> {
    t => if model(t).structured != [] then model(t).structured else model(t).written
  }

  lemma SameAsks(a: Told -> seq<string>, b: Told -> seq<string>, symbols: Symbols, budget: int, told: Told)
    requires (forall t :: a(t) == b(t)) && IsConversation(a, symbols, budget, told)
    ensures IsConversation(b, symbols, budget, told)
  {
    hide Answers, Count;
  }

  /** One reply that is served. */
  lemma ConversationStep(asks: Told -> seq<string>, symbols: Symbols, budget: int, told: Told)
    ensures var names := Served(asks, budget, told);
            var told' := told + [AnswersTo(symbols, names)];
            && |Flat(told')| == |Flat(told)| + |names|
            && Conversation(asks, symbols, budget, told) ==
               if names == [] then told else Conversation(asks, symbols, budget, told')
  {
    hide Served;
    var names := Served(asks, budget, told);
    assert (told + [AnswersTo(symbols, names)])[..|told|] == told;
  }

  /** Lookups by marker lines, which always carry a name. `final` makes a source out of the last reply. */
  method GenerateWithLookups(model: Told -> MarkerReply, symbols: Option<Symbols>, budget: int, final: string -> string)
    returns (source: string, told: Told, calls: nat)
    requires forall t, name | name in model(t).names :: name != ""
    ensures told == if symbols.None? then [] else Conversation(t => model(t).names, symbols.value, budget, [])
    ensures source == final(model(told).text) && calls == |told| + 1
  {
    hide Lookup, AnswersTo, Resolve, Conversation;
    told, calls := [], 0;
    var used := 0;
    ghost var asks := t => model(t).names;
    while true
      invariant used == |Flat(told)| && calls == |told|
      invariant symbols.None? ==> told == []
      invariant symbols.Some? ==>
                Conversation(asks, symbols.value, budget, told) == Conversation(asks, symbols.value, budget, [])
      decreases if budget <= used then 0 else budget - used
    {
      var raw := model(told);
      calls := calls + 1;
      if symbols.Some? {
        ConversationStep(asks, symbols.value, budget, told);
      }
      if raw.names == [] || symbols.None? || used >= budget {
        return final(raw.text), told, calls;
      }
      var names := if |raw.names| <= budget - used then raw.names else raw.names[..budget - used];
      assert names == Served(asks, budget, told);
      NamesServed(raw.names, names);
      var resolved := Resolve(symbols.value, names);
      told := told + [resolved];
      used := used + |names|;
    }
  }

  method AnswerCalls(symbols: Symbols, names: seq<string>) returns (resolved: seq<Answer>)
    ensures resolved == AnswersTo(symbols, names) && |resolved| == |names|
  {
    resolved := [];
    for i := 0 to |names|
      invariant resolved == AnswersTo(symbols, names[..i])
    {
      var matches := if names[i] != "" then Lookup(symbols, names[i]) else [];
      resolved := resolved + [Answer(names[i], matches)];
    }
    assert names[..|names|] == names;
  }

  /** Lookups by tool calls. */
  method GenerateWithToolCalls(model: Told -> ToolReply, symbols: Option<Symbols>, budget: int, final: string -> string)
    returns (source: string, told: Told, calls: nat)
    ensures told == if symbols.None? then [] else Conversation(t => CallsOf(model(t)), symbols.value, budget, [])
    ensures source == final(model(told).text) && calls == |told| + 1
  {
    hide Lookup, AnswersTo, Resolve, Conversation;
    told, calls := [], 0;
    var used := 0;
    ghost var asks := t => CallsOf(model(t));
    while true
      invariant used == |Flat(told)| && calls == |told|
      invariant symbols.None? ==> told == []
      invariant symbols.Some? ==>
                Conversation(asks, symbols.value, budget, told) == Conversation(asks, symbols.value, budget, [])
      decreases if budget <= used then 0 else budget - used
    {
      var reply := model(told);
      calls := calls + 1;
      if symbols.Some? {
        ConversationStep(asks, symbols.value, budget, told);
      }
      var asked := if reply.structured != [] then reply.structured else reply.written;
      if asked == [] || symbols.None? || used >= budget {
        return final(reply.text), told, calls;
      }
      var names := if |asked| <= budget - used then asked else asked[..budget - used];
      assert names == Served(asks, budget, told);
      var resolved := AnswerCalls(symbols.value, names);
      told := told + [resolved];
      used := used + |names|;
    }
  }

  /** No more than `budget` names are looked up, each reply but the last serves at least one, and the
      answers follow the order of the requests. */
  lemma {:induction false} ConversationIsBounded(asks: Told -> seq<string>, symbols: Symbols, budget: int, told: Told)
    requires |told| <= |Flat(told)| && (told != [] ==> |Flat(told)| <= budget)
    ensures var all := Conversation(asks, symbols, budget, told);
            && told <= all && |all| <= |Flat(all)| && (all != [] ==> |Flat(all)| <= budget)
            && (asks(all) == [] || |Flat(all)| >= budget)
    decreases if budget <= |Flat(told)| then 0 else budget - |Flat(told)|
  {
    var names := Served(asks, budget, told);
    if names != [] {
      assert (told + [AnswersTo(symbols, names)])[..|told|] == told;
      ConversationIsBounded(asks, symbols, budget, told + [AnswersTo(symbols, names)]);
    }
  }

  /** The model is called at most once more than the budget allows lookups, whatever it replies. */
  lemma CallsAreBounded(asks: Told -> seq<string>, symbols: Symbols, budget: int)
    ensures var all := Conversation(asks, symbols, budget, []);
            && |Flat(all)| <= (if budget < 0 then 0 else budget)
            && |all| + 1 <= (if budget < 0 then 0 else budget) + 1
            && (asks(all) == [] || |Flat(all)| >= budget)
  {
    ConversationIsBounded(asks, symbols, budget, []);
    var all := Conversation(asks, symbols, budget, []);
    if all == [] {
      assert |Flat(all)| == 0;
    }
  }

  lemma {:induction false} SameRequestsSameAnswers(a: Told -> seq<string>, b: Told -> seq<string>, symbols: Symbols,
                                                   budget: int, told: Told)
    requires forall t :: a(t) == b(t)
    ensures Conversation(a, symbols, budget, told) == Conversation(b, symbols, budget, told)
    decreases if budget <= |Flat(told)| then 0 else budget - |Flat(told)|
  {
    var names := Served(a, budget, told);
    if names != [] {
      assert (told + [AnswersTo(symbols, names)])[..|told|] == told;
      SameRequestsSameAnswers(a, b, symbols, budget, told + [AnswersTo(symbols, names)]);
    }
  }

  /** A model that asks for the same names by marker lines as by tool calls is told the same in the same order,
      after as many calls; and if it then writes the same text, the source is the same. */
  method GenerateEitherWay(marker: Told -> MarkerReply, tool: Told -> ToolReply, symbols: Option<Symbols>, budget: int,
                           final: string -> string)
    returns (source: string, told: Told, calls: nat, source': string, told': Told, calls': nat)
    requires forall t, name | name in marker(t).names :: name != ""
    requires forall t :: marker(t).names == CallsOf(tool(t))
    ensures told == told' && calls == calls'
    ensures marker(told).text == tool(told).text ==> source == source'
  {
    source, told, calls := GenerateWithLookups(marker, symbols, budget, final);
    source', told', calls' := GenerateWithToolCalls(tool, symbols, budget, final);
    if symbols.Some? {
      SameRequestsSameAnswers(t => marker(t).names, t => CallsOf(tool(t)), symbols.value, budget, []);
    }
  }
}
