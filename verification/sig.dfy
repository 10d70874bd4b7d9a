/** The state interference graph built from a structural graph of the sources: which state each
    function reads and writes, its callees' state included. */
module Sig {
  import opened Wrappers
  import opened Reachability
  import opened Segments

  datatype GraphNode = GraphNode(group: string, id: string)

  datatype GraphEdge = GraphEdge(kind: string, source: string, target: string)

  // ---- names ----

  /** "function:Base._credit" has the short name "_credit"; an id without a colon has none. */
  function ShortName(id: string): Option<string> {
    match After(id, ':')
    case None => None
    case Some(rest) => Some(LastSegment(rest, '.'))
  }

  predicate IsRead(kind: string) {
    kind == "state_to_function_read" || kind == "cross_type_state_read"
  }

  predicate IsWrite(kind: string) {
    kind == "state_to_function_write" || kind == "cross_type_state_write"
  }

  predicate IsCall(kind: string) {
    kind == "function_to_function" || kind == "cross_type_call"
  }

  predicate IsExternal(kind: string) {
    kind == "function_to_system" || kind == "function_to_object"
  }

  // ---- what the graph says, as sets ----

  /** The names of the functions of the graph. */
  function Known(nodes: seq<GraphNode>): set<string> {
    set i | 0 <= i < |nodes| && nodes[i].group == "function" && ShortName(nodes[i].id).Some?
            && ShortName(nodes[i].id).value != "" :: ShortName(nodes[i].id).value
  }

  /** The sources of the edges of some kind into `f`. */
  function StateInto(edges: seq<GraphEdge>, kinds: string -> bool, f: string): set<string> {
    set i | 0 <= i < |edges| && kinds(edges[i].kind) && ShortName(edges[i].target) == Some(f)
            && ShortName(edges[i].source).Some? && ShortName(edges[i].source).value != ""
        :: ShortName(edges[i].source).value
  }

  function OwnReads(edges: seq<GraphEdge>, f: string): set<string> {
    StateInto(edges, IsRead, f)
  }

  function OwnWrites(edges: seq<GraphEdge>, f: string): set<string> {
    StateInto(edges, IsWrite, f)
  }

  /** The calls out of known functions. */
  function CallArcs(known: set<string>, edges: seq<GraphEdge>): set<(string, string)> {
    set i | 0 <= i < |edges| && IsCall(edges[i].kind)
            && ShortName(edges[i].source).Some? && ShortName(edges[i].source).value in known
            && ShortName(edges[i].target).Some? && ShortName(edges[i].target).value != ""
        :: (ShortName(edges[i].source).value, ShortName(edges[i].target).value)
  }

  predicate CallsOut(edges: seq<GraphEdge>, f: string) {
    exists i | 0 <= i < |edges| :: IsExternal(edges[i].kind) && ShortName(edges[i].source) == Some(f)
  }

  /** Everything owned by the functions that can be reached from `f`, itself included. */
  ghost function Inherited(arcs: set<(string, string)>, own: map<string, set<string>>, f: string): set<string> {
    set g, s | g in own && s in own[g] && Reaches(arcs, f, g) :: s
  }

  ghost function OwnReadsOf(known: set<string>, edges: seq<GraphEdge>): map<string, set<string>> {
    map f | f in known :: OwnReads(edges, f)
  }

  ghost function OwnWritesOf(known: set<string>, edges: seq<GraphEdge>): map<string, set<string>> {
    map f | f in known :: OwnWrites(edges, f)
  }

  // ---- the graph ----

  class FunctionNode {
    const name: string
    var readSet: set<string>
    var writeSet: set<string>
    var hasExternalCall: bool

    constructor (name: string)
      ensures this.name == name && readSet == {} && writeSet == {} && !hasExternalCall
    {
      this.name := name;
      readSet, writeSet, hasExternalCall := {}, {}, false;
    }
  }

  class StateInterferenceGraph {
    var functions: map<string, FunctionNode>

    constructor ()
      ensures functions == map[]
    {
      functions := map[];
    }

    ghost predicate Valid()
      reads this
    {
      forall f, g | f in functions && g in functions && f != g :: functions[f] != functions[g]
    }

    /** The two functions touch shared mutable state. */
    predicate Interferes(a: string, b: string)
      reads this, functions.Values
    {
      a in functions && b in functions &&
      var fa, fb := functions[a], functions[b];
      fa.writeSet * (fb.readSet + fb.writeSet) != {} || fb.writeSet * (fa.readSet + fa.writeSet) != {}
    }

    /** `a` makes an external call and shares state with `b`. */
    predicate CanReenter(a: string, b: string)
      reads this, functions.Values
    {
      a in functions && functions[a].hasExternalCall && Interferes(a, b)
    }
  }

  ghost function Arcs(calls: map<string, set<string>>): set<(string, string)> {
    set a, b | a in calls && b in calls[a] :: (a, b)
  }

  ghost predicate ReachedFrom(arcs: set<(string, string)>, roots: set<string>, f: string) {
    exists g :: g in roots && Reaches(arcs, g, f)
  }

  lemma ReachedOn(arcs: set<(string, string)>, roots: set<string>, f: string, next: set<string>)
    requires ReachedFrom(arcs, roots, f) && forall h | h in next :: (f, h) in arcs
    ensures forall h | h in next :: ReachedFrom(arcs, roots, h)
  {
    var g :| g in roots && Reaches(arcs, g, f);
    forall h | h in next ensures ReachedFrom(arcs, roots, h) {
      ReachesOn(arcs, g, f, h);
    }
  }

  lemma AllReached(arcs: set<(string, string)>, roots: set<string>, seen: set<string>)
    requires roots <= seen && Closed(arcs, seen)
    ensures forall f | ReachedFrom(arcs, roots, f) :: f in seen
  {
    forall f | ReachedFrom(arcs, roots, f) ensures f in seen {
      var g :| g in roots && Reaches(arcs, g, f);
      ReachesStaysIn(arcs, seen, g, f);
    }
  }

  function Callees(calls: map<string, set<string>>, f: string): set<string> {
    if f in calls then calls[f] else {}
  }

  /** The members of a set in some order. */
  method Listed<T(==)>(s: set<T>) returns (r: seq<T>)
    ensures forall x :: x in r <==> x in s
  {
    r := [];
    var rest := s;
    while rest != {}
      invariant forall x :: x in s <==> x in r || x in rest
      invariant rest <= s
      decreases rest
    {
      var x :| x in rest;
      r := r + [x];
      rest := rest - {x};
    }
  }

  /** What can be reached from `start` over one call or more. */
  method Reachable(calls: map<string, set<string>>, start: string) returns (seen: set<string>)
    ensures forall f :: f in seen <==> ReachedFrom(Arcs(calls), Callees(calls, start), f)
  {
    hide ReachedFrom, Reaches;
    seen := {};
    ghost var arcs, roots := Arcs(calls), Callees(calls, start);
    ghost var all := set a, b | a in calls && b in calls[a] :: b;
    var stack := Listed(Callees(calls, start));
    RootsReached(arcs, roots);
    while stack != []
      invariant forall f | f in roots :: f in seen || f in stack
      invariant forall f | f in stack :: f in all && ReachedFrom(arcs, roots, f)
      invariant forall f | f in seen :: ReachedFrom(arcs, roots, f)
      invariant forall f, g | f in seen && (f, g) in arcs :: g in seen || g in stack
      decreases all - seen, |stack|
    {
      var next := stack[|stack| - 1];
      ghost var was := stack;
      stack := stack[..|stack| - 1];
      assert was == stack + [next];
      if next in seen {
        continue;
      }
      seen := seen + {next};
      var more := Listed(Callees(calls, next));
      ReachedOn(arcs, roots, next, Callees(calls, next));
      stack := stack + more;
    }
    AllReached(arcs, roots, seen);
  }

  lemma RootsReached(arcs: set<(string, string)>, roots: set<string>)
    ensures forall f | f in roots :: ReachedFrom(arcs, roots, f)
  {
    forall f | f in roots ensures ReachedFrom(arcs, roots, f) {
      ReachesSelf(arcs, f);
    }
  }

  // ---- building ----

  method AddFunctions(nodes: seq<GraphNode>) returns (sig: StateInterferenceGraph)
    ensures fresh(sig) && (forall f | f in sig.functions :: fresh(sig.functions[f])) && sig.Valid()
    ensures sig.functions.Keys == Known(nodes)
    ensures forall f | f in sig.functions ::
              var node := sig.functions[f];
              node.name == f && node.readSet == {} && node.writeSet == {} && !node.hasExternalCall
  {
    hide ShortName, Known;
    KnownOfNothing();
    sig := new StateInterferenceGraph();
    assert nodes[..0] == [];
    for n := 0 to |nodes|
      invariant fresh(sig) && (forall f | f in sig.functions :: fresh(sig.functions[f])) && sig.Valid()
      invariant sig.functions.Keys == Known(nodes[..n])
      invariant forall f | f in sig.functions ::
                  var node := sig.functions[f];
                  node.name == f && node.readSet == {} && node.writeSet == {} && !node.hasExternalCall
    {
      OneMoreNode(nodes, n);
      if nodes[n].group == "function" {
        var name := ShortName(nodes[n].id);
        if name.Some? && name.value != "" {
          if name.value !in sig.functions {
            var node := new FunctionNode(name.value);
            sig.functions := sig.functions[name.value := node];
          }
        }
      }
    }
    assert nodes[..|nodes|] == nodes;
  }

  lemma KnownOfNothing()
    ensures Known([]) == {}
  {
  }

  lemma OneMoreNode(nodes: seq<GraphNode>, n: nat)
    requires n < |nodes|
    ensures var node := nodes[n];
            Known(nodes[..n + 1]) == Known(nodes[..n])
              + (if node.group == "function" && ShortName(node.id).Some? && ShortName(node.id).value != ""
                 then {ShortName(node.id).value} else {})
  {
    hide ShortName;
    assert nodes[..n + 1] == nodes[..n] + [nodes[n]];
    assert forall i | 0 <= i < n :: nodes[..n + 1][i] == nodes[..n][i];
    assert nodes[..n + 1][n] == nodes[n];
  }

  // What one edge adds.

  predicate Feeds(e: GraphEdge, f: string) {
    ShortName(e.target) == Some(f) && ShortName(e.source).Some? && ShortName(e.source).value != ""
  }

  function ReadBy(e: GraphEdge, f: string): set<string> {
    if IsRead(e.kind) && Feeds(e, f) then {ShortName(e.source).value} else {}
  }

  function WrittenBy(e: GraphEdge, f: string): set<string> {
    if IsWrite(e.kind) && Feeds(e, f) then {ShortName(e.source).value} else {}
  }

  predicate LeavesBy(e: GraphEdge, f: string) {
    IsExternal(e.kind) && ShortName(e.source) == Some(f)
  }

  function ArcOf(known: set<string>, e: GraphEdge): set<(string, string)> {
    if IsCall(e.kind) && ShortName(e.source).Some? && ShortName(e.source).value in known
       && ShortName(e.target).Some? && ShortName(e.target).value != ""
    then {(ShortName(e.source).value, ShortName(e.target).value)} else {}
  }

  lemma OneMoreEdge(edges: seq<GraphEdge>, n: nat, f: string)
    requires n < |edges|
    ensures OwnReads(edges[..n + 1], f) == OwnReads(edges[..n], f) + ReadBy(edges[n], f)
    ensures OwnWrites(edges[..n + 1], f) == OwnWrites(edges[..n], f) + WrittenBy(edges[n], f)
    ensures CallsOut(edges[..n + 1], f) <==> CallsOut(edges[..n], f) || LeavesBy(edges[n], f)
  {
    hide ShortName;
    assert forall i | 0 <= i < n :: edges[..n + 1][i] == edges[..n][i];
    assert edges[..n + 1][n] == edges[n];
  }

  lemma OneMoreArc(known: set<string>, edges: seq<GraphEdge>, n: nat)
    requires n < |edges|
    ensures CallArcs(known, edges[..n + 1]) == CallArcs(known, edges[..n]) + ArcOf(known, edges[n])
  {
    hide ShortName;
    assert forall i | 0 <= i < n :: edges[..n + 1][i] == edges[..n][i];
    assert edges[..n + 1][n] == edges[n];
  }

  method AddEdge(sig: StateInterferenceGraph, calls: map<string, set<string>>, e: GraphEdge)
    returns (calls': map<string, set<string>>)
    requires sig.Valid()
    modifies sig.functions.Values
    ensures Arcs(calls') == Arcs(calls) + ArcOf(sig.functions.Keys, e)
    ensures forall f | f in sig.functions ::
              var node := sig.functions[f];
              && node.readSet == old(node.readSet) + ReadBy(e, f)
              && node.writeSet == old(node.writeSet) + WrittenBy(e, f)
              && node.hasExternalCall == (old(node.hasExternalCall) || LeavesBy(e, f))
  {
    hide ShortName;
    calls' := calls;
    var source, target := ShortName(e.source), ShortName(e.target);
    if e.kind == "state_to_function_read" || e.kind == "cross_type_state_read" {
      if target.Some? && target.value in sig.functions && source.Some? && source.value != "" {
        var node := sig.functions[target.value];
        node.readSet := node.readSet + {source.value};
      }
    } else if e.kind == "state_to_function_write" || e.kind == "cross_type_state_write" {
      if target.Some? && target.value in sig.functions && source.Some? && source.value != "" {
        var node := sig.functions[target.value];
        node.writeSet := node.writeSet + {source.value};
      }
    } else if e.kind == "function_to_function" || e.kind == "cross_type_call" {
      if source.Some? && source.value in sig.functions && target.Some? && target.value != "" {
        calls' := calls[source.value := Callees(calls, source.value) + {target.value}];
      }
    } else if e.kind == "function_to_system" || e.kind == "function_to_object" {
      if source.Some? && source.value in sig.functions {
        sig.functions[source.value].hasExternalCall := true;
      }
    }
  }

  method AddEdges(sig: StateInterferenceGraph, edges: seq<GraphEdge>) returns (calls: map<string, set<string>>)
    requires sig.Valid()
    requires forall f | f in sig.functions ::
               var node := sig.functions[f];
               node.readSet == {} && node.writeSet == {} && !node.hasExternalCall
    modifies sig.functions.Values
    ensures Arcs(calls) == CallArcs(sig.functions.Keys, edges)
    ensures forall f | f in sig.functions ::
              var node := sig.functions[f];
              && node.readSet == OwnReads(edges, f) && node.writeSet == OwnWrites(edges, f)
              && node.hasExternalCall == CallsOut(edges, f)
  {
    hide ReadBy, WrittenBy, LeavesBy, ArcOf;
    calls := map[];
    for n := 0 to |edges|
      invariant Arcs(calls) == CallArcs(sig.functions.Keys, edges[..n])
      invariant forall f | f in sig.functions ::
                  var node := sig.functions[f];
                  && node.readSet == OwnReads(edges[..n], f) && node.writeSet == OwnWrites(edges[..n], f)
                  && node.hasExternalCall == CallsOut(edges[..n], f)
    {
      OneMoreArc(sig.functions.Keys, edges, n);
      forall f { OneMoreEdge(edges, n, f); }
      calls := AddEdge(sig, calls, edges[n]);
    }
    assert edges[..|edges|] == edges;
  }

  // ---- propagation ----

  /** Each function holds at least what it owns and at most what it inherits. */
  ghost predicate Between(sig: StateInterferenceGraph, arcs: set<(string, string)>,
                          ownReads: map<string, set<string>>, ownWrites: map<string, set<string>>)
    requires ownReads.Keys == ownWrites.Keys == sig.functions.Keys
    reads sig, sig.functions.Values
  {
    forall f | f in sig.functions ::
      && ownReads[f] <= sig.functions[f].readSet <= Inherited(arcs, ownReads, f)
      && ownWrites[f] <= sig.functions[f].writeSet <= Inherited(arcs, ownWrites, f)
  }

  lemma InheritsFromReached(arcs: set<(string, string)>, own: map<string, set<string>>, f: string, g: string)
    requires Reaches(arcs, f, g)
    ensures Inherited(arcs, own, g) <= Inherited(arcs, own, f)
  {
    forall s | s in Inherited(arcs, own, g) ensures s in Inherited(arcs, own, f) {
      var h :| h in own && s in own[h] && Reaches(arcs, g, h);
      ReachesThrough(arcs, f, g, h);
    }
  }

  /** Reaching is staying or leaving by a call. */
  lemma ReachedIsSelfOrCallee(calls: map<string, set<string>>, f: string, g: string)
    ensures Reaches(Arcs(calls), f, g) <==> f == g || ReachedFrom(Arcs(calls), Callees(calls, f), g)
  {
    var arcs := Arcs(calls);
    if Reaches(arcs, f, g) && f != g {
      var path :| IsPath(arcs, f, g, path);
      assert (path[0], path[1]) in arcs;
      assert IsPath(arcs, path[1], g, path[1..]);
    }
    if f == g {
      ReachesSelf(arcs, f);
    } else if ReachedFrom(arcs, Callees(calls, f), g) {
      var h :| h in Callees(calls, f) && Reaches(arcs, h, g);
      assert (f, h) in arcs;
      ReachesSelf(arcs, f);
      ReachesOn(arcs, f, f, h);
      ReachesThrough(arcs, f, h, g);
    }
  }

  /** A function that holds what it owns and what its callees hold, holds all it inherits. */
  lemma InheritsAll(arcs: set<(string, string)>, own: map<string, set<string>>, held: map<string, set<string>>,
                    f: string, callees: set<string>)
    requires held.Keys == own.Keys && f in own
    requires forall g | g in own :: own[g] <= held[g]
    requires forall g | g in callees && g in own && g != f :: held[g] <= held[f]
    requires forall g :: Reaches(arcs, f, g) ==> g == f || g in callees
    ensures Inherited(arcs, own, f) <= held[f]
  {
  }

  /** A caller takes over the state of every function it can reach, at any depth, whatever has been
      taken over already and in whatever order the functions come. */
  method PropagateTo(sig: StateInterferenceGraph, calls: map<string, set<string>>, name: string,
                     ghost ownReads: map<string, set<string>>, ghost ownWrites: map<string, set<string>>)
    requires sig.Valid() && name in sig.functions
    requires ownReads.Keys == ownWrites.Keys == sig.functions.Keys
    requires Between(sig, Arcs(calls), ownReads, ownWrites)
    modifies sig.functions[name]
    ensures Between(sig, Arcs(calls), ownReads, ownWrites)
    ensures sig.functions[name].readSet == Inherited(Arcs(calls), ownReads, name)
    ensures sig.functions[name].writeSet == Inherited(Arcs(calls), ownWrites, name)
    ensures sig.functions[name].hasExternalCall == old(sig.functions[name].hasExternalCall)
  {
    hide Inherited, Reaches, ReachedFrom, Arcs, Callees;
    var node := sig.functions[name];
    var callees := Reachable(calls, name);
    ghost var arcs := Arcs(calls);
    forall g ensures Reaches(arcs, name, g) <==> g == name || g in callees {
      ReachedIsSelfOrCallee(calls, name, g);
    }
    var rest := callees;
    while rest != {}
      invariant rest <= callees
      invariant forall g | g in sig.functions && g != name ::
                  && sig.functions[g].readSet == old(sig.functions[g].readSet)
                  && sig.functions[g].writeSet == old(sig.functions[g].writeSet)
      invariant ownReads[name] <= node.readSet <= Inherited(arcs, ownReads, name)
      invariant ownWrites[name] <= node.writeSet <= Inherited(arcs, ownWrites, name)
      invariant forall g | g in callees - rest && g in sig.functions && g != name ::
                  && sig.functions[g].readSet <= node.readSet
                  && sig.functions[g].writeSet <= node.writeSet
      invariant node.hasExternalCall == old(node.hasExternalCall)
      decreases rest
    {
      var callee :| callee in rest;
      rest := rest - {callee};
      if callee in sig.functions && callee != name {
        var other := sig.functions[callee];
        InheritsFromReached(arcs, ownReads, name, callee);
        InheritsFromReached(arcs, ownWrites, name, callee);
        node.readSet := node.readSet + other.readSet;
        node.writeSet := node.writeSet + other.writeSet;
      }
    }
    InheritsAll(arcs, ownReads, map f | f in sig.functions :: sig.functions[f].readSet, name, callees);
    InheritsAll(arcs, ownWrites, map f | f in sig.functions :: sig.functions[f].writeSet, name, callees);
  }

  method Propagate(sig: StateInterferenceGraph, calls: map<string, set<string>>,
                   ghost ownReads: map<string, set<string>>, ghost ownWrites: map<string, set<string>>)
    requires sig.Valid()
    requires ownReads.Keys == ownWrites.Keys == sig.functions.Keys
    requires forall f | f in sig.functions ::
               sig.functions[f].readSet == ownReads[f] && sig.functions[f].writeSet == ownWrites[f]
    modifies sig.functions.Values
    ensures forall f | f in sig.functions ::
              var node := sig.functions[f];
              && node.readSet == Inherited(Arcs(calls), ownReads, f)
              && node.writeSet == Inherited(Arcs(calls), ownWrites, f)
              && node.hasExternalCall == old(node.hasExternalCall)
  {
    hide Reaches;
    ghost var arcs := Arcs(calls);
    forall f | f in sig.functions
      ensures ownReads[f] <= Inherited(arcs, ownReads, f) && ownWrites[f] <= Inherited(arcs, ownWrites, f) {
      ReachesSelf(arcs, f);
    }
    var rest := sig.functions.Keys;
    while rest != {}
      invariant rest <= sig.functions.Keys
      invariant Between(sig, arcs, ownReads, ownWrites)
      invariant forall f | f in sig.functions ::
                sig.functions[f].hasExternalCall == old(sig.functions[f].hasExternalCall)
      invariant forall f | f in sig.functions && f !in rest ::
                  && sig.functions[f].readSet == Inherited(arcs, ownReads, f)
                  && sig.functions[f].writeSet == Inherited(arcs, ownWrites, f)
      decreases rest
    {
      var name :| name in rest;
      rest := rest - {name};
      PropagateTo(sig, calls, name, ownReads, ownWrites);
    }
  }

  method BuildSigFromSmartGraphical(nodes: seq<GraphNode>, edges: seq<GraphEdge>)
    returns (sig: StateInterferenceGraph)
    ensures fresh(sig) && sig.Valid() && sig.functions.Keys == Known(nodes)
    ensures var known := Known(nodes);
            var arcs := CallArcs(known, edges);
            forall f | f in sig.functions ::
              var node := sig.functions[f];
              && node.readSet == Inherited(arcs, OwnReadsOf(known, edges), f)
              && node.writeSet == Inherited(arcs, OwnWritesOf(known, edges), f)
              && node.hasExternalCall == CallsOut(edges, f)
  {
    hide Inherited, CallArcs, Known, StateInto, CallsOut;
    sig := AddFunctions(nodes);
    var calls := AddEdges(sig, edges);
    Propagate(sig, calls, OwnReadsOf(Known(nodes), edges), OwnWritesOf(Known(nodes), edges));
  }

  // ---- what the result means ----

  /** A set of state for every function that holds what the function owns and what its direct callees
      hold. */
  ghost predicate Solves(arcs: set<(string, string)>, own: map<string, set<string>>, held: map<string, set<string>>) {
    && held.Keys == own.Keys
    && (forall f | f in own :: own[f] <= held[f])
    && (forall f, g | f in own && g in own && (f, g) in arcs :: held[g] <= held[f])
  }

  ghost function InheritedBy(arcs: set<(string, string)>, own: map<string, set<string>>): map<string, set<string>> {
    map f | f in own :: Inherited(arcs, own, f)
  }

  lemma {:induction false} HeldAlong(arcs: set<(string, string)>, own: map<string, set<string>>,
                                     held: map<string, set<string>>, f: string, g: string, path: seq<string>)
    requires Solves(arcs, own, held) && f in own && g in own && IsPath(arcs, f, g, path)
    requires forall x, y | (x, y) in arcs :: x in own
    ensures held[g] <= held[f]
    decreases |path|
  {
    if |path| > 1 {
      assert (path[0], path[1]) in arcs;
      if |path| > 2 {
        assert (path[1], path[2]) in arcs;
      }
      HeldAlong(arcs, own, held, path[1], g, path[1..]);
    }
  }

  /** The inherited state is the least solution. Arcs start at known functions, as `CallArcs` does. */
  lemma InheritedIsLeastSolution(arcs: set<(string, string)>, own: map<string, set<string>>)
    requires forall x, y | (x, y) in arcs :: x in own
    ensures Solves(arcs, own, InheritedBy(arcs, own))
    ensures forall held | Solves(arcs, own, held) :: forall f | f in own :: Inherited(arcs, own, f) <= held[f]
  {
    forall f | f in own ensures own[f] <= Inherited(arcs, own, f) {
      ReachesSelf(arcs, f);
    }
    forall f, g | f in own && g in own && (f, g) in arcs
      ensures Inherited(arcs, own, g) <= Inherited(arcs, own, f) {
      ReachesSelf(arcs, f);
      ReachesOn(arcs, f, f, g);
      InheritsFromReached(arcs, own, f, g);
    }
    forall held, f, s | Solves(arcs, own, held) && f in own && s in Inherited(arcs, own, f)
      ensures s in held[f] {
      var g :| g in own && s in own[g] && Reaches(arcs, f, g);
      var path :| IsPath(arcs, f, g, path);
      HeldAlong(arcs, own, held, f, g, path);
    }
  }

  /** `s` is written by what one function can reach and touched by what the other can. */
  ghost predicate Shares(arcs: set<(string, string)>, ownReads: map<string, set<string>>,
                         ownWrites: map<string, set<string>>, a: string, b: string, s: string)
    requires ownReads.Keys == ownWrites.Keys
  {
    exists g, h | g in ownReads && h in ownReads ::
      Reaches(arcs, a, g) && Reaches(arcs, b, h) && s in ownWrites[g] && s in ownReads[h] + ownWrites[h]
  }

  /** In a built graph two functions interfere exactly when some state is written, however deep in the
      calls, by one and touched by the other. */
  lemma InterferesIffShared(sig: StateInterferenceGraph, arcs: set<(string, string)>,
                            ownReads: map<string, set<string>>, ownWrites: map<string, set<string>>,
                            a: string, b: string)
    requires ownReads.Keys == ownWrites.Keys == sig.functions.Keys
    requires forall f | f in sig.functions ::
               && sig.functions[f].readSet == Inherited(arcs, ownReads, f)
               && sig.functions[f].writeSet == Inherited(arcs, ownWrites, f)
    ensures sig.Interferes(a, b) <==>
            && a in sig.functions && b in sig.functions
            && exists s :: Shares(arcs, ownReads, ownWrites, a, b, s) || Shares(arcs, ownReads, ownWrites, b, a, s)
  {
    if a in sig.functions && b in sig.functions {
      SharedIsOverlap(arcs, ownReads, ownWrites, a, b);
      SharedIsOverlap(arcs, ownReads, ownWrites, b, a);
    }
  }

  /** In a built graph `a` can reenter by way of `b` exactly when `a` itself calls out and the two share state that
      one of them writes, however deep in the calls. */
  lemma ReentersIffShared(sig: StateInterferenceGraph, edges: seq<GraphEdge>, arcs: set<(string, string)>,
                          ownReads: map<string, set<string>>, ownWrites: map<string, set<string>>, a: string, b: string)
    requires ownReads.Keys == ownWrites.Keys == sig.functions.Keys
    requires forall f | f in sig.functions ::
               && sig.functions[f].readSet == Inherited(arcs, ownReads, f)
               && sig.functions[f].writeSet == Inherited(arcs, ownWrites, f)
               && sig.functions[f].hasExternalCall == CallsOut(edges, f)
    ensures sig.CanReenter(a, b) <==>
            && a in sig.functions && b in sig.functions && CallsOut(edges, a)
            && exists s :: Shares(arcs, ownReads, ownWrites, a, b, s) || Shares(arcs, ownReads, ownWrites, b, a, s)
  {
    InterferesIffShared(sig, arcs, ownReads, ownWrites, a, b);
  }

  lemma SharedIsOverlap(arcs: set<(string, string)>, ownReads: map<string, set<string>>,
                        ownWrites: map<string, set<string>>, a: string, b: string)
    requires ownReads.Keys == ownWrites.Keys
    ensures forall s :: Shares(arcs, ownReads, ownWrites, a, b, s) <==>
              s in Inherited(arcs, ownWrites, a) * (Inherited(arcs, ownReads, b) + Inherited(arcs, ownWrites, b))
  {
    hide Reaches;
    forall s | s in Inherited(arcs, ownWrites, a) * (Inherited(arcs, ownReads, b) + Inherited(arcs, ownWrites, b))
      ensures Shares(arcs, ownReads, ownWrites, a, b, s) {
      var g :| g in ownWrites && s in ownWrites[g] && Reaches(arcs, a, g);
      var h :| h in ownReads && s in ownReads[h] + ownWrites[h] && Reaches(arcs, b, h);
    }
  }

  predicate Interacting(sig: StateInterferenceGraph, a: string, b: string)
    reads sig, sig.functions.Values
  {
    sig.Interferes(LastSegment(a, ':'), LastSegment(b, ':'))
  }

  /** The interfering pairs of the location at `i` and one after it but before `n`. */
  function PairsWith(locations: seq<string>, sig: StateInterferenceGraph, i: nat, n: nat): seq<(string, string)>
    requires i < |locations| && n <= |locations|
    reads sig, sig.functions.Values
  {
    if n <= i + 1 then []
    else
      PairsWith(locations, sig, i, n - 1) +
      if Interacting(sig, locations[i], locations[n - 1]) then [(locations[i], locations[n - 1])] else []
  }

  function PairsUpTo(locations: seq<string>, sig: StateInterferenceGraph, n: nat): seq<(string, string)>
    requires n <= |locations|
    reads sig, sig.functions.Values
  {
    if n == 0 then []
    else PairsUpTo(locations, sig, n - 1) + PairsWith(locations, sig, n - 1, |locations|)
  }

  ghost predicate IsPair(locations: seq<string>, sig: StateInterferenceGraph, i: nat, j: nat, p: (string, string))
    requires i < |locations| && j < |locations|
    reads sig, sig.functions.Values
  {
    p == (locations[i], locations[j]) && Interacting(sig, p.0, p.1)
  }

  lemma {:induction false} PairsWithAreThose(locations: seq<string>, sig: StateInterferenceGraph, i: nat, n: nat,
                                             p: (string, string))
    requires i < |locations| && n <= |locations|
    ensures p in PairsWith(locations, sig, i, n) <==> exists j | i < j < n :: IsPair(locations, sig, i, j, p)
  {
    hide Interacting;
    if n > i + 1 {
      PairsWithAreThose(locations, sig, i, n - 1, p);
      if IsPair(locations, sig, i, n - 1, p) {
        assert p in PairsWith(locations, sig, i, n);
      }
    }
  }

  /** The filtered pairs are the pairs in list order whose functions interfere, and no others. */
  lemma {:induction false} PairsAreThose(locations: seq<string>, sig: StateInterferenceGraph, n: nat,
                                         p: (string, string))
    requires n <= |locations|
    ensures p in PairsUpTo(locations, sig, n) <==>
            exists i, j | 0 <= i < n && i < j < |locations| :: IsPair(locations, sig, i, j, p)
  {
    hide IsPair, PairsWith;
    if n > 0 {
      PairsAreThose(locations, sig, n - 1, p);
      PairsWithAreThose(locations, sig, n - 1, |locations|, p);
    }
  }

  /** The pairs of finding locations, each in list order, whose functions interfere. */
  method GetFilteredPairs(locations: seq<string>, sig: StateInterferenceGraph) returns (pairs: seq<(string, string)>)
    ensures pairs == PairsUpTo(locations, sig, |locations|)
  {
    hide Interacting;
    pairs := [];
    for i := 0 to |locations|
      invariant pairs == PairsUpTo(locations, sig, i)
    {
      for j := i + 1 to |locations|
        invariant pairs == PairsUpTo(locations, sig, i) + PairsWith(locations, sig, i, j)
      {
        if Interacting(sig, locations[i], locations[j]) {
          pairs := pairs + [(locations[i], locations[j])];
        }
      }
    }
  }
}
