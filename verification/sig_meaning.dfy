/** What the functions, the state and the calls of an interference graph are, in terms of the nodes and edges that
    it is built from. */
module SigMeaning {
  import opened Segments
  import opened Sig
  import opened Wrappers

  /** The node id is `kind:path`, and `name` is what follows the last dot of the path. */
  ghost predicate Names(id: string, name: string) {
    exists path :: IsAfter(id, ':', path) && IsLast(path, '.', name)
  }

  lemma ShortNameIs(id: string, name: string)
    ensures ShortName(id) == Some(name) <==> Names(id, name)
    ensures ShortName(id) == None <==> ':' !in id
  {
    hide IsAfter, IsLast, After, LastSegment;
    AfterIs(id, ':', "");
    if After(id, ':').Some? {
      var path := After(id, ':').value;
      AfterIs(id, ':', path);
      LastSegmentIs(path, '.');
    }
    if path :| IsAfter(id, ':', path) && IsLast(path, '.', name) {
      AfterIs(id, ':', path);
      LastSegmentIs(path, '.');
      OnlyOneLast(path, '.', name, LastSegment(path, '.'));
    }
  }

  /** The functions are the non-empty names of function nodes. */
  lemma FunctionsAre(nodes: seq<GraphNode>, f: string)
    ensures f in Known(nodes) <==>
            f != "" && exists i | 0 <= i < |nodes| :: nodes[i].group == "function" && Names(nodes[i].id, f)
  {
    hide ShortName, Names;
    forall i | 0 <= i < |nodes| { ShortNameIs(nodes[i].id, f); }
  }

  /** An edge of one of these kinds from a node named `a` to a node named `b`. */
  ghost predicate Edge(edges: seq<GraphEdge>, kinds: set<string>, a: string, b: string) {
    exists i | 0 <= i < |edges| :: edges[i].kind in kinds && Names(edges[i].source, a) && Names(edges[i].target, b)
  }

  lemma NamesOfEdges(edges: seq<GraphEdge>, a: string, b: string)
    ensures forall i | 0 <= i < |edges| :: ShortName(edges[i].source) == Some(a) <==> Names(edges[i].source, a)
    ensures forall i | 0 <= i < |edges| :: ShortName(edges[i].target) == Some(b) <==> Names(edges[i].target, b)
  {
    hide ShortName, Names;
    forall i | 0 <= i < |edges| { ShortNameIs(edges[i].source, a); }
    forall i | 0 <= i < |edges| { ShortNameIs(edges[i].target, b); }
  }

  lemma StateIntoIs(edges: seq<GraphEdge>, kinds: string -> bool, named: set<string>, f: string, s: string)
    requires forall kind :: kinds(kind) <==> kind in named
    ensures s in StateInto(edges, kinds, f) <==> s != "" && Edge(edges, named, s, f)
  {
    hide ShortName, Names;
    NamesOfEdges(edges, s, f);
  }

  /** What a function reads and writes itself, what it calls, and whether it calls out. */
  lemma EdgesAre(known: set<string>, edges: seq<GraphEdge>, f: string, s: string)
    ensures s in OwnReads(edges, f) <==>
            s != "" && Edge(edges, {"state_to_function_read", "cross_type_state_read"}, s, f)
    ensures s in OwnWrites(edges, f) <==>
            s != "" && Edge(edges, {"state_to_function_write", "cross_type_state_write"}, s, f)
    ensures (f, s) in CallArcs(known, edges) <==>
            f in known && s != "" && Edge(edges, {"function_to_function", "cross_type_call"}, f, s)
    ensures CallsOut(edges, f) <==>
            exists i | 0 <= i < |edges| ::
              edges[i].kind in {"function_to_system", "function_to_object"} && Names(edges[i].source, f)
  {
    hide ShortName, Names, StateInto, Edge;
    StateIntoIs(edges, IsRead, {"state_to_function_read", "cross_type_state_read"}, f, s);
    StateIntoIs(edges, IsWrite, {"state_to_function_write", "cross_type_state_write"}, f, s);
    ArcsAre(known, edges, f, s);
    NamesOfEdges(edges, f, s);
  }

  lemma ArcsAre(known: set<string>, edges: seq<GraphEdge>, f: string, s: string)
    ensures (f, s) in CallArcs(known, edges) <==>
            f in known && s != "" && Edge(edges, {"function_to_function", "cross_type_call"}, f, s)
  {
    hide ShortName, Names;
    NamesOfEdges(edges, f, s);
  }

  // ---- the order of the filtered pairs ----

  /** A location and a later one. */
  datatype Pair = Pair(first: nat, second: nat) {
    predicate Before(other: Pair) {
      first < other.first || (first == other.first && second < other.second)
    }
  }

  /** The functions that two locations name after their last colon interfere. */
  ghost predicate Meet(locations: seq<string>, sig: StateInterferenceGraph, p: Pair)
    reads sig, sig.functions.Values
  {
    p.first < p.second < |locations| &&
    exists f, g | IsLast(locations[p.first], ':', f) && IsLast(locations[p.second], ':', g) :: sig.Interferes(f, g)
  }

  /** The filtered pairs are those of all such locations, each once, in the order of the list. */
  ghost predicate ListsPairs(locations: seq<string>, sig: StateInterferenceGraph, n: nat, m: nat, places: seq<Pair>,
                             pairs: seq<(string, string)>)
    reads sig, sig.functions.Values
  {
    && |places| == |pairs| && (forall a, b | 0 <= a < b < |places| :: places[a].Before(places[b]))
    && (forall p :: p in places <==> Meet(locations, sig, p) && (p.first < n || (p.first == n && p.second < m)))
    && forall k | 0 <= k < |places| ::
         places[k].first < |locations| && places[k].second < |locations|
         && pairs[k] == (locations[places[k].first], locations[places[k].second])
  }

  lemma MeetIs(locations: seq<string>, sig: StateInterferenceGraph, p: Pair)
    ensures Meet(locations, sig, p) <==>
            p.first < p.second < |locations| && Interacting(sig, locations[p.first], locations[p.second])
  {
    if p.first < p.second < |locations| {
      var a, b := locations[p.first], locations[p.second];
      LastSegmentIs(a, ':');
      LastSegmentIs(b, ':');
      if f, g :| IsLast(a, ':', f) && IsLast(b, ':', g) && sig.Interferes(f, g) {
        OnlyOneLast(a, ':', f, LastSegment(a, ':'));
        OnlyOneLast(b, ':', g, LastSegment(b, ':'));
      }
    }
  }

  lemma PairsGoOn(locations: seq<string>, sig: StateInterferenceGraph, n: nat, m: nat, places: seq<Pair>,
                  pairs: seq<(string, string)>)
    requires n < m < |locations| && ListsPairs(locations, sig, n, m, places, pairs)
    ensures var meets := Interacting(sig, locations[n], locations[m]);
            ListsPairs(locations, sig, n, m + 1, if meets then places + [Pair(n, m)] else places,
                       if meets then pairs + [(locations[n], locations[m])] else pairs)
  {
    hide Meet, Interacting;
    MeetIs(locations, sig, Pair(n, m));
    var meets := Interacting(sig, locations[n], locations[m]);
    var more := if meets then places + [Pair(n, m)] else places;
    forall p ensures p in more <==> Meet(locations, sig, p) && (p.first < n || (p.first == n && p.second < m + 1)) {
      assert p in more <==> p in places || (meets && p == Pair(n, m));
    }
    forall a, b | 0 <= a < b < |more| ensures more[a].Before(more[b]) {
      if b == |places| {
        assert places[a] in places;
      }
    }
  }

  lemma {:induction false} RowIsListed(locations: seq<string>, sig: StateInterferenceGraph, n: nat, m: nat,
                                       before: seq<Pair>, done: seq<(string, string)>) returns (places: seq<Pair>)
    requires n < |locations| && n + 1 <= m <= |locations| && ListsPairs(locations, sig, n, n + 1, before, done)
    ensures ListsPairs(locations, sig, n, m, places, done + PairsWith(locations, sig, n, m))
  {
    hide ListsPairs, Interacting;
    if m == n + 1 {
      places := before;
      assert done + PairsWith(locations, sig, n, m) == done;
    } else {
      places := RowIsListed(locations, sig, n, m - 1, before, done);
      PairsGoOn(locations, sig, n, m - 1, places, done + PairsWith(locations, sig, n, m - 1));
      if Interacting(sig, locations[n], locations[m - 1]) {
        places := places + [Pair(n, m - 1)];
        assert done + PairsWith(locations, sig, n, m) ==
               done + PairsWith(locations, sig, n, m - 1) + [(locations[n], locations[m - 1])];
      } else {
        assert PairsWith(locations, sig, n, m) == PairsWith(locations, sig, n, m - 1);
      }
    }
  }

  lemma RowBegins(locations: seq<string>, sig: StateInterferenceGraph, n: nat, places: seq<Pair>,
                  pairs: seq<(string, string)>)
    requires n > 0 ==> ListsPairs(locations, sig, n - 1, |locations|, places, pairs)
    requires n == 0 ==> places == [] && pairs == []
    ensures ListsPairs(locations, sig, n, n + 1, places, pairs)
  {
  }

  /** All filtered pairs, in the order of the list. */
  lemma {:induction false} PairsAreListed(locations: seq<string>, sig: StateInterferenceGraph, n: nat)
    returns (places: seq<Pair>)
    requires 0 < n <= |locations|
    ensures ListsPairs(locations, sig, n - 1, |locations|, places, PairsUpTo(locations, sig, n))
  {
    hide ListsPairs, PairsWith;
    var before, done := [], [];
    if n > 1 {
      before := PairsAreListed(locations, sig, n - 1);
      done := PairsUpTo(locations, sig, n - 1);
    }
    RowBegins(locations, sig, n - 1, before, done);
    places := RowIsListed(locations, sig, n - 1, |locations|, before, done);
    assert PairsUpTo(locations, sig, n) ==
           PairsUpTo(locations, sig, n - 1) + PairsWith(locations, sig, n - 1, |locations|);
    assert PairsUpTo(locations, sig, 0) == [];
  }
}
