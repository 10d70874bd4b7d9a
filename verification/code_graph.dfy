/** Shortest relationship chains in the code map: breadth-first search over out-edges. */
module CodeGraphs {
  import opened Selection

  datatype CodeEdge = CodeEdge(source: string, target: string, relation: string)

  function EdgesAt(table: map<string, seq<CodeEdge>>, node: string): seq<CodeEdge> {
    if node in table then table[node] else []
  }

  /** The edges that leave a node, in order. */
  function Leaving(edges: seq<CodeEdge>, node: string): (r: seq<CodeEdge>)
    ensures forall e :: e in r <==> e in edges && e.source == node
  {
    if edges == [] then []
    else if edges[0].source == node then [edges[0]] + Leaving(edges[1..], node)
    else Leaving(edges[1..], node)
  }

  /** The edges that enter a node, in order. */
  function Entering(edges: seq<CodeEdge>, node: string): (r: seq<CodeEdge>)
    ensures forall e :: e in r <==> e in edges && e.target == node
  {
    if edges == [] then []
    else if edges[0].target == node then [edges[0]] + Entering(edges[1..], node)
    else Entering(edges[1..], node)
  }

  lemma {:induction false} LeavingThen(edges: seq<CodeEdge>, e: CodeEdge, node: string)
    ensures Leaving(edges + [e], node) == if e.source == node then Leaving(edges, node) + [e] else Leaving(edges, node)
  {
    if edges == [] {
      assert edges + [e] == [e] && [e][1..] == [];
    } else {
      LeavingThen(edges[1..], e, node);
      assert (edges + [e])[1..] == edges[1..] + [e];
    }
  }

  lemma {:induction false} EnteringThen(edges: seq<CodeEdge>, e: CodeEdge, node: string)
    ensures Entering(edges + [e], node) ==
            if e.target == node then Entering(edges, node) + [e] else Entering(edges, node)
  {
    if edges == [] {
      assert edges + [e] == [e] && [e][1..] == [];
    } else {
      EnteringThen(edges[1..], e, node);
      assert (edges + [e])[1..] == edges[1..] + [e];
    }
  }

  function LeavesFrom(node: string): CodeEdge -> bool {
    (e: CodeEdge) => e.source == node
  }

  function EntersAt(node: string): CodeEdge -> bool {
    (e: CodeEdge) => e.target == node
  }

  const SAME: CodeEdge -> CodeEdge := (e: CodeEdge) => e

  /** The tables list the edges that leave or enter a node in order, each as often as it occurs. */
  lemma {:induction false} TablesAre(edges: seq<CodeEdge>, node: string)
    ensures Picks(edges, LeavesFrom(node), SAME, Leaving(edges, node))
    ensures Picks(edges, EntersAt(node), SAME, Entering(edges, node))
  {
    hide Picks;
    if edges == [] {
      PicksNothing(LeavesFrom(node), SAME);
      PicksNothing(EntersAt(node), SAME);
    } else {
      var init, last := edges[..|edges| - 1], edges[|edges| - 1];
      assert edges == init + [last];
      TablesAre(init, node);
      LeavingThen(init, last, node);
      EnteringThen(init, last, node);
      PicksMore(init, LeavesFrom(node), SAME, Leaving(init, node), last);
      PicksMore(init, EntersAt(node), SAME, Entering(init, node), last);
    }
  }

  lemma NoEdges()
    ensures forall n :: Leaving([], n) == [] && Entering([], n) == []
  {
  }

  /** A chain of edges from `a` to `b`, each starting where the one before ends. */
  ghost predicate IsChain(links: set<CodeEdge>, a: string, b: string, chain: seq<CodeEdge>)
  {
    && (forall e | e in chain :: e in links)
    && (if chain == [] then a == b
        else chain[0].source == a && chain[|chain| - 1].target == b
             && forall i | 0 <= i < |chain| - 1 :: chain[i].target == chain[i + 1].source)
  }

  // ---- what the search knows ----

  /** `dist` is over the nodes seen, and `prev` holds the edge each was first seen by. */
  ghost predicate Tree(links: set<CodeEdge>, a: string, prev: map<string, CodeEdge>, dist: map<string, nat>) {
    && a in dist && dist[a] == 0 && prev.Keys == dist.Keys - {a}
    && forall n | n in prev ::
         && prev[n] in links && prev[n].target == n
         && prev[n].source in dist && dist[n] == dist[prev[n].source] + 1
  }

  /** The out-edges of the nodes in `done` lead to nodes seen, at most one step further. */
  ghost predicate Expanded(links: set<CodeEdge>, done: set<string>, dist: map<string, nat>)
    requires done <= dist.Keys
  {
    forall e | e in links && e.source in done :: e.target in dist && dist[e.target] <= dist[e.source] + 1
  }

  /** The queue holds nodes in order of distance, at most one step apart and none before `d`. */
  ghost predicate Layered(queue: seq<string>, dist: map<string, nat>, d: nat) {
    && (forall n | n in queue :: n in dist && d <= dist[n] <= d + 1)
    && forall i, j | 0 <= i < j < |queue| :: dist[queue[i]] <= dist[queue[j]]
  }

  /** Once every node nearer than `d` is expanded, chains of at most `d` edges end at nodes seen. */
  lemma {:induction false} NearIsSeen(links: set<CodeEdge>, a: string, done: set<string>, dist: map<string, nat>,
                                      d: nat, v: string, chain: seq<CodeEdge>)
    requires a in dist && dist[a] == 0 && done <= dist.Keys && Expanded(links, done, dist)
    requires forall n | n in dist :: n in done || d <= dist[n]
    requires IsChain(links, a, v, chain) && |chain| <= d
    ensures v in dist && dist[v] <= |chain|
    decreases |chain|
  {
    if chain != [] {
      var e := chain[|chain| - 1];
      ChainFront(links, a, v, chain);
      NearIsSeen(links, a, done, dist, d, e.source, chain[..|chain| - 1]);
    }
  }

  lemma ChainFront(links: set<CodeEdge>, a: string, v: string, chain: seq<CodeEdge>)
    requires IsChain(links, a, v, chain) && chain != []
    ensures IsChain(links, a, chain[|chain| - 1].source, chain[..|chain| - 1])
    ensures chain[|chain| - 1] in links && chain[|chain| - 1].target == v
  {
    var front := chain[..|chain| - 1];
    if front != [] {
      assert chain[|front| - 1].target == chain[|front|].source;
    }
  }

  lemma {:induction false} ExpandedIsClosed(links: set<CodeEdge>, a: string, dist: map<string, nat>, v: string,
                                            chain: seq<CodeEdge>)
    requires a in dist && Expanded(links, dist.Keys, dist) && IsChain(links, a, v, chain)
    ensures v in dist
    decreases |chain|
  {
    if chain != [] {
      ChainFront(links, a, v, chain);
      ExpandedIsClosed(links, a, dist, chain[|chain| - 1].source, chain[..|chain| - 1]);
    }
  }

  function Reversed<T>(s: seq<T>): (r: seq<T>)
    ensures |r| == |s| && forall i | 0 <= i < |r| :: r[i] == s[|s| - 1 - i]
  {
    seq(|s|, i requires 0 <= i < |s| => s[|s| - 1 - i])
  }

  lemma ChainGrows(links: set<CodeEdge>, e: CodeEdge, b: string, chain: seq<CodeEdge>)
    requires e in links && IsChain(links, e.target, b, Reversed(chain))
    ensures IsChain(links, e.source, b, Reversed(chain + [e]))
  {
    assert Reversed(chain + [e]) == [e] + Reversed(chain);
    assert chain == [] ==> Reversed(chain) == [];
  }

  lemma EmptyChain(links: set<CodeEdge>, a: string, b: string)
    ensures IsChain(links, a, b, []) <==> a == b
  {
  }

  /** Follows `prev` back from `b`: the chain has as many edges as `b` is away. */
  method Unwind(ghost links: set<CodeEdge>, ghost a: string, b: string, prev: map<string, CodeEdge>,
                ghost dist: map<string, nat>)
    returns (r: seq<CodeEdge>)
    requires Tree(links, a, prev, dist) && b in dist
    ensures IsChain(links, a, b, r) && |r| == dist[b]
  {
    var chain: seq<CodeEdge> := [];
    var node := b;
    while node in prev
      invariant node in dist && dist[node] + |chain| == dist[b]
      invariant IsChain(links, node, b, Reversed(chain))
      decreases dist[node]
    {
      ChainGrows(links, prev[node], b, chain);
      chain := chain + [prev[node]];
      node := prev[node].source;
    }
    return Reversed(chain);
  }

  /** What holds while the out-edges of `cur` are being visited: the nodes before the queue are expanded,
      except `cur` itself, and the goal is not seen yet. */
  ghost predicate Visiting(links: set<CodeEdge>, a: string, b: string, cur: string, seen: set<string>,
                           prev: map<string, CodeEdge>, queue: seq<string>, dist: map<string, nat>, done: set<string>)
  {
    && seen == dist.Keys && b !in seen && cur in dist && Tree(links, a, prev, dist)
    && done <= seen && (forall n | n in seen :: n in done || n == cur || n in queue)
    && Expanded(links, done, dist) && Layered(queue, dist, dist[cur])
    && forall n | n in done :: dist[n] <= dist[cur]
  }

  lemma GoalIsFar(links: set<CodeEdge>, a: string, b: string, cur: string, seen: set<string>,
                  prev: map<string, CodeEdge>, queue: seq<string>, dist: map<string, nat>, done: set<string>)
    requires Visiting(links, a, b, cur, seen, prev, queue, dist, done)
    ensures forall c | IsChain(links, a, b, c) :: dist[cur] < |c|
  {
    forall c | IsChain(links, a, b, c) ensures dist[cur] < |c| {
      if |c| <= dist[cur] {
        NearIsSeen(links, a, done, dist, dist[cur], b, c);
      }
    }
  }

  lemma SeeNode(links: set<CodeEdge>, a: string, b: string, cur: string, seen: set<string>,
                prev: map<string, CodeEdge>, queue: seq<string>, dist: map<string, nat>, done: set<string>, e: CodeEdge)
    requires Visiting(links, a, b, cur, seen, prev, queue, dist, done)
    requires e in links && e.source == cur && e.target !in seen
    ensures var dist' := dist[e.target := dist[cur] + 1];
            && Tree(links, a, prev[e.target := e], dist')
            && (e.target != b ==>
                Visiting(links, a, b, cur, seen + {e.target}, prev[e.target := e], queue + [e.target], dist', done))
  {
  }

  /** Visits the out-edges of `cur`; stops at once when one leads to the goal. */
  method VisitEdges(ghost links: set<CodeEdge>, ghost a: string, b: string, ghost cur: string, edges: seq<CodeEdge>,
                    seen0: set<string>, prev0: map<string, CodeEdge>, queue0: seq<string>,
                    ghost dist0: map<string, nat>, ghost done: set<string>)
    returns (found: bool, seen: set<string>, prev: map<string, CodeEdge>, queue: seq<string>,
             ghost dist: map<string, nat>)
    requires Visiting(links, a, b, cur, seen0, prev0, queue0, dist0, done)
    requires forall e | e in edges :: e in links && e.source == cur
    ensures seen0 <= seen <= seen0 + set e | e in edges :: e.target
    ensures seen == seen0 ==> queue == queue0
    ensures found ==> Tree(links, a, prev, dist) && b in dist && forall c | IsChain(links, a, b, c) :: dist[b] <= |c|
    ensures !found ==> Visiting(links, a, b, cur, seen, prev, queue, dist, done)
                       && forall e | e in edges :: e.target in seen
  {
    hide Visiting, Tree, Expanded, Layered, IsChain;
    seen, prev, queue, dist := seen0, prev0, queue0, dist0;
    for k := 0 to |edges|
      invariant seen0 <= seen <= seen0 + set e | e in edges :: e.target
      invariant seen == seen0 ==> queue == queue0
      invariant Visiting(links, a, b, cur, seen, prev, queue, dist, done)
      invariant forall i | 0 <= i < k :: edges[i].target in seen
    {
      var e := edges[k];
      assert e in edges;
      if e.target in seen {
        continue;
      }
      GoalIsFar(links, a, b, cur, seen, prev, queue, dist, done);
      SeeNode(links, a, b, cur, seen, prev, queue, dist, done, e);
      CurIsSeen(links, a, b, cur, seen, prev, queue, dist, done);
      seen := seen + {e.target};
      prev := prev[e.target := e];
      dist := dist[e.target := dist[cur] + 1];
      if e.target == b {
        found := true;
        return;
      }
      queue := queue + [e.target];
    }
    found := false;
  }

  lemma CurIsSeen(links: set<CodeEdge>, a: string, b: string, cur: string, seen: set<string>,
                  prev: map<string, CodeEdge>, queue: seq<string>, dist: map<string, nat>, done: set<string>)
    requires Visiting(links, a, b, cur, seen, prev, queue, dist, done)
    ensures seen == dist.Keys && cur in dist
  {
  }

  /** What holds between two nodes taken from the queue. */
  ghost predicate Searching(links: set<CodeEdge>, a: string, b: string, seen: set<string>,
                            prev: map<string, CodeEdge>, queue: seq<string>, dist: map<string, nat>, done: set<string>)
  {
    && seen == dist.Keys && b !in seen && Tree(links, a, prev, dist)
    && done <= seen && (forall n | n in seen :: n in done || n in queue)
    && Expanded(links, done, dist)
    && (queue != [] ==> queue[0] in dist && Layered(queue, dist, dist[queue[0]])
                        && forall n | n in done :: dist[n] <= dist[queue[0]])
  }

  lemma StartSearch(links: set<CodeEdge>, a: string, b: string)
    requires a != b
    ensures Searching(links, a, b, {a}, map[], [a], map[a := 0], {})
  {
  }

  lemma StartVisit(links: set<CodeEdge>, a: string, b: string, seen: set<string>, prev: map<string, CodeEdge>,
                   queue: seq<string>, dist: map<string, nat>, done: set<string>)
    requires Searching(links, a, b, seen, prev, queue, dist, done) && queue != []
    ensures Visiting(links, a, b, queue[0], seen, prev, queue[1..], dist, done)
  {
    hide Tree, Expanded;
    assert queue == [queue[0]] + queue[1..];
  }

  lemma EndVisit(links: set<CodeEdge>, a: string, b: string, cur: string, seen: set<string>,
                 prev: map<string, CodeEdge>, queue: seq<string>, dist: map<string, nat>, done: set<string>)
    requires Visiting(links, a, b, cur, seen, prev, queue, dist, done)
    requires forall e | e in links && e.source == cur :: e.target in seen
    ensures Searching(links, a, b, seen, prev, queue, dist, done + {cur})
  {
    hide Tree;
    forall e | e in links && e.source == cur ensures e.target in dist && dist[e.target] <= dist[cur] + 1 {
      assert e.target in seen;
    }
  }

  lemma NeverFound(links: set<CodeEdge>, a: string, b: string, seen: set<string>, prev: map<string, CodeEdge>,
                   dist: map<string, nat>, done: set<string>)
    requires Searching(links, a, b, seen, prev, [], dist, done)
    ensures forall c :: !IsChain(links, a, b, c)
  {
    assert done == dist.Keys;
    forall c ensures !IsChain(links, a, b, c) {
      if IsChain(links, a, b, c) {
        ExpandedIsClosed(links, a, dist, b, c);
      }
    }
  }

  class CodeGraph {
    const links: seq<CodeEdge>
    const outgoing: map<string, seq<CodeEdge>>
    const incoming: map<string, seq<CodeEdge>>

    /** The adjacency tables hold, for every name, the edges of the map that leave or enter it, in the
        map's own order. */
    ghost predicate Valid() {
      && (forall n :: EdgesAt(outgoing, n) == Leaving(links, n))
      && (forall n :: EdgesAt(incoming, n) == Entering(links, n))
    }

    constructor FromLinks(links: seq<CodeEdge>)
      ensures Valid() && this.links == links
    {
      hide Leaving, Entering;
      NoEdges();
      var out: map<string, seq<CodeEdge>>, in_: map<string, seq<CodeEdge>> := map[], map[];
      for k := 0 to |links|
        invariant forall n :: EdgesAt(out, n) == Leaving(links[..k], n)
        invariant forall n :: EdgesAt(in_, n) == Entering(links[..k], n)
      {
        var edge := links[k];
        ghost var out0, in0 := out, in_;
        out := out[edge.source := EdgesAt(out, edge.source) + [edge]];
        in_ := in_[edge.target := EdgesAt(in_, edge.target) + [edge]];
        assert links[..k + 1] == links[..k] + [edge];
        forall n
          ensures EdgesAt(out, n) == Leaving(links[..k + 1], n) && EdgesAt(in_, n) == Entering(links[..k + 1], n)
        {
          LeavingThen(links[..k], edge, n);
          EnteringThen(links[..k], edge, n);
          assert EdgesAt(out0, n) == Leaving(links[..k], n) && EdgesAt(in0, n) == Entering(links[..k], n);
        }
      }
      assert links[..|links|] == links;
      this.links, outgoing, incoming := links, out, in_;
    }

    ghost function Links(): set<CodeEdge> {
      set e | e in links
    }

    method Path(a: string, b: string) returns (chain: seq<CodeEdge>)
      requires Valid()
      ensures chain == [] <==> a == b || !exists c :: IsChain(Links(), a, b, c)
      ensures chain != [] ==> IsChain(Links(), a, b, chain)
      ensures chain != [] ==> forall c | IsChain(Links(), a, b, c) :: |chain| <= |c|
    {
      hide Searching, Visiting, Expanded, Layered, Tree, Leaving, Entering, IsChain;
      EmptyChain(Links(), a, b);
      if a == b {
        return [];
      }
      StartSearch(Links(), a, b);
      var prev: map<string, CodeEdge> := map[];
      var seen := {a};
      var queue := [a];
      ghost var arcs := Links();
      ghost var dist: map<string, nat> := map[a := 0];
      ghost var done: set<string> := {};
      ghost var all := {a} + set e | e in links :: e.target;
      while queue != []
        invariant seen <= all && Searching(arcs, a, b, seen, prev, queue, dist, done)
        decreases all - seen, |queue|
      {
        StartVisit(arcs, a, b, seen, prev, queue, dist, done);
        var cur := queue[0];
        queue := queue[1..];
        var found, seen', prev', queue';
        ghost var dist';
        found, seen', prev', queue', dist' :=
          VisitEdges(arcs, a, b, cur, EdgesAt(outgoing, cur), seen, prev, queue, dist, done);
        if found {
          chain := Unwind(arcs, a, b, prev', dist');
          return;
        }
        EndVisit(arcs, a, b, cur, seen', prev', queue', dist', done);
        if seen' != seen {
          assert all - seen' < all - seen;
        }
        seen, prev, queue, dist := seen', prev', queue', dist';
        done := done + {cur};
      }
      NeverFound(arcs, a, b, seen, prev, dist, done);
      return [];
    }
  }
}
