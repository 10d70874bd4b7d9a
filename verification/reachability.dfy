/** Paths and reachability in a finite directed graph, given as its set of arcs. */
module Reachability {

  /** `path` lists the nodes visited on the way from `a` to `b`, both included. */
  ghost predicate IsPath<T>(arcs: set<(T, T)>, a: T, b: T, path: seq<T>) {
    && path != [] && path[0] == a && path[|path| - 1] == b
    && forall i | 0 <= i < |path| - 1 :: (path[i], path[i + 1]) in arcs
  }

  ghost predicate Reaches<T(!new)>(arcs: set<(T, T)>, a: T, b: T) {
    exists path :: IsPath(arcs, a, b, path)
  }

  lemma ReachesSelf<T(!new)>(arcs: set<(T, T)>, a: T)
    ensures Reaches(arcs, a, a)
  {
    assert IsPath(arcs, a, a, [a]);
  }

  lemma ReachesOn<T(!new)>(arcs: set<(T, T)>, a: T, b: T, c: T)
    requires Reaches(arcs, a, b) && (b, c) in arcs
    ensures Reaches(arcs, a, c)
  {
    var path :| IsPath(arcs, a, b, path);
    assert IsPath(arcs, a, c, path + [c]);
  }

  lemma ReachesThrough<T(!new)>(arcs: set<(T, T)>, a: T, b: T, c: T)
    requires Reaches(arcs, a, b) && Reaches(arcs, b, c)
    ensures Reaches(arcs, a, c)
  {
    var p :| IsPath(arcs, a, b, p);
    var q :| IsPath(arcs, b, c, q);
    var r := p + q[1..];
    forall i | 0 <= i < |r| - 1 ensures (r[i], r[i + 1]) in arcs {
      if i == |p| - 1 {
        assert r[i] == q[0] && r[i + 1] == q[1];
      } else if i >= |p| {
        assert r[i] == q[i - |p| + 1] && r[i + 1] == q[i - |p| + 2];
      }
    }
    assert IsPath(arcs, a, c, r);
  }

  ghost predicate Closed<T(!new)>(arcs: set<(T, T)>, nodes: set<T>) {
    forall x, y | x in nodes && (x, y) in arcs :: y in nodes
  }

  lemma {:induction false} PathStaysIn<T(!new)>(arcs: set<(T, T)>, nodes: set<T>, a: T, b: T, path: seq<T>)
    requires Closed(arcs, nodes) && a in nodes && IsPath(arcs, a, b, path)
    ensures b in nodes
    decreases |path|
  {
    if |path| > 1 {
      assert (path[0], path[1]) in arcs;
      PathStaysIn(arcs, nodes, path[1], b, path[1..]);
    }
  }

  /** A closed set that holds the start holds all that is reachable. */
  lemma ReachesStaysIn<T(!new)>(arcs: set<(T, T)>, nodes: set<T>, a: T, b: T)
    requires Closed(arcs, nodes) && a in nodes && Reaches(arcs, a, b)
    ensures b in nodes
  {
    var path :| IsPath(arcs, a, b, path);
    PathStaysIn(arcs, nodes, a, b, path);
  }
}
