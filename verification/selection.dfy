/** What it is to pick elements out of a list: all that qualify, in their order, as often as they occur. */
module Selection {
  import opened Wrappers

  /** The places of the elements that qualify. */
  ghost predicate Places<T>(all: seq<T>, qualifies: T -> bool, places: seq<nat>) {
    && (forall m, n | 0 <= m < n < |places| :: places[m] < places[n])
    && (forall i: nat :: i in places <==> i < |all| && qualifies(all[i]))
  }

  /** `picked` is what `part` takes from the elements at these places. */
  ghost predicate Taken<T, U>(all: seq<T>, part: T -> U, places: seq<nat>, picked: seq<U>) {
    |places| == |picked| && forall n | 0 <= n < |places| :: places[n] < |all| && picked[n] == part(all[places[n]])
  }

  /** `picked` is what `part` takes from the elements that qualify. */
  ghost predicate Picks<T, U>(all: seq<T>, qualifies: T -> bool, part: T -> U, picked: seq<U>) {
    exists places: seq<nat> :: Places(all, qualifies, places) && Taken(all, part, places, picked)
  }

  /** The places of a list of this length. */
  function Numbers(n: nat): seq<int> {
    seq(n, i => i)
  }

  function Somes<T>(xs: seq<T>): (ys: seq<Option<T>>)
    ensures |ys| == |xs| && forall i | 0 <= i < |xs| :: ys[i] == Some(xs[i])
  {
    seq(|xs|, i requires 0 <= i < |xs| => Some(xs[i]))
  }

  lemma PicksNothing<T, U>(qualifies: T -> bool, part: T -> U)
    ensures Picks([], qualifies, part, [])
  {
    assert Places([], qualifies, []) && Taken([], part, [], []);
  }

  lemma PlacesMore<T>(all: seq<T>, qualifies: T -> bool, places: seq<nat>, x: T)
    requires Places(all, qualifies, places)
    ensures Places(all + [x], qualifies, if qualifies(x) then places + [|all|] else places)
  {
    var more := if qualifies(x) then places + [|all|] else places;
    forall i: nat ensures i in more <==> i < |all + [x]| && qualifies((all + [x])[i]) {
      assert i in more <==> i in places || (qualifies(x) && i == |all|);
    }
    forall m, n | 0 <= m < n < |more| ensures more[m] < more[n] {
      if n == |places| {
        assert places[m] in places;
      }
    }
  }

  lemma PicksMore<T, U>(all: seq<T>, qualifies: T -> bool, part: T -> U, picked: seq<U>, x: T)
    requires Picks(all, qualifies, part, picked)
    ensures Picks(all + [x], qualifies, part, if qualifies(x) then picked + [part(x)] else picked)
  {
    hide Places;
    var places: seq<nat> :| Places(all, qualifies, places) && Taken(all, part, places, picked);
    PlacesMore(all, qualifies, places, x);
    assert Taken(all + [x], part, if qualifies(x) then places + [|all|] else places,
                 if qualifies(x) then picked + [part(x)] else picked);
  }
}
