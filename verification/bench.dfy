/** Matching a detector's findings against ground truth. Credit goes one to one, and only for the same
    normalised location and the same tag. */
module Bench {
  import opened Sorting
  import opened Wrappers

  datatype GroundTruth = GroundTruth(findingId: string, tag: string, location: string, functionName: string)

  /** A candidate without a tag can never be credited. */
  datatype Candidate = Candidate(findingId: string, tag: Option<string>, location: string, functionName: string)

  datatype Mismatch = TagMismatch | LocationMismatch

  datatype MatchResult = MatchResult(matched: seq<(Candidate, GroundTruth)>, missed: seq<GroundTruth>,
                                     spurious: seq<Candidate>,
                                     needsReview: seq<(Candidate, GroundTruth, Mismatch)>)

  type Place = (string, string)

  /** What is credited: a place and a tag. */
  type Key = (Place, string)

  /** `normalize_location`: any function of location and function name. */
  type Normalizer = (string, string) -> Place

  predicate SamePlace(norm: Normalizer, c: Candidate, g: GroundTruth) {
    norm(c.location, c.functionName) == norm(g.location, g.functionName)
  }

  predicate SameTag(c: Candidate, g: GroundTruth) {
    c.tag == Some(g.tag)
  }

  predicate Credits(norm: Normalizer, c: Candidate, g: GroundTruth) {
    SamePlace(norm, c, g) && SameTag(c, g)
  }

  // ---- counting keys ----

  /** How often each key occurs among the elements that have one. */
  function Keys<T(!new), K>(s: seq<T>, key: T -> Option<K>): multiset<K> {
    if s == [] then multiset{} else KeyOf(s[0], key) + Keys(s[1..], key)
  }

  function KeyOf<T(!new), K>(x: T, key: T -> Option<K>): multiset<K> {
    if key(x).Some? then multiset{key(x).value} else multiset{}
  }

  lemma {:induction false} KeysOfConcat<T(!new), K>(a: seq<T>, b: seq<T>, key: T -> Option<K>)
    ensures Keys(a + b, key) == Keys(a, key) + Keys(b, key)
  {
    hide KeyOf;
    if a == [] {
      assert a + b == b;
    } else {
      KeysOfConcat(a[1..], b, key);
      assert (a + b)[0] == a[0] && (a + b)[1..] == a[1..] + b;
      assert Keys(a + b, key) == KeyOf(a[0], key) + Keys(a[1..] + b, key);
    }
  }

  function RemoveFirst<T(==)>(s: seq<T>, x: T): (r: seq<T>)
    requires x in s
    ensures multiset(r) == multiset(s) - multiset{x}
  {
    assert s == [s[0]] + s[1..];
    if s[0] == x then s[1..] else [s[0]] + RemoveFirst(s[1..], x)
  }

  lemma {:induction false} KeysOfRemove<T(!new), K>(s: seq<T>, x: T, key: T -> Option<K>)
    requires x in s
    ensures Keys(s, key) == Keys(RemoveFirst(s, x), key) + Keys([x], key)
  {
    assert [x][1..] == [];
    if s[0] != x {
      KeysOfRemove(s[1..], x, key);
      assert ([s[0]] + RemoveFirst(s[1..], x))[1..] == RemoveFirst(s[1..], x);
    }
  }

  lemma {:induction false} MoreElementsMoreKeys<T(!new), K>(a: seq<T>, b: seq<T>, key: T -> Option<K>)
    requires multiset(a) <= multiset(b)
    ensures Keys(a, key) <= Keys(b, key)
  {
    if a != [] {
      assert a == [a[0]] + a[1..];
      assert a[0] in multiset(a);
      KeysOfRemove(b, a[0], key);
      MoreElementsMoreKeys(a[1..], RemoveFirst(b, a[0]), key);
      assert [a[0]][1..] == [];
    }
  }

  function CandidateKey(norm: Normalizer): Candidate -> Option<Key> {
    (c: Candidate) => if c.tag.Some? then Some((norm(c.location, c.functionName), c.tag.value)) else None
  }

  function TruthKey(norm: Normalizer): GroundTruth -> Option<Key> {
    (g: GroundTruth) => Some((norm(g.location, g.functionName), g.tag))
  }

  function Candidates(pairs: seq<(Candidate, GroundTruth)>): seq<Candidate> {
    if pairs == [] then [] else [pairs[0].0] + Candidates(pairs[1..])
  }

  function Truths(pairs: seq<(Candidate, GroundTruth)>): (r: seq<GroundTruth>)
    ensures |r| == |pairs|
  {
    if pairs == [] then [] else [pairs[0].1] + Truths(pairs[1..])
  }

  /** For each key the smaller of the number of candidates and of truths that have it: all that can be
      credited. */
  function Creditable(norm: Normalizer, produced: seq<Candidate>, truth: seq<GroundTruth>): multiset<Key> {
    Keys(produced, CandidateKey(norm)) * Keys(truth, TruthKey(norm))
  }

  function Reviewed(entries: seq<(Candidate, GroundTruth, Mismatch)>): seq<Candidate> {
    if entries == [] then [] else [entries[0].0] + Reviewed(entries[1..])
  }

  lemma {:induction false} CandidatesThen(pairs: seq<(Candidate, GroundTruth)>, p: (Candidate, GroundTruth))
    ensures Candidates(pairs + [p]) == Candidates(pairs) + [p.0]
    ensures Truths(pairs + [p]) == Truths(pairs) + [p.1]
  {
    if pairs == [] {
      assert pairs + [p] == [p] && [p][1..] == [];
    } else {
      CandidatesThen(pairs[1..], p);
      assert (pairs + [p])[1..] == pairs[1..] + [p];
    }
  }

  lemma {:induction false} ReviewedThen(entries: seq<(Candidate, GroundTruth, Mismatch)>,
                                        e: (Candidate, GroundTruth, Mismatch))
    ensures Reviewed(entries + [e]) == Reviewed(entries) + [e.0]
  {
    if entries == [] {
      assert entries + [e] == [e] && [e][1..] == [];
    } else {
      ReviewedThen(entries[1..], e);
      assert (entries + [e])[1..] == entries[1..] + [e];
    }
  }

  // ---- matching ----

  /** The first truth that credits the candidate and, if there is none, the first that shares its place
      or its tag. */
  method FindTruth(norm: Normalizer, cand: Candidate, unclaimed: seq<GroundTruth>)
    returns (hit: Option<GroundTruth>, near: Option<(GroundTruth, Mismatch)>)
    ensures hit.Some? ==> exists j | 0 <= j < |unclaimed| ::
                            unclaimed[j] == hit.value && Credits(norm, cand, hit.value)
                            && forall k | 0 <= k < j :: !Credits(norm, cand, unclaimed[k])
    ensures hit.None? ==> forall g | g in unclaimed :: !Credits(norm, cand, g)
    ensures hit.None? ==> (near.None? <==> forall g | g in unclaimed :: !SamePlace(norm, cand, g) && !SameTag(cand, g))
    ensures hit.None? && near.Some? ==>
              exists j | 0 <= j < |unclaimed| ::
                && unclaimed[j] == near.value.0
                && (SamePlace(norm, cand, near.value.0) || SameTag(cand, near.value.0))
                && (forall k | 0 <= k < j :: !SamePlace(norm, cand, unclaimed[k]) && !SameTag(cand, unclaimed[k]))
                && near.value.1 == (if SamePlace(norm, cand, near.value.0) then TagMismatch else LocationMismatch)
  {
    hit, near := None, None;
    for j := 0 to |unclaimed|
      invariant hit.None? && forall k | 0 <= k < j :: !Credits(norm, cand, unclaimed[k])
      invariant near.None? ==>
                forall k | 0 <= k < j :: !SamePlace(norm, cand, unclaimed[k]) && !SameTag(cand, unclaimed[k])
      invariant near.Some? ==>
                  exists i | 0 <= i < j ::
                    && unclaimed[i] == near.value.0
                    && (SamePlace(norm, cand, unclaimed[i]) || SameTag(cand, unclaimed[i]))
                    && (forall k | 0 <= k < i :: !SamePlace(norm, cand, unclaimed[k]) && !SameTag(cand, unclaimed[k]))
                    && near.value.1 == (if SamePlace(norm, cand, near.value.0) then TagMismatch else LocationMismatch)
    {
      var gt := unclaimed[j];
      var sameLoc := norm(cand.location, cand.functionName) == norm(gt.location, gt.functionName);
      var sameTag := cand.tag.Some? && cand.tag.value == gt.tag;
      if sameLoc && sameTag {
        hit := Some(gt);
        break;
      }
      if sameLoc && near.None? {
        near := Some((gt, TagMismatch));
      } else if sameTag && near.None? {
        near := Some((gt, LocationMismatch));
      }
    }
  }

  /** Nothing produced and no truth is lost or counted twice. */
  predicate Splits(produced: seq<Candidate>, truth: seq<GroundTruth>, r: MatchResult) {
    && multiset(produced) == multiset(Candidates(r.matched)) + multiset(Reviewed(r.needsReview)) + multiset(r.spurious)
    && multiset(truth) == multiset(Truths(r.matched)) + multiset(r.missed)
  }

  predicate OnlyCredited(norm: Normalizer, r: MatchResult) {
    forall p | p in r.matched :: Credits(norm, p.0, p.1)
  }

  /** No candidate left over could be credited with a truth that was missed, and the spurious ones share
      neither place nor tag with any. */
  predicate NothingLeft(norm: Normalizer, r: MatchResult) {
    && (forall e, g | e in r.needsReview && g in r.missed :: !Credits(norm, e.0, g))
    && (forall c, g | c in r.spurious && g in r.missed :: !SamePlace(norm, c, g) && !SameTag(c, g))
  }

  predicate ReviewsExplained(norm: Normalizer, truth: seq<GroundTruth>, r: MatchResult) {
    forall e | e in r.needsReview ::
      && e.1 in truth
      && (e.2 == TagMismatch <==> SamePlace(norm, e.0, e.1)) && (e.2 == LocationMismatch <==> SameTag(e.0, e.1))
  }

  /** What holds after some candidates: `left` are still to come, `r.missed` is still unclaimed. */
  predicate Matching(norm: Normalizer, done: seq<Candidate>, left: seq<Candidate>, truth: seq<GroundTruth>,
                     r: MatchResult, goal: multiset<Key>) {
    && Splits(done, truth, r) && OnlyCredited(norm, r) && NothingLeft(norm, r) && ReviewsExplained(norm, truth, r)
    && Balanced(norm, left, r, goal)
  }

  /** The keys credited so far and those that can still be make up the goal. */
  predicate Balanced(norm: Normalizer, left: seq<Candidate>, r: MatchResult, goal: multiset<Key>) {
    Keys(Truths(r.matched), TruthKey(norm)) + Creditable(norm, left, r.missed) == goal
  }

  lemma SplitsHit(done: seq<Candidate>, c: Candidate, truth: seq<GroundTruth>, r: MatchResult, hit: GroundTruth)
    requires Splits(done, truth, r) && hit in r.missed
    ensures Splits(done + [c], truth, r.(matched := r.matched + [(c, hit)], missed := RemoveFirst(r.missed, hit)))
  {
    hide Candidates, Truths, Reviewed, RemoveFirst;
    CandidatesThen(r.matched, (c, hit));
  }

  lemma KeysFirst<T(!new), K>(x: T, s: seq<T>, key: T -> Option<K>)
    ensures Keys([x] + s, key) == (if key(x).Some? then multiset{key(x).value} else multiset{}) + Keys(s, key)
    ensures Keys([], key) == multiset{}
  {
    assert ([x] + s)[1..] == s;
  }

  lemma MeetOfBoth<K>(a: multiset<K>, b: multiset<K>, k: K)
    ensures (multiset{k} + a) * (b + multiset{k}) == multiset{k} + a * b
  {
  }

  lemma BalancedHit(norm: Normalizer, c: Candidate, left: seq<Candidate>, r: MatchResult, goal: multiset<Key>,
                    hit: GroundTruth)
    requires Balanced(norm, [c] + left, r, goal) && hit in r.missed && Credits(norm, c, hit)
    ensures Balanced(norm, left, r.(matched := r.matched + [(c, hit)], missed := RemoveFirst(r.missed, hit)), goal)
  {
    hide Candidates, Truths, RemoveFirst, Keys;
    CandidatesThen(r.matched, (c, hit));
    KeysOfConcat(Truths(r.matched), [hit], TruthKey(norm));
    KeysOfRemove(r.missed, hit, TruthKey(norm));
    KeysFirst(c, left, CandidateKey(norm));
    KeysFirst(hit, [], TruthKey(norm));
    assert [hit] + [] == [hit];
    MeetOfBoth(Keys(left, CandidateKey(norm)), Keys(RemoveFirst(r.missed, hit), TruthKey(norm)),
               TruthKey(norm)(hit).value);
  }

  lemma TakeHit(norm: Normalizer, done: seq<Candidate>, c: Candidate, left: seq<Candidate>, truth: seq<GroundTruth>,
                r: MatchResult, goal: multiset<Key>, hit: GroundTruth)
    requires Matching(norm, done, [c] + left, truth, r, goal)
    requires hit in r.missed && Credits(norm, c, hit)
    ensures Matching(norm, done + [c], left, truth,
                     r.(matched := r.matched + [(c, hit)], missed := RemoveFirst(r.missed, hit)), goal)
  {
    hide Splits, Keys, Creditable, Credits, SamePlace, SameTag, RemoveFirst;
    SplitsHit(done, c, truth, r, hit);
    BalancedHit(norm, c, left, r, goal, hit);
    forall g | g in RemoveFirst(r.missed, hit) ensures g in r.missed {
      assert g in multiset(RemoveFirst(r.missed, hit));
    }
  }

  lemma LeaveOut(norm: Normalizer, c: Candidate, left: seq<Candidate>, r: MatchResult, goal: multiset<Key>)
    requires Balanced(norm, [c] + left, r, goal)
    requires forall g | g in r.missed :: !Credits(norm, c, g)
    ensures Balanced(norm, left, r, goal)
  {
    hide Credits, Truths;
    assert ([c] + left)[1..] == left;
    NoSuchKey(norm, c, r.missed);
  }

  lemma {:induction false} NoSuchKey(norm: Normalizer, c: Candidate, missed: seq<GroundTruth>)
    requires forall g | g in missed :: !Credits(norm, c, g)
    ensures CandidateKey(norm)(c).Some? ==> CandidateKey(norm)(c).value !in Keys(missed, TruthKey(norm))
  {
    if missed != [] {
      NoSuchKey(norm, c, missed[1..]);
      assert missed[0] in missed;
    }
  }

  lemma SplitsReview(done: seq<Candidate>, truth: seq<GroundTruth>, r: MatchResult,
                     e: (Candidate, GroundTruth, Mismatch))
    requires Splits(done, truth, r)
    ensures Splits(done + [e.0], truth, r.(needsReview := r.needsReview + [e]))
  {
    hide Candidates, Truths, Reviewed;
    ReviewedThen(r.needsReview, e);
  }

  lemma TakeReview(norm: Normalizer, done: seq<Candidate>, c: Candidate, left: seq<Candidate>, truth: seq<GroundTruth>,
                   r: MatchResult, goal: multiset<Key>, near: GroundTruth)
    requires Matching(norm, done, [c] + left, truth, r, goal)
    requires near in r.missed && (SamePlace(norm, c, near) || SameTag(c, near))
    requires forall g | g in r.missed :: !Credits(norm, c, g)
    ensures var why := if SamePlace(norm, c, near) then TagMismatch else LocationMismatch;
            Matching(norm, done + [c], left, truth, r.(needsReview := r.needsReview + [(c, near, why)]), goal)
  {
    hide Balanced, SamePlace, SameTag, Keys, Candidates, Truths, Reviewed;
    var why := if SamePlace(norm, c, near) then TagMismatch else LocationMismatch;
    SplitsReview(done, truth, r, (c, near, why));
    LeaveOut(norm, c, left, r, goal);
    BalanceIgnoresReview(norm, left, r, goal, r.needsReview + [(c, near, why)]);
    assert near in truth by {
      assert near in multiset(r.missed) && near in multiset(truth);
    }
  }

  lemma BalanceIgnoresReview(norm: Normalizer, left: seq<Candidate>, r: MatchResult, goal: multiset<Key>,
                             review: seq<(Candidate, GroundTruth, Mismatch)>)
    requires Balanced(norm, left, r, goal)
    ensures Balanced(norm, left, r.(needsReview := review), goal)
  {
  }

  lemma TakeSpurious(norm: Normalizer, done: seq<Candidate>, c: Candidate, left: seq<Candidate>,
                     truth: seq<GroundTruth>, r: MatchResult, goal: multiset<Key>)
    requires Matching(norm, done, [c] + left, truth, r, goal)
    requires forall g | g in r.missed :: !SamePlace(norm, c, g) && !SameTag(c, g)
    ensures Matching(norm, done + [c], left, truth, r.(spurious := r.spurious + [c]), goal)
  {
    hide SamePlace, SameTag, Keys, Candidates, Truths, Reviewed;
    LeaveOut(norm, c, left, r, goal);
  }

  /** A candidate that was left out although some matched truth would have credited it came after the one
      that got it. */
  predicate FirstCome(norm: Normalizer, matched: seq<(Candidate, GroundTruth)>,
                      needsReview: seq<(Candidate, GroundTruth, Mismatch)>, spurious: seq<Candidate>) {
    && (forall p, e | p in matched && e in needsReview && Credits(norm, e.0, p.1) ::
          LexLeq(p.0.findingId, e.0.findingId))
    && (forall p, c | p in matched && c in spurious && Credits(norm, c, p.1) :: LexLeq(p.0.findingId, c.findingId))
  }

  lemma NoneCameFirst(norm: Normalizer)
    ensures FirstCome(norm, [], [], [])
  {
  }

  lemma EarlierIsLess(cands: seq<Candidate>, i: nat)
    requires Ascending(cands, (c: Candidate) => c.findingId) && i < |cands|
    ensures forall c | c in cands[..i] :: LexLeq(c.findingId, cands[i].findingId)
  {
    hide LexLeq;
    var id := (c: Candidate) => c.findingId;
    forall c | c in cands[..i] ensures LexLeq(c.findingId, cands[i].findingId) {
      var k :| 0 <= k < i && cands[k] == c;
      assert LexLeq(id(cands[k]), id(cands[i]));
    }
  }

  lemma FirstComeHit(norm: Normalizer, done: seq<Candidate>, left: seq<Candidate>, truth: seq<GroundTruth>,
                     r: MatchResult, goal: multiset<Key>, cand: Candidate, hit: GroundTruth)
    requires Matching(norm, done, left, truth, r, goal) && hit in r.missed
    requires FirstCome(norm, r.matched, r.needsReview, r.spurious)
    ensures FirstCome(norm, r.matched + [(cand, hit)], r.needsReview, r.spurious)
  {
    hide Splits, Balanced, LexLeq, OnlyCredited, ReviewsExplained;
  }

  lemma FirstComeReviewed(norm: Normalizer, r: MatchResult, cand: Candidate, near: (GroundTruth, Mismatch))
    requires FirstCome(norm, r.matched, r.needsReview, r.spurious)
    requires forall p | p in r.matched :: LexLeq(p.0.findingId, cand.findingId)
    ensures FirstCome(norm, r.matched, r.needsReview + [(cand, near.0, near.1)], r.spurious)
  {
    hide LexLeq, Credits;
  }

  lemma FirstComeSpurious(norm: Normalizer, r: MatchResult, cand: Candidate)
    requires FirstCome(norm, r.matched, r.needsReview, r.spurious)
    requires forall p | p in r.matched :: LexLeq(p.0.findingId, cand.findingId)
    ensures FirstCome(norm, r.matched, r.needsReview, r.spurious + [cand])
  {
    hide LexLeq, Credits;
  }

  /** Whoever shares the normalised place and the tag of a truth may be credited with it; candidates come
      in the order of their ids. */
  method MatchFindings(norm: Normalizer, produced: seq<Candidate>, truth: seq<GroundTruth>) returns (r: MatchResult)
    ensures Splits(produced, truth, r) && OnlyCredited(norm, r)
    ensures NothingLeft(norm, r) && ReviewsExplained(norm, truth, r)
    ensures Keys(Truths(r.matched), TruthKey(norm)) == Creditable(norm, produced, truth)
    ensures Ascending(r.missed, (g: GroundTruth) => g.findingId)
    ensures FirstCome(norm, r.matched, r.needsReview, r.spurious)
  {
    hide Matching, Credits, SamePlace, SameTag, SortedBy, FirstCome, Ascending, LexLeq;
    var cands := SortedBy(produced, (c: Candidate) => c.findingId);
    r := MatchResult([], [], [], []);
    var unclaimed := truth;
    ghost var goal := Creditable(norm, cands, truth);
    StartMatching(norm, cands, truth);
    SortedIsAscending(produced, (c: Candidate) => c.findingId);
    NoneCameFirst(norm);
    assert cands[0..] == cands && cands[..0] == [];
    for i := 0 to |cands|
      invariant Matching(norm, cands[..i], cands[i..], truth, r.(missed := unclaimed), goal)
      invariant FirstCome(norm, r.matched, r.needsReview, r.spurious) && forall p | p in r.matched :: p.0 in cands[..i]
    {
      var cand := cands[i];
      EarlierIsLess(cands, i);
      assert cands[i..] == [cand] + cands[i + 1..] && cands[..i + 1] == cands[..i] + [cand];
      var hit, near := FindTruth(norm, cand, unclaimed);
      if hit.Some? {
        TakeHit(norm, cands[..i], cand, cands[i + 1..], truth, r.(missed := unclaimed), goal, hit.value);
        FirstComeHit(norm, cands[..i], cands[i..], truth, r.(missed := unclaimed), goal, cand, hit.value);
        r := r.(matched := r.matched + [(cand, hit.value)]);
        unclaimed := RemoveFirst(unclaimed, hit.value);
      } else if near.Some? {
        TakeReview(norm, cands[..i], cand, cands[i + 1..], truth, r.(missed := unclaimed), goal, near.value.0);
        FirstComeReviewed(norm, r, cand, near.value);
        r := r.(needsReview := r.needsReview + [(cand, near.value.0, near.value.1)]);
      } else {
        TakeSpurious(norm, cands[..i], cand, cands[i + 1..], truth, r.(missed := unclaimed), goal);
        FirstComeSpurious(norm, r, cand);
        r := r.(spurious := r.spurious + [cand]);
      }
    }
    assert cands[|cands|..] == [] && cands[..|cands|] == cands;
    EndMatching(norm, produced, cands, truth, r.(missed := unclaimed), goal);
    r := r.(missed := SortedBy(unclaimed, (g: GroundTruth) => g.findingId));
    SortedIsAscending(unclaimed, (g: GroundTruth) => g.findingId);
  }

  lemma StartMatching(norm: Normalizer, cands: seq<Candidate>, truth: seq<GroundTruth>)
    ensures Matching(norm, [], cands, truth, MatchResult([], truth, [], []), Creditable(norm, cands, truth))
  {
  }

  lemma EndMatching(norm: Normalizer, produced: seq<Candidate>, cands: seq<Candidate>, truth: seq<GroundTruth>,
                    r: MatchResult, goal: multiset<Key>)
    requires Matching(norm, cands, [], truth, r, goal) && goal == Creditable(norm, cands, truth)
    requires multiset(produced) == multiset(cands)
    ensures forall missed: seq<GroundTruth> | multiset(missed) == multiset(r.missed) ::
              var r' := r.(missed := missed);
              && Splits(produced, truth, r') && OnlyCredited(norm, r')
              && NothingLeft(norm, r') && ReviewsExplained(norm, truth, r')
    ensures Keys(Truths(r.matched), TruthKey(norm)) == Creditable(norm, produced, truth)
  {
    hide Candidates, Truths, Reviewed, SamePlace, SameTag, Keys;
    NoKeysLeft(norm, r, goal);
    SameKeys(produced, cands, CandidateKey(norm));
    forall missed: seq<GroundTruth>, g | multiset(missed) == multiset(r.missed) && g in missed ensures g in r.missed {
      assert g in multiset(missed);
    }
  }

  lemma NoKeysLeft(norm: Normalizer, r: MatchResult, goal: multiset<Key>)
    requires Balanced(norm, [], r, goal)
    ensures Keys(Truths(r.matched), TruthKey(norm)) == goal
  {
  }

  lemma SameKeys<T(!new), K>(a: seq<T>, b: seq<T>, key: T -> Option<K>)
    requires multiset(a) == multiset(b)
    ensures Keys(a, key) == Keys(b, key)
  {
    MoreElementsMoreKeys(a, b, key);
    MoreElementsMoreKeys(b, a, key);
  }

  // ---- what the credit means ----

  lemma {:induction false} PartsOfPairs(pairs: seq<(Candidate, GroundTruth)>,
                                        entries: seq<(Candidate, GroundTruth, Mismatch)>)
    ensures |Candidates(pairs)| == |Truths(pairs)| == |pairs| && |Reviewed(entries)| == |entries|
    ensures forall i | 0 <= i < |pairs| :: Candidates(pairs)[i] == pairs[i].0 && Truths(pairs)[i] == pairs[i].1
    ensures forall i | 0 <= i < |entries| :: Reviewed(entries)[i] == entries[i].0
  {
    if pairs != [] {
      PartsOfPairs(pairs[1..], entries);
    } else if entries != [] {
      PartsOfPairs(pairs, entries[1..]);
    }
  }

  /** The result of matching, spelled out: matched are pairs of the same normalised place and the same tag; a
      candidate under review shares the one that its reason does not name with the truth it stands by, and nothing
      missed agrees with it in both; a spurious one shares neither with anything missed. */
  lemma MatchMeans(norm: Normalizer, produced: seq<Candidate>, truth: seq<GroundTruth>, r: MatchResult)
    requires OnlyCredited(norm, r) && NothingLeft(norm, r) && ReviewsExplained(norm, truth, r)
    ensures forall c, g | (c, g) in r.matched ::
              norm(c.location, c.functionName) == norm(g.location, g.functionName) && c.tag == Some(g.tag)
    ensures forall c, g | (c, g, TagMismatch) in r.needsReview ::
              norm(c.location, c.functionName) == norm(g.location, g.functionName) && c.tag != Some(g.tag) && g in truth
    ensures forall c, g | (c, g, LocationMismatch) in r.needsReview ::
              norm(c.location, c.functionName) != norm(g.location, g.functionName) && c.tag == Some(g.tag) && g in truth
    ensures forall c, g, why, missed | (c, g, why) in r.needsReview && missed in r.missed ::
              || norm(c.location, c.functionName) != norm(missed.location, missed.functionName)
              || c.tag != Some(missed.tag)
    ensures forall c, missed | c in r.spurious && missed in r.missed ::
              && norm(c.location, c.functionName) != norm(missed.location, missed.functionName)
              && c.tag != Some(missed.tag)
  {
  }

  /** Pairs of candidates and truths, none used twice, each pair a credit. */
  predicate Assignment(norm: Normalizer, produced: seq<Candidate>, truth: seq<GroundTruth>,
                       pairs: seq<(Candidate, GroundTruth)>) {
    && multiset(Candidates(pairs)) <= multiset(produced) && multiset(Truths(pairs)) <= multiset(truth)
    && forall p | p in pairs :: Credits(norm, p.0, p.1)
  }

  lemma {:induction false} SameKeysOnBothSides(norm: Normalizer, pairs: seq<(Candidate, GroundTruth)>)
    requires forall p | p in pairs :: Credits(norm, p.0, p.1)
    ensures Keys(Candidates(pairs), CandidateKey(norm)) == Keys(Truths(pairs), TruthKey(norm))
    ensures |Keys(Truths(pairs), TruthKey(norm))| == |pairs|
  {
    if pairs != [] {
      SameKeysOnBothSides(norm, pairs[1..]);
      assert pairs[0] in pairs;
    }
  }

  /** The credit given is the most that any one-to-one assignment of candidates to truths could give. */
  lemma MatchedIsOptimal(norm: Normalizer, produced: seq<Candidate>, truth: seq<GroundTruth>, r: MatchResult,
                         pairs: seq<(Candidate, GroundTruth)>)
    requires Splits(produced, truth, r) && OnlyCredited(norm, r)
    requires Keys(Truths(r.matched), TruthKey(norm)) == Creditable(norm, produced, truth)
    requires Assignment(norm, produced, truth, pairs)
    ensures Assignment(norm, produced, truth, r.matched) && |pairs| <= |r.matched|
  {
    hide Keys, Candidates, Truths, Reviewed, Credits;
    SameKeysOnBothSides(norm, pairs);
    SameKeysOnBothSides(norm, r.matched);
    MoreElementsMoreKeys(Candidates(pairs), produced, CandidateKey(norm));
    MoreElementsMoreKeys(Truths(pairs), truth, TruthKey(norm));
    var keys := Keys(Truths(pairs), TruthKey(norm));
    assert keys <= Creditable(norm, produced, truth);
    SmallerBag(keys, Creditable(norm, produced, truth));
  }

  lemma SmallerBag<K>(a: multiset<K>, b: multiset<K>)
    requires a <= b
    ensures |a| <= |b|
  {
    assert b == a + (b - a);
  }

  /** Two ways of matching the same findings with the same truths: what is credited and what is missed, by place
      and tag, and how many candidates are left over. */
  lemma CreditIgnoresOrder(norm: Normalizer, produced: seq<Candidate>, produced': seq<Candidate>,
                           truth: seq<GroundTruth>, truth': seq<GroundTruth>, r: MatchResult, r': MatchResult)
    requires multiset(produced) == multiset(produced') && multiset(truth) == multiset(truth')
    requires Splits(produced, truth, r) && Splits(produced', truth', r')
    requires Keys(Truths(r.matched), TruthKey(norm)) == Creditable(norm, produced, truth)
    requires Keys(Truths(r'.matched), TruthKey(norm)) == Creditable(norm, produced', truth')
    ensures Keys(Truths(r.matched), TruthKey(norm)) == Keys(Truths(r'.matched), TruthKey(norm))
    ensures Keys(r.missed, TruthKey(norm)) == Keys(r'.missed, TruthKey(norm))
    ensures |r.matched| == |r'.matched| && |r.missed| == |r'.missed|
    ensures |r.needsReview| + |r.spurious| == |r'.needsReview| + |r'.spurious|
  {
    hide Keys, Candidates, Truths, Reviewed;
    SameKeys(produced, produced', CandidateKey(norm));
    SameKeys(truth, truth', TruthKey(norm));
    MissedKeys(norm, produced, truth, r);
    MissedKeys(norm, produced', truth', r');
    ManyKeys(norm, Truths(r.matched));
    ManyKeys(norm, Truths(r'.matched));
    Leftovers(produced, truth, r);
    Leftovers(produced', truth', r');
    var credited := Keys(Truths(r.matched), TruthKey(norm));
    assert credited + Keys(r.missed, TruthKey(norm)) - credited == Keys(r.missed, TruthKey(norm));
    assert credited + Keys(r'.missed, TruthKey(norm)) - credited == Keys(r'.missed, TruthKey(norm));
    assert |produced| == |multiset(produced)| && |produced'| == |multiset(produced')|;
    assert |truth| == |multiset(truth)| && |truth'| == |multiset(truth')|;
  }

  lemma MissedKeys(norm: Normalizer, produced: seq<Candidate>, truth: seq<GroundTruth>, r: MatchResult)
    requires Splits(produced, truth, r)
    ensures Keys(Truths(r.matched), TruthKey(norm)) + Keys(r.missed, TruthKey(norm)) == Keys(truth, TruthKey(norm))
  {
    hide Keys, Candidates, Reviewed, Truths;
    KeysOfConcat(Truths(r.matched), r.missed, TruthKey(norm));
    SameKeys(Truths(r.matched) + r.missed, truth, TruthKey(norm));
  }

  lemma {:induction false} ManyKeys(norm: Normalizer, truths: seq<GroundTruth>)
    ensures |Keys(truths, TruthKey(norm))| == |truths|
  {
    if truths != [] {
      ManyKeys(norm, truths[1..]);
    }
  }

  lemma {:induction false} ManyCandidates(pairs: seq<(Candidate, GroundTruth)>,
                                          entries: seq<(Candidate, GroundTruth, Mismatch)>)
    ensures |Candidates(pairs)| == |pairs| && |Reviewed(entries)| == |entries|
  {
    if pairs != [] {
      ManyCandidates(pairs[1..], entries);
    } else if entries != [] {
      ManyCandidates(pairs, entries[1..]);
    }
  }

  lemma Leftovers(produced: seq<Candidate>, truth: seq<GroundTruth>, r: MatchResult)
    requires Splits(produced, truth, r)
    ensures |produced| == |r.matched| + |r.needsReview| + |r.spurious| && |truth| == |r.matched| + |r.missed|
  {
    hide Candidates, Truths, Reviewed;
    ManyCandidates(r.matched, r.needsReview);
    assert |multiset(produced)| == |produced| && |multiset(truth)| == |truth|;
  }

  /** What is credited depends on which findings there are, not on the order they come in. */
  method MatchReordered(norm: Normalizer, produced: seq<Candidate>, produced': seq<Candidate>,
                        truth: seq<GroundTruth>, truth': seq<GroundTruth>)
    returns (r: MatchResult, r': MatchResult)
    requires multiset(produced) == multiset(produced') && multiset(truth) == multiset(truth')
    ensures Keys(Truths(r.matched), TruthKey(norm)) == Keys(Truths(r'.matched), TruthKey(norm))
    ensures Keys(r.missed, TruthKey(norm)) == Keys(r'.missed, TruthKey(norm))
    ensures |r.matched| == |r'.matched| && |r.missed| == |r'.missed|
    ensures |r.needsReview| + |r.spurious| == |r'.needsReview| + |r'.spurious|
  {
    hide Keys, Splits, OnlyCredited, NothingLeft, ReviewsExplained, Ascending, FirstCome, Creditable;
    r := MatchFindings(norm, produced, truth);
    r' := MatchFindings(norm, produced', truth');
    CreditIgnoresOrder(norm, produced, produced', truth, truth', r, r');
  }

  function OfTag(tag: string): GroundTruth -> Option<()> {
    (g: GroundTruth) => if g.tag == tag then Some(()) else None
  }

  /** No tag is matched more often than the truth has it, so no recall is above one; and what is matched
      plus what is missed is all there is of the tag. */
  lemma RecallPerTag(norm: Normalizer, produced: seq<Candidate>, truth: seq<GroundTruth>, r: MatchResult, tag: string)
    requires Splits(produced, truth, r)
    ensures |Keys(Truths(r.matched), OfTag(tag))| + |Keys(r.missed, OfTag(tag))| == |Keys(truth, OfTag(tag))|
  {
    hide Keys, Candidates, Reviewed, Truths;
    KeysOfConcat(Truths(r.matched), r.missed, OfTag(tag));
    SameKeys(Truths(r.matched) + r.missed, truth, OfTag(tag));
  }
}
