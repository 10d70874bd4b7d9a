/** Stable sorting by a string key. */
module Sorting {

  /** `a <= b` for strings, by code point */
  predicate LexLeq(a: string, b: string) {
    a == "" || (b != "" && (a[0] < b[0] || (a[0] == b[0] && LexLeq(a[1..], b[1..]))))
  }

  lemma {:induction false} LexTotal(a: string, b: string)
    ensures LexLeq(a, b) || LexLeq(b, a)
  {
    if a != "" && b != "" {
      LexTotal(a[1..], b[1..]);
    }
  }

  lemma {:induction false} LexTransitive(a: string, b: string, c: string)
    requires LexLeq(a, b) && LexLeq(b, c)
    ensures LexLeq(a, c)
  {
    if a != "" && a[0] == b[0] == c[0] {
      LexTransitive(a[1..], b[1..], c[1..]);
    }
  }

  lemma {:induction false} LexAntisymmetric(a: string, b: string)
    requires LexLeq(a, b) && LexLeq(b, a)
    ensures a == b
  {
    if a != "" && b != "" {
      LexAntisymmetric(a[1..], b[1..]);
      assert a == [a[0]] + a[1..] && b == [b[0]] + b[1..];
    }
  }

  lemma SameStart(a: string, b: string, k: nat)
    requires 0 < k <= |a| && k <= |b| && a[..k] == b[..k]
    ensures a[0] == b[0]
  {
    assert a[..k][0] == b[..k][0];
  }

  /** Place `k` is the first at which the strings differ, and `a` has the smaller code point there. */
  predicate LessAt(a: string, b: string, k: int) {
    0 <= k < |a| && k < |b| && a[..k] == b[..k] && a[k] < b[k]
  }

  /** The order of the code points at the first place where the strings differ; a beginning comes first. */
  lemma {:induction false} LexLeqIs(a: string, b: string)
    ensures LexLeq(a, b) <==> a <= b || exists k :: LessAt(a, b, k)
  {
    hide LessAt;
    if a == "" || b == "" {
      NoPlace(a, b);
    } else if a[0] == b[0] {
      LexLeqIs(a[1..], b[1..]);
      SameFirst(a, b);
    } else {
      OtherFirst(a, b);
    }
  }

  lemma NoPlace(a: string, b: string)
    ensures a == "" || b == "" ==> forall k :: !LessAt(a, b, k)
  {
  }

  lemma SameFirst(a: string, b: string)
    requires a != "" && b != "" && a[0] == b[0]
    ensures a <= b <==> a[1..] <= b[1..]
    ensures (exists k :: LessAt(a, b, k)) <==> exists k :: LessAt(a[1..], b[1..], k)
  {
    assert a == [a[0]] + a[1..] && b == [b[0]] + b[1..];
    forall k | LessAt(a[1..], b[1..], k) ensures LessAt(a, b, k + 1) {
      assert a[..k + 1] == [a[0]] + a[1..][..k] && b[..k + 1] == [b[0]] + b[1..][..k];
    }
    forall k | LessAt(a, b, k) ensures LessAt(a[1..], b[1..], k - 1) {
      assert k > 0 && a[1..][..k - 1] == a[..k][1..] && b[1..][..k - 1] == b[..k][1..];
    }
  }

  lemma OtherFirst(a: string, b: string)
    requires a != "" && b != "" && a[0] != b[0]
    ensures !(a <= b) && ((exists k :: LessAt(a, b, k)) <==> a[0] < b[0])
  {
    if a[0] < b[0] {
      assert LessAt(a, b, 0);
    }
    forall k | LessAt(a, b, k) && k > 0 ensures false {
      SameStart(a, b, k);
    }
  }

  predicate Ascending<T>(s: seq<T>, id: T -> string) {
    forall i, j | 0 <= i < j < |s| :: LexLeq(id(s[i]), id(s[j]))
  }

  function Insert<T>(x: T, s: seq<T>, id: T -> string): (r: seq<T>)
    ensures multiset(r) == multiset(s) + multiset{x}
  {
    if s == [] then [x]
    else if LexLeq(id(x), id(s[0])) then [x] + s
    else
      assert s == [s[0]] + s[1..];
      [s[0]] + Insert(x, s[1..], id)
  }

  /** `sorted(s, key=id)`: equal ids keep their order. */
  function SortedBy<T>(s: seq<T>, id: T -> string): (r: seq<T>)
    ensures multiset(r) == multiset(s)
  {
    if s == [] then []
    else
      assert s == [s[0]] + s[1..];
      Insert(s[0], SortedBy(s[1..], id), id)
  }

  lemma {:induction false} InsertKeepsAscending<T>(x: T, s: seq<T>, id: T -> string)
    requires Ascending(s, id)
    ensures Ascending(Insert(x, s, id), id)
  {
    hide LexLeq;
    if s == [] {
    } else if LexLeq(id(x), id(s[0])) {
      forall j | 0 <= j < |s| ensures LexLeq(id(x), id(s[j])) {
        if j > 0 { LexTransitive(id(x), id(s[0]), id(s[j])); }
      }
    } else {
      var rest := Insert(x, s[1..], id);
      InsertKeepsAscending(x, s[1..], id);
      LexTotal(id(x), id(s[0]));
      forall j | 0 <= j < |rest| ensures LexLeq(id(s[0]), id(rest[j])) {
        assert rest[j] in multiset(rest);
        if rest[j] in s[1..] {
          var k :| 0 <= k < |s[1..]| && s[1..][k] == rest[j];
          assert s[k + 1] == rest[j];
        }
      }
    }
  }

  lemma {:induction false} SortedIsAscending<T>(s: seq<T>, id: T -> string)
    ensures Ascending(SortedBy(s, id), id)
  {
    if s != [] {
      SortedIsAscending(s[1..], id);
      InsertKeepsAscending(s[0], SortedBy(s[1..], id), id);
    }
  }
}
