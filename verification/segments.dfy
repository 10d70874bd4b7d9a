/** The parts of a string between separators. */
module Segments {
  import opened Wrappers

  /** What follows the first `c`. */
  function After(s: string, c: char): (r: Option<string>)
    ensures r.Some? ==> |r.value| < |s|
  {
    if s == "" then None else if s[0] == c then Some(s[1..]) else After(s[1..], c)
  }

  /** `s.split(c)[0]` */
  function FirstSegment(s: string, c: char): string {
    if s == "" || s[0] == c then "" else [s[0]] + FirstSegment(s[1..], c)
  }

  /** `s.split(c)[-1]` */
  function LastSegment(s: string, c: char): string
    decreases |s|
  {
    match After(s, c)
    case None => s
    case Some(rest) => LastSegment(rest, c)
  }

  /** `r` is what precedes the first `c` of `s`, or all of it. */
  ghost predicate IsFirst(s: string, c: char, r: string) {
    c !in r && (s == r || exists rest :: s == r + [c] + rest)
  }

  /** `r` is what follows the last `c` of `s`, or all of it. */
  ghost predicate IsLast(s: string, c: char, r: string) {
    c !in r && (s == r || exists front :: s == front + [c] + r)
  }

  /** `s` is `front`, the first `c`, and `r`. */
  ghost predicate IsAfter(s: string, c: char, r: string) {
    exists front :: c !in front && s == front + [c] + r
  }

  lemma {:induction false} AfterHolds(s: string, c: char)
    ensures After(s, c).Some? <==> c in s
    ensures After(s, c).Some? ==> IsAfter(s, c, After(s, c).value)
  {
    if s != "" && s[0] == c {
      assert s == "" + [c] + s[1..];
    } else if s != "" {
      AfterHolds(s[1..], c);
      if After(s[1..], c).Some? {
        var front :| c !in front && s[1..] == front + [c] + After(s[1..], c).value;
        assert s == ([s[0]] + front) + [c] + After(s[1..], c).value;
      }
    }
  }

  lemma OnlyOneAfter(s: string, c: char, r: string, q: string)
    requires IsAfter(s, c, r) && IsAfter(s, c, q)
    ensures r == q
  {
    var front :| c !in front && s == front + [c] + r;
    var other :| c !in other && s == other + [c] + q;
    OnlyOneFirst(s, c, front, other);
    assert s[|front| + 1..] == r && s[|front| + 1..] == q;
  }

  lemma AfterIs(s: string, c: char, r: string)
    ensures After(s, c) == Some(r) <==> IsAfter(s, c, r)
    ensures After(s, c) == None <==> c !in s
  {
    hide After, IsAfter;
    AfterHolds(s, c);
    if IsAfter(s, c, r) {
      AfterNeedsIt(s, c, r);
      OnlyOneAfter(s, c, r, After(s, c).value);
    }
  }

  lemma AfterNeedsIt(s: string, c: char, r: string)
    requires IsAfter(s, c, r)
    ensures c in s
  {
    var front :| c !in front && s == front + [c] + r;
    assert s[|front|] == c;
  }

  lemma {:induction false} FirstSegmentHolds(s: string, c: char)
    ensures IsFirst(s, c, FirstSegment(s, c))
  {
    if s != "" && s[0] == c {
      assert s == "" + [c] + s[1..];
    } else if s != "" {
      FirstSegmentHolds(s[1..], c);
      FirstGoesOn(s, c, FirstSegment(s[1..], c));
    }
  }

  lemma FirstGoesOn(s: string, c: char, r: string)
    requires s != "" && s[0] != c && IsFirst(s[1..], c, r)
    ensures IsFirst(s, c, [s[0]] + r)
  {
    assert s == [s[0]] + s[1..];
    if s[1..] != r {
      var rest :| s[1..] == r + [c] + rest;
      assert s == ([s[0]] + r) + [c] + rest;
    }
  }

  lemma OnlyOneFirst(s: string, c: char, r: string, q: string)
    requires IsFirst(s, c, r) && IsFirst(s, c, q)
    ensures r == q
  {
    assert s[..|r|] == r && s[..|q|] == q;
    if |r| < |q| {
      LongerFirstHoldsIt(s, c, r, q);
    } else if |q| < |r| {
      LongerFirstHoldsIt(s, c, q, r);
    }
  }

  lemma LongerFirstHoldsIt(s: string, c: char, r: string, q: string)
    requires IsFirst(s, c, r) && |r| < |q| <= |s| && s[..|q|] == q
    ensures c in q
  {
    var rest :| s == r + [c] + rest;
    assert s[|r|] == c && q[|r|] == s[|r|];
  }

  lemma FirstSegmentIs(s: string, c: char, r: string)
    ensures FirstSegment(s, c) == r <==> IsFirst(s, c, r)
  {
    hide IsFirst, FirstSegment;
    FirstSegmentHolds(s, c);
    if IsFirst(s, c, r) {
      OnlyOneFirst(s, c, r, FirstSegment(s, c));
    }
  }

  lemma {:induction false} LastSegmentIs(s: string, c: char)
    ensures IsLast(s, c, LastSegment(s, c))
    decreases |s|
  {
    hide IsLast, After, IsAfter;
    AfterIs(s, c, "");
    if After(s, c).Some? {
      var rest := After(s, c).value;
      AfterIs(s, c, rest);
      LastSegmentIs(rest, c);
      LastGoesOn(s, c, rest, LastSegment(rest, c));
    } else {
      AllIsLast(s, c);
    }
  }

  lemma AllIsLast(s: string, c: char)
    requires c !in s
    ensures IsLast(s, c, s)
  {
  }

  lemma LastGoesOn(s: string, c: char, rest: string, r: string)
    requires IsAfter(s, c, rest) && IsLast(rest, c, r)
    ensures IsLast(s, c, r)
  {
    var front :| c !in front && s == front + [c] + rest;
    if rest != r {
      var f :| rest == f + [c] + r;
      assert s == (front + [c] + f) + [c] + r;
    }
  }

  lemma OnlyOneLast(s: string, c: char, r: string, q: string)
    requires IsLast(s, c, r) && IsLast(s, c, q)
    ensures r == q
  {
    assert s[|s| - |r|..] == r && s[|s| - |q|..] == q;
    if |r| < |q| {
      LongerHoldsIt(s, c, r, q);
    } else if |q| < |r| {
      LongerHoldsIt(s, c, q, r);
    }
  }

  lemma LongerHoldsIt(s: string, c: char, r: string, q: string)
    requires IsLast(s, c, r) && |r| < |q| <= |s| && s[|s| - |q|..] == q
    ensures c in q
  {
    var front :| s == front + [c] + r;
    var k := |s| - |r| - 1;
    assert s[k] == c && q[k - (|s| - |q|)] == s[k];
  }
}
