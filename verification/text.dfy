/** The string operations of the language the repository is written in, as far as its patch
    reconstruction uses them: stripping, splitting and joining lines, and decimal numbers. */
module Text {

  /** The characters that `str.strip()` removes and that `\s` matches. */
  predicate IsSpace(c: char) {
    || '\t' <= c <= '\r' || c == ' ' || '\U{1c}' <= c <= '\U{1f}'
    || c == '\U{85}' || c == '\U{a0}' || c == '\U{1680}' || '\U{2000}' <= c <= '\U{200a}'
    || c == '\U{2028}' || c == '\U{2029}' || c == '\U{202f}' || c == '\U{205f}' || c == '\U{3000}'
  }

  /** The characters at which `str.splitlines()` ends a line ("\r\n" ends one line, not two). */
  predicate IsLineBreak(c: char) {
    || '\n' <= c <= '\r' || '\U{1c}' <= c <= '\U{1e}'
    || c == '\U{85}' || c == '\U{2028}' || c == '\U{2029}'
  }

  predicate OneLine(s: string) {
    forall c | c in s :: !IsLineBreak(c)
  }

  predicate NoNewline(s: string) {
    '\n' !in s
  }

  predicate StartsWith(s: string, prefix: string) {
    prefix <= s
  }

  function StripLeft(s: string): (r: string)
    ensures r == "" || !IsSpace(r[0])
  {
    if s != "" && IsSpace(s[0]) then StripLeft(s[1..]) else s
  }

  function StripRight(s: string): (r: string)
    ensures r <= s
    ensures r == "" || !IsSpace(r[|r| - 1])
    ensures s == "" || !IsSpace(s[|s| - 1]) ==> r == s
  {
    if s != "" && IsSpace(s[|s| - 1]) then StripRight(s[..|s| - 1]) else s
  }

  /** `s.strip()` */
  function Strip(s: string): string {
    StripRight(StripLeft(s))
  }

  lemma StripKeepsOneLine(s: string)
    requires OneLine(s)
    ensures OneLine(Strip(s))
  {
    StripLeftKeepsOneLine(s);
  }

  lemma {:induction false} StripLeftKeepsOneLine(s: string)
    requires OneLine(s)
    ensures OneLine(StripLeft(s))
  {
    if s != "" && IsSpace(s[0]) {
      StripLeftKeepsOneLine(s[1..]);
    }
  }

  /** The lines with one more character at the front of the first. */
  function Prepend(c: char, lines: seq<string>): (r: seq<string>)
    requires lines != []
    ensures |r| == |lines|
    ensures forall i | 0 <= i < |r| :: r[i] == if i == 0 then [c] + lines[0] else lines[i]
  {
    [[c] + lines[0]] + lines[1..]
  }

  /** `s.split("\n")` */
  function SplitNewline(s: string): (r: seq<string>)
    ensures r != []
    ensures forall i | 0 <= i < |r| :: NoNewline(r[i])
  {
    if s == "" then [""]
    else
      var rest := SplitNewline(s[1..]);
      if s[0] == '\n' then [""] + rest else Prepend(s[0], rest)
  }

  /** `"\n".join(lines)` */
  function JoinNewline(lines: seq<string>): string {
    if lines == [] then ""
    else if |lines| == 1 then lines[0]
    else lines[0] + "\n" + JoinNewline(lines[1..])
  }

  lemma {:induction false} SplitLine(l: string, s: string)
    requires NoNewline(l)
    ensures SplitNewline(l + "\n" + s) == [l] + SplitNewline(s)
  {
    if l == "" {
      assert (l + "\n" + s)[1..] == s;
    } else {
      SplitLine(l[1..], s);
      assert (l + "\n" + s)[1..] == l[1..] + "\n" + s;
      assert [l[0]] + l[1..] == l;
    }
  }

  lemma {:induction false} SplitOneLine(l: string)
    requires NoNewline(l)
    ensures SplitNewline(l) == [l]
  {
    if l != "" {
      SplitOneLine(l[1..]);
      assert [l[0]] + l[1..] == l;
    }
  }

  /** Splitting undoes joining, for lines that hold no newline themselves. */
  lemma {:induction false} SplitUndoesJoin(lines: seq<string>)
    requires lines != []
    requires forall i | 0 <= i < |lines| :: NoNewline(lines[i])
    ensures SplitNewline(JoinNewline(lines)) == lines
  {
    if |lines| == 1 {
      SplitOneLine(lines[0]);
    } else {
      SplitUndoesJoin(lines[1..]);
      SplitLine(lines[0], JoinNewline(lines[1..]));
      assert lines == [lines[0]] + lines[1..];
    }
  }

  lemma JoinMore(line: string, lines: seq<string>)
    requires lines != []
    ensures JoinNewline([line] + lines) == line + "\n" + JoinNewline(lines)
  {
    assert ([line] + lines)[1..] == lines;
  }

  lemma {:induction false} JoinConcat(a: seq<string>, b: seq<string>)
    requires a != [] && b != []
    ensures JoinNewline(a + b) == JoinNewline(a) + "\n" + JoinNewline(b)
  {
    if |a| == 1 {
      assert a + b == [a[0]] + b;
      assert ([a[0]] + b)[1..] == b;
    } else {
      JoinConcat(a[1..], b);
      JoinMore(a[0], a[1..]);
      JoinMore(a[0], a[1..] + b);
      assert [a[0]] + a[1..] == a && [a[0]] + (a[1..] + b) == a + b;
      hide JoinNewline;
      assert a[0] + "\n" + (JoinNewline(a[1..]) + "\n" + JoinNewline(b))
          == (a[0] + "\n" + JoinNewline(a[1..])) + "\n" + JoinNewline(b);
    }
  }

  /** `s.splitlines()` */
  function SplitLines(s: string): (r: seq<string>)
    ensures forall i | 0 <= i < |r| :: OneLine(r[i])
  {
    if s == "" then []
    else if s[0] == '\r' && |s| > 1 && s[1] == '\n' then [""] + SplitLines(s[2..])
    else if IsLineBreak(s[0]) then [""] + SplitLines(s[1..])
    else
      var rest := SplitLines(s[1..]);
      if rest == [] then [[s[0]]] else Prepend(s[0], rest)
  }

  function Digit(d: nat): char
    requires d < 10
  {
    "0123456789"[d]
  }

  predicate IsDigit(c: char) {
    '0' <= c <= '9'
  }

  function DigitValue(c: char): (d: nat)
    requires IsDigit(c)
    ensures d < 10 && Digit(d) == c
  {
    c as int - '0' as int
  }

  function PrintNat(n: nat): (s: string)
    ensures s != "" && forall c | c in s :: IsDigit(c)
  {
    if n < 10 then [Digit(n)] else PrintNat(n / 10) + [Digit(n % 10)]
  }

  /** `f"{n}"` for an integer */
  function PrintInt(n: int): string {
    if n < 0 then "-" + PrintNat(-n) else PrintNat(n)
  }

  function ValueOf(s: string): nat
    requires forall c | c in s :: IsDigit(c)
  {
    if s == "" then 0 else 10 * ValueOf(s[..|s| - 1]) + DigitValue(s[|s| - 1])
  }

  lemma {:induction false} ValueOfPrinted(n: nat)
    ensures ValueOf(PrintNat(n)) == n
  {
    if n >= 10 {
      ValueOfPrinted(n / 10);
      var s := PrintNat(n);
      assert s[..|s| - 1] == PrintNat(n / 10);
    } else {
      assert PrintNat(n)[..0] == "";
    }
  }

  /** The number of leading digits of `s`. */
  function DigitRun(s: string): (k: nat)
    ensures k <= |s|
    ensures forall i | 0 <= i < k :: IsDigit(s[i])
    ensures k == |s| || !IsDigit(s[k])
  {
    if s != "" && IsDigit(s[0]) then 1 + DigitRun(s[1..]) else 0
  }
}
