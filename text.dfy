/**
 * Characters, decimal numbers and tab-joined lists, as the judgment-file parser and the
 * Ranklib formatter use them. Character classes are the ASCII readings of the regular
 * expression classes `\d`, `\s`, `\w` and `.`.
 */
module Text {
  import opened Wrappers

  /** `\d`: an ASCII decimal digit. */
  predicate IsDigit(c: char) { '0' <= c <= '9' }

  /** `\s`: space, or one of TAB, LF, VT, FF, CR (code points 9 to 13). */
  predicate IsSpace(c: char) { c == ' ' || '\t' <= c <= '\r' }

  /** `\w`: an ASCII letter, digit or underscore. */
  predicate IsWord(c: char) { 'a' <= c <= 'z' || 'A' <= c <= 'Z' || IsDigit(c) || c == '_' }

  /** The character classes a run of characters can be drawn from. */
  datatype CharClass = Digit | Space | Word | Except(c: char)

  predicate InClass(c: char, cls: CharClass)
  {
    match cls
    case Digit => IsDigit(c)
    case Space => IsSpace(c)
    case Word => IsWord(c)
    case Except(x) => c != x
  }

  /** `.` of a regular expression: any character but a newline. */
  const NotNewline := Except('\n')

  predicate AllIn(s: string, cls: CharClass)
  {
    forall i :: 0 <= i < |s| ==> InClass(s[i], cls)
  }

  /** The end of the longest run of characters of class `cls` that starts at `i`. */
  function RunEnd(s: string, i: nat, cls: CharClass): (k: nat)
    requires i <= |s|
    ensures i <= k <= |s|
    ensures forall j :: i <= j < k ==> InClass(s[j], cls)
    ensures k < |s| ==> !InClass(s[k], cls)
    decreases |s| - i
  {
    if i == |s| || !InClass(s[i], cls) then i else RunEnd(s, i + 1, cls)
  }

  /** A run followed by a character outside its class ends exactly there. */
  lemma RunEndOf(a: string, run: string, b: string, cls: CharClass)
    requires AllIn(run, cls)
    requires b == [] || !InClass(b[0], cls)
    ensures RunEnd(a + run + b, |a|, cls) == |a| + |run|
  {
    var s := a + run + b;
    assert forall j :: |a| <= j < |a| + |run| ==> s[j] == run[j - |a|];
    assert b != [] ==> s[|a| + |run|] == b[0];
  }

  lemma HeadTail(s: string)
    requires s != []
    ensures s == [s[0]] + s[1..]
  {
  }

  /** The position of the first `c` in `s`, or `|s|` when there is none. */
  function IndexOf(s: string, c: char): (k: nat)
    ensures k <= |s|
    ensures forall j :: 0 <= j < k ==> s[j] != c
    ensures k < |s| ==> s[k] == c
  {
    RunEnd(s, 0, Except(c))
  }

  /** Cutting `a + [c] + b` at its first `c` gives back `a` and `b` when `a` has no `c`. */
  lemma CutAt(a: string, c: char, b: string)
    requires c !in a
    ensures IndexOf(a + [c] + b, c) == |a|
    ensures (a + [c] + b)[..|a|] == a && (a + [c] + b)[|a| + 1..] == b
  {
    var s := a + [c] + b;
    assert forall j :: 0 <= j < |a| ==> s[j] == a[j];
    assert s[|a|] == c;
    assert s[..|a|] == a;
    assert s[|a| + 1..] == b;
  }

  /** A literal at the start of `s`: what follows it. */
  function Literal(s: string, lit: string): (r: Option<string>)
    ensures r.Some? ==> s == lit + r.value
  {
    if |lit| <= |s| && s[..|lit|] == lit then Some(s[|lit|..]) else None
  }

  lemma LiteralOf(lit: string, rest: string)
    ensures Literal(lit + rest, lit) == Some(rest)
  {
    assert (lit + rest)[..|lit|] == lit;
  }

  /** The text before the first `c` and the text after it, when `s` holds a `c`. */
  function Cut(s: string, c: char): (r: Option<(string, string)>)
    ensures r.Some? ==> c !in r.value.0 && s == r.value.0 + ([c] + r.value.1)
    ensures r.None? <==> c !in s
  {
    var k := IndexOf(s, c);
    if k == |s| then None
    else
      assert s == s[..k] + ([c] + s[k + 1..]);
      Some((s[..k], s[k + 1..]))
  }

  lemma CutOf(a: string, c: char, b: string)
    requires c !in a
    ensures Cut(a + ([c] + b), c) == Some((a, b))
  {
    assert a + ([c] + b) == a + [c] + b;
    CutAt(a, c, b);
  }

  function DigitValue(c: char): (d: nat)
    requires IsDigit(c)
    ensures d < 10
  {
    c as int - '0' as int
  }

  function DigitChar(d: nat): (c: char)
    requires d < 10
    ensures IsDigit(c) && DigitValue(c) == d
  {
    ('0' as int + d) as char
  }

  /** Python's `int()` on a string of ASCII digits: leading zeros do not count. */
  function DigitsValue(s: string): nat
    requires AllIn(s, Digit)
  {
    if s == [] then 0 else 10 * DigitsValue(s[..|s| - 1]) + DigitValue(s[|s| - 1])
  }

  /** `%s` of a non-negative integer: its canonical decimal rendering, which `int()` reads back. */
  function NatToString(n: nat): (r: string)
    ensures |r| > 0 && AllIn(r, Digit)
    ensures DigitsValue(r) == n
    ensures r[0] == '0' ==> r == "0"
  {
    if n < 10 then [DigitChar(n)]
    else
      var p := NatToString(n / 10);
      var r := p + [DigitChar(n % 10)];
      assert r[..|r| - 1] == p;
      r
  }

  /** `sep.join(xs)`. */
  function Join(xs: seq<string>, sep: char): string
  {
    if xs == [] then ""
    else if |xs| == 1 then xs[0]
    else xs[0] + [sep] + Join(xs[1..], sep)
  }

  /** `s.split(sep)`: the pieces between separators; always at least one piece. */
  function Split(s: string, sep: char): (r: seq<string>)
    ensures |r| > 0
    decreases |s|
  {
    var k := IndexOf(s, sep);
    if k == |s| then [s] else [s[..k]] + Split(s[k + 1..], sep)
  }

  /** A character that is in no piece and is not the separator is not in the joined string. */
  lemma {:induction false} NotInJoin(xs: seq<string>, sep: char, c: char)
    requires c != sep
    requires forall i :: 0 <= i < |xs| ==> c !in xs[i]
    ensures c !in Join(xs, sep)
    decreases |xs|
  {
    if |xs| > 1 {
      NotInJoin(xs[1..], sep, c);
    }
  }

  /** Splitting a join gives the pieces back when no piece holds the separator. */
  lemma {:induction false} SplitJoin(xs: seq<string>, sep: char)
    requires xs != []
    requires forall i :: 0 <= i < |xs| ==> sep !in xs[i]
    ensures Split(Join(xs, sep), sep) == xs
    decreases |xs|
  {
    if |xs| == 1 {
      assert IndexOf(xs[0], sep) == |xs[0]|;
    } else {
      var rest := Join(xs[1..], sep);
      CutAt(xs[0], sep, rest);
      SplitJoin(xs[1..], sep);
      assert [xs[0]] + xs[1..] == xs;
    }
  }
}
