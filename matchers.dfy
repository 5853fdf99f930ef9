/**
 * The two regular expressions of the judgment-file parser, written as scanners over
 * character runs, each with a reference description of the lines it accepts.
 *
 * Header lines: `re.match('#\sqid:(\d+?):\s+?(.*)', line)`. The lazy `(\d+?)` must reach
 * the `:`, so it takes the whole digit run; the lazy `\s+?` is followed by `(.*)`, which
 * always matches, so it takes exactly one whitespace character; `(.*)` stops at the first
 * newline.
 *
 * Body lines: `re.match('^(\d)\s+qid:(\d+)\s+#\s+(\w+).*', line)`. The `\s+` runs and
 * `(\d+)` are each followed by a character outside their class, so each is maximal; the
 * greedy `(\w+)` is followed by `.*`, which never fails, so it takes the longest word run.
 */
module Matchers {
  import opened Wrappers
  import opened Text

  /** What a header line contributes: `int(group(1))` and `group(2)`. */
  datatype HeaderEntry = HeaderEntry(qid: nat, keywords: string)

  /** What a body line yields: `(int(group(1)), int(group(2)), group(3))`. */
  datatype Triple = Triple(grade: nat, qid: nat, docId: string)

  // ---------------------------------------------------------------- pattern pieces

  /** The longest prefix of `s` drawn from `cls`, and what follows it. */
  function Run(s: string, cls: CharClass): (r: (string, string))
    ensures s == r.0 + r.1 && AllIn(r.0, cls)
    ensures r.1 == [] || !InClass(r.1[0], cls)
  {
    var k := RunEnd(s, 0, cls);
    (s[..k], s[k..])
  }

  /** A run followed by a character outside its class is taken whole. */
  lemma RunOf(run: string, rest: string, cls: CharClass)
    requires AllIn(run, cls)
    requires rest == [] || !InClass(rest[0], cls)
    ensures Run(run + rest, cls) == (run, rest)
  {
    RunEndOf([], run, rest, cls);
    assert [] + run + rest == run + rest;
  }

  /** `X+` for a class `X`: a non-empty longest run, and what follows it. */
  function Run1(s: string, cls: CharClass): Option<(string, string)>
  {
    var (run, rest) := Run(s, cls);
    if run == [] then None else Some((run, rest))
  }

  /** A single character of class `cls` at the start of `s`: what follows it. */
  function One(s: string, cls: CharClass): (r: Option<string>)
  {
    if s != [] && InClass(s[0], cls) then Some(s[1..]) else None
  }

  // ---------------------------------------------------------------- header lines

  function ParseHeaderLine(line: string): Option<HeaderEntry>
  {
    match Literal(line, "#")
    case None => None
    case Some(r1) =>
      match One(r1, Space)
      case None => None
      case Some(r2) =>
        match Literal(r2, "qid:")
        case None => None
        case Some(r3) =>
          match Run1(r3, Digit)
          case None => None
          case Some((digits, r4)) =>
            match Literal(r4, ":")
            case None => None
            case Some(r5) =>
              match One(r5, Space)
              case None => None
              case Some(r6) =>
                Some(HeaderEntry(DigitsValue(digits), Run(r6, NotNewline).0))
  }

  /** The line `#`, a whitespace, `qid:`, digits, `:`, a whitespace, the keywords, the rest. */
  function HeaderLineOf(sp1: char, digits: string, sp2: char, keywords: string, rest: string): string
  {
    "#" + ([sp1] + ("qid:" + (digits + (":" + ([sp2] + (keywords + rest))))))
  }

  /** The parts of a line the header pattern accepts; the rest is empty or starts a new line. */
  ghost predicate HeaderParts(sp1: char, digits: string, sp2: char, keywords: string, rest: string)
  {
    && IsSpace(sp1) && IsSpace(sp2)
    && digits != [] && AllIn(digits, Digit)
    && AllIn(keywords, NotNewline)
    && (rest == [] || rest[0] == '\n')
  }

  /** `line` is a header line that maps `h.qid` to `h.keywords`. */
  ghost predicate MatchesHeader(line: string, h: HeaderEntry)
  {
    exists sp1, digits, sp2, rest ::
      && HeaderParts(sp1, digits, sp2, h.keywords, rest)
      && line == HeaderLineOf(sp1, digits, sp2, h.keywords, rest)
      && h.qid == DigitsValue(digits)
  }

  /** Every line built from header parts yields the integer of its digits and all its keywords. */
  lemma ParseHeaderLineOf(sp1: char, digits: string, sp2: char, keywords: string, rest: string)
    requires HeaderParts(sp1, digits, sp2, keywords, rest)
    ensures ParseHeaderLine(HeaderLineOf(sp1, digits, sp2, keywords, rest))
            == Some(HeaderEntry(DigitsValue(digits), keywords))
  {
    var t6 := keywords + rest;
    var t5 := [sp2] + t6;
    var t4 := ":" + t5;
    var t3 := digits + t4;
    var t2 := "qid:" + t3;
    var t1 := [sp1] + t2;
    LiteralOf("#", t1);
    assert One(t1, Space) == Some(t2);
    LiteralOf("qid:", t3);
    RunOf(digits, t4, Digit);
    LiteralOf(":", t5);
    assert One(t5, Space) == Some(t6);
    RunOf(keywords, rest, NotNewline);
  }

  /** The header scanner accepts exactly the lines the pattern describes. */
  lemma HeaderLineIff(line: string, h: HeaderEntry)
    ensures ParseHeaderLine(line) == Some(h) <==> MatchesHeader(line, h)
  {
    if ParseHeaderLine(line) == Some(h) {
      var r1 := Literal(line, "#").value;
      var r2 := r1[1..];
      var r3 := Literal(r2, "qid:").value;
      var (digits, r4) := Run(r3, Digit);
      var r5 := Literal(r4, ":").value;
      var r6 := r5[1..];
      var (keywords, rest) := Run(r6, NotNewline);
      assert r1 == [r1[0]] + r2 && r5 == [r5[0]] + r6;
      assert line == HeaderLineOf(r1[0], digits, r5[0], h.keywords, rest);
      assert HeaderParts(r1[0], digits, r5[0], h.keywords, rest);
    }
    if MatchesHeader(line, h) {
      var sp1, digits, sp2, rest :|
        && HeaderParts(sp1, digits, sp2, h.keywords, rest)
        && line == HeaderLineOf(sp1, digits, sp2, h.keywords, rest)
        && h.qid == DigitsValue(digits);
      ParseHeaderLineOf(sp1, digits, sp2, h.keywords, rest);
    }
  }

  // ---------------------------------------------------------------- body lines

  function ParseBodyLine(line: string): Option<Triple>
  {
    match One(line, Digit)
    case None => None
    case Some(r0) =>
      match QidAfterGrade(r0)
      case None => None
      case Some((digits, r1)) =>
        match DocIdAfterQid(r1)
        case None => None
        case Some(docId) => Some(Triple(DigitValue(line[0]), DigitsValue(digits), docId))
  }

  /** The middle `\s+qid:(\d+)` of the body pattern: the qid digits it captures and what follows. */
  function QidAfterGrade(s: string): Option<(string, string)>
  {
    match Run1(s, Space)
    case None => None
    case Some((_, r1)) =>
      match Literal(r1, "qid:")
      case None => None
      case Some(r2) => Run1(r2, Digit)
  }

  lemma QidAfterGradeOf(sp1: string, digits: string, tail: string)
    requires sp1 != [] && AllIn(sp1, Space)
    requires digits != [] && AllIn(digits, Digit)
    requires tail == [] || !IsDigit(tail[0])
    ensures QidAfterGrade(sp1 + ("qid:" + (digits + tail))) == Some((digits, tail))
  {
    RunOf(sp1, "qid:" + (digits + tail), Space);
    LiteralOf("qid:", digits + tail);
    RunOf(digits, tail, Digit);
  }

  /** The parts a matched middle is made of. */
  lemma QidAfterGradeParts(s: string) returns (sp1: string)
    requires QidAfterGrade(s).Some?
    ensures sp1 != [] && AllIn(sp1, Space)
    ensures QidAfterGrade(s).value.0 != [] && AllIn(QidAfterGrade(s).value.0, Digit)
    ensures s == sp1 + ("qid:" + (QidAfterGrade(s).value.0 + QidAfterGrade(s).value.1))
  {
    var r1;
    sp1, r1 := Run(s, Space).0, Run(s, Space).1;
  }

  /** The tail `\s+#\s+(\w+)` of the body pattern: the document id it captures. */
  function DocIdAfterQid(s: string): Option<string>
  {
    match Run1(s, Space)
    case None => None
    case Some((_, r1)) =>
      match Literal(r1, "#")
      case None => None
      case Some(r2) =>
        match Run1(r2, Space)
        case None => None
        case Some((_, r3)) =>
          match Run1(r3, Word)
          case None => None
          case Some((docId, _)) => Some(docId)
  }

  /** The tail of a body line: spaces, `#`, spaces, the document id, the rest. */
  function DocIdTailOf(sp2: string, sp3: string, docId: string, rest: string): string
  {
    sp2 + ("#" + (sp3 + (docId + rest)))
  }

  lemma DocIdAfterQidOf(sp2: string, sp3: string, docId: string, rest: string)
    requires sp2 != [] && AllIn(sp2, Space)
    requires sp3 != [] && AllIn(sp3, Space)
    requires docId != [] && AllIn(docId, Word)
    requires rest == [] || !IsWord(rest[0])
    ensures DocIdAfterQid(DocIdTailOf(sp2, sp3, docId, rest)) == Some(docId)
  {
    var t3 := docId + rest;
    var t2 := sp3 + t3;
    var t1 := "#" + t2;
    RunOf(sp2, t1, Space);
    LiteralOf("#", t2);
    assert t3[0] == docId[0];
    RunOf(sp3, t3, Space);
    RunOf(docId, rest, Word);
  }

  /** The parts a matched tail is made of. */
  lemma DocIdAfterQidParts(s: string) returns (sp2: string, sp3: string, rest: string)
    requires DocIdAfterQid(s).Some?
    ensures sp2 != [] && AllIn(sp2, Space)
    ensures sp3 != [] && AllIn(sp3, Space)
    ensures DocIdAfterQid(s).value != [] && AllIn(DocIdAfterQid(s).value, Word)
    ensures rest == [] || !IsWord(rest[0])
    ensures s == DocIdTailOf(sp2, sp3, DocIdAfterQid(s).value, rest)
  {
    var r1;
    sp2, r1 := Run(s, Space).0, Run(s, Space).1;
    var r2 := Literal(r1, "#").value;
    var r3;
    sp3, r3 := Run(r2, Space).0, Run(r2, Space).1;
    rest := Run(r3, Word).1;
  }

  /** The line: grade digit, spaces, `qid:`, digits, spaces, `#`, spaces, document id, the rest. */
  function BodyLineOf(grade: char, sp1: string, digits: string, sp2: string, sp3: string,
                      docId: string, rest: string): string
  {
    [grade] + (sp1 + ("qid:" + (digits + DocIdTailOf(sp2, sp3, docId, rest))))
  }

  /** The parts of a line the body pattern accepts; the rest does not continue the document id. */
  ghost predicate BodyParts(grade: char, sp1: string, digits: string, sp2: string, sp3: string,
                            docId: string, rest: string)
  {
    && IsDigit(grade)
    && sp1 != [] && AllIn(sp1, Space)
    && digits != [] && AllIn(digits, Digit)
    && sp2 != [] && AllIn(sp2, Space)
    && sp3 != [] && AllIn(sp3, Space)
    && docId != [] && AllIn(docId, Word)
    && (rest == [] || !IsWord(rest[0]))
  }

  /** `line` is a body line that yields the triple `t`. */
  ghost predicate MatchesBody(line: string, t: Triple)
  {
    exists grade, sp1, digits, sp2, sp3, rest ::
      && BodyParts(grade, sp1, digits, sp2, sp3, t.docId, rest)
      && line == BodyLineOf(grade, sp1, digits, sp2, sp3, t.docId, rest)
      && t.grade == DigitValue(grade)
      && t.qid == DigitsValue(digits)
  }

  /** Every line built from body parts yields its grade digit, the integer of its qid digits and its whole document id. */
  lemma ParseBodyLineOf(grade: char, sp1: string, digits: string, sp2: string, sp3: string,
                        docId: string, rest: string)
    requires BodyParts(grade, sp1, digits, sp2, sp3, docId, rest)
    ensures ParseBodyLine(BodyLineOf(grade, sp1, digits, sp2, sp3, docId, rest))
            == Some(Triple(DigitValue(grade), DigitsValue(digits), docId))
  {
    var tail := DocIdTailOf(sp2, sp3, docId, rest);
    var r0 := sp1 + ("qid:" + (digits + tail));
    assert One([grade] + r0, Digit) == Some(r0);
    assert tail[0] == sp2[0];
    QidAfterGradeOf(sp1, digits, tail);
    DocIdAfterQidOf(sp2, sp3, docId, rest);
  }

  /** A line the body scanner accepts is made of body parts. */
  lemma BodyLineSound(line: string)
    requires ParseBodyLine(line).Some?
    ensures MatchesBody(line, ParseBodyLine(line).value)
  {
    var t := ParseBodyLine(line).value;
    var r0 := line[1..];
    assert One(line, Digit) == Some(r0);
    var digits := QidAfterGrade(r0).value.0;
    var tail := QidAfterGrade(r0).value.1;
    assert t == Triple(DigitValue(line[0]), DigitsValue(digits), DocIdAfterQid(tail).value);
    var sp1 := QidAfterGradeParts(r0);
    var sp2, sp3, rest := DocIdAfterQidParts(tail);
    HeadTail(line);
    BodyWitness(line, t, line[0], r0, sp1, digits, tail, sp2, sp3, rest);
  }

  lemma BodyWitness(line: string, t: Triple, grade: char, r0: string, sp1: string, digits: string,
                    tail: string, sp2: string, sp3: string, rest: string)
    requires BodyParts(grade, sp1, digits, sp2, sp3, t.docId, rest)
    requires line == [grade] + r0 && r0 == sp1 + ("qid:" + (digits + tail))
    requires tail == DocIdTailOf(sp2, sp3, t.docId, rest)
    requires t.grade == DigitValue(grade) && t.qid == DigitsValue(digits)
    ensures MatchesBody(line, t)
  {
    assert line == BodyLineOf(grade, sp1, digits, sp2, sp3, t.docId, rest);
  }

  /** The body scanner accepts exactly the lines the pattern describes. */
  lemma BodyLineIff(line: string, t: Triple)
    ensures ParseBodyLine(line) == Some(t) <==> MatchesBody(line, t)
  {
    if ParseBodyLine(line) == Some(t) {
      BodyLineSound(line);
    }
    if MatchesBody(line, t) {
      var grade, sp1, digits, sp2, sp3, rest :|
        && BodyParts(grade, sp1, digits, sp2, sp3, t.docId, rest)
        && line == BodyLineOf(grade, sp1, digits, sp2, sp3, t.docId, rest)
        && t.grade == DigitValue(grade)
        && t.qid == DigitsValue(digits);
      ParseBodyLineOf(grade, sp1, digits, sp2, sp3, t.docId, rest);
    }
  }
}
