/**
 * The `Judgment` record of scripts/judgments.py and its two renderings: the Ranklib
 * training line and the one-line description. Each rendering comes with a reader that
 * recovers the record from the text, and the lemmas here prove that the readers invert
 * the renderings.
 *
 * Feature values are kept as the text Python's `%s` makes of them (for example "0.2"),
 * so `features` is a sequence of strings.
 */
module Ranklib {
  import opened Wrappers
  import opened Text

  /** The four fields fixed when a judgment is created. */
  datatype JudgmentRecord = JudgmentRecord(grade: nat, qid: nat, keywords: string, docId: string)

  /**
   * One graded (query, document) pair. Only `features` changes after construction:
   * callers append to it.
   */
  class Judgment {
    const grade: nat
    const qid: nat
    const keywords: string
    const docId: string
    var features: seq<string>

    constructor (grade: nat, qid: nat, keywords: string, docId: string)
      ensures this.grade == grade && this.qid == qid
      ensures this.keywords == keywords && this.docId == docId
      ensures features == []
    {
      this.grade := grade;
      this.qid := qid;
      this.keywords := keywords;
      this.docId := docId;
      features := [];
    }

    function AsRecord(): JudgmentRecord
    {
      JudgmentRecord(grade, qid, keywords, docId)
    }

    /** `__str__`. */
    function ToString(): string
    {
      Description(AsRecord())
    }

    /** `toRanklibFormat`: the training line of the fields and the current features. */
    function ToRanklibFormat(): string
      reads this
    {
      RanklibLine(grade, qid, features, docId, keywords)
    }
  }

  /** `grade:<g> qid:<q> (<keywords>) docid:<docId>`. */
  function Description(r: JudgmentRecord): string
  {
    "grade:" + NatToString(r.grade) + " qid:" + NatToString(r.qid)
    + " (" + r.keywords + ") docid:" + r.docId
  }

  /** The comment of a Ranklib line: `# <docId>` TAB `<keywords>`. */
  function RanklibComment(docId: string, keywords: string): string
  {
    "# " + docId + "\t" + keywords
  }

  /** Grade, TAB, `qid:<q>`, TAB, the feature tokens joined by TAB, one SPACE, the comment. */
  function RanklibLine(grade: nat, qid: nat, features: seq<string>, docId: string, keywords: string): string
  {
    NatToString(grade) + "\tqid:" + NatToString(qid) + "\t"
    + Join(FeatureTokens(features), '\t') + " " + RanklibComment(docId, keywords)
  }

  /** `"%s:%s" % (index, value)`. */
  function FeatureToken(index: nat, value: string): string
  {
    NatToString(index) + ":" + value
  }

  /** The list comprehension over `enumerate(features)`: the i-th token carries index i + 1. */
  function FeatureTokens(features: seq<string>): seq<string>
  {
    seq(|features|, i requires 0 <= i < |features| => FeatureToken(i + 1, features[i]))
  }

  // ---------------------------------------------------------------- reading the renderings back

  /** `int()` of a non-empty run of ASCII digits. */
  function ParseNat(s: string): (r: Option<nat>)
    ensures r.Some? <==> s != [] && AllIn(s, Digit)
  {
    if s != [] && AllIn(s, Digit) then Some(DigitsValue(s)) else None
  }

  lemma ParseNatToString(n: nat)
    ensures ParseNat(NatToString(n)) == Some(n)
  {
  }

  /** What a Ranklib line holds. */
  datatype RanklibFields = RanklibFields(grade: nat, qid: nat, features: seq<string>,
                                         docId: string, keywords: string)

  /** Reads a Ranklib line: the fields up to the first TAB, SPACE and TAB in turn. */
  function ParseRanklibLine(line: string): Option<RanklibFields>
  {
    match Cut(line, '\t')
    case None => None
    case Some((g, r1)) =>
      match Literal(r1, "qid:")
      case None => None
      case Some(r2) =>
        match Cut(r2, '\t')
        case None => None
        case Some((q, r3)) =>
          match Cut(r3, ' ')
          case None => None
          case Some((fs, r4)) =>
            match Literal(r4, "# ")
            case None => None
            case Some(r5) =>
              match Cut(r5, '\t')
              case None => None
              case Some((d, k)) =>
                match (ParseNat(g), ParseNat(q), ParseFeatures(fs))
                case (Some(gv), Some(qv), Some(values)) => Some(RanklibFields(gv, qv, values, d, k))
                case _ => None
  }

  /** Reads the TAB-joined feature tokens; the empty text holds no feature. */
  function ParseFeatures(s: string): Option<seq<string>>
  {
    if s == "" then Some([]) else ParseTokens(Split(s, '\t'), 1)
  }

  /** Reads `<index>:<value>` tokens whose indices count up from `next`. */
  function ParseTokens(tokens: seq<string>, next: nat): (r: Option<seq<string>>)
    ensures r.Some? ==> |r.value| == |tokens|
    decreases |tokens|
  {
    if tokens == [] then Some([])
    else
      match Cut(tokens[0], ':')
      case None => None
      case Some((index, value)) =>
        if ParseNat(index) != Some(next) then None
        else
          match ParseTokens(tokens[1..], next + 1)
          case None => None
          case Some(values) => Some([value] + values)
  }

  /** Reads a description back; the keywords end at their first `)`. */
  function ParseDescription(s: string): Option<JudgmentRecord>
  {
    match Literal(s, "grade:")
    case None => None
    case Some(r1) =>
      match Cut(r1, ' ')
      case None => None
      case Some((g, r2)) =>
        match Literal(r2, "qid:")
        case None => None
        case Some(r3) =>
          match Cut(r3, ' ')
          case None => None
          case Some((q, r4)) =>
            match Literal(r4, "(")
            case None => None
            case Some(r5) =>
              match Cut(r5, ')')
              case None => None
              case Some((k, r6)) =>
                match Literal(r6, " docid:")
                case None => None
                case Some(d) =>
                  match (ParseNat(g), ParseNat(q))
                  case (Some(gv), Some(qv)) => Some(JudgmentRecord(gv, qv, k, d))
                  case _ => None
  }

  // ---------------------------------------------------------------- round trips

  /** The number text of `n` holds no character outside the digits. */
  lemma NatToStringHasNo(n: nat, c: char)
    requires !IsDigit(c)
    ensures c !in NatToString(n)
  {
  }

  /** Tokens indexed `start`, `start + 1`, ... are read back as their values. */
  lemma {:induction false} ParseTokensOf(tokens: seq<string>, values: seq<string>, start: nat)
    requires |tokens| == |values|
    requires forall i :: 0 <= i < |tokens| ==> tokens[i] == FeatureToken(start + i, values[i])
    ensures ParseTokens(tokens, start) == Some(values)
    decreases |tokens|
  {
    if tokens != [] {
      var rest, vs := tokens[1..], values[1..];
      assert forall i :: 0 <= i < |rest| ==> rest[i] == FeatureToken(start + 1 + i, vs[i]);
      assert [values[0]] + vs == values;
      ParseTokensOf(rest, vs, start + 1);
      ParseTokensFirst(tokens, start, values[0]);
    }
  }

  /** A first token with the expected index contributes its value ahead of the rest. */
  lemma ParseTokensFirst(tokens: seq<string>, start: nat, value: string)
    requires tokens != [] && tokens[0] == FeatureToken(start, value)
    ensures ParseTokens(tokens, start) == match ParseTokens(tokens[1..], start + 1)
                                         case None => None
                                         case Some(values) => Some([value] + values)
  {
    NatToStringHasNo(start, ':');
    assert tokens[0] == NatToString(start) + ([':'] + value);
    CutOf(NatToString(start), ':', value);
    ParseNatToString(start);
  }

  /** Feature values without TAB or SPACE: the tokens, joined, hold neither character. */
  lemma FeatureTokensPlain(features: seq<string>)
    requires forall i :: 0 <= i < |features| ==> '\t' !in features[i] && ' ' !in features[i]
    ensures forall i :: 0 <= i < |features| ==> '\t' !in FeatureTokens(features)[i]
    ensures ' ' !in Join(FeatureTokens(features), '\t')
  {
    var tokens := FeatureTokens(features);
    forall i | 0 <= i < |features|
      ensures '\t' !in tokens[i] && ' ' !in tokens[i]
    {
      NatToStringHasNo(i + 1, '\t');
      NatToStringHasNo(i + 1, ' ');
    }
    NotInJoin(tokens, '\t', ' ');
  }

  /** The joined feature tokens are read back as the feature values, in order. */
  lemma ParseFeaturesOf(features: seq<string>)
    requires forall i :: 0 <= i < |features| ==> '\t' !in features[i] && ' ' !in features[i]
    ensures ParseFeatures(Join(FeatureTokens(features), '\t')) == Some(features)
  {
    var tokens := FeatureTokens(features);
    FeatureTokensPlain(features);
    if features == [] {
      assert tokens == [];
    } else {
      assert |Join(tokens, '\t')| > 0 by {
        assert |tokens| == 1 || Join(tokens, '\t') == tokens[0] + ['\t'] + Join(tokens[1..], '\t');
      }
      SplitJoin(tokens, '\t');
      ParseTokensOf(tokens, features, 1);
    }
  }

  /**
   * A Ranklib line reads back as the fields it was made from, when the feature values
   * hold no TAB or SPACE and the document id holds no TAB.
   */
  lemma RanklibLineRoundTrip(grade: nat, qid: nat, features: seq<string>, docId: string, keywords: string)
    requires forall i :: 0 <= i < |features| ==> '\t' !in features[i] && ' ' !in features[i]
    requires '\t' !in docId
    ensures ParseRanklibLine(RanklibLine(grade, qid, features, docId, keywords))
            == Some(RanklibFields(grade, qid, features, docId, keywords))
  {
    var g, q := NatToString(grade), NatToString(qid);
    var fs := Join(FeatureTokens(features), '\t');
    var r5 := docId + ("\t" + keywords);
    var r4 := RanklibComment(docId, keywords);
    RanklibCommentShape(docId, keywords);
    var r3 := fs + (" " + r4);
    var r2 := q + ("\t" + r3);
    var r1 := "qid:" + r2;
    RanklibLineShape(grade, qid, features, docId, keywords);
    NatToStringHasNo(grade, '\t');
    NatToStringHasNo(qid, '\t');
    FeatureTokensPlain(features);
    CutOf(g, '\t', r1);
    LiteralOf("qid:", r2);
    CutOf(q, '\t', r3);
    CutOf(fs, ' ', r4);
    LiteralOf("# ", r5);
    CutOf(docId, '\t', keywords);
    ParseNatToString(grade);
    ParseNatToString(qid);
    ParseFeaturesOf(features);
  }

  /** The line with its concatenation grouped from the right, the order in which it is read. */
  lemma RanklibLineShape(grade: nat, qid: nat, features: seq<string>, docId: string, keywords: string)
    ensures RanklibLine(grade, qid, features, docId, keywords)
            == NatToString(grade) + ("\t" + ("qid:" + (NatToString(qid) + ("\t"
               + (Join(FeatureTokens(features), '\t') + (" " + RanklibComment(docId, keywords)))))))
  {
  }

  lemma RanklibCommentShape(docId: string, keywords: string)
    ensures RanklibComment(docId, keywords) == "# " + (docId + ("\t" + keywords))
  {
  }

  /** The description with its concatenation grouped from the right, the order in which it is read. */
  lemma DescriptionShape(r: JudgmentRecord)
    ensures Description(r)
            == "grade:" + (NatToString(r.grade) + (" " + ("qid:" + (NatToString(r.qid)
               + (" " + ("(" + (r.keywords + (")" + (" docid:" + r.docId)))))))))
  {
  }

  /** `toRanklibFormat` reads back as the judgment's fields and its current features. */
  lemma RanklibRoundTrip(j: Judgment)
    requires forall i :: 0 <= i < |j.features| ==> '\t' !in j.features[i] && ' ' !in j.features[i]
    requires '\t' !in j.docId
    ensures ParseRanklibLine(j.ToRanklibFormat())
            == Some(RanklibFields(j.grade, j.qid, j.features, j.docId, j.keywords))
  {
    RanklibLineRoundTrip(j.grade, j.qid, j.features, j.docId, j.keywords);
  }

  /** A description reads back as the record it was made from when the keywords hold no `)`. */
  lemma DescriptionRoundTrip(r: JudgmentRecord)
    requires ')' !in r.keywords
    ensures ParseDescription(Description(r)) == Some(r)
  {
    var g, q := NatToString(r.grade), NatToString(r.qid);
    var r6 := " docid:" + r.docId;
    var r5 := r.keywords + (")" + r6);
    var r4 := "(" + r5;
    var r3 := q + (" " + r4);
    var r2 := "qid:" + r3;
    var r1 := g + (" " + r2);
    DescriptionShape(r);
    NatToStringHasNo(r.grade, ' ');
    NatToStringHasNo(r.qid, ' ');
    LiteralOf("grade:", r1);
    CutOf(g, ' ', r2);
    LiteralOf("qid:", r3);
    CutOf(q, ' ', r4);
    LiteralOf("(", r5);
    CutOf(r.keywords, ')', r6);
    LiteralOf(" docid:", r.docId);
    ParseNatToString(r.grade);
    ParseNatToString(r.qid);
  }

  /** `__str__` reads back as the judgment's four fields when the keywords hold no `)`. */
  lemma ToStringRoundTrip(j: Judgment)
    requires ')' !in j.keywords
    ensures ParseDescription(j.ToString()) == Some(j.AsRecord())
  {
    DescriptionRoundTrip(j.AsRecord());
  }

  /** With no features the empty join still stands between the TAB and the SPACE. */
  lemma RanklibNoFeatures(j: Judgment)
    requires j.features == []
    ensures j.ToRanklibFormat()
            == NatToString(j.grade) + "\tqid:" + NatToString(j.qid) + "\t " + RanklibComment(j.docId, j.keywords)
  {
    assert FeatureTokens(j.features) == [];
    var head := NatToString(j.grade) + "\tqid:" + NatToString(j.qid);
    assert head + "\t" + "" + " " == head + "\t ";
  }

  /**
   * The worked example: grade 3, qid 1, keywords "foo bar", document a01, five features.
   * The line is written in three pieces: the grade and qid, the feature tokens, and the
   * comment after its SPACE.
   */
  lemma RanklibExample(j: Judgment)
    requires j.grade == 3 && j.qid == 1 && j.keywords == "foo bar" && j.docId == "a01"
    requires j.features == ["1", "1", "0", "0.2", "0"]
    ensures j.ToRanklibFormat() == "3\tqid:1\t" + "1:1\t2:1\t3:0\t4:0.2\t5:0" + " # a01\tfoo bar"
  {
    ExampleFeaturesJoined();
    assert NatToString(1) == "1" && NatToString(3) == "3";
    assert "3" + "\tqid:" + "1" + "\t" == "3\tqid:1\t";
    ExampleComment("3\tqid:1\t" + "1:1\t2:1\t3:0\t4:0.2\t5:0");
  }

  lemma ExampleComment(x: string)
    ensures x + " " + RanklibComment("a01", "foo bar") == x + " # a01\tfoo bar"
  {
    assert RanklibComment("a01", "foo bar") == "# a01\tfoo bar";
  }

  lemma ExampleFeaturesJoined()
    ensures Join(FeatureTokens(["1", "1", "0", "0.2", "0"]), '\t') == "1:1\t2:1\t3:0\t4:0.2\t5:0"
  {
    ExampleTokens();
    JoinFive("1:1", "2:1", "3:0", "4:0.2", "5:0", '\t');
    ExampleTokensText();
  }

  /** Five pieces joined: each followed by the separator but the last. */
  lemma JoinFive(a: string, b: string, c: string, d: string, e: string, sep: char)
    ensures Join([a, b, c, d, e], sep) == a + [sep] + (b + [sep] + (c + [sep] + (d + [sep] + e)))
  {
    assert [d, e][1..] == [e];
    assert Join([d, e], sep) == d + [sep] + e;
    assert [c, d, e][1..] == [d, e];
    assert Join([c, d, e], sep) == c + [sep] + (d + [sep] + e);
    assert [b, c, d, e][1..] == [c, d, e];
    assert Join([b, c, d, e], sep) == b + [sep] + (c + [sep] + (d + [sep] + e));
    assert [a, b, c, d, e][1..] == [b, c, d, e];
  }

  lemma ExampleTokensText()
    ensures "1:1" + ['\t'] + ("2:1" + ['\t'] + ("3:0" + ['\t'] + ("4:0.2" + ['\t'] + "5:0")))
            == "1:1\t2:1\t3:0\t4:0.2\t5:0"
  {
  }

  lemma ExampleTokens()
    ensures FeatureTokens(["1", "1", "0", "0.2", "0"]) == ["1:1", "2:1", "3:0", "4:0.2", "5:0"]
  {
    var tokens := FeatureTokens(["1", "1", "0", "0.2", "0"]);
    assert NatToString(1) == "1" && NatToString(2) == "2" && NatToString(3) == "3";
    assert NatToString(4) == "4" && NatToString(5) == "5";
    assert tokens[0] == "1:1" && tokens[1] == "2:1" && tokens[2] == "3:0";
    assert tokens[3] == "4:0.2" && tokens[4] == "5:0";
  }
}
