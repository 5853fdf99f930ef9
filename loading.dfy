/**
 * Loading a judgment file: the header phase (`_queriesFromHeader`), the body phase
 * (`_judgmentsFromBody`) and the loader that drives both over one shared line cursor and
 * resolves every triple's keywords (`judgmentsFromFile`).
 *
 * The file is given as its sequence of lines; a `LineCursor` plays the open file object,
 * whose iteration both phases share. Each phase is a method over the cursor, proved
 * against a function of the lines it reads. Those functions first match a pattern against
 * every line and then fold the match results, so that what is proved about the folds
 * holds whatever the patterns accept.
 */
module Loading {
  import opened Wrappers
  import opened Text
  import opened Matchers
  import opened Ranklib

  /** The open file, read one line at a time by `for line in f`. */
  class LineCursor {
    const lines: seq<string>
    var pos: nat

    ghost predicate Valid()
      reads this
    {
      pos <= |lines|
    }

    constructor (lines: seq<string>)
      ensures Valid() && this.lines == lines && pos == 0
    {
      this.lines := lines;
      pos := 0;
    }

    /** The next line, which is then consumed, or None at the end of the file. */
    method Next() returns (line: Option<string>)
      requires Valid()
      modifies this
      ensures Valid()
      ensures old(pos) < |lines| ==> line == Some(lines[old(pos)]) && pos == old(pos) + 1
      ensures old(pos) == |lines| ==> line == None && pos == old(pos)
    {
      if pos < |lines| {
        line := Some(lines[pos]);
        pos := pos + 1;
      } else {
        line := None;
      }
    }
  }

  // ---------------------------------------------------------------- the header phase

  predicate IsComment(line: string)
  {
    line != [] && line[0] == '#'
  }

  /** The length of the leading run of comment lines. */
  function HeaderEnd(lines: seq<string>): (k: nat)
    ensures k <= |lines|
    ensures forall i :: 0 <= i < k ==> IsComment(lines[i])
    ensures k < |lines| ==> !IsComment(lines[k])
  {
    if lines == [] || !IsComment(lines[0]) then 0 else 1 + HeaderEnd(lines[1..])
  }

  /** How many lines the header phase takes from the cursor: the run and the line that ends it. */
  function HeaderConsumed(lines: seq<string>): nat
  {
    if HeaderEnd(lines) < |lines| then HeaderEnd(lines) + 1 else |lines|
  }

  /** The header pattern matched against each line. */
  function HeaderMatches(lines: seq<string>): (ms: seq<Option<HeaderEntry>>)
    ensures |ms| == |lines|
  {
    if lines == [] then [] else HeaderMatches(lines[..|lines| - 1]) + [ParseHeaderLine(lines[|lines| - 1])]
  }

  /** `ms[i]` is a match for query `q`. */
  predicate Declares(ms: seq<Option<HeaderEntry>>, i: nat, q: nat)
    requires i < |ms|
  {
    ms[i].Some? && ms[i].value.qid == q
  }

  /** What `if m: rVal[int(m.group(1))] = m.group(2)` does to the map for one match. */
  function AddMatch(rVal: map<nat, string>, m: Option<HeaderEntry>): map<nat, string>
  {
    match m
    case Some(h) => rVal[h.qid := h.keywords]
    case None => rVal
  }

  /** The map built from the matches, in order. */
  function Entries(ms: seq<Option<HeaderEntry>>): map<nat, string>
  {
    if ms == [] then map[] else AddMatch(Entries(ms[..|ms| - 1]), ms[|ms| - 1])
  }

  /** The result of `_queriesFromHeader` on a file whose lines are `lines`. */
  function HeaderMap(lines: seq<string>): map<nat, string>
  {
    Entries(HeaderMatches(lines[..HeaderEnd(lines)]))
  }

  /** `line` is a header line for query `q`. */
  predicate SetsQid(line: string, q: nat)
  {
    ParseHeaderLine(line).Some? && ParseHeaderLine(line).value.qid == q
  }

  lemma HeaderMatchesSnoc(s: seq<string>, p: nat)
    requires p < |s|
    ensures HeaderMatches(s[..p + 1]) == HeaderMatches(s[..p]) + [ParseHeaderLine(s[p])]
  {
    assert s[..p + 1][..p] == s[..p];
  }

  /** The match at position `i` is that of line `i`. */
  lemma {:induction false} HeaderMatchesAt(lines: seq<string>, i: nat)
    requires i < |lines|
    ensures HeaderMatches(lines)[i] == ParseHeaderLine(lines[i])
    decreases |lines|
  {
    if i < |lines| - 1 {
      var init := lines[..|lines| - 1];
      HeaderMatchesAt(init, i);
    }
  }

  lemma EntriesSnoc(ms: seq<Option<HeaderEntry>>, x: Option<HeaderEntry>)
    ensures Entries(ms + [x]) == AddMatch(Entries(ms), x)
  {
    assert (ms + [x])[..|ms|] == ms;
  }

  /** One step of the header loop: the map of the first `p + 1` lines from that of the first `p`. */
  lemma HeaderStep(s: seq<string>, p: nat, m: map<nat, string>)
    requires p < |s| && m == Entries(HeaderMatches(s[..p]))
    ensures Entries(HeaderMatches(s[..p + 1])) == AddMatch(m, ParseHeaderLine(s[p]))
  {
    HeaderMatchesSnoc(s, p);
    EntriesSnoc(HeaderMatches(s[..p]), ParseHeaderLine(s[p]));
  }

  /** The header loop's step, stated on the value the loop body computes. */
  lemma HeaderLoopStep(s: seq<string>, n: nat, line: string, before: map<nat, string>, after: map<nat, string>)
    requires n < |s| && line == s[n] && before == Entries(HeaderMatches(s[..n]))
    requires n <= HeaderEnd(s) && IsComment(line)
    requires after == AddMatch(before, ParseHeaderLine(line))
    ensures n + 1 <= HeaderEnd(s)
    ensures after == Entries(HeaderMatches(s[..n + 1]))
  {
    HeaderStep(s, n, before);
  }

  /** The header run ends at `p`, either at the end of the lines or at a non-comment line. */
  lemma HeaderDone(s: seq<string>, p: nat)
    requires p <= HeaderEnd(s)
    requires p == |s| || !IsComment(s[p])
    ensures HeaderMap(s) == Entries(HeaderMatches(s[..p]))
    ensures HeaderConsumed(s) == if p == |s| then p else p + 1
  {
  }

  /**
   * `_queriesFromHeader(f)`: reads comment lines until the first line that does not start
   * with `#`, which it consumes too, and maps each matching line's qid to its keywords.
   */
  method QueriesFromHeader(f: LineCursor) returns (rVal: map<nat, string>)
    requires f.Valid()
    requires forall i :: f.pos <= i < |f.lines| ==> f.lines[i] != []
    modifies f
    ensures f.Valid()
    ensures rVal == HeaderMap(f.lines[old(f.pos)..])
    ensures f.pos == old(f.pos) + HeaderConsumed(f.lines[old(f.pos)..])
  {
    ghost var start := f.pos;
    ghost var s := f.lines[start..];
    ghost var n := 0;
    rVal := map[];
    while true
      invariant f.Valid() && f.pos == start + n
      invariant n <= HeaderEnd(s)
      invariant rVal == Entries(HeaderMatches(s[..n]))
      decreases |s| - n
    {
      ghost var before := rVal;
      var next := f.Next();
      if next.None? {
        HeaderDone(s, n);
        break;
      }
      var line := next.value;
      if line[0] != '#' {
        HeaderDone(s, n);
        break;
      }
      rVal := AddHeaderLine(rVal, line);
      HeaderLoopStep(s, n, line, before, rVal);
      n := n + 1;
    }
  }

  /** The loop body's `m = re.match(...)` and `if m: rVal[int(m.group(1))] = m.group(2)`. */
  method AddHeaderLine(rVal: map<nat, string>, line: string) returns (r: map<nat, string>)
    ensures r == AddMatch(rVal, ParseHeaderLine(line))
  {
    var m := ParseHeaderLine(line);
    r := rVal;
    if m.Some? {
      r := r[m.value.qid := m.value.keywords];
    }
  }

  /** The map keeps, for each qid, the keywords of the last match for it. */
  lemma {:induction false} EntriesLatest(ms: seq<Option<HeaderEntry>>, i: nat, h: HeaderEntry)
    requires i < |ms| && ms[i] == Some(h)
    requires forall j :: i < j < |ms| ==> !Declares(ms, j, h.qid)
    ensures h.qid in Entries(ms) && Entries(ms)[h.qid] == h.keywords
    decreases |ms|
  {
    var init, last := ms[..|ms| - 1], ms[|ms| - 1];
    assert ms == init + [last];
    EntriesSnoc(init, last);
    if i < |ms| - 1 {
      forall j | i < j < |init|
        ensures !Declares(init, j, h.qid)
      {
        assert !Declares(ms, j, h.qid);
        assert init[j] == ms[j];
      }
      assert !Declares(ms, |ms| - 1, h.qid);
      EntriesLatest(init, i, h);
    }
  }

  /** A qid is in the map exactly when some match is for it. */
  lemma {:induction false} EntriesKeys(ms: seq<Option<HeaderEntry>>, q: nat)
    ensures q in Entries(ms) <==> exists i :: 0 <= i < |ms| && Declares(ms, i, q)
    decreases |ms|
  {
    if ms != [] {
      var init, last := ms[..|ms| - 1], ms[|ms| - 1];
      assert ms == init + [last];
      EntriesSnoc(init, last);
      EntriesKeys(init, q);
      if exists i :: 0 <= i < |init| && Declares(init, i, q) {
        var i :| 0 <= i < |init| && Declares(init, i, q);
        assert Declares(ms, i, q);
      }
      if Declares(ms, |ms| - 1, q) {
        assert q in Entries(ms);
      } else if exists i :: 0 <= i < |ms| && Declares(ms, i, q) {
        var i :| 0 <= i < |ms| && Declares(ms, i, q);
        assert Declares(init, i, q);
      }
    }
  }

  /** A match for `q` in the header matches is a header line for `q`. */
  lemma DeclaresLine(hs: seq<string>, i: nat, q: nat)
    requires i < |hs|
    ensures Declares(HeaderMatches(hs), i, q) <==> SetsQid(hs[i], q)
  {
    HeaderMatchesAt(hs, i);
  }

  /**
   * The header map sends the qid of a header line to that line's keywords unless a later
   * header line is for the same qid: the later one overwrites it.
   */
  lemma HeaderMapLatest(lines: seq<string>, i: nat, h: HeaderEntry)
    requires i < HeaderEnd(lines) && ParseHeaderLine(lines[i]) == Some(h)
    requires forall j :: i < j < HeaderEnd(lines) ==> !SetsQid(lines[j], h.qid)
    ensures h.qid in HeaderMap(lines) && HeaderMap(lines)[h.qid] == h.keywords
  {
    var hs := lines[..HeaderEnd(lines)];
    var ms := HeaderMatches(hs);
    forall j | i < j < |ms|
      ensures !Declares(ms, j, h.qid)
    {
      assert hs[j] == lines[j];
      DeclaresLine(hs, j, h.qid);
    }
    HeaderMatchesAt(hs, i);
    EntriesLatest(ms, i, h);
  }

  /** A match in the header run is a header line for the same qid, and the other way round. */
  lemma DeclaresAt(lines: seq<string>, i: nat, q: nat)
    requires i < HeaderEnd(lines)
    ensures Declares(HeaderMatches(lines[..HeaderEnd(lines)]), i, q) <==> SetsQid(lines[i], q)
  {
    var hs := lines[..HeaderEnd(lines)];
    assert hs[i] == lines[i];
    DeclaresLine(hs, i, q);
  }

  /**
   * The header map has a key exactly for the qids of the matching lines of the leading
   * comment run; other comment lines add nothing.
   */
  lemma HeaderMapKeys(lines: seq<string>, q: nat)
    ensures q in HeaderMap(lines) <==> exists i :: 0 <= i < HeaderEnd(lines) && SetsQid(lines[i], q)
  {
    var ms := HeaderMatches(lines[..HeaderEnd(lines)]);
    EntriesKeys(ms, q);
    forall i | 0 <= i < HeaderEnd(lines)
      ensures SetsQid(lines[i], q) <==> Declares(ms, i, q)
    {
      DeclaresAt(lines, i, q);
    }
  }

  /** No matching header line: the map is empty, and nothing fails. */
  lemma HeaderMapEmpty(lines: seq<string>)
    requires forall i :: 0 <= i < HeaderEnd(lines) ==> ParseHeaderLine(lines[i]).None?
    ensures HeaderMap(lines) == map[]
  {
    forall q | q in HeaderMap(lines)
      ensures false
    {
      HeaderMapKeys(lines, q);
    }
  }

  /**
   * The header phase stops at the first line that is not a comment: that line is consumed,
   * and nothing after it, header-like or not, reaches the header map.
   */
  lemma HeaderStops(pre: seq<string>, stop: string, rest: seq<string>)
    requires forall i :: 0 <= i < |pre| ==> IsComment(pre[i])
    requires !IsComment(stop)
    ensures HeaderEnd(pre + [stop] + rest) == |pre|
    ensures HeaderMap(pre + [stop] + rest) == Entries(HeaderMatches(pre))
    ensures HeaderConsumed(pre + [stop] + rest) == |pre| + 1
    ensures (pre + [stop] + rest)[HeaderConsumed(pre + [stop] + rest)..] == rest
  {
    var lines := pre + [stop] + rest;
    assert lines[|pre|] == stop;
    assert forall i :: 0 <= i < |pre| ==> lines[i] == pre[i];
    assert lines[..|pre|] == pre;
    assert lines[|pre| + 1..] == rest;
  }

  lemma HeaderLineIsComment(line: string)
    requires ParseHeaderLine(line).Some?
    ensures IsComment(line)
  {
    assert Literal(line, "#").Some?;
  }

  /**
   * One header line, then a line that is not a comment, then anything: the map holds that
   * one entry, and the body is what follows the stop line.
   */
  lemma HeaderThenStop(l1: string, stop: string, rest: seq<string>, h: HeaderEntry)
    requires ParseHeaderLine(l1) == Some(h) && !IsComment(stop)
    ensures HeaderMap([l1, stop] + rest) == map[h.qid := h.keywords]
    ensures ([l1, stop] + rest)[HeaderConsumed([l1, stop] + rest)..] == rest
  {
    HeaderLineIsComment(l1);
    HeaderStops([l1], stop, rest);
    assert [l1] + [stop] + rest == [l1, stop] + rest;
    assert [l1][..0] == [];
    assert HeaderMatches([l1]) == [] + [Some(h)];
    EntriesSnoc([], Some(h));
  }

  /** The header map of `# qid:1: A`, `not a comment`, `# qid:2: B` has key 1 only. */
  lemma HeaderExample()
    ensures HeaderMap(["# qid:1: A\n", "not a comment\n", "# qid:2: B\n"]) == map[1 := "A"]
  {
    HeaderExampleOf("# qid:1: A\n", "not a comment\n", "# qid:2: B\n");
  }

  lemma HeaderExampleOf(l1: string, l2: string, l3: string)
    requires l1 == "# qid:1: A\n" && l2 == "not a comment\n"
    ensures HeaderMap([l1, l2, l3]) == map[1 := "A"]
  {
    var h := HeaderEntry(1, "A");
    HeaderLineExample(l1);
    assert !IsComment(l2);
    ThreeLines(l1, l2, l3);
    HeaderThenStop(l1, l2, [l3], h);
  }

  lemma HeaderLineExample(l1: string)
    requires l1 == "# qid:1: A\n"
    ensures ParseHeaderLine(l1) == Some(HeaderEntry(1, "A"))
  {
    assert l1 == HeaderLineOf(' ', "1", ' ', "A", "\n");
    ParseHeaderLineOf(' ', "1", ' ', "A", "\n");
    assert DigitsValue("1") == 1;
  }

  // ---------------------------------------------------------------- the body phase

  /** The body pattern matched against each line. */
  function BodyMatches(lines: seq<string>): (ms: seq<Option<Triple>>)
    ensures |ms| == |lines|
  {
    if lines == [] then [] else BodyMatches(lines[..|lines| - 1]) + [ParseBodyLine(lines[|lines| - 1])]
  }

  /** Matching works line by line. */
  lemma {:induction false} BodyMatchesAppend(a: seq<string>, b: seq<string>)
    ensures BodyMatches(a + b) == BodyMatches(a) + BodyMatches(b)
    decreases |b|
  {
    if b == [] {
      assert a + b == a;
    } else {
      var b', x := b[..|b| - 1], b[|b| - 1];
      assert (a + b)[..|a + b| - 1] == a + b';
      assert (a + b)[|a + b| - 1] == x;
      BodyMatchesAppend(a, b');
    }
  }

  /** What `if m: yield ...` produces for one match. */
  function Yield(m: Option<Triple>): seq<Triple>
  {
    match m
    case Some(t) => [t]
    case None => []
  }

  /** The triples of the matches, in order. */
  function Yields(ms: seq<Option<Triple>>): seq<Triple>
  {
    if ms == [] then [] else Yields(ms[..|ms| - 1]) + Yield(ms[|ms| - 1])
  }

  /** The triples `_judgmentsFromBody` yields for `lines`, in line order. */
  function BodyTriples(lines: seq<string>): seq<Triple>
  {
    Yields(BodyMatches(lines))
  }

  lemma YieldsSnoc(ms: seq<Option<Triple>>, x: Option<Triple>)
    ensures Yields(ms + [x]) == Yields(ms) + Yield(x)
  {
    assert (ms + [x])[..|ms|] == ms;
  }

  /** Yielding works match by match: two stretches of matches yield their triples in turn. */
  lemma {:induction false} YieldsAppend(a: seq<Option<Triple>>, b: seq<Option<Triple>>)
    ensures Yields(a + b) == Yields(a) + Yields(b)
    decreases |b|
  {
    if b == [] {
      assert a + b == a;
    } else {
      var b' := b[..|b| - 1];
      var x := b[|b| - 1];
      assert a + b == (a + b') + [x];
      assert b == b' + [x];
      YieldsAppend(a, b');
      YieldsSnoc(a + b', x);
      YieldsSnoc(b', x);
    }
  }

  /** The body phase works line by line: two stretches of lines yield their triples in turn. */
  lemma BodyTriplesAppend(a: seq<string>, b: seq<string>)
    ensures BodyTriples(a + b) == BodyTriples(a) + BodyTriples(b)
  {
    BodyMatchesAppend(a, b);
    YieldsAppend(BodyMatches(a), BodyMatches(b));
  }

  /** One line yields one triple when the body pattern matches it, and none otherwise. */
  lemma BodyTriplesOne(line: string)
    ensures BodyTriples([line]) == if ParseBodyLine(line).Some? then [ParseBodyLine(line).value] else []
  {
    assert [line][..0] == [];
    assert BodyMatches([line]) == [] + [ParseBodyLine(line)];
    YieldsSnoc([], ParseBodyLine(line));
  }

  lemma BodyMatchesSnoc(s: seq<string>, p: nat)
    requires p < |s|
    ensures BodyMatches(s[..p + 1]) == BodyMatches(s[..p]) + [ParseBodyLine(s[p])]
  {
    assert s[..p + 1][..p] == s[..p];
  }

  /** One step of the body loop: the triples of the first `p + 1` lines from those of the first `p`. */
  lemma BodyStep(s: seq<string>, p: nat)
    requires p < |s|
    ensures BodyTriples(s[..p + 1]) == BodyTriples(s[..p]) + Yield(ParseBodyLine(s[p]))
  {
    BodyMatchesSnoc(s, p);
    YieldsSnoc(BodyMatches(s[..p]), ParseBodyLine(s[p]));
  }

  /** The body loop's step, stated on the value the loop body computes. */
  lemma BodyLoopStep(s: seq<string>, n: nat, line: string, before: seq<Triple>, after: seq<Triple>)
    requires n < |s| && line == s[n] && before == BodyTriples(s[..n])
    requires after == before + Yield(ParseBodyLine(line))
    ensures after == BodyTriples(s[..n + 1])
  {
    BodyStep(s, n);
  }

  /** `_judgmentsFromBody(f)`: the triples of every remaining line the body pattern matches. */
  method JudgmentsFromBody(f: LineCursor) returns (triples: seq<Triple>)
    requires f.Valid()
    modifies f
    ensures f.Valid() && f.pos == |f.lines|
    ensures triples == BodyTriples(f.lines[old(f.pos)..])
  {
    ghost var start := f.pos;
    ghost var s := f.lines[start..];
    ghost var n := 0;
    triples := [];
    assert s[..0] == [];
    while true
      invariant f.Valid() && f.pos == start + n && n <= |s|
      invariant triples == BodyTriples(s[..n])
      decreases |s| - n
    {
      ghost var before := triples;
      var next := f.Next();
      if next.None? {
        assert s[..n] == s;
        break;
      }
      triples := AddBodyLine(triples, next.value);
      BodyLoopStep(s, n, next.value, before, triples);
      n := n + 1;
    }
  }

  /** The loop body's `m = re.match(...)` and `if m: yield ...`, the yield collected in order. */
  method AddBodyLine(triples: seq<Triple>, line: string) returns (r: seq<Triple>)
    ensures r == triples + Yield(ParseBodyLine(line))
  {
    var m := ParseBodyLine(line);
    r := triples;
    if m.Some? {
      r := r + [m.value];
    }
  }

  // ---------------------------------------------------------------- the loader

  /**
   * The judgments a load produces, and whether it stopped on a qid missing from the header
   * map (Python's KeyError at `qidToKeywords[qid]`).
   */
  datatype LoadOutcome =
    | Loaded(records: seq<JudgmentRecord>)
    | LookupFailed(records: seq<JudgmentRecord>, qid: nat)

  /** The judgment the loader makes of triple `t`: `Judgment(grade, qid, qidToKeywords[qid], docId)`. */
  function Resolved(keywords: map<nat, string>, t: Triple): JudgmentRecord
    requires t.qid in keywords
  {
    JudgmentRecord(t.grade, t.qid, keywords[t.qid], t.docId)
  }

  /**
   * The loader's loop over the triples: each triple becomes a judgment with the keywords of
   * its qid, until the first qid that the header map lacks.
   */
  function Resolve(keywords: map<nat, string>, triples: seq<Triple>): (r: LoadOutcome)
    ensures |r.records| <= |triples|
    ensures forall i :: 0 <= i < |r.records| ==>
      && triples[i].qid in keywords
      && r.records[i] == Resolved(keywords, triples[i])
    ensures r.Loaded? ==> |r.records| == |triples|
    ensures r.LookupFailed? ==>
      && |r.records| < |triples|
      && triples[|r.records|].qid == r.qid
      && r.qid !in keywords
    decreases |triples|
  {
    if triples == [] then Loaded([])
    else
      var t := triples[0];
      if t.qid !in keywords then LookupFailed([], t.qid)
      else
        var r := Resolve(keywords, triples[1..]);
        r.(records := [Resolved(keywords, t)] + r.records)
  }

  /** `judgmentsFromFile` on a file whose lines are `lines`. */
  function Load(lines: seq<string>): LoadOutcome
  {
    Resolve(HeaderMap(lines), BodyTriples(lines[HeaderConsumed(lines)..]))
  }

  /** The outcome is determined by where the first missing qid is, if there is one. */
  lemma ResolveFirstMissing(keywords: map<nat, string>, triples: seq<Triple>, i: nat)
    requires i < |triples| && triples[i].qid !in keywords
    requires forall k :: 0 <= k < i ==> triples[k].qid in keywords
    ensures Resolve(keywords, triples).LookupFailed?
    ensures |Resolve(keywords, triples).records| == i && Resolve(keywords, triples).qid == triples[i].qid
  {
  }

  /**
   * The loop of `judgmentsFromFile` over the body's triples: a new `Judgment` per triple,
   * with the keywords of its qid, until a qid is missing; `missing` names it.
   */
  method MakeJudgments(qidToKeywords: map<nat, string>, triples: seq<Triple>)
      returns (judgments: seq<Judgment>, missing: Option<nat>)
    ensures |judgments| == |Resolve(qidToKeywords, triples).records|
    ensures forall i :: 0 <= i < |judgments| ==>
      judgments[i].AsRecord() == Resolve(qidToKeywords, triples).records[i]
    ensures missing == if Resolve(qidToKeywords, triples).LookupFailed? then Some(Resolve(qidToKeywords, triples).qid) else None
    ensures forall i :: 0 <= i < |judgments| ==> fresh(judgments[i]) && judgments[i].features == []
    ensures forall i, k :: 0 <= i < k < |judgments| ==> judgments[i] != judgments[k]
  {
    judgments, missing := [], None;
    var i := 0;
    while i < |triples|
      invariant 0 <= i <= |triples| && |judgments| == i
      invariant forall k :: 0 <= k < i ==> triples[k].qid in qidToKeywords
      invariant forall k :: 0 <= k < i ==> judgments[k].AsRecord() == Resolved(qidToKeywords, triples[k])
      invariant forall k :: 0 <= k < i ==> fresh(judgments[k]) && judgments[k].features == []
      invariant forall k, l :: 0 <= k < l < i ==> judgments[k] != judgments[l]
    {
      var t := triples[i];
      if t.qid !in qidToKeywords {
        missing := Some(t.qid);
        ResolveFirstMissing(qidToKeywords, triples, i);
        return;
      }
      var j := new Judgment(t.grade, t.qid, qidToKeywords[t.qid], t.docId);
      assert j.AsRecord() == Resolved(qidToKeywords, t);
      ghost var prev := judgments;
      judgments := judgments + [j];
      assert forall k :: 0 <= k < i ==> judgments[k] == prev[k];
      i := i + 1;
    }
  }

  /**
   * `judgmentsFromFile`: the header phase, then the body phase on the same cursor, then the
   * judgments of the body's triples.
   */
  method JudgmentsFromFile(lines: seq<string>) returns (judgments: seq<Judgment>, missing: Option<nat>)
    requires forall i :: 0 <= i < |lines| ==> lines[i] != []
    ensures |judgments| == |Load(lines).records|
    ensures forall i :: 0 <= i < |judgments| ==> judgments[i].AsRecord() == Load(lines).records[i]
    ensures missing == if Load(lines).LookupFailed? then Some(Load(lines).qid) else None
    ensures forall i :: 0 <= i < |judgments| ==> fresh(judgments[i]) && judgments[i].features == []
    ensures forall i, k :: 0 <= i < k < |judgments| ==> judgments[i] != judgments[k]
  {
    var f := new LineCursor(lines);
    var qidToKeywords := QueriesFromHeader(f);
    var triples := JudgmentsFromBody(f);
    assert lines[0..] == lines;
    judgments, missing := MakeJudgments(qidToKeywords, triples);
  }

  /**
   * A header line, a stop line and one body line: the load gives that line's judgment with
   * the header's keywords when the qids agree, and fails on the body's qid otherwise.
   */
  lemma LoadOneJudgment(l1: string, stop: string, l3: string, h: HeaderEntry, t: Triple)
    requires ParseHeaderLine(l1) == Some(h) && !IsComment(stop) && ParseBodyLine(l3) == Some(t)
    ensures Load([l1, stop, l3])
            == if t.qid == h.qid then Loaded([JudgmentRecord(t.grade, t.qid, h.keywords, t.docId)])
               else LookupFailed([], t.qid)
  {
    ThreeLines(l1, stop, l3);
    LoadAfterHeader(l1, stop, [l3], h);
    ResolveOneLine(h, l3, t);
  }

  /** A body of one matching line, resolved against a one-entry header map. */
  lemma ResolveOneLine(h: HeaderEntry, l3: string, t: Triple)
    requires ParseBodyLine(l3) == Some(t)
    ensures Resolve(map[h.qid := h.keywords], BodyTriples([l3]))
            == if t.qid == h.qid then Loaded([JudgmentRecord(t.grade, t.qid, h.keywords, t.docId)])
               else LookupFailed([], t.qid)
  {
    BodyTriplesOne(l3);
    ResolveOne(map[h.qid := h.keywords], t);
  }

  lemma ThreeLines(a: string, b: string, c: string)
    ensures [a, b] + [c] == [a, b, c]
  {
  }

  /** After a one-entry header and its stop line, the rest of the file is resolved against that entry. */
  lemma LoadAfterHeader(l1: string, stop: string, rest: seq<string>, h: HeaderEntry)
    requires ParseHeaderLine(l1) == Some(h) && !IsComment(stop)
    ensures Load([l1, stop] + rest) == Resolve(map[h.qid := h.keywords], BodyTriples(rest))
  {
    HeaderThenStop(l1, stop, rest, h);
  }

  /** One triple resolves to its judgment, or fails on its qid. */
  lemma ResolveOne(keywords: map<nat, string>, t: Triple)
    ensures Resolve(keywords, [t])
            == if t.qid in keywords then Loaded([Resolved(keywords, t)]) else LookupFailed([], t.qid)
  {
    assert [t][1..] == [];
  }

  /** `qid:01` in the body is qid 1: `int()` drops the leading zero. */
  lemma BodyLineExample(l3: string)
    requires l3 == "3 qid:01 # a01 rest\n"
    ensures ParseBodyLine(l3) == Some(Triple(3, 1, "a01"))
  {
    BodyLineExampleShape(l3);
    BodyLineExampleParts();
  }

  lemma BodyLineExampleShape(l3: string)
    requires l3 == "3 qid:01 # a01 rest\n"
    ensures l3 == BodyLineOf('3', " ", "01", " ", " ", "a01", " rest\n")
  {
  }

  lemma BodyLineExampleParts()
    ensures ParseBodyLine(BodyLineOf('3', " ", "01", " ", " ", "a01", " rest\n")) == Some(Triple(3, 1, "a01"))
  {
    ParseBodyLineOf('3', " ", "01", " ", " ", "a01", " rest\n");
    assert DigitsValue("01") == 1;
  }

  /** A blank line ends the header; `01` in the body is qid 1 of the header. */
  lemma LoadExample()
    ensures Load(["# qid:1: A\n", "\n", "3 qid:01 # a01 rest\n"])
            == Loaded([JudgmentRecord(3, 1, "A", "a01")])
  {
    HeaderLineExample("# qid:1: A\n");
    BodyLineExample("3 qid:01 # a01 rest\n");
    LoadOneJudgment("# qid:1: A\n", "\n", "3 qid:01 # a01 rest\n", HeaderEntry(1, "A"), Triple(3, 1, "a01"));
  }
}
