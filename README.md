# Judgment files and the Ranklib line format

A model of `scripts/judgments.py`, the loader for learning-to-rank judgment files. A judgment file has two parts:

- **A header:** leading comment lines such as `# qid:523: First Blood`, which map query ids to search keywords.
- **A body:** graded lines such as `4  qid:523   # a01  Grade for Rambo`, which give a grade, a query id and a document id.

The loader reads both parts through one shared file iterator. It joins each body line with the keywords of its query and produces `Judgment` records, which can then be grouped by query or rendered as Ranklib training lines.

The model has six modules:

- `Wrappers`: `Option`.
- `Text`: the ASCII character classes `\d`, `\s`, `\w` and `.`, character runs, `int()` and `%s` of naturals, and `join`/`split`.
- `Matchers`: the two regular expressions, written as scanners over character runs. Each comes with a declarative description of the lines it accepts and a lemma proving that the scanner accepts exactly those lines.
- `Ranklib`: the `Judgment` class and its two renderings, `__str__` and `toRanklibFormat`. Each rendering comes with a reader that inverts it.
- `Loading`: the file as a `LineCursor` object shared by the phases below. Each phase is a method with the source's loop, proved against a function of the lines:
  - `_queriesFromHeader`, a loop with an early exit that fills a map;
  - `_judgmentsFromBody`, a loop that collects triples;
  - `judgmentsFromFile`, which runs both phases and then a loop that builds the judgments.
- `Grouping`: `judgmentsByQid`, a loop that appends to per-qid lists, proved against a reference map of buckets.

The regular expressions are read as follows:

- **Header, `#\sqid:(\d+?):\s+?(.*)`:**
  - the lazy digit group has to reach the `:`, so it takes the whole digit run;
  - the lazy `\s+?` is followed by `(.*)`, which always matches, so it takes exactly one whitespace character;
  - the keywords run up to the first newline.
- **Body, `^(\d)\s+qid:(\d+)\s+#\s+(\w+).*`:** the `\s+` runs and `(\d+)` are each followed by a character outside their class, so each is maximal. `(\w+)` is greedy and is followed by `.*`, which never fails, so the longest word run is the one taken.

Two behaviours of the code are easy to miss:

- **The header loop consumes its stop line.** The header loop breaks on the first line that does not start with `#`, and that line has already been taken from the shared iterator, so the body phase never sees it. The header map is built from the leading run of comment lines. The body is everything after the stop line.
- **SPACE before the comment.** A Ranklib line has a single SPACE, not a TAB, between the joined feature tokens and `# <docId>`.

## Model

| member | source | states |
|---|---|---|
| Ranklib.Judgment.constructor | scripts/judgments.py:17-22 | A new judgment holds the given grade, qid, keywords and document id, and its feature list is empty. |
| Ranklib.Judgment.ToRanklibFormat | scripts/judgments.py:27-30 | `toRanklibFormat` renders the judgment's fields and current features through `RanklibLine`; its contract is `RanklibRoundTrip`, `RanklibNoFeatures` and `RanklibExample`. |
| Ranklib.RanklibLine | scripts/judgments.py:27-30 | The Ranklib training line of a grade, a qid, the feature values, a document id and keywords; its contract is `RanklibLineRoundTrip`. |
| Ranklib.Judgment.ToString | scripts/judgments.py:24-25 | `__str__` renders the four fields through `Description`; its contract is `ToStringRoundTrip`. |
| Ranklib.Description | scripts/judgments.py:25 | `grade:<g> qid:<q> (<keywords>) docid:<docId>`; its contract is `DescriptionRoundTrip`. |
| Ranklib.RanklibLineRoundTrip | scripts/judgments.py:27-30 | Reading the Ranklib line back gives the grade, the qid, every feature value in order, the document id and the keywords. It reads the line as: grade, TAB, `qid:` and qid, TAB, tokens `i:value` with `i` counting 1, 2, ... joined by TAB, one SPACE, `# `, document id, TAB, keywords. Stated for feature values without TAB or SPACE and a document id without TAB. |
| Ranklib.RanklibRoundTrip | scripts/judgments.py:27-30 | `toRanklibFormat` of a judgment reads back as its fields and its current feature list, under the same conditions. |
| Ranklib.ParseFeaturesOf | scripts/judgments.py:28 | The TAB-joined feature tokens read back as the feature values, each token carrying its 1-based position. |
| Ranklib.RanklibNoFeatures | scripts/judgments.py:28-30 | With no features, the empty join stands between the TAB after the qid and the SPACE before the comment. |
| Ranklib.RanklibExample | scripts/judgments.py:27-30 | Grade 3, qid 1, keywords `foo bar`, document `a01` and features `1 1 0 0.2 0` render as `3\tqid:1\t1:1\t2:1\t3:0\t4:0.2\t5:0 # a01\tfoo bar`. |
| Ranklib.DescriptionRoundTrip | scripts/judgments.py:25 | `grade:<g> qid:<q> (<keywords>) docid:<docId>` reads back as the four fields when the keywords hold no `)`. |
| Ranklib.ToStringRoundTrip | scripts/judgments.py:24-25 | `__str__` of a judgment reads back as its four fields when the keywords hold no `)`. |
| Matchers.ParseHeaderLine | scripts/judgments.py:40-47 | The header regular expression and the groups taken from it; its contract is `HeaderLineIff` and `ParseHeaderLineOf`. |
| Matchers.HeaderLineIff | scripts/judgments.py:40-47 | The header scanner yields entry `(q, k)` exactly for lines with this shape: `#`, one whitespace, `qid:`, a digit run whose integer value is `q`, `:`, one whitespace, keywords `k` with no newline, then nothing or a newline. |
| Matchers.ParseHeaderLineOf | scripts/judgments.py:40-47 | Every line built from header parts yields the integer of its digits and all of its keywords. |
| Matchers.ParseBodyLine | scripts/judgments.py:57-63 | The body regular expression and the triple taken from it; its contract is `BodyLineIff`, `ParseBodyLineOf` and `BodyLineSound`. |
| Matchers.BodyLineIff | scripts/judgments.py:57-63 | The body scanner yields triple `(g, q, d)` exactly for lines with this shape: a digit worth `g`, whitespace, `qid:`, a digit run worth `q`, whitespace, `#`, whitespace, a maximal word run `d`, then anything. |
| Matchers.ParseBodyLineOf | scripts/judgments.py:57-63 | Every line built from body parts yields its grade digit, the integer of its qid digits and its maximal word run. |
| Matchers.BodyLineSound | scripts/judgments.py:57-63 | Whatever the body scanner accepts has the shape of the body pattern. |
| Loading.LineCursor.Next | scripts/judgments.py:42-43 | The shared iterator gives the next line and moves past it, or gives nothing at the end of the file and stays there. |
| Loading.HeaderEnd | scripts/judgments.py:42-44 | The header run is the longest prefix of lines that start with `#`; the line after it, if any, does not. |
| Loading.QueriesFromHeader | scripts/judgments.py:33-49 | The loop with its `break` returns the header map of the remaining lines. The cursor moves past the comment run and past the line that stopped it. |
| Loading.HeaderMap | scripts/judgments.py:33-49 | What `_queriesFromHeader` returns for the remaining lines; its contract is `HeaderMapLatest`, `HeaderMapKeys`, `HeaderMapEmpty` and `HeaderStops`, and `QueriesFromHeader` is proved equal to it. |
| Loading.HeaderMapLatest | scripts/judgments.py:42-47 | A header-run line for qid `q` sets `q` to its keywords unless a later header-run line is also for `q`; the later line overwrites it. |
| Loading.HeaderMapKeys | scripts/judgments.py:42-47 | `q` is a key of the header map exactly when some line of the header run matches the header pattern for `q`. Comment lines that do not match add nothing. |
| Loading.HeaderMapEmpty | scripts/judgments.py:43-49 | A header run with no matching line gives the empty map, and nothing fails. |
| Loading.HeaderStops | scripts/judgments.py:42-44 | A non-comment line after a comment run ends the header. The map comes from the run alone, the stop line is consumed, and the body phase starts right after it. |
| Loading.HeaderThenStop | scripts/judgments.py:42-47 | One header line, a stop line, then anything: the map holds that one entry, and the body is what follows the stop line. |
| Loading.HeaderExample | scripts/judgments.py:42-47 | For `# qid:1: A`, `not a comment`, `# qid:2: B`, the map is `{1: "A"}`: the header line after the stop line is never read as a header. |
| Loading.JudgmentsFromBody | scripts/judgments.py:51-63 | The loop reads the cursor to the end and returns the triples of the remaining lines. |
| Loading.BodyTriples | scripts/judgments.py:51-63 | The triples `_judgmentsFromBody` yields for the remaining lines; its contract is `BodyTriplesAppend` and `BodyTriplesOne`, and `JudgmentsFromBody` is proved equal to it. |
| Loading.BodyTriplesAppend | scripts/judgments.py:58-63 | The body is parsed line by line: two stretches of lines yield their triples in the order of the lines. |
| Loading.BodyTriplesOne | scripts/judgments.py:60-63 | One line yields one triple when the body pattern matches it, and no triple otherwise. |
| Loading.BodyLineExample | scripts/judgments.py:57-63 | `3 qid:01 # a01 rest` yields grade 3, qid 1 (`int` drops the leading zero) and document `a01`. |
| Loading.Resolve | scripts/judgments.py:69-70 | Each produced judgment is its triple with the keywords of its qid. Either every triple is resolved, or the load stops at a triple whose qid is missing from the map; then exactly the triples before it have been resolved, and the outcome names that qid. |
| Loading.Load | scripts/judgments.py:66-70 | What `judgmentsFromFile` produces for a file's lines: the body after the stop line resolved against the header map. Its contract is the ensures of `Resolve`, `LoadOneJudgment` and `LoadExample`, and `JudgmentsFromFile` is proved equal to it. |
| Loading.ResolveFirstMissing | scripts/judgments.py:69-70 | When the first missing qid is at position `i`, the load fails on that qid after exactly `i` judgments. |
| Loading.MakeJudgments | scripts/judgments.py:69-70 | The loop makes a new, distinct `Judgment` object for each resolved triple, with empty features. `missing` is set exactly when a qid lookup fails, and then names that qid. |
| Loading.JudgmentsFromFile | scripts/judgments.py:66-70 | The whole load over one cursor yields the judgments of `Load(lines)`: header map from the comment run, body from after the stop line, keywords looked up per triple, features empty. |
| Loading.LoadOneJudgment | scripts/judgments.py:66-70 | A header line, a stop line and one body line give that line's judgment with the header's keywords when the qids agree, and fail on the body's qid otherwise. |
| Loading.LoadExample | scripts/judgments.py:66-70 | `# qid:1: A`, a blank line and `3 qid:01 # a01 rest` load as one judgment: grade 3, qid 1, keywords `A`, document `a01`. |
| Grouping.JudgmentsByQid | scripts/judgments.py:72-79 | The keys of the result are exactly the qids of the input. Each bucket is the in-order list of the judgments for its qid. The bucket sizes add up to the number of judgments. |
| Grouping.Buckets | scripts/judgments.py:72-79 | The map `judgmentsByQid` returns; its contract is `BucketMembers`, `BucketAtPositions` and `BucketsSize`, and the ensures of `JudgmentsByQid` give its result the same keys and buckets. |
| Grouping.BucketMembers | scripts/judgments.py:72-79 | A judgment is in the bucket of `q` exactly when it is in the input with qid `q`. |
| Grouping.Positions | scripts/judgments.py:72-79 | The positions of qid `q` in the input are increasing, carry qid `q`, and include every position whose judgment has qid `q`. |
| Grouping.BucketAtPositions | scripts/judgments.py:72-79 | The bucket of `q` is the input taken at those increasing positions, so it is a subsequence in input order. |
| Grouping.BucketsSize | scripts/judgments.py:72-79 | The bucket lengths add up to the number of judgments, so every judgment is in exactly one bucket. |
| Grouping.GroupingExample | scripts/judgments.py:72-79 | Qids 1, 2, 1, 3, 1 give three buckets; the bucket for qid 1 holds the first, third and fifth judgments in that order. |

## Left out

- Opening the file and the `with` block (scripts/judgments.py:67): the loader takes the file's lines, each ending in a newline, and the cursor plays the file object. A failure to open the file is not modelled.
- The debug `print` calls at scripts/judgments.py:59 and 62, and the command-line block at scripts/judgments.py:82-85: these are output only.
- Python's `%s` rendering of floating-point feature values: a feature is kept as the text it renders to, for example `"0.2"`.
- Unicode readings of `\d`, `\w` and `\s`: the classes are ASCII. `\s` is space and code points 9 to 13.
- Generator laziness and early abandonment: the body phase and the loader produce finite lists. The loader's KeyError becomes a `LookupFailed` outcome, or the `missing` out-parameter of the method, which carries the judgments made before it.
- The IndexError of `line[0]` on an empty line (scripts/judgments.py:43): `QueriesFromHeader` and `JudgmentsFromFile` require non-empty lines, which file iteration always gives.
- The docstring example at scripts/judgments.py:14: it shows spaces and no keywords, unlike the code at scripts/judgments.py:28-30, which the model follows.
- Field types: grade and qid are naturals, and keywords and document ids are strings. These are what the loader produces; Python would accept any value.
- Appending to `features` is done by callers outside this file: `features` is a mutable field, and the renderings read its current value.
