/** How `scan_url` obtains the matches of one pattern (urlbandit.py:50-79):
    the regular-expression path, whose engine is an oracle here, and the
    hand-written case-insensitive literal search used when compilation fails. */
module Matching {
  import opened Text
  import opened Seqs

  /** One match as the snippet code reads it: `m.start()`, `m.end()` and
      `m.group(0)`. */
  datatype Match = Match(start: nat, end: nat, text: string)

  datatype Span = Span(start: int, end: int)

  /** What `re.compile(pat, re.IGNORECASE)` and `finditer(content)` give for
      one pattern over the document being scanned. */
  datatype RegexResult = Found(spans: seq<Span>) | CompileError

  /** Spans inside a document of length `n`, left to right, not overlapping. */
  ghost predicate SpansOk(spans: seq<Span>, n: nat) {
    && (forall k :: 0 <= k < |spans| ==> 0 <= spans[k].start <= spans[k].end <= n)
    && (forall i, j :: 0 <= i < j < |spans| ==> spans[i].end <= spans[j].start)
  }

  /** What the model assumes of the regular-expression engine on a document of
      length `n`: `finditer` yields in-bounds, ordered, non-overlapping spans,
      and compilation can only fail on non-empty pattern text. */
  ghost predicate RegexOracle(regex: string -> RegexResult, n: nat) {
    forall p ::
      && (regex(p).Found? ==> SpansOk(regex(p).spans, n))
      && (regex(p).CompileError? ==> p != [])
  }

  /** Every match lies inside `content`, carries the text it covers, and the
      matches run left to right without overlapping. */
  ghost predicate MatchesOk(content: string, ms: seq<Match>) {
    && (forall k :: 0 <= k < |ms| ==>
          ms[k].start <= ms[k].end <= |content| && ms[k].text == content[ms[k].start..ms[k].end])
    && (forall i, j :: 0 <= i < j < |ms| ==> ms[i].end <= ms[j].start)
  }

  /** The match objects `finditer` yields for the given spans. */
  function ToMatches(content: string, spans: seq<Span>): (ms: seq<Match>)
    requires SpansOk(spans, |content|)
    ensures |ms| == |spans|
    ensures forall k :: 0 <= k < |ms| ==> ms[k].start == spans[k].start && ms[k].end == spans[k].end
    ensures MatchesOk(content, ms)
  {
    seq(|spans|, k requires 0 <= k < |spans| =>
      Match(spans[k].start, spans[k].end, content[spans[k].start..spans[k].end]))
  }

  /** The literal search of urlbandit.py:56-77 resumed at `start`: find the
      lower-cased pattern in the lower-cased content, record the match with the
      content's own text, and search again from its end. */
  function LiteralFrom(content: string, pat: string, start: nat): (ms: seq<Match>)
    requires pat != [] && start <= |content|
    ensures |ms| <= |content| - start
    decreases |content| - start
  {
    var index := Find(Lower(content), Lower(pat), start);
    if index == -1 then []
    else
      var end := index + |pat|;
      [Match(index, end, content[index..end])] + LiteralFrom(content, pat, end)
  }

  function LiteralMatches(content: string, pat: string): seq<Match>
    requires pat != []
  {
    LiteralFrom(content, pat, 0)
  }

  /** The literal search loop (urlbandit.py:56-77). */
  method FindLiteral(content: string, pat: string) returns (matches: seq<Match>)
    requires pat != []
    ensures matches == LiteralMatches(content, pat)
  {
    var lowerContent := Lower(content);
    var lowerPattern := Lower(pat);
    matches := [];
    var start := 0;
    while true
      invariant start <= |content|
      invariant matches + LiteralFrom(content, pat, start) == LiteralMatches(content, pat)
      decreases |content| - start
    {
      var index := Find(lowerContent, lowerPattern, start);
      if index == -1 {
        assert matches + [] == matches;
        break;
      }
      var end := index + |lowerPattern|;
      var matchedText := content[index..end];
      assert LiteralFrom(content, pat, start) == [Match(index, end, matchedText)] + LiteralFrom(content, pat, end);
      AppendAssoc(matches, [Match(index, end, matchedText)], LiteralFrom(content, pat, end));
      matches := matches + [Match(index, end, matchedText)];
      start := end;
    }
  }

  /** Each match is an occurrence of the lower-cased pattern at or after
      `start`, exactly `|pat|` long. */
  ghost predicate LiteralOccurrences(content: string, pat: string, start: nat, ms: seq<Match>) {
    forall k :: 0 <= k < |ms| ==>
      start <= ms[k].start && ms[k].end == ms[k].start + |pat| &&
      OccursAt(Lower(content), Lower(pat), ms[k].start)
  }

  /** Some match covers position `i` from its start up to its end. */
  ghost predicate Covered(ms: seq<Match>, i: int) {
    exists k :: 0 <= k < |ms| && ms[k].start <= i < ms[k].end
  }

  /** The literal search yields occurrences of the lower-cased pattern, each
      `|pat|` long, carrying the content's own text, left to right without
      overlap (the search resumes at the previous end). */
  lemma {:induction false} LiteralFromSound(content: string, pat: string, start: nat)
    requires pat != [] && start <= |content|
    ensures MatchesOk(content, LiteralFrom(content, pat, start))
    ensures LiteralOccurrences(content, pat, start, LiteralFrom(content, pat, start))
    decreases |content| - start
  {
    var ms := LiteralFrom(content, pat, start);
    var index := Find(Lower(content), Lower(pat), start);
    FindSpec(Lower(content), Lower(pat), start);
    if index != -1 {
      var end := index + |pat|;
      var rest := LiteralFrom(content, pat, end);
      LiteralFromSound(content, pat, end);
      assert ms == [Match(index, end, content[index..end])] + rest;
      assert forall k :: 0 < k < |ms| ==> ms[k] == rest[k - 1];
    }
  }

  /** The literal search misses nothing: every occurrence of the lower-cased
      pattern at or after `start` is one of the matches or begins inside one. */
  lemma {:induction false} LiteralFromComplete(content: string, pat: string, start: nat)
    requires pat != [] && start <= |content|
    ensures forall i :: start <= i && OccursAt(Lower(content), Lower(pat), i) ==>
      Covered(LiteralFrom(content, pat, start), i)
    decreases |content| - start
  {
    var ms := LiteralFrom(content, pat, start);
    var index := Find(Lower(content), Lower(pat), start);
    FindSpec(Lower(content), Lower(pat), start);
    if index != -1 {
      var end := index + |pat|;
      var rest := LiteralFrom(content, pat, end);
      LiteralFromComplete(content, pat, end);
      assert ms == [Match(index, end, content[index..end])] + rest;
      forall i | start <= i && OccursAt(Lower(content), Lower(pat), i)
        ensures Covered(ms, i)
      {
        if i < end {
          assert ms[0].start <= i < ms[0].end;
        } else {
          var k :| 0 <= k < |rest| && rest[k].start <= i < rest[k].end;
          assert ms[k + 1] == rest[k];
        }
      }
    }
  }

  /** The starts of the literal matches strictly increase. */
  lemma LiteralStartsIncrease(content: string, pat: string)
    requires pat != []
    ensures forall i, j :: 0 <= i < j < |LiteralMatches(content, pat)| ==>
      LiteralMatches(content, pat)[i].start < LiteralMatches(content, pat)[j].start
  {
    var ms := LiteralMatches(content, pat);
    LiteralFromSound(content, pat, 0);
    forall i, j | 0 <= i < j < |ms| ensures ms[i].start < ms[j].start {
      assert ms[i].end <= ms[j].start && ms[i].end == ms[i].start + |pat|;
    }
  }

  /** The matches of one pattern (urlbandit.py:50-79): the engine's spans when
      the pattern compiles; otherwise the literal search, except for text that
      starts with "(?", which gets no matches at all. */
  function PatternMatches(content: string, pat: string, regex: string -> RegexResult): (ms: seq<Match>)
    requires RegexOracle(regex, |content|)
    ensures regex(pat).Found? ==> |ms| == |regex(pat).spans|
    ensures regex(pat).CompileError? ==> |ms| <= |content|
  {
    match regex(pat)
    case Found(spans) => ToMatches(content, spans)
    case CompileError =>
      if !StartsWith(pat, "(?") then LiteralMatches(content, pat) else []
  }

  lemma PatternMatchesOk(content: string, pat: string, regex: string -> RegexResult)
    requires RegexOracle(regex, |content|)
    ensures MatchesOk(content, PatternMatches(content, pat, regex))
  {
    if regex(pat).CompileError? && !StartsWith(pat, "(?") {
      LiteralFromSound(content, pat, 0);
    }
  }

  /** A pattern that fails to compile and starts with "(?" yields no match. */
  lemma RegexShapedFailureHasNoMatches(content: string, pat: string, regex: string -> RegexResult)
    requires RegexOracle(regex, |content|)
    requires regex(pat).CompileError? && StartsWith(pat, "(?")
    ensures PatternMatches(content, pat, regex) == []
  {
  }
}
