/** `scan_url` from the point where the page body is known (urlbandit.py:35-95):
    the active pattern list, the per-pattern matches and snippets, and the
    ordered map of findings; a failed fetch short-circuits to an error entry. */
module Scanner {
  import opened Seqs
  import opened Text
  import opened OrderedMaps
  import opened Matching
  import opened Snippets

  /** The key under which a failed fetch reports its message. */
  const ErrorKey := "_error"

  /** What `requests.get` gave: the page text of a 200 response, or the
      message of a non-200 status or of a raised exception. */
  datatype Fetch = Fetched(body: string) | FetchFailed(message: string)

  /** Pattern text to kept snippets, in the order patterns were recorded. */
  type Findings = OrderedMap<string, seq<string>>

  /** What `scan_url` returns is a well-formed ordered map whose every
      recorded list is non-empty. */
  ghost predicate FindingsOk(data: Findings) {
    data.Valid() && forall p :: p in data.values ==> data.values[p] != []
  }

  /** `patterns.copy()`, extended with `extra` only when `show_all` is set and
      `extra` is non-empty (urlbandit.py:44-46). */
  function ActivePatterns(patterns: seq<string>, extra: seq<string>, showAll: bool): (active: seq<string>)
    ensures |active| == |patterns| + (if showAll then |extra| else 0)
    ensures forall i :: 0 <= i < |patterns| ==> active[i] == patterns[i]
    ensures showAll ==> forall j :: 0 <= j < |extra| ==> active[|patterns| + j] == extra[j]
  {
    if showAll && extra != [] then patterns + extra else patterns
  }

  /** The snippets one pattern yields: its matches turned into snippets under
      the keep policy (urlbandit.py:48-92). */
  function PatternSnippets(content: string, pat: string, showAll: bool, regex: string -> RegexResult): seq<string>
    requires RegexOracle(regex, |content|)
  {
    PatternMatchesOk(content, pat, regex);
    Keep(Candidates(content, PatternMatches(content, pat, regex)), showAll)
  }

  /** `PatternSnippets` as a value, for the pattern loop. */
  function SnippetsOf(content: string, showAll: bool, regex: string -> RegexResult): (f: string --> seq<string>)
    ensures RegexOracle(regex, |content|) ==>
      forall p :: f.requires(p) && f(p) == PatternSnippets(content, p, showAll, regex)
  {
    p requires RegexOracle(regex, |content|) => PatternSnippets(content, p, showAll, regex)
  }

  /** The findings after scanning with the patterns of `active` in turn:
      a pattern with at least one snippet is recorded with `founds[pat] =
      snippets` (urlbandit.py:93-94). */
  function Scan(content: string, active: seq<string>, showAll: bool, regex: string -> RegexResult): (founds: Findings)
    requires RegexOracle(regex, |content|)
    ensures founds.Valid()
  {
    Collect(active, SnippetsOf(content, showAll, regex))
  }

  /** Scanning one more pattern records it with its snippets when it has
      any, and otherwise leaves the findings as they were. */
  lemma ScanStep(content: string, active: seq<string>, showAll: bool, regex: string -> RegexResult, i: nat)
    requires RegexOracle(regex, |content|) && i < |active|
    ensures var before := Scan(content, active[..i], showAll, regex);
            var ps := PatternSnippets(content, active[i], showAll, regex);
            Scan(content, active[..i + 1], showAll, regex) == if ps != [] then before.Put(active[i], ps) else before
  {
    assert active[..i + 1][..i] == active[..i];
  }

  /** The matches of one pattern (urlbandit.py:50-79). */
  method MatchPattern(content: string, pat: string, regex: string -> RegexResult) returns (matches: seq<Match>)
    requires RegexOracle(regex, |content|)
    ensures matches == PatternMatches(content, pat, regex)
    ensures MatchesOk(content, matches)
  {
    match regex(pat) {
      case Found(spans) =>
        matches := ToMatches(content, spans);
      case CompileError =>
        if !StartsWith(pat, "(?") {
          matches := FindLiteral(content, pat);
        } else {
          matches := [];
        }
    }
    PatternMatchesOk(content, pat, regex);
  }

  /** The pattern loop of urlbandit.py:48-95 over a fetched body. */
  method ScanContent(content: string, active: seq<string>, showAll: bool, regex: string -> RegexResult)
    returns (founds: Findings)
    requires RegexOracle(regex, |content|)
    ensures founds == Scan(content, active, showAll, regex)
  {
    founds := Empty();
    for i := 0 to |active|
      invariant founds == Scan(content, active[..i], showAll, regex)
    {
      var pat := active[i];
      var matches := MatchPattern(content, pat, regex);
      var snippets;
      ghost var examined;
      snippets, examined := CollectSnippets(content, matches, showAll);
      ScanStep(content, active, showAll, regex, i);
      if snippets != [] {
        founds := founds.Put(pat, snippets);
      }
    }
    assert active[..|active|] == active;
  }

  /** `scan_url`: a failed fetch gives only `{'_error': [message]}` and scans
      nothing; otherwise the page is scanned with the active patterns. */
  method ScanUrl(fetch: Fetch, patterns: seq<string>, extra: seq<string>, showAll: bool, regex: string -> RegexResult)
    returns (founds: Findings)
    requires fetch.Fetched? ==> RegexOracle(regex, |fetch.body|)
    ensures FindingsOk(founds)
    ensures fetch.FetchFailed? ==> founds.keys == [ErrorKey] && founds.values == map[ErrorKey := [fetch.message]]
    ensures fetch.Fetched? ==> founds == Scan(fetch.body, ActivePatterns(patterns, extra, showAll), showAll, regex)
  {
    match fetch {
      case FetchFailed(message) =>
        founds := Empty<string, seq<string>>().Put(ErrorKey, [message]);
      case Fetched(content) =>
        var active := patterns;
        if showAll && extra != [] {
          active := active + extra;
        }
        founds := ScanContent(content, active, showAll, regex);
        ScanMembership(content, active, showAll, regex);
    }
  }

  /** A pattern is recorded exactly when it is active and yields a snippet,
      and it is recorded with its own snippets. */
  lemma ScanMembership(content: string, active: seq<string>, showAll: bool, regex: string -> RegexResult)
    requires RegexOracle(regex, |content|)
    ensures forall p :: p in Scan(content, active, showAll, regex).values <==>
      p in active && PatternSnippets(content, p, showAll, regex) != []
    ensures forall p :: p in Scan(content, active, showAll, regex).values ==>
      Scan(content, active, showAll, regex).values[p] == PatternSnippets(content, p, showAll, regex)
  {
    CollectMembership(active, SnippetsOf(content, showAll, regex));
  }

  /** Recorded patterns appear in the order of their first occurrence in the
      active list. */
  lemma ScanKeyOrder(content: string, active: seq<string>, showAll: bool, regex: string -> RegexResult)
    requires RegexOracle(regex, |content|)
    ensures FirstOrdered(active, Scan(content, active, showAll, regex).keys)
  {
    CollectKeyOrder(active, SnippetsOf(content, showAll, regex));
  }

  /** A pattern that fails to compile and starts with "(?" is never recorded. */
  lemma RegexShapedFailureNeverKey(content: string, active: seq<string>, showAll: bool, regex: string -> RegexResult, pat: string)
    requires RegexOracle(regex, |content|)
    requires regex(pat).CompileError? && StartsWith(pat, "(?")
    ensures pat !in Scan(content, active, showAll, regex).values
  {
    ScanMembership(content, active, showAll, regex);
    RegexShapedFailureHasNoMatches(content, pat, regex);
  }

  /** The snippets recorded for a pattern never exceed five and are pairwise
      distinct unless `show_all` is set, and with `show_all` there is one per
      match. */
  lemma RecordedSnippets(content: string, active: seq<string>, showAll: bool, regex: string -> RegexResult, pat: string)
    requires RegexOracle(regex, |content|)
    requires pat in Scan(content, active, showAll, regex).values
    ensures var snippets := Scan(content, active, showAll, regex).values[pat];
            && snippets != []
            && (!showAll ==> |snippets| <= Cap && Distinct(snippets))
            && (showAll ==> |snippets| == |PatternMatches(content, pat, regex)|)
  {
    ScanMembership(content, active, showAll, regex);
    PatternSnippetsShape(content, pat, showAll, regex);
  }

  /** One pattern's snippets: at most five, pairwise distinct, unless
      `show_all` is set, in which case there is one per match. */
  lemma PatternSnippetsShape(content: string, pat: string, showAll: bool, regex: string -> RegexResult)
    requires RegexOracle(regex, |content|)
    ensures var snippets := PatternSnippets(content, pat, showAll, regex);
            && (!showAll ==> |snippets| <= Cap && Distinct(snippets))
            && (showAll ==> |snippets| == |PatternMatches(content, pat, regex)|)
  {
    PatternMatchesOk(content, pat, regex);
    KeepDeduplicated(Candidates(content, PatternMatches(content, pat, regex)));
  }
}
