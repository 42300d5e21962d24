/** Turning matches into the snippets `scan_url` keeps for one pattern
    (urlbandit.py:81-92): a context window around each match, the matched text
    spliced back in, and the keep policy (first-appearance deduplication
    capped at five, or every occurrence when `show_all` is set). The colour
    wrapper `col` is the identity here. */
module Snippets {
  import opened Text
  import opened Seqs
  import opened Matching

  /** Characters of context kept on each side of a match. */
  const Context := 50

  /** The most snippets kept per pattern when `show_all` is false. */
  const Cap := 5

  ghost predicate InBounds(content: string, m: Match) {
    m.start <= m.end <= |content|
  }

  /** `max(0, start-50)`, where the window begins. */
  function WindowStart(m: Match): nat {
    if m.start >= Context then m.start - Context else 0
  }

  /** `min(len(content), end+50)`, where the window ends. */
  function WindowEnd(content: string, m: Match): nat {
    if m.end + Context <= |content| then m.end + Context else |content|
  }

  /** The raw window `content[max(0,start-50):min(len(content),end+50)]`. */
  function Window(content: string, m: Match): (w: string)
    requires InBounds(content, m)
    ensures |w| == WindowEnd(content, m) - WindowStart(m)
    ensures WindowStart(m) <= m.start && m.end <= WindowEnd(content, m)
  {
    content[WindowStart(m)..WindowEnd(content, m)]
  }

  /** The window with newlines turned into spaces and then stripped
      (urlbandit.py:84-85). */
  function TrimmedWindow(content: string, m: Match): (w: string)
    requires InBounds(content, m)
    ensures |w| <= |Window(content, m)|
  {
    Strip(ReplaceNewlines(Window(content, m)))
  }

  /** `w[:k] + text + w[e:]`, the splice of urlbandit.py:87. */
  function Splice(w: string, k: nat, e: nat, text: string): string {
    PyTake(w, k) + text + PyDrop(w, e)
  }

  /** The snippet as urlbandit.py:87 builds it: the trimmed window cut at the
      match's offsets within the untrimmed window, with the matched text spliced
      in between. */
  function Snippet(content: string, m: Match): (snippet: string)
    requires InBounds(content, m)
    ensures |m.text| <= |snippet| <= |TrimmedWindow(content, m)| + |m.text|
  {
    Splice(TrimmedWindow(content, m), m.start - WindowStart(m), m.end - WindowStart(m), m.text)
  }

  /** The spliced text sits right after the first `min(k, |w|)` characters. */
  lemma SpliceHolds(w: string, k: nat, e: nat, text: string)
    ensures var at := if k <= |w| then k else |w|;
            && at + |text| <= |Splice(w, k, e, text)|
            && Splice(w, k, e, text)[..at] == w[..at]
            && Splice(w, k, e, text)[at..at + |text|] == text
  {
    var pre, post := PyTake(w, k), PyDrop(w, e);
    assert Splice(w, k, e, text) == pre + text + post;
    assert (pre + text + post)[|pre|..|pre| + |text|] == text;
    assert (pre + text + post)[..|pre|] == pre;
  }

  /** Splicing back the very text found between the cuts gives `w` again. */
  lemma SpliceSame(w: string, k: nat, e: nat, text: string)
    requires k <= e <= |w| && w[k..e] == text
    ensures Splice(w, k, e, text) == w
  {
    assert PyTake(w, k) == w[..k] && PyDrop(w, e) == w[e..];
    assert w == w[..k] + w[k..e] + w[e..];
  }

  /** The trimmed window is a stretch of the newline-free window from which
      only whitespace was cut at either end, and it neither starts nor ends
      with whitespace. */
  lemma TrimmedWindowIsInner(content: string, m: Match)
    requires InBounds(content, m)
    ensures var raw := ReplaceNewlines(Window(content, m));
            var w := TrimmedWindow(content, m);
            var lead := SkipSpaces(raw, 0);
            && lead + |w| <= |raw|
            && w == raw[lead..lead + |w|]
            && (forall i :: 0 <= i < lead ==> IsSpace(raw[i]))
            && (forall i :: lead + |w| <= i < |raw| ==> IsSpace(raw[i]))
            && (w == [] || (!IsSpace(w[0]) && !IsSpace(w[|w| - 1])))
  {
    StripIsInner(ReplaceNewlines(Window(content, m)));
  }

  /** The matched text always sits in the snippet right after the cut before
      it, which is `min(start - window start, |trimmed window|)` characters
      long, and what precedes it is the trimmed window's beginning: a renderer
      can locate the highlight without matching again. */
  lemma HighlightRoundTrip(content: string, m: Match)
    requires InBounds(content, m)
    ensures var w := TrimmedWindow(content, m);
            var k := m.start - WindowStart(m);
            var at := if k <= |w| then k else |w|;
            && at + |m.text| <= |Snippet(content, m)|
            && Snippet(content, m)[..at] == w[..at]
            && Snippet(content, m)[at..at + |m.text|] == m.text
  {
    SpliceHolds(TrimmedWindow(content, m), m.start - WindowStart(m), m.end - WindowStart(m), m.text);
  }

  /** The match carries the text it covers and has no newline, the window
      does not start with whitespace, and stripping keeps the whole match:
      then the offsets measured before stripping are still right after it. */
  ghost predicate Aligned(content: string, m: Match) {
    && InBounds(content, m) && m.text == content[m.start..m.end]
    && (Window(content, m) == [] || !IsSpace(Window(content, m)[0]))
    && m.end - WindowStart(m) <= |TrimmedWindow(content, m)|
    && '\n' !in m.text
  }

  /** For an aligned match the trimmed window holds the match's text at the
      match's offsets within the raw window, so the splice gives the trimmed
      window back unchanged (SpliceSame). */
  lemma TrimmedWindowKeepsMatch(content: string, m: Match)
    requires Aligned(content, m)
    ensures m.start - WindowStart(m) <= m.end - WindowStart(m) <= |TrimmedWindow(content, m)|
    ensures TrimmedWindow(content, m)[m.start - WindowStart(m)..m.end - WindowStart(m)] == m.text
  {
    var win := Window(content, m);
    var k, e := m.start - WindowStart(m), m.end - WindowStart(m);
    StripKeepsSlice(ReplaceNewlines(win), k, e);
    MatchInWindow(content, m);
    ReplaceNewlinesSlice(win, k, e);
    ReplaceNewlinesNone(m.text);
  }

  /** For an aligned match the snippet is just the trimmed window: the
      highlight replaces the matched text by itself. */
  lemma AlignedSnippetIsTrimmedWindow(content: string, m: Match)
    requires Aligned(content, m)
    ensures Snippet(content, m) == TrimmedWindow(content, m)
  {
    var w := TrimmedWindow(content, m);
    var k, e := m.start - WindowStart(m), m.end - WindowStart(m);
    assert k <= e <= |w| && w[k..e] == m.text by {
      TrimmedWindowKeepsMatch(content, m);
    }
    SpliceSame(w, k, e, m.text);
  }

  /** The match's own text sits in the raw window at the match's offsets. */
  lemma MatchInWindow(content: string, m: Match)
    requires InBounds(content, m) && m.text == content[m.start..m.end]
    ensures Window(content, m)[m.start - WindowStart(m)..m.end - WindowStart(m)] == m.text
  {
    SliceOfSlice(content, WindowStart(m), WindowEnd(content, m), m.start - WindowStart(m), m.end - WindowStart(m));
  }

  /** The splice uses offsets measured before `.strip()`: when the window
      starts with whitespace, text is repeated and context is lost. Here the
      trimmed window is "abc" but the snippet is "aabc". */
  lemma LeadingWhitespaceShiftsSplice()
    ensures TrimmedWindow(" abc", Match(1, 4, "abc")) == "abc"
    ensures Snippet(" abc", Match(1, 4, "abc")) == "aabc"
  {
    var m := Match(1, 4, "abc");
    assert Window(" abc", m) == " abc";
    assert ReplaceNewlines(" abc") == " abc";
    assert SkipSpaces(" abc", 1) == 1;
    assert LStrip(" abc") == "abc";
    assert SkipSpacesBack("abc", 3) == 3;
    assert RStrip("abc") == "abc";
  }

  ghost predicate AllInBounds(content: string, ms: seq<Match>) {
    forall k :: 0 <= k < |ms| ==> InBounds(content, ms[k])
  }

  /** The values `f` gives for `items`, in order (ImageAt). */
  function Image<A, B>(f: A --> B, items: seq<A>): (r: seq<B>)
    requires forall k :: 0 <= k < |items| ==> f.requires(items[k])
    ensures |r| == |items|
    decreases |items|
  {
    if items == [] then []
    else Image(f, items[..|items| - 1]) + [f(items[|items| - 1])]
  }

  lemma {:induction false} ImageAt<A, B>(f: A --> B, items: seq<A>, k: nat)
    requires forall k :: 0 <= k < |items| ==> f.requires(items[k])
    requires k < |items|
    ensures Image(f, items)[k] == f(items[k])
    decreases |items|
  {
    if k < |items| - 1 {
      ImageAt(f, items[..|items| - 1], k);
    }
  }

  /** The snippet of every match, in match order, before any is dropped
      (CandidateAt). */
  function Candidates(content: string, ms: seq<Match>): (cands: seq<string>)
    requires AllInBounds(content, ms)
    ensures |cands| == |ms|
  {
    Image(m requires InBounds(content, m) => Snippet(content, m), ms)
  }

  lemma CandidateAt(content: string, ms: seq<Match>, k: nat)
    requires AllInBounds(content, ms) && k < |ms|
    ensures Candidates(content, ms)[k] == Snippet(content, ms[k])
  {
    ImageAt(m requires InBounds(content, m) => Snippet(content, m), ms, k);
  }

  /** The keep policy of urlbandit.py:89-92: every candidate when `showAll`,
      otherwise the first five distinct ones in order of first appearance. */
  function Keep<T(==)>(cands: seq<T>, showAll: bool): (kept: seq<T>)
    ensures |kept| <= |cands|
    ensures showAll ==> |kept| == |cands|
    ensures !showAll ==> |kept| <= Cap
  {
    if showAll then cands else Take(Dedup(cands), Cap)
  }

  /** With `show_all` false the kept snippets are pairwise distinct, come from
      the candidates in first-appearance order, number min(5, number of
      distinct candidates), and miss a candidate only when five are kept. */
  lemma KeepDeduplicated<T>(cands: seq<T>)
    ensures var kept := Keep(cands, false);
            && Distinct(kept)
            && |kept| <= Cap
            && |kept| == (if |set c | c in cands| <= Cap then |set c | c in cands| else Cap)
            && (forall c :: c in kept ==> c in cands)
            && (|kept| < Cap ==> forall c :: c in cands ==> c in kept)
            && (forall i, j :: 0 <= i < j < |kept| ==>
                 FirstIndex(cands, kept[i]) < FirstIndex(cands, kept[j]))
            && (forall c, i :: c in cands && c !in kept && 0 <= i < |kept| ==>
                 FirstIndex(cands, kept[i]) < FirstIndex(cands, c))
  {
    var d := Dedup(cands);
    var kept := Keep(cands, false);
    assert kept <= d;
    DedupDistinct(cands);
    DedupCount(cands);
    forall c | c in kept ensures c in cands {
      DedupMembership(cands, c);
    }
    if |kept| < Cap {
      assert kept == d;
      forall c | c in cands ensures c in kept {
        DedupMembership(cands, c);
      }
    }
    forall i, j | 0 <= i < j < |kept|
      ensures FirstIndex(cands, kept[i]) < FirstIndex(cands, kept[j])
    {
      DedupFirstAppearance(cands, i, j);
    }
    forall c, i | c in cands && c !in kept && 0 <= i < |kept|
      ensures FirstIndex(cands, kept[i]) < FirstIndex(cands, c)
    {
      DedupMembership(cands, c);
      var j :| 0 <= j < |d| && d[j] == c;
      DedupFirstAppearance(cands, i, j);
    }
  }

  /** With `show_all` set there is one snippet per match, in match order,
      duplicates included and no cap. */
  lemma KeepEverything(content: string, ms: seq<Match>)
    requires AllInBounds(content, ms)
    ensures |Keep(Candidates(content, ms), true)| == |ms|
    ensures forall k :: 0 <= k < |ms| ==> Keep(Candidates(content, ms), true)[k] == Snippet(content, ms[k])
  {
    forall k | 0 <= k < |ms| ensures Candidates(content, ms)[k] == Snippet(content, ms[k]) {
      CandidateAt(content, ms, k);
    }
  }

  /** The snippet loop of urlbandit.py:81-92. */
  method CollectSnippets(content: string, matches: seq<Match>, showAll: bool)
    returns (snippets: seq<string>, ghost examined: nat)
    requires AllInBounds(content, matches)
    ensures snippets == Keep(Candidates(content, matches), showAll)
    ensures showAll ==> examined == |matches|
    ensures !showAll ==> StoppedAtCap(Candidates(content, matches), Cap, examined)
  {
    snippets, examined := KeepLoop(matches, m requires InBounds(content, m) => Snippet(content, m), showAll);
  }

  /** The loop of urlbandit.py:81-92 with the snippet of a match given as
      `snippetOf`: each value is appended when `showAll` is set or it is not
      already kept, and without `showAll` the loop stops once five are kept.
      `examined` counts the items looked at: all of them, unless the loop
      stopped on the item that made the fifth distinct value, and it does
      stop there: every item before the stopping point leaves fewer than five. */
  method KeepLoop<A, T(==)>(items: seq<A>, snippetOf: A --> T, showAll: bool)
    returns (kept: seq<T>, ghost examined: nat)
    requires forall k :: 0 <= k < |items| ==> snippetOf.requires(items[k])
    ensures kept == Keep(Image(snippetOf, items), showAll)
    ensures showAll ==> examined == |items|
    ensures !showAll ==> StoppedAtCap(Image(snippetOf, items), Cap, examined)
  {
    ghost var all := Image(snippetOf, items);
    kept := [];
    var i := 0;
    while i < |items|
      invariant i <= |items|
      invariant showAll ==> kept == all[..i]
      invariant !showAll ==> kept == Dedup(all[..i])
      invariant !showAll ==> |kept| < Cap
    {
      var value := snippetOf(items[i]);
      ImageAt(snippetOf, items, i);
      SliceSnoc(all, i);
      DedupSnoc(all[..i], all[i]);
      assert value == all[i];
      if showAll || value !in kept {
        kept := kept + [value];
      }
      ghost var seen := all[..i + 1];
      assert kept == if showAll then seen else Dedup(seen);
      if !showAll && |kept| >= Cap {
        DedupStop(all, i, Cap);
        examined := i + 1;
        return;
      }
      i := i + 1;
    }
    assert all[..i] == all;
    examined := i;
    if !showAll {
      ScannedAll(all, Cap);
    }
  }
}
