/** The key handling of `visual_menu` (urlbandit.py:127-293): a list of the
    scanned URLs with a selection and a scroll offset, and a detail view that
    steps through the patterns recorded for the selected URL and scrolls
    through their snippets. Drawing is left out; what is kept is the state the
    loop carries from one key to the next. */
module Navigation {
  import opened OrderedMaps
  import opened Scanner

  /** URL to what `scan_url` returned for it, in scan order. */
  type Results = OrderedMap<string, Findings>

  /** The results `main` hands to the menu: one `scan_url` outcome per URL. */
  ghost predicate ResultsOk(results: Results) {
    && results.Valid()
    && forall u :: u in results.values ==> FindingsOk(results.values[u])
  }

  /** Key codes as `getch` reports them. */
  const KeyQuit := 113   // ord('q')
  const KeyEscape := 27
  const KeyBack := 98    // ord('b')
  const KeyDown := 258   // curses.KEY_DOWN
  const KeyUp := 259     // curses.KEY_UP
  const KeyLeft := 260   // curses.KEY_LEFT
  const KeyRight := 261  // curses.KEY_RIGHT

  predicate IsEnter(c: int) {
    c == 10 || c == 13
  }

  /** Whether the loop goes on, was left with q or ESC, or died: the redraw
      after Enter on an empty URL list indexes `urls[0]`, and the exception
      ends the curses session. */
  datatype Status = Running | Quit | Crashed

  /** The loop's local variables (urlbandit.py:141-147) as they stand when
      `getch` is called. */
  datatype MenuState = MenuState(
    idx: int, offset: int, viewing: bool,
    patternIdx: int, patternOffset: int, currentPatterns: seq<string>,
    status: Status)

  function Initial(): (s: MenuState)
    ensures !s.viewing && s.status == Running && s.idx == 0 && s.offset == 0
  {
    MenuState(0, 0, false, 0, 0, [], Running)
  }

  /** The findings of the URL at position `idx`. */
  function Selected(results: Results, idx: int): Findings
    requires ResultsOk(results) && 0 <= idx < |results.keys|
  {
    results.values[results.keys[idx]]
  }

  /** The detail view's pattern list, filled on its first redraw: the
      recorded patterns, or none for an empty result or a failed fetch
      (urlbandit.py:173-174). */
  function PatternsOf(data: Findings): (ps: seq<string>)
    ensures ps == [] || ps == data.keys
    ensures ps != [] <==> data.keys != [] && ErrorKey !in data.values
  {
    if data.keys != [] && ErrorKey !in data.values then data.keys else []
  }

  /** The selected row lies within the rows the list view draws
      (`urls[offset:offset + h - 4]`). */
  predicate Visible(s: MenuState, h: int) {
    0 <= s.idx - s.offset < h - 4
  }

  /** The pattern position and the snippet position are inside what the
      detail view of `data` shows. */
  ghost predicate DetailOk(data: Findings, s: MenuState)
    requires FindingsOk(data)
  {
    var cp := s.currentPatterns;
    && cp == PatternsOf(data)
    && (cp == [] ==> s.patternIdx == 0 && s.patternOffset == 0)
    && (cp != [] ==>
          && 0 <= s.patternIdx < |cp|
          && 0 <= s.patternOffset < |data.values[cp[s.patternIdx]]|)
  }

  /** What holds of the menu state whenever a key is read. */
  ghost predicate Inv(results: Results, s: MenuState)
    requires ResultsOk(results)
  {
    && 0 <= s.offset <= s.idx
    && (s.idx == 0 || s.idx < |results.keys|)
    && (!s.viewing ==> s.currentPatterns == [] && s.patternIdx == 0 && s.patternOffset == 0)
    && (s.status == Crashed ==> results.keys == [])
    && (s.viewing && s.status != Crashed ==>
          s.idx < |results.keys| && DetailOk(Selected(results, s.idx), s))
  }

  /** Enter in the list view, followed by the redraw that fills the pattern
      list or fails on an empty URL list (urlbandit.py:169-174, 289-293). */
  function Open(results: Results, s: MenuState): (r: MenuState)
    requires ResultsOk(results) && Inv(results, s) && !s.viewing && s.status == Running
    ensures Inv(results, r)
    ensures r.viewing && r.idx == s.idx && r.offset == s.offset
    ensures r.patternIdx == 0 && r.patternOffset == 0
    ensures r.status == Crashed <==> results.keys == []
    ensures results.keys != [] ==> r.currentPatterns == PatternsOf(Selected(results, s.idx))
  {
    var shown := s.(viewing := true, patternIdx := 0, patternOffset := 0);
    if results.keys == [] then shown.(status := Crashed)
    else shown.(currentPatterns := PatternsOf(Selected(results, s.idx)))
  }

  /** A key in the list view (urlbandit.py:280-293). */
  function ListKey(results: Results, h: int, s: MenuState, c: int): (r: MenuState)
    requires ResultsOk(results) && Inv(results, s) && !s.viewing && s.status == Running
    ensures Inv(results, r)
    ensures !IsEnter(c) ==> !r.viewing && r.status == Running
    ensures -1 <= r.idx - s.idx <= 1
  {
    if c == KeyDown && s.idx < |results.keys| - 1 then
      var idx := s.idx + 1;
      s.(idx := idx, offset := if idx - s.offset >= h - 4 then s.offset + 1 else s.offset)
    else if c == KeyUp && s.idx > 0 then
      var idx := s.idx - 1;
      s.(idx := idx, offset := if idx < s.offset then s.offset - 1 else s.offset)
    else if IsEnter(c) then Open(results, s)
    else s
  }

  /** A key in the detail view (urlbandit.py:255-277). */
  function DetailKey(results: Results, s: MenuState, c: int): (r: MenuState)
    requires ResultsOk(results) && Inv(results, s) && s.viewing && s.status == Running
    ensures Inv(results, r)
    ensures r.status == Running && r.idx == s.idx
    ensures c != KeyBack ==> r.viewing && r.offset == s.offset && r.currentPatterns == s.currentPatterns
  {
    var cp := s.currentPatterns;
    if c == KeyBack then
      s.(viewing := false, offset := 0, currentPatterns := [], patternIdx := 0, patternOffset := 0)
    else if c == KeyRight && cp != [] then
      if s.patternIdx < |cp| - 1 then s.(patternIdx := s.patternIdx + 1, patternOffset := 0) else s
    else if c == KeyLeft && cp != [] then
      if s.patternIdx > 0 then s.(patternIdx := s.patternIdx - 1, patternOffset := 0) else s
    else if c == KeyDown && cp != [] then
      var data := Selected(results, s.idx);
      var pat := cp[s.patternIdx];
      if pat in data.values && s.patternOffset < |data.values[pat]| - 1 then
        s.(patternOffset := s.patternOffset + 1)
      else s
    else if c == KeyUp && cp != [] then
      if s.patternOffset > 0 then s.(patternOffset := s.patternOffset - 1) else s
    else s
  }

  /** One pass of the loop after `getch` returned `c` on a screen `h` rows
      high: q and ESC leave, every other key goes to the view on screen, and a
      loop that has ended stays where it stopped (urlbandit.py:250-293). */
  function Step(results: Results, h: int, s: MenuState, c: int): (r: MenuState)
    requires ResultsOk(results) && Inv(results, s)
    ensures Inv(results, r)
    ensures s.status != Running ==> r == s
    ensures s.status == Running && (c == KeyQuit || c == KeyEscape) ==> r == s.(status := Quit)
  {
    if s.status != Running then s
    else if c == KeyQuit || c == KeyEscape then s.(status := Quit)
    else if s.viewing then DetailKey(results, s, c)
    else ListKey(results, h, s, c)
  }

  /** One key read from a screen of a given height. */
  datatype Input = Input(height: int, key: int)

  /** The states the loop goes through on a sequence of inputs: every state
      it reaches satisfies the invariant. */
  function RunKeys(results: Results, s: MenuState, inputs: seq<Input>): (r: MenuState)
    requires ResultsOk(results) && Inv(results, s)
    ensures Inv(results, r)
    decreases |inputs|
  {
    if inputs == [] then s
    else RunKeys(results, Step(results, inputs[0].height, s, inputs[0].key), inputs[1..])
  }

  /** Once the loop has ended, further keys change nothing. */
  lemma {:induction false} RunKeysStopped(results: Results, s: MenuState, inputs: seq<Input>)
    requires ResultsOk(results) && Inv(results, s) && s.status != Running
    ensures RunKeys(results, s, inputs) == s
    decreases |inputs|
  {
    if inputs != [] {
      RunKeysStopped(results, s, inputs[1..]);
    }
  }

  /** Every state reached from the start satisfies the invariant. */
  lemma ReachableInv(results: Results, inputs: seq<Input>)
    requires ResultsOk(results)
    ensures Inv(results, Initial())
    ensures Inv(results, RunKeys(results, Initial(), inputs))
  {
  }

  /** The selection moves by at most one row per key. */
  lemma StepMovesByOne(results: Results, h: int, s: MenuState, c: int)
    requires ResultsOk(results) && Inv(results, s)
    ensures -1 <= Step(results, h, s, c).idx - s.idx <= 1
  {
  }

  /** Down and Up in the list view keep a visible selection visible on a
      screen of unchanged height. */
  lemma ListKeepsSelectionVisible(results: Results, h: int, s: MenuState, c: int)
    requires ResultsOk(results) && Inv(results, s)
    requires s.status == Running && !s.viewing && Visible(s, h)
    ensures var r := Step(results, h, s, c);
            r.viewing || Visible(r, h)
  {
  }

  /** b returns to the URL list with the same URL selected, clears the detail
      state and scrolls the list to the top, so the selection is on screen
      only when it lies within the first `h - 4` rows (urlbandit.py:256-261). */
  lemma BackReturnsToList(results: Results, h: int, s: MenuState)
    requires ResultsOk(results) && Inv(results, s)
    requires s.status == Running && s.viewing
    ensures var r := Step(results, h, s, KeyBack);
            && !r.viewing && r.status == Running && r.idx == s.idx && r.offset == 0
            && r.currentPatterns == [] && r.patternIdx == 0 && r.patternOffset == 0
            && (Visible(r, h) <==> s.idx < h - 4)
  {
  }

  /** Enter in the list view opens the selected URL on its first pattern and
      first snippet; with no URL at all the redraw fails. */
  lemma EnterOpensDetail(results: Results, h: int, s: MenuState, c: int)
    requires ResultsOk(results) && Inv(results, s)
    requires s.status == Running && !s.viewing && IsEnter(c)
    ensures var r := Step(results, h, s, c);
            && r.viewing && r.idx == s.idx && r.patternIdx == 0 && r.patternOffset == 0
            && (results.keys == [] <==> r.status == Crashed)
            && (results.keys != [] ==> r.currentPatterns == PatternsOf(Selected(results, s.idx)))
  {
  }

  /** Changing the pattern in the detail view moves to a neighbouring pattern
      and always starts at its first snippet (urlbandit.py:262-269). */
  lemma PatternChangeResetsOffset(results: Results, h: int, s: MenuState, c: int)
    requires ResultsOk(results) && Inv(results, s)
    requires s.status == Running && s.viewing
    requires Step(results, h, s, c).viewing
    requires Step(results, h, s, c).patternIdx != s.patternIdx
    ensures var r := Step(results, h, s, c);
            && r.patternOffset == 0
            && (c == KeyRight ==> r.patternIdx == s.patternIdx + 1)
            && (c == KeyLeft ==> r.patternIdx == s.patternIdx - 1)
            && (c == KeyRight || c == KeyLeft)
  {
  }

  /** Down and Up in the detail view scroll the current pattern's snippets by
      one, stopping at the first and at the last (urlbandit.py:270-277). */
  lemma DetailScroll(results: Results, h: int, s: MenuState, c: int)
    requires ResultsOk(results) && Inv(results, s)
    requires s.status == Running && s.viewing && s.currentPatterns != []
    requires c == KeyDown || c == KeyUp
    ensures var r := Step(results, h, s, c);
            var n := |Selected(results, s.idx).values[s.currentPatterns[s.patternIdx]]|;
            && r.patternIdx == s.patternIdx
            && (c == KeyDown ==> r.patternOffset == if s.patternOffset < n - 1 then s.patternOffset + 1 else s.patternOffset)
            && (c == KeyUp ==> r.patternOffset == if s.patternOffset > 0 then s.patternOffset - 1 else s.patternOffset)
  {
  }

  /** The menu loop itself: the variables of urlbandit.py:141-147 as fields,
      updated key by key. */
  class Session {
    const results: Results
    var idx: int
    var offset: int
    var viewing: bool
    var patternIdx: int
    var patternOffset: int
    var currentPatterns: seq<string>
    var status: Status

    function State(): MenuState
      reads this
    {
      MenuState(idx, offset, viewing, patternIdx, patternOffset, currentPatterns, status)
    }

    ghost predicate Valid()
      reads this
    {
      ResultsOk(results) && Inv(results, State())
    }

    constructor (results: Results)
      requires ResultsOk(results)
      ensures Valid() && this.results == results && State() == Initial()
    {
      this.results := results;
      idx, offset, viewing := 0, 0, false;
      patternIdx, patternOffset, currentPatterns := 0, 0, [];
      status := Running;
    }

    /** Handle the key `c` read on a screen `h` rows high. */
    method HandleKey(h: int, c: int)
      requires Valid() && status == Running
      modifies this
      ensures Valid()
      ensures State() == Step(results, h, old(State()), c)
    {
      if c == KeyQuit || c == KeyEscape {
        status := Quit;
      } else if viewing {
        HandleDetailKey(c);
      } else {
        HandleListKey(h, c);
      }
    }

    /** The detail view's keys (urlbandit.py:255-277). */
    method HandleDetailKey(c: int)
      requires Valid() && status == Running && viewing
      modifies this
      ensures State() == DetailKey(results, old(State()), c)
    {
      if c == KeyBack {
        viewing := false;
        offset := 0;
        currentPatterns := [];
        patternIdx := 0;
        patternOffset := 0;
      } else if c == KeyRight && currentPatterns != [] {
        if patternIdx < |currentPatterns| - 1 {
          patternIdx := patternIdx + 1;
          patternOffset := 0;
        }
      } else if c == KeyLeft && currentPatterns != [] {
        if patternIdx > 0 {
          patternIdx := patternIdx - 1;
          patternOffset := 0;
        }
      } else if c == KeyDown && currentPatterns != [] {
        var data := Selected(results, idx);
        var pat := currentPatterns[patternIdx];
        if pat in data.values && patternOffset < |data.values[pat]| - 1 {
          patternOffset := patternOffset + 1;
        }
      } else if c == KeyUp && currentPatterns != [] {
        if patternOffset > 0 {
          patternOffset := patternOffset - 1;
        }
      }
    }

    /** The list view's keys (urlbandit.py:280-293); after Enter, what the
        next redraw does to the state: fill the pattern list of the opened
        URL, or fail on an empty URL list (urlbandit.py:169-174). */
    method HandleListKey(h: int, c: int)
      requires Valid() && status == Running && !viewing
      modifies this
      ensures State() == ListKey(results, h, old(State()), c)
    {
      if c == KeyDown && idx < |results.keys| - 1 {
        idx := idx + 1;
        if idx - offset >= h - 4 {
          offset := offset + 1;
        }
      } else if c == KeyUp && idx > 0 {
        idx := idx - 1;
        if idx < offset {
          offset := offset - 1;
        }
      } else if IsEnter(c) {
        viewing := true;
        patternIdx := 0;
        patternOffset := 0;
        currentPatterns := [];
        if idx >= |results.keys| {
          status := Crashed;
        } else {
          currentPatterns := PatternsOf(Selected(results, idx));
        }
      }
    }

    /** Feed the inputs to the loop until they run out or the loop ends. */
    method Run(inputs: seq<Input>)
      requires Valid()
      modifies this
      ensures Valid()
      ensures State() == RunKeys(results, old(State()), inputs)
    {
      var i := 0;
      while i < |inputs| && status == Running
        invariant 0 <= i <= |inputs|
        invariant Valid()
        invariant RunKeys(results, State(), inputs[i..]) == RunKeys(results, old(State()), inputs)
      {
        assert inputs[i..][1..] == inputs[i + 1..];
        HandleKey(inputs[i].height, inputs[i].key);
        i := i + 1;
      }
      if i < |inputs| {
        RunKeysStopped(results, State(), inputs[i..]);
      } else {
        assert inputs[i..] == [];
      }
    }
  }
}
