# urlbandit — a Dafny model of the scan engine and the visual menu

urlbandit fetches web pages and looks in them for sensitive text: a list of
regular expressions (passwords, API keys, JWTs) and, in `--all` mode, extra
keywords in many languages. For every pattern it keeps short snippets of
context around the matches, and it shows the results either as text or in a
curses menu where the user walks through URLs, patterns and snippets with
the keyboard.

This project models the two parts of `urlbandit.py` that carry the logic:

- `scan_url` once the page is known (`scanner.dfy`, `matching.dfy`,
  `snippets.dfy`): the active pattern list; per pattern, the matches of the
  regular expression or, when the pattern does not compile, of a hand-written
  case-insensitive literal search; the ±50-character context window, with
  newlines replaced and whitespace stripped; the splice that puts the matched
  text back in; the keep policy (first five distinct snippets, or every one
  with `show_all`); and the ordered map of patterns that produced snippets.
  A failed fetch gives the single entry `_error`.
- the key handling of `visual_menu` (`navigation.dfy`): the selection and
  scroll offset of the URL list, the detail view's pattern index and snippet
  offset, and how each key changes them. It is a pure transition function
  `Step`, and a class `Session` whose fields are the loop variables. Its
  methods are proved equal to `Step`.

Supporting modules: `text.dfy` holds the Python string operations the engine
relies on (`isspace`, `strip`, `replace`, `lower`, `find`, `startswith`, and
slicing past the end). `ordered_map.dfy` holds `OrderedDict` and the
"record if non-empty" loop. `seqs.dfy` holds first-appearance
deduplication.

Some behaviours are modelled exactly as the code has them:

- **The splice uses offsets measured before `.strip()`.** When the window
  starts with whitespace, the cut lands in the wrong place.
  `Snippets.LeadingWhitespaceShiftsSplice` shows the document `" abc"` with
  match `abc` giving the snippet `"aabc"`. `Snippets.AlignedSnippetIsTrimmedWindow`
  states a condition under which the splice is harmless.
- **`b` goes back with `offset = 0` and keeps `idx`.** If the selected URL
  was further down than one screen, it is then drawn off-screen.
  `Navigation.BackReturnsToList` states exactly when it stays visible.
- **Enter on an empty URL list.** Enter switches to the detail view, and the
  next redraw indexes `urls[0]`. The resulting exception ends the curses
  session. This is the status `Crashed`.

## Model

| member | source | states |
|---|---|---|
| `Text.FindSpec` | urlbandit.py:61 | `find` returns an occurrence at or after `start` with no earlier one, or -1 exactly when there is none |
| `Text.Find` | urlbandit.py:61 | `lower_content.find(lower_pattern, start)`: -1, or a position at or after `start` where the needle still fits |
| `Text.Strip` | urlbandit.py:85 | `str.strip()`: never longer than its input, and neither starts nor ends with whitespace |
| `Text.StripIsInner` | urlbandit.py:85 | `strip` removes only whitespace, only at the two ends, and leaves text that neither starts nor ends with whitespace |
| `Matching.ToMatches` | urlbandit.py:51-52 | the regex path's matches keep the engine's span positions, carry the covered text, lie in the document and do not overlap |
| `Matching.LiteralFrom` | urlbandit.py:56-77 | the literal search resumed at `start`: find, record the content's text, resume at the match's end; it yields at most one match per remaining position |
| `Matching.FindLiteral` | urlbandit.py:56-77 | the literal search loop computes exactly the recursive definition `LiteralMatches` |
| `Matching.LiteralFromSound` | urlbandit.py:56-77 | every literal match is an occurrence of the lower-cased pattern, `len(pat)` long, carrying the document's own text; matches run left to right without overlapping |
| `Matching.LiteralFromComplete` | urlbandit.py:60-77 | every occurrence of the lower-cased pattern is a match or starts inside one, so the search misses nothing except occurrences overlapping a previous match |
| `Matching.LiteralStartsIncrease` | urlbandit.py:73-77 | literal match starts strictly increase, because the search resumes at the previous end |
| `Matching.PatternMatches` | urlbandit.py:50-79 | one pattern's matches: one per engine span when it compiles; otherwise the literal search (at most one match per position), or none for `(?`-prefixed text |
| `Matching.PatternMatchesOk` | urlbandit.py:50-79 | whichever path a pattern takes, its matches are in bounds, carry their text and do not overlap |
| `Matching.RegexShapedFailureHasNoMatches` | urlbandit.py:53-79 | a pattern that fails to compile and starts with `(?` gets no matches |
| `Snippets.Window` | urlbandit.py:84 | the window is `min(len, end+50) - max(0, start-50)` long and contains the whole match |
| `Snippets.TrimmedWindow` | urlbandit.py:84-85 | the window with newlines replaced and whitespace stripped; never longer than the raw window |
| `Snippets.Snippet` | urlbandit.py:87 | the trimmed window cut at the match's pre-strip offsets with the matched text spliced in; at least as long as the match and at most the trimmed window plus the match |
| `Snippets.TrimmedWindowIsInner` | urlbandit.py:84-85 | the cleaned window is the newline-free window minus whitespace at both ends only |
| `Snippets.HighlightRoundTrip` | urlbandit.py:87 | the matched text always appears in the snippet right after `min(start - window start, len(trimmed window))` characters of the trimmed window |
| `Snippets.TrimmedWindowKeepsMatch` | urlbandit.py:84-87 | when the window does not start with whitespace and stripping keeps the match, the trimmed window holds the matched text at the pre-strip offsets |
| `Snippets.AlignedSnippetIsTrimmedWindow` | urlbandit.py:87 | in that case the snippet is exactly the trimmed window |
| `Snippets.LeadingWhitespaceShiftsSplice` | urlbandit.py:84-87 | with leading whitespace the pre-strip offsets duplicate text: `" abc"` with match `abc` gives `"aabc"` |
| `Snippets.Keep` | urlbandit.py:89-92 | the keep policy: every candidate with `show_all`, else the first five distinct candidates; never more than five without `show_all` |
| `Snippets.KeepDeduplicated` | urlbandit.py:89-92 | without `show_all` the kept snippets are pairwise distinct, number min(5, distinct candidates), come in first-appearance order, miss a candidate only when five are kept, and every missed candidate first appears after every kept one: they are the first five distinct |
| `Snippets.KeepEverything` | urlbandit.py:89-90 | with `show_all` there is one snippet per match, in match order, duplicates included, no cap |
| `Snippets.KeepLoop` | urlbandit.py:82-92 | the append-if-new loop with its early `break` computes the keep policy; with `show_all` it looks at every match, and without it it stops exactly on the value that made the fifth distinct snippet: every value before that left fewer than five, and a loop that never reaches five looks at every match (`Seqs.StoppedAtCap`) |
| `Snippets.CollectSnippets` | urlbandit.py:81-92 | the snippet loop over a pattern's matches yields exactly `Keep(Candidates(...))`, and without `show_all` it stops exactly when the candidates seen so far hold five distinct snippets |
| `Seqs.DedupStop` | urlbandit.py:91-92 | a first-appearance scan that stops on reaching five kept values has kept the first five values of the full deduplication, and stopped at the first point where it could |
| `Seqs.ScannedAll` | urlbandit.py:81-92 | a scan that never reaches five kept values looks at every element, with fewer than five kept at every step |
| `Scanner.ActivePatterns` | urlbandit.py:44-46 | the base patterns come first, in order; the extra patterns follow only when `show_all` is set |
| `Scanner.MatchPattern` | urlbandit.py:50-79 | the per-pattern dispatch (regex, literal fallback, or nothing for `(?`-prefixed failures) yields `PatternMatches` |
| `Scanner.Scan` | urlbandit.py:48-94 | the findings after scanning the active patterns in turn, a well-formed ordered map (its keys, values and order are characterised by the lemmas below) |
| `Scanner.ScanStep` | urlbandit.py:93-94 | scanning one more pattern records it exactly when it produced snippets, and otherwise leaves the findings unchanged |
| `Scanner.ScanContent` | urlbandit.py:48-95 | the pattern loop builds exactly `Scan` of the active patterns |
| `Scanner.ScanUrl` | urlbandit.py:35-95 | a failed fetch gives only `{'_error': [message]}`; otherwise the result is the scan of the active patterns; either way it is a well-formed map whose lists are non-empty |
| `Scanner.ScanMembership` | urlbandit.py:93-94 | a pattern is a key exactly when it is active and yields a snippet, and its value is its own snippet list |
| `Scanner.ScanKeyOrder` | urlbandit.py:48-94 | keys are active patterns, in the order of their first occurrence in the active list |
| `Scanner.RegexShapedFailureNeverKey` | urlbandit.py:53-94 | a `(?`-prefixed pattern that fails to compile is never a key |
| `Scanner.RecordedSnippets` | urlbandit.py:89-94 | a recorded list is non-empty; without `show_all` it has at most five distinct snippets, and with `show_all` it has one per match |
| `Scanner.PatternSnippetsShape` | urlbandit.py:81-92 | one pattern's snippets are at most five and distinct without `show_all`, and one per match with it |
| `OrderedMaps.OrderedMap.Put` | urlbandit.py:94 | `founds[pat] = snippets` adds a new key at the end, keeps an existing key's place, and keeps the map well formed |
| `OrderedMaps.CollectMembership` | urlbandit.py:48-94 | the "record if non-empty" loop keys exactly the inputs with a non-empty value, each with that value |
| `OrderedMaps.CollectKeyOrder` | urlbandit.py:48-94 | the loop lists its keys in the order of their first occurrence among the inputs |
| `Navigation.Initial` | urlbandit.py:141-147 | the menu starts in the list view on the first URL with offset 0 |
| `Navigation.PatternsOf` | urlbandit.py:173-174 | the detail view's pattern list is the recorded patterns, or empty exactly when the URL has no findings or failed |
| `Navigation.Open` | urlbandit.py:289-293 | Enter opens the selected URL on pattern 0, snippet 0 with its pattern list filled, or crashes exactly when there is no URL |
| `Navigation.ListKey` | urlbandit.py:280-293 | list-view keys keep the invariant, move the selection by at most one, and only Enter leaves the list |
| `Navigation.DetailKey` | urlbandit.py:255-277 | detail-view keys keep the invariant and the selected URL; every key but `b` stays in the detail view with the same pattern list |
| `Navigation.Step` | urlbandit.py:250-293 | every key keeps the invariant (indices in range, `0 <= offset <= idx`, pattern and snippet positions inside the current lists); q and ESC end the loop; an ended loop stays ended |
| `Navigation.RunKeys` | urlbandit.py:149-293 | every state reached by any key sequence satisfies the invariant |
| `Navigation.RunKeysStopped` | urlbandit.py:251-252 | after q or ESC (or a crash) no further key changes anything |
| `Navigation.ReachableInv` | urlbandit.py:141-147 | the initial state and every state reached from it satisfy the invariant |
| `Navigation.StepMovesByOne` | urlbandit.py:281-288 | a key moves the URL selection by at most one |
| `Navigation.ListKeepsSelectionVisible` | urlbandit.py:281-288 | in the list view, Down and Up keep a visible selection visible on a screen of the same height |
| `Navigation.BackReturnsToList` | urlbandit.py:256-261 | `b` returns to the list with the same URL selected, offset 0 and cleared detail state; the selection is visible iff it lies in the first `h - 4` rows |
| `Navigation.EnterOpensDetail` | urlbandit.py:289-293 | Enter in the list opens the selected URL on pattern 0, snippet 0, or crashes exactly when there is no URL |
| `Navigation.PatternChangeResetsOffset` | urlbandit.py:262-269 | a change of pattern comes only from Right (+1) or Left (-1) and always resets the snippet offset to 0 |
| `Navigation.DetailScroll` | urlbandit.py:270-277 | Down and Up move the snippet offset by one within `[0, len(snips) - 1]` and keep the pattern |
| `Navigation.Session.constructor` | urlbandit.py:141-147 | a new session holds the initial state |
| `Navigation.Session.HandleKey` | urlbandit.py:250-293 | handling a key updates the fields exactly as `Step` does and keeps them valid |
| `Navigation.Session.HandleDetailKey` | urlbandit.py:255-277 | the detail-view branch updates the fields exactly as `DetailKey` |
| `Navigation.Session.HandleListKey` | urlbandit.py:280-293 | the list-view branch, with the redraw after Enter, updates the fields exactly as `ListKey` |
| `Navigation.Session.Run` | urlbandit.py:149-293 | the loop over read keys ends in `RunKeys` of the inputs, stopping at q, ESC or a crash |

## Left out

- HTTP: `requests.get`, its timeout, and how the status code and the exception text are turned into a message. A fetch is an input, either the page text or the error message.
- The regular-expression engine. `re.compile(pat, re.IGNORECASE)` and `finditer` are an oracle. The oracle is assumed to return in-bounds, ordered, non-overlapping spans. It is also assumed to fail compilation only on non-empty text, as Python compiles the empty pattern. IGNORECASE matching itself is not modelled.
- `str.lower` is modelled on ASCII letters only. Python's full Unicode lower-casing can change the length of the text (`'İ'.lower()` has two characters). That would shift the offsets the literal search reads back from the original content; this case is not modelled.
- `col` and colorama: taking the highlight wrapper as the identity is a modelling choice; no run of the program splices plain text. With colorama installed the snippet carries ANSI codes around the match. Without it, `Fore` is never bound (urlbandit.py:9-14), so line 87 raises `NameError` on the first match and nothing in `scan_url` catches it. With colours, two matches whose plain snippets are equal can give different coloured snippets, because the codes sit at each match's own cut offset `start - max(0, start-50)`; the duplicate test then keeps both. This happens when the window is clipped at the start of the document: for "admin admin admin" and the pattern "admin" the program keeps three snippets, the model one. Matches further in share the offset 50, and their coloured snippets can coincide as the plain ones do.
- `layout_textual`, the banner and all printing.
- The drawing in `visual_menu`: colours, `addstr`, truncation of long lines, and splitting snippets at the ANSI codes. Also out: curses errors on terminals too small to draw on, and the fallback to `layout_textual` after an exception. The only exception that comes from the key handling itself, Enter on an empty URL list, is modelled as the status `Crashed`.
- `main`: argument parsing, reading the URL list from a file, the default and extra pattern lists, and building `results` (the model takes it as a map of `scan_url` outcomes, `Navigation.ResultsOk`).
- The screen height is an input of every key (`Navigation.Input`), read at the redraw before the key, so resizes are covered; the width only affects drawing.
