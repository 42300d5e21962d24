/** Sequence helpers shared by the scan engine: first-appearance deduplication,
    truncation, and the index of the first occurrence of a value. */
module Seqs {

  /** No value occurs twice. */
  ghost predicate Distinct<T>(s: seq<T>) {
    forall i, j :: 0 <= i < j < |s| ==> s[i] != s[j]
  }

  /** The values of `s`, each once, in order of first appearance: what a loop
      building a list with `if x not in kept: kept.append(x)` produces. */
  function Dedup<T(==)>(s: seq<T>): (d: seq<T>)
    ensures |d| <= |s|
    decreases |s|
  {
    if s == [] then []
    else
      var d := Dedup(s[..|s| - 1]);
      if s[|s| - 1] in d then d else d + [s[|s| - 1]]
  }

  /** The first `n` elements of `s`, or all of them when there are fewer. */
  function Take<T>(s: seq<T>, n: nat): (r: seq<T>)
    ensures |r| == if |s| <= n then |s| else n
    ensures r <= s
  {
    if |s| <= n then s else s[..n]
  }

  /** The position of the first occurrence of `x` in `s`. */
  function FirstIndex<T(==)>(s: seq<T>, x: T): (i: nat)
    requires x in s
    ensures i < |s| && s[i] == x && x !in s[..i]
    decreases |s|
  {
    var init := s[..|s| - 1];
    if x in init then
      var i := FirstIndex(init, x);
      assert init[..i] == s[..i];
      i
    else
      assert s[..|s| - 1] == init;
      |s| - 1
  }

  /** Appending keeps the first position of a value already present. */
  lemma FirstIndexSnoc<T>(s: seq<T>, y: T, x: T)
    requires x in s
    ensures x in s + [y] && FirstIndex(s + [y], x) == FirstIndex(s, x)
  {
    assert (s + [y])[..|s|] == s;
  }

  /** Every value of `xs` occurs in `s`, and `xs` lists them in the order of
      their first occurrence in `s`. */
  ghost predicate FirstOrdered<T>(s: seq<T>, xs: seq<T>) {
    && (forall x :: x in xs ==> x in s)
    && (forall i, j :: 0 <= i < j < |xs| ==> FirstIndex(s, xs[i]) < FirstIndex(s, xs[j]))
  }

  /** A list ordered by first position in `s` stays ordered by first position
      in `s + [y]`, and so does the list extended with a `y` new to `s`. */
  lemma FirstOrderSnoc<T>(s: seq<T>, y: T, before: seq<T>, after: seq<T>)
    requires FirstOrdered(s, before)
    requires after == before || (after == before + [y] && y !in s)
    ensures FirstOrdered(s + [y], after)
  {
    forall x | x in before ensures FirstIndex(s + [y], x) == FirstIndex(s, x) < |s| {
      FirstIndexSnoc(s, y, x);
    }
    forall i, j | 0 <= i < j < |after| ensures FirstIndex(s + [y], after[i]) < FirstIndex(s + [y], after[j]) {
      assert after[i] == before[i] && before[i] in before;
      if j < |before| {
        assert after[j] == before[j] && before[j] in before;
      } else {
        assert after[j] == y && FirstIndex(s + [y], y) == |s|;
      }
    }
  }

  /** The prefix one longer is the prefix followed by the next element. */
  lemma SliceSnoc<T>(s: seq<T>, i: nat)
    requires i < |s|
    ensures s[..i + 1] == s[..i] + [s[i]]
  {
  }

  lemma AppendAssoc<T>(a: seq<T>, b: seq<T>, c: seq<T>)
    ensures (a + b) + c == a + (b + c)
  {
  }

  /** A slice of a slice is a slice of the whole. */
  lemma SliceOfSlice<T>(s: seq<T>, lo: nat, hi: nat, i: nat, j: nat)
    requires lo <= hi <= |s| && i <= j <= hi - lo
    ensures s[lo..hi][i..j] == s[lo + i..lo + j]
  {
    forall x | 0 <= x < j - i ensures s[lo..hi][i..j][x] == s[lo + i..lo + j][x] {
      assert s[lo..hi][i..j][x] == s[lo..hi][i + x] == s[lo + i + x];
    }
  }

  /** Deduplicating one more value appends it unless it was already kept. */
  lemma DedupSnoc<T>(s: seq<T>, x: T)
    ensures Dedup(s + [x]) == if x in Dedup(s) then Dedup(s) else Dedup(s) + [x]
  {
    assert (s + [x])[..|s|] == s;
  }

  lemma {:induction false} DedupMembership<T>(s: seq<T>, x: T)
    ensures x in Dedup(s) <==> x in s
    decreases |s|
  {
    if s != [] {
      DedupMembership(s[..|s| - 1], x);
      assert s == s[..|s| - 1] + [s[|s| - 1]];
    }
  }

  lemma {:induction false} DedupDistinct<T>(s: seq<T>)
    ensures Distinct(Dedup(s))
    decreases |s|
  {
    if s != [] {
      DedupDistinct(s[..|s| - 1]);
    }
  }

  /** Deduplicating a prefix gives a prefix of the deduplicated whole: a scan
      that stops early has kept exactly the first values the full scan keeps. */
  lemma {:induction false} DedupPrefix<T>(s: seq<T>, n: nat)
    requires n <= |s|
    ensures Dedup(s[..n]) <= Dedup(s)
    decreases |s|
  {
    if n < |s| {
      DedupPrefix(s[..|s| - 1], n);
      assert s[..|s| - 1][..n] == s[..n];
    } else {
      assert s[..n] == s;
    }
  }

  /** Deduplication keeps values in the order of their first appearance. */
  lemma {:induction false} DedupFirstAppearance<T>(s: seq<T>, i: nat, j: nat)
    requires i < j < |Dedup(s)|
    ensures Dedup(s)[i] in s && Dedup(s)[j] in s
    ensures FirstIndex(s, Dedup(s)[i]) < FirstIndex(s, Dedup(s)[j])
    decreases |s|
  {
    var init, last := s[..|s| - 1], s[|s| - 1];
    var d := Dedup(init);
    assert s == init + [last];
    if j < |d| {
      DedupFirstAppearance(init, i, j);
      assert Dedup(s)[i] == d[i] && Dedup(s)[j] == d[j];
    } else {
      assert Dedup(s) == d + [last] && last !in d;
      DedupMembership(init, last);
      DedupMembership(init, d[i]);
      assert Dedup(s)[i] == d[i] && d[i] in d;
    }
  }

  /** The number of kept values is the number of distinct values. */
  lemma {:induction false} DedupCount<T>(s: seq<T>)
    ensures |Dedup(s)| == |set x | x in s|
    decreases |s|
  {
    if s != [] {
      var init, last := s[..|s| - 1], s[|s| - 1];
      DedupCount(init);
      DedupMembership(init, last);
      assert s == init + [last];
      assert (set x | x in s) == (set x | x in init) + {last};
      if last in init {
        assert (set x | x in s) == (set x | x in init);
      } else {
        assert last !in (set x | x in init);
      }
    }
  }

  /** A first-appearance scan that reaches `c` kept values on the element at
      position `n` has kept the first `c` values of the full deduplication. */
  lemma DedupStop<T>(s: seq<T>, n: nat, c: nat)
    requires n < |s| && |Dedup(s[..n])| < c <= |Dedup(s[..n + 1])|
    ensures |Dedup(s[..n + 1])| == c && |Dedup(s[..n])| == c - 1
    ensures Take(Dedup(s), c) == Dedup(s[..n + 1])
    ensures StoppedAtCap(s, c, n + 1)
  {
    SliceSnoc(s, n);
    DedupSnoc(s[..n], s[n]);
    DedupPrefix(s, n + 1);
    PrefixesBelow(s, n, c);
  }

  /** Shorter prefixes never deduplicate to more values: once a prefix keeps
      fewer than `c`, so does every shorter one. */
  lemma PrefixesBelow<T>(s: seq<T>, i: nat, c: nat)
    requires i <= |s| && |Dedup(s[..i])| < c
    ensures forall n :: 0 <= n <= i ==> |Dedup(s[..n])| < c
  {
    forall n | 0 <= n <= i ensures |Dedup(s[..n])| < c {
      DedupPrefix(s[..i], n);
      assert s[..i][..n] == s[..n];
    }
  }

  /** A scan that never reached `c` kept values looked at every element. */
  lemma ScannedAll<T>(s: seq<T>, c: nat)
    requires |Dedup(s)| < c
    ensures StoppedAtCap(s, c, |s|)
  {
    assert s[..|s|] == s;
    PrefixesBelow(s, |s|, c);
  }

  /** A first-appearance scan of `s` that stops once it keeps `c` values and
      looked at the first `examined` elements stopped exactly there: every
      prefix it passed keeps fewer than `c` values, and when it stopped early
      it stopped on the element that made the `c`-th. */
  ghost predicate StoppedAtCap<T>(s: seq<T>, c: nat, examined: nat) {
    && examined <= |s|
    && (forall n :: 0 <= n < examined ==> |Dedup(s[..n])| < c)
    && (examined < |s| ==>
          && 0 < examined
          && |Dedup(s[..examined])| == c
          && |Dedup(s[..examined - 1])| == c - 1)
  }
}
