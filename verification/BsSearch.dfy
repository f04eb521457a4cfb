/** matchlen and search of applypatch/bsdiff.c. */
module BsSearch {
  import opened Bytes
  import opened SuffixOrder

  /** n bytes of the target at scan equal n bytes of the text at pos. */
  ghost predicate Match(text: seq<Byte>, pos: int, target: seq<Byte>, scan: int, n: int) {
    && 0 <= n && 0 <= pos && pos + n <= |text| && 0 <= scan && scan + n <= |target|
    && text[pos..pos + n] == target[scan..scan + n]
  }

  /** ... and no more than n. */
  ghost predicate MatchEnds(text: seq<Byte>, pos: int, target: seq<Byte>, scan: int, n: int) {
    && Match(text, pos, target, scan, n)
    && (pos + n == |text| || scan + n == |target| || text[pos + n] != target[scan + n])
  }

  /** How far the text at i and the target at j agree. */
  function Lcp(text: seq<Byte>, i: int, target: seq<Byte>, j: int): (n: int)
    requires 0 <= i <= |text| && 0 <= j <= |target|
    ensures 0 <= n && i + n <= |text| && j + n <= |target|
    decreases |text| - i
  {
    if i < |text| && j < |target| && text[i] == target[j] then 1 + Lcp(text, i + 1, target, j + 1) else 0
  }

  lemma {:induction false} LcpMatches(text: seq<Byte>, i: int, target: seq<Byte>, j: int)
    requires 0 <= i <= |text| && 0 <= j <= |target|
    ensures MatchEnds(text, i, target, j, Lcp(text, i, target, j))
    decreases |text| - i
  {
    if i < |text| && j < |target| && text[i] == target[j] {
      LcpMatches(text, i + 1, target, j + 1);
      var n := Lcp(text, i, target, j);
      assert text[i..i + n] == [text[i]] + text[i + 1..i + n] && target[j..j + n] == [target[j]] + target[j + 1..j + n];
    }
  }

  /** Nothing matches longer than that at the same places. */
  lemma {:induction false} MatchAtMost(text: seq<Byte>, i: int, target: seq<Byte>, j: int, n: int)
    requires Match(text, i, target, j, n)
    ensures n <= Lcp(text, i, target, j)
    decreases n
  {
    if n > 0 {
      assert text[i] == text[i..i + n][0] && target[j] == target[j..j + n][0];
      assert text[i + 1..i + n] == text[i..i + n][1..] && target[j + 1..j + n] == target[j..j + n][1..];
      MatchAtMost(text, i + 1, target, j + 1, n - 1);
    }
  }

  method MatchLen(text: seq<Byte>, pos: int, target: seq<Byte>, scan: int) returns (n: int)
    requires 0 <= pos <= |text| && 0 <= scan <= |target|
    ensures MatchEnds(text, pos, target, scan, n) && n == Lcp(text, pos, target, scan)
  {
    n := 0;
    while pos + n < |text| && scan + n < |target| && text[pos + n] == target[scan + n]
      invariant 0 <= n && pos + n <= |text| && scan + n <= |target| && Lcp(text, pos, target, scan) == n + Lcp(text, pos + n, target, scan + n)
    {
      n := n + 1;
    }
    LcpMatches(text, pos, target, scan);
  }

  /** memcmp(text + i, target + j, n) < 0 */
  predicate MemLess(text: seq<Byte>, i: int, target: seq<Byte>, j: int, n: int)
    requires 0 <= i && 0 <= j && i + n <= |text| && j + n <= |target|
    decreases n
  {
    0 < n && (text[i] < target[j] || (text[i] == target[j] && MemLess(text, i + 1, target, j + 1, n - 1)))
  }

  function Min(a: int, b: int): int { if a < b then a else b }

  /** Place p of the suffix array holds a suffix that begins with c. */
  ghost predicate StartsWith(text: seq<Byte>, I: seq<int>, p: int, c: int)
    requires SuffixArray(text, I) && 0 <= p < |I|
  {
    I[p] < |text| && text[I[p]] == c
  }

  lemma FirstBytesSorted(text: seq<Byte>, I: seq<int>, p: int, q: int)
    requires SuffixArray(text, I) && 0 <= p < q < |I|
    ensures I[q] < |text| && (I[p] == |text| || text[I[p]] <= text[I[q]])
  {
    assert Less(text, I[p], I[q]);
  }

  /** The half the binary search keeps still has a suffix that begins with the wanted byte, if there was one. */
  lemma HalfKeeps(text: seq<Byte>, I: seq<int>, target: seq<Byte>, scan: int, st: int, x: int, en: int, p: int)
    requires SuffixArray(text, I) && 0 <= st < x < en < |I| && 0 <= scan < |target|
    requires st <= p <= en && StartsWith(text, I, p, target[scan])
    ensures 0 <= I[x] < |text|
    ensures if MemLess(text, I[x], target, scan, Min(|text| - I[x], |target| - scan))
            then StartsWith(text, I, x, target[scan]) || x < p
            else StartsWith(text, I, x, target[scan]) || p < x
  {
    FirstBytesSorted(text, I, 0, x);
    if p < x {
      FirstBytesSorted(text, I, p, x);
    } else if x < p {
      FirstBytesSorted(text, I, x, p);
    }
    hide SuffixArray;
  }

  // ----- The search -----

  /** What search returns: a length and a place. */
  function Find(I: seq<int>, text: seq<Byte>, target: seq<Byte>, scan: int, st: int, en: int): (int, int)
    requires SuffixArray(text, I) && 0 <= scan < |target| && 0 <= st <= en < |I|
    decreases en - st
  {
    if en - st < 2 then
      var x, y := Lcp(text, I[st], target, scan), Lcp(text, I[en], target, scan);
      if x > y then (x, I[st]) else (y, I[en])
    else
      var x := st + (en - st) / 2;
      if MemLess(text, I[x], target, scan, Min(|text| - I[x], |target| - scan)) then Find(I, text, target, scan, x, en)
      else Find(I, text, target, scan, st, x)
  }

  /**
   * search: a genuine match of the target at scan, as long as it goes at that place, and not empty when
   * some suffix between st and en begins with the byte looked for.
   */
  method Search(I: seq<int>, text: seq<Byte>, target: seq<Byte>, scan: int, st: int, en: int) returns (len: int, pos: int)
    requires SuffixArray(text, I) && 0 <= scan < |target| && 0 <= st <= en < |I|
    ensures (len, pos) == Find(I, text, target, scan, st, en)
    ensures MatchEnds(text, pos, target, scan, len)
    ensures (exists p :: st <= p <= en && StartsWith(text, I, p, target[scan])) ==> len >= 1
    decreases en - st
  {
    if en - st < 2 {
      var x := MatchLen(text, I[st], target, scan);
      var y := MatchLen(text, I[en], target, scan);
      if x > y {
        len, pos := x, I[st];
      } else {
        len, pos := y, I[en];
      }
      return;
    }
    var x := st + (en - st) / 2;
    FirstBytesSorted(text, I, 0, x);
    if p :| st <= p <= en && StartsWith(text, I, p, target[scan]) {
      HalfKeeps(text, I, target, scan, st, x, en, p);
    }
    hide SuffixArray;
    if MemLess(text, I[x], target, scan, Min(|text| - I[x], |target| - scan)) {
      len, pos := Search(I, text, target, scan, x, en);
    } else {
      len, pos := Search(I, text, target, scan, st, x);
    }
  }

  /** From the whole suffix array, search finds a non-empty match of every byte the text contains. */
  method SearchAll(I: seq<int>, text: seq<Byte>, target: seq<Byte>, scan: int) returns (len: int, pos: int)
    requires SuffixArray(text, I) && 0 <= scan < |target|
    ensures (len, pos) == Find(I, text, target, scan, 0, |text|)
    ensures MatchEnds(text, pos, target, scan, len)
    ensures len >= 1 <==> target[scan] in text
  {
    if t :| 0 <= t < |text| && text[t] == target[scan] {
      var p := Place(I, t);
      assert StartsWith(text, I, p, target[scan]);
    }
    len, pos := Search(I, text, target, scan, 0, |text|);
    hide SuffixArray;
    if len >= 1 {
      assert target[scan] == target[scan..scan + len][0] == text[pos..pos + len][0] == text[pos];
    }
  }

  // ----- When the match is a longest one -----

  /** The suffix at i comes before the rest of the target at j; a proper prefix comes before what it is a prefix of. */
  ghost predicate Below(text: seq<Byte>, i: int, target: seq<Byte>, j: int)
    requires 0 <= i <= |text| && 0 <= j <= |target|
    decreases |text| - i
  {
    j < |target| && (i == |text| || text[i] < target[j] || (text[i] == target[j] && Below(text, i + 1, target, j + 1)))
  }

  /** The whole suffix at i agrees with the target at j, which goes on. */
  predicate Prefix(text: seq<Byte>, i: int, target: seq<Byte>, j: int)
    requires 0 <= i <= |text| && 0 <= j <= |target|
  {
    i + Lcp(text, i, target, j) == |text| && j + Lcp(text, i, target, j) < |target|
  }

  /** The comparison of the search is the order of the suffixes, except that it does not see that a prefix comes before. */
  lemma {:induction false} MemLessIsBelow(text: seq<Byte>, i: int, target: seq<Byte>, j: int)
    requires 0 <= i <= |text| && 0 <= j <= |target|
    ensures MemLess(text, i, target, j, Min(|text| - i, |target| - j)) <==> Below(text, i, target, j) && !Prefix(text, i, target, j)
    ensures Prefix(text, i, target, j) ==> Below(text, i, target, j)
    decreases |text| - i
  {
    if i < |text| && j < |target| && text[i] == target[j] {
      MemLessIsBelow(text, i + 1, target, j + 1);
    }
  }

  /** Before the target, later suffixes agree with it for longer; after it, earlier ones do. */
  lemma {:induction false} CloserBelow(text: seq<Byte>, i: int, k: int, target: seq<Byte>, j: int)
    requires 0 <= i <= |text| && 0 <= k <= |text| && 0 <= j <= |target| && Less(text, i, k) && Below(text, k, target, j)
    ensures Lcp(text, i, target, j) <= Lcp(text, k, target, j)
    decreases |text| - k
  {
    if i < |text| && k < |text| && j < |target| && text[i] == target[j] && text[i] == text[k] {
      CloserBelow(text, i + 1, k + 1, target, j + 1);
    }
  }

  lemma {:induction false} CloserAbove(text: seq<Byte>, k: int, i: int, target: seq<Byte>, j: int)
    requires 0 <= i <= |text| && 0 <= k <= |text| && 0 <= j <= |target| && Less(text, k, i) && !Below(text, k, target, j)
    ensures Lcp(text, i, target, j) <= Lcp(text, k, target, j)
    decreases |text| - i
  {
    if i < |text| && j < |target| && text[i] == target[j] {
      assert k < |text| && text[k] == target[j];
      CloserAbove(text, k + 1, i + 1, target, j + 1);
    }
  }

  /** The last place that the search looks at whose suffix is a proper prefix of the target. */
  function LastPrefix(I: seq<int>, text: seq<Byte>, target: seq<Byte>, scan: int, st: int, en: int): (y: Option<int>)
    requires SuffixArray(text, I) && 0 <= scan < |target| && 0 <= st <= en < |I|
    ensures y.Some? ==> 0 < y.value < |I| && Prefix(text, I[y.value], target, scan)
    decreases en - st
  {
    if en - st < 2 then None
    else
      var x := st + (en - st) / 2;
      if MemLess(text, I[x], target, scan, Min(|text| - I[x], |target| - scan)) then LastPrefix(I, text, target, scan, x, en)
      else
        var y := LastPrefix(I, text, target, scan, st, x);
        if y.Some? || !Prefix(text, I[x], target, scan) then y else Some(x)
  }

  /** No suffix agrees with the target for longer than n. */
  ghost predicate AtMost(I: seq<int>, text: seq<Byte>, target: seq<Byte>, scan: int, n: int)
    requires SuffixArray(text, I) && 0 <= scan <= |target|
  {
    forall p :: 0 <= p < |I| ==> Lcp(text, I[p], target, scan) <= n
  }

  lemma Neighbours(I: seq<int>, text: seq<Byte>, target: seq<Byte>, scan: int, st: int, en: int)
    requires SuffixArray(text, I) && 0 <= scan < |target| && 0 <= st <= en < |I| && en - st < 2 && Below(text, I[st], target, scan)
    ensures en == |I| - 1 || !Below(text, I[en], target, scan) ==> AtMost(I, text, target, scan, Find(I, text, target, scan, st, en).0)
    ensures Prefix(text, I[en], target, scan) ==> Find(I, text, target, scan, st, en).0 == |text| - I[en]
  {
    hide Less;
    if en == |I| - 1 || !Below(text, I[en], target, scan) {
      forall p | 0 <= p < |I|
        ensures Lcp(text, I[p], target, scan) <= Find(I, text, target, scan, st, en).0
      {
        if p < st {
          CloserBelow(text, I[p], I[st], target, scan);
        } else if p > en {
          CloserAbove(text, I[en], I[p], target, scan);
        }
      }
    }
    MemLessIsBelow(text, I[en], target, scan);
    if Prefix(text, I[en], target, scan) && st < en {
      CloserBelow(text, I[st], I[en], target, scan);
    }
  }

  /** A search that meets no such prefix ends at a longest match; one that does ends at the last of them. */
  lemma {:induction false} FindEnds(I: seq<int>, text: seq<Byte>, target: seq<Byte>, scan: int, st: int, en: int)
    requires SuffixArray(text, I) && 0 <= scan < |target| && 0 <= st <= en < |I| && Below(text, I[st], target, scan)
    ensures var len, y := Find(I, text, target, scan, st, en).0, LastPrefix(I, text, target, scan, st, en);
      && (y.Some? ==> len == |text| - I[y.value])
      && (y.None? && Prefix(text, I[en], target, scan) ==> len == |text| - I[en])
      && (y.None? && (en == |I| - 1 || !Below(text, I[en], target, scan)) ==> AtMost(I, text, target, scan, len))
    decreases en - st
  {
    hide AtMost, SuffixArray, Below, Prefix, Lcp, MemLess;
    Positions(I, text);
    if en - st < 2 {
      Neighbours(I, text, target, scan, st, en);
    } else {
      var x := st + (en - st) / 2;
      MemLessIsBelow(text, I[x], target, scan);
      MemLessIsBelow(text, I[en], target, scan);
      EarlierIsBelow(I, text, target, scan, x, en);
      if MemLess(text, I[x], target, scan, Min(|text| - I[x], |target| - scan)) {
        FindEnds(I, text, target, scan, x, en);
      } else {
        FindEnds(I, text, target, scan, st, x);
      }
    }
  }

  lemma EarlierIsBelow(I: seq<int>, text: seq<Byte>, target: seq<Byte>, scan: int, p: int, q: int)
    requires SuffixArray(text, I) && 0 <= scan < |target| && 0 <= p < q < |I|
    ensures Below(text, I[q], target, scan) ==> Below(text, I[p], target, scan)
  {
    assert Less(text, I[p], I[q]);
    hide SuffixArray;
    if Below(text, I[q], target, scan) {
      LessBelow(text, I[p], I[q], target, scan);
    }
  }

  lemma {:induction false} LessBelow(text: seq<Byte>, i: int, k: int, target: seq<Byte>, j: int)
    requires 0 <= i <= |text| && 0 <= k <= |text| && 0 <= j <= |target| && Less(text, i, k) && Below(text, k, target, j)
    ensures Below(text, i, target, j)
    decreases |text| - k
  {
    if i < |text| && text[i] == text[k] && text[k] == target[j] {
      LessBelow(text, i + 1, k + 1, target, j + 1);
    }
  }

  lemma Positions(I: seq<int>, text: seq<Byte>)
    requires SuffixArray(text, I)
    ensures |I| == |text| + 1 && forall p :: 0 <= p < |I| ==> 0 <= I[p] <= |text|
  {
  }

  /** No match of the target at scan, anywhere in the text, is longer. */
  ghost predicate Longest(text: seq<Byte>, target: seq<Byte>, scan: int, len: int) {
    forall pos, n :: Match(text, pos, target, scan, n) ==> n <= len
  }

  /** The text holds the next n bytes of the target. */
  ghost predicate Occurs(text: seq<Byte>, target: seq<Byte>, scan: int, n: int) { exists pos :: Match(text, pos, target, scan, n) }

  lemma AtMostIsLongest(I: seq<int>, text: seq<Byte>, target: seq<Byte>, scan: int, len: int)
    requires SuffixArray(text, I) && 0 <= scan <= |target|
    ensures AtMost(I, text, target, scan, len) <==> Longest(text, target, scan, len)
  {
    if AtMost(I, text, target, scan, len) {
      forall pos, n | Match(text, pos, target, scan, n)
        ensures n <= len
      {
        var p := Place(I, pos);
        MatchAtMost(text, pos, target, scan, n);
      }
    }
    if Longest(text, target, scan, len) {
      forall p | 0 <= p < |I|
        ensures Lcp(text, I[p], target, scan) <= len
      {
        LcpMatches(text, I[p], target, scan);
      }
    }
  }

  lemma FirstIsBelow(I: seq<int>, text: seq<Byte>, target: seq<Byte>, scan: int)
    requires SuffixArray(text, I) && 0 <= scan < |target|
    ensures Below(text, I[0], target, scan)
  {
    var p := Place(I, |text|);
    assert forall q :: 0 < q < |I| ==> Less(text, I[0], I[q]);
  }

  /**
   * Exactly when the match is a longest one: the search looked at no suffix that is a proper prefix of the rest of the
   * target, or else the text does not hold one byte more of the target than the last of those it looked at.
   */
  lemma LongestExactly(I: seq<int>, text: seq<Byte>, target: seq<Byte>, scan: int)
    requires SuffixArray(text, I) && 0 <= scan < |target|
    ensures var len, y := Find(I, text, target, scan, 0, |text|).0, LastPrefix(I, text, target, scan, 0, |text|);
      Longest(text, target, scan, len) <==> y.None? || !Occurs(text, target, scan, |text| - I[y.value] + 1)
  {
    hide Find, LastPrefix, Below, SuffixArray, AtMost;
    FirstIsBelow(I, text, target, scan);
    Positions(I, text);
    FindEnds(I, text, target, scan, 0, |text|);
    var len, y := Find(I, text, target, scan, 0, |text|).0, LastPrefix(I, text, target, scan, 0, |text|);
    AtMostIsLongest(I, text, target, scan, len);
    if y.Some? {
      forall pos, n | Match(text, pos, target, scan, n) && n > len
        ensures Match(text, pos, target, scan, len + 1)
      {
        assert text[pos..pos + len + 1] == text[pos..pos + n][..len + 1] == target[scan..scan + n][..len + 1] == target[scan..scan + len + 1];
      }
    }
  }

  /** In particular it is if no suffix of the text but the empty one is a proper prefix of the rest of the target. */
  lemma LongestWithoutPrefix(I: seq<int>, text: seq<Byte>, target: seq<Byte>, scan: int)
    requires SuffixArray(text, I) && 0 <= scan < |target|
    requires forall i :: 0 <= i < |text| ==> !Prefix(text, i, target, scan)
    ensures Longest(text, target, scan, Find(I, text, target, scan, 0, |text|).0)
  {
    LongestExactly(I, text, target, scan);
    var y := LastPrefix(I, text, target, scan, 0, |text|);
    if y.Some? {
      FirstBytesSorted(text, I, 0, y.value);
    }
    hide Longest, Find, LastPrefix, Prefix;
  }

  /** The bytes of "aba" and "ab", and the order of the suffixes of the first. */
  const ABA: seq<Byte> := [97, 98, 97]
  const AB: seq<Byte> := [97, 98]
  const ABA_ORDER: seq<int> := [3, 2, 0, 1]

  lemma AbaSorted()
    ensures SuffixArray(ABA, ABA_ORDER)
  {
    assert Less(ABA, 3, 2) && Less(ABA, 3, 0) && Less(ABA, 3, 1) && Less(ABA, 0, 1) && Less(ABA, 2, 1);
    assert Less(ABA, 2, 0) by { assert Less(ABA, 3, 1); }
  }

  /** The longest match is missed: "ab" stands in "aba", but the search is content with the "a" at its end. */
  lemma LongestMissed()
    ensures SuffixArray(ABA, ABA_ORDER) && Find(ABA_ORDER, ABA, AB, 0, 0, 3) == (1, 2)
    ensures Match(ABA, 0, AB, 0, 2) && !Longest(ABA, AB, 0, 1)
  {
    AbaSorted();
    hide SuffixArray;
    assert !MemLess(ABA, 2, AB, 0, 1) by { assert !MemLess(ABA, 3, AB, 1, 0); }
    assert Lcp(ABA, 3, AB, 0) == 0 && Lcp(ABA, 3, AB, 1) == 0 && Lcp(ABA, 2, AB, 0) == 1;
    assert Find(ABA_ORDER, ABA, AB, 0, 0, 1) == (1, 2);
    assert ABA[0..2] == AB[0..2];
  }
}
