/** qsufsort of applypatch/bsdiff.c: the bucket sort that starts it and the doubling phases that end it. */
module SuffixPhases {
  import opened Bytes
  import opened SuffixOrder
  import opened SuffixSort

  /** I[p] is a negative run length, and the run it opens consists of sorted, sealed places. */
  ghost predicate Sealed(V: seq<int>, J: seq<int>, I: seq<int>, p: int)
    requires |I| == |V| == |J| && Perm(J) && 0 <= p < |J|
  {
    && I[p] < 0 && p - I[p] <= |J|
    && forall q :: p <= q < p - I[p] ==> Single(V, J, q) && I[q] < 0
  }

  /** A place is sealed, or shows its suffix, which is long enough to be looked at distance h. */
  ghost predicate Slot(s: seq<Byte>, V: seq<int>, J: seq<int>, I: seq<int>, h: int, p: int)
    requires |I| == |V| == |J| && Perm(J) && 0 <= p < |J|
  {
    Sealed(V, J, I, p) || (I[p] == J[p] && J[p] + h <= |s|)
  }

  /** The state between phases: V tells apart suffixes that differ in their first h bytes. */
  ghost predicate Sorting(s: seq<Byte>, V: seq<int>, J: seq<int>, I: seq<int>, h: int) {
    && |I| == |J| == |s| + 1 && 1 <= h && Coarse(s, V, h) && Labels(V, J)
    && forall p :: 0 <= p < |J| ==> Slot(s, V, J, I, h, p)
  }

  /** A place already passed by a phase is sealed, or shows a suffix that is still not alone. */
  ghost predicate Passed(V: seq<int>, J: seq<int>, I: seq<int>, p: int)
    requires |I| == |V| == |J| && Perm(J) && 0 <= p < |J|
  {
    Sealed(V, J, I, p) || (I[p] == J[p] && !Single(V, J, p))
  }

  /** The places before i are numbered so that equals agree on 2h bytes, and the len last of them are alone. */
  ghost predicate Numbered(s: seq<Byte>, V: seq<int>, J: seq<int>, h: int, i: int, len: int) {
    && |J| == |V| == |s| + 1 && 1 <= h && Coarse(s, V, h) && Labels(V, J)
    && 0 <= len <= i <= |J| && RunStart(V, J, i)
    && (forall p :: i - len <= p < i ==> Single(V, J, p))
    && (forall p, q :: 0 <= p < i && 0 <= q < i && V[J[p]] == V[J[q]] ==> Agree(s, J[p], J[q], 2 * h))
  }

  /** A phase that has reached place i, with the len places before i sorted. */
  ghost predicate Scanned(s: seq<Byte>, V: seq<int>, J: seq<int>, I: seq<int>, h: int, i: int, len: int) {
    && |I| == |J| == |V| && Perm(J) && 0 <= len <= i <= |J| && Numbered(s, V, J, h, i, len)
    && (forall p :: i <= p < |J| ==> Slot(s, V, J, I, h, p))
    && (forall p :: 0 <= p < i ==> Passed(V, J, I, p))
    && (h > |s| ==> len == i)
  }

  lemma ScanStart(s: seq<Byte>, V: seq<int>, J: seq<int>, I: seq<int>, h: int)
    requires Sorting(s, V, J, I, h)
    ensures Scanned(s, V, J, I, h, 0, 0)
  {
    assert Perm(J) && |V| == |s| + 1;
    hide Coarse, Labels, Slot;
  }

  lemma SinglesAlone(V: seq<int>, J: seq<int>, p: int, q: int)
    requires |V| == |J| && Labels(V, J) && 0 <= p < |J| && 0 <= q < |J|
    requires Single(V, J, p) && V[J[p]] == V[J[q]]
    ensures p == q
  {
    assert q <= V[J[q]];
    assert forall a :: 0 <= a < p - 1 ==> V[J[a]] <= V[J[p - 1]];
  }

  lemma NumberedFurther(s: seq<Byte>, V: seq<int>, J: seq<int>, h: int, i: int, len: int, k: int)
    requires Numbered(s, V, J, h, i, len) && i < k <= |J| && forall p :: i <= p < k ==> Single(V, J, p)
    ensures Numbered(s, V, J, h, k, len + k - i)
  {
    assert Single(V, J, k - 1);
    forall p, q | 0 <= p < k && 0 <= q < k && V[J[p]] == V[J[q]] ensures Agree(s, J[p], J[q], 2 * h) {
      if p >= i {
        SinglesAlone(V, J, p, q);
      } else if q >= i {
        SinglesAlone(V, J, q, p);
      }
    }
    hide Coarse, Labels, Agree, Perm;
  }

  /** Skipping a sealed run. */
  lemma ScanSkip(s: seq<Byte>, V: seq<int>, J: seq<int>, I: seq<int>, h: int, i: int, len: int)
    requires Scanned(s, V, J, I, h, i, len) && i < |J| && I[i] < 0
    ensures i - I[i] <= |J| && Scanned(s, V, J, I, h, i - I[i], len - I[i])
  {
    hide Numbered, Single;
    var k := i - I[i];
    assert Slot(s, V, J, I, h, i) && J[i] >= 0;
    assert Sealed(V, J, I, i);
    forall p | i <= p < k ensures Passed(V, J, I, p) {
      assert Slot(s, V, J, I, h, p) && J[p] >= 0 && I[p] < 0;
    }
    NumberedFurther(s, V, J, h, i, len, k);
    hide Slot, Passed, Sealed;
  }

  /** Writing a longer run length over a sealed place leaves every other place sealed. */
  lemma SealedStays(V: seq<int>, J: seq<int>, I: seq<int>, at: int, n: int, p: int)
    requires |I| == |V| == |J| && Perm(J) && 0 <= p < |J| && 0 <= at < |J| && n < 0 && p != at
    requires Sealed(V, J, I, p)
    ensures Sealed(V, J, I[at := n], p)
  {
    hide Single, Perm;
  }

  /** Recording the sorted places before i as one run. */
  lemma ScanRecord(s: seq<Byte>, V: seq<int>, J: seq<int>, I: seq<int>, h: int, i: int, len: int)
    requires Scanned(s, V, J, I, h, i, len) && len > 0
    ensures Scanned(s, V, J, I[i - len := -len], h, i, len)
  {
    var at := i - len;
    var I' := I[at := -len];
    assert forall p :: at <= p < i ==> Single(V, J, p);
    hide Numbered, Perm, Single;
    forall p | at <= p < i ensures I[p] < 0 {
      assert Passed(V, J, I, p);
    }
    assert Sealed(V, J, I', at);
    forall p | 0 <= p < i ensures Passed(V, J, I', p) {
      assert Passed(V, J, I, p);
      if p != at && Sealed(V, J, I, p) {
        SealedStays(V, J, I, at, -len, p);
      }
    }
    forall p | i <= p < |J| ensures Slot(s, V, J, I', h, p) {
      assert Slot(s, V, J, I, h, p);
      if Sealed(V, J, I, p) {
        SealedStays(V, J, I, at, -len, p);
      }
    }
    hide Slot, Passed, Sealed;
  }

  /** A place that shows its suffix begins a run that can be split. */
  lemma ScanOpens(s: seq<Byte>, V: seq<int>, J: seq<int>, I: seq<int>, h: int, i: int, len: int)
    requires Scanned(s, V, J, I, h, i, len) && i < |J| && I[i] >= 0
    ensures I[i] == J[i] && h <= |s|
    ensures var e := V[J[i]]; i <= e < |J| && Open(s, V, J, I, h, i, e + 1, e)
  {
    assert Slot(s, V, J, I, h, i);
    var e := V[J[i]];
    assert V[J[e]] == e;
    forall p | i <= p <= e ensures V[J[p]] == e && I[p] == J[p] && J[p] + h <= |s| {
      assert Slot(s, V, J, I, h, p);
      assert Sealed(V, J, I, p) ==> Single(V, J, p);
    }
    hide Coarse, Slot, Passed;
  }

  /** Splitting i..e leaves the numbering of the other places as it was, and keeps its own numbers inside. */
  lemma SplitIsLocal(s: seq<Byte>, V: seq<int>, J: seq<int>, I: seq<int>, V': seq<int>, J': seq<int>, I': seq<int>,
                     h: int, i: int, e: int, p: int)
    requires Refined(s, V, J, I, V', J', I', h, i, e + 1, e + 1) && 0 <= p < |J| && e < |J|
    ensures |V'| == |J'| == |I'| == |I| == |J| && Perm(J')
    ensures !(i <= p <= e) ==> J'[p] == J[p] && V'[J'[p]] == V[J[p]] && I'[p] == I[p]
    ensures i <= p <= e ==> i <= V'[J'[p]] <= e
  {
    hide Coarse, Labels, Single;
  }

  lemma BeforeRunStart(V: seq<int>, J: seq<int>, i: int, p: int)
    requires |V| == |J| && Labels(V, J) && 0 <= p < i <= |J| && RunStart(V, J, i)
    ensures V[J[p]] < i
  {
    assert p == i - 1 || V[J[p]] <= V[J[i - 1]];
  }

  lemma NumberedAfterSplit(s: seq<Byte>, V: seq<int>, J: seq<int>, I: seq<int>, V': seq<int>, J': seq<int>, I': seq<int>,
                           h: int, i: int, len: int, e: int)
    requires Numbered(s, V, J, h, i, len) && i <= e < |J|
    requires Refined(s, V, J, I, V', J', I', h, i, e + 1, e + 1)
    ensures Numbered(s, V', J', h, e + 1, 0)
  {
    assert Perm(J');
    hide Coarse, Labels, Agree, Perm, SameOutside;
    forall p, q | 0 <= p <= e && 0 <= q <= e && V'[J'[p]] == V'[J'[q]] ensures Agree(s, J'[p], J'[q], 2 * h) {
      SplitIsLocal(s, V, J, I, V', J', I', h, i, e, p);
      SplitIsLocal(s, V, J, I, V', J', I', h, i, e, q);
      if p < i {
        BeforeRunStart(V, J, i, p);
      }
      if q < i {
        BeforeRunStart(V, J, i, q);
      }
    }
  }

  lemma SinglesElsewhere(s: seq<Byte>, V: seq<int>, J: seq<int>, I: seq<int>, V': seq<int>, J': seq<int>, I': seq<int>,
                         h: int, i: int, e: int, p: int)
    requires Refined(s, V, J, I, V', J', I', h, i, e + 1, e + 1) && 0 <= i <= e < |J| && Labels(V, J) && V[J[i]] == e
    requires 0 <= p < |J| && !(i <= p <= e)
    ensures |V'| == |J'| == |J| && Perm(J')
    ensures Single(V', J', p) <==> Single(V, J, p)
  {
    assert V[J[e]] == e;
    hide Refined, Coarse, Labels;
    SplitIsLocal(s, V, J, I, V', J', I', h, i, e, p);
    if p > 0 {
      SplitIsLocal(s, V, J, I, V', J', I', h, i, e, p - 1);
    }
  }

  /** A run before a place that shows its suffix stops short of it. */
  lemma SealedBefore(V: seq<int>, J: seq<int>, I: seq<int>, V': seq<int>, J': seq<int>, I': seq<int>, p: int, i: int, e: int)
    requires |I| == |V| == |J| == |I'| == |V'| == |J'| && Perm(J) && Perm(J') && 0 <= p < i <= e < |J|
    requires Sealed(V, J, I, p) && I[i] >= 0 && SameOutside(I, I', i, e + 1)
    requires forall q :: 0 <= q < i ==> (Single(V', J', q) <==> Single(V, J, q))
    ensures Sealed(V', J', I', p)
  {
    hide Single, Perm;
    assert forall q :: p <= q < p - I[p] ==> I[q] < 0;
  }

  lemma PassedAfterSplit(s: seq<Byte>, V: seq<int>, J: seq<int>, I: seq<int>, V': seq<int>, J': seq<int>, I': seq<int>,
                         h: int, i: int, len: int, e: int, p: int)
    requires Scanned(s, V, J, I, h, i, len) && Labels(V, J) && 0 <= p <= e && i <= e < |J| && V[J[i]] == e && I[i] >= 0
    requires Refined(s, V, J, I, V', J', I', h, i, e + 1, e + 1)
    ensures |V'| == |J'| == |I'| == |J| && Perm(J') && Passed(V', J', I', p)
  {
    hide Coarse, Agree, Numbered, Slot, RunStart;
    SplitIsLocal(s, V, J, I, V', J', I', h, i, e, p);
    if p < i {
      assert Passed(V, J, I, p) && Labels(V, J);
      forall q | 0 <= q < i ensures Single(V', J', q) <==> Single(V, J, q) {
        SinglesElsewhere(s, V, J, I, V', J', I', h, i, e, q);
      }
      assert SameOutside(I, I', i, e + 1);
      hide Refined, Scanned, Single, Labels;
      if Sealed(V, J, I, p) {
        SealedBefore(V, J, I, V', J', I', p, i, e);
      }
    } else {
      assert I'[p] == if Single(V', J', p) then -1 else J'[p];
      hide Refined, Scanned, Single;
    }
  }

  lemma SlotAfterSplit(s: seq<Byte>, V: seq<int>, J: seq<int>, I: seq<int>, V': seq<int>, J': seq<int>, I': seq<int>,
                       h: int, i: int, len: int, e: int, p: int)
    requires Scanned(s, V, J, I, h, i, len) && i <= e < p < |J| && V[J[i]] == e
    requires Refined(s, V, J, I, V', J', I', h, i, e + 1, e + 1)
    ensures |V'| == |J'| == |I'| == |J| && Perm(J') && Slot(s, V', J', I', h, p)
  {
    assert Slot(s, V, J, I, h, p) && Labels(V, J);
    hide Scanned;
    forall q | p <= q < |J| ensures J'[q] == J[q] && I'[q] == I[q] && (Single(V', J', q) <==> Single(V, J, q)) {
      SplitIsLocal(s, V, J, I, V', J', I', h, i, e, q);
      SinglesElsewhere(s, V, J, I, V', J', I', h, i, e, q);
    }
    SplitIsLocal(s, V, J, I, V', J', I', h, i, e, p);
    hide Refined, Single, Labels;
  }

  /** A run of places split: singles are sealed one by one. */
  lemma ScanSplit(s: seq<Byte>, V: seq<int>, J: seq<int>, I: seq<int>, V': seq<int>, J': seq<int>, I': seq<int>,
                  h: int, i: int, len: int, e: int)
    requires Scanned(s, V, J, I, h, i, len) && i <= e < |J| && V[J[i]] == e && h <= |s| && I[i] >= 0
    requires Refined(s, V, J, I, V', J', I', h, i, e + 1, e + 1)
    ensures Scanned(s, V', J', I', h, e + 1, 0)
  {
    NumberedAfterSplit(s, V, J, I, V', J', I', h, i, len, e);
    SplitIsLocal(s, V, J, I, V', J', I', h, i, e, i);
    forall p | 0 <= p <= e ensures Passed(V', J', I', p) {
      PassedAfterSplit(s, V, J, I, V', J', I', h, i, len, e, p);
    }
    forall p | e < p < |J| ensures Slot(s, V', J', I', h, p) {
      SlotAfterSplit(s, V, J, I, V', J', I', h, i, len, e, p);
    }
    hide Slot, Passed, Numbered, Perm, Refined;
  }

  /** At the end of a phase the state is as between phases, one doubling further. */
  lemma ScanEnd(s: seq<Byte>, V: seq<int>, J: seq<int>, I: seq<int>, h: int, len: int)
    requires Scanned(s, V, J, I, h, |J|, len)
    ensures Sorting(s, V, J, I, 2 * h)
  {
    assert Labels(V, J);
    forall i, j | 0 <= i <= |s| && 0 <= j <= |s| && V[i] == V[j] ensures Agree(s, i, j, 2 * h) {
      var p, q := Place(J, i), Place(J, j);
    }
    assert Coarse(s, V, 2 * h) by {
      hide Agree, Less, Passed;
    }
    forall p | 0 <= p < |J| ensures Slot(s, V, J, I, 2 * h, p) {
      assert Passed(V, J, I, p);
      if !Single(V, J, p) {
        var q := Sibling(V, J, p);
        assert Agree(s, J[p], J[q], 2 * h);
      }
    }
    hide Slot, Passed, Numbered;
  }

  /** A suffix that is not alone has an equal. */
  lemma Sibling(V: seq<int>, J: seq<int>, p: int) returns (q: int)
    requires |V| == |J| && Labels(V, J) && 0 <= p < |J| && !Single(V, J, p)
    ensures 0 <= q < |J| && q != p && V[J[q]] == V[J[p]] && J[q] != J[p]
  {
    if V[J[p]] == p {
      q := p - 1;
      assert V[J[q]] <= V[J[p]];
    } else {
      q := V[J[p]];
    }
  }

  /** One pass of the outer loop of qsufsort: every run of equals is split by keys at distance h. */
  method Phase(I: array<int>, V: array<int>, h: int, ghost s: seq<Byte>, ghost J: seq<int>)
    returns (ghost J': seq<int>)
    requires I != V && I.Length == |s| + 1 && Sorting(s, V[..], J, I[..], h)
    modifies I, V
    ensures Sorting(s, V[..], J', I[..], 2 * h)
    ensures h > |s| ==> I[0] == -(|s| + 1)
  {
    ScanStart(s, V[..], J, I[..], h);
    J' := J;
    var len, i := 0, 0;
    while i < I.Length
      invariant I.Length == |J'| == V.Length && 0 <= len <= i <= |J'|
      invariant Scanned(s, V[..], J', I[..], h, i, len)
    {
      hide *;
      if I[i] < 0 {
        ScanSkip(s, V[..], J', I[..], h, i, len);
        len := len - I[i];
        i := i - I[i];
      } else {
        if len != 0 {
          Record(I, i, len, s, V[..], J', h);
        }
        i, J' := SplitRun(I, V, i, h, s, J', len);
        len := 0;
      }
    }
    if len != 0 {
      Record(I, i, len, s, V[..], J', h);
    }
    ScanEnd(s, V[..], J', I[..], h, len);
  }

  method Record(I: array<int>, i: int, len: int, ghost s: seq<Byte>, ghost V: seq<int>, ghost J: seq<int>, ghost h: int)
    requires Scanned(s, V, J, I[..], h, i, len) && len > 0
    modifies I
    ensures Scanned(s, V, J, I[..], h, i, len)
    ensures 0 <= i - len < I.Length && I[i - len] == -len
    ensures i < I.Length ==> I[i] == old(I[i])
  {
    ScanRecord(s, V, J, I[..], h, i, len);
    I[i - len] := -len;
    assert I[..] == old(I[..])[i - len := -len];
    hide *;
  }

  method SplitRun(I: array<int>, V: array<int>, i: int, h: int, ghost s: seq<Byte>, ghost J: seq<int>, ghost len: int)
    returns (i': int, ghost J': seq<int>)
    requires I != V && I.Length == |J| && 0 <= i < I.Length && I[i] >= 0 && Scanned(s, V[..], J, I[..], h, i, len)
    modifies I, V
    ensures i < i' <= I.Length && |J'| == |J|
    ensures Scanned(s, V[..], J', I[..], h, i', 0)
  {
    ghost var V0, I0 := V[..], I[..];
    ScanOpens(s, V0, J, I0, h, i, len);
    assert 0 <= I[i] < V.Length;
    hide *;
    var n := V[I[i]] + 1 - i;
    J' := Split(I, V, i, n, h, s, J, V[I[i]]);
    ScanSplit(s, V0, J, I0, V[..], J', I[..], h, i, len, i + n - 1);
    SplitIsLocal(s, V0, J, I0, V[..], J', I[..], h, i, i + n - 1, i);
    i' := i + n;
  }

  /** When everything is sealed in one run, V is the inverse of the arrangement. */
  lemma AllSorted(s: seq<Byte>, V: seq<int>, J: seq<int>, I: seq<int>, h: int)
    requires Sorting(s, V, J, I, h) && I[0] == -(|s| + 1)
    ensures |V| == |J| && SuffixArray(s, J) && forall p :: 0 <= p < |J| ==> V[J[p]] == p
  {
    assert Slot(s, V, J, I, h, 0) && J[0] >= 0;
    forall p | 0 <= p < |J| ensures V[J[p]] == p {
      assert Single(V, J, p);
    }
    forall p, q | 0 <= p < q < |J| ensures Less(s, J[p], J[q]) {
      assert V[J[p]] < V[J[q]];
    }
    hide Less, Agree, Slot, Labels, Coarse, Single;
  }

  /** The last loop of qsufsort: I[V[i]] = i. */
  method Invert(I: array<int>, V: array<int>, ghost J: seq<int>)
    requires I != V && I.Length == V.Length == |J| && Perm(J)
    requires forall p :: 0 <= p < |J| ==> V[J[p]] == p
    modifies I
    ensures I[..] == J
  {
    var i := 0;
    while i < I.Length
      invariant 0 <= i <= I.Length
      invariant forall p :: 0 <= p < |J| && J[p] < i ==> I[p] == J[p]
    {
      ghost var p := Place(J, i);
      I[V[i]] := i;
      i := i + 1;
    }
  }

  /** The doubling phases, from the state the bucket sort leaves. */
  method Double(I: array<int>, V: array<int>, ghost s: seq<Byte>, ghost J: seq<int>)
    returns (ghost J': seq<int>, ghost h': int)
    requires I != V && I.Length == |s| + 1 && Sorting(s, V[..], J, I[..], 1)
    modifies I, V
    ensures Sorting(s, V[..], J', I[..], h') && I[0] == -(|s| + 1)
  {
    hide *;
    J' := J;
    var h := 1;
    while I[0] != -I.Length
      invariant 1 <= h && I.Length == |s| + 1
      invariant Sorting(s, V[..], J', I[..], h)
      decreases if h <= |s| then |s| + 1 - h else 0, I[0] != -I.Length
    {
      J' := Phase(I, V, h, s, J');
      h := h + h;
    }
    h' := h;
  }
}
