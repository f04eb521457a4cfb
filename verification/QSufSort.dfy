/** qsufsort of applypatch/bsdiff.c: a bucket sort by first byte, the doubling phases, and the final inversion. */
module QSufSort {
  import opened Bytes
  import opened SuffixOrder
  import opened SuffixPhases

  /** How many of the first i bytes of s are c. */
  ghost function Same(s: seq<Byte>, c: int, i: int): nat
    requires 0 <= i <= |s|
  {
    if i == 0 then 0 else Same(s, c, i - 1) + (if s[i - 1] == c then 1 else 0)
  }

  /** How many bytes of s are below c. */
  ghost function Under(s: seq<Byte>, c: int): nat
    requires 0 <= c
  {
    if c == 0 then 0 else Under(s, c - 1) + Same(s, c - 1, |s|)
  }

  lemma {:induction false} SameGrows(s: seq<Byte>, c: int, i: int, j: int)
    requires 0 <= i <= j <= |s|
    ensures Same(s, c, i) <= Same(s, c, j)
    decreases j
  {
    if i < j {
      SameGrows(s, c, i, j - 1);
    }
  }

  lemma {:induction false} UnderGrows(s: seq<Byte>, c: int, d: int)
    requires 0 <= c <= d
    ensures Under(s, c) <= Under(s, d)
    decreases d
  {
    if c < d {
      UnderGrows(s, c, d - 1);
    }
  }

  /** Bytes below c among the first i, counted the other way round. */
  ghost function UnderIn(s: seq<Byte>, c: int, i: int): nat
    requires 0 <= i <= |s|
  {
    if i == 0 then 0 else UnderIn(s, c, i - 1) + (if s[i - 1] < c then 1 else 0)
  }

  lemma {:induction false} UnderInStep(s: seq<Byte>, c: int, i: int)
    requires 0 <= i <= |s|
    ensures UnderIn(s, c + 1, i) == UnderIn(s, c, i) + Same(s, c, i)
  {
    if i > 0 {
      UnderInStep(s, c, i - 1);
    }
  }

  lemma {:induction false} UnderInZero(s: seq<Byte>, i: int)
    requires 0 <= i <= |s|
    ensures UnderIn(s, 0, i) == 0 && UnderIn(s, 256, i) == i
  {
    if i > 0 {
      UnderInZero(s, i - 1);
    }
  }

  lemma {:induction false} UnderIsUnderIn(s: seq<Byte>, c: int)
    requires 0 <= c
    ensures Under(s, c) == UnderIn(s, c, |s|)
  {
    UnderInZero(s, |s|);
    if c > 0 {
      UnderIsUnderIn(s, c - 1);
      UnderInStep(s, c - 1, |s|);
    }
  }

  lemma UnderAll(s: seq<Byte>)
    ensures Under(s, 256) == |s|
  {
    UnderIsUnderIn(s, 256);
    UnderInZero(s, |s|);
  }

  /** The place the bucket sort gives to suffix t; the empty suffix has place 0. */
  ghost function Bucketed(s: seq<Byte>, t: int): int
    requires 0 <= t <= |s|
  {
    if t == |s| then 0 else Under(s, s[t]) + Same(s, s[t], t) + 1
  }

  /** The last place of the bucket of suffix t. */
  ghost function BucketEnd(s: seq<Byte>, t: int): int
    requires 0 <= t <= |s|
  {
    if t == |s| then 0 else Under(s, s[t]) + Same(s, s[t], |s|)
  }

  lemma BucketBounds(s: seq<Byte>, t: int)
    requires 0 <= t <= |s|
    ensures 0 <= Bucketed(s, t) <= BucketEnd(s, t) <= |s|
    ensures t < |s| ==> Under(s, s[t]) < Bucketed(s, t)
  {
    if t < |s| {
      var c: int := s[t];
      SameGrows(s, c, t + 1, |s|);
      UnderGrows(s, c + 1, 256);
      UnderAll(s);
    }
  }

  /** Buckets are laid out in byte order, and suffixes in text order within a bucket. */
  lemma BucketOrder(s: seq<Byte>, t: int, u: int)
    requires 0 <= t <= |s| && 0 <= u <= |s|
    ensures u < |s| && (t == |s| || s[t] < s[u]) ==> BucketEnd(s, t) < Bucketed(s, u)
    ensures t < u < |s| && s[t] == s[u] ==> Bucketed(s, t) < Bucketed(s, u)
    ensures t < |s| && u < |s| && s[t] == s[u] ==> BucketEnd(s, t) == BucketEnd(s, u)
  {
    BucketBounds(s, u);
    if t < |s| && u < |s| && s[t] < s[u] {
      var c: int := s[t];
      UnderGrows(s, c + 1, s[u]);
    } else if t < u < |s| && s[t] == s[u] {
      SameGrows(s, s[t], t + 1, u);
    }
  }

  lemma BucketInjective(s: seq<Byte>, t: int, u: int)
    requires 0 <= t <= |s| && 0 <= u <= |s| && Bucketed(s, t) == Bucketed(s, u)
    ensures t == u
  {
    BucketOrder(s, t, u);
    BucketOrder(s, u, t);
    BucketBounds(s, t);
    BucketBounds(s, u);
    hide Bucketed, BucketEnd;
  }

  /** Suffixes of one bucket, and only they, share its last place. */
  lemma BucketEndsDiffer(s: seq<Byte>, t: int, u: int)
    requires 0 <= t <= |s| && 0 <= u <= |s|
    ensures BucketEnd(s, t) < BucketEnd(s, u) <==> u < |s| && (t == |s| || s[t] < s[u])
    ensures Bucketed(s, t) <= BucketEnd(s, u) <==> BucketEnd(s, t) <= BucketEnd(s, u)
  {
    BucketOrder(s, t, u);
    BucketOrder(s, u, t);
    BucketBounds(s, t);
    BucketBounds(s, u);
  }

  /** J is the arrangement by buckets. */
  ghost predicate ByBucket(s: seq<Byte>, J: seq<int>) {
    && |J| == |s| + 1
    && forall t :: 0 <= t <= |s| ==> 0 <= Bucketed(s, t) <= |s| && J[Bucketed(s, t)] == t
  }

  lemma BucketPlace(s: seq<Byte>, J: seq<int>, p: int)
    requires ByBucket(s, J) && 0 <= p < |J|
    ensures 0 <= J[p] <= |s| && Bucketed(s, J[p]) == p
  {
    var B := seq(|J|, t requires 0 <= t <= |s| => Bucketed(s, t));
    assert Perm(B) by {
      forall t, u | 0 <= t < u < |B| ensures B[t] != B[u] {
        if B[t] == B[u] {
          BucketInjective(s, t, u);
        }
      }
      forall t | 0 <= t < |B| ensures 0 <= B[t] < |B| {
        BucketBounds(s, t);
      }
    }
    var t := Place(B, p);
    assert J[Bucketed(s, t)] == t;
  }

  lemma BucketPerm(s: seq<Byte>, J: seq<int>)
    requires ByBucket(s, J)
    ensures Perm(J) && forall p :: 0 <= p < |J| ==> Bucketed(s, J[p]) == p
  {
    forall p | 0 <= p < |J| ensures 0 <= J[p] <= |s| && Bucketed(s, J[p]) == p {
      BucketPlace(s, J, p);
    }
    hide Bucketed;
  }

  lemma BucketLabels(s: seq<Byte>, V: seq<int>, J: seq<int>)
    requires ByBucket(s, J) && |V| == |J| && forall t :: 0 <= t <= |s| ==> V[t] == BucketEnd(s, t)
    ensures Labels(V, J)
  {
    BucketPerm(s, J);
    hide Bucketed, BucketEnd, ByBucket;
    forall p | 0 <= p < |J| ensures p <= V[J[p]] < |J| {
      BucketBounds(s, J[p]);
    }
    forall p | 0 <= p < |J| ensures V[J[V[J[p]]]] == V[J[p]] {
      var e := V[J[p]];
      BucketBounds(s, J[e]);
      BucketEndsDiffer(s, J[e], J[p]);
      BucketEndsDiffer(s, J[p], J[e]);
    }
    forall p, q | 0 <= p < q < |J| ensures V[J[p]] <= V[J[q]] {
      BucketBounds(s, J[q]);
      BucketEndsDiffer(s, J[p], J[q]);
    }
  }

  lemma BucketCoarse(s: seq<Byte>, V: seq<int>)
    requires |V| == |s| + 1 && forall t :: 0 <= t <= |s| ==> V[t] == BucketEnd(s, t)
    ensures Coarse(s, V, 1)
  {
    hide Bucketed, BucketEnd;
    forall i | 0 <= i <= |s| ensures 0 <= V[i] <= |s| {
      BucketBounds(s, i);
    }
    forall i, j | 0 <= i <= |s| && 0 <= j <= |s|
      ensures V[i] < V[j] ==> Less(s, i, j)
      ensures V[i] == V[j] ==> Agree(s, i, j, 1)
    {
      BucketEndsDiffer(s, i, j);
      BucketEndsDiffer(s, j, i);
    }
  }

  /** Count the bytes and turn the counts into bucket starts. */
  method CountBuckets(text: seq<Byte>) returns (buckets: array<int>)
    ensures fresh(buckets) && buckets.Length == 256
    ensures forall c :: 0 <= c < 256 ==> buckets[c] == Under(text, c)
  {
    buckets := new int[256](_ => 0);
    var i := 0;
    while i < |text|
      invariant 0 <= i <= |text|
      invariant forall c :: 0 <= c < 256 ==> buckets[c] == Same(text, c, i)
    {
      buckets[text[i]] := buckets[text[i]] + 1;
      i := i + 1;
    }
    i := 1;
    while i < 256
      invariant 1 <= i <= 256
      invariant forall c :: 0 <= c < i ==> buckets[c] == Under(text, c + 1)
      invariant forall c :: i <= c < 256 ==> buckets[c] == Same(text, c, |text|)
    {
      buckets[i] := buckets[i] + buckets[i - 1];
      i := i + 1;
    }
    i := 255;
    while i > 0
      invariant 0 <= i <= 255
      invariant forall c :: 0 <= c <= i ==> buckets[c] == Under(text, c + 1)
      invariant forall c :: i < c < 256 ==> buckets[c] == Under(text, c)
    {
      buckets[i] := buckets[i - 1];
      i := i - 1;
    }
    buckets[0] := 0;
  }

  /** The first i suffixes have been dealt into their buckets. */
  ghost predicate Dealt(s: seq<Byte>, I: seq<int>, buckets: seq<int>, i: int) {
    && 0 <= i <= |s| && |I| == |s| + 1 && |buckets| == 256
    && (forall c :: 0 <= c < 256 ==> buckets[c] == Under(s, c) + Same(s, c, i))
    && (forall t :: 0 <= t < i ==> 0 <= Bucketed(s, t) < |I| && I[Bucketed(s, t)] == t)
  }

  lemma DealNext(s: seq<Byte>, I: seq<int>, buckets: seq<int>, i: int)
    requires Dealt(s, I, buckets, i) && i < |s|
    ensures var b := buckets[s[i]] + 1; 0 <= b < |I| && Dealt(s, I[b := i], buckets[s[i] := b], i + 1)
  {
    ScatterStep(s, i);
    hide Under, Same, Bucketed;
  }

  lemma DealtAll(s: seq<Byte>, I: seq<int>, buckets: seq<int>)
    requires Dealt(s, I, buckets, |s|)
    ensures ByBucket(s, I[0 := |s|])
    ensures forall c :: 0 <= c < 256 ==> buckets[c] == Under(s, c + 1)
  {
    ScatterEnd(s);
    hide Under, Same, Bucketed;
  }

  lemma DealtNone(text: seq<Byte>, I: seq<int>, b: seq<int>)
    requires |I| == |text| + 1 && |b| == 256 && forall c :: 0 <= c < 256 ==> b[c] == Under(text, c)
    ensures Dealt(text, I, b, 0)
  {
  }

  /** Deal the suffixes into their buckets; each bucket then holds its last place. */
  method Scatter(I: array<int>, buckets: array<int>, text: seq<Byte>)
    requires I != buckets && I.Length == |text| + 1 && buckets.Length == 256
    requires forall c :: 0 <= c < 256 ==> buckets[c] == Under(text, c)
    modifies I, buckets
    ensures ByBucket(text, I[..])
    ensures forall c :: 0 <= c < 256 ==> buckets[c] == Under(text, c + 1)
  {
    hide *;
    DealtNone(text, I[..], buckets[..]);
    var i := 0;
    while i < |text|
      invariant 0 <= i <= |text|
      invariant Dealt(text, I[..], buckets[..], i)
    {
      ghost var I0, b0 := I[..], buckets[..];
      DealNext(text, I0, b0, i);
      var b := buckets[text[i]] + 1;
      buckets[text[i]] := b;
      I[b] := i;
      assert I[..] == I0[b := i] && buckets[..] == b0[text[i] := b];
      i := i + 1;
    }
    DealtAll(text, I[..], buckets[..]);
    ghost var I0 := I[..];
    I[0] := |text|;
    assert I[..] == I0[0 := |text|];
  }

  lemma ScatterStep(s: seq<Byte>, i: int)
    requires 0 <= i < |s|
    ensures forall c :: 0 <= c < 256 ==> Same(s, c, i + 1) == Same(s, c, i) + if s[i] == c then 1 else 0
    ensures 0 <= Bucketed(s, i) <= |s| && Bucketed(s, i) == Under(s, s[i]) + Same(s, s[i], i) + 1
    ensures forall t :: 0 <= t < i ==> Bucketed(s, t) != Bucketed(s, i)
  {
    BucketBounds(s, i);
    forall t | 0 <= t < i ensures Bucketed(s, t) != Bucketed(s, i) {
      if Bucketed(s, t) == Bucketed(s, i) {
        BucketInjective(s, t, i);
      }
    }
  }

  lemma ScatterEnd(s: seq<Byte>)
    ensures forall t :: 0 <= t < |s| ==> Bucketed(s, t) > 0
    ensures Bucketed(s, |s|) == 0
    ensures forall c :: 0 <= c < 256 ==> Under(s, c + 1) == Under(s, c) + Same(s, c, |s|)
  {
    forall t | 0 <= t < |s| ensures Bucketed(s, t) > 0 {
      BucketBounds(s, t);
    }
  }

  /** Seal the buckets of one suffix. The bucket of byte 0 is passed over: the first phase seals it. */
  method SealSingles(I: array<int>, V: seq<int>, buckets: array<int>, ghost s: seq<Byte>, ghost J: seq<int>)
    requires I != buckets && I.Length == |s| + 1 && buckets.Length == 256 && I[..] == J && ByBucket(s, J)
    requires |V| == |J| && forall t :: 0 <= t <= |s| ==> V[t] == BucketEnd(s, t)
    requires forall c :: 0 <= c < 256 ==> buckets[c] == Under(s, c + 1)
    modifies I
    ensures Sorting(s, V, J, I[..], 1)
  {
    BucketPerm(s, J);
    BucketLabels(s, V, J);
    BucketCoarse(s, V);
    hide ByBucket, Bucketed, BucketEnd, Labels, Coarse, Perm;
    var i := 1;
    while i < 256
      invariant 1 <= i <= 256
      invariant forall p :: 0 <= p < |J| ==> I[p] == J[p] || (I[p] == -1 && Single(V, J, p))
    {
      if buckets[i] == buckets[i - 1] + 1 {
        LoneByte(s, V, J, i);
        I[buckets[i]] := -1;
      }
      i := i + 1;
    }
    EmptyFirst(s, V, J);
    I[0] := -1;
    SlotsFilled(s, V, J, I[..]);
  }

  lemma EmptyFirst(s: seq<Byte>, V: seq<int>, J: seq<int>)
    requires ByBucket(s, J) && |V| == |J| && forall t :: 0 <= t <= |s| ==> V[t] == BucketEnd(s, t)
    ensures Perm(J) && Single(V, J, 0) && J[0] == |s|
  {
    BucketPerm(s, J);
    assert Bucketed(s, |s|) == 0;
  }

  lemma LoneByte(s: seq<Byte>, V: seq<int>, J: seq<int>, c: int)
    requires ByBucket(s, J) && |V| == |J| && forall t :: 0 <= t <= |s| ==> V[t] == BucketEnd(s, t)
    requires 0 <= c < 256 && Under(s, c + 1) == Under(s, c) + 1
    ensures Perm(J) && Under(s, c + 1) < |J| && Single(V, J, Under(s, c + 1))
  {
    BucketPerm(s, J);
    UnderGrows(s, c + 1, 256);
    UnderAll(s);
    var p := Under(s, c + 1);
    var t, u := J[p], J[p - 1];
    BucketBounds(s, t);
    BucketBounds(s, u);
    assert t < |s|;
    if s[t] < c {
      UnderGrows(s, s[t], c - 1);
      UnderGrows(s, (s[t] as int) + 1, c);
    } else if s[t] > c {
      UnderGrows(s, c + 1, s[t]);
    }
    assert s[t] == c;
    BucketEndsDiffer(s, t, u);
    BucketEndsDiffer(s, u, t);
    BucketOrder(s, u, t);
    BucketOrder(s, t, u);
  }

  lemma SlotFilled(s: seq<Byte>, V: seq<int>, J: seq<int>, I: seq<int>, p: int)
    requires |I| == |J| == |V| == |s| + 1 && Perm(J) && J[0] == |s| && 0 <= p < |J|
    requires (I[p] == -1 && Single(V, J, p)) || (p > 0 && I[p] == J[p])
    ensures Slot(s, V, J, I, 1, p)
  {
    hide Single;
    if I[p] == -1 {
      assert J[p] >= 0;
      assert Sealed(V, J, I, p);
    } else {
      assert J[p] != J[0];
    }
  }

  lemma SlotsFilled(s: seq<Byte>, V: seq<int>, J: seq<int>, I: seq<int>)
    requires |I| == |J| == |V| == |s| + 1 && Coarse(s, V, 1) && Labels(V, J) && J[0] == |s|
    requires forall p :: 0 <= p < |J| ==> (I[p] == -1 && Single(V, J, p)) || (p > 0 && I[p] == J[p])
    ensures Sorting(s, V, J, I, 1)
  {
    hide Coarse, Slot;
    forall p | 0 <= p < |J| ensures Slot(s, V, J, I, 1, p) {
      SlotFilled(s, V, J, I, p);
    }
  }

  /** qsufsort: I becomes the suffix array of the byte string. */
  method QSufSort(I: array<int>, V: array<int>, text: seq<Byte>)
    requires I != V && I.Length == V.Length == |text| + 1
    modifies I, V
    ensures SuffixArray(text, I[..])
  {
    var buckets := CountBuckets(text);
    Scatter(I, buckets, text);
    ghost var J := I[..];
    var i := 0;
    while i < |text|
      invariant 0 <= i <= |text| && I[..] == J
      invariant forall c :: 0 <= c < 256 ==> buckets[c] == Under(text, c + 1)
      invariant forall t :: 0 <= t < i ==> V[t] == BucketEnd(text, t)
    {
      V[i] := buckets[text[i]];
      i := i + 1;
    }
    V[|text|] := 0;
    SealSingles(I, V[..], buckets, text, J);
    hide *;
    ghost var h;
    J, h := Double(I, V, text, J);
    AllSorted(text, V[..], J, I[..], h);
    InvertSorted(I, V, text, J);
  }

  method InvertSorted(I: array<int>, V: array<int>, ghost s: seq<Byte>, ghost J: seq<int>)
    requires I != V && I.Length == V.Length == |s| + 1 && SuffixArray(s, J)
    requires forall p :: 0 <= p < |J| ==> 0 <= J[p] < V.Length && V[..][J[p]] == p
    modifies I
    ensures SuffixArray(s, I[..])
  {
    Invert(I, V, J);
    hide *;
  }
}
