/**
 * The suffix sort of applypatch/bsdiff.c: I and V are sorted and renumbered in place. I loses the
 * place of every suffix already sorted (its slot is overwritten by a negative run length), so the
 * proofs carry the ghost arrangement J that I would hold had nothing been overwritten.
 */
module SuffixSort {
  import opened Bytes
  import opened SuffixOrder

  /** Positions k..end-1 are the front of the run k..e of equals, and what is left of that run is greater. */
  ghost predicate Front(s: seq<Byte>, V: seq<int>, J: seq<int>, h: int, k: int, end: int, e: int) {
    && |J| == |s| + 1
    && 1 <= h && Coarse(s, V, h) && Labels(V, J)
    && 0 <= k < end <= e + 1 <= |J|
    && RunStart(V, J, k)
    && (forall p, q :: k <= p < end <= q <= e ==> Less(s, J[p], J[q]))
  }

  /** Positions k..end-1 are still to be sorted: they are such a front, and I shows them. */
  ghost predicate Open(s: seq<Byte>, V: seq<int>, J: seq<int>, I: seq<int>, h: int, k: int, end: int, e: int) {
    && |I| == |J| == |V| == |s| + 1 && 1 <= h && 0 <= k < end <= e + 1 <= |J|
    && Front(s, V, J, h, k, end, e)
    && (forall p :: k <= p < end ==> 0 <= J[p] && J[p] + h <= |s| && V[J[p]] == e && I[p] == J[p])
  }

  /** Positions k..end-1 have been split: equals there agree on 2h bytes, and only singles are sealed. */
  ghost predicate Done(s: seq<Byte>, V: seq<int>, J: seq<int>, I: seq<int>, h: int, k: int, end: int) {
    && |I| == |J| == |V| == |s| + 1 && Perm(J) && 1 <= h && 0 <= k <= end <= |J|
    && (forall p :: k <= p < end ==> k <= V[J[p]] < end)
    && (forall p :: k <= p < end ==> I[p] == if Single(V, J, p) then -1 else J[p])
    && (forall p, q :: k <= p < end && k <= q < end && V[J[p]] == V[J[q]] ==> Agree(s, J[p], J[q], 2 * h))
  }

  ghost predicate SameOutside(a: seq<int>, b: seq<int>, k: int, end: int) {
    |a| == |b| && forall p :: 0 <= p < |a| && !(k <= p < end) ==> a[p] == b[p]
  }

  lemma SwapKeepsOpen(s: seq<Byte>, V: seq<int>, J: seq<int>, I: seq<int>, h: int, k: int, end: int, e: int, a: int, b: int)
    requires Open(s, V, J, I, h, k, end, e) && k <= a < end && k <= b < end
    ensures Open(s, V, Swap(J, a, b), Swap(I, a, b), h, k, end, e)
    ensures SameOutside(J, Swap(J, a, b), k, end)
  {
    hide Coarse, Less;
    SwapKeepsPerm(J, a, b);
    var J' := Swap(J, a, b);
    assert forall p :: 0 <= p < |J| && p != a && p != b ==> J'[p] == J[p];
    SameLabels(V, J, J');
  }

  /** A smaller key at distance h means a smaller suffix; an equal one, agreement on twice the length. */
  lemma KeysOrder(s: seq<Byte>, V: seq<int>, h: int, a: int, b: int)
    requires 1 <= h && Coarse(s, V, h)
    requires 0 <= a && 0 <= b && a + h <= |s| && b + h <= |s| && V[a] == V[b]
    ensures V[a + h] < V[b + h] ==> Less(s, a, b)
    ensures V[a + h] == V[b + h] ==> Agree(s, a, b, 2 * h)
  {
    if V[a + h] < V[b + h] {
      LessSkipsPrefix(s, a, b, h);
    } else if V[a + h] == V[b + h] {
      AgreeTwice(s, a, b, h);
    }
  }

  /** Swap two places of I, mirroring the exchange in the ghost arrangement. */
  method Exchange(I: array<int>, a: int, b: int, ghost s: seq<Byte>, ghost V: seq<int>, ghost J: seq<int>, ghost h: int,
                  ghost k: int, ghost end: int, ghost e: int)
    returns (ghost J': seq<int>)
    requires Open(s, V, J, I[..], h, k, end, e) && k <= a < end && k <= b < end
    modifies I
    ensures I[..] == Swap(old(I[..]), a, b) && J' == Swap(J, a, b)
    ensures Open(s, V, J', I[..], h, k, end, e)
  {
    hide Front;
    SwapKeepsOpen(s, V, J, I[..], h, k, end, e, a, b);
    J' := Swap(J, a, b);
    I[a], I[b] := I[b], I[a];
    assert I[..] == Swap(old(I[..]), a, b);
  }

  /** The selection step for short runs: the smallest key's suffixes are brought to the front. */
  method SelectSmallest(I: array<int>, V: array<int>, k: int, end: int, h: int,
                        ghost s: seq<Byte>, ghost J: seq<int>, ghost e: int)
    returns (j: int, x: int, ghost J': seq<int>)
    requires I != V && Open(s, V[..], J, I[..], h, k, end, e)
    modifies I
    ensures 1 <= j <= end - k
    ensures Open(s, V[..], J', I[..], h, k, end, e)
    ensures SameOutside(J, J', k, end) && SameOutside(old(I[..]), I[..], k, end)
    ensures forall p :: k <= p < k + j ==> V[J'[p] + h] == x
    ensures forall p :: k + j <= p < end ==> V[J'[p] + h] > x
  {
    hide Front;
    J' := J;
    j := 1;
    x := V[I[k] + h];
    var i := 1;
    ghost var V0 := V[..];
    while k + i < end
      invariant 1 <= j <= i <= end - k
      invariant V[..] == V0
      invariant Open(s, V0, J', I[..], h, k, end, e)
      invariant SameOutside(J, J', k, end) && SameOutside(old(I[..]), I[..], k, end)
      invariant forall p :: k <= p < k + j ==> V[J'[p] + h] == x
      invariant forall p :: k + j <= p < k + i ==> V[J'[p] + h] > x
    {
      if V[I[k + i] + h] < x {
        x := V[I[k + i] + h];
        j := 0;
      }
      if V[I[k + i] + h] == x {
        J' := Exchange(I, k + j, k + i, s, V0, J', h, k, end, e);
        j := j + 1;
      }
      i := i + 1;
    }
  }

  /** Number places k..m by m. */
  method Number(I: array<int>, V: array<int>, k: int, m: int, ghost J: seq<int>)
    requires I != V && I.Length == V.Length == |J| && Perm(J)
    requires 0 <= k <= m < |J| && I[k..m + 1] == J[k..m + 1]
    modifies V
    ensures Relabelled(old(V[..]), V[..], J, k, m)
  {
    ghost var V0 := V[..];
    var i := 0;
    while i < m + 1 - k
      invariant 0 <= i <= m + 1 - k
      invariant forall p :: k <= p < k + i ==> V[J[p]] == m
      invariant forall p :: 0 <= p < |J| && !(k <= p < k + i) ==> V[J[p]] == V0[J[p]]
    {
      assert I[k + i] == I[k..m + 1][i] == J[k..m + 1][i] == J[k + i];
      V[I[k + i]] := m;
      i := i + 1;
    }
  }

  lemma OneRunIsDone(s: seq<Byte>, V: seq<int>, J: seq<int>, I: seq<int>, h: int, k: int, m: int)
    requires |I| == |J| == |V| == |s| + 1 && Perm(J) && 1 <= h && 0 <= k <= m < |J|
    requires RunStart(V, J, k) && (forall p :: k <= p <= m ==> V[J[p]] == m)
    requires forall p :: k <= p <= m ==> I[p] == if k == m then -1 else J[p]
    requires forall p, q :: k <= p <= m && k <= q <= m ==> Agree(s, J[p], J[q], 2 * h)
    ensures Done(s, V, J, I, h, k, m + 1)
  {
    hide Agree;
    assert Single(V, J, m) <==> k == m;
  }

  /** Make k..m a run of its own, and seal its place when it is a single suffix. */
  method Seal(I: array<int>, V: array<int>, k: int, m: int, h: int, ghost s: seq<Byte>, ghost J: seq<int>, ghost e: int)
    requires I != V && Open(s, V[..], J, I[..], h, k, m + 1, e)
    requires forall p, q :: k <= p <= m && k <= q <= m ==> Agree(s, J[p], J[q], 2 * h)
    modifies I, V
    ensures SameOutside(old(I[..]), I[..], k, m + 1)
    ensures Coarse(s, V[..], h) && Labels(V[..], J)
    ensures RunStart(V[..], J, k) && RunStart(V[..], J, m + 1)
    ensures Relabelled(old(V[..]), V[..], J, k, m)
    ensures m < e ==> V[J[m + 1]] == e
    ensures Done(s, V[..], J, I[..], h, k, m + 1)
  {
    ghost var V0 := V[..];
    hide Coarse, Less, Agree;
    Number(I, V, k, m, J);
    RelabelKeepsLabels(V0, V[..], J, k, m, e);
    RelabelKeepsCoarse(s, V0, V[..], J, h, k, m, e);
    if k == m {
      I[k] := -1;
    }
    OneRunIsDone(s, V[..], J, I[..], h, k, m);
  }

  /** How many elements of K equal c. */
  ghost function Count(K: seq<int>, c: int): nat {
    if K == [] then 0 else Count(K[..|K| - 1], c) + (if K[|K| - 1] == c then 1 else 0)
  }

  lemma {:induction false} CountUpdate(K: seq<int>, i: int, v: int, c: int)
    requires 0 <= i < |K|
    ensures Count(K[i := v], c) + (if K[i] == c then 1 else 0) == Count(K, c) + (if v == c then 1 else 0)
  {
    var last := |K| - 1;
    if i == last {
      assert K[i := v][..last] == K[..last];
    } else {
      assert K[i := v][..last] == K[..last][i := v];
      CountUpdate(K[..last], i, v, c);
    }
  }

  lemma {:induction false} CountNone(K: seq<int>, c: int)
    requires forall t :: 0 <= t < |K| ==> K[t] != c
    ensures Count(K, c) == 0
  {
    if K != [] {
      CountNone(K[..|K| - 1], c);
    }
  }

  lemma CountSwap(K: seq<int>, a: int, b: int, c: int)
    requires 0 <= a < |K| && 0 <= b < |K|
    ensures Count(Swap(K, a, b), c) == Count(K, c)
  {
    CountUpdate(K, a, K[b], c);
    CountUpdate(K[a := K[b]], b, K[a], c);
  }

  lemma {:induction false} CountZone(K: seq<int>, c: int, lo: int, hi: int)
    requires 0 <= lo <= hi <= |K| && forall t :: lo <= t < hi ==> K[t] == c
    ensures Count(K, c) >= hi - lo
  {
    if |K| > 0 {
      var last := |K| - 1;
      CountZone(K[..last], c, if lo < last then lo else last, if hi < last then hi else last);
    }
  }

  /** A place outside a zone of c that is also c shows that the zone does not hold them all. */
  lemma CountBeyondZone(K: seq<int>, c: int, lo: int, hi: int, i: int)
    requires 0 <= lo <= hi <= |K| && forall t :: lo <= t < hi ==> K[t] == c
    requires 0 <= i < |K| && !(lo <= i < hi) && K[i] == c
    ensures Count(K, c) > hi - lo
  {
    CountUpdate(K, i, c + 1, c);
    CountZone(K[i := c + 1], c, lo, hi);
  }

  function Sign(v: int, x: int): int {
    if v < x then -1 else if v == x then 0 else 1
  }

  /** K tells how the key of each place from start to end compares with the pivot key x; 2 elsewhere. */
  ghost predicate Classified(V: seq<int>, J: seq<int>, h: int, x: int, start: int, end: int, K: seq<int>) {
    && 0 <= start <= end <= |J| == |K|
    && (forall p :: start <= p < end ==> 0 <= J[p] + h < |V| && K[p] == Sign(V[J[p] + h], x))
    && (forall p :: 0 <= p < start || end <= p < |K| ==> K[p] == 2)
  }

  /** The zones below, at and above the pivot have their final sizes. */
  ghost predicate Sized(K: seq<int>, start: int, end: int, jj: int, kk: int) {
    && 0 <= start <= jj <= kk <= end <= |K|
    && Count(K, -1) == jj - start && Count(K, 0) == kk - jj && Count(K, 1) == end - kk
  }

  lemma SwapKeepsClasses(V: seq<int>, J: seq<int>, h: int, x: int, start: int, end: int, K: seq<int>, jj: int, kk: int, a: int, b: int)
    requires Classified(V, J, h, x, start, end, K) && Sized(K, start, end, jj, kk) && start <= a < end && start <= b < end
    ensures Classified(V, Swap(J, a, b), h, x, start, end, Swap(K, a, b))
    ensures Sized(Swap(K, a, b), start, end, jj, kk)
  {
    hide Count, Sign;
    CountSwap(K, a, b, -1);
    CountSwap(K, a, b, 0);
    CountSwap(K, a, b, 1);
  }

  /** Count the keys below and at the pivot. */
  method Survey(I: array<int>, V: array<int>, start: int, end: int, h: int, x: int,
                ghost s: seq<Byte>, ghost J: seq<int>, ghost e: int)
    returns (jj: int, kk: int, ghost K: seq<int>)
    requires I != V && Open(s, V[..], J, I[..], h, start, end, e)
    ensures Classified(V[..], J, h, x, start, end, K) && Sized(K, start, end, jj, kk)
  {
    hide Front, Count;
    K := seq(|J|, i => 2);
    CountNone(K, -1);
    CountNone(K, 0);
    CountNone(K, 1);
    jj, kk := 0, 0;
    var i := start;
    while i < end
      invariant start <= i <= end
      invariant Classified(V[..], J, h, x, start, i, K)
      invariant Count(K, -1) == jj && Count(K, 0) == kk && Count(K, 1) == i - start - jj - kk
    {
      assert V[I[i] + h] == V[..][J[i] + h];
      ghost var c := Sign(V[I[i] + h], x);
      CountUpdate(K, i, c, -1);
      CountUpdate(K, i, c, 0);
      CountUpdate(K, i, c, 1);
      if V[I[i] + h] < x {
        jj := jj + 1;
      }
      if V[I[i] + h] == x {
        kk := kk + 1;
      }
      K := K[i := c];
      i := i + 1;
    }
    jj := jj + start;
    kk := kk + jj;
  }

  /**
   * The segment while it is being partitioned around x: K compares each place with x. Outside it, J
   * and I are as they were (J0, I0) when the partition began.
   */
  ghost predicate Parting(s: seq<Byte>, V: seq<int>, J: seq<int>, I: seq<int>, h: int, start: int, end: int, e: int,
                          x: int, K: seq<int>, jj: int, kk: int, J0: seq<int>, I0: seq<int>)
  {
    && Open(s, V, J, I, h, start, end, e)
    && Classified(V, J, h, x, start, end, K)
    && Sized(K, start, end, jj, kk)
    && SameOutside(J0, J, start, end) && SameOutside(I0, I, start, end)
  }

  lemma KeyAt(s: seq<Byte>, V: seq<int>, J: seq<int>, I: seq<int>, h: int, start: int, end: int, e: int,
              x: int, K: seq<int>, jj: int, kk: int, J0: seq<int>, I0: seq<int>, p: int)
    requires Parting(s, V, J, I, h, start, end, e, x, K, jj, kk, J0, I0) && start <= p < end
    ensures |K| == |I| && 0 <= I[p] + h < |V| && K[p] == Sign(V[I[p] + h], x)
  {
    hide Front, Count;
  }

  lemma MoveKeepsParting(s: seq<Byte>, V: seq<int>, J: seq<int>, I: seq<int>, h: int, start: int, end: int, e: int,
                         x: int, K: seq<int>, jj: int, kk: int, J0: seq<int>, I0: seq<int>, a: int, b: int)
    requires Parting(s, V, J, I, h, start, end, e, x, K, jj, kk, J0, I0)
    requires start <= a < end && start <= b < end
    ensures Parting(s, V, Swap(J, a, b), Swap(I, a, b), h, start, end, e, x, Swap(K, a, b), jj, kk, J0, I0)
  {
    hide Front, Count;
    SwapKeepsClasses(V, J, h, x, start, end, K, jj, kk, a, b);
    SwapKeepsOpen(s, V, J, I, h, start, end, e, a, b);
  }

  /** One exchange of the partition, mirrored in the arrangement and in the classes. */
  method Move(I: array<int>, a: int, b: int, ghost s: seq<Byte>, ghost V: seq<int>, ghost J: seq<int>, ghost h: int,
              ghost start: int, ghost end: int, ghost e: int, ghost x: int, ghost K: seq<int>, ghost jj: int, ghost kk: int,
              ghost J0: seq<int>, ghost I0: seq<int>)
    returns (ghost J': seq<int>, ghost K': seq<int>)
    requires Parting(s, V, J, I[..], h, start, end, e, x, K, jj, kk, J0, I0)
    requires start <= a < end && start <= b < end
    modifies I
    ensures Parting(s, V, J', I[..], h, start, end, e, x, K', jj, kk, J0, I0)
    ensures K' == Swap(K, a, b)
  {
    MoveKeepsParting(s, V, J, I[..], h, start, end, e, x, K, jj, kk, J0, I0, a, b);
    J', K' := Swap(J, a, b), Swap(K, a, b);
    I[a], I[b] := I[b], I[a];
    assert I[..] == Swap(old(I[..]), a, b);
    hide *;
  }

  ghost predicate Zone(K: seq<int>, lo: int, hi: int, c: int) {
    0 <= lo <= hi <= |K| && forall t :: lo <= t < hi ==> K[t] == c
  }

  /** The places gathered so far: below the pivot up to i, at it from jj, above it from kk. */
  ghost predicate Gathered(K: seq<int>, start: int, i: int, jj: int, j: int, kk: int, k: int) {
    Zone(K, start, i, -1) && Zone(K, jj, jj + j, 0) && Zone(K, kk, kk + k, 1)
  }

  /** Sizes and bounds of a partition in progress. */
  ghost predicate Room(K: seq<int>, start: int, end: int, i: int, jj: int, j: int, kk: int, k: int) {
    && Sized(K, start, end, jj, kk) && Gathered(K, start, i, jj, j, kk, k)
    && 0 <= start <= i <= jj && 0 <= j && jj + j <= kk && 0 <= k && kk + k <= end <= |K|
  }

  /** A key at the pivot before jj has room in the middle zone. */
  lemma PlaceEqual(K: seq<int>, start: int, end: int, i: int, jj: int, j: int, kk: int, k: int)
    requires Room(K, start, end, i, jj, j, kk, k) && i < jj && K[i] == 0
    ensures jj + j < kk && Gathered(Swap(K, i, jj + j), start, i, jj, j + 1, kk, k)
  {
    hide Count;
    CountBeyondZone(K, 0, jj, jj + j, i);
  }

  /** A key above the pivot before kk has room in the upper zone. */
  lemma PlaceAbove(K: seq<int>, start: int, end: int, i: int, jj: int, j: int, kk: int, k: int, p: int)
    requires Room(K, start, end, i, jj, j, kk, k) && (i <= p < jj || jj + j <= p < kk) && K[p] == 1
    ensures kk + k < end && Gathered(Swap(K, p, kk + k), start, i, jj, j, kk, k + 1)
  {
    hide Count;
    CountBeyondZone(K, 1, kk, kk + k, p);
  }

  /** Once the lower zone is full, no key of the middle zone is below the pivot. */
  lemma NoneBelow(K: seq<int>, start: int, end: int, jj: int, j: int, kk: int, k: int, p: int)
    requires Room(K, start, end, jj, jj, j, kk, k) && jj + j <= p < kk
    ensures K[p] != -1
  {
    hide Count;
    if K[p] == -1 {
      CountBeyondZone(K, -1, start, jj, p);
    }
  }

  /** Put a key found at the pivot before jj into the middle zone. */
  method PutEqual(I: array<int>, i: int, jj: int, j: int, ghost kk: int, ghost k: int, ghost s: seq<Byte>, ghost V: seq<int>,
                  ghost J: seq<int>, ghost h: int, ghost start: int, ghost end: int, ghost e: int, ghost x: int, ghost K: seq<int>,
                  ghost J0: seq<int>, ghost I0: seq<int>)
    returns (ghost J': seq<int>, ghost K': seq<int>)
    requires Parting(s, V, J, I[..], h, start, end, e, x, K, jj, kk, J0, I0)
    requires Room(K, start, end, i, jj, j, kk, k) && i < jj && K[i] == 0
    modifies I
    ensures Parting(s, V, J', I[..], h, start, end, e, x, K', jj, kk, J0, I0)
    ensures Room(K', start, end, i, jj, j + 1, kk, k)
  {
    PlaceEqual(K, start, end, i, jj, j, kk, k);
    assert start <= i < end && start <= jj + j < end;
    J', K' := Move(I, i, jj + j, s, V, J, h, start, end, e, x, K, jj, kk, J0, I0);
    hide Open, Classified, Gathered, Count, SameOutside;
  }

  /** Put a key found above the pivot at place p into the upper zone. */
  method PutAbove(I: array<int>, p: int, kk: int, k: int, ghost i: int, ghost jj: int, ghost j: int, ghost s: seq<Byte>, ghost V: seq<int>,
                  ghost J: seq<int>, ghost h: int, ghost start: int, ghost end: int, ghost e: int, ghost x: int, ghost K: seq<int>,
                  ghost J0: seq<int>, ghost I0: seq<int>)
    returns (ghost J': seq<int>, ghost K': seq<int>)
    requires Parting(s, V, J, I[..], h, start, end, e, x, K, jj, kk, J0, I0)
    requires Room(K, start, end, i, jj, j, kk, k) && (i <= p < jj || jj + j <= p < kk) && K[p] == 1
    modifies I
    ensures Parting(s, V, J', I[..], h, start, end, e, x, K', jj, kk, J0, I0)
    ensures Room(K', start, end, i, jj, j, kk, k + 1)
  {
    PlaceAbove(K, start, end, i, jj, j, kk, k, p);
    assert start <= p < end && start <= kk + k < end;
    J', K' := Move(I, p, kk + k, s, V, J, h, start, end, e, x, K, jj, kk, J0, I0);
    hide Open, Classified, Gathered, Count, SameOutside;
  }

  /** First pass of the partition: everything before jj ends up below the pivot. */
  method GatherBelow(I: array<int>, V: array<int>, start: int, end: int, h: int, x: int, jj: int, kk: int,
                     ghost s: seq<Byte>, ghost J: seq<int>, ghost e: int, ghost K: seq<int>, ghost J0: seq<int>, ghost I0: seq<int>)
    returns (j: int, k: int, ghost J': seq<int>, ghost K': seq<int>)
    requires I != V && Parting(s, V[..], J, I[..], h, start, end, e, x, K, jj, kk, J0, I0)
    modifies I
    ensures Parting(s, V[..], J', I[..], h, start, end, e, x, K', jj, kk, J0, I0)
    ensures Room(K', start, end, jj, jj, j, kk, k)
  {
    ghost var V0 := V[..];
    assert Room(K, start, end, start, jj, 0, kk, 0);
    hide Parting, Sized;
    J', K' := J, K;
    var i := start;
    j, k := 0, 0;
    while i < jj
      invariant V[..] == V0
      invariant Parting(s, V0, J', I[..], h, start, end, e, x, K', jj, kk, J0, I0)
      invariant Room(K', start, end, i, jj, j, kk, k)
      decreases (jj - i) + (kk - jj - j) + (end - kk - k)
    {
      KeyAt(s, V0, J', I[..], h, start, end, e, x, K', jj, kk, J0, I0, i);
      if V[I[i] + h] < x {
        i := i + 1;
      } else if V[I[i] + h] == x {
        J', K' := PutEqual(I, i, jj, j, kk, k, s, V0, J', h, start, end, e, x, K', J0, I0);
        j := j + 1;
      } else {
        J', K' := PutAbove(I, i, kk, k, i, jj, j, s, V0, J', h, start, end, e, x, K', J0, I0);
        k := k + 1;
      }
    }
  }

  /** Second pass: the middle keeps only keys at the pivot. */
  method GatherEqual(I: array<int>, V: array<int>, start: int, end: int, h: int, x: int, jj: int, kk: int, j0: int, k0: int,
                     ghost s: seq<Byte>, ghost J: seq<int>, ghost e: int, ghost K: seq<int>, ghost J0: seq<int>, ghost I0: seq<int>)
    returns (ghost J': seq<int>, ghost K': seq<int>)
    requires I != V && Parting(s, V[..], J, I[..], h, start, end, e, x, K, jj, kk, J0, I0)
    requires Room(K, start, end, jj, jj, j0, kk, k0)
    modifies I
    ensures Parting(s, V[..], J', I[..], h, start, end, e, x, K', jj, kk, J0, I0)
    ensures Zone(K', start, jj, -1) && Zone(K', jj, kk, 0)
  {
    hide Parting, Sized;
    ghost var V0 := V[..];
    J', K' := J, K;
    var j, k := j0, k0;
    while jj + j < kk
      invariant V[..] == V0
      invariant Parting(s, V0, J', I[..], h, start, end, e, x, K', jj, kk, J0, I0)
      invariant Room(K', start, end, jj, jj, j, kk, k)
      decreases (kk - jj - j) + (end - kk - k)
    {
      KeyAt(s, V0, J', I[..], h, start, end, e, x, K', jj, kk, J0, I0, jj + j);
      if V[I[jj + j] + h] == x {
        j := j + 1;
      } else {
        NoneBelow(K', start, end, jj, j, kk, k, jj + j);
        J', K' := PutAbove(I, jj + j, kk, k, jj, jj, j, s, V0, J', h, start, end, e, x, K', J0, I0);
        k := k + 1;
      }
    }
  }

  lemma RestIsAbove(s: seq<Byte>, V: seq<int>, J: seq<int>, I: seq<int>, h: int, start: int, end: int, e: int,
                    x: int, K: seq<int>, jj: int, kk: int, J0: seq<int>, I0: seq<int>)
    requires Parting(s, V, J, I, h, start, end, e, x, K, jj, kk, J0, I0)
    requires Zone(K, start, jj, -1) && Zone(K, jj, kk, 0)
    ensures Zone(K, kk, end, 1)
  {
    hide Front, Count;
    forall t | kk <= t < end ensures K[t] == 1 {
      if K[t] == -1 {
        CountBeyondZone(K, -1, start, jj, t);
      } else if K[t] == 0 {
        CountBeyondZone(K, 0, jj, kk, t);
      }
    }
  }

  /**
   * What splitting achieves: from (V0, J0, I0), places start..k-1 have been split, only places before F
   * and from start on were touched, and k begins a run.
   */
  ghost predicate Refined(s: seq<Byte>, V0: seq<int>, J0: seq<int>, I0: seq<int>, V: seq<int>, J: seq<int>, I: seq<int>,
                          h: int, start: int, k: int, F: int)
  {
    && 1 <= h && Perm(J0) && |V0| == |J0| && 0 <= start <= k <= F <= |J0|
    && Coarse(s, V, h) && Labels(V, J)
    && SameOutside(J0, J, start, F) && SameOutside(I0, I, start, F)
    && (forall p :: 0 <= p < |J0| && !(start <= p < F) ==> V[J0[p]] == V0[J0[p]])
    && RunStart(V, J, start) && RunStart(V, J, k)
    && Done(s, V, J, I, h, start, k)
  }

  lemma DoneKept(s: seq<Byte>, V1: seq<int>, J1: seq<int>, I1: seq<int>, V2: seq<int>, J2: seq<int>, I2: seq<int>,
                 h: int, start: int, k: int)
    requires Done(s, V1, J1, I1, h, start, k) && |I2| == |V2| == |J2| == |J1| && Perm(J2)
    requires forall p :: 0 <= p < k ==> J2[p] == J1[p] && V2[J1[p]] == V1[J1[p]] && I2[p] == I1[p]
    ensures Done(s, V2, J2, I2, h, start, k)
  {
    hide Agree;
    forall p | start <= p < k ensures Single(V2, J2, p) <==> Single(V1, J1, p) {
      assert p > 0 ==> J2[p - 1] == J1[p - 1] && V2[J1[p - 1]] == V1[J1[p - 1]];
    }
    hide Perm, Single;
  }

  lemma DoneJoin(s: seq<Byte>, V: seq<int>, J: seq<int>, I: seq<int>, h: int, start: int, k: int, m: int)
    requires Done(s, V, J, I, h, start, k) && Done(s, V, J, I, h, k, m)
    ensures Done(s, V, J, I, h, start, m)
  {
    hide Agree, Perm, Single;
  }

  lemma RefinedChain(s: seq<Byte>, V0: seq<int>, J0: seq<int>, I0: seq<int>, V1: seq<int>, J1: seq<int>, I1: seq<int>,
                     V2: seq<int>, J2: seq<int>, I2: seq<int>, h: int, start: int, k: int, m: int, G: int, F: int)
    requires Refined(s, V0, J0, I0, V1, J1, I1, h, start, k, F)
    requires Refined(s, V1, J1, I1, V2, J2, I2, h, k, m, G) && G <= F
    ensures Refined(s, V0, J0, I0, V2, J2, I2, h, start, m, F)
  {
    assert Perm(J0) && Perm(J1) && Perm(J2);
    DoneKept(s, V1, J1, I1, V2, J2, I2, h, start, k);
    DoneJoin(s, V2, J2, I2, h, start, k, m);
    hide Coarse, Labels, Done, Perm;
    assert forall p :: 0 <= p < |J0| && !(start <= p < F) ==> J1[p] == J0[p];
  }

  /** What lies beyond the places split is still to be sorted. */
  lemma RestIsOpen(s: seq<Byte>, V0: seq<int>, J0: seq<int>, I0: seq<int>, V: seq<int>, J: seq<int>, I: seq<int>,
                   h: int, start: int, k: int, end: int, e: int)
    requires Open(s, V0, J0, I0, h, start, end, e) && k < end
    requires Refined(s, V0, J0, I0, V, J, I, h, start, k, k)
    ensures Open(s, V, J, I, h, k, end, e)
  {
    hide Coarse, Less;
    assert forall p :: k <= p < |J| ==> J[p] == J0[p] && V[J0[p]] == V0[J0[p]];
  }

  /** Within an open segment, keys decide order and agreement. */
  lemma OpenKeys(s: seq<Byte>, V: seq<int>, J: seq<int>, I: seq<int>, h: int, k: int, end: int, e: int, p: int, q: int)
    requires Open(s, V, J, I, h, k, end, e) && k <= p < end && k <= q < end
    ensures V[J[p] + h] < V[J[q] + h] ==> Less(s, J[p], J[q])
    ensures V[J[p] + h] == V[J[q] + h] ==> Agree(s, J[p], J[q], 2 * h)
  {
    KeysOrder(s, V, h, J[p], J[q]);
    hide *;
  }

  lemma SealRefines(s: seq<Byte>, V0: seq<int>, J0: seq<int>, I0: seq<int>, V: seq<int>, J: seq<int>, I1: seq<int>, I: seq<int>,
                    h: int, k: int, m: int, F: int)
    requires 1 <= h && Perm(J0) && Perm(J) && |V| == |V0| == |J0| == |J| && 0 <= k < m <= F <= |J0|
    requires SameOutside(J0, J, k, F) && SameOutside(I0, I1, k, F) && SameOutside(I1, I, k, m)
    requires Coarse(s, V, h) && Labels(V, J) && RunStart(V, J, k) && RunStart(V, J, m)
    requires Relabelled(V0, V, J, k, m - 1) && Done(s, V, J, I, h, k, m)
    ensures Refined(s, V0, J0, I0, V, J, I, h, k, m, F)
  {
    hide Coarse, Labels, Done, Perm;
  }

  /** Places k..m-1 with the smallest key x of k..end-1 are separated from the rest, and agree on 2h bytes. */
  lemma SplitOpen(s: seq<Byte>, V: seq<int>, J: seq<int>, I: seq<int>, h: int, k: int, m: int, end: int, e: int, x: int)
    requires Open(s, V, J, I, h, k, end, e) && k < m <= end
    requires forall p :: k <= p < m ==> V[J[p] + h] == x
    requires forall p :: m <= p < end ==> V[J[p] + h] > x
    ensures Open(s, V, J, I, h, k, m, e)
    ensures forall p, q :: k <= p < m && k <= q < m ==> Agree(s, J[p], J[q], 2 * h)
  {
    assert Perm(J);
    hide Less, Agree, Labels, Coarse;
    forall p, q | k <= p < m <= q <= e ensures Less(s, J[p], J[q]) {
      if q < end {
        OpenKeys(s, V, J, I, h, k, end, e, p, q);
      }
    }
    forall p, q | k <= p < m && k <= q < m ensures Agree(s, J[p], J[q], 2 * h) {
      OpenKeys(s, V, J, I, h, k, end, e, p, q);
    }
  }

  lemma OpenPerm(s: seq<Byte>, V: seq<int>, J: seq<int>, I: seq<int>, h: int, k: int, end: int, e: int)
    requires Open(s, V, J, I, h, k, end, e)
    ensures Perm(J)
  {
    hide Less, Agree, Coarse, Perm;
  }

  /** Bring the smallest keys to the front of k..end-1 and make them a run. */
  method SelectAndSeal(I: array<int>, V: array<int>, k: int, end: int, h: int, ghost s: seq<Byte>, ghost J: seq<int>, ghost e: int)
    returns (m: int, ghost J': seq<int>)
    requires I != V && Open(s, V[..], J, I[..], h, k, end, e)
    modifies I, V
    ensures k < m <= end
    ensures Refined(s, old(V[..]), J, old(I[..]), V[..], J', I[..], h, k, m, end)
    ensures m < end ==> Open(s, V[..], J', I[..], h, m, end, e)
  {
    hide Coarse, Labels, Agree, Less, Front;
    ghost var V0, I0 := V[..], I[..];
    OpenPerm(s, V0, J, I0, h, k, end, e);
    var j, x;
    j, x, J' := SelectSmallest(I, V, k, end, h, s, J, e);
    ghost var I1 := I[..];
    OpenPerm(s, V0, J', I1, h, k, end, e);
    assert V[..] == V0;
    SplitOpen(s, V0, J', I1, h, k, k + j, end, e, x);
    Seal(I, V, k, k + j - 1, h, s, J', e);
    m := k + j;
    SealRefines(s, V0, J, I0, V[..], J', I1, I[..], h, k, m, end);
    if m < end {
      RestIsOpen(s, V0, J', I1, V[..], J', I[..], h, k, m, end, e);
    }
    hide *;
  }

  /** split on fewer than 16 places: repeated selection. */
  method SplitShort(I: array<int>, V: array<int>, start: int, end: int, h: int, ghost s: seq<Byte>, ghost J: seq<int>, ghost e: int)
    returns (ghost J': seq<int>)
    requires I != V && Open(s, V[..], J, I[..], h, start, end, e)
    modifies I, V
    ensures Refined(s, old(V[..]), J, old(I[..]), V[..], J', I[..], h, start, end, end)
  {
    ghost var V0, I0 := V[..], I[..];
    J' := J;
    var k := start;
    assert Refined(s, V0, J, I0, V0, J, I0, h, start, start, end);
    assert 0 <= start < end;
    hide Refined, Open;
    while k < end
      invariant start <= k <= end
      invariant Refined(s, V0, J, I0, V[..], J', I[..], h, start, k, end)
      invariant k < end ==> Open(s, V[..], J', I[..], h, k, end, e)
    {
      ghost var V1, J1, I1 := V[..], J', I[..];
      var m;
      m, J' := SelectAndSeal(I, V, k, end, h, s, J', e);
      RefinedChain(s, V0, J, I0, V1, J1, I1, V[..], J', I[..], h, start, k, m, end, end);
      k := m;
    }
  }

  /** What the partition establishes for the three zones. */
  lemma ZonesSeparate(s: seq<Byte>, V: seq<int>, J: seq<int>, I: seq<int>, h: int, start: int, end: int, e: int,
                      x: int, K: seq<int>, jj: int, kk: int, J0: seq<int>, I0: seq<int>)
    requires Parting(s, V, J, I, h, start, end, e, x, K, jj, kk, J0, I0)
    requires Zone(K, start, jj, -1) && Zone(K, jj, kk, 0) && Zone(K, kk, end, 1)
    ensures start < jj ==> Open(s, V, J, I, h, start, jj, e)
    ensures forall p, q :: start <= p < kk <= q <= e ==> Less(s, J[p], J[q])
    ensures forall p, q :: jj <= p < kk && jj <= q < kk ==> Agree(s, J[p], J[q], 2 * h)
  {
    assert Perm(J);
    hide Less, Agree, Labels, Coarse, Count, SameOutside;
    forall p, q | (start <= p < jj <= q <= e) || (start <= p < kk <= q <= e) ensures Less(s, J[p], J[q]) {
      if q < end {
        OpenKeys(s, V, J, I, h, start, end, e, p, q);
      }
    }
    forall p, q | jj <= p < kk && jj <= q < kk ensures Agree(s, J[p], J[q], 2 * h) {
      OpenKeys(s, V, J, I, h, start, end, e, p, q);
    }
  }

  /** The three zones of an open segment: start..jj-1 below, jj..kk-1 equal, kk..end-1 above. */
  ghost predicate Zoned(s: seq<Byte>, V: seq<int>, J: seq<int>, I: seq<int>, h: int, start: int, jj: int, kk: int, end: int, e: int) {
    && Open(s, V, J, I, h, start, end, e) && start <= jj < kk <= end && Perm(J)
    && (start < jj ==> Open(s, V, J, I, h, start, jj, e))
    && (forall p, q :: start <= p < kk <= q <= e ==> Less(s, J[p], J[q]))
    && (forall p, q :: jj <= p < kk && jj <= q < kk ==> Agree(s, J[p], J[q], 2 * h))
  }

  /** Three-way partition around the key of the middle place. */
  method Partition(I: array<int>, V: array<int>, start: int, len: int, h: int, ghost s: seq<Byte>, ghost J: seq<int>, ghost e: int)
    returns (jj: int, kk: int, ghost J': seq<int>)
    requires I != V && Open(s, V[..], J, I[..], h, start, start + len, e)
    modifies I
    ensures V[..] == old(V[..]) && start <= jj < kk <= start + len
    ensures Zoned(s, V[..], J', I[..], h, start, jj, kk, start + len, e)
    ensures Refined(s, V[..], J, old(I[..]), V[..], J', I[..], h, start, start, start + len)
  {
    var end := start + len;
    ghost var I0, V0 := I[..], V[..];
    var mid := start + len / 2;
    var x := V[I[mid] + h];
    ghost var K;
    jj, kk, K := Survey(I, V, start, end, h, x, s, J, e);
    assert K[mid] == 0;
    CountZone(K, 0, mid, mid + 1);
    assert Parting(s, V0, J, I0, h, start, end, e, x, K, jj, kk, J, I0);
    hide *;
    var j, k;
    j, k, J', K := GatherBelow(I, V, start, end, h, x, jj, kk, s, J, e, K, J, I0);
    assert V[..] == V0;
    J', K := GatherEqual(I, V, start, end, h, x, jj, kk, j, k, s, J', e, K, J, I0);
    assert V[..] == V0;
    PartingIsZoned(s, V0, J', I[..], h, start, end, e, x, K, jj, kk, J, I0);
    PartitionRefines(s, V0, J, I0, J', I[..], h, start, jj, kk, end, e);
  }

  lemma PartingIsZoned(s: seq<Byte>, V: seq<int>, J: seq<int>, I: seq<int>, h: int, start: int, end: int, e: int,
                       x: int, K: seq<int>, jj: int, kk: int, J0: seq<int>, I0: seq<int>)
    requires Parting(s, V, J, I, h, start, end, e, x, K, jj, kk, J0, I0) && jj < kk
    requires Zone(K, start, jj, -1) && Zone(K, jj, kk, 0)
    ensures Zoned(s, V, J, I, h, start, jj, kk, end, e)
    ensures SameOutside(J0, J, start, end) && SameOutside(I0, I, start, end)
  {
    RestIsAbove(s, V, J, I, h, start, end, e, x, K, jj, kk, J0, I0);
    ZonesSeparate(s, V, J, I, h, start, end, e, x, K, jj, kk, J0, I0);
    assert Perm(J);
    hide Open, Less, Agree, Count, Classified, Perm;
  }

  lemma PartitionRefines(s: seq<Byte>, V: seq<int>, J0: seq<int>, I0: seq<int>, J: seq<int>, I: seq<int>,
                         h: int, start: int, jj: int, kk: int, end: int, e: int)
    requires Open(s, V, J0, I0, h, start, end, e) && Zoned(s, V, J, I, h, start, jj, kk, end, e)
    requires SameOutside(J0, J, start, end) && SameOutside(I0, I, start, end)
    ensures Refined(s, V, J0, I0, V, J, I, h, start, start, end)
    ensures start <= jj < kk <= end
  {
    hide Coarse, Less, Agree, Single;
  }

  /** After the lower zone is split (if there is one), the middle is ready to be made a run. */
  lemma LeftDone(s: seq<Byte>, V1: seq<int>, J1: seq<int>, I1: seq<int>, V2: seq<int>, J2: seq<int>, I2: seq<int>,
                 h: int, start: int, jj: int, kk: int, end: int, e: int)
    requires Zoned(s, V1, J1, I1, h, start, jj, kk, end, e)
    requires if start < jj then Refined(s, V1, J1, I1, V2, J2, I2, h, start, jj, jj) else (V2, J2, I2) == (V1, J1, I1)
    ensures Refined(s, V1, J1, I1, V2, J2, I2, h, start, jj, jj)
    ensures Open(s, V2, J2, I2, h, jj, end, e) && Open(s, V2, J2, I2, h, jj, kk, e)
    ensures forall p, q :: jj <= p < kk && jj <= q < kk ==> Agree(s, J2[p], J2[q], 2 * h)
  {
    if start < jj {
      RestIsOpen(s, V1, J1, I1, V2, J2, I2, h, start, jj, end, e);
    }
    assert forall p :: jj <= p < |J1| ==> J2[p] == J1[p];
    hide Coarse, Less, Agree, Single;
  }

  lemma MiddleDone(s: seq<Byte>, V1: seq<int>, J1: seq<int>, I1: seq<int>, V2: seq<int>, J: seq<int>, I2: seq<int>,
                   V3: seq<int>, I3: seq<int>, h: int, start: int, jj: int, kk: int, end: int, e: int)
    requires Refined(s, V1, J1, I1, V2, J, I2, h, start, jj, jj)
    requires Open(s, V2, J, I2, h, jj, end, e) && jj < kk <= end
    requires SameOutside(I2, I3, jj, kk) && Coarse(s, V3, h) && Labels(V3, J)
    requires RunStart(V3, J, jj) && RunStart(V3, J, kk) && Relabelled(V2, V3, J, jj, kk - 1) && Done(s, V3, J, I3, h, jj, kk)
    ensures Refined(s, V1, J1, I1, V3, J, I3, h, start, kk, kk)
    ensures kk < end ==> Open(s, V3, J, I3, h, kk, end, e)
  {
    hide Coarse, Less, Agree, Single;
    SealRefines(s, V2, J, I2, V3, J, I2, I3, h, jj, kk, kk);
    if kk < end {
      RestIsOpen(s, V2, J, I2, V3, J, I3, h, jj, kk, end, e);
    }
    assert Refined(s, V1, J1, I1, V2, J, I2, h, start, jj, kk);
    RefinedChain(s, V1, J1, I1, V2, J, I2, V3, J, I3, h, start, jj, kk, kk, kk);
  }

  /** Split the lower zone, if there is one. */
  method SplitLower(I: array<int>, V: array<int>, start: int, jj: int, h: int, ghost kk: int, ghost end: int,
                    ghost s: seq<Byte>, ghost J: seq<int>, ghost e: int)
    returns (ghost J': seq<int>)
    requires I != V && Zoned(s, V[..], J, I[..], h, start, jj, kk, end, e)
    modifies I, V
    ensures Refined(s, old(V[..]), J, old(I[..]), V[..], J', I[..], h, start, jj, jj)
    ensures Open(s, V[..], J', I[..], h, jj, end, e) && Open(s, V[..], J', I[..], h, jj, kk, e)
    ensures forall p, q :: jj <= p < kk && jj <= q < kk ==> Agree(s, J'[p], J'[q], 2 * h)
    decreases jj - start, 3
  {
    ghost var V0, I0 := V[..], I[..];
    assert jj > start ==> Open(s, V0, J, I0, h, start, jj, e);
    J' := J;
    if jj > start {
      J' := Split(I, V, start, jj - start, h, s, J, e);
    }
    LeftDone(s, V0, J, I0, V[..], J', I[..], h, start, jj, kk, end, e);
    hide *;
  }

  /** Make the middle zone a run. */
  method SealMiddle(I: array<int>, V: array<int>, jj: int, kk: int, h: int, ghost end: int, ghost s: seq<Byte>, ghost J: seq<int>,
                    ghost e: int, ghost V1: seq<int>, ghost J1: seq<int>, ghost I1: seq<int>, ghost start: int)
    requires I != V && Refined(s, V1, J1, I1, V[..], J, I[..], h, start, jj, jj) && kk <= end
    requires Open(s, V[..], J, I[..], h, jj, end, e) && Open(s, V[..], J, I[..], h, jj, kk, e)
    requires forall p, q :: jj <= p < kk && jj <= q < kk ==> Agree(s, J[p], J[q], 2 * h)
    modifies I, V
    ensures Refined(s, V1, J1, I1, V[..], J, I[..], h, start, kk, kk)
    ensures kk < end ==> Open(s, V[..], J, I[..], h, kk, end, e)
  {
    ghost var V2, I2 := V[..], I[..];
    Seal(I, V, jj, kk - 1, h, s, J, e);
    MiddleDone(s, V1, J1, I1, V2, J, I2, V[..], I[..], h, start, jj, kk, end, e);
    hide *;
  }

  /** Split the upper zone, if there is one. */
  method SplitUpper(I: array<int>, V: array<int>, kk: int, end: int, h: int, ghost s: seq<Byte>, ghost J: seq<int>, ghost e: int,
                    ghost V0: seq<int>, ghost J0: seq<int>, ghost I0: seq<int>, ghost start: int)
    returns (ghost J': seq<int>)
    requires I != V && kk <= end && Refined(s, V0, J0, I0, V[..], J, I[..], h, start, kk, end)
    requires kk < end ==> Open(s, V[..], J, I[..], h, kk, end, e)
    modifies I, V
    ensures Refined(s, V0, J0, I0, V[..], J', I[..], h, start, end, end)
    decreases end - kk, 3
  {
    ghost var V1, I1 := V[..], I[..];
    hide *;
    J' := J;
    if end > kk {
      J' := Split(I, V, kk, end - kk, h, s, J, e);
      RefinedChain(s, V0, J0, I0, V1, J, I1, V[..], J', I[..], h, start, kk, end, end, end);
    }
  }

  /** split on 16 places or more: partition, and recurse on both sides of the pivot. */
  method SplitLong(I: array<int>, V: array<int>, start: int, len: int, h: int, ghost s: seq<Byte>, ghost J: seq<int>, ghost e: int)
    returns (ghost J': seq<int>)
    requires I != V && Open(s, V[..], J, I[..], h, start, start + len, e)
    modifies I, V
    ensures Refined(s, old(V[..]), J, old(I[..]), V[..], J', I[..], h, start, start + len, start + len)
    decreases len, 1
  {
    hide *;
    ghost var V0, I0 := V[..], I[..];
    var end := start + len;
    var jj, kk, J1 := Partition(I, V, start, len, h, s, J, e);
    ghost var I1 := I[..];
    var J2 := SplitLower(I, V, start, jj, h, kk, end, s, J1, e);
    SealMiddle(I, V, jj, kk, h, end, s, J2, e, V0, J1, I1, start);
    RefinedChain(s, V0, J, I0, V0, J1, I1, V[..], J2, I[..], h, start, start, kk, kk, end);
    J' := SplitUpper(I, V, kk, end, h, s, J2, e, V0, J, I0, start);
  }

  /**
   * split: sort the places start..start+len-1 of I, all equal under V, by the key V[I[p] + h], and
   * renumber them. V is read while it is being refined.
   */
  method Split(I: array<int>, V: array<int>, start: int, len: int, h: int, ghost s: seq<Byte>, ghost J: seq<int>, ghost e: int)
    returns (ghost J': seq<int>)
    requires I != V && Open(s, V[..], J, I[..], h, start, start + len, e)
    modifies I, V
    ensures Refined(s, old(V[..]), J, old(I[..]), V[..], J', I[..], h, start, start + len, start + len)
    decreases len, 2
  {
    hide *;
    if len < 16 {
      J' := SplitShort(I, V, start, start + len, h, s, J, e);
    } else {
      J' := SplitLong(I, V, start, len, h, s, J, e);
    }
  }
}
