/** The order of the suffixes of a byte string, and the partial orders that refine to it. */
module SuffixOrder {
  import opened Bytes

  /** Suffix i of s comes strictly before suffix j in lexicographic order (the empty suffix first). */
  ghost predicate Less(s: seq<Byte>, i: int, j: int)
    requires 0 <= i <= |s| && 0 <= j <= |s|
    decreases |s| - j
  {
    j < |s| && (i == |s| || s[i] < s[j] || (s[i] == s[j] && Less(s, i + 1, j + 1)))
  }

  /** Suffixes i and j are the same one, or have the same first h bytes. */
  ghost predicate Agree(s: seq<Byte>, i: int, j: int, h: int)
    requires 0 <= i <= |s| && 0 <= j <= |s| && 0 <= h
  {
    i == j || (i + h <= |s| && j + h <= |s| && s[i..i + h] == s[j..j + h])
  }

  lemma {:induction false} LessSkipsPrefix(s: seq<Byte>, i: int, j: int, h: int)
    requires 0 <= i <= |s| && 0 <= j <= |s| && 0 <= h
    requires i != j && Agree(s, i, j, h)
    ensures Less(s, i, j) == Less(s, i + h, j + h)
    decreases h
  {
    if h > 0 {
      assert s[i] == s[i..i + h][0] == s[j..j + h][0] == s[j];
      assert s[i + 1..i + h] == s[i..i + h][1..] == s[j..j + h][1..] == s[j + 1..j + h];
      LessSkipsPrefix(s, i + 1, j + 1, h - 1);
    }
  }

  lemma AgreeTwice(s: seq<Byte>, i: int, j: int, h: int)
    requires 0 <= i <= |s| && 0 <= j <= |s| && 0 <= h
    requires i + h <= |s| && j + h <= |s|
    requires Agree(s, i, j, h) && Agree(s, i + h, j + h, h)
    ensures Agree(s, i, j, 2 * h)
  {
    if i != j {
      assert s[i..i + 2 * h] == s[i..i + h] + s[i + h..i + 2 * h];
      assert s[j..j + 2 * h] == s[j..j + h] + s[j + h..j + 2 * h];
    }
  }

  /** Distinct indices into a sequence of the same length: a permutation of 0..|J|-1. */
  ghost predicate Perm(J: seq<int>) {
    && (forall p :: 0 <= p < |J| ==> 0 <= J[p] < |J|)
    && (forall p, q :: 0 <= p < q < |J| ==> J[p] != J[q])
  }

  /** I lists every suffix of s, the empty one included, in strictly increasing order. */
  ghost predicate SuffixArray(s: seq<Byte>, I: seq<int>) {
    && |I| == |s| + 1
    && Perm(I)
    && forall p, q :: 0 <= p < q < |I| ==> Less(s, I[p], I[q])
  }

  lemma {:induction false} DistinctAtMost(J: seq<int>, n: nat)
    requires forall p :: 0 <= p < |J| ==> 0 <= J[p] < n
    requires forall p, q :: 0 <= p < q < |J| ==> J[p] != J[q]
    ensures |J| <= n
  {
    assert |J| > 0 ==> 0 <= J[0] < n;
    if n == 0 {
    } else if p :| 0 <= p < |J| && J[p] == n - 1 {
      DistinctAtMost(J[..p] + J[p + 1..], n - 1);
    } else {
      DistinctAtMost(J, n - 1);
    }
  }

  /** Pigeonhole: a permutation reaches every index; this is the place of index i. */
  ghost function Place(J: seq<int>, i: int): (p: int)
    requires Perm(J) && 0 <= i < |J|
    ensures 0 <= p < |J| && J[p] == i
  {
    assert i in J by {
      if i !in J {
        DistinctAtMost(J + [i], |J|);
      }
    }
    var p :| 0 <= p < |J| && J[p] == i;
    p
  }

  /**
   * V orders the suffixes no finer than, and never against, their true order, and tells apart any two
   * that differ within their first h bytes.
   */
  ghost predicate Coarse(s: seq<Byte>, V: seq<int>, h: int)
    requires 0 <= h
  {
    && |V| == |s| + 1
    && (forall i :: 0 <= i <= |s| ==> 0 <= V[i] <= |s|)
    && (forall i, j :: 0 <= i <= |s| && 0 <= j <= |s| && V[i] < V[j] ==> Less(s, i, j))
    && (forall i, j :: 0 <= i <= |s| && 0 <= j <= |s| && V[i] == V[j] ==> Agree(s, i, j, h))
  }

  /** Along the arrangement J, V numbers each run of equals by the last index of the run. */
  ghost predicate Labels(V: seq<int>, J: seq<int>) {
    && |V| == |J| && Perm(J)
    && (forall p :: 0 <= p < |J| ==> p <= V[J[p]] < |J|)
    && (forall p :: 0 <= p < |J| ==> V[J[V[J[p]]]] == V[J[p]])
    && (forall p, q :: 0 <= p < q < |J| ==> V[J[p]] <= V[J[q]])
  }

  /** The run of equals that starts at p is p alone. */
  ghost predicate Single(V: seq<int>, J: seq<int>, p: int)
    requires |V| == |J| && Perm(J) && 0 <= p < |J|
  {
    V[J[p]] == p && (p > 0 ==> V[J[p - 1]] < p)
  }

  ghost predicate RunStart(V: seq<int>, J: seq<int>, k: int)
    requires |V| == |J| && Perm(J) && 0 <= k <= |J|
  {
    k > 0 ==> V[J[k - 1]] < k
  }

  lemma SwapKeepsPerm(J: seq<int>, a: int, b: int)
    requires Perm(J) && 0 <= a < |J| && 0 <= b < |J|
    ensures Perm(Swap(J, a, b))
  {
  }

  /** Rearranging equals leaves the numbering as it was. */
  lemma SameLabels(V: seq<int>, J: seq<int>, J': seq<int>)
    requires Labels(V, J) && |J'| == |J| && Perm(J')
    requires forall p :: 0 <= p < |J| ==> V[J'[p]] == V[J[p]]
    ensures Labels(V, J')
  {
  }

  /** Positions k..m of the run k..e become a run of their own. */
  ghost predicate Relabelled(V: seq<int>, V': seq<int>, J: seq<int>, k: int, m: int)
    requires |V| == |V'| == |J| && Perm(J) && 0 <= k <= m < |J|
  {
    && (forall p :: k <= p <= m ==> V'[J[p]] == m)
    && (forall p :: 0 <= p < k || m < p < |J| ==> V'[J[p]] == V[J[p]])
  }

  lemma RelabelKeepsLabels(V: seq<int>, V': seq<int>, J: seq<int>, k: int, m: int, e: int)
    requires Labels(V, J) && |V'| == |V|
    requires 0 <= k <= m <= e < |J| && V[J[k]] == e && RunStart(V, J, k)
    requires Relabelled(V, V', J, k, m)
    ensures Labels(V', J)
    ensures RunStart(V', J, k) && RunStart(V', J, m + 1)
    ensures m < e ==> V'[J[m + 1]] == e
  {
    assert V[J[e]] == e;
    assert forall p :: k <= p <= e ==> V[J[p]] == e;
    assert forall p :: 0 <= p < k ==> V[J[p]] < k by {
      forall p | 0 <= p < k ensures V[J[p]] < k {
        assert p == k - 1 || V[J[p]] <= V[J[k - 1]];
      }
    }
    forall p | 0 <= p < |J| ensures V'[J[V'[J[p]]]] == V'[J[p]] {
      if p > m {
        assert V[J[p]] >= p > m;
      }
    }
  }

  /** The heart of the sort: splitting a run between two separated parts keeps V a coarsening. */
  lemma RelabelKeepsCoarse(s: seq<Byte>, V: seq<int>, V': seq<int>, J: seq<int>, h: int, k: int, m: int, e: int)
    requires 0 <= h && Coarse(s, V, h) && Labels(V, J) && |V'| == |V|
    requires 0 <= k <= m <= e < |J| && V[J[k]] == e && RunStart(V, J, k)
    requires Relabelled(V, V', J, k, m)
    requires forall p, q :: k <= p <= m < q <= e ==> Less(s, J[p], J[q])
    ensures Coarse(s, V', h)
  {
    assert V[J[e]] == e;
    assert forall p :: k <= p <= e ==> V[J[p]] == e;
    assert forall p :: 0 <= p < k ==> V[J[p]] < k by {
      forall p | 0 <= p < k ensures V[J[p]] < k {
        assert p == k - 1 || V[J[p]] <= V[J[k - 1]];
      }
    }
    assert forall p :: e < p < |J| ==> V[J[p]] > e;
    forall i | 0 <= i <= |s| ensures 0 <= V'[i] <= |s| {
      var p := Place(J, i);
    }
    forall i, j | 0 <= i <= |s| && 0 <= j <= |s| && V'[i] < V'[j] ensures Less(s, i, j) {
      var p := Place(J, i);
      var q := Place(J, j);
      assert V[i] < V[j] || (k <= p <= m < q <= e);
    }
    forall i, j | 0 <= i <= |s| && 0 <= j <= |s| && V'[i] == V'[j] ensures Agree(s, i, j, h) {
      var p := Place(J, i);
      var q := Place(J, j);
      assert V[i] == V[j];
    }
  }
}
