/** Loading a prefix of a partition by the sizes and digests it may have: LoadPartitionContents of applypatch/applypatch.c. */
module PartitionLoad {
  import opened Bytes
  import Sha1Text

  /** A hash that takes its input in pieces, as SHA_init, SHA_update and SHA_final do. */
  datatype Hasher<!S> = Hasher(init: S, update: (S, seq<Byte>) -> S, final: S -> seq<Byte>)

  /** Taking pieces one after the other is taking them together. */
  ghost predicate Streams<S(!new)>(h: Hasher<S>) {
    && (forall s: S, a: seq<Byte>, b: seq<Byte> :: h.update(h.update(s, a), b) == h.update(s, a + b))
    && (forall s: S :: h.update(s, []) == s)
  }

  function Digest<S>(h: Hasher<S>, x: seq<Byte>): seq<Byte> { h.final(h.update(h.init, x)) }

  /** A size and the digest, in digits, of the contents of that size. */
  datatype Pair = Pair(size: nat, sha1: string)

  datatype File = File(data: seq<Byte>, sha1: seq<Byte>)

  /** The first so many bytes of the device have the digest of the pair. */
  predicate Matches<S>(h: Hasher<S>, device: seq<Byte>, p: Pair) {
    p.size <= |device| && Sha1Text.Parse(p.sha1) == Some(Digest(h, device[..p.size]))
  }

  /** What qsort may leave in index: every pair once, in order of size. */
  ghost predicate InOrder(index: seq<nat>, pairs: seq<Pair>) {
    && |index| == |pairs| && (forall i :: 0 <= i < |index| ==> index[i] < |pairs|)
    && (forall i, j :: 0 <= i < j < |index| ==> index[i] != index[j] && pairs[index[i]].size <= pairs[index[j]].size)
    && (forall k :: 0 <= k < |pairs| ==> k in index)
  }

  predicate AllPositive(pairs: seq<Pair>) { forall k :: 0 <= k < |pairs| ==> pairs[k].size > 0 }

  /** The pair at place i of the order decides the load: it matches, and those before it can be read but do not match. */
  ghost predicate Decides<S>(h: Hasher<S>, device: seq<Byte>, pairs: seq<Pair>, index: seq<nat>, i: int)
    requires InOrder(index, pairs)
  {
    && 0 <= i < |index| && Matches(h, device, pairs[index[i]])
    && forall j :: 0 <= j < i ==> !Matches(h, device, pairs[index[j]]) && Sha1Text.Parse(pairs[index[j]].sha1).Some?
  }

  /** The first i pairs of the order were read and did not match. */
  ghost predicate Passed<S>(h: Hasher<S>, device: seq<Byte>, pairs: seq<Pair>, index: seq<nat>, i: int)
    requires InOrder(index, pairs)
  {
    0 <= i <= |index| && forall j :: 0 <= j < i ==> !Matches(h, device, pairs[index[j]]) && Sha1Text.Parse(pairs[index[j]].sha1).Some?
  }

  /** A pair that cannot be read, or whose digest cannot, ends the load without a decision. */
  lemma NoneDecides<S>(h: Hasher<S>, device: seq<Byte>, pairs: seq<Pair>, index: seq<nat>, i: int)
    requires InOrder(index, pairs) && Passed(h, device, pairs, index, i)
    requires i < |index| ==> pairs[index[i]].size > |device| || Sha1Text.Parse(pairs[index[i]].sha1).None?
    ensures forall d :: !Decides(h, device, pairs, index, d)
  {
    hide Sha1Text.Parse, Digest;
    forall d
      ensures !Decides(h, device, pairs, index, d)
    {
      if i < d < |index| {
        assert pairs[index[i]].size <= pairs[index[d]].size;
      }
    }
  }

  method CheckSizes(pairs: seq<Pair>) returns (ok: bool)
    ensures ok == AllPositive(pairs)
  {
    var k := 0;
    while k < |pairs|
      invariant 0 <= k <= |pairs| && forall j :: 0 <= j < k ==> pairs[j].size > 0
    {
      if pairs[k].size == 0 {
        return false;
      }
      k := k + 1;
    }
    ok := true;
  }

  datatype Tried = Unreadable | Different | Matched

  /** Reading up to the next size, hashing what was read, and comparing. */
  method Try<S(!new)>(h: Hasher<S>, device: seq<Byte>, p: Pair, data: seq<Byte>, ctx: S) returns (t: Tried, data': seq<Byte>, ctx': S)
    requires Streams(h) && |data| <= p.size && data <= device && ctx == h.update(h.init, data)
    ensures t == Unreadable <==> p.size > |device| || Sha1Text.Parse(p.sha1).None?
    ensures t != Unreadable ==> data' == device[..p.size] && ctx' == h.update(h.init, data') && (t == Matched <==> Matches(h, device, p))
  {
    hide Sha1Text.Parse;
    t, data', ctx' := Unreadable, data, ctx;
    if p.size > |data| {
      if p.size > |device| {
        return;
      }
      var piece := device[|data|..p.size];
      assert data + piece == device[..p.size];
      ctx' := h.update(ctx, piece);
      data' := data + piece;
    }
    var parsed := Sha1Text.ParseSha1(p.sha1);
    if parsed.Some? {
      t := if h.final(ctx') == parsed.value then Matched else Different;
    }
  }

  /**
   * LoadPartitionContents, from the list of pairs and an order of it by size on. The context of the hash always holds
   * what was read so far, although it is fed piece by piece and a copy of it is finished for every pair.
   */
  method Load<S(!new)>(h: Hasher<S>, device: seq<Byte>, pairs: seq<Pair>, index: seq<nat>) returns (r: Option<File>)
    requires Streams(h) && pairs != [] && InOrder(index, pairs)
    ensures r.Some? ==> AllPositive(pairs) && exists i ::
      Decides(h, device, pairs, index, i) && r.value == File(device[..pairs[index[i]].size], Digest(h, device[..pairs[index[i]].size]))
    ensures r.None? ==> !AllPositive(pairs) || forall i :: !Decides(h, device, pairs, index, i)
  {
    hide Sha1Text.Parse, AllPositive, Streams;
    var ok := CheckSizes(pairs);
    if !ok {
      return None;
    }
    var ctx, data := h.init, [];
    Nothing(h);
    var i := 0;
    while i < |pairs|
      invariant Passed(h, device, pairs, index, i) && data <= device && ctx == h.update(h.init, data)
      invariant i < |pairs| ==> |data| <= pairs[index[i]].size
    {
      var t;
      t, data, ctx := Try(h, device, pairs[index[i]], data, ctx);
      if t == Unreadable {
        NoneDecides(h, device, pairs, index, i);
        return None;
      }
      if t == Matched {
        assert Decides(h, device, pairs, index, i);
        return Some(File(data, h.final(ctx)));
      }
      i := i + 1;
    }
    NoneDecides(h, device, pairs, index, i);
    r := None;
  }

  lemma Nothing<S(!new)>(h: Hasher<S>)
    requires Streams(h)
    ensures h.init == h.update(h.init, [])
  {
  }

  /** Whatever order qsort leaves: what is loaded is the shortest of the listed prefixes whose digest matches its pair. */
  lemma Shortest<S>(h: Hasher<S>, device: seq<Byte>, pairs: seq<Pair>, index: seq<nat>, i: int, k: int)
    requires InOrder(index, pairs) && Decides(h, device, pairs, index, i)
    requires 0 <= k < |pairs| && Matches(h, device, pairs[k])
    ensures pairs[index[i]].size <= pairs[k].size
  {
    hide Matches;
    assert k in index;
    var j :| 0 <= j < |index| && index[j] == k;
  }

  /** With digests that can all be read, the load succeeds exactly if some listed prefix matches, in whatever order. */
  lemma {:induction false} DecidedIffMatched<S>(h: Hasher<S>, device: seq<Byte>, pairs: seq<Pair>, index: seq<nat>)
    requires InOrder(index, pairs) && forall k :: 0 <= k < |pairs| ==> Sha1Text.Parse(pairs[k].sha1).Some?
    ensures (exists i :: Decides(h, device, pairs, index, i)) <==> exists k :: 0 <= k < |pairs| && Matches(h, device, pairs[k])
  {
    hide Matches, Sha1Text.Parse;
    if k :| 0 <= k < |pairs| && Matches(h, device, pairs[k]) {
      assert k in index;
      var j :| 0 <= j < |index| && index[j] == k;
      var i := FirstMatch(h, device, pairs, index, j);
      assert Decides(h, device, pairs, index, i);
    }
    if i :| Decides(h, device, pairs, index, i) {
      assert Matches(h, device, pairs[index[i]]);
    }
  }

  lemma {:induction false} FirstMatch<S>(h: Hasher<S>, device: seq<Byte>, pairs: seq<Pair>, index: seq<nat>, j: nat) returns (i: nat)
    requires InOrder(index, pairs) && j < |index| && Matches(h, device, pairs[index[j]])
    ensures i <= j && Matches(h, device, pairs[index[i]]) && forall m :: 0 <= m < i ==> !Matches(h, device, pairs[index[m]])
    decreases j
  {
    hide Matches;
    if m: nat :| m < j && Matches(h, device, pairs[index[m]]) {
      i := FirstMatch(h, device, pairs, index, m);
    } else {
      i := j;
    }
  }
}
