/** Exactly which image patches applypatch/imgpatch.c accepts, and what they give. */
module ImgExact {
  import opened Bytes
  import opened Numbers
  import opened BsPatch
  import opened ImgFormat
  import opened ImgPatch

  /** Records, one after the other. */
  function EncodeAll(hs: seq<Header>): seq<Byte> { if hs == [] then [] else Encode(hs[0]) + EncodeAll(hs[1..]) }

  ghost predicate AllFits(hs: seq<Header>) { forall k :: 0 <= k < |hs| ==> Fits(hs[k]) }

  /** The patch at this place of the file makes these bytes of the source. */
  ghost predicate Patched(c: Codec, source: seq<Byte>, blob: seq<Byte>, at: int, bytes: seq<Byte>) { Apply(c, source, blob, at) == Some(bytes) }

  /**
   * The record h gives these bytes for chunk number i: those it holds; or those that its patch makes of a slice of the
   * source, none if the patch cannot be applied; or those that deflate makes of what the patch makes of the expanded
   * slice, with the bonus data behind that of chunk 1, if it has the length stated.
   */
  ghost predicate Gives(c: Codec, z: Zlib, src: seq<Byte>, blob: seq<Byte>, bonus: Option<seq<Byte>>, i: int, h: Header, bytes: seq<Byte>) {
    match h
    case RawHeader(data) => bytes == data
    case NormalHeader(start, len, at) =>
      && 0 <= start && 0 <= len && start + len <= |src|
      && (Patched(c, src[start..start + len], blob, at, bytes)
          || (bytes == [] && Apply(c, src[start..start + len], blob, at).None?))
    case DeflateHeader(start, len, at, expandedLen, _, params) =>
      && 0 <= start && 0 <= len && start + len <= |src|
      && exists x: seq<Byte>, y: seq<Byte> ::
           && z.inflate(src[start..start + len]) == Some(x)
           && |x| + (if i == 1 && bonus.Some? then |bonus.value| else 0) == expandedLen
           && Patched(c, x + (if i == 1 && bonus.Some? then bonus.value else []), blob, at, y)
           && bytes == z.deflate(params, y)
  }

  lemma GivesExactly(c: Codec, z: Zlib, src: seq<Byte>, blob: seq<Byte>, bonus: Option<seq<Byte>>, i: int, h: Header, bytes: seq<Byte>)
    ensures ChunkOutput(c, z, src, blob, bonus, i, h) == Some(bytes) <==> Gives(c, z, src, blob, bonus, i, h, bytes)
  {
    hide Apply;
    match h
    case RawHeader(_) =>
    case NormalHeader(start, len, at) =>
      if 0 <= start && 0 <= len && start + len <= |src| {
        var r := Apply(c, src[start..start + len], blob, at);
        assert r.Some? ==> Patched(c, src[start..start + len], blob, at, r.value);
      }
    case DeflateHeader(start, len, at, expandedLen, _, params) =>
      if ChunkOutput(c, z, src, blob, bonus, i, h).Some? {
        var x := z.inflate(src[start..start + len]).value;
        var y := Apply(c, x + BonusFor(bonus, i), blob, at).value;
        assert Patched(c, x + (if i == 1 && bonus.Some? then bonus.value else []), blob, at, y);
      }
  }

  ghost predicate AllGive(c: Codec, z: Zlib, src: seq<Byte>, blob: seq<Byte>, bonus: Option<seq<Byte>>, i: int, hs: seq<Header>, outs: seq<seq<Byte>>) {
    |outs| == |hs| && forall k :: 0 <= k < |hs| ==> Gives(c, z, src, blob, bonus, i + k, hs[k], outs[k])
  }

  lemma AllGiveFirst(c: Codec, z: Zlib, src: seq<Byte>, blob: seq<Byte>, bonus: Option<seq<Byte>>, i: int, hs: seq<Header>, outs: seq<seq<Byte>>)
    requires |hs| == |outs| > 0
    ensures AllGive(c, z, src, blob, bonus, i, hs, outs) <==>
      Gives(c, z, src, blob, bonus, i, hs[0], outs[0]) && AllGive(c, z, src, blob, bonus, i + 1, hs[1..], outs[1..])
  {
    hide Gives;
    if AllGive(c, z, src, blob, bonus, i, hs, outs) {
      assert Gives(c, z, src, blob, bonus, i + 0, hs[0], outs[0]);
      forall k | 0 <= k < |hs[1..]|
        ensures Gives(c, z, src, blob, bonus, i + 1 + k, hs[1..][k], outs[1..][k])
      {
        assert Gives(c, z, src, blob, bonus, i + (k + 1), hs[k + 1], outs[k + 1]);
        assert i + (k + 1) == i + 1 + k;
      }
    }
    if Gives(c, z, src, blob, bonus, i, hs[0], outs[0]) && AllGive(c, z, src, blob, bonus, i + 1, hs[1..], outs[1..]) {
      forall k | 0 <= k < |hs|
        ensures Gives(c, z, src, blob, bonus, i + k, hs[k], outs[k])
      {
        if k > 0 {
          assert Gives(c, z, src, blob, bonus, i + 1 + (k - 1), hs[1..][k - 1], outs[1..][k - 1]);
          assert i + 1 + (k - 1) == i + k;
        }
      }
    }
  }

  /** From pos on the file holds so many records, and they give these bytes. */
  ghost predicate Reads(c: Codec, z: Zlib, src: seq<Byte>, blob: seq<Byte>, bonus: Option<seq<Byte>>, i: int, n: int, pos: int,
                        hs: seq<Header>, outs: seq<seq<Byte>>) {
    && |hs| == |outs| == (if i < n then n - i else 0) && AllFits(hs) && AllGive(c, z, src, blob, bonus, i, hs, outs)
    && 0 <= pos && pos + |EncodeAll(hs)| <= |blob| && blob[pos..pos + |EncodeAll(hs)|] == EncodeAll(hs)
  }

  lemma TwoPieces(blob: seq<Byte>, at: int, a: seq<Byte>, b: seq<Byte>)
    requires 0 <= at && at + |a| + |b| <= |blob|
    ensures var mid := at + |a|; blob[at..mid + |b|] == a + b <==> blob[at..mid] == a && blob[mid..mid + |b|] == b
  {
    var mid := at + |a|;
    var p, q := blob[at..mid], blob[mid..mid + |b|];
    assert blob[at..mid + |b|] == p + q;
    Unappend(a, b);
    Unappend(p, q);
  }

  lemma ReadsFirst(c: Codec, z: Zlib, src: seq<Byte>, blob: seq<Byte>, bonus: Option<seq<Byte>>, i: int, n: int, pos: int,
                   hs: seq<Header>, outs: seq<seq<Byte>>)
    requires i < n && |hs| == |outs| == n - i && 0 <= pos <= |blob|
    ensures Reads(c, z, src, blob, bonus, i, n, pos, hs, outs) <==>
      && Decode(blob, pos) == Some((hs[0], pos + HeaderSize(hs[0]))) && ChunkOutput(c, z, src, blob, bonus, i, hs[0]) == Some(outs[0])
      && Reads(c, z, src, blob, bonus, i + 1, n, pos + HeaderSize(hs[0]), hs[1..], outs[1..])
  {
    hide Decode, ChunkOutput, Gives, Encode, Fits, AllGive, Apply;
    var h, rest := hs[0], EncodeAll(hs[1..]);
    DecodesExactly(blob, pos, h);
    GivesExactly(c, z, src, blob, bonus, i, h, outs[0]);
    AllGiveFirst(c, z, src, blob, bonus, i, hs, outs);
    assert AllFits(hs) <==> Fits(h) && AllFits(hs[1..]) by {
      assert hs == [h] + hs[1..];
    }
    if pos + |Encode(h)| + |rest| <= |blob| {
      TwoPieces(blob, pos, Encode(h), rest);
    }
  }

  lemma {:induction false} ChunksRead(c: Codec, z: Zlib, src: seq<Byte>, blob: seq<Byte>, bonus: Option<seq<Byte>>, i: int, n: int, pos: int, out: seq<Byte>)
    returns (hs: seq<Header>, outs: seq<seq<Byte>>)
    requires 0 <= pos <= |blob| && ApplyChunks(c, z, src, blob, bonus, i, n, pos, out).Some?
    ensures Reads(c, z, src, blob, bonus, i, n, pos, hs, outs) && ApplyChunks(c, z, src, blob, bonus, i, n, pos, out) == Some(out + Flat(outs))
    decreases n - i
  {
    hide Decode, ChunkOutput, Gives;
    if i >= n {
      hs, outs := [], [];
      assert out + [] == out;
    } else {
      var (h, end) := Decode(blob, pos).value;
      var o := ChunkOutput(c, z, src, blob, bonus, i, h).value;
      DecodesExactly(blob, pos, h);
      var hs', outs' := ChunksRead(c, z, src, blob, bonus, i + 1, n, end, out + o);
      hs, outs := [h] + hs', [o] + outs';
      assert hs[1..] == hs' && outs[1..] == outs';
      ReadsFirst(c, z, src, blob, bonus, i, n, pos, hs, outs);
      Reappend(out, o, Flat(outs'));
    }
  }

  lemma {:induction false} ChunksGive(c: Codec, z: Zlib, src: seq<Byte>, blob: seq<Byte>, bonus: Option<seq<Byte>>, i: int, n: int, pos: int, out: seq<Byte>,
                                      hs: seq<Header>, outs: seq<seq<Byte>>)
    requires 0 <= pos <= |blob| && Reads(c, z, src, blob, bonus, i, n, pos, hs, outs)
    ensures ApplyChunks(c, z, src, blob, bonus, i, n, pos, out) == Some(out + Flat(outs))
    decreases n - i
  {
    hide Decode, ChunkOutput, Gives, AllGive, AllFits, Encode, EncodeAll, Fits, Apply;
    if i >= n {
      assert out + [] == out;
    } else {
      ReadsFirst(c, z, src, blob, bonus, i, n, pos, hs, outs);
      DecodesExactly(blob, pos, hs[0]);
      ChunksGive(c, z, src, blob, bonus, i + 1, n, pos + HeaderSize(hs[0]), out + outs[0], hs[1..], outs[1..]);
      Reappend(out, outs[0], Flat(outs[1..]));
    }
  }

  /**
   * An image patch gives an output exactly if it begins with its tag and a count, as many records follow as the count
   * says, none if it is negative, and each gives its bytes; the output is theirs, one after the other.
   */
  lemma ImageExactly(c: Codec, z: Zlib, src: seq<Byte>, blob: seq<Byte>, bonus: Option<seq<Byte>>, out: seq<Byte>)
    ensures ApplyImage(c, z, src, blob, bonus) == Some(out) <==>
      && |blob| >= 12 && blob[..8] == IMG_MAGIC
      && exists hs, outs :: Reads(c, z, src, blob, bonus, 0, ReadAt4(blob, 8), 12, hs, outs) && out == Flat(outs)
  {
    hide ApplyChunks, Reads, ReadAt4, Flat;
    if |blob| >= 12 && blob[..8] == IMG_MAGIC {
      var n := ReadAt4(blob, 8);
      if ApplyImage(c, z, src, blob, bonus) == Some(out) {
        var hs, outs := ChunksRead(c, z, src, blob, bonus, 0, n, 12, []);
        assert [] + Flat(outs) == Flat(outs);
      }
      forall hs, outs | Reads(c, z, src, blob, bonus, 0, n, 12, hs, outs) && out == Flat(outs)
        ensures ApplyImage(c, z, src, blob, bonus) == Some(out)
      {
        ChunksGive(c, z, src, blob, bonus, 0, n, 12, [], hs, outs);
        assert [] + Flat(outs) == Flat(outs);
      }
    }
  }
}
