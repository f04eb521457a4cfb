/** ApplyImagePatch of applypatch/imgpatch.c, and the layout of the file it reads. */
module ImgPatch {
  import opened Bytes
  import opened Numbers
  import opened BsPatch
  import opened ImgFormat

  /** The bonus data goes with chunk 1 alone. */
  function BonusFor(bonus: Option<seq<Byte>>, i: int): seq<Byte> {
    if i == 1 && bonus.Some? then bonus.value else []
  }

  predicate InRange(src: seq<Byte>, start: int, len: int) {
    0 <= start && 0 <= len && start + len <= |src|
  }

  /**
   * The bytes record h of a patch gives for chunk i; None when the whole application is abandoned. The
   * result of patching a normal chunk is not looked at: a failure there just contributes nothing.
   */
  function ChunkOutput(c: Codec, z: Zlib, src: seq<Byte>, blob: seq<Byte>, bonus: Option<seq<Byte>>, i: int, h: Header): Option<seq<Byte>> {
    match h
    case NormalHeader(start, len, offset) =>
      if !InRange(src, start, len) then None
      else
        var r := Apply(c, src[start..start + len], blob, offset);
        Some(if r.Some? then r.value else [])
    case RawHeader(data) => Some(data)
    case DeflateHeader(start, len, offset, expandedLen, _, params) =>
      if !InRange(src, start, len) then None
      else
        var inflated := z.inflate(src[start..start + len]);
        var extra := BonusFor(bonus, i);
        if inflated.None? || |inflated.value| + |extra| != expandedLen then None
        else
          var r := Apply(c, inflated.value + extra, blob, offset);
          if r.None? then None else Some(z.deflate(params, r.value))
  }

  /** The records from the i-th on, read from pos, added to the output so far. */
  function ApplyChunks(c: Codec, z: Zlib, src: seq<Byte>, blob: seq<Byte>, bonus: Option<seq<Byte>>, i: int, n: int, pos: int, out: seq<Byte>)
    : Option<seq<Byte>>
    requires 0 <= pos
    decreases n - i
  {
    if i >= n then Some(out)
    else
      var d := Decode(blob, pos);
      if d.None? then None
      else
        var o := ChunkOutput(c, z, src, blob, bonus, i, d.value.0);
        if o.None? then None else ApplyChunks(c, z, src, blob, bonus, i + 1, n, d.value.1, out + o.value)
  }

  function ApplyImage(c: Codec, z: Zlib, src: seq<Byte>, blob: seq<Byte>, bonus: Option<seq<Byte>>): Option<seq<Byte>> {
    if |blob| < 12 || blob[..8] != IMG_MAGIC then None
    else ApplyChunks(c, z, src, blob, bonus, 0, ReadAt4(blob, 8), 12, [])
  }

  lemma NextChunk(c: Codec, z: Zlib, src: seq<Byte>, blob: seq<Byte>, bonus: Option<seq<Byte>>, i: int, n: int, pos: int, out: seq<Byte>)
    requires 0 <= pos && i < n && Decode(blob, pos).Some? && ChunkOutput(c, z, src, blob, bonus, i, Decode(blob, pos).value.0).Some?
    ensures var (h, pos') := Decode(blob, pos).value; var o := ChunkOutput(c, z, src, blob, bonus, i, h).value;
            ApplyChunks(c, z, src, blob, bonus, i, n, pos, out) == ApplyChunks(c, z, src, blob, bonus, i + 1, n, pos', out + o)
  {
    hide Decode, ChunkOutput;
  }

  /** One record applied. */
  method ApplyRecord(c: Codec, z: Zlib, src: seq<Byte>, blob: seq<Byte>, bonus: Option<seq<Byte>>, i: int, h: Header) returns (r: Option<seq<Byte>>)
    ensures r == ChunkOutput(c, z, src, blob, bonus, i, h)
  {
    hide Apply;
    match h {
      case NormalHeader(start, len, offset) =>
        if !InRange(src, start, len) {
          return None;
        }
        var patched := ApplyBSDiffPatchMem(c, src[start..start + len], blob, offset);
        r := Some(if patched.Some? then patched.value else []);
      case RawHeader(data) =>
        r := Some(data);
      case DeflateHeader(start, len, offset, expandedLen, targetLen, params) =>
        if !InRange(src, start, len) {
          return None;
        }
        var bonusSize := if i == 1 && bonus.Some? then |bonus.value| else 0;
        var inflated := z.inflate(src[start..start + len]);
        if inflated.None? || |inflated.value| + bonusSize != expandedLen {
          return None;
        }
        var expanded := inflated.value;
        if bonusSize != 0 {
          expanded := expanded + bonus.value;
        } else {
          assert expanded + BonusFor(bonus, i) == expanded;
        }
        var patched := ApplyBSDiffPatchMem(c, expanded, blob, offset);
        r := if patched.None? then None else Some(z.deflate(params, patched.value));
    }
  }

  /** ApplyImagePatch, with a sink that takes every byte. */
  method ApplyImagePatch(c: Codec, z: Zlib, src: seq<Byte>, blob: seq<Byte>, bonus: Option<seq<Byte>>) returns (r: Option<seq<Byte>>)
    ensures r == ApplyImage(c, z, src, blob, bonus)
  {
    hide Decode, ChunkOutput, ReadAt4;
    var pos, out := 12, [];
    if |blob| < 12 {
      return None;
    }
    if blob[..8] != IMG_MAGIC {
      return None;
    }
    var numChunks := ReadAt4(blob, 8);
    var i := 0;
    while i < numChunks
      invariant 0 <= pos && 0 <= i
      invariant ApplyImage(c, z, src, blob, bonus) == ApplyChunks(c, z, src, blob, bonus, i, numChunks, pos, out)
      invariant i >= numChunks ==> ApplyChunks(c, z, src, blob, bonus, i, numChunks, pos, out) == Some(out)
    {
      var d := Decode(blob, pos);
      if d.None? {
        return None;
      }
      var o := ApplyRecord(c, z, src, blob, bonus, i, d.value.0);
      if o.None? {
        return None;
      }
      NextChunk(c, z, src, blob, bonus, i, numChunks, pos, out);
      out, pos, i := out + o.value, d.value.1, i + 1;
    }
    r := Some(out);
  }

  /** A record to be written, with the patch that goes with it ([] for a raw record, whose data is in the header). */
  datatype Record = Record(header: Header, payload: seq<Byte>)

  function SetOffset(h: Header, offset: int): Header {
    match h
    case NormalHeader(s, l, _) => NormalHeader(s, l, offset)
    case RawHeader(data) => h
    case DeflateHeader(s, l, _, e, t, p) => DeflateHeader(s, l, offset, e, t, p)
  }

  function Headers(rs: seq<Record>, offset: int): seq<Byte> {
    if rs == [] then [] else Encode(SetOffset(rs[0].header, offset)) + Headers(rs[1..], offset + |rs[0].payload|)
  }

  function Payloads(rs: seq<Record>): seq<Byte> {
    if rs == [] then [] else rs[0].payload + Payloads(rs[1..])
  }

  function HeadersSize(rs: seq<Record>): nat {
    if rs == [] then 0 else HeaderSize(rs[0].header) + HeadersSize(rs[1..])
  }

  lemma SameSize(h: Header, offset: int)
    ensures HeaderSize(SetOffset(h, offset)) == HeaderSize(h)
  {
  }

  lemma {:induction false} HeadersLength(rs: seq<Record>, offset: int)
    ensures |Headers(rs, offset)| == HeadersSize(rs)
  {
    hide Encode, SetOffset, HeaderSize;
    if rs != [] {
      SameSize(rs[0].header, offset);
      HeadersLength(rs[1..], offset + |rs[0].payload|);
    }
  }

  /** The patch file: magic, count, the records with the offsets their patches will have, the patches. */
  function File(rs: seq<Record>): seq<Byte> {
    IMG_MAGIC + (Write4(|rs|) + (Headers(rs, 12 + HeadersSize(rs)) + Payloads(rs)))
  }

  /** Record r, for chunk i, yields these bytes wherever its patch stands. */
  ghost predicate Yields(c: Codec, z: Zlib, src: seq<Byte>, bonus: Option<seq<Byte>>, i: int, r: Record, bytes: seq<Byte>) {
    forall pre: seq<Byte>, post: seq<Byte> ::
      ChunkOutput(c, z, src, pre + r.payload + post, bonus, i, SetOffset(r.header, |pre|)) == Some(bytes)
  }

  ghost predicate AllYield(c: Codec, z: Zlib, src: seq<Byte>, bonus: Option<seq<Byte>>, i: int, rs: seq<Record>, outs: seq<seq<Byte>>)
    requires |rs| == |outs|
  {
    forall k :: 0 <= k < |rs| ==> Yields(c, z, src, bonus, i + k, rs[k], outs[k])
  }

  function Flat(ss: seq<seq<Byte>>): seq<Byte> {
    if ss == [] then [] else ss[0] + Flat(ss[1..])
  }

  /** Every number written fits: the fields of the records, and the offsets up to the end of the file. */
  ghost predicate AllFit(rs: seq<Record>, end: int) {
    Int64(end) && forall k :: 0 <= k < |rs| ==> Fits(SetOffset(rs[k].header, 0))
  }

  lemma FitsAt(h: Header, offset: int)
    requires Fits(SetOffset(h, 0)) && Int64(offset)
    ensures Fits(SetOffset(h, offset)) && HeaderSize(SetOffset(h, offset)) == HeaderSize(h)
  {
  }

  /** Reading on from record i: pos is where its header stands and offset where its patch does. */
  lemma {:induction false} ChunksApply(c: Codec, z: Zlib, src: seq<Byte>, blob: seq<Byte>, bonus: Option<seq<Byte>>, i: int, n: int,
                                       pos: int, offset: int, rs: seq<Record>, outs: seq<seq<Byte>>, rest: seq<Byte>, out: seq<Byte>)
    requires |rs| == |outs| == n - i && 0 <= pos <= |blob| && 0 <= offset <= |blob|
    requires AllYield(c, z, src, bonus, i, rs, outs) && AllFit(rs, |blob|)
    requires blob[pos..] == Headers(rs, offset) + rest && blob[offset..] == Payloads(rs)
    ensures ApplyChunks(c, z, src, blob, bonus, i, n, pos, out) == Some(out + Flat(outs))
    decreases |rs|
  {
    hide *;
    if |rs| == 0 {
      NoChunks(c, z, src, blob, bonus, i, n, pos, out, outs);
    } else {
      var r, rest', more := rs[0], Headers(rs[1..], offset + |rs[0].payload|) + rest, Payloads(rs[1..]);
      var h := SetOffset(r.header, offset);
      FirstRecord(rs, outs, offset, |blob|);
      FitsAt(r.header, offset);
      Reappend(Encode(h), Headers(rs[1..], offset + |r.payload|), rest);
      DecodeEncode(blob, pos, h, rest');
      Peel(blob, offset, r.payload, more);
      YieldsHere(c, z, src, blob, bonus, i, offset, rs, outs, more);
      YieldsTail(c, z, src, bonus, i, rs, outs);
      NextChunk(c, z, src, blob, bonus, i, n, pos, out);
      ChunksApply(c, z, src, blob, bonus, i + 1, n, pos + HeaderSize(h), offset + |r.payload|, rs[1..], outs[1..], rest, out + outs[0]);
      Reappend(out, outs[0], Flat(outs[1..]));
    }
  }

  lemma NoChunks(c: Codec, z: Zlib, src: seq<Byte>, blob: seq<Byte>, bonus: Option<seq<Byte>>, n: int, m: int, pos: int, out: seq<Byte>,
                 outs: seq<seq<Byte>>)
    requires 0 <= pos && n == m && |outs| == 0
    ensures ApplyChunks(c, z, src, blob, bonus, n, m, pos, out) == Some(out + Flat(outs))
  {
    assert out + Flat(outs) == out;
  }

  lemma FirstRecord(rs: seq<Record>, outs: seq<seq<Byte>>, offset: int, end: int)
    requires rs != [] && outs != [] && AllFit(rs, end) && 0 <= offset <= end
    ensures Headers(rs, offset) == Encode(SetOffset(rs[0].header, offset)) + Headers(rs[1..], offset + |rs[0].payload|)
    ensures Payloads(rs) == rs[0].payload + Payloads(rs[1..]) && Flat(outs) == outs[0] + Flat(outs[1..])
    ensures Fits(SetOffset(rs[0].header, 0)) && AllFit(rs[1..], end) && Int64(offset)
  {
    hide Encode, Fits, SetOffset;
  }

  lemma YieldsHere(c: Codec, z: Zlib, src: seq<Byte>, blob: seq<Byte>, bonus: Option<seq<Byte>>, i: int, offset: int,
                   rs: seq<Record>, outs: seq<seq<Byte>>, more: seq<Byte>)
    requires |rs| == |outs| > 0 && AllYield(c, z, src, bonus, i, rs, outs)
    requires 0 <= offset <= |blob| && blob[offset..] == rs[0].payload + more
    ensures ChunkOutput(c, z, src, blob, bonus, i, SetOffset(rs[0].header, offset)) == Some(outs[0])
  {
    hide ChunkOutput, SetOffset;
    assert Yields(c, z, src, bonus, i + 0, rs[0], outs[0]);
    var pre := blob[..offset];
    assert pre + (rs[0].payload + more) == blob;
    Reappend(pre, rs[0].payload, more);
    assert ChunkOutput(c, z, src, pre + rs[0].payload + more, bonus, i, SetOffset(rs[0].header, |pre|)) == Some(outs[0]);
  }

  lemma YieldsTail(c: Codec, z: Zlib, src: seq<Byte>, bonus: Option<seq<Byte>>, i: int, rs: seq<Record>, outs: seq<seq<Byte>>)
    requires |rs| == |outs| > 0 && AllYield(c, z, src, bonus, i, rs, outs)
    ensures AllYield(c, z, src, bonus, i + 1, rs[1..], outs[1..])
  {
    hide Yields;
    forall k | 0 <= k < |rs| - 1 ensures Yields(c, z, src, bonus, i + 1 + k, rs[1..][k], outs[1..][k]) {
      assert Yields(c, z, src, bonus, i + (k + 1), rs[k + 1], outs[k + 1]);
      assert i + (k + 1) == i + 1 + k;
    }
  }

  /** The whole file: recorded offsets are the real ones, the header is as long as computed, and every chunk comes out. */
  lemma FileApplies(c: Codec, z: Zlib, src: seq<Byte>, bonus: Option<seq<Byte>>, rs: seq<Record>, outs: seq<seq<Byte>>)
    requires |rs| == |outs| && Int32(|rs|) && AllFit(rs, |File(rs)|) && AllYield(c, z, src, bonus, 0, rs, outs)
    ensures ApplyImage(c, z, src, File(rs), bonus) == Some(Flat(outs))
  {
    hide Write4, ApplyChunks, ReadAt4;
    var blob, offset := File(rs), 12 + HeadersSize(rs);
    var hs, ps := Headers(rs, offset), Payloads(rs);
    HeadersLength(rs, offset);
    assert blob[0..] == blob;
    Peel(blob, 0, IMG_MAGIC, Write4(|rs|) + (hs + ps));
    Peel4(blob, 8, |rs|, hs + ps);
    Peel(blob, 12, hs, ps);
    ChunksApply(c, z, src, blob, bonus, 0, |rs|, 12, offset, rs, outs, ps, []);
    assert [] + Flat(outs) == Flat(outs);
  }
}
