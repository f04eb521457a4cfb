/** imgdiff of applypatch/imgdiff.c in image mode, from two chunk lists to the patch file. */
module ImgDiff {
  import opened Bytes
  import opened Numbers
  import opened BsPatch
  import opened BsDiff
  import opened ImgChunks
  import opened ImgFormat
  import opened ImgPatch

  const HALF := 0x4000_0000_0000_0000

  /** What ReadImage makes of an image: chunks that tile it, each deflate chunk with what it expands to. */
  ghost predicate Chunked(z: Zlib, img: seq<Byte>, cs: seq<Chunk>) {
    && Tiles(img, cs, 0, |img|)
    && forall k :: 0 <= k < |cs| ==> Expanded(z, img, cs[k])
  }

  ghost predicate Expanded(z: Zlib, img: seq<Byte>, c: Chunk) {
    c.Deflate? ==> Inside(img, c) && z.inflate(ImageBytes(img, c)) == Some(c.expanded) && |c.expanded| < HALF
  }

  /** The encoder settings tried: level 6 or 9, raw stream, default memory level and strategy. */
  function Setting(level: int): Params {
    Params(level, 8, -15, 8, 0)
  }

  /** The first setting that compresses a chunk's data back to the bytes of the image. */
  function Recompression(z: Zlib, img: seq<Byte>, c: Chunk): Option<Params>
    requires c.Deflate? && Inside(img, c)
  {
    if z.deflate(Setting(6), c.expanded) == ImageBytes(img, c) then Some(Setting(6))
    else if z.deflate(Setting(9), c.expanded) == ImageBytes(img, c) then Some(Setting(9))
    else None
  }

  /** ReconstructDeflateChunk: try level 6, then 9. */
  method ReconstructDeflateChunk(z: Zlib, img: seq<Byte>, c: Chunk) returns (r: Option<Params>)
    requires c.Deflate? && Inside(img, c)
    ensures r == Recompression(z, img, c)
  {
    var level := 6;
    while level <= 9
      invariant level == 6 || level == 9 || level == 12
      invariant level >= 9 ==> z.deflate(Setting(6), c.expanded) != ImageBytes(img, c)
      invariant level >= 12 ==> z.deflate(Setting(9), c.expanded) != ImageBytes(img, c)
      decreases 12 - level
    {
      if z.deflate(Setting(level), c.expanded) == ImageBytes(img, c) {
        return Some(Setting(level));
      }
      level := level + 3;
    }
    r := None;
  }

  /** ChangeDeflateChunkToNormal */
  function ToNormal(c: Chunk): Chunk {
    match c
    case Normal(_, _, _) => c
    case Deflate(start, at, deflateLen, _, _) => Normal(start, at, deflateLen)
  }

  /** AreChunksEqual, for chunks of the same kind. */
  predicate SameBytes(srcImg: seq<Byte>, s: Chunk, tgtImg: seq<Byte>, t: Chunk)
    requires Inside(srcImg, s) && Inside(tgtImg, t)
  {
    s.Normal? == t.Normal? && ImageBytes(srcImg, s) == ImageBytes(tgtImg, t)
  }

  /** What the pairing loop makes of chunk pair (s, t). */
  function Paired(z: Zlib, srcImg: seq<Byte>, s: Chunk, tgtImg: seq<Byte>, t: Chunk): (r: (Chunk, Chunk))
    requires Inside(srcImg, s) && Inside(tgtImg, t)
    ensures r.0.start == s.start && r.0.at == s.at && Span(r.0) == Span(s) && r.1.start == t.start && r.1.at == t.at && Span(r.1) == Span(t)
    ensures s.Normal? == t.Normal? ==> r.0.Normal? == r.1.Normal?
  {
    if t.Normal? then (s, t)
    else
      var p := Recompression(z, tgtImg, t);
      if p.None? || SameBytes(srcImg, s, tgtImg, t) then (ToNormal(s), ToNormal(t)) else (s, t.(params := p.value))
  }

  /** One of the two levels compresses the chunk's data to its image bytes. */
  predicate Reproducible(z: Zlib, img: seq<Byte>, c: Chunk)
    requires c.Deflate? && Inside(img, c)
  {
    exists level :: level in {6, 9} && z.deflate(Setting(level), c.expanded) == ImageBytes(img, c)
  }

  /**
   * A deflate pair stays one exactly if the target can be reproduced and the image bytes differ; then only the target's
   * parameters are set, to level 6 if that reproduces it. Otherwise both are normal, over the same bytes as before.
   */
  lemma PairedExactly(z: Zlib, srcImg: seq<Byte>, s: Chunk, tgtImg: seq<Byte>, t: Chunk)
    requires Inside(srcImg, s) && Inside(tgtImg, t) && s.Deflate? && t.Deflate?
    ensures var keep := Reproducible(z, tgtImg, t) && ImageBytes(srcImg, s) != ImageBytes(tgtImg, t);
      var r := Paired(z, srcImg, s, tgtImg, t);
      && (if keep then r.0 == s && r.1.Deflate? && r.1.(params := t.params) == t
          else r == (Normal(s.start, s.at, s.deflateLen), Normal(t.start, t.at, t.deflateLen)))
      && (keep ==> r.1.params == Setting(if z.deflate(Setting(6), t.expanded) == ImageBytes(tgtImg, t) then 6 else 9))
  {
    hide Inside, ImageBytes, Setting;
  }

  /** The loop over the target chunks that keeps a deflate pair only when it can be recompressed and has changed. */
  method PairChunks(z: Zlib, srcImg: seq<Byte>, src: array<Chunk>, tgtImg: seq<Byte>, tgt: array<Chunk>, num: nat)
    requires src != tgt && num <= src.Length && num <= tgt.Length
    requires forall k :: 0 <= k < num ==> Inside(srcImg, src[k]) && Inside(tgtImg, tgt[k])
    modifies src, tgt
    ensures forall k :: 0 <= k < num ==> (src[k], tgt[k]) == Paired(z, srcImg, old(src[k]), tgtImg, old(tgt[k]))
    ensures forall k :: 0 <= k < num && old(src[k]).Deflate? && old(tgt[k]).Deflate? ==>
      (tgt[k].Deflate? <==> Reproducible(z, tgtImg, old(tgt[k])) && ImageBytes(srcImg, old(src[k])) != ImageBytes(tgtImg, old(tgt[k])))
  {
    hide Inside, Reproducible;
    forall k | 0 <= k < num && src[k].Deflate? && tgt[k].Deflate?
      ensures Paired(z, srcImg, src[k], tgtImg, tgt[k]).1.Deflate? <==>
        Reproducible(z, tgtImg, tgt[k]) && ImageBytes(srcImg, src[k]) != ImageBytes(tgtImg, tgt[k])
    {
      PairedExactly(z, srcImg, src[k], tgtImg, tgt[k]);
    }
    var i := 0;
    while i < num
      invariant 0 <= i <= num
      invariant forall k :: 0 <= k < i ==> (src[k], tgt[k]) == Paired(z, srcImg, old(src[k]), tgtImg, old(tgt[k]))
      invariant forall k :: i <= k < num ==> src[k] == old(src[k]) && tgt[k] == old(tgt[k])
    {
      if tgt[i].Deflate? {
        var p := ReconstructDeflateChunk(z, tgtImg, tgt[i]);
        if p.None? {
          src[i], tgt[i] := ToNormal(src[i]), ToNormal(tgt[i]);
        } else if SameBytes(srcImg, src[i], tgtImg, tgt[i]) {
          src[i], tgt[i] := ToNormal(src[i]), ToNormal(tgt[i]);
        } else {
          tgt[i] := tgt[i].(params := p.value);
        }
      }
      i := i + 1;
    }
  }

  lemma {:induction false} TilesSame(img: seq<Byte>, cs: seq<Chunk>, ds: seq<Chunk>, from: int, end: int)
    requires Tiles(img, cs, from, end) && |cs| == |ds|
    requires forall k :: 0 <= k < |cs| ==> ds[k].start == cs[k].start && ds[k].at == cs[k].at && Span(ds[k]) == Span(cs[k])
    ensures Tiles(img, ds, from, end)
    decreases |cs|
  {
    if cs != [] {
      assert forall k :: 0 <= k < |cs| - 1 ==> ds[1..][k] == ds[k + 1] && cs[1..][k] == cs[k + 1];
      TilesSame(img, cs[1..], ds[1..], from + Span(cs[0]), end);
    }
  }

  /** A target chunk that is still a deflate chunk recompresses, with its own parameters, to its image bytes. */
  ghost predicate Recompresses(z: Zlib, img: seq<Byte>, c: Chunk) {
    c.Deflate? ==>
      && Inside(img, c) && z.deflate(c.params, c.expanded) == ImageBytes(img, c) && |c.expanded| < LIMIT
      && (c.params == Setting(6) || c.params == Setting(9))
  }

  /** The pair of lists ready to be diffed: same kinds, tiling, expandable sources, reproducible targets. */
  ghost predicate Ready(z: Zlib, srcImg: seq<Byte>, src: seq<Chunk>, tgtImg: seq<Byte>, tgt: seq<Chunk>) {
    && Tiles(srcImg, src, 0, |srcImg|) && Tiles(tgtImg, tgt, 0, |tgtImg|) && Kinds(src) == Kinds(tgt) && |src| == |tgt|
    && (forall k :: 0 <= k < |src| ==> Expanded(z, srcImg, src[k]))
    && (forall k :: 0 <= k < |tgt| ==> Recompresses(z, tgtImg, tgt[k]))
  }

  lemma PairedReady(z: Zlib, srcImg: seq<Byte>, src: seq<Chunk>, tgtImg: seq<Byte>, tgt: seq<Chunk>, src': seq<Chunk>, tgt': seq<Chunk>)
    requires Chunked(z, srcImg, src) && Chunked(z, tgtImg, tgt) && Kinds(src) == Kinds(tgt) && |src| == |tgt| == |src'| == |tgt'|
    requires forall k :: 0 <= k < |src| ==> Inside(srcImg, src[k]) && Inside(tgtImg, tgt[k])
    requires forall k :: 0 <= k < |src| ==> (src'[k], tgt'[k]) == Paired(z, srcImg, src[k], tgtImg, tgt[k])
    ensures Ready(z, srcImg, src', tgtImg, tgt')
  {
    forall k | 0 <= k < |src| ensures Expanded(z, srcImg, src'[k]) && Recompresses(z, tgtImg, tgt'[k]) && src'[k].Normal? == tgt'[k].Normal? {
      PairReady(z, srcImg, src[k], tgtImg, tgt[k]);
      assert Kinds(src)[k] == Kinds(tgt)[k];
      assert (src'[k], tgt'[k]) == Paired(z, srcImg, src[k], tgtImg, tgt[k]);
      assert Expanded(z, srcImg, src[k]) && Expanded(z, tgtImg, tgt[k]);
    }
    forall k | 0 <= k < |src|
      ensures src'[k].start == src[k].start && src'[k].at == src[k].at && Span(src'[k]) == Span(src[k])
      ensures tgt'[k].start == tgt[k].start && tgt'[k].at == tgt[k].at && Span(tgt'[k]) == Span(tgt[k])
    {
      assert (src'[k], tgt'[k]) == Paired(z, srcImg, src[k], tgtImg, tgt[k]);
    }
    hide Expanded, Recompresses, Paired;
    TilesSame(srcImg, src, src', 0, |srcImg|);
    TilesSame(tgtImg, tgt, tgt', 0, |tgtImg|);
    assert Kinds(src') == Kinds(tgt');
  }

  lemma PairReady(z: Zlib, srcImg: seq<Byte>, s: Chunk, tgtImg: seq<Byte>, t: Chunk)
    requires Inside(srcImg, s) && Inside(tgtImg, t) && s.Normal? == t.Normal?
    requires Expanded(z, srcImg, s) && Expanded(z, tgtImg, t)
    ensures Expanded(z, srcImg, Paired(z, srcImg, s, tgtImg, t).0) && Recompresses(z, tgtImg, Paired(z, srcImg, s, tgtImg, t).1)
  {
  }

  /** Merging touches no deflate chunk. */
  lemma {:induction false} MergedDeflate(cs: seq<Chunk>, i: nat, k: nat)
    requires i <= |cs| && k < |Merged(cs, i)| && Merged(cs, i)[k].Deflate?
    ensures Merged(cs, i)[k] in cs
    decreases |cs| - i
  {
    GroupIsNormal(cs, i);
    if k > 0 {
      MergedDeflate(cs, GroupEnd(cs, i), k - 1);
    }
  }

  lemma MergedChunked(z: Zlib, img: seq<Byte>, cs: seq<Chunk>)
    requires Chunked(z, img, cs)
    ensures Chunked(z, img, Merged(cs, 0))
  {
    MergedTiles(img, cs, 0, |img|, 0);
    hide Tiles, Merged;
    var ms := Merged(cs, 0);
    forall k | 0 <= k < |ms| ensures Expanded(z, img, ms[k]) {
      if ms[k].Deflate? {
        MergedDeflate(cs, 0, k);
      }
    }
  }

  lemma MergedReady(z: Zlib, srcImg: seq<Byte>, src: seq<Chunk>, tgtImg: seq<Byte>, tgt: seq<Chunk>)
    requires Ready(z, srcImg, src, tgtImg, tgt)
    ensures Ready(z, srcImg, Merged(src, 0), tgtImg, Merged(tgt, 0))
  {
    MergeLockstep(srcImg, src, tgtImg, tgt);
    hide Tiles, Merged, Kinds;
    var ss, ts := Merged(src, 0), Merged(tgt, 0);
    forall k | 0 <= k < |ss| ensures Expanded(z, srcImg, ss[k]) {
      if ss[k].Deflate? {
        MergedDeflate(src, 0, k);
      }
    }
    forall k | 0 <= k < |ts| ensures Recompresses(z, tgtImg, ts[k]) {
      if ts[k].Deflate? {
        MergedDeflate(tgt, 0, k);
      }
    }
  }

  datatype Outcome = Written(file: seq<Byte>) | DifferentStructure | BonusMisplaced | TooLarge

  /** What a record must do for its chunk: fit its fields, and yield the chunk's image bytes. */
  ghost predicate Serves(c: Codec, z: Zlib, srcImg: seq<Byte>, bonus: Option<seq<Byte>>, i: int, r: Record, bytes: seq<Byte>) {
    Fits(SetOffset(r.header, 0)) && Yields(c, z, srcImg, bonus, i, r, bytes)
  }

  lemma RawServes(c: Codec, z: Zlib, srcImg: seq<Byte>, bonus: Option<seq<Byte>>, i: int, bytes: seq<Byte>)
    requires |bytes| < 0x8000_0000
    ensures Serves(c, z, srcImg, bonus, i, Record(RawHeader(bytes), []), bytes)
  {
  }

  lemma NormalServes(c: Codec, z: Zlib, srcImg: seq<Byte>, bonus: Option<seq<Byte>>, i: int, s: Chunk, patch: seq<Byte>, bytes: seq<Byte>)
    requires s.Normal? && Inside(srcImg, s) && |srcImg| < LIMIT
    requires Rebuilds(c, ImageBytes(srcImg, s), patch, bytes)
    ensures Serves(c, z, srcImg, bonus, i, Record(NormalHeader(s.start, s.len, 0), patch), bytes)
  {
    hide Apply;
    var r := Record(NormalHeader(s.start, s.len, 0), patch);
    forall pre: seq<Byte>, post: seq<Byte>
      ensures ChunkOutput(c, z, srcImg, pre + r.payload + post, bonus, i, SetOffset(r.header, |pre|)) == Some(bytes)
    {
      assert Apply(c, ImageBytes(srcImg, s), pre + patch + post, |pre|) == Some(bytes);
    }
  }

  lemma DeflateServes(c: Codec, z: Zlib, srcImg: seq<Byte>, bonus: Option<seq<Byte>>, i: int, s: Chunk, tgtImg: seq<Byte>, t: Chunk, patch: seq<Byte>)
    requires s.Deflate? && Inside(srcImg, s) && |srcImg| < LIMIT && Expanded(z, srcImg, s)
    requires t.Deflate? && Inside(tgtImg, t) && Recompresses(z, tgtImg, t)
    requires |s.expanded| + |BonusFor(bonus, i)| < LIMIT
    requires Rebuilds(c, s.expanded + BonusFor(bonus, i), patch, t.expanded)
    ensures Serves(c, z, srcImg, bonus, i, DeflateRecord(s, t, |s.expanded| + |BonusFor(bonus, i)|, patch), ImageBytes(tgtImg, t))
  {
    hide Apply;
    var r := DeflateRecord(s, t, |s.expanded| + |BonusFor(bonus, i)|, patch);
    forall pre: seq<Byte>, post: seq<Byte>
      ensures ChunkOutput(c, z, srcImg, pre + r.payload + post, bonus, i, SetOffset(r.header, |pre|)) == Some(ImageBytes(tgtImg, t))
    {
      assert Apply(c, s.expanded + BonusFor(bonus, i), pre + patch + post, |pre|) == Some(t.expanded);
    }
  }

  function DeflateRecord(s: Chunk, t: Chunk, expandedLen: int, patch: seq<Byte>): Record
    requires s.Deflate? && t.Deflate?
  {
    Record(DeflateHeader(s.start, s.deflateLen, 0, expandedLen, |t.expanded|, t.params), patch)
  }

  /** What is compared of a chunk: its bytes, or what it expands to; bonus data go behind those of chunk 1. */
  function Data(img: seq<Byte>, c: Chunk, bonus: Option<seq<Byte>>, i: int): seq<Byte>
    requires Inside(img, c)
  {
    if c.Normal? then ImageBytes(img, c) else c.expanded + if i == 1 && bonus.Some? then bonus.value else []
  }

  /** The patch makes the target of the data, wherever it stands. */
  ghost predicate Rebuilds(c: Codec, data: seq<Byte>, patch: seq<Byte>, target: seq<Byte>) {
    forall pre: seq<Byte>, post: seq<Byte> :: Apply(c, data, pre + patch + post, |pre|) == Some(target)
  }

  /** bsdiff on the data of two chunks. */
  method DiffData(c: Codec, data: seq<Byte>, target: seq<Byte>) returns (p: Option<seq<Byte>>)
    requires SelfDelimiting(c) && |data| < LIMIT && |target| < LIMIT
    ensures p.Some? ==> Rebuilds(c, data, p.value, target)
    ensures forall n: nat, b: nat :: Within(c, n, b) && |target| <= n ==> if p.None? then b >= LIMIT else |p.value| <= 32 + 3 * b
  {
    hide Apply, Within;
    var I;
    p, I := WritePatch(c, data, null, target);
    forall n: nat, b: nat | Within(c, n, b) && |target| <= n
      ensures Within(c, |target|, b)
    {
      WithinLess(c, |target|, n, b);
    }
  }

  /** MakePatch: a raw record when that is no larger, else a bsdiff patch of the chunks' data. */
  method MakePatch(c: Codec, z: Zlib, srcImg: seq<Byte>, s: Chunk, tgtImg: seq<Byte>, t: Chunk, bonus: Option<seq<Byte>>, i: int)
    returns (r: Option<Record>, ghost patch: Option<seq<Byte>>)
    requires SelfDelimiting(c) && Inside(srcImg, s) && Inside(tgtImg, t) && s.Normal? == t.Normal?
    requires |srcImg| < LIMIT && |tgtImg| < 0x8000_0000 && Expanded(z, srcImg, s) && Recompresses(z, tgtImg, t)
    requires s.Deflate? ==> |s.expanded| + |BonusFor(bonus, i)| < LIMIT
    ensures r.Some? ==> Serves(c, z, srcImg, bonus, i, r.value, ImageBytes(tgtImg, t))
    ensures r.Some? && t.Normal? ==> |r.value.payload| < t.len || r.value == Record(RawHeader(ImageBytes(tgtImg, t)), [])
    ensures t.Normal? && t.len <= 160 ==> r == Some(Record(RawHeader(ImageBytes(tgtImg, t)), []))
    ensures !(t.Normal? && t.len <= 160) && r.Some? ==> patch.Some? && Rebuilds(c, Data(srcImg, s, bonus, i), patch.value, Data(tgtImg, t, None, i))
    ensures r.Some? ==> if t.Normal? && (t.len <= 160 || t.len <= |patch.value|) then r.value == Record(RawHeader(ImageBytes(tgtImg, t)), [])
                        else r.value.payload == patch.value && (r.value.header.NormalHeader? <==> t.Normal?)
    ensures r.Some? && r.value.header.NormalHeader? ==> s.Normal? && r.value.header == NormalHeader(s.start, s.len, 0)
    ensures r.Some? && t.Deflate? ==>
      s.Deflate? && r.value.header == DeflateHeader(s.start, s.deflateLen, 0, |Data(srcImg, s, bonus, i)|, |t.expanded|, t.params)
    ensures forall n: nat, b: nat :: Within(c, n, b) && Room(t) <= n && |tgtImg| <= n ==>
      if r.None? then b >= LIMIT else RecordSize(r.value) <= 96 + 3 * b + |tgtImg|
  {
    hide Serves, Within, Rebuilds, SelfDelimiting;
    patch := None;
    if t.Normal? {
      RawServes(c, z, srcImg, bonus, i, ImageBytes(tgtImg, t));
      if t.len <= 160 {
        return Some(Record(RawHeader(ImageBytes(tgtImg, t)), [])), None;
      }
    }
    var data, target := Data(srcImg, s, bonus, i), Data(tgtImg, t, None, i);
    assert t.Deflate? ==> target == t.expanded;
    assert |target| <= Room(t) || |target| <= |tgtImg|;
    var p := DiffData(c, data, target);
    patch := p;
    if p.None? {
      return None, patch;
    }
    if t.Normal? {
      if t.len <= |p.value| {
        return Some(Record(RawHeader(ImageBytes(tgtImg, t)), [])), patch;
      }
      NormalServes(c, z, srcImg, bonus, i, s, p.value, ImageBytes(tgtImg, t));
      r := Some(Record(NormalHeader(s.start, s.len, 0), p.value));
    } else {
      DeflateServes(c, z, srcImg, bonus, i, s, tgtImg, t, p.value);
      r := Some(DeflateRecord(s, t, |data|, p.value));
    }
  }

  /** How much a deflate chunk expands to. */
  function Room(t: Chunk): nat { if t.Deflate? then |t.expanded| else 0 }

  /** What a record takes in the file. */
  function RecordSize(r: Record): nat { HeaderSize(r.header) + |r.payload| }

  lemma WithinLess(c: Codec, m: nat, n: nat, b: nat)
    requires Within(c, n, b) && m <= n
    ensures Within(c, m, b)
  {
  }

  /** No deflate chunk of the list expands to more than n bytes. */
  ghost predicate Short(cs: seq<Chunk>, n: nat) { forall k :: 0 <= k < |cs| ==> Room(cs[k]) <= n }

  lemma MergedShort(cs: seq<Chunk>, n: nat)
    ensures Short(cs, n) ==> Short(Merged(cs, 0), n)
  {
    hide Merged;
    var ms := Merged(cs, 0);
    if Short(cs, n) {
      forall k | 0 <= k < |ms|
        ensures Room(ms[k]) <= n
      {
        if ms[k].Deflate? {
          MergedDeflate(cs, 0, k);
          var j :| 0 <= j < |cs| && cs[j] == ms[k];
        }
      }
    }
  }

  lemma PairedShort(z: Zlib, srcImg: seq<Byte>, src: seq<Chunk>, tgtImg: seq<Byte>, tgt: seq<Chunk>, tgt': seq<Chunk>, n: nat)
    requires |src| == |tgt| == |tgt'|
    requires forall k :: 0 <= k < |src| ==> Inside(srcImg, src[k]) && Inside(tgtImg, tgt[k])
    requires forall k :: 0 <= k < |src| ==> tgt'[k] == Paired(z, srcImg, src[k], tgtImg, tgt[k]).1
    ensures Short(tgt, n) ==> Short(tgt', n)
  {
    hide Inside, Recompression, SameBytes;
  }

  /** The size of the file, when no record takes more than m. */
  lemma {:induction false} RecordsSize(rs: seq<Record>, m: nat)
    requires forall k :: 0 <= k < |rs| ==> RecordSize(rs[k]) <= m
    ensures HeadersSize(rs) + |Payloads(rs)| <= |rs| * m
    decreases |rs|
  {
    if rs != [] {
      RecordsSize(rs[1..], m);
      assert |rs| * m == m + |rs[1..]| * m;
    }
  }

  lemma FileSize(rs: seq<Record>, m: nat)
    requires forall k :: 0 <= k < |rs| ==> RecordSize(rs[k]) <= m
    ensures |File(rs)| <= 12 + |rs| * m
  {
    RecordsSize(rs, m);
    HeadersLength(rs, 12 + HeadersSize(rs));
    hide Headers, Payloads, HeadersSize, RecordSize;
  }

  /** The first loop of the last part of imgdiff: the size of the header. */
  method SizeHeader(rs: seq<Record>) returns (total: nat)
    ensures total == 12 + HeadersSize(rs)
  {
    hide HeaderSize;
    total := 12;
    var i := 0;
    while i < |rs|
      invariant 0 <= i <= |rs| && total + HeadersSize(rs[i..]) == 12 + HeadersSize(rs)
    {
      assert rs[i..][1..] == rs[i + 1..];
      total := total + HeaderSize(rs[i].header);
      i := i + 1;
    }
  }

  /** The second: the records, with offsets that count up from the end of the header. */
  method WriteHeaders(rs: seq<Record>, total: nat) returns (headers: seq<Byte>)
    ensures headers == Headers(rs, total)
  {
    hide Encode, SetOffset;
    headers := [];
    var offset, i := total, 0;
    while i < |rs|
      invariant 0 <= i <= |rs| && headers + Headers(rs[i..], offset) == Headers(rs, total)
    {
      assert rs[i..][1..] == rs[i + 1..];
      Reappend(headers, Encode(SetOffset(rs[i].header, offset)), Headers(rs[i + 1..], offset + |rs[i].payload|));
      headers := headers + Encode(SetOffset(rs[i].header, offset));
      offset := offset + |rs[i].payload|;
      i := i + 1;
    }
    assert headers + [] == headers;
  }

  /** The third: the patches, in order. */
  method WritePatches(rs: seq<Record>) returns (patches: seq<Byte>)
    ensures patches == Payloads(rs)
  {
    patches := [];
    var i := 0;
    while i < |rs|
      invariant 0 <= i <= |rs| && patches + Payloads(rs[i..]) == Payloads(rs)
    {
      assert rs[i..][1..] == rs[i + 1..];
      Reappend(patches, rs[i].payload, Payloads(rs[i + 1..]));
      patches := patches + rs[i].payload;
      i := i + 1;
    }
    assert patches + [] == patches;
  }

  /** The last part of imgdiff: size the header, write the records with their offsets, append the patches. */
  method WriteFile(rs: seq<Record>) returns (f: seq<Byte>)
    ensures f == File(rs)
  {
    hide HeadersSize, Headers, Payloads, Write4;
    var total := SizeHeader(rs);
    var headers := WriteHeaders(rs, total);
    var patches := WritePatches(rs);
    f := IMG_MAGIC + (Write4(|rs|) + (headers + patches));
  }

  method CopyChunks(cs: seq<Chunk>) returns (a: array<Chunk>)
    ensures fresh(a) && a[..] == cs
  {
    a := new Chunk[|cs|](i requires 0 <= i < |cs| => cs[i]);
  }

  /** Compare the kinds of two chunk lists. */
  method SameKinds(src: array<Chunk>, numSrc: nat, tgt: array<Chunk>, numTgt: nat) returns (same: bool)
    requires numSrc <= src.Length && numTgt <= tgt.Length
    ensures same <==> Kinds(src[..numSrc]) == Kinds(tgt[..numTgt])
  {
    if numSrc != numTgt {
      assert |Kinds(src[..numSrc])| != |Kinds(tgt[..numTgt])|;
      return false;
    }
    var i := 0;
    while i < numSrc
      invariant 0 <= i <= numSrc && forall k :: 0 <= k < i ==> src[k].Normal? == tgt[k].Normal?
    {
      if src[i].Normal? != tgt[i].Normal? {
        assert Kinds(src[..numSrc])[i] != Kinds(tgt[..numTgt])[i];
        return false;
      }
      i := i + 1;
    }
    same := true;
  }

  lemma {:induction false} TilesInside(img: seq<Byte>, cs: seq<Chunk>, k: nat)
    requires Tiles(img, cs, 0, |img|) && k < |cs|
    ensures Inside(img, cs[k])
  {
    TilesFrom(img, cs, 0, |img|, k);
    hide Tiles;
  }

  /** Merge, compare, pair, and merge again; the second merge cannot make the lists differ. */
  method PrepareChunks(z: Zlib, srcImg: seq<Byte>, src0: seq<Chunk>, tgtImg: seq<Byte>, tgt0: seq<Chunk>, ghost n: nat)
    returns (ok: bool, src: seq<Chunk>, tgt: seq<Chunk>)
    requires Chunked(z, srcImg, src0) && Chunked(z, tgtImg, tgt0)
    ensures ok <==> Kinds(Merged(src0, 0)) == Kinds(Merged(tgt0, 0))
    ensures ok ==> Ready(z, srcImg, src, tgtImg, tgt) && |tgt| <= |tgt0|
    ensures ok && Short(tgt0, n) ==> Short(tgt, n)
  {
    hide Merged, Expanded, Kinds, Inside, Paired, Short, Tiles;
    MergedChunked(z, srcImg, src0);
    MergedChunked(z, tgtImg, tgt0);
    var s := CopyChunks(src0);
    var t := CopyChunks(tgt0);
    assert t[..|tgt0|] == tgt0 && s[..|src0|] == src0;
    MergedShort(tgt0, n);
    src, tgt := [], [];
    var numTgt := MergeAdjacentNormalChunks(t, |tgt0|);
    var numSrc := MergeAdjacentNormalChunks(s, |src0|);
    ok := SameKinds(s, numSrc, t, numTgt);
    if !ok {
      return;
    }
    ghost var s1, t1 := s[..numSrc], t[..numTgt];
    KindsLength(s1, t1);
    forall k | 0 <= k < numTgt ensures Inside(srcImg, s[k]) && Inside(tgtImg, t[k]) {
      TilesInside(srcImg, s1, k);
      TilesInside(tgtImg, t1, k);
    }
    PairChunks(z, srcImg, s, tgtImg, t, numTgt);
    ghost var s2, t2 := s[..numTgt], t[..numTgt];
    PairedReady(z, srcImg, s1, tgtImg, t1, s2, t2);
    PairedShort(z, srcImg, s1, tgtImg, t1, t2, n);
    MergedShort(t2, n);
    MergedReady(z, srcImg, s2, tgtImg, t2);
    numTgt := MergeAdjacentNormalChunks(t, numTgt);
    numSrc := MergeAdjacentNormalChunks(s, numSrc);
    src, tgt := s[..numSrc], t[..numTgt];
    // The lists have been merged in lockstep, so the check made here never fails.
    assert numSrc == numTgt;
  }

  lemma KindsLength(cs: seq<Chunk>, ds: seq<Chunk>)
    requires Kinds(cs) == Kinds(ds)
    ensures |cs| == |ds|
  {
    assert |Kinds(cs)| == |Kinds(ds)|;
  }

  /** One patch per chunk. */
  method MakePatches(c: Codec, z: Zlib, srcImg: seq<Byte>, src: seq<Chunk>, tgtImg: seq<Byte>, tgt: seq<Chunk>, bonus: Option<seq<Byte>>,
                     ghost n: nat, ghost b: nat)
    returns (o: Outcome, rs: seq<Record>)
    requires SelfDelimiting(c) && Ready(z, srcImg, src, tgtImg, tgt)
    requires |srcImg| < LIMIT && |tgtImg| < 0x8000_0000 && (bonus.Some? ==> |bonus.value| < HALF)
    requires forall k :: 0 <= k < |tgt| ==> Inside(srcImg, src[k]) && Inside(tgtImg, tgt[k])
    ensures o.BonusMisplaced? ==> bonus.Some? && |src| > 1 && src[1].Normal?
    ensures bonus.Some? && |src| > 1 && src[1].Normal? ==> o.BonusMisplaced? || o.TooLarge?
    ensures Within(c, n, b) && Short(tgt, n) && |tgtImg| <= n ==>
      if o.TooLarge? then b >= LIMIT else forall k :: 0 <= k < |rs| ==> RecordSize(rs[k]) <= 96 + 3 * b + |tgtImg|
    ensures o.BonusMisplaced? || o.TooLarge? || o == Written([])
    ensures o.Written? ==> |rs| == |tgt| && forall k :: 0 <= k < |rs| ==> Serves(c, z, srcImg, bonus, k, rs[k], ImageBytes(tgtImg, tgt[k]))
  {
    hide Serves, Tiles, Inside, SelfDelimiting, Within, RecordSize;
    rs := [];
    var i := 0;
    while i < |tgt|
      invariant 0 <= i <= |tgt| && |rs| == i && (bonus.Some? && i > 1 ==> !src[1].Normal?)
      invariant forall k :: 0 <= k < i ==> Serves(c, z, srcImg, bonus, k, rs[k], ImageBytes(tgtImg, tgt[k]))
      invariant Within(c, n, b) && Short(tgt, n) && |tgtImg| <= n ==> forall k :: 0 <= k < i ==> RecordSize(rs[k]) <= 96 + 3 * b + |tgtImg|
    {
      if i == 1 && bonus.Some? && src[i].Normal? {
        return BonusMisplaced, rs;
      }
      assert Kinds(src)[i] == Kinds(tgt)[i] && Expanded(z, srcImg, src[i]) && Recompresses(z, tgtImg, tgt[i]);
      var r;
      ghost var patch;
      r, patch := MakePatch(c, z, srcImg, src[i], tgtImg, tgt[i], bonus, i);
      if r.None? {
        return TooLarge, rs;
      }
      rs := rs + [r.value];
      i := i + 1;
    }
    o := Written([]);
  }

  /**
   * imgdiff in image mode. Whenever it writes a file, applying that file to the source image gives the
   * target image byte for byte; it refuses exactly when the two images have different chunk structures,
   * or else for misplaced bonus data or numbers that do not fit. The latter cannot happen when the target's parts are no
   * longer than n, compression takes a patch's streams no further than b, and so many records of that size do fit.
   */
  method ImgDiff(c: Codec, z: Zlib, srcImg: seq<Byte>, src0: seq<Chunk>, tgtImg: seq<Byte>, tgt0: seq<Chunk>, bonus: Option<seq<Byte>>,
                 ghost n: nat, ghost b: nat)
    returns (o: Outcome)
    requires SelfDelimiting(c) && Chunked(z, srcImg, src0) && Chunked(z, tgtImg, tgt0)
    requires |srcImg| < LIMIT && |tgtImg| < 0x8000_0000 && |tgt0| < 0x8000_0000 && (bonus.Some? ==> |bonus.value| < HALF)
    ensures o.Written? ==> ApplyImage(c, z, srcImg, o.file, bonus) == Some(tgtImg)
    ensures o.DifferentStructure? <==> Kinds(Merged(src0, 0)) != Kinds(Merged(tgt0, 0))
    ensures o.BonusMisplaced? ==> bonus.Some?
    ensures Within(c, n, b) && Short(tgt0, n) && |tgtImg| <= n && b < LIMIT && 12 + |tgt0| * (96 + 3 * b + |tgtImg|) < LIMIT ==> !o.TooLarge?
  {
    hide *;
    var ok, src, tgt := PrepareChunks(z, srcImg, src0, tgtImg, tgt0, n);
    if !ok {
      return DifferentStructure;
    }
    ReadyInside(z, srcImg, src, tgtImg, tgt);
    var rs;
    o, rs := MakePatches(c, z, srcImg, src, tgtImg, tgt, bonus, n, b);
    if !o.Written? {
      return;
    }
    var f := WriteFile(rs);
    if Within(c, n, b) && Short(tgt0, n) && |tgtImg| <= n {
      FileSize(rs, 96 + 3 * b + |tgtImg|);
      Smaller(|tgt|, |tgt0|, 96 + 3 * b + |tgtImg|);
    }
    if |f| >= LIMIT {
      return TooLarge;
    }
    ServedFile(c, z, srcImg, bonus, rs, tgtImg, tgt);
    o := Written(f);
  }

  lemma Smaller(x: nat, y: nat, m: nat)
    requires x <= y
    ensures x * m <= y * m
  {
  }

  lemma ReadyInside(z: Zlib, srcImg: seq<Byte>, src: seq<Chunk>, tgtImg: seq<Byte>, tgt: seq<Chunk>)
    requires Ready(z, srcImg, src, tgtImg, tgt)
    ensures |src| == |tgt| && Tiles(tgtImg, tgt, 0, |tgtImg|)
    ensures forall k :: 0 <= k < |tgt| ==> Inside(srcImg, src[k]) && Inside(tgtImg, tgt[k])
  {
    hide Tiles, Inside, Kinds;
    forall k | 0 <= k < |tgt| ensures Inside(srcImg, src[k]) && Inside(tgtImg, tgt[k]) {
      TilesInside(srcImg, src, k);
      TilesInside(tgtImg, tgt, k);
    }
  }

  lemma {:induction false} FlatContent(img: seq<Byte>, cs: seq<Chunk>, outs: seq<seq<Byte>>)
    requires |outs| == |cs| && forall k :: 0 <= k < |cs| ==> Inside(img, cs[k]) && outs[k] == ImageBytes(img, cs[k])
    ensures (forall c :: c in cs ==> Inside(img, c)) && Flat(outs) == Content(img, cs)
    decreases |cs|
  {
    hide Inside, ImageBytes;
    if cs != [] {
      FlatContent(img, cs[1..], outs[1..]);
    }
  }

  lemma ServedFile(c: Codec, z: Zlib, srcImg: seq<Byte>, bonus: Option<seq<Byte>>, rs: seq<Record>, tgtImg: seq<Byte>, tgt: seq<Chunk>)
    requires Tiles(tgtImg, tgt, 0, |tgtImg|) && |rs| == |tgt| < 0x8000_0000 && |File(rs)| < LIMIT
    requires forall k :: 0 <= k < |tgt| ==> Inside(tgtImg, tgt[k])
    requires forall k :: 0 <= k < |rs| ==> Serves(c, z, srcImg, bonus, k, rs[k], ImageBytes(tgtImg, tgt[k]))
    ensures ApplyImage(c, z, srcImg, File(rs), bonus) == Some(tgtImg)
  {
    hide File, Fits, Yields, SetOffset, ApplyImage, Inside, ImageBytes;
    var outs := seq(|tgt|, k requires 0 <= k < |tgt| => ImageBytes(tgtImg, tgt[k]));
    forall k | 0 <= k < |rs| ensures Fits(SetOffset(rs[k].header, 0)) && Yields(c, z, srcImg, bonus, 0 + k, rs[k], outs[k]) {
      assert Serves(c, z, srcImg, bonus, k, rs[k], ImageBytes(tgtImg, tgt[k]));
    }
    FileApplies(c, z, srcImg, bonus, rs, outs);
    FlatContent(tgtImg, tgt, outs);
    TilesContent(tgtImg, tgt, 0, |tgtImg|);
    assert tgtImg[0..|tgtImg|] == tgtImg;
  }
}
