/** The chunk lists of applypatch/imgdiff.c, and the merging of neighbouring normal chunks. */
module ImgChunks {
  import opened Bytes

  /** zlib encoder parameters. */
  datatype Params = Params(level: int, method_: int, windowBits: int, memLevel: int, strategy: int)

  /**
   * A chunk of an image that begins at start. The data of a normal chunk is len bytes of the image from
   * at; that of a deflate chunk is expanded, whose compressed form is deflateLen bytes of the image from at.
   */
  datatype Chunk =
    | Normal(start: int, at: int, len: int)
    | Deflate(start: int, at: int, deflateLen: int, expanded: seq<Byte>, params: Params)

  /** The number of image bytes a chunk stands for. */
  function Span(c: Chunk): int {
    match c
    case Normal(_, _, len) => len
    case Deflate(_, _, deflateLen, _, _) => deflateLen
  }

  predicate Inside(img: seq<Byte>, c: Chunk) {
    0 <= c.start == c.at && 0 <= Span(c) && c.start + Span(c) <= |img|
  }

  /** The image bytes a chunk stands for. */
  function ImageBytes(img: seq<Byte>, c: Chunk): seq<Byte>
    requires Inside(img, c)
  {
    img[c.at..c.at + Span(c)]
  }

  /** The chunks follow one another without gap from byte from to byte end of the image. */
  ghost predicate Tiles(img: seq<Byte>, cs: seq<Chunk>, from: int, end: int)
    decreases |cs|
  {
    if cs == [] then 0 <= from == end <= |img|
    else cs[0].start == from && Inside(img, cs[0]) && Tiles(img, cs[1..], from + Span(cs[0]), end)
  }

  function Kinds(cs: seq<Chunk>): (r: seq<bool>)
    ensures |r| == |cs| && forall i :: 0 <= i < |cs| ==> r[i] == cs[i].Normal?
  {
    seq(|cs|, i requires 0 <= i < |cs| => cs[i].Normal?)
  }

  /** d begins, in the image and in memory, where c ends. */
  predicate Follows(c: Chunk, d: Chunk) {
    d.start == c.start + Span(c) && d.at == c.at + Span(c)
  }

  /** The end of the run of adjoining normal chunks that has reached j. */
  function RunEnd(cs: seq<Chunk>, j: nat): (e: nat)
    requires 1 <= j <= |cs|
    ensures j <= e <= |cs|
    ensures forall k :: j <= k < e ==> cs[k].Normal? && Follows(cs[k - 1], cs[k])
    ensures e < |cs| ==> !(cs[e].Normal? && Follows(cs[e - 1], cs[e]))
    decreases |cs| - j
  {
    if j < |cs| && cs[j].Normal? && Follows(cs[j - 1], cs[j]) then RunEnd(cs, j + 1) else j
  }

  function GroupEnd(cs: seq<Chunk>, i: nat): (e: nat)
    requires i < |cs|
    ensures i < e <= |cs|
  {
    if cs[i].Normal? then RunEnd(cs, i + 1) else i + 1
  }

  /** One chunk in place of the chunks i..e-1. */
  function Fuse(cs: seq<Chunk>, i: nat, e: nat): Chunk
    requires i < e <= |cs|
  {
    if e == i + 1 then cs[i] else Normal(cs[i].start, cs[i].at, Span(cs[e - 1]) + (cs[e - 1].start - cs[i].start))
  }

  /** The chunks from i on, with every run of adjoining normal chunks made one. */
  function Merged(cs: seq<Chunk>, i: nat): seq<Chunk>
    requires i <= |cs|
    decreases |cs| - i
  {
    if i == |cs| then [] else [Fuse(cs, i, GroupEnd(cs, i))] + Merged(cs, GroupEnd(cs, i))
  }

  /** The inner loop of the merge: how far a solid block of normal chunks reaches. */
  method FindGroupEnd(chunks: array<Chunk>, num: nat, inStart: nat, ghost cs: seq<Chunk>) returns (inEnd: nat)
    requires inStart < num == |cs| <= chunks.Length && chunks[inStart..num] == cs[inStart..]
    ensures inEnd == GroupEnd(cs, inStart)
  {
    assert forall k :: inStart <= k < num ==> chunks[k] == chunks[inStart..num][k - inStart] == cs[k];
    inEnd := inStart + 1;
    if chunks[inStart].Normal? {
      while inEnd < num && chunks[inEnd].Normal? && Follows(chunks[inEnd - 1], chunks[inEnd])
        invariant inStart < inEnd <= num && RunEnd(cs, inEnd) == RunEnd(cs, inStart + 1)
      {
        inEnd := inEnd + 1;
      }
    }
  }

  /** One group of chunks compacted into place out. */
  method Compact(chunks: array<Chunk>, num: nat, out: nat, inStart: nat, inEnd: nat, ghost cs: seq<Chunk>)
    requires out <= inStart < inEnd <= num == |cs| <= chunks.Length && chunks[inStart..num] == cs[inStart..]
    modifies chunks
    ensures chunks[..out + 1] == old(chunks[..out]) + [Fuse(cs, inStart, inEnd)]
    ensures chunks[inEnd..num] == cs[inEnd..]
  {
    assert forall k :: inStart <= k < num ==> chunks[k] == chunks[inStart..num][k - inStart] == cs[k];
    if inEnd == inStart + 1 {
      if out != inStart {
        chunks[out] := chunks[inStart];
      }
    } else {
      chunks[out] := Normal(chunks[inStart].start, chunks[inStart].at, Span(chunks[inEnd - 1]) + (chunks[inEnd - 1].start - chunks[inStart].start));
    }
  }

  /** MergeAdjacentNormalChunks: an in-place compaction. */
  method MergeAdjacentNormalChunks(chunks: array<Chunk>, num: nat) returns (out: nat)
    requires num <= chunks.Length
    modifies chunks
    ensures out <= num && chunks[..out] == Merged(old(chunks[..num]), 0)
  {
    ghost var cs := chunks[..num];
    out := 0;
    var inStart := 0;
    assert chunks[..0] + Merged(cs, 0) == Merged(cs, 0);
    while inStart < num
      invariant out <= inStart <= num
      invariant chunks[inStart..num] == cs[inStart..]
      invariant chunks[..out] + Merged(cs, inStart) == Merged(cs, 0)
      decreases num - inStart
    {
      hide Fuse, GroupEnd;
      ghost var done := chunks[..out];
      var inEnd := FindGroupEnd(chunks, num, inStart, cs);
      Compact(chunks, num, out, inStart, inEnd, cs);
      Reappend(done, [Fuse(cs, inStart, inEnd)], Merged(cs, inEnd));
      out := out + 1;
      inStart := inEnd;
    }
    assert chunks[..out] + [] == chunks[..out];
  }

  /** The image bytes of all chunks, in order. */
  function Content(img: seq<Byte>, cs: seq<Chunk>): seq<Byte>
    requires forall c :: c in cs ==> Inside(img, c)
  {
    if cs == [] then [] else ImageBytes(img, cs[0]) + Content(img, cs[1..])
  }

  lemma {:induction false} TilesContent(img: seq<Byte>, cs: seq<Chunk>, from: int, end: int)
    requires Tiles(img, cs, from, end)
    ensures 0 <= from <= end <= |img| && (forall c :: c in cs ==> Inside(img, c))
    ensures Content(img, cs) == img[from..end]
  {
    if cs != [] {
      TilesContent(img, cs[1..], from + Span(cs[0]), end);
      assert cs == [cs[0]] + cs[1..];
    }
  }

  /** Where chunk k of a tiling begins. */
  function Edge(cs: seq<Chunk>, from: int, k: nat): int
    requires k <= |cs|
  {
    if k == 0 then from else cs[k - 1].start + Span(cs[k - 1])
  }

  lemma {:induction false} TilesFrom(img: seq<Byte>, cs: seq<Chunk>, from: int, end: int, k: nat)
    requires Tiles(img, cs, from, end) && k <= |cs|
    ensures Tiles(img, cs[k..], Edge(cs, from, k), end)
    ensures k < |cs| ==> cs[k].start == Edge(cs, from, k) && Inside(img, cs[k])
  {
    if k == 0 {
      assert cs[0..] == cs;
    } else {
      TilesFrom(img, cs[1..], from + Span(cs[0]), end, k - 1);
      assert cs[1..][k - 1..] == cs[k..];
    }
  }

  lemma TilesFollow(img: seq<Byte>, cs: seq<Chunk>, from: int, end: int, k: nat)
    requires Tiles(img, cs, from, end) && 0 < k < |cs|
    ensures Follows(cs[k - 1], cs[k])
  {
    TilesFrom(img, cs, from, end, k - 1);
    TilesFrom(img, cs, from, end, k);
  }

  lemma TilesCons(img: seq<Byte>, c: Chunk, cs: seq<Chunk>, end: int)
    requires Inside(img, c) && Tiles(img, cs, c.start + Span(c), end)
    ensures Tiles(img, [c] + cs, c.start, end)
  {
    assert ([c] + cs)[1..] == cs;
  }

  lemma FuseSpans(img: seq<Byte>, cs: seq<Chunk>, from: int, end: int, i: nat)
    requires Tiles(img, cs, from, end) && i < |cs|
    ensures var e := GroupEnd(cs, i); var f := Fuse(cs, i, e);
            Inside(img, f) && f.start == Edge(cs, from, i) && f.start + Span(f) == Edge(cs, from, e)
  {
    var e := GroupEnd(cs, i);
    TilesFrom(img, cs, from, end, i);
    TilesFrom(img, cs, from, end, e - 1);
    RunInOrder(img, cs, from, end, i, e - 1);
    hide Tiles;
  }

  /** Merging a tiling gives a tiling of the same bytes. */
  lemma {:induction false} MergedTiles(img: seq<Byte>, cs: seq<Chunk>, from: int, end: int, i: nat)
    requires Tiles(img, cs, from, end) && i <= |cs|
    ensures Tiles(img, Merged(cs, i), Edge(cs, from, i), end)
    decreases |cs| - i
  {
    if i < |cs| {
      hide Tiles, Fuse, GroupEnd, Edge;
      var e := GroupEnd(cs, i);
      MergedTiles(img, cs, from, end, e);
      FuseSpans(img, cs, from, end, i);
      TilesCons(img, Fuse(cs, i, e), Merged(cs, e), end);
    } else {
      TilesFrom(img, cs, from, end, i);
    }
  }

  lemma {:induction false} RunInOrder(img: seq<Byte>, cs: seq<Chunk>, from: int, end: int, i: nat, k: nat)
    requires Tiles(img, cs, from, end) && i <= k < |cs|
    ensures cs[i].start <= cs[k].start
    decreases k
  {
    if i < k {
      RunInOrder(img, cs, from, end, i, k - 1);
      TilesFollow(img, cs, from, end, k);
      TilesFrom(img, cs, from, end, k - 1);
    }
  }

  function KindRunEnd(ks: seq<bool>, j: nat): (e: nat)
    requires j <= |ks|
    ensures j <= e <= |ks|
    decreases |ks| - j
  {
    if j < |ks| && ks[j] then KindRunEnd(ks, j + 1) else j
  }

  /** What merging does to the kinds alone. */
  function MergedKinds(ks: seq<bool>, i: nat): (r: seq<bool>)
    requires i <= |ks|
    ensures |r| <= |ks| - i
    ensures forall k :: 0 <= k < |r| - 1 ==> !(r[k] && r[k + 1])
    ensures r != [] ==> i < |ks| && r[0] == ks[i]
    decreases |ks| - i
  {
    if i == |ks| then [] else
      var e := if ks[i] then KindRunEnd(ks, i + 1) else i + 1;
      assert ks[i] && e < |ks| ==> !ks[e] by { KindRunStops(ks, i + 1); }
      [ks[i]] + MergedKinds(ks, e)
  }

  lemma {:induction false} KindRunStops(ks: seq<bool>, j: nat)
    requires j <= |ks|
    ensures KindRunEnd(ks, j) < |ks| ==> !ks[KindRunEnd(ks, j)]
    decreases |ks| - j
  {
    if j < |ks| && ks[j] {
      KindRunStops(ks, j + 1);
    }
  }

  lemma {:induction false} RunByKind(img: seq<Byte>, cs: seq<Chunk>, from: int, end: int, j: nat)
    requires Tiles(img, cs, from, end) && 1 <= j <= |cs|
    ensures RunEnd(cs, j) == KindRunEnd(Kinds(cs), j)
    decreases |cs| - j
  {
    if j < |cs| {
      TilesFollow(img, cs, from, end, j);
      if cs[j].Normal? {
        RunByKind(img, cs, from, end, j + 1);
      }
    }
    hide Tiles;
  }

  /** In a tiling, which chunks merge depends on the kinds alone, so equal kinds stay equal. */
  lemma {:induction false} MergedByKind(img: seq<Byte>, cs: seq<Chunk>, from: int, end: int, i: nat)
    requires Tiles(img, cs, from, end) && i <= |cs|
    ensures Kinds(Merged(cs, i)) == MergedKinds(Kinds(cs), i)
    decreases |cs| - i
  {
    if i < |cs| {
      var e := GroupEnd(cs, i);
      MergedByKind(img, cs, from, end, e);
      if cs[i].Normal? {
        RunByKind(img, cs, from, end, i + 1);
      }
      hide Tiles;
      assert Merged(cs, i) == [Fuse(cs, i, e)] + Merged(cs, e);
      GroupIsNormal(cs, i);
      KindsCons(Fuse(cs, i, e), Merged(cs, e));
    }
  }

  lemma GroupIsNormal(cs: seq<Chunk>, i: nat)
    requires i < |cs|
    ensures Fuse(cs, i, GroupEnd(cs, i)).Normal? <==> cs[i].Normal?
  {
  }

  lemma KindsCons(c: Chunk, cs: seq<Chunk>)
    ensures Kinds([c] + cs) == [c.Normal?] + Kinds(cs)
  {
  }

  lemma NoNeighbours(cs: seq<Chunk>, ks: seq<bool>)
    requires Kinds(cs) == ks && forall k :: 0 <= k < |ks| - 1 ==> !(ks[k] && ks[k + 1])
    ensures forall k :: 0 < k < |cs| ==> !(cs[k - 1].Normal? && cs[k].Normal?)
  {
    forall k | 0 < k < |cs| ensures !(cs[k - 1].Normal? && cs[k].Normal?) {
      assert !(ks[k - 1] && ks[k - 1 + 1]);
    }
  }

  /**
   * Two tilings with the same kinds, of whatever images, are merged in lockstep: the results have the
   * same kinds again, in particular as many chunks, with no two normal chunks side by side.
   */
  lemma MergeLockstep(srcImg: seq<Byte>, src: seq<Chunk>, tgtImg: seq<Byte>, tgt: seq<Chunk>)
    requires Tiles(srcImg, src, 0, |srcImg|) && Tiles(tgtImg, tgt, 0, |tgtImg|) && Kinds(src) == Kinds(tgt)
    ensures Kinds(Merged(src, 0)) == Kinds(Merged(tgt, 0))
    ensures Tiles(srcImg, Merged(src, 0), 0, |srcImg|) && Tiles(tgtImg, Merged(tgt, 0), 0, |tgtImg|)
    ensures |Merged(src, 0)| == |Merged(tgt, 0)|
    ensures forall k :: 0 < k < |Merged(tgt, 0)| ==> !(Merged(tgt, 0)[k - 1].Normal? && Merged(tgt, 0)[k].Normal?)
  {
    hide Tiles, Merged, Fuse, GroupEnd;
    MergedByKind(srcImg, src, 0, |srcImg|, 0);
    MergedByKind(tgtImg, tgt, 0, |tgtImg|, 0);
    MergedTiles(srcImg, src, 0, |srcImg|, 0);
    MergedTiles(tgtImg, tgt, 0, |tgtImg|, 0);
    NoNeighbours(Merged(tgt, 0), MergedKinds(Kinds(tgt), 0));
  }
}
