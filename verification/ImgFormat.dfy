/** The IMGDIFF2 patch format: how applypatch/imgpatch.c reads it, and how applypatch/imgdiff.c lays it out. */
module ImgFormat {
  import opened Bytes
  import opened Numbers
  import opened ImgChunks

  /** zlib, as pure functions: what a raw deflate stream expands to, and what data compresses to. */
  datatype Zlib = Zlib(inflate: seq<Byte> -> Option<seq<Byte>>, deflate: (Params, seq<Byte>) -> seq<Byte>)

  const CHUNK_NORMAL := 0
  const CHUNK_DEFLATE := 2
  const CHUNK_RAW := 3
  const IMG_MAGIC: seq<Byte> := [0x49, 0x4d, 0x47, 0x44, 0x49, 0x46, 0x46, 0x32] // "IMGDIFF2"

  /** A chunk record as it stands in the header; patches are given by their offset in the file. */
  datatype Header =
    | NormalHeader(srcStart: int, srcLen: int, offset: int)
    | RawHeader(data: seq<Byte>)
    | DeflateHeader(srcStart: int, srcLen: int, offset: int, expandedLen: int, targetLen: int, params: Params)

  function HeaderSize(h: Header): nat {
    match h
    case NormalHeader(_, _, _) => 28
    case RawHeader(data) => 8 + |data|
    case DeflateHeader(_, _, _, _, _, _) => 64
  }

  function Encode(h: Header): (r: seq<Byte>)
    ensures |r| == HeaderSize(h)
  {
    match h
    case NormalHeader(s, l, o) => Write4(CHUNK_NORMAL) + (Write8(s) + (Write8(l) + Write8(o)))
    case RawHeader(data) => Write4(CHUNK_RAW) + (Write4(|data|) + data)
    case DeflateHeader(s, l, o, e, t, p) =>
      Write4(CHUNK_DEFLATE) + (Write8(s) + (Write8(l) + (Write8(o) + (Write8(e) + (Write8(t) + EncodeParams(p))))))
  }

  function EncodeParams(p: Params): (r: seq<Byte>)
    ensures |r| == 20
  {
    Write4(p.level) + (Write4(p.method_) + (Write4(p.windowBits) + (Write4(p.memLevel) + Write4(p.strategy))))
  }

  /** Where each field of a record stands. */
  lemma Layout(h: Header)
    ensures var r := Encode(h);
      match h
      case NormalHeader(s, l, o) => r[..4] == [0, 0, 0, 0] && r[4..12] == Write8(s) && r[12..20] == Write8(l) && r[20..28] == Write8(o)
      case RawHeader(data) => r[..4] == [3, 0, 0, 0] && r[4..8] == Write4(|data|) && r[8..] == data
      case DeflateHeader(s, l, o, e, t, p) =>
        && r[..4] == [2, 0, 0, 0] && r[4..12] == Write8(s) && r[12..20] == Write8(l) && r[20..28] == Write8(o)
        && r[28..36] == Write8(e) && r[36..44] == Write8(t) && r[44..64] == EncodeParams(p)
  {
    hide Write4, Write8, EncodeParams;
    KindBytes();
    var r := Encode(h);
    assert r[0..] == r;
    match h
    case NormalHeader(s, l, o) =>
      Peel(r, 0, Write4(CHUNK_NORMAL), Write8(s) + (Write8(l) + Write8(o)));
      Peel(r, 4, Write8(s), Write8(l) + Write8(o));
      Peel(r, 12, Write8(l), Write8(o));
    case RawHeader(data) =>
      Peel(r, 0, Write4(CHUNK_RAW), Write4(|data|) + data);
      Peel(r, 4, Write4(|data|), data);
    case DeflateHeader(s, l, o, e, t, p) =>
      Peel(r, 0, Write4(CHUNK_DEFLATE), Write8(s) + (Write8(l) + (Write8(o) + (Write8(e) + (Write8(t) + EncodeParams(p))))));
      Peel(r, 4, Write8(s), Write8(l) + (Write8(o) + (Write8(e) + (Write8(t) + EncodeParams(p)))));
      Peel(r, 12, Write8(l), Write8(o) + (Write8(e) + (Write8(t) + EncodeParams(p))));
      Peel(r, 20, Write8(o), Write8(e) + (Write8(t) + EncodeParams(p)));
      Peel(r, 28, Write8(e), Write8(t) + EncodeParams(p));
      Peel(r, 36, Write8(t), EncodeParams(p));
  }

  /** And of its parameters. */
  lemma ParamsLayout(p: Params)
    ensures var r := EncodeParams(p);
      && r[..4] == Write4(p.level) && r[4..8] == Write4(p.method_) && r[8..12] == Write4(p.windowBits)
      && r[12..16] == Write4(p.memLevel) && r[16..] == Write4(p.strategy)
  {
    hide Write4;
    var a, b, c, d, e := Write4(p.level), Write4(p.method_), Write4(p.windowBits), Write4(p.memLevel), Write4(p.strategy);
    var r := EncodeParams(p);
    assert r[0..] == r;
    Peel(r, 0, a, b + (c + (d + e)));
    Peel(r, 4, b, c + (d + e));
    Peel(r, 8, c, d + e);
    Peel(r, 12, d, e);
  }

  lemma KindBytes()
    ensures Write4(0) == [0, 0, 0, 0] && Write4(2) == [2, 0, 0, 0] && Write4(3) == [3, 0, 0, 0]
  {
    Literal(0);
    Literal(2);
    Literal(3);
  }

  lemma Literal(v: nat)
    requires v < 256
    ensures Write4(v) == [v, 0, 0, 0]
  {
    assert Little(v, 4) == [v] + Little(0, 3) && Little(0, 3) == [0] + Little(0, 2) && Little(0, 2) == [0] + Little(0, 1);
    assert Little(0, 1) == [0] + Little(0, 0);
  }

  function ReadAt4(blob: seq<Byte>, pos: int): int
    requires 0 <= pos && pos + 4 <= |blob|
  {
    Read4(blob[pos..pos + 4])
  }

  function ReadAt8(blob: seq<Byte>, pos: int): int
    requires 0 <= pos && pos + 8 <= |blob|
  {
    Read8(blob[pos..pos + 8])
  }

  function DecodeParams(blob: seq<Byte>, pos: int): Params
    requires 0 <= pos && pos + 20 <= |blob|
  {
    Params(ReadAt4(blob, pos), ReadAt4(blob, pos + 4), ReadAt4(blob, pos + 8), ReadAt4(blob, pos + 12), ReadAt4(blob, pos + 16))
  }

  /** Read the record at pos; the position after it comes with it. */
  function Decode(blob: seq<Byte>, pos: int): (r: Option<(Header, int)>)
    requires 0 <= pos
    ensures r.Some? ==> pos < r.value.1 <= |blob|
  {
    if pos + 4 > |blob| then None
    else
      var kind := ReadAt4(blob, pos);
      if kind == CHUNK_NORMAL then
        if pos + 28 > |blob| then None
        else Some((NormalHeader(ReadAt8(blob, pos + 4), ReadAt8(blob, pos + 12), ReadAt8(blob, pos + 20)), pos + 28))
      else if kind == CHUNK_RAW then
        if pos + 8 > |blob| then None
        else
          var n := ReadAt4(blob, pos + 4);
          if n < 0 || pos + 8 + n > |blob| then None else Some((RawHeader(blob[pos + 8..pos + 8 + n]), pos + 8 + n))
      else if kind == CHUNK_DEFLATE then
        if pos + 64 > |blob| then None
        else
          Some((DeflateHeader(ReadAt8(blob, pos + 4), ReadAt8(blob, pos + 12), ReadAt8(blob, pos + 20), ReadAt8(blob, pos + 28),
                              ReadAt8(blob, pos + 36), DecodeParams(blob, pos + 44)), pos + 64))
      else None
  }

  /** Every number of the record fits the field it is written to. */
  predicate Fits(h: Header) {
    match h
    case NormalHeader(s, l, o) => Int64(s) && Int64(l) && Int64(o)
    case RawHeader(data) => Int32(|data|)
    case DeflateHeader(s, l, o, e, t, p) =>
      && Int64(s) && Int64(l) && Int64(o) && Int64(e) && Int64(t)
      && Int32(p.level) && Int32(p.method_) && Int32(p.windowBits) && Int32(p.memLevel) && Int32(p.strategy)
  }

  lemma Peel4(blob: seq<Byte>, at: int, v: int, rest: seq<Byte>)
    requires 0 <= at <= |blob| && blob[at..] == Write4(v) + rest && Int32(v)
    ensures at + 4 <= |blob| && ReadAt4(blob, at) == v && blob[at + 4..] == rest
  {
    Peel(blob, at, Write4(v), rest);
    WriteRead4(v);
    hide Write4, Read4;
  }

  lemma Peel8(blob: seq<Byte>, at: int, v: int, rest: seq<Byte>)
    requires 0 <= at <= |blob| && blob[at..] == Write8(v) + rest && Int64(v)
    ensures at + 8 <= |blob| && ReadAt8(blob, at) == v && blob[at + 8..] == rest
  {
    Peel(blob, at, Write8(v), rest);
    WriteRead8(v);
    hide Write8, Read8;
  }

  lemma PeelParams(blob: seq<Byte>, at: int, p: Params, rest: seq<Byte>)
    requires 0 <= at <= |blob| && blob[at..] == EncodeParams(p) + rest
    requires Int32(p.level) && Int32(p.method_) && Int32(p.windowBits) && Int32(p.memLevel) && Int32(p.strategy)
    ensures at + 20 <= |blob| && DecodeParams(blob, at) == p && blob[at + 20..] == rest
  {
    hide Write4, ReadAt4;
    var a, b, c, d, e := Write4(p.level), Write4(p.method_), Write4(p.windowBits), Write4(p.memLevel), Write4(p.strategy);
    Reappend(a, b + (c + (d + e)), rest);
    Reappend(b, c + (d + e), rest);
    Reappend(c, d + e, rest);
    Reappend(d, e, rest);
    Peel4(blob, at, p.level, b + (c + (d + (e + rest))));
    Peel4(blob, at + 4, p.method_, c + (d + (e + rest)));
    Peel4(blob, at + 8, p.windowBits, d + (e + rest));
    Peel4(blob, at + 12, p.memLevel, e + rest);
    Peel4(blob, at + 16, p.strategy, rest);
  }

  lemma DecodeNormal(blob: seq<Byte>, at: int, h: Header, rest: seq<Byte>)
    requires 0 <= at <= |blob| && h.NormalHeader? && blob[at..] == Encode(h) + rest && Fits(h)
    ensures Decode(blob, at) == Some((h, at + HeaderSize(h))) && blob[at + HeaderSize(h)..] == rest
  {
    hide Write4, Write8, ReadAt4, ReadAt8;
    var k, s, l, o := Write4(CHUNK_NORMAL), Write8(h.srcStart), Write8(h.srcLen), Write8(h.offset);
    Reappend(k, s + (l + o), rest);
    Reappend(s, l + o, rest);
    Reappend(l, o, rest);
    Peel4(blob, at, CHUNK_NORMAL, s + (l + (o + rest)));
    Peel8(blob, at + 4, h.srcStart, l + (o + rest));
    Peel8(blob, at + 12, h.srcLen, o + rest);
    Peel8(blob, at + 20, h.offset, rest);
  }

  lemma DecodeRaw(blob: seq<Byte>, at: int, h: Header, rest: seq<Byte>)
    requires 0 <= at <= |blob| && h.RawHeader? && blob[at..] == Encode(h) + rest && Fits(h)
    ensures Decode(blob, at) == Some((h, at + HeaderSize(h))) && blob[at + HeaderSize(h)..] == rest
  {
    hide Write4, ReadAt4;
    var k, n := Write4(CHUNK_RAW), Write4(|h.data|);
    Reappend(k, n + h.data, rest);
    Reappend(n, h.data, rest);
    Peel4(blob, at, CHUNK_RAW, n + (h.data + rest));
    Peel4(blob, at + 4, |h.data|, h.data + rest);
    Peel(blob, at + 8, h.data, rest);
  }

  lemma DecodeDeflate(blob: seq<Byte>, at: int, h: Header, rest: seq<Byte>)
    requires 0 <= at <= |blob| && h.DeflateHeader? && blob[at..] == Encode(h) + rest && Fits(h)
    ensures Decode(blob, at) == Some((h, at + HeaderSize(h))) && blob[at + HeaderSize(h)..] == rest
  {
    hide Write4, Write8, ReadAt4, ReadAt8, EncodeParams, DecodeParams;
    var k, s, l, o, e, t, p := Write4(CHUNK_DEFLATE), Write8(h.srcStart), Write8(h.srcLen), Write8(h.offset), Write8(h.expandedLen),
                               Write8(h.targetLen), EncodeParams(h.params);
    Reappend(k, s + (l + (o + (e + (t + p)))), rest);
    Reappend(s, l + (o + (e + (t + p))), rest);
    Reappend(l, o + (e + (t + p)), rest);
    Reappend(o, e + (t + p), rest);
    Reappend(e, t + p, rest);
    Reappend(t, p, rest);
    Peel4(blob, at, CHUNK_DEFLATE, s + (l + (o + (e + (t + (p + rest))))));
    Peel8(blob, at + 4, h.srcStart, l + (o + (e + (t + (p + rest)))));
    Peel8(blob, at + 12, h.srcLen, o + (e + (t + (p + rest))));
    Peel8(blob, at + 20, h.offset, e + (t + (p + rest)));
    Peel8(blob, at + 28, h.expandedLen, t + (p + rest));
    Peel8(blob, at + 36, h.targetLen, p + rest);
    PeelParams(blob, at + 44, h.params, rest);
  }

  /** A record that fits its fields is read back as it was written, whatever follows it. */
  lemma DecodeEncode(blob: seq<Byte>, at: int, h: Header, rest: seq<Byte>)
    requires 0 <= at <= |blob| && blob[at..] == Encode(h) + rest && Fits(h)
    ensures Decode(blob, at) == Some((h, at + HeaderSize(h))) && blob[at + HeaderSize(h)..] == rest
  {
    hide Encode, Decode, Fits;
    match h
    case NormalHeader(_, _, _) => DecodeNormal(blob, at, h, rest);
    case RawHeader(_) => DecodeRaw(blob, at, h, rest);
    case DeflateHeader(_, _, _, _, _, _) => DecodeDeflate(blob, at, h, rest);
  }

  // ----- What is read is what was written -----

  lemma Took4(blob: seq<Byte>, at: int)
    requires 0 <= at && at + 4 <= |blob|
    ensures Int32(ReadAt4(blob, at)) && blob[at..at + 4] == Write4(ReadAt4(blob, at))
  {
    ReadWrite4(blob[at..at + 4]);
    hide Write4, Read4;
  }

  lemma Took8(blob: seq<Byte>, at: int)
    requires 0 <= at && at + 8 <= |blob|
    ensures Int64(ReadAt8(blob, at)) && blob[at..at + 8] == Write8(ReadAt8(blob, at))
  {
    ReadWrite8(blob[at..at + 8]);
    hide Write8, Read8;
  }

  lemma Join<T>(s: seq<T>, i: int, j: int, k: int)
    requires 0 <= i <= j <= k <= |s|
    ensures s[i..j] + s[j..k] == s[i..k]
  {
  }

  lemma TookParams(blob: seq<Byte>, at: int)
    requires 0 <= at && at + 20 <= |blob|
    ensures var p := DecodeParams(blob, at);
      && blob[at..at + 20] == EncodeParams(p)
      && Int32(p.level) && Int32(p.method_) && Int32(p.windowBits) && Int32(p.memLevel) && Int32(p.strategy)
  {
    hide Write4, ReadAt4;
    Took4(blob, at);
    Took4(blob, at + 4);
    Took4(blob, at + 8);
    Took4(blob, at + 12);
    Took4(blob, at + 16);
    Join(blob, at + 12, at + 16, at + 20);
    Join(blob, at + 8, at + 12, at + 20);
    Join(blob, at + 4, at + 8, at + 20);
    Join(blob, at, at + 4, at + 20);
  }

  lemma TookNormal(blob: seq<Byte>, at: int)
    requires 0 <= at && Decode(blob, at).Some? && Decode(blob, at).value.0.NormalHeader?
    ensures var (h, end) := Decode(blob, at).value; Fits(h) && blob[at..end] == Encode(h)
  {
    hide Write4, Write8, ReadAt4, ReadAt8;
    Took4(blob, at);
    Took8(blob, at + 4);
    Took8(blob, at + 12);
    Took8(blob, at + 20);
    Join(blob, at + 12, at + 20, at + 28);
    Join(blob, at + 4, at + 12, at + 28);
    Join(blob, at, at + 4, at + 28);
  }

  lemma TookRaw(blob: seq<Byte>, at: int)
    requires 0 <= at && Decode(blob, at).Some? && Decode(blob, at).value.0.RawHeader?
    ensures var (h, end) := Decode(blob, at).value; Fits(h) && blob[at..end] == Encode(h)
  {
    hide Write4, Write8, ReadAt4, ReadAt8;
    var end := Decode(blob, at).value.1;
    Took4(blob, at);
    Took4(blob, at + 4);
    Join(blob, at + 4, at + 8, end);
    Join(blob, at, at + 4, end);
  }

  lemma TookDeflate(blob: seq<Byte>, at: int)
    requires 0 <= at && Decode(blob, at).Some? && Decode(blob, at).value.0.DeflateHeader?
    ensures var (h, end) := Decode(blob, at).value; Fits(h) && blob[at..end] == Encode(h)
  {
    hide Write4, Write8, ReadAt4, ReadAt8, EncodeParams, DecodeParams;
    Took4(blob, at);
    Took8(blob, at + 4);
    Took8(blob, at + 12);
    Took8(blob, at + 20);
    Took8(blob, at + 28);
    Took8(blob, at + 36);
    TookParams(blob, at + 44);
    Join(blob, at + 36, at + 44, at + 64);
    Join(blob, at + 28, at + 36, at + 64);
    Join(blob, at + 20, at + 28, at + 64);
    Join(blob, at + 12, at + 20, at + 64);
    Join(blob, at + 4, at + 12, at + 64);
    Join(blob, at, at + 4, at + 64);
  }

  /** A record is read at a place exactly if the bytes there are those it is written as. */
  lemma DecodesExactly(blob: seq<Byte>, at: int, h: Header)
    requires 0 <= at <= |blob|
    ensures Decode(blob, at) == Some((h, at + HeaderSize(h))) <==>
      Fits(h) && at + HeaderSize(h) <= |blob| && blob[at..at + HeaderSize(h)] == Encode(h)
    ensures Decode(blob, at).Some? ==> Decode(blob, at).value.1 == at + HeaderSize(Decode(blob, at).value.0)
  {
    hide Encode, Fits, ReadAt4, ReadAt8, DecodeParams;
    var d := Decode(blob, at);
    if d.Some? {
      match d.value.0
      case NormalHeader(_, _, _) => TookNormal(blob, at);
      case RawHeader(_) => TookRaw(blob, at);
      case DeflateHeader(_, _, _, _, _, _) => TookDeflate(blob, at);
    }
    hide Decode;
    if Fits(h) && at + HeaderSize(h) <= |blob| && blob[at..at + HeaderSize(h)] == Encode(h) {
      assert blob[at..] == blob[at..at + HeaderSize(h)] + blob[at + HeaderSize(h)..];
      DecodeEncode(blob, at, h, blob[at + HeaderSize(h)..]);
    }
  }
}
