/** The patch interpreter of applypatch/bspatch.c. */
module BsPatch {
  import opened Bytes
  import opened Numbers

  /** bzip2, of which only this is used: what can be read back out of a stream, whatever follows it. */
  datatype Codec = Codec(compress: seq<Byte> -> seq<Byte>, decompress: seq<Byte> -> seq<Byte>)

  ghost predicate SelfDelimiting(c: Codec) {
    forall x: seq<Byte>, rest: seq<Byte> :: c.decompress(c.compress(x) + rest) == x
  }

  /** The diff bytes with the old bytes at oldpos added, where there are any. */
  function AddOld(source: seq<Byte>, oldpos: int, d: seq<Byte>): (r: seq<Byte>)
    ensures |r| == |d|
  {
    seq(|d|, i requires 0 <= i < |d| =>
      if 0 <= oldpos + i < |source| then Plus(d[i], source[oldpos + i]) else d[i])
  }

  /**
   * What the three streams still to be read make of the output so far: triples (x, y, z) add x bytes of
   * old data to the diff stream, copy y bytes of the extra stream and move z bytes in the old data.
   */
  function Interpret(source: seq<Byte>, ctrl: seq<Byte>, diff: seq<Byte>, extra: seq<Byte>, size: nat, oldpos: int, out: seq<Byte>)
    : (r: Option<seq<Byte>>)
    decreases |ctrl|
  {
    if |out| >= size then Some(out)
    else if |ctrl| < 24 then None
    else
      var x, y, z := OffIn(ctrl[..8]), OffIn(ctrl[8..16]), OffIn(ctrl[16..24]);
      if x < 0 || y < 0 || |out| + x > size || x > |diff| || |out| + x + y > size || y > |extra| then None
      else
        Interpret(source, ctrl[24..], diff[x..], extra[y..], size, oldpos + x + z,
                  out + AddOld(source, oldpos, diff[..x]) + extra[..y])
  }

  lemma InterpretTriple(source: seq<Byte>, ctrl: seq<Byte>, diff: seq<Byte>, extra: seq<Byte>, size: nat, oldpos: int, out: seq<Byte>,
                        x: int, y: int, z: int)
    requires |out| < size && |ctrl| >= 24
    requires OffIn(ctrl[..8]) == x && OffIn(ctrl[8..16]) == y && OffIn(ctrl[16..24]) == z
    requires 0 <= x <= |diff| && 0 <= y <= |extra| && |out| + x + y <= size
    ensures Interpret(source, ctrl, diff, extra, size, oldpos, out)
         == Interpret(source, ctrl[24..], diff[x..], extra[y..], size, oldpos + x + z,
                      out + AddOld(source, oldpos, diff[..x]) + extra[..y])
  {
    hide OffIn, AddOld;
  }

  const MAGIC: seq<Byte> := [0x42, 0x53, 0x44, 0x49, 0x46, 0x46, 0x34, 0x30] // "BSDIFF40"

  /** The patch that starts at offset at of a blob, applied to old data. */
  function Apply(c: Codec, source: seq<Byte>, blob: seq<Byte>, at: int): (r: Option<seq<Byte>>) {
    if at < 0 || at + 32 > |blob| || blob[at..at + 8] != MAGIC then None
    else
      var ctrlLen, dataLen, size := OffIn(blob[at + 8..at + 16]), OffIn(blob[at + 16..at + 24]), OffIn(blob[at + 24..at + 32]);
      if ctrlLen < 0 || dataLen < 0 || size < 0 || at + 32 + ctrlLen + dataLen > |blob| then None
      else
        var body := at + 32;
        Interpret(source, c.decompress(blob[body..body + ctrlLen]),
                  c.decompress(blob[body + ctrlLen..body + ctrlLen + dataLen]),
                  c.decompress(blob[body + ctrlLen + dataLen..]), size, 0, [])
  }

  /** FillBuffer: take n bytes off a stream into the buffer, or fail when the stream is short. */
  method FillBuffer(buffer: array<Byte>, at: nat, n: nat, stream: seq<Byte>) returns (ok: bool, rest: seq<Byte>)
    requires at + n <= buffer.Length
    modifies buffer
    ensures ok <==> n <= |stream|
    ensures ok ==> rest == stream[n..] && buffer[..] == Splice(old(buffer[..]), at, stream[..n])
  {
    ghost var b := buffer[..];
    assert Splice(b, at, stream[..0]) == b;
    hide Splice;
    var i := 0;
    while i < n && i < |stream|
      invariant 0 <= i <= n && i <= |stream|
      invariant buffer[..] == Splice(b, at, stream[..i])
    {
      ghost var before, piece := buffer[..], stream[..Least(n, |stream|)];
      SpliceGrows(b, at, piece, i);
      assert piece[..i] == stream[..i] && piece[..i + 1] == stream[..i + 1];
      buffer[at + i] := stream[i];
      assert buffer[..] == before[at + i := stream[i]];
      i := i + 1;
    }
    ok, rest := i == n, stream[i..];
  }

  function Least(a: int, b: int): int { if a < b then a else b }

  /** Add the old data to the diff string in place. */
  method AddInPlace(source: seq<Byte>, oldpos: int, buffer: array<Byte>, at: nat, n: nat)
    requires at + n <= buffer.Length
    modifies buffer
    ensures buffer[..] == Splice(old(buffer[..]), at, AddOld(source, oldpos, old(buffer[at..at + n])))
    ensures forall k :: 0 <= k < buffer.Length ==>
      buffer[k] == if at <= k < at + n && 0 <= oldpos + k - at < |source| then (old(buffer[k]) as int + source[oldpos + k - at] as int) % 256 else old(buffer[k])
  {
    ghost var b, sum := buffer[..], AddOld(source, oldpos, buffer[at..at + n]);
    assert Splice(b, at, sum[..0]) == b && sum[..n] == sum;
    assert forall i :: 0 <= i < n ==> sum[i] == if 0 <= oldpos + i < |source| then Plus(b[at + i], source[oldpos + i]) else b[at + i];
    hide Splice, AddOld;
    var i := 0;
    while i < n
      invariant 0 <= i <= n
      invariant buffer[..] == Splice(b, at, sum[..i])
    {
      ghost var before := buffer[..];
      SpliceGrows(b, at, sum, i);
      assert buffer[at + i] == before[at + i] == b[at + i];
      if oldpos + i >= 0 && oldpos + i < |source| {
        buffer[at + i] := Plus(buffer[at + i], source[oldpos + i]);
      }
      assert buffer[..] == before[at + i := sum[i]];
      i := i + 1;
    }
  }

  /** One turn of the interpreter loop after its triple (x, y, z) has been read and found acceptable. */
  method Step(source: seq<Byte>, oldpos: int, buffer: array<Byte>, newpos: nat, x: nat, y: nat, diff: seq<Byte>, extra: seq<Byte>)
    returns (ok: bool, diff': seq<Byte>, extra': seq<Byte>)
    requires newpos + x <= buffer.Length
    modifies buffer
    ensures ok <==> x <= |diff| && newpos + x + y <= buffer.Length && y <= |extra|
    ensures ok ==> diff' == diff[x..] && extra' == extra[y..]
    ensures ok ==> buffer[..newpos + x + y] == old(buffer[..newpos]) + AddOld(source, oldpos, diff[..x]) + extra[..y]
  {
    extra' := extra;
    ok, diff' := FillBuffer(buffer, newpos, x, diff);
    if !ok { return; }
    assert buffer[newpos..newpos + x] == diff[..x];
    AddInPlace(source, oldpos, buffer, newpos, x);
    ok := newpos + x + y <= buffer.Length;
    if !ok { return; }
    ghost var mid := buffer[..newpos + x];
    assert mid == old(buffer[..newpos]) + AddOld(source, oldpos, diff[..x]);
    ok, extra' := FillBuffer(buffer, newpos + x, y, extra);
  }

  /** ApplyBSDiffPatchMem, on the three decompressed streams: the output buffer is filled in place. */
  method RunStreams(source: seq<Byte>, ctrl0: seq<Byte>, diff0: seq<Byte>, extra0: seq<Byte>, size: nat)
    returns (r: Option<seq<Byte>>)
    ensures r == Interpret(source, ctrl0, diff0, extra0, size, 0, [])
  {
    hide OffIn, AddOld;
    var buffer := new Byte[size](_ => 0);
    var ctrl, diff, extra, oldpos, newpos := ctrl0, diff0, extra0, 0, 0;
    assert buffer[..0] == [];
    while newpos < size
      invariant 0 <= newpos <= size
      invariant Interpret(source, ctrl0, diff0, extra0, size, 0, []) == Interpret(source, ctrl, diff, extra, size, oldpos, buffer[..newpos])
      decreases |ctrl|
    {
      if |ctrl| < 24 {
        return None;
      }
      var x, y, z := OffIn(ctrl[..8]), OffIn(ctrl[8..16]), OffIn(ctrl[16..24]);
      if x < 0 || y < 0 {
        return None;
      }
      if newpos + x > size {
        return None;
      }
      ghost var out := buffer[..newpos];
      var ok, diff', extra' := Step(source, oldpos, buffer, newpos, x, y, diff, extra);
      if !ok {
        return None;
      }
      assert Interpret(source, ctrl, diff, extra, size, oldpos, out)
          == Interpret(source, ctrl[24..], diff', extra', size, oldpos + x + z, buffer[..newpos + x + y]);
      ctrl, diff, extra := ctrl[24..], diff', extra';
      newpos, oldpos := newpos + x + y, oldpos + x + z;
    }
    r := Some(buffer[..newpos]);
  }

  /** ApplyBSDiffPatchMem. */
  method ApplyBSDiffPatchMem(c: Codec, source: seq<Byte>, blob: seq<Byte>, at: int) returns (r: Option<seq<Byte>>)
    ensures r == Apply(c, source, blob, at)
  {
    hide OffIn, Interpret;
    if at < 0 || at + 32 > |blob| || blob[at..at + 8] != MAGIC {
      return None;
    }
    var ctrlLen, dataLen, size := OffIn(blob[at + 8..at + 16]), OffIn(blob[at + 16..at + 24]), OffIn(blob[at + 24..at + 32]);
    if ctrlLen < 0 || dataLen < 0 || size < 0 || at + 32 + ctrlLen + dataLen > |blob| {
      return None;
    }
    var body := at + 32;
    r := RunStreams(source, c.decompress(blob[body..body + ctrlLen]), c.decompress(blob[body + ctrlLen..body + ctrlLen + dataLen]),
                    c.decompress(blob[body + ctrlLen + dataLen..]), size);
  }
}
