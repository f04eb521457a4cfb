/** bsdiff of applypatch/bsdiff.c: the patch it writes, and that the interpreter of bspatch.c undoes it. */
module BsDiff {
  import opened Bytes
  import opened Numbers
  import opened SuffixOrder
  import opened BsSearch
  import opened BsScan
  import opened BsPatch
  import QSufSort

  /**
   * The streams written so far carry the interpreter, whatever follows them, from the start to the
   * point where it has rebuilt the target up to lastscan and stands at lastpos in the old data.
   */
  ghost predicate Encodes(text: seq<Byte>, target: seq<Byte>, ctrl: seq<Byte>, db: seq<Byte>, eb: seq<Byte>, lastscan: int, lastpos: int) {
    && 0 <= lastscan <= |target|
    && (forall c: seq<Byte>, d: seq<Byte>, e: seq<Byte> ::
          Interpret(text, ctrl + c, db + d, eb + e, |target|, 0, []) == Interpret(text, c, d, e, |target|, lastpos, target[..lastscan]))
  }

  function Delta(text: seq<Byte>, target: seq<Byte>, lastscan: int, lastpos: int, lenf: nat): (r: seq<Byte>)
    requires 0 <= lastscan && lastscan + lenf <= |target| && 0 <= lastpos && lastpos + lenf <= |text|
    ensures |r| == lenf
  {
    seq<Byte>(lenf, i requires 0 <= i < lenf => Minus(target[lastscan + i], text[lastpos + i]))
  }

  lemma AddDelta(text: seq<Byte>, target: seq<Byte>, lastscan: int, lastpos: int, lenf: nat)
    requires 0 <= lastscan && lastscan + lenf <= |target| && 0 <= lastpos && lastpos + lenf <= |text|
    ensures AddOld(text, lastpos, Delta(text, target, lastscan, lastpos, lenf)) == target[lastscan..lastscan + lenf]
  {
    var d := Delta(text, target, lastscan, lastpos, lenf);
    var sum := AddOld(text, lastpos, d);
    forall i | 0 <= i < lenf ensures sum[i] == target[lastscan..lastscan + lenf][i] {
    }
  }

  function Triple(x: int, y: int, z: int): (r: seq<Byte>)
    requires Writable(x) && Writable(y) && Writable(z)
    ensures |r| == 24
  {
    OffOut(x) + (OffOut(y) + OffOut(z))
  }

  lemma TripleReads(x: int, y: int, z: int, rest: seq<Byte>)
    requires Writable(x) && Writable(y) && Writable(z)
    ensures var c := Triple(x, y, z) + rest;
            OffIn(c[..8]) == x && OffIn(c[8..16]) == y && OffIn(c[16..24]) == z && c[24..] == rest
  {
    hide OffIn, OffOut;
    OffRoundTrip(x);
    OffRoundTrip(y);
    OffRoundTrip(z);
    var c := Triple(x, y, z) + rest;
    assert c[0..] == c;
    Reappend(OffOut(x), OffOut(y) + OffOut(z), rest);
    Reappend(OffOut(y), OffOut(z), rest);
    Peel(c, 0, OffOut(x), OffOut(y) + (OffOut(z) + rest));
    Peel(c, 8, OffOut(y), OffOut(z) + rest);
    Peel(c, 16, OffOut(z), rest);
  }

  lemma Pieces<T>(s: seq<T>, i: int, j: int, k: int)
    requires 0 <= i <= j <= k <= |s|
    ensures s[..i] + s[i..j] + s[j..k] == s[..k]
  {
  }

  /** One triple with its diff and extra bytes, interpreted. */
  lemma RegionReads(text: seq<Byte>, target: seq<Byte>, lastscan: int, lastpos: int, x: int, y: int, z: int,
                    c: seq<Byte>, d: seq<Byte>, e: seq<Byte>)
    requires 0 <= lastscan < |target| && 0 <= x && 0 <= y && lastscan + x + y <= |target| && 0 <= lastpos && lastpos + x <= |text|
    requires Writable(x) && Writable(y) && Writable(z)
    ensures Interpret(text, Triple(x, y, z) + c, Delta(text, target, lastscan, lastpos, x) + d,
                      target[lastscan + x..lastscan + x + y] + e, |target|, lastpos, target[..lastscan])
         == Interpret(text, c, d, e, |target|, lastpos + x + z, target[..lastscan + x + y])
  {
    hide OffIn, OffOut, AddOld, Delta, Triple, Interpret;
    var dx, ey := Delta(text, target, lastscan, lastpos, x), target[lastscan + x..lastscan + x + y];
    TripleReads(x, y, z, c);
    AddDelta(text, target, lastscan, lastpos, x);
    Unappend(dx, d);
    Unappend(ey, e);
    Pieces(target, lastscan, lastscan + x, lastscan + x + y);
    InterpretTriple(text, Triple(x, y, z) + c, dx + d, ey + e, |target|, lastpos, target[..lastscan], x, y, z);
  }

  lemma Stuck(text: seq<Byte>, diff: seq<Byte>, extra: seq<Byte>, size: nat, oldpos: int, out: seq<Byte>)
    requires |out| < size
    ensures Interpret(text, [], diff, extra, size, oldpos, out) == None
  {
  }

  /** Writing one more region moves the interpreter on, and stopping before its triple leaves it stuck. */
  lemma RegionEncodes(text: seq<Byte>, target: seq<Byte>, ctrl: seq<Byte>, db: seq<Byte>, eb: seq<Byte>, lastscan: int, lastpos: int,
                      x: int, y: int, z: int)
    requires Encodes(text, target, ctrl, db, eb, lastscan, lastpos)
    requires lastscan < |target| && 0 <= x && 0 <= y && lastscan + x + y <= |target| && 0 <= lastpos && lastpos + x <= |text|
    requires Writable(x) && Writable(y) && Writable(z)
    ensures var db', eb' := db + Delta(text, target, lastscan, lastpos, x), eb + target[lastscan + x..lastscan + x + y];
            && Encodes(text, target, ctrl + Triple(x, y, z), db', eb', lastscan + x + y, lastpos + x + z)
            && Interpret(text, ctrl, db', eb', |target|, 0, []) == None
  {
    hide Interpret, Triple, Delta;
    var t, dx, ey := Triple(x, y, z), Delta(text, target, lastscan, lastpos, x), target[lastscan + x..lastscan + x + y];
    assert Interpret(text, ctrl, db + dx, eb + ey, |target|, 0, []) == None by {
      assert ctrl + [] == ctrl;
      assert Interpret(text, ctrl + [], db + dx, eb + ey, |target|, 0, [])
          == Interpret(text, [], dx, ey, |target|, lastpos, target[..lastscan]);
      Stuck(text, dx, ey, |target|, lastpos, target[..lastscan]);
    }
    forall c: seq<Byte>, d: seq<Byte>, e: seq<Byte>
      ensures Interpret(text, ctrl + t + c, db + dx + d, eb + ey + e, |target|, 0, [])
           == Interpret(text, c, d, e, |target|, lastpos + x + z, target[..lastscan + x + y])
    {
      Reappend(ctrl, t, c);
      Reappend(db, dx, d);
      Reappend(eb, ey, e);
      RegionReads(text, target, lastscan, lastpos, x, y, z, c, d, e);
    }
  }

  const LIMIT := 0x8000_0000_0000_0000

  /** The last triple was needed: without it the interpreter fails. */
  ghost predicate EveryTripleUsed(text: seq<Byte>, target: seq<Byte>, ctrl: seq<Byte>, db: seq<Byte>, eb: seq<Byte>) {
    |ctrl| >= 24 && Interpret(text, ctrl[..|ctrl| - 24], db, eb, |target|, 0, []) == None
  }

  method AppendDelta(text: seq<Byte>, target: seq<Byte>, db: seq<Byte>, lastscan: int, lastpos: int, lenf: int) returns (db': seq<Byte>)
    requires 0 <= lastscan && 0 <= lenf && lastscan + lenf <= |target| && 0 <= lastpos && lastpos + lenf <= |text|
    ensures db' == db + Delta(text, target, lastscan, lastpos, lenf)
  {
    db' := db;
    var i := 0;
    while i < lenf
      invariant 0 <= i <= lenf
      invariant db' == db + Delta(text, target, lastscan, lastpos, i)
    {
      db' := db' + [Minus(target[lastscan + i], text[lastpos + i])];
      i := i + 1;
    }
  }

  method AppendExtra(target: seq<Byte>, eb: seq<Byte>, from: int, n: int) returns (eb': seq<Byte>)
    requires 0 <= from && 0 <= n && from + n <= |target|
    ensures eb' == eb + target[from..from + n]
  {
    eb' := eb;
    var i := 0;
    while i < n
      invariant 0 <= i <= n
      invariant eb' == eb + target[from..from + i]
    {
      eb' := eb' + [target[from + i]];
      i := i + 1;
    }
  }

  /** Append the differences and the extra bytes of one region, and its triple. */
  method Emit(text: seq<Byte>, target: seq<Byte>, ctrl: seq<Byte>, db: seq<Byte>, eb: seq<Byte>,
              lastscan: int, lastpos: int, lenf: int, next: int, z: int)
    returns (ctrl': seq<Byte>, db': seq<Byte>, eb': seq<Byte>)
    requires Encodes(text, target, ctrl, db, eb, lastscan, lastpos)
    requires 0 <= lastscan < |target| < LIMIT && |text| < LIMIT
    requires 0 <= lenf && lastscan + lenf <= next <= |target| && 0 <= lastpos && lastpos + lenf <= |text| && Writable(z)
    ensures Encodes(text, target, ctrl', db', eb', next, lastpos + lenf + z)
    ensures EveryTripleUsed(text, target, ctrl', db', eb')
    ensures ctrl' == ctrl + Triple(lenf, next - (lastscan + lenf), z) && db' == db + Delta(text, target, lastscan, lastpos, lenf)
    ensures eb' == eb + target[lastscan + lenf..next]
  {
    hide Encodes, Interpret, Delta, Triple;
    var y := next - (lastscan + lenf);
    db' := AppendDelta(text, target, db, lastscan, lastpos, lenf);
    eb' := AppendExtra(target, eb, lastscan + lenf, y);
    RegionEncodes(text, target, ctrl, db, eb, lastscan, lastpos, lenf, y, z);
    ctrl' := ctrl + Triple(lenf, y, z);
    Unappend(ctrl, Triple(lenf, y, z));
  }

  lemma NothingWritten(text: seq<Byte>, target: seq<Byte>)
    ensures Encodes(text, target, [], [], [], 0, 0)
  {
    hide Interpret;
    forall c: seq<Byte>, d: seq<Byte>, e: seq<Byte>
      ensures Interpret(text, [] + c, [] + d, [] + e, |target|, 0, []) == Interpret(text, c, d, e, |target|, 0, target[..0])
    {
      assert [] + c == c && [] + d == d && [] + e == e && target[..0] == [];
    }
  }

  /** The streams of a complete patch: they rebuild the target, and none of their bytes is left over. */
  ghost predicate Complete(text: seq<Byte>, target: seq<Byte>, ctrl: seq<Byte>, db: seq<Byte>, eb: seq<Byte>) {
    && Interpret(text, ctrl, db, eb, |target|, 0, []) == Some(target)
    && |db| + |eb| == |target|
    && (if target == [] then ctrl == [] else EveryTripleUsed(text, target, ctrl, db, eb))
  }

  lemma EncodesComplete(text: seq<Byte>, target: seq<Byte>, ctrl: seq<Byte>, db: seq<Byte>, eb: seq<Byte>, lastpos: int)
    requires Encodes(text, target, ctrl, db, eb, |target|, lastpos)
    ensures Interpret(text, ctrl, db, eb, |target|, 0, []) == Some(target)
  {
    assert ctrl + [] == ctrl && db + [] == db && eb + [] == eb && target[..|target|] == target;
    assert Interpret(text, ctrl + [], db + [], eb + [], |target|, 0, []) == Interpret(text, [], [], [], |target|, lastpos, target);
  }

  // ----- Where the target is cut -----

  /** A region ends: a match of len bytes was found at scan and pos, and the stretches to both sides have these lengths. */
  datatype Cut = Cut(scan: int, pos: int, len: int, lenf: int, lenb: int)

  /** Where the next region begins in the target and in the old data, and how far those were apart at the last match. */
  datatype Mark = Mark(scan: int, pos: int, off: int)

  function MarkOf(cuts: seq<Cut>): Mark {
    if cuts == [] then Mark(0, 0, 0)
    else
      var c := cuts[|cuts| - 1];
      Mark(c.scan - c.lenb, c.pos - c.lenb, c.pos - c.scan)
  }

  /** The match is as long as it goes, and beats by more than 8 what the alignment before would match up to some place behind it. */
  ghost predicate Outdoes(text: seq<Byte>, target: seq<Byte>, c: Cut, off: int) {
    && 0 <= c.scan <= |target| && MatchEnds(text, c.pos, target, c.scan, c.len)
    && exists end :: c.scan + c.len <= end <= |target| && c.len > Hits(text, target, off, c.scan, end) + 8
  }

  /** A region from m to the cut: the stretches are the best ones, and only the end of the target ends it without such a match. */
  ghost predicate CutAt(text: seq<Byte>, target: seq<Byte>, m: Mark, c: Cut) {
    && 0 <= m.scan <= c.scan <= |target| && m.scan < |target| && 0 <= m.pos <= |text| && 0 <= c.pos <= |text|
    && 0 <= c.lenf && 0 <= c.lenb <= c.pos && m.scan + c.lenf <= c.scan - c.lenb && m.pos + c.lenf <= |text|
    && (exists f, b :: Stretched(text, target, m.scan, m.pos, c.scan, c.pos, f, b, c.lenf, c.lenb))
    && (c.scan < |target| ==> Outdoes(text, target, c, m.off))
  }

  ghost predicate Cuts(text: seq<Byte>, target: seq<Byte>, cuts: seq<Cut>) {
    cuts == [] || (Cuts(text, target, cuts[..|cuts| - 1]) && CutAt(text, target, MarkOf(cuts[..|cuts| - 1]), cuts[|cuts| - 1]))
  }

  /** The streams for these regions. */
  datatype Streams = Streams(ctrl: seq<Byte>, db: seq<Byte>, eb: seq<Byte>)

  /** One region more. */
  ghost function Extend(s: Streams, text: seq<Byte>, target: seq<Byte>, m: Mark, c: Cut): Streams
    requires CutAt(text, target, m, c) && |text| < LIMIT && |target| < LIMIT
  {
    var next := c.scan - c.lenb;
    Streams(s.ctrl + Triple(c.lenf, next - (m.scan + c.lenf), (c.pos - c.lenb) - (m.pos + c.lenf)),
            s.db + Delta(text, target, m.scan, m.pos, c.lenf), s.eb + target[m.scan + c.lenf..next])
  }

  ghost function StreamsOf(text: seq<Byte>, target: seq<Byte>, cuts: seq<Cut>): Streams
    requires Cuts(text, target, cuts) && |text| < LIMIT && |target| < LIMIT
  {
    if cuts == [] then Streams([], [], [])
    else
      var n := |cuts| - 1;
      Extend(StreamsOf(text, target, cuts[..n]), text, target, MarkOf(cuts[..n]), cuts[n])
  }

  lemma OneMore(text: seq<Byte>, target: seq<Byte>, cuts: seq<Cut>, c: Cut)
    requires Cuts(text, target, cuts) && CutAt(text, target, MarkOf(cuts), c) && |text| < LIMIT && |target| < LIMIT
    ensures var more := cuts + [c];
      && Cuts(text, target, more) && MarkOf(more) == Mark(c.scan - c.lenb, c.pos - c.lenb, c.pos - c.scan)
      && StreamsOf(text, target, more) == Extend(StreamsOf(text, target, cuts), text, target, MarkOf(cuts), c)
  {
    hide CutAt, Extend;
    var more := cuts + [c];
    assert more[..|cuts|] == cuts && more[|cuts|] == c;
  }

  /** The main loop of bsdiff. */
  method DiffStreams(I: seq<int>, text: seq<Byte>, target: seq<Byte>) returns (ctrl: seq<Byte>, db: seq<Byte>, eb: seq<Byte>, ghost cuts: seq<Cut>)
    requires SuffixArray(text, I) && |text| < LIMIT && |target| < LIMIT
    ensures Complete(text, target, ctrl, db, eb) && |ctrl| <= 24 * (|target| + 1)
    ensures Cuts(text, target, cuts) && MarkOf(cuts).scan == |target| && Streams(ctrl, db, eb) == StreamsOf(text, target, cuts)
  {
    hide SuffixArray, Encodes, EveryTripleUsed, Cuts, StreamsOf, CutAt, Triple, Delta, MatchEnds, Hits;
    NothingWritten(text, target);
    cuts := [];
    NoCuts(text, target);
    ctrl, db, eb := [], [], [];
    var scan, len, pos := 0, 0, 0;
    var lastscan, lastpos, lastoffset := 0, 0, 0;
    while scan < |target|
      invariant 0 <= lastscan <= scan <= |target| && 0 <= lastpos <= |text| && 0 <= pos <= |text| && 0 <= len && 0 <= scan + lastoffset
      invariant if scan < |target| then scan + len <= |target| else lastscan == |target|
      invariant Encodes(text, target, ctrl, db, eb, lastscan, lastpos) && |db| + |eb| == lastscan
      invariant if lastscan < |target| then true else if target == [] then ctrl == [] else EveryTripleUsed(text, target, ctrl, db, eb)
      invariant scan < |target| ==> lastscan < |target|
      invariant |ctrl| <= 24 * if scan < |target| then scan + len else |target| + 1
      invariant Cuts(text, target, cuts) && MarkOf(cuts) == Mark(lastscan, lastpos, lastoffset)
      invariant Streams(ctrl, db, eb) == StreamsOf(text, target, cuts)
      decreases if scan < |target| then |target| - (scan + len) + 1 else 0
    {
      var oldscore;
      ghost var scored;
      scan, len, pos, oldscore, scored := NextMatch(I, text, target, scan + len, len, pos, lastoffset);
      if len != oldscore || scan == |target| {
        var lenf, lenb := Stretch(text, target, lastscan, lastpos, scan, pos);
        ghost var c := Cut(scan, pos, len, lenf, lenb);
        CutHere(text, target, Mark(lastscan, lastpos, lastoffset), c, oldscore, scored);
        OneMore(text, target, cuts, c);
        cuts := cuts + [c];
        ctrl, db, eb := Emit(text, target, ctrl, db, eb, lastscan, lastpos, lenf, scan - lenb, (pos - lenb) - (lastpos + lenf));
        lastscan := scan - lenb;
        lastpos := pos - lenb;
        lastoffset := pos - scan;
      }
    }
    EncodesComplete(text, target, ctrl, db, eb, lastpos);
  }

  lemma NoCuts(text: seq<Byte>, target: seq<Byte>)
    ensures Cuts(text, target, []) && MarkOf([]) == Mark(0, 0, 0)
    ensures |text| < LIMIT && |target| < LIMIT ==> StreamsOf(text, target, []) == Streams([], [], [])
  {
  }

  lemma CutHere(text: seq<Byte>, target: seq<Byte>, m: Mark, c: Cut, oldscore: int, scored: int)
    requires 0 <= m.scan <= c.scan <= |target| && m.scan < |target| && 0 <= m.pos <= |text| && 0 <= c.pos <= |text|
    requires 0 <= c.lenf && 0 <= c.lenb <= c.pos && m.scan + c.lenf <= c.scan - c.lenb && m.pos + c.lenf <= |text|
    requires exists f, b :: Stretched(text, target, m.scan, m.pos, c.scan, c.pos, f, b, c.lenf, c.lenb)
    requires c.scan < |target| ==> MatchEnds(text, c.pos, target, c.scan, c.len) && c.scan + c.len <= scored <= |target|
    requires c.scan < |target| ==> oldscore == Hits(text, target, m.off, c.scan, scored) && c.len > oldscore + 8
    ensures CutAt(text, target, m, c)
  {
    hide Stretched, MatchEnds;
  }

  /** The patch file: a 32-byte header and the three compressed streams. */
  function Assemble(c: Codec, ctrl: seq<Byte>, db: seq<Byte>, eb: seq<Byte>, size: nat): (r: seq<Byte>)
    requires Writable(|c.compress(ctrl)|) && Writable(|c.compress(db)|) && Writable(size)
  {
    var zc, zd, ze := c.compress(ctrl), c.compress(db), c.compress(eb);
    MAGIC + (OffOut(|zc|) + (OffOut(|zd|) + (OffOut(size) + (zc + (zd + ze)))))
  }

  /** Where each part of the patch file stands. */
  lemma Layout(c: Codec, ctrl: seq<Byte>, db: seq<Byte>, eb: seq<Byte>, size: nat)
    requires Writable(|c.compress(ctrl)|) && Writable(|c.compress(db)|) && Writable(size)
    ensures var r, n, m := Assemble(c, ctrl, db, eb, size), |c.compress(ctrl)|, |c.compress(db)|;
      && |r| == 32 + n + m + |c.compress(eb)| && r[..8] == MAGIC && r[8..16] == OffOut(n) && r[16..24] == OffOut(m) && r[24..32] == OffOut(size)
      && r[32..32 + n] == c.compress(ctrl) && r[32 + n..32 + n + m] == c.compress(db) && r[32 + n + m..] == c.compress(eb)
  {
    hide OffOut;
    var zc, zd, ze := c.compress(ctrl), c.compress(db), c.compress(eb);
    var hc, hd, hs := OffOut(|zc|), OffOut(|zd|), OffOut(size);
    var r := Assemble(c, ctrl, db, eb, size);
    assert r[0..] == r;
    Peel(r, 0, MAGIC, hc + (hd + (hs + (zc + (zd + ze)))));
    Peel(r, 8, hc, hd + (hs + (zc + (zd + ze))));
    Peel(r, 16, hd, hs + (zc + (zd + ze)));
    Peel(r, 24, hs, zc + (zd + ze));
    Peel(r, 32, zc, zd + ze);
    Peel(r, 32 + |zc|, zd, ze);
  }

  /** Wherever the patch file stands inside a larger blob, its header leads to its three streams. */
  lemma AssembleReads(c: Codec, source: seq<Byte>, ctrl: seq<Byte>, db: seq<Byte>, eb: seq<Byte>, size: nat, pre: seq<Byte>, post: seq<Byte>)
    requires SelfDelimiting(c) && Writable(|c.compress(ctrl)|) && Writable(|c.compress(db)|) && Writable(size)
    ensures Apply(c, source, pre + Assemble(c, ctrl, db, eb, size) + post, |pre|) == Interpret(source, ctrl, db, eb, size, 0, [])
  {
    hide OffIn, OffOut, Interpret, Apply;
    var zc, zd, ze := c.compress(ctrl), c.compress(db), c.compress(eb);
    var hc, hd, hs := OffOut(|zc|), OffOut(|zd|), OffOut(size);
    OffRoundTrip(|zc|);
    OffRoundTrip(|zd|);
    OffRoundTrip(size);
    var blob, at := pre + Assemble(c, ctrl, db, eb, size) + post, |pre|;
    Reappend(pre, Assemble(c, ctrl, db, eb, size), post);
    Unappend(pre, Assemble(c, ctrl, db, eb, size) + post);
    Reappend(MAGIC, hc + (hd + (hs + (zc + (zd + ze)))), post);
    Reappend(hc, hd + (hs + (zc + (zd + ze))), post);
    Reappend(hd, hs + (zc + (zd + ze)), post);
    Reappend(hs, zc + (zd + ze), post);
    Reappend(zc, zd + ze, post);
    Reappend(zd, ze, post);
    var re := ze + post;
    var rd := zd + re;
    var rc := zc + rd;
    Peel(blob, at, MAGIC, hc + (hd + (hs + rc)));
    Peel(blob, at + 8, hc, hd + (hs + rc));
    Peel(blob, at + 16, hd, hs + rc);
    Peel(blob, at + 24, hs, rc);
    Peel(blob, at + 32, zc, rd);
    Peel(blob, at + 32 + |zc|, zd, re);
    Decompressed(c, ctrl);
    Decompressed(c, db);
    assert c.decompress(re) == eb;
    ApplyParsed(c, source, blob, at, ctrl, db, eb, |zc|, |zd|, size);
  }

  lemma Decompressed(c: Codec, x: seq<Byte>)
    requires SelfDelimiting(c)
    ensures c.decompress(c.compress(x)) == x
  {
    assert c.compress(x) + [] == c.compress(x);
    assert c.decompress(c.compress(x) + []) == x;
  }

  lemma ApplyParsed(c: Codec, source: seq<Byte>, blob: seq<Byte>, at: int, ctrl: seq<Byte>, db: seq<Byte>, eb: seq<Byte>, lc: nat, ld: nat, size: nat)
    requires 0 <= at && at + 32 + lc + ld <= |blob| && blob[at..at + 8] == MAGIC
    requires OffIn(blob[at + 8..at + 16]) == lc && OffIn(blob[at + 16..at + 24]) == ld && OffIn(blob[at + 24..at + 32]) == size
    requires c.decompress(blob[at + 32..at + 32 + lc]) == ctrl
    requires c.decompress(blob[at + 32 + lc..at + 32 + lc + ld]) == db
    requires c.decompress(blob[at + 32 + lc + ld..]) == eb
    ensures Apply(c, source, blob, at) == Interpret(source, ctrl, db, eb, size, 0, [])
  {
    hide OffIn, Interpret;
  }

  /** Compression takes no stream of a patch for n bytes past b. */
  ghost predicate Within(c: Codec, n: nat, b: nat) {
    forall s: seq<Byte> :: |s| <= 24 * (n + 1) ==> |c.compress(s)| <= b
  }

  /** The patch is that of regions cut where a match beats the alignment before, stretched as well as can be. */
  ghost predicate Describes(c: Codec, text: seq<Byte>, target: seq<Byte>, cuts: seq<Cut>, patch: seq<Byte>) {
    && |text| < LIMIT && |target| < LIMIT && Cuts(text, target, cuts) && MarkOf(cuts).scan == |target|
    && var s := StreamsOf(text, target, cuts);
    Writable(|c.compress(s.ctrl)|) && Writable(|c.compress(s.db)|) && patch == Assemble(c, s.ctrl, s.db, s.eb, |target|)
  }

  /**
   * bsdiff: sort the old data's suffixes unless the caller already has them, and write the patch. It
   * fails only when a stream's length does not fit the header. Applied to the old data, wherever it
   * stands in a larger blob, the patch rebuilds the new data exactly.
   */
  method WritePatch(c: Codec, text: seq<Byte>, IP: array?<int>, target: seq<Byte>) returns (patch: Option<seq<Byte>>, I: array<int>)
    requires SelfDelimiting(c) && |text| < LIMIT && |target| < LIMIT
    requires IP != null ==> SuffixArray(text, IP[..])
    ensures SuffixArray(text, I[..]) && (IP != null ==> I == IP)
    ensures patch.Some? ==> forall pre: seq<Byte>, post: seq<Byte> :: Apply(c, text, pre + patch.value + post, |pre|) == Some(target)
    ensures patch.Some? ==> exists cuts :: Describes(c, text, target, cuts, patch.value)
    ensures forall b: nat :: Within(c, |target|, b) ==> if patch.None? then b >= LIMIT else |patch.value| <= 32 + 3 * b
  {
    hide SuffixArray, Apply, Interpret, Cuts, StreamsOf, Assemble, SelfDelimiting;
    if IP == null {
      I := new int[|text| + 1];
      var V := new int[|text| + 1];
      QSufSort.QSufSort(I, V, text);
    } else {
      I := IP;
    }
    var ctrl, db, eb;
    ghost var cuts;
    ctrl, db, eb, cuts := DiffStreams(I[..], text, target);
    if |c.compress(ctrl)| >= LIMIT || |c.compress(db)| >= LIMIT {
      patch := None;
    } else {
      patch := Some(Assemble(c, ctrl, db, eb, |target|));
      Layout(c, ctrl, db, eb, |target|);
      assert Describes(c, text, target, cuts, patch.value);
      forall pre: seq<Byte>, post: seq<Byte> ensures Apply(c, text, pre + patch.value + post, |pre|) == Some(target) {
        AssembleReads(c, text, ctrl, db, eb, |target|, pre, post);
      }
    }
  }
}
