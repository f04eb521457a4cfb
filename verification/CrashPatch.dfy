/** applypatch with the patches that bsdiff and imgdiff write: what a rerun achieves, and the whole update. */
module CrashPatch {
  import opened Bytes
  import opened Numbers
  import opened Paths
  import opened BsPatch
  import opened ImgFormat
  import opened ImgPatch
  import BsDiff
  import opened CrashModel
  import opened CrashSafety
  import opened CrashExact

  // ----- What a patch file gives, piece by piece -----

  /** The chunks of an image patch from the i-th on. What becomes of a normal chunk is not looked at. */
  function ImagePieces(c: Codec, z: Zlib, src: seq<Byte>, blob: seq<Byte>, bonus: Option<seq<Byte>>, i: int, n: int, pos: int): Product
    requires 0 <= pos
    decreases n - i
  {
    if i >= n then Product([], true)
    else
      var d := Decode(blob, pos);
      if d.None? then Product([], false)
      else
        var o := ChunkOutput(c, z, src, blob, bonus, i, d.value.0);
        if o.None? then Product([], false)
        else
          var rest := ImagePieces(c, z, src, blob, bonus, i + 1, n, d.value.1);
          Product([Piece(o.value, !d.value.0.NormalHeader?)] + rest.pieces, rest.good)
  }

  /** The choice between the two formats. */
  function PatchProduct(c: Codec, z: Zlib, bonus: Option<seq<Byte>>, blob: seq<Byte>, src: seq<Byte>): Product {
    if |blob| >= 8 && blob[..8] == MAGIC then
      var r := Apply(c, src, blob, 0);
      if r.Some? then Product([Piece(r.value, true)], true) else Product([], false)
    else if |blob| >= 12 && blob[..8] == IMG_MAGIC then ImagePieces(c, z, src, blob, bonus, 0, ReadAt4(blob, 8), 12)
    else Product([], false)
  }

  /** What applying the patch gives if every byte is accepted. */
  function PatchOutput(c: Codec, z: Zlib, bonus: Option<seq<Byte>>, blob: seq<Byte>, src: seq<Byte>): Option<seq<Byte>> {
    if |blob| >= 8 && blob[..8] == MAGIC then Apply(c, src, blob, 0) else ApplyImage(c, z, src, blob, bonus)
  }

  lemma {:induction false} FullCons(p: Piece, ps: seq<Piece>)
    ensures Full([p] + ps) == p.bytes + Full(ps)
    decreases |ps|
  {
    var all := [p] + ps;
    if ps == [] {
      assert all == [p] && all[..0] == [];
    } else {
      var n := |ps| - 1;
      FullCons(p, ps[..n]);
      assert all[..|all| - 1] == [p] + ps[..n];
      Reappend(p.bytes, Full(ps[..n]), ps[n].bytes);
    }
  }

  lemma {:induction false} ImagePiecesMean(c: Codec, z: Zlib, src: seq<Byte>, blob: seq<Byte>, bonus: Option<seq<Byte>>, i: int, n: int, pos: int, out: seq<Byte>)
    requires 0 <= pos
    ensures var p := ImagePieces(c, z, src, blob, bonus, i, n, pos);
      ApplyChunks(c, z, src, blob, bonus, i, n, pos, out) == if p.good then Some(out + Full(p.pieces)) else None
    decreases n - i
  {
    hide Decode, ChunkOutput, Full;
    if i >= n {
      assert Full([]) == [] by { FullNothing(); }
      assert out + [] == out;
    } else {
      var d := Decode(blob, pos);
      if d.Some? {
        var o := ChunkOutput(c, z, src, blob, bonus, i, d.value.0);
        if o.Some? {
          var rest := ImagePieces(c, z, src, blob, bonus, i + 1, n, d.value.1);
          ImagePiecesMean(c, z, src, blob, bonus, i + 1, n, d.value.1, out + o.value);
          FullCons(Piece(o.value, !d.value.0.NormalHeader?), rest.pieces);
          Reappend(out, o.value, Full(rest.pieces));
        }
      }
    }
  }

  lemma FullNothing()
    ensures Full([]) == []
  {
  }

  /** The pieces together are the output of the patch, and it succeeds exactly if they do. */
  lemma ProductMeans(c: Codec, z: Zlib, bonus: Option<seq<Byte>>, blob: seq<Byte>, src: seq<Byte>)
    ensures var p := PatchProduct(c, z, bonus, blob, src);
      PatchOutput(c, z, bonus, blob, src) == if p.good then Some(Full(p.pieces)) else None
  {
    hide Apply, ApplyChunks, ImagePieces;
    if |blob| >= 8 && blob[..8] == MAGIC {
      var r := Apply(c, src, blob, 0);
      if r.Some? {
        FullCons(Piece(r.value, true), []);
        assert [Piece(r.value, true)] + [] == [Piece(r.value, true)] && r.value + [] == r.value;
      }
    } else if |blob| >= 12 && blob[..8] == IMG_MAGIC {
      ImagePiecesMean(c, z, src, blob, bonus, 0, ReadAt4(blob, 8), 12, []);
      var p := ImagePieces(c, z, src, blob, bonus, 0, ReadAt4(blob, 8), 12);
      assert [] + Full(p.pieces) == Full(p.pieces);
    }
  }

  // ----- A rerun that nothing disturbs -----

  /** The next step when there is room and nothing fails. */
  function Go(w: World, c: Call, s: State): State {
    match s.pc
    case Idle =>
      (match Decide(w, c, s.fs)
       case AlreadyDone => s.(pc := Exited(0))
       case NoInput => s.(pc := Exited(1))
       case Use(fromSource, data) => State(s.fs, Choosing, fromSource, data, 1, false, 1))
    case Choosing => s.(pc := Opening)
    case Opening => s.(pc := Patching([]), fs := s.fs[Out(c) := []])
    case Patching(short) =>
      var p := c.product(s.data);
      if Out(c) in s.fs && |short| < |p.pieces| then s.(pc := Patching(short + [false]), fs := Append(s.fs, Out(c), p.pieces[|short|].bytes))
      else if p.good then s.(pc := Checking(short))
      else s.(pc := Retrying)
    case Checking(short) =>
      var ps := c.product(s.data).pieces;
      s.(pc := if |short| <= |ps| && w.sha(Hashed(ps, short)) == c.goal then Installing(short) else Exited(1))
    case Installing(_) => s.(pc := CleaningUp, fs := if Out(c) in s.fs then Rename(s.fs, Out(c), Target(c)) else s.fs)
    case CleaningUp => s.(pc := Exited(0), fs := if s.madeCopy then Without(s.fs, COPY) else s.fs)
    case _ => s
  }

  function Iter(w: World, c: Call, s: State, n: nat): State
    decreases n
  {
    if n == 0 then s else Iter(w, c, Go(w, c, s), n - 1)
  }

  lemma {:induction false} IterPlus(w: World, c: Call, s: State, a: nat, b: nat)
    ensures Iter(w, c, s, a + b) == Iter(w, c, Iter(w, c, s, a), b)
    decreases a
  {
    hide Go;
    if a > 0 {
      IterPlus(w, c, Go(w, c, s), a - 1, b);
    }
  }

  /** These are steps of the protocol, as long as there is room and the patch is good. */
  lemma GoIsNext(w: World, c: Call, s: State)
    requires s.pc == Choosing ==> s.retry > 0
    requires s.pc.Patching? ==> Out(c) in s.fs && |s.pc.short| <= |c.product(s.data).pieces| && c.product(s.data).good
    requires s.pc.Checking? ==> |s.pc.short| <= |c.product(s.data).pieces|
    requires s.pc.Installing? ==> Out(c) in s.fs
    requires s.pc in {Idle, Choosing, Opening, CleaningUp} || s.pc.Patching? || s.pc.Checking? || s.pc.Installing?
    ensures Next(w, c, s, Go(w, c, s))
  {
    var t := Go(w, c, s);
    assert Start(w, c, s, t) || Choose(c, s, t) || Open(c, s, t) || Write(c, s, t) || Finish(c, s, t) || Check(w, c, s, t) || Install(c, s, t) || CleanUp(s, t) by {
      hide Resolve, Decide, Hashed;
    }
    hide *;
    Steps(w, c, s, t);
  }

  /** After k pieces. */
  function Wrote(c: Call, s: State, k: nat): State
    requires k <= |c.product(s.data).pieces|
  {
    s.(pc := Patching(seq(k, _ => false)), fs := s.fs[Out(c) := Full(c.product(s.data).pieces[..k])])
  }

  lemma {:induction false} WritesAll(w: World, c: Call, s: State, k: nat)
    requires k <= |c.product(s.data).pieces|
    ensures Iter(w, c, Wrote(c, s, 0), k) == Wrote(c, s, k)
    decreases k
  {
    hide Resolve, Iter;
    IterNone(w, c, Wrote(c, s, k));
    if k > 0 {
      WritesAll(w, c, s, k - 1);
      IterPlus(w, c, Wrote(c, s, 0), k - 1, 1);
      IterOne(w, c, Wrote(c, s, k - 1), 0);
      var a, ps := Wrote(c, s, k - 1), c.product(s.data).pieces;
      assert ps[..k][..k - 1] == ps[..k - 1];
      assert seq(k - 1, _ => false) + [false] == seq(k, _ => false);
      assert Append(a.fs, Out(c), ps[k - 1].bytes) == Wrote(c, s, k).fs;
      assert Go(w, c, a) == Wrote(c, s, k);
    }
  }

  /** What a patch that yields the goal leaves when nothing disturbs it. */
  lemma PatchFinishes(w: World, c: Call, s: State)
    requires s.pc == Choosing && !s.madeCopy
    requires c.product(s.data).good && w.sha(Full(c.product(s.data).pieces)) == c.goal
    ensures var ps := c.product(s.data).pieces; var e := Iter(w, c, s, |ps| + 6);
      e.pc == Exited(0) && Target(c) in e.fs && e.fs[Target(c)] == Full(ps)
  {
    var m, a := |c.product(s.data).pieces|, s.(pc := Opening);
    FirstSteps(w, c, s);
    hide *;
    WritesAll(w, c, a, m);
    IterPlus(w, c, Wrote(c, a, 0), m, 4);
    LastSteps(w, c, a);
    IterOne(w, c, s, m + 5);
    IterOne(w, c, a, m + 4);
  }

  lemma IterOne(w: World, c: Call, s: State, n: nat)
    ensures Iter(w, c, s, n + 1) == Iter(w, c, Go(w, c, s), n)
  {
  }

  lemma FirstSteps(w: World, c: Call, s: State)
    requires s.pc == Choosing
    ensures var a := s.(pc := Opening); Go(w, c, s) == a && Go(w, c, a) == Wrote(c, a, 0)
  {
    hide Resolve;
    assert seq(0, _ => false) == [];
    assert c.product(s.data).pieces[..0] == [];
  }

  lemma LastSteps(w: World, c: Call, s: State)
    requires !s.madeCopy && c.product(s.data).good && w.sha(Full(c.product(s.data).pieces)) == c.goal
    ensures var ps := c.product(s.data).pieces; var e := Iter(w, c, Wrote(c, s, |ps|), 4);
      e.pc == Exited(0) && Target(c) in e.fs && e.fs[Target(c)] == Full(ps)
  {
    hide Resolve, Full, Hashed, Iter;
    var ps := c.product(s.data).pieces;
    var d, none := Wrote(c, s, |ps|), seq(|ps|, _ => false);
    assert ps[..|ps|] == ps;
    assert d.pc == Patching(none) && Out(c) in d.fs && d.fs[Out(c)] == Full(ps) && d.data == s.data && !d.madeCopy;
    HashedLength(ps, none);
    hide *;
    LastGo(w, c, d, none, Full(ps));
  }

  /** The four steps after the last piece. */
  lemma LastFour(w: World, c: Call, d: State, short: seq<bool>, out: seq<Byte>)
    requires d.pc == Patching(short) && !d.madeCopy && Out(c) in d.fs && d.fs[Out(c)] == out
    requires |short| == |c.product(d.data).pieces| && c.product(d.data).good && w.sha(Hashed(c.product(d.data).pieces, short)) == c.goal
    ensures var e := Go(w, c, Go(w, c, Go(w, c, Go(w, c, d)))); e.pc == Exited(0) && Target(c) in e.fs && e.fs[Target(c)] == out
  {
    hide Resolve, Hashed;
    OutIsApart(c);
    var e1, e2 := d.(pc := Checking(short)), d.(pc := Installing(short));
    var e3 := d.(pc := CleaningUp, fs := Rename(d.fs, Out(c), Target(c)));
    var e4 := e3.(pc := Exited(0));
    assert e4.fs[Target(c)] == out;
    assert Go(w, c, d) == e1 && Go(w, c, e1) == e2 && Go(w, c, e2) == e3 && Go(w, c, e3) == e4 by { hide Rename, Out, Target; }
  }

  lemma LastGo(w: World, c: Call, d: State, short: seq<bool>, out: seq<Byte>)
    requires d.pc == Patching(short) && !d.madeCopy && Out(c) in d.fs && d.fs[Out(c)] == out
    requires |short| == |c.product(d.data).pieces| && c.product(d.data).good && w.sha(Hashed(c.product(d.data).pieces, short)) == c.goal
    ensures var e := Iter(w, c, d, 4); e.pc == Exited(0) && Target(c) in e.fs && e.fs[Target(c)] == out
  {
    hide *;
    LastFour(w, c, d, short, out);
    var e1 := Go(w, c, d);
    var e2 := Go(w, c, e1);
    var e3 := Go(w, c, e2);
    IterOne(w, c, d, 3);
    IterOne(w, c, e1, 2);
    IterOne(w, c, e2, 1);
    IterOne(w, c, e3, 0);
    IterNone(w, c, Go(w, c, e3));
  }

  lemma IterNone(w: World, c: Call, s: State)
    ensures Iter(w, c, s, 0) == s
  {
  }

  /** With whatever input a call can come to use, the patch gives the file asked for. */
  ghost predicate Honest(w: World, c: Call) {
    forall d: seq<Byte> :: Input(w, c, d) ==> c.product(d).good && w.sha(Full(c.product(d).pieces)) == c.goal
  }

  lemma HonestIsSealed(w: World, c: Call)
    requires Injective(w) && Honest(w, c)
    ensures Sealed(w, c)
  {
    hide Input, Full, Sealed;
    HonestSealed(w, c);
  }

  /** Where an undisturbed run with honest patches can be. */
  ghost predicate OnCourse(c: Call, s: State) {
    match s.pc
    case Choosing => s.retry > 0 && c.product(s.data).good
    case Opening => c.product(s.data).good
    case Patching(short) => Out(c) in s.fs && |short| <= |c.product(s.data).pieces| && c.product(s.data).good
    case Checking(short) => Out(c) in s.fs && |short| <= |c.product(s.data).pieces|
    case Installing(_) => Out(c) in s.fs
    case MakingRoom => false
    case Saving(_) => false
    case Saved => false
    case Retrying => false
    case _ => true
  }

  /** The run has ended, or its next step is one of the protocol. */
  ghost predicate Protocol(w: World, c: Call, s: State) { s.pc.Exited? || Next(w, c, s, Go(w, c, s)) }

  lemma GoOnCourse(w: World, c: Call, s: State)
    requires OnCourse(c, s) && Honest(w, c)
    ensures OnCourse(c, Go(w, c, s))
  {
    hide Resolve, Full, Hashed, Input, Decide;
    if s.pc == Idle && Decide(w, c, s.fs).Use? {
      DecidedInput(w, c, s.fs);
    }
  }

  lemma {:induction false} StaysOnCourse(w: World, c: Call, s: State, k: nat)
    requires OnCourse(c, s) && Honest(w, c)
    ensures Protocol(w, c, Iter(w, c, s, k))
    decreases k
  {
    if k == 0 {
      if !s.pc.Exited? {
        assert s.pc in {Idle, Choosing, Opening, CleaningUp} || s.pc.Patching? || s.pc.Checking? || s.pc.Installing?;
        hide Next, Go;
        GoIsNext(w, c, s);
      }
    } else {
      hide Next, Go, Honest;
      GoOnCourse(w, c, s);
      StaysOnCourse(w, c, Go(w, c, s), k - 1);
    }
  }

  /**
   * Progress: from all files that offer something, with room and honest patches, a rerun that nothing disturbs ends, and
   * then the target has the digest asked for.
   */
  lemma RerunFinishes(w: World, c: Call, fs: Files) returns (n: nat)
    requires !Partition(TargetName(c.source, c.target)) && Recoverable(w, c, fs) && GoalLoads(w, c) && Honest(w, c)
    ensures var e := Iter(w, c, Resting(fs), n);
      e.pc == Exited(0) && LoadFile(w, e.fs, Target(c)).Some? && w.sha(LoadFile(w, e.fs, Target(c)).value) == c.goal
    ensures forall k: nat :: k < n ==> Protocol(w, c, Iter(w, c, Resting(fs), k))
  {
    hide Resolve, Full, Hashed, Partition, Protocol;
    var s := Resting(fs);
    forall k: nat | true
      ensures Protocol(w, c, Iter(w, c, s, k))
    {
      StaysOnCourse(w, c, s, k);
    }
    GivesUpOnlyWithoutInput(w, c, fs);
    match Decide(w, c, fs) {
      case AlreadyDone =>
        n := 1;
        assert Iter(w, c, s, 1) == Iter(w, c, Go(w, c, s), 0);
        assert Load(w, fs, TargetName(c.source, c.target)) == LoadFile(w, fs, Target(c));
      case Use(fromSource, data) =>
        var t := State(fs, Choosing, fromSource, data, 1, false, 1);
        assert Go(w, c, s) == t;
        DecidedInput(w, c, fs);
        PatchFinishes(w, c, t);
        n := 1 + (|c.product(data).pieces| + 6);
        assert Iter(w, c, s, n) == Iter(w, c, t, n - 1);
      case NoInput =>
        assert false;
    }
  }

  lemma DecidedInput(w: World, c: Call, fs: Files)
    requires Decide(w, c, fs).Use?
    ensures Input(w, c, Decide(w, c, fs).data)
  {
    hide Resolve;
    var u, name := Decide(w, c, fs), TargetName(c.source, c.target);
    var at := if u.fromSource then Source(c) else COPY;
    assert u.fromSource && Partition(c.source) ==> w.partition(c.source) == Some(u.data);
    assert !(u.fromSource && Partition(c.source)) ==> at in fs && w.load(fs[at]) == Some(u.data);
  }

  // ----- The whole update -----

  /** A call with patch files, one for each digest it accepts. */
  function PatchCall(codec: Codec, z: Zlib, bonus: Option<seq<Byte>>, w: World, source: string, target: string, goal: seq<Byte>,
                     patches: map<seq<Byte>, seq<Byte>>): Call
  {
    Call(source, target, goal, patches.Keys,
         d => if w.sha(d) in patches then PatchProduct(codec, z, bonus, patches[w.sha(d)], d) else Product([], false))
  }

  /** Every patch file turns the image with its digest into the new one. */
  ghost predicate MakesNew(codec: Codec, z: Zlib, bonus: Option<seq<Byte>>, w: World, patches: map<seq<Byte>, seq<Byte>>, image: seq<Byte>) {
    forall d: seq<Byte> :: w.sha(d) in patches ==> PatchOutput(codec, z, bonus, patches[w.sha(d)], d) == Some(image)
  }

  lemma PatchCallHonest(codec: Codec, z: Zlib, bonus: Option<seq<Byte>>, w: World, source: string, target: string,
                        patches: map<seq<Byte>, seq<Byte>>, image: seq<Byte>)
    requires MakesNew(codec, z, bonus, w, patches, image)
    ensures Honest(w, PatchCall(codec, z, bonus, w, source, target, w.sha(image), patches))
  {
    hide PatchOutput, PatchProduct, Full;
    var c := PatchCall(codec, z, bonus, w, source, target, w.sha(image), patches);
    forall d: seq<Byte> | Input(w, c, d)
      ensures c.product(d).good && w.sha(Full(c.product(d).pieces)) == c.goal
    {
      ProductMeans(codec, z, bonus, patches[w.sha(d)], d);
    }
  }

  /**
   * The whole update: patch files that turn each accepted image into the new one, safe names, inputs that reload, a new
   * image that loads as it is, and digests that tell files apart. Then in every run, through crashes, reruns and short
   * writes, something to go on from is left; a rerun that nothing disturbs always finishes; and the target then holds
   * the new image.
   */
  lemma UpdateSucceeds(codec: Codec, z: Zlib, bonus: Option<seq<Byte>>, w: World, source: string, target: string,
                       patches: map<seq<Byte>, seq<Byte>>, image: seq<Byte>, r: seq<State>, i: nat) returns (n: nat)
    requires MakesNew(codec, z, bonus, w, patches, image) && Injective(w) && w.load(image) == Some(image)
    requires !Partition(TargetName(source, target)) && (Partition(source) || (SafeNames(source, target) && Reloads(w, patches.Keys)))
    requires var c := PatchCall(codec, z, bonus, w, source, target, w.sha(image), patches);
      Run(w, c, r) && Recoverable(w, c, r[0].fs) && i < |r|
    ensures var c := PatchCall(codec, z, bonus, w, source, target, w.sha(image), patches);
      && Recoverable(w, c, r[i].fs)
      && var e := Iter(w, c, Resting(r[i].fs), n); e.pc == Exited(0) && LoadFile(w, e.fs, Target(c)) == Some(image)
  {
    hide Next, Recoverable, MakesNew, Resolve, Full, Iter, Reloads, Expendable, Partition;
    var c := PatchCall(codec, z, bonus, w, source, target, w.sha(image), patches);
    PatchCallHonest(codec, z, bonus, w, source, target, patches, image);
    hide Honest;
    HonestIsSealed(w, c);
    hide Sealed;
    AlwaysRecoverable(w, c, r);
    assert GoalLoads(w, c);
    n := RerunFinishes(w, c, r[i].fs);
  }

  // ----- A patch file that loses everything when a chunk comes out short -----

  /** The pieces that records yield. */
  function PiecesOf(rs: seq<Record>, outs: seq<seq<Byte>>): seq<Piece>
    requires |rs| == |outs|
  {
    if rs == [] then [] else [Piece(outs[0], !rs[0].header.NormalHeader?)] + PiecesOf(rs[1..], outs[1..])
  }

  lemma {:induction false} ChunkPieces(c: Codec, z: Zlib, src: seq<Byte>, blob: seq<Byte>, bonus: Option<seq<Byte>>, i: int, n: int,
                                       pos: int, offset: int, rs: seq<Record>, outs: seq<seq<Byte>>, rest: seq<Byte>)
    requires |rs| == |outs| == n - i && 0 <= pos <= |blob| && 0 <= offset <= |blob|
    requires AllYield(c, z, src, bonus, i, rs, outs) && AllFit(rs, |blob|)
    requires blob[pos..] == Headers(rs, offset) + rest && blob[offset..] == Payloads(rs)
    ensures ImagePieces(c, z, src, blob, bonus, i, n, pos) == Product(PiecesOf(rs, outs), true)
    decreases |rs|
  {
    hide AllYield, AllFit, Headers, Payloads, Encode, Decode, ChunkOutput, Fits, SetOffset, HeaderSize;
    if |rs| > 0 {
      var r, rest', more := rs[0], Headers(rs[1..], offset + |rs[0].payload|) + rest, Payloads(rs[1..]);
      var h := SetOffset(r.header, offset);
      FirstRecord(rs, outs, offset, |blob|);
      FitsAt(r.header, offset);
      Reappend(Encode(h), Headers(rs[1..], offset + |r.payload|), rest);
      DecodeEncode(blob, pos, h, rest');
      Peel(blob, offset, r.payload, more);
      YieldsHere(c, z, src, blob, bonus, i, offset, rs, outs, more);
      YieldsTail(c, z, src, bonus, i, rs, outs);
      SameKind(r.header, offset);
      ChunkPieces(c, z, src, blob, bonus, i + 1, n, pos + HeaderSize(h), offset + |r.payload|, rs[1..], outs[1..], rest);
    }
  }

  lemma SameKind(h: Header, offset: int)
    ensures SetOffset(h, offset).NormalHeader? == h.NormalHeader?
  {
  }

  /** The pieces of a whole file. */
  lemma FilePieces(c: Codec, z: Zlib, src: seq<Byte>, bonus: Option<seq<Byte>>, rs: seq<Record>, outs: seq<seq<Byte>>)
    requires |rs| == |outs| && Int32(|rs|) && AllFit(rs, |File(rs)|) && AllYield(c, z, src, bonus, 0, rs, outs)
    ensures PatchProduct(c, z, bonus, File(rs), src) == Product(PiecesOf(rs, outs), true)
  {
    hide Write4, ImagePieces, ReadAt4, Apply;
    var blob, offset := File(rs), 12 + HeadersSize(rs);
    var hs, ps := Headers(rs, offset), Payloads(rs);
    HeadersLength(rs, offset);
    assert blob[0..] == blob;
    Peel(blob, 0, IMG_MAGIC, Write4(|rs|) + (hs + ps));
    Peel4(blob, 8, |rs|, hs + ps);
    Peel(blob, 12, hs, ps);
    ChunkPieces(c, z, src, blob, bonus, 0, |rs|, 12, offset, rs, outs, ps);
    assert blob[..8] == blob[0..8] == IMG_MAGIC && IMG_MAGIC[0] != MAGIC[0];
  }

  /** A patch that makes the two bytes 9, 8 of anything. */
  function TwoBytes(c: Codec): seq<Byte>
    requires Writable(|c.compress(BsDiff.Triple(0, 2, 0))|) && Writable(|c.compress([])|)
  {
    BsDiff.Assemble(c, BsDiff.Triple(0, 2, 0), [], [9, 8], 2)
  }

  lemma TwoBytesApply(c: Codec, src: seq<Byte>, pre: seq<Byte>, post: seq<Byte>)
    requires SelfDelimiting(c) && Writable(|c.compress(BsDiff.Triple(0, 2, 0))|) && Writable(|c.compress([])|)
    ensures Apply(c, src, pre + TwoBytes(c) + post, |pre|) == Some([9, 8])
  {
    hide Apply, OffIn, OffOut;
    var t := BsDiff.Triple(0, 2, 0);
    BsDiff.AssembleReads(c, src, t, [], [9, 8], 2, pre, post);
    OffRoundTrip(0);
    OffRoundTrip(2);
    assert t[..8] == OffOut(0) && t[8..16] == OffOut(2) && t[16..24] == OffOut(0) && t[24..] == [];
    InterpretTriple(src, t, [], [9, 8], 2, 0, [], 0, 2, 0);
    var e: seq<Byte> := [9, 8];
    var none: seq<Byte> := [];
    assert none + AddOld(src, 0, none[..0]) + e[..2] == e;
  }

  /** A normal chunk of two bytes and a raw one of one. */
  function TornRecords(c: Codec): seq<Record>
    requires Writable(|c.compress(BsDiff.Triple(0, 2, 0))|) && Writable(|c.compress([])|)
  {
    [Record(NormalHeader(0, 0, 0), TwoBytes(c)), Record(RawHeader([2]), [])]
  }

  /** The file makes 9, 8, 2 of anything, and nobody looks at how much of the 9, 8 is written. */
  lemma TornFile(c: Codec, z: Zlib, bonus: Option<seq<Byte>>, src: seq<Byte>)
    requires SelfDelimiting(c) && Writable(|c.compress(BsDiff.Triple(0, 2, 0))|) && Writable(|c.compress([])|) && Int64(|File(TornRecords(c))|)
    ensures PatchProduct(c, z, bonus, File(TornRecords(c)), src) == Product([Piece([9, 8], false), Piece([2], true)], true)
  {
    hide Apply, File, TwoBytes;
    var rs := TornRecords(c);
    var a: seq<Byte>, b: seq<Byte> := [9, 8], [2];
    var outs := [a, b];
    assert Yields(c, z, src, bonus, 0 + 0, rs[0], outs[0]) by {
      forall pre: seq<Byte>, post: seq<Byte>
        ensures ChunkOutput(c, z, src, pre + rs[0].payload + post, bonus, 0, SetOffset(rs[0].header, |pre|)) == Some(outs[0])
      {
        TwoBytesApply(c, src[0..0], pre, post);
      }
    }
    assert Yields(c, z, src, bonus, 0 + 1, rs[1], outs[1]);
    assert AllYield(c, z, src, bonus, 0, rs, outs) && AllFit(rs, |File(rs)|) by { hide Yields; }
    FilePieces(c, z, src, bonus, rs, outs);
    hide *;
    TornPieces(rs, outs);
  }

  lemma TornPieces(rs: seq<Record>, outs: seq<seq<Byte>>)
    requires |rs| == |outs| == 2
    ensures PiecesOf(rs, outs) == [Piece(outs[0], !rs[0].header.NormalHeader?), Piece(outs[1], !rs[1].header.NormalHeader?)]
  {
    assert rs[1..][1..] == [] && PiecesOf(rs[1..][1..], outs[1..][1..]) == [];
    assert PiecesOf(rs[1..], outs[1..]) == [Piece(outs[1], !rs[1].header.NormalHeader?)];
  }

  /**
   * With this file as the patch, and the digest of 2 alone as the one asked for, there is a run, whatever the source, the
   * safe names and the digest function, that ends with 9, 2 as the target and nothing else: the source is deleted, the
   * first chunk comes out short, the hash is that of the second, and the copy is deleted too.
   */
  lemma ShortChunkLoses(codec: Codec, z: Zlib, bonus: Option<seq<Byte>>, w: World, c: Call, x: seq<Byte>, d: seq<Byte>) returns (r: seq<State>)
    requires SelfDelimiting(codec) && Writable(|codec.compress(BsDiff.Triple(0, 2, 0))|) && Writable(|codec.compress([])|) && Int64(|File(TornRecords(codec))|)
    requires Begun(w, c, x, d) && SafeNames(c.source, c.target) && c.goal == w.sha([2])
    requires c.product(d) == PatchProduct(codec, z, bonus, File(TornRecords(codec)), d)
    ensures Run(w, c, r) && Recoverable(w, c, r[0].fs) && r[|r| - 1].fs == map[Target(c) := [9, 2]]
  {
    hide *;
    TornFile(codec, z, bonus, d);
    TornCounts();
    r := ShortPieceLoses(w, c, x, d, [true, false]);
  }

  lemma TornCounts()
    ensures var ps, short := [Piece([9, 8], false), Piece([2], true)], [true, false];
      Torn(ps, short) && Hashed(ps, short) == [2] && Spill(ps, short) == [9, 2]
  {
    var ps, short := [Piece([9, 8], false), Piece([2], true)], [true, false];
    assert short[..1] == [true] && [true][..0] == [];
    assert Hashed(ps, [true]) == Hashed(ps, []) + [] && Hashed(ps, short) == Hashed(ps, [true]) + ps[1].bytes;
    assert Spill(ps, [true]) == Spill(ps, []) + Cut(ps[0], true) && Spill(ps, short) == Spill(ps, [true]) + Cut(ps[1], false);
    assert short[0] && |ps[0].bytes| > 1;
  }
}
