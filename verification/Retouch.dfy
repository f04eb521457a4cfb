/** Masking the retouch entries of a binary: minelf/Retouch.c. */
module Retouch {
  import opened Bytes
  import opened Numbers

  datatype Status = Matched | Mismatched | NotApplicable | Error

  /** One decoded entry: where it applies (-1 for the prelink word) and the word's value before randomization. */
  datatype Entry = Entry(offset: int, original: int)

  const WORD := 0x1_0000_0000

  /** The word of four bytes at pos, least significant first. */
  function Word(bin: seq<Byte>, pos: int): (r: int)
    requires 0 <= pos && pos + 4 <= |bin|
    ensures 0 <= r < WORD
  {
    bin[pos] + 256 * (bin[pos + 1] as int) + 65536 * (bin[pos + 2] as int) + 16777216 * (bin[pos + 3] as int)
  }

  function PutWord(bin: seq<Byte>, pos: int, v: int): (r: seq<Byte>)
    requires 0 <= pos && pos + 4 <= |bin|
    ensures |r| == |bin|
    ensures forall i :: 0 <= i < |bin| && !(pos <= i < pos + 4) ==> r[i] == bin[i]
  {
    bin[pos := v % 256][pos + 1 := v / 256 % 256][pos + 2 := v / 65536 % 256][pos + 3 := v / 16777216 % 256]
  }

  lemma WordOfPut(bin: seq<Byte>, pos: int, v: int)
    requires 0 <= pos && pos + 4 <= |bin| && 0 <= v < WORD
    ensures Word(PutWord(bin, pos, v), pos) == v
  {
    assert v / 65536 == v / 256 / 256 && v / 16777216 == v / 256 / 256 / 256;
  }

  /** Reading an unsigned difference as a signed 32-bit number. */
  function Signed(v: int): (r: int)
    ensures Int32(r)
  {
    var u := v % WORD;
    if u < 0x8000_0000 then u else u - WORD
  }

  function EntrySize(first: Byte): int {
    if first >= 0x80 then 2 else if first >= 0x40 then 3 else 8
  }

  /** decode_bytes, from the entry before. */
  function DecodeEntry(bin: seq<Byte>, at: int, prev: Entry): Entry
    requires 0 <= at && at + 8 <= |bin|
  {
    var b: int := bin[at];
    if b >= 0x80 then
      var t := b % 32 * 256 + bin[at + 1];
      Entry(prev.offset + (b / 32 % 4 + 1) * 4, (prev.original + if t >= 0x1000 then t - 0x2000 else t) % WORD)
    else if b >= 0x40 then
      var t := b % 16 * 65536 + 256 * (bin[at + 1] as int) + bin[at + 2];
      Entry(prev.offset + (b / 16 % 4 + 1) * 4, (prev.original + if t >= 0x80000 then t - 0x100000 else t) % WORD)
    else
      var o := 16777216 * b + 65536 * (bin[at + 1] as int) + 256 * (bin[at + 2] as int) + bin[at + 3];
      Entry(if o == 0x3fff_ffff then -1 else o,
            16777216 * (bin[at + 4] as int) + 65536 * (bin[at + 5] as int) + 256 * (bin[at + 6] as int) + bin[at + 7])
  }

  const PRE_TAG: seq<Byte> := [0x50, 0x52, 0x45, 0x20] // "PRE "
  const RETOUCH_TAG: seq<Byte> := [0x52, 0x45, 0x54, 0x4f, 0x55, 0x43, 0x48, 0x20] // "RETOUCH "

  /** Where the prelink and the retouch information stand, counted from the end. */
  function PrelinkAt(bin: seq<Byte>): int { |bin| - 8 }
  function InfoAt(bin: seq<Byte>): int { |bin| - 20 }

  predicate Tagged(bin: seq<Byte>) {
    InfoAt(bin) >= 0 && bin[PrelinkAt(bin) + 4..] == PRE_TAG && bin[InfoAt(bin)..InfoAt(bin) + 8] == RETOUCH_TAG
  }

  /** Where the encoded entries begin. */
  function BlobAt(bin: seq<Byte>): int
    requires Tagged(bin)
  {
    InfoAt(bin) - Word(bin, InfoAt(bin) + 8)
  }

  function Target(bin: seq<Byte>, e: Entry): int {
    if e.offset == -1 then PrelinkAt(bin) else e.offset
  }

  datatype Outcome = Outcome(status: Status, bin: seq<Byte>, offset: int)

  /**
   * The entries from at on: the image so far, the entry before, the offset inferred from the first entry
   * and whether a later one disagreed.
   */
  function Walk(bin: seq<Byte>, at: int, info: int, blob: int, prev: Entry, desired: Option<int>, target: int, seen: Option<int>, mismatch: bool): Outcome
    requires 0 <= blob <= at && info == |bin| - 20
    decreases info - at
  {
    if at >= info then
      if at > info then Outcome(Error, bin, target)
      else if mismatch then Outcome(Mismatched, bin, target)
      else Outcome(Matched, bin, if seen.Some? then seen.value else target)
    else
      var e := DecodeEntry(bin, at, prev);
      if e.offset < -1 || e.offset >= blob then Outcome(Error, bin, target)
      else
        var p := Target(bin, e);
        var bin' := if desired.Some? then PutWord(bin, p, (e.original + target) % WORD) else bin;
        var this_ := Signed(Word(bin', p) - e.original);
        Walk(bin', at + EntrySize(bin[at]), info, blob, e, desired, target,
             if seen.None? then Some(this_) else seen, mismatch || (seen.Some? && seen.value != this_))
  }

  /** retouch_mask_data: with a desired offset the entries are rewritten to it, without one it is inferred. */
  function MaskData(bin: seq<Byte>, desired: Option<int>): Outcome {
    var target := if desired.Some? then desired.value else 0;
    if !Tagged(bin) then Outcome(if desired.None? then NotApplicable else Matched, bin, target)
    else if BlobAt(bin) < 0 then Outcome(Error, bin, target)
    else Walk(bin, BlobAt(bin), InfoAt(bin), BlobAt(bin), Entry(0, 0), desired, target, None, false)
  }

  /** One entry applied in place. */
  method ApplyEntry(a: array<Byte>, e: Entry, desired: Option<int>, target: int) returns (inferred: int)
    requires 0 <= Target(a[..], e) && Target(a[..], e) + 4 <= a.Length
    modifies a
    ensures a[..] == if desired.Some? then PutWord(old(a[..]), Target(old(a[..]), e), (e.original + target) % WORD) else old(a[..])
    ensures inferred == Signed(Word(a[..], Target(a[..], e)) - e.original)
  {
    var p := if e.offset == -1 then a.Length - 8 else e.offset;
    if desired.Some? {
      var v := (e.original + target) % WORD;
      a[p], a[p + 1], a[p + 2], a[p + 3] := v % 256, v / 256 % 256, v / 65536 % 256, v / 16777216 % 256;
      assert a[..] == PutWord(old(a[..]), p, v);
    }
    inferred := Signed(a[p] + 256 * (a[p + 1] as int) + 65536 * (a[p + 2] as int) + 16777216 * (a[p + 3] as int) - e.original);
  }

  /** retouch_mask_data itself, rewriting the image in place. */
  method RetouchMaskData(a: array<Byte>, desired: Option<int>) returns (status: Status, offset: int)
    modifies a
    ensures Outcome(status, a[..], offset) == MaskData(old(a[..]), desired)
  {
    var target := if desired.Some? then desired.value else 0;
    offset := target;
    if !Tagged(a[..]) {
      status := if desired.None? then NotApplicable else Matched;
      return;
    }
    var blob := BlobAt(a[..]);
    if blob < 0 {
      return Error, offset;
    }
    status, offset := MaskEntries(a, blob, desired, target);
  }

  /** The loop over the encoded entries. */
  method MaskEntries(a: array<Byte>, blob: int, desired: Option<int>, target: int) returns (status: Status, offset: int)
    requires 0 <= blob <= a.Length - 20
    modifies a
    ensures Outcome(status, a[..], offset) == Walk(old(a[..]), blob, a.Length - 20, blob, Entry(0, 0), desired, target, None, false)
  {
    hide *;
    ghost var bin := a[..];
    var info := a.Length - 20;
    var at, prev, seen, mismatch := blob, Entry(0, 0), None, false;
    ghost var result := Walk(bin, blob, info, blob, Entry(0, 0), desired, target, None, false);
    offset := target;
    while at < info
      invariant 0 <= blob <= at && offset == target
      invariant result == Walk(a[..], at, info, blob, prev, desired, target, seen, mismatch)
      decreases info - at
    {
      ghost var now := a[..];
      var e, size := DecodeEntry(a[..], at, prev), EntrySize(a[at]);
      WalkEntry(now, at, info, blob, prev, desired, target, seen, mismatch);
      if e.offset < -1 || e.offset >= blob {
        return Error, offset;
      }
      var inferred := ApplyEntry(a, e, desired, target);
      WalkStep(now, at, info, blob, prev, desired, target, seen, mismatch, a[..], inferred);
      mismatch := mismatch || (seen.Some? && seen.value != inferred);
      seen := if seen.None? then Some(inferred) else seen;
      at, prev := at + size, e;
    }
    WalkEnd(a[..], at, info, blob, prev, desired, target, seen, mismatch);
    status := if at > info then Error else if mismatch then Mismatched else Matched;
    offset := if status == Matched && seen.Some? then seen.value else target;
  }

  /** What the next entry is, and that a bad one ends the walk. */
  lemma WalkEntry(bin: seq<Byte>, at: int, info: int, blob: int, prev: Entry, desired: Option<int>, target: int, seen: Option<int>, mismatch: bool)
    requires 0 <= blob <= at < info == |bin| - 20
    ensures EntrySize(bin[at]) >= 2
    ensures var e := DecodeEntry(bin, at, prev);
      if e.offset < -1 || e.offset >= blob then Walk(bin, at, info, blob, prev, desired, target, seen, mismatch) == Outcome(Error, bin, target)
      else 0 <= Target(bin, e) && Target(bin, e) + 4 <= |bin|
  {
    hide DecodeEntry, Word, PutWord, Signed;
  }

  lemma WalkStep(bin: seq<Byte>, at: int, info: int, blob: int, prev: Entry, desired: Option<int>, target: int, seen: Option<int>, mismatch: bool,
                 bin': seq<Byte>, i: int)
    requires 0 <= blob <= at < info == |bin| - 20 && -1 <= DecodeEntry(bin, at, prev).offset < blob && |bin'| == |bin|
    requires var e := DecodeEntry(bin, at, prev);
      bin' == if desired.Some? then PutWord(bin, Target(bin, e), (e.original + target) % WORD) else bin
    requires var e := DecodeEntry(bin, at, prev); i == Signed(Word(bin', Target(bin', e)) - e.original)
    ensures EntrySize(bin[at]) >= 2
    ensures Walk(bin, at, info, blob, prev, desired, target, seen, mismatch)
         == Walk(bin', at + EntrySize(bin[at]), info, blob, DecodeEntry(bin, at, prev), desired, target,
                 if seen.None? then Some(i) else seen, mismatch || (seen.Some? && seen.value != i))
  {
    hide DecodeEntry, Word, PutWord, Signed;
  }

  lemma WalkEnd(bin: seq<Byte>, at: int, info: int, blob: int, prev: Entry, desired: Option<int>, target: int, seen: Option<int>, mismatch: bool)
    requires 0 <= blob <= at && info <= at && info == |bin| - 20
    ensures Walk(bin, at, info, blob, prev, desired, target, seen, mismatch)
         == if at > info then Outcome(Error, bin, target)
            else if mismatch then Outcome(Mismatched, bin, target)
            else Outcome(Matched, bin, if seen.Some? then seen.value else target)
  {
  }

  // ----- Images whose entries all lie clear of the encoded list -----

  /** From at on, the entries end exactly at the retouch information, and each is the prelink word or lies wholly below the list. */
  ghost predicate Proper(bin: seq<Byte>, at: int, info: int, blob: int, prev: Entry)
    requires 0 <= blob <= at && info == InfoAt(bin)
    decreases info - at
  {
    if at >= info then at == info
    else
      var e := DecodeEntry(bin, at, prev);
      -1 <= e.offset < blob && Proper(bin, at + EntrySize(bin[at]), info, blob, e)
  }

  ghost function EntriesFrom(bin: seq<Byte>, at: int, info: int, blob: int, prev: Entry): seq<Entry>
    requires 0 <= blob <= at && info == InfoAt(bin) && Proper(bin, at, info, blob, prev)
    decreases info - at
  {
    if at >= info then []
    else
      var e := DecodeEntry(bin, at, prev);
      [e] + EntriesFrom(bin, at + EntrySize(bin[at]), info, blob, e)
  }

  /** Not retouched, or retouched with a proper list. */
  ghost predicate Readable(bin: seq<Byte>) {
    Tagged(bin) ==> 0 <= BlobAt(bin) && Proper(bin, BlobAt(bin), InfoAt(bin), BlobAt(bin), Entry(0, 0))
  }

  ghost function EntriesOf(bin: seq<Byte>): seq<Entry>
    requires Tagged(bin) && Readable(bin)
  {
    EntriesFrom(bin, BlobAt(bin), InfoAt(bin), BlobAt(bin), Entry(0, 0))
  }

  /** The entries can be written in an image of this size whose list begins at blob. */
  ghost predicate Placed(es: seq<Entry>, bin: seq<Byte>, blob: int) {
    0 <= blob <= InfoAt(bin) && forall k :: 0 <= k < |es| ==> -1 <= es[k].offset < blob
  }

  ghost function WriteAll(bin: seq<Byte>, es: seq<Entry>, d: int, blob: int): (r: seq<Byte>)
    requires Placed(es, bin, blob)
    ensures |r| == |bin|
    decreases |es|
  {
    if es == [] then bin else WriteAll(PutWord(bin, Target(bin, es[0]), (es[0].original + d) % WORD), es[1..], d, blob)
  }

  /** The parts of the image that tell what its entries are: the list, the retouch information, the tag. */
  ghost predicate SameList(x: seq<Byte>, y: seq<Byte>, blob: int) {
    |x| == |y| && forall i :: (0 <= blob <= i < |x| - 8 || 0 <= |x| - 4 <= i < |x|) ==> x[i] == y[i]
  }

  lemma {:induction false} ProperSame(x: seq<Byte>, y: seq<Byte>, at: int, info: int, blob: int, prev: Entry)
    requires 0 <= blob <= at && info == InfoAt(x) && SameList(x, y, blob) && Proper(x, at, info, blob, prev)
    ensures Proper(y, at, info, blob, prev) && EntriesFrom(y, at, info, blob, prev) == EntriesFrom(x, at, info, blob, prev)
    decreases info - at
  {
    if at < info {
      assert DecodeEntry(y, at, prev) == DecodeEntry(x, at, prev);
      ProperSame(x, y, at + EntrySize(x[at]), info, blob, DecodeEntry(x, at, prev));
    }
  }

  lemma {:induction false} EntriesPlaced(bin: seq<Byte>, at: int, info: int, blob: int, prev: Entry)
    requires 0 <= blob <= at && info == InfoAt(bin) && blob <= info && Proper(bin, at, info, blob, prev)
    ensures Placed(EntriesFrom(bin, at, info, blob, prev), bin, blob)
    decreases info - at
  {
    if at < info {
      EntriesPlaced(bin, at + EntrySize(bin[at]), info, blob, DecodeEntry(bin, at, prev));
    }
  }

  /** Masking the entry with d writes nothing new into the list or what stands behind it. */
  ghost predicate Gentle(bin: seq<Byte>, e: Entry, d: int, blob: int) {
    0 <= Target(bin, e) <= |bin| - 4 && SameList(bin, PutWord(bin, Target(bin, e), (e.original + d) % WORD), blob)
  }

  ghost predicate AllGentle(bin: seq<Byte>, es: seq<Entry>, d: int, blob: int) {
    forall k :: 0 <= k < |es| ==> Gentle(bin, es[k], d, blob)
  }

  /** Masking with d can be done without the list changing under it. */
  ghost predicate Undisturbed(bin: seq<Byte>, d: int) {
    Readable(bin) && (Tagged(bin) ==> AllGentle(bin, EntriesOf(bin), d, BlobAt(bin)))
  }

  /** Every entry is the prelink word or lies wholly below the list. */
  ghost predicate Clean(bin: seq<Byte>) {
    Readable(bin) && (Tagged(bin) ==> forall k :: 0 <= k < |EntriesOf(bin)| ==> EntriesOf(bin)[k].offset <= BlobAt(bin) - 4)
  }

  lemma GentleBelow(bin: seq<Byte>, e: Entry, d: int, blob: int)
    requires 0 <= blob <= |bin| - 20 && -1 <= e.offset < blob
    ensures e.offset <= blob - 4 ==> Gentle(bin, e, d, blob)
  {
  }

  lemma CleanIsUndisturbed(bin: seq<Byte>, d: int)
    requires Clean(bin)
    ensures Undisturbed(bin, d)
  {
    hide DecodeEntry, Word, PutWord, Proper, EntriesFrom, Tagged, BlobAt, Gentle, Placed;
    if Tagged(bin) {
      TaggedRoom(bin);
      var blob, es := BlobAt(bin), EntriesOf(bin);
      EntriesPlaced(bin, blob, InfoAt(bin), blob, Entry(0, 0));
      forall k | 0 <= k < |es|
        ensures Gentle(bin, es[k], d, blob)
      {
        PlacedAt(es, bin, blob, k);
        GentleBelow(bin, es[k], d, blob);
      }
    }
  }

  lemma PlacedAt(es: seq<Entry>, bin: seq<Byte>, blob: int, k: int)
    requires Placed(es, bin, blob) && 0 <= k < |es|
    ensures 0 <= blob <= |bin| - 20 && -1 <= es[k].offset < blob && 0 <= Target(bin, es[k]) <= |bin| - 4
  {
  }

  lemma GentleSame(x: seq<Byte>, y: seq<Byte>, e: Entry, d: int, blob: int)
    requires Gentle(x, e, d, blob) && SameList(x, y, blob)
    ensures Gentle(y, e, d, blob)
  {
    var p, v := Target(x, e), (e.original + d) % WORD;
    var x', y' := PutWord(x, p, v), PutWord(y, p, v);
    hide PutWord;
    forall i | 0 <= i < |x|
      ensures x'[i] == x[i] == y[i] ==> y'[i] == y[i]
    {
      PutSame(x, y, p, v, i);
    }
  }

  lemma AllGentleSame(x: seq<Byte>, y: seq<Byte>, es: seq<Entry>, d: int, blob: int)
    requires AllGentle(x, es, d, blob) && SameList(x, y, blob)
    ensures AllGentle(y, es, d, blob)
  {
    hide Gentle, SameList;
    forall k | 0 <= k < |es|
      ensures Gentle(y, es[k], d, blob)
    {
      GentleSame(x, y, es[k], d, blob);
    }
  }

  lemma SameListTwice(x: seq<Byte>, y: seq<Byte>, z: seq<Byte>, blob: int)
    requires SameList(x, y, blob) && SameList(y, z, blob)
    ensures SameList(x, z, blob)
  {
  }

  lemma {:induction false} WriteAllKeepsList(bin: seq<Byte>, es: seq<Entry>, d: int, blob: int)
    requires Placed(es, bin, blob) && AllGentle(bin, es, d, blob)
    ensures SameList(bin, WriteAll(bin, es, d, blob), blob)
    decreases |es|
  {
    hide PutWord, SameList;
    if es == [] {
      SameListSelf(bin, blob);
    } else {
      var bin' := PutWord(bin, Target(bin, es[0]), (es[0].original + d) % WORD);
      assert Gentle(bin, es[0], d, blob);
      assert AllGentle(bin, es[1..], d, blob) by { hide Gentle; }
      AllGentleSame(bin, bin', es[1..], d, blob);
      hide Gentle;
      WriteAllKeepsList(bin', es[1..], d, blob);
      SameListTwice(bin, bin', WriteAll(bin', es[1..], d, blob), blob);
    }
  }

  lemma SameListSelf(bin: seq<Byte>, blob: int)
    ensures SameList(bin, bin, blob)
  {
  }

  // ----- Masking with an offset -----

  lemma SignedShift(original: int, d: int)
    requires Int32(d)
    ensures Signed((original + d) % WORD - original) == d
  {
    var k := (original + d) / WORD;
    assert (original + d) % WORD - original == d - k * WORD;
    if d >= 0 {
      assert (d - k * WORD) % WORD == d by { Cycles(d, -k); }
    } else {
      assert (d - k * WORD) % WORD == d + WORD by { Cycles(d + WORD, -k - 1); }
    }
  }

  lemma Cycles(u: int, k: int)
    requires 0 <= u < WORD
    ensures (u + k * WORD) % WORD == u
  {
  }

  lemma PutShape(bin: seq<Byte>, e: Entry, v: int)
    requires 0 <= Target(bin, e) <= |bin| - 4
    ensures var bin' := PutWord(bin, Target(bin, e), v); InfoAt(bin') == |bin| - 20 && Target(bin', e) == Target(bin, e)
  {
  }

  lemma GentleKeepsList(bin: seq<Byte>, e: Entry, d: int, blob: int)
    requires Gentle(bin, e, d, blob)
    ensures SameList(bin, PutWord(bin, Target(bin, e), (e.original + d) % WORD), blob)
  {
  }

  lemma AllGentleFirst(bin: seq<Byte>, e: Entry, es: seq<Entry>, d: int, blob: int)
    requires AllGentle(bin, [e] + es, d, blob)
    ensures Gentle(bin, e, d, blob) && AllGentle(bin, es, d, blob)
  {
    hide Gentle;
    assert ([e] + es)[0] == e && forall k :: 0 <= k < |es| ==> ([e] + es)[k + 1] == es[k];
  }

  lemma ProperNext(bin: seq<Byte>, at: int, info: int, blob: int, prev: Entry)
    requires 0 <= blob <= at < info == |bin| - 20 && info == InfoAt(bin) && Proper(bin, at, info, blob, prev)
    ensures var e := DecodeEntry(bin, at, prev);
      -1 <= e.offset < blob && EntrySize(bin[at]) >= 2 && 0 <= Target(bin, e) <= |bin| - 4 &&
      Proper(bin, at + EntrySize(bin[at]), info, blob, e) &&
      EntriesFrom(bin, at, info, blob, prev) == [e] + EntriesFrom(bin, at + EntrySize(bin[at]), info, blob, e)
  {
    hide DecodeEntry, Word;
  }

  lemma WriteFirst(bin: seq<Byte>, e: Entry, es: seq<Entry>, d: int, blob: int)
    requires Placed([e] + es, bin, blob)
    ensures 0 <= Target(bin, e) <= |bin| - 4
    ensures var bin' := PutWord(bin, Target(bin, e), (e.original + d) % WORD);
      Placed(es, bin', blob) && WriteAll(bin, [e] + es, d, blob) == WriteAll(bin', es, d, blob)
  {
    hide PutWord;
    assert ([e] + es)[1..] == es && ([e] + es)[0] == e;
    assert forall k :: 0 <= k < |es| ==> ([e] + es)[k + 1] == es[k];
  }

  lemma WalkMasksNothing(bin: seq<Byte>, at: int, info: int, blob: int, prev: Entry, d: int, seen: Option<int>)
    requires 0 <= blob <= at && blob <= info == |bin| - 20 == InfoAt(bin) && Proper(bin, at, info, blob, prev) && info <= at
    requires seen.Some? ==> seen.value == d
    ensures Placed(EntriesFrom(bin, at, info, blob, prev), bin, blob)
    ensures Walk(bin, at, info, blob, prev, Some(d), d, seen, false)
         == Outcome(Matched, WriteAll(bin, EntriesFrom(bin, at, info, blob, prev), d, blob), d)
  {
  }

  /** On a list that is not disturbed the walk writes every entry and agrees with the offset asked for. */
  lemma {:induction false} WalkMasks(bin: seq<Byte>, at: int, info: int, blob: int, prev: Entry, d: int, seen: Option<int>)
    requires 0 <= blob <= at && blob <= info == |bin| - 20 == InfoAt(bin) && Proper(bin, at, info, blob, prev) && Int32(d)
    requires AllGentle(bin, EntriesFrom(bin, at, info, blob, prev), d, blob)
    requires seen.Some? ==> seen.value == d
    ensures Placed(EntriesFrom(bin, at, info, blob, prev), bin, blob)
    ensures Walk(bin, at, info, blob, prev, Some(d), d, seen, false)
         == Outcome(Matched, WriteAll(bin, EntriesFrom(bin, at, info, blob, prev), d, blob), d)
    decreases info - at
  {
    hide DecodeEntry, Word, PutWord, Signed, Proper, EntriesFrom, Walk, WriteAll, EntrySize, SameList, Placed, Target, InfoAt, Gentle, AllGentle;
    if at >= info {
      WalkMasksNothing(bin, at, info, blob, prev, d, seen);
    } else {
      EntriesPlaced(bin, at, info, blob, prev);
      ProperNext(bin, at, info, blob, prev);
      var e := DecodeEntry(bin, at, prev);
      var p, v, next := Target(bin, e), (e.original + d) % WORD, at + EntrySize(bin[at]);
      var bin' := PutWord(bin, p, v);
      PutShape(bin, e, v);
      AllGentleFirst(bin, e, EntriesFrom(bin, next, info, blob, e), d, blob);
      GentleKeepsList(bin, e, d, blob);
      AllGentleSame(bin, bin', EntriesFrom(bin, next, info, blob, e), d, blob);
      WordOfPut(bin, p, v);
      SignedShift(e.original, d);
      WalkStep(bin, at, info, blob, prev, Some(d), d, seen, false, bin', d);
      ProperSame(bin, bin', next, info, blob, e);
      WriteFirst(bin, e, EntriesFrom(bin, next, info, blob, e), d, blob);
      WalkMasks(bin', next, info, blob, e, d, Some(d));
    }
  }

  /** Masking an image whose list is not disturbed matches, and leaves an image with the same list and entries. */
  lemma MaskWrites(bin: seq<Byte>, d: int)
    requires Tagged(bin) && Undisturbed(bin, d) && Int32(d)
    ensures Placed(EntriesOf(bin), bin, BlobAt(bin))
    ensures var m := WriteAll(bin, EntriesOf(bin), d, BlobAt(bin));
      && MaskData(bin, Some(d)) == Outcome(Matched, m, d) && SameList(bin, m, BlobAt(bin))
      && Tagged(m) && BlobAt(m) == BlobAt(bin) && Readable(m) && EntriesOf(m) == EntriesOf(bin)
  {
    hide DecodeEntry, Word, PutWord, Signed, Proper, EntriesFrom, Walk, WriteAll, SameList, Tagged, BlobAt, AllGentle;
    var blob, info := BlobAt(bin), InfoAt(bin);
    TaggedRoom(bin);
    WalkMasks(bin, blob, info, blob, Entry(0, 0), d, None);
    var m := WriteAll(bin, EntriesOf(bin), d, blob);
    WriteAllKeepsList(bin, EntriesOf(bin), d, blob);
    ListTells(bin, m);
    ProperSame(bin, m, blob, info, blob, Entry(0, 0));
  }

  /** What disturbs a list can be told from the list. */
  lemma UndisturbedSame(x: seq<Byte>, y: seq<Byte>, d: int)
    requires Tagged(x) && Undisturbed(x, d) && SameList(x, y, BlobAt(x))
    requires Tagged(y) && BlobAt(y) == BlobAt(x) && Readable(y) && EntriesOf(y) == EntriesOf(x)
    ensures Undisturbed(y, d)
  {
    hide Proper, EntriesFrom, Tagged, BlobAt, AllGentle, SameList;
    AllGentleSame(x, y, EntriesOf(x), d, BlobAt(x));
  }

  lemma TaggedRoom(bin: seq<Byte>)
    requires Tagged(bin)
    ensures BlobAt(bin) <= InfoAt(bin)
  {
  }

  lemma ListTells(x: seq<Byte>, y: seq<Byte>)
    requires Tagged(x) && 0 <= BlobAt(x) && SameList(x, y, BlobAt(x))
    ensures Tagged(y) && BlobAt(y) == BlobAt(x)
  {
    assert y[PrelinkAt(y) + 4..] == x[PrelinkAt(x) + 4..];
    assert y[InfoAt(y)..InfoAt(y) + 8] == x[InfoAt(x)..InfoAt(x) + 8];
  }

  // ----- Masking forgets the mask before -----

  ghost predicate Covers(bin: seq<Byte>, e: Entry, q: int) {
    Target(bin, e) <= q < Target(bin, e) + 4
  }

  ghost predicate Covered(bin: seq<Byte>, es: seq<Entry>, q: int) {
    exists k :: 0 <= k < |es| && Covers(bin, es[k], q)
  }

  ghost predicate SameUncovered(x: seq<Byte>, y: seq<Byte>, es: seq<Entry>) {
    |x| == |y| && forall q :: 0 <= q < |x| && !Covered(x, es, q) ==> x[q] == y[q]
  }

  lemma CoveredSplit(bin: seq<Byte>, es: seq<Entry>, q: int)
    requires es != []
    ensures Covered(bin, es, q) <==> Covers(bin, es[0], q) || Covered(bin, es[1..], q)
  {
    if k :| 0 <= k < |es| && Covers(bin, es[k], q) {
      assert k > 0 ==> es[1..][k - 1] == es[k];
    }
  }

  lemma PutSame(x: seq<Byte>, y: seq<Byte>, p: int, v: int, q: int)
    requires |x| == |y| && 0 <= p <= |x| - 4 && 0 <= q < |x|
    ensures (p <= q < p + 4 || x[q] == y[q]) ==> PutWord(x, p, v)[q] == PutWord(y, p, v)[q]
  {
  }

  lemma {:induction false} WriteAllForgets(x: seq<Byte>, y: seq<Byte>, es: seq<Entry>, d: int, blob: int)
    requires Placed(es, x, blob) && Placed(es, y, blob) && SameUncovered(x, y, es)
    ensures WriteAll(x, es, d, blob) == WriteAll(y, es, d, blob)
    decreases |es|
  {
    if es == [] {
      assert x == y;
    } else {
      var p, v := Target(x, es[0]), (es[0].original + d) % WORD;
      var x', y' := PutWord(x, p, v), PutWord(y, p, v);
      hide PutWord, Covered;
      forall q | 0 <= q < |x'| && !Covered(x', es[1..], q)
        ensures x'[q] == y'[q]
      {
        CoveredSplit(x, es, q);
        CoveredSize(x, x', es[1..], q);
        PutSame(x, y, p, v, q);
      }
      WriteAllForgets(x', y', es[1..], d, blob);
    }
  }

  lemma CoveredSize(x: seq<Byte>, y: seq<Byte>, es: seq<Entry>, q: int)
    requires |x| == |y|
    ensures Covered(x, es, q) == Covered(y, es, q)
  {
    assert forall k :: 0 <= k < |es| ==> Covers(x, es[k], q) == Covers(y, es[k], q);
  }

  lemma {:induction false} WriteAllElsewhere(bin: seq<Byte>, es: seq<Entry>, d: int, blob: int)
    requires Placed(es, bin, blob)
    ensures SameUncovered(bin, WriteAll(bin, es, d, blob), es)
    decreases |es|
  {
    if es != [] {
      var p, v := Target(bin, es[0]), (es[0].original + d) % WORD;
      var bin' := PutWord(bin, p, v);
      hide PutWord, Covered;
      WriteAllElsewhere(bin', es[1..], d, blob);
      forall q | 0 <= q < |bin| && !Covered(bin, es, q)
        ensures bin[q] == WriteAll(bin, es, d, blob)[q]
      {
        CoveredSplit(bin, es, q);
        CoveredSize(bin, bin', es[1..], q);
      }
    }
  }

  /**
   * Where neither mask disturbs the list, masking succeeds, and what an earlier mask left behind has no influence:
   * masking with a and then with b is masking with b. With a == b == 0 this is idempotence.
   */
  lemma MaskComposes(bin: seq<Byte>, a: int, b: int)
    requires Undisturbed(bin, a) && Undisturbed(bin, b) && Int32(a) && Int32(b)
    ensures var r := MaskData(bin, Some(a));
      r.status == Matched && r.offset == a && Undisturbed(r.bin, b) && MaskData(r.bin, Some(b)) == MaskData(bin, Some(b))
  {
    if Tagged(bin) {
      assert Readable(bin) by { hide Readable, AllGentle; }
      hide *;
      MaskWrites(bin, a);
      MaskWrites(bin, b);
      var blob, es := BlobAt(bin), EntriesOf(bin);
      var m := WriteAll(bin, es, a, blob);
      UndisturbedSame(bin, m, b);
      MaskWrites(m, b);
      WriteAllElsewhere(bin, es, a, blob);
      WriteAllForgets(bin, m, es, b, blob);
    } else {
      hide *;
      Untagged(bin, a, b);
    }
  }

  lemma Untagged(bin: seq<Byte>, a: int, b: int)
    requires !Tagged(bin)
    ensures MaskData(bin, Some(a)) == Outcome(Matched, bin, a) && MaskData(bin, Some(b)) == Outcome(Matched, bin, b)
  {
  }

  // ----- Inferring the offset -----

  /** The shift an entry shows in the image. */
  function Shift(bin: seq<Byte>, e: Entry): int
    requires 0 <= Target(bin, e) && Target(bin, e) + 4 <= |bin|
  {
    Signed(Word(bin, Target(bin, e)) - e.original)
  }

  ghost predicate AllShifted(bin: seq<Byte>, es: seq<Entry>, d: int, blob: int)
    requires Placed(es, bin, blob)
  {
    forall k :: 0 <= k < |es| ==> Shift(bin, es[k]) == d
  }

  lemma {:induction false} WalkInfers(bin: seq<Byte>, at: int, info: int, blob: int, prev: Entry, d: int, mismatch: bool)
    requires 0 <= blob <= at && blob <= info == |bin| - 20 && Proper(bin, at, info, blob, prev)
    ensures Placed(EntriesFrom(bin, at, info, blob, prev), bin, blob)
    ensures Walk(bin, at, info, blob, prev, None, 0, Some(d), mismatch)
         == if !mismatch && AllShifted(bin, EntriesFrom(bin, at, info, blob, prev), d, blob) then Outcome(Matched, bin, d) else Outcome(Mismatched, bin, 0)
    decreases info - at
  {
    EntriesPlaced(bin, at, info, blob, prev);
    if at < info {
      var e := DecodeEntry(bin, at, prev);
      var next := at + EntrySize(bin[at]);
      hide DecodeEntry, Word, Signed;
      var i := Shift(bin, e);
      WalkStep(bin, at, info, blob, prev, None, 0, Some(d), mismatch, bin, i);
      WalkInfers(bin, next, info, blob, e, d, mismatch || d != i);
      assert EntriesFrom(bin, at, info, blob, prev) == [e] + EntriesFrom(bin, next, info, blob, e);
      AllShiftedSplit(bin, e, EntriesFrom(bin, next, info, blob, e), d, blob);
    }
  }

  lemma AllShiftedSplit(bin: seq<Byte>, e: Entry, es: seq<Entry>, d: int, blob: int)
    requires Placed([e] + es, bin, blob) && Placed(es, bin, blob) && -1 <= e.offset < blob
    ensures AllShifted(bin, [e] + es, d, blob) <==> Shift(bin, e) == d && AllShifted(bin, es, d, blob)
  {
    hide Shift;
    var all := [e] + es;
    assert all[0] == e && forall k :: 0 <= k < |es| ==> all[k + 1] == es[k];
  }

  /** Without a desired offset nothing is written, and d is reported exactly if every entry shows the shift d. */
  lemma InfersExactly(bin: seq<Byte>, d: int)
    requires Tagged(bin) && Readable(bin)
    ensures Placed(EntriesOf(bin), bin, BlobAt(bin))
    ensures var r := MaskData(bin, None);
      && r.bin == bin && (r.status == Matched || r.status == Mismatched)
      && (EntriesOf(bin) == [] ==> r == Outcome(Matched, bin, 0))
      && (EntriesOf(bin) != [] ==> ((r.status == Matched && r.offset == d) <==> AllShifted(bin, EntriesOf(bin), d, BlobAt(bin))))
  {
    hide DecodeEntry, Word, PutWord, Signed, Proper, EntriesFrom, Walk, Tagged, BlobAt, EntrySize, Shift, AllShifted, Placed;
    var blob, info, prev := BlobAt(bin), InfoAt(bin), Entry(0, 0);
    TaggedRoom(bin);
    EntriesPlaced(bin, blob, info, blob, prev);
    if blob == info {
      WalkEnd(bin, blob, info, blob, prev, None, 0, None, false);
      NoEntries(bin, info, prev);
    } else {
      InfersFirst(bin, blob, info, prev, d);
    }
  }

  lemma NoEntries(bin: seq<Byte>, info: int, prev: Entry)
    requires 0 <= info == InfoAt(bin) && Proper(bin, info, info, info, prev)
    ensures EntriesFrom(bin, info, info, info, prev) == []
  {
  }

  lemma InfersFirst(bin: seq<Byte>, blob: int, info: int, prev: Entry, d: int)
    requires 0 <= blob < info == InfoAt(bin) && Proper(bin, blob, info, blob, prev)
    ensures Placed(EntriesFrom(bin, blob, info, blob, prev), bin, blob) && EntriesFrom(bin, blob, info, blob, prev) != []
    ensures var r := Walk(bin, blob, info, blob, prev, None, 0, None, false);
      && r.bin == bin && (r.status == Matched || r.status == Mismatched)
      && ((r.status == Matched && r.offset == d) <==> AllShifted(bin, EntriesFrom(bin, blob, info, blob, prev), d, blob))
  {
    hide DecodeEntry, Word, PutWord, Signed, Proper, EntriesFrom, Walk, EntrySize, Placed, AllShifted;
    EntriesPlaced(bin, blob, info, blob, prev);
    ProperNext(bin, blob, info, blob, prev);
    var e := DecodeEntry(bin, blob, prev);
    var i, next := Shift(bin, e), blob + EntrySize(bin[blob]);
    var es := EntriesFrom(bin, next, info, blob, e);
    WalkStep(bin, blob, info, blob, prev, None, 0, None, false, bin, i);
    WalkInfers(bin, next, info, blob, e, i, false);
    AllShiftedSplit(bin, e, es, d, blob);
  }

  // ----- Inferring what a mask has written -----

  /** Byte number i of a word. */
  function Piece(v: int, i: int): (r: Byte) {
    if i == 0 then v % 256 else if i == 1 then v / 256 % 256 else if i == 2 then v / 65536 % 256 else v / 16777216 % 256
  }

  lemma Digits(a: int, b: int, c: int, e: int, v: int)
    requires 0 <= a < 256 && 0 <= b < 256 && 0 <= c < 256 && 0 <= e < 256 && 0 <= v < WORD
    ensures a + 256 * b + 65536 * c + 16777216 * e == v <==> a == Piece(v, 0) && b == Piece(v, 1) && c == Piece(v, 2) && e == Piece(v, 3)
  {
    assert v / 65536 == v / 256 / 256 && v / 16777216 == v / 256 / 256 / 256;
  }

  lemma WordPieces(bin: seq<Byte>, p: int, v: int)
    requires 0 <= p <= |bin| - 4 && 0 <= v < WORD
    ensures Word(bin, p) == v <==> forall q :: p <= q < p + 4 ==> bin[q] == Piece(v, q - p)
  {
    hide Piece;
    Digits(bin[p], bin[p + 1], bin[p + 2], bin[p + 3], v);
  }

  /** The byte an entry puts at q when masked with d. */
  function Wants(bin: seq<Byte>, e: Entry, d: int, q: int): Byte {
    Piece((e.original + d) % WORD, q - Target(bin, e))
  }

  ghost predicate Shows(bin: seq<Byte>, e: Entry, d: int)
    requires 0 <= Target(bin, e) <= |bin| - 4
  {
    forall q :: Covers(bin, e, q) ==> bin[q] == Wants(bin, e, d, q)
  }

  lemma SignedTells(w: int, original: int, d: int)
    requires 0 <= w < WORD && Int32(d)
    ensures Signed(w - original) == d <==> w == (original + d) % WORD
  {
    if Signed(w - original) == d {
      var k := (w - original) / WORD;
      assert w - original == k * WORD + (w - original) % WORD;
      if d >= 0 {
        Cycles(w, -k);
        assert original + d == w + -k * WORD;
      } else {
        Cycles(w, -k - 1);
        assert original + d == w + (-k - 1) * WORD;
      }
    } else {
      SignedShift(original, d);
    }
  }

  lemma ShiftShows(bin: seq<Byte>, e: Entry, d: int)
    requires 0 <= Target(bin, e) <= |bin| - 4 && Int32(d)
    ensures Shift(bin, e) == d <==> Shows(bin, e, d)
  {
    hide Word, Piece, Signed;
    var p, v := Target(bin, e), (e.original + d) % WORD;
    SignedTells(Word(bin, p), e.original, d);
    WordPieces(bin, p, v);
    assert forall q :: Covers(bin, e, q) <==> p <= q < p + 4;
  }

  /** Entries that meet want the same bytes where they meet. */
  ghost predicate Compatible(bin: seq<Byte>, es: seq<Entry>, d: int) {
    forall j, k, q :: 0 <= j < |es| && 0 <= k < |es| && Covers(bin, es[j], q) && Covers(bin, es[k], q) ==>
      Wants(bin, es[j], d, q) == Wants(bin, es[k], d, q)
  }

  lemma PutWants(bin: seq<Byte>, e: Entry, d: int, q: int)
    requires 0 <= Target(bin, e) <= |bin| - 4 && Covers(bin, e, q)
    ensures PutWord(bin, Target(bin, e), (e.original + d) % WORD)[q] == Wants(bin, e, d, q)
  {
  }

  /** A covered byte holds what one of the entries covering it wants. */
  lemma {:induction false} WrittenBy(bin: seq<Byte>, es: seq<Entry>, d: int, blob: int, q: int) returns (k: nat)
    requires Placed(es, bin, blob) && 0 <= q < |bin| && Covered(bin, es, q)
    ensures k < |es| && Covers(bin, es[k], q) && WriteAll(bin, es, d, blob)[q] == Wants(bin, es[k], d, q)
    decreases |es|
  {
    var p, v := Target(bin, es[0]), (es[0].original + d) % WORD;
    var bin' := PutWord(bin, p, v);
    hide PutWord, Covered, Piece;
    CoveredSplit(bin, es, q);
    CoveredSize(bin, bin', es[1..], q);
    if Covered(bin', es[1..], q) {
      var j := WrittenBy(bin', es[1..], d, blob, q);
      k := j + 1;
    } else {
      WriteAllElsewhere(bin', es[1..], d, blob);
      PutWants(bin, es[0], d, q);
      k := 0;
    }
  }

  lemma MaskShows(bin: seq<Byte>, es: seq<Entry>, d: int, blob: int)
    requires Placed(es, bin, blob) && Int32(d)
    ensures Placed(es, WriteAll(bin, es, d, blob), blob)
    ensures AllShifted(WriteAll(bin, es, d, blob), es, d, blob) <==> Compatible(bin, es, d)
  {
    var m := WriteAll(bin, es, d, blob);
    hide WriteAll, Wants, Shift, Covered;
    forall k | 0 <= k < |es|
      ensures Shift(m, es[k]) == d <==> Shows(m, es[k], d)
    {
      ShiftShows(m, es[k], d);
    }
    forall k, q | 0 <= k < |es|
      ensures Covers(m, es[k], q) == Covers(bin, es[k], q) && Wants(m, es[k], d, q) == Wants(bin, es[k], d, q)
    {
      SameWants(m, bin, es[k], d, q);
    }
    hide Covers;
    if Compatible(bin, es, d) {
      forall k, q | 0 <= k < |es| && Covers(bin, es[k], q)
        ensures m[q] == Wants(bin, es[k], d, q)
      {
        CoveredBy(bin, es, k, q, blob);
        var j := WrittenBy(bin, es, d, blob, q);
      }
    }
  }

  lemma SameWants(x: seq<Byte>, y: seq<Byte>, e: Entry, d: int, q: int)
    requires |x| == |y|
    ensures Covers(x, e, q) == Covers(y, e, q) && Wants(x, e, d, q) == Wants(y, e, d, q)
  {
  }

  lemma CoveredBy(bin: seq<Byte>, es: seq<Entry>, k: int, q: int, blob: int)
    requires 0 <= k < |es| && Placed(es, bin, blob) && Covers(bin, es[k], q)
    ensures Covered(bin, es, q) && 0 <= q < |bin|
  {
  }

  /**
   * What a mask wrote is inferred again, exactly if the entries are compatible: where the mask does not disturb the list
   * and there is an entry, inferring after masking with d reports d if and only if no two entries want different bytes at one place.
   */
  lemma InferAfterMask(bin: seq<Byte>, d: int)
    requires Tagged(bin) && Undisturbed(bin, d) && Int32(d) && EntriesOf(bin) != []
    ensures var r := MaskData(MaskData(bin, Some(d)).bin, None);
      (r.status == Matched && r.offset == d) <==> Compatible(bin, EntriesOf(bin), d)
  {
    assert Readable(bin) by { hide Readable, AllGentle; }
    hide *;
    MaskWrites(bin, d);
    MaskShows(bin, EntriesOf(bin), d, BlobAt(bin));
    InfersExactly(WriteAll(bin, EntriesOf(bin), d, BlobAt(bin)), d);
  }

  // ----- An entry that reaches into the list -----

  /** Before the list ends or an entry is refused, one is read that writes something new into it. */
  ghost predicate Disturbs(bin: seq<Byte>, at: int, info: int, blob: int, prev: Entry, d: int)
    requires 0 <= blob <= at && info == |bin| - 20
    decreases info - at
  {
    at < info &&
    var e := DecodeEntry(bin, at, prev);
    -1 <= e.offset < blob && (!Gentle(bin, e, d, blob) || Disturbs(bin, at + EntrySize(bin[at]), info, blob, e, d))
  }

  /** Masking with d rewrites its own list. This can be told from the image before it is masked. */
  ghost predicate Disturbed(bin: seq<Byte>, d: int) {
    Tagged(bin) && 0 <= BlobAt(bin) && Disturbs(bin, BlobAt(bin), InfoAt(bin), BlobAt(bin), Entry(0, 0), d)
  }

  lemma {:induction false} DisturbsSame(x: seq<Byte>, y: seq<Byte>, at: int, info: int, blob: int, prev: Entry, d: int)
    requires 0 <= blob <= at && info == |x| - 20 && SameList(x, y, blob) && !Disturbs(x, at, info, blob, prev, d)
    ensures !Disturbs(y, at, info, blob, prev, d)
    decreases info - at
  {
    if at < info {
      assert DecodeEntry(y, at, prev) == DecodeEntry(x, at, prev) && x[at] == y[at] by { SameDecode(x, y, at, info, blob, prev); }
      hide DecodeEntry, Gentle, SameList;
      var e := DecodeEntry(x, at, prev);
      if -1 <= e.offset < blob {
        GentleSame(x, y, e, d, blob);
        DisturbsSame(x, y, at + EntrySize(x[at]), info, blob, e, d);
      }
    }
  }

  lemma SameDecode(x: seq<Byte>, y: seq<Byte>, at: int, info: int, blob: int, prev: Entry)
    requires 0 <= blob <= at < info == |x| - 20 && SameList(x, y, blob)
    ensures DecodeEntry(y, at, prev) == DecodeEntry(x, at, prev) && x[at] == y[at]
  {
  }

  lemma {:induction false} ProperIsGentle(bin: seq<Byte>, at: int, info: int, blob: int, prev: Entry, d: int)
    requires 0 <= blob <= at && info == InfoAt(bin) && Proper(bin, at, info, blob, prev) && !Disturbs(bin, at, info, blob, prev, d)
    ensures AllGentle(bin, EntriesFrom(bin, at, info, blob, prev), d, blob)
    decreases info - at
  {
    hide DecodeEntry, Gentle;
    if at < info {
      ProperIsGentle(bin, at + EntrySize(bin[at]), info, blob, DecodeEntry(bin, at, prev), d);
    }
  }

  /** A list that is neither proper nor disturbed is refused. */
  lemma {:induction false} ImproperRefused(bin: seq<Byte>, at: int, info: int, blob: int, prev: Entry, d: int, seen: Option<int>, mismatch: bool)
    requires 0 <= blob <= at && blob <= info == |bin| - 20 == InfoAt(bin) && !Proper(bin, at, info, blob, prev) && !Disturbs(bin, at, info, blob, prev, d)
    ensures Walk(bin, at, info, blob, prev, Some(d), d, seen, mismatch).status == Error
    decreases info - at
  {
    hide DecodeEntry, Word, PutWord, Signed, Walk, SameList, Gentle;
    if at >= info {
      WalkEnd(bin, at, info, blob, prev, Some(d), d, seen, mismatch);
    } else {
      WalkEntry(bin, at, info, blob, prev, Some(d), d, seen, mismatch);
      var e, next := DecodeEntry(bin, at, prev), at + EntrySize(bin[at]);
      if -1 <= e.offset < blob {
        var v := (e.original + d) % WORD;
        var bin' := PutWord(bin, Target(bin, e), v);
        PutShape(bin, e, v);
        GentleKeepsList(bin, e, d, blob);
        SameListBack(bin, bin', blob);
        var i := Signed(Word(bin', Target(bin', e)) - e.original);
        WalkStep(bin, at, info, blob, prev, Some(d), d, seen, mismatch, bin', i);
        if Proper(bin', next, info, blob, e) {
          ProperSame(bin', bin, next, info, blob, e);
        }
        DisturbsSame(bin, bin', next, info, blob, e, d);
        ImproperRefused(bin', next, info, blob, e, d, if seen.None? then Some(i) else seen, mismatch || (seen.Some? && seen.value != i));
      }
    }
  }

  lemma SameListBack(x: seq<Byte>, y: seq<Byte>, blob: int)
    requires SameList(x, y, blob)
    ensures SameList(y, x, blob)
  {
  }

  /** An image whose list is not disturbed is either refused or masked as its list says. */
  lemma MaskedOrRefused(bin: seq<Byte>, d: int)
    requires !Disturbed(bin, d)
    ensures MaskData(bin, Some(d)).status == Error || Undisturbed(bin, d)
  {
    hide DecodeEntry, Word, PutWord, Signed, Proper, EntriesFrom, Walk, Tagged, BlobAt, Gentle, AllGentle, Disturbs;
    if Tagged(bin) && 0 <= BlobAt(bin) {
      TaggedRoom(bin);
      var blob, info := BlobAt(bin), InfoAt(bin);
      if Proper(bin, blob, info, blob, Entry(0, 0)) {
        ProperIsGentle(bin, blob, info, blob, Entry(0, 0), d);
      } else {
        ImproperRefused(bin, blob, info, blob, Entry(0, 0), d, None, false);
      }
    }
  }

  /** What was masked once is left as it is by the same mask. */
  ghost predicate Idempotent(bin: seq<Byte>, d: int) {
    var r := MaskData(bin, Some(d));
    r.status == Matched ==> MaskData(r.bin, Some(d)) == r
  }

  /** Entry e is read from the list before the list ends or an entry is refused. */
  ghost predicate Reads(bin: seq<Byte>, at: int, info: int, blob: int, prev: Entry, e: Entry)
    requires 0 <= blob <= at && info == |bin| - 20
    decreases info - at
  {
    at < info &&
    var f := DecodeEntry(bin, at, prev);
    e == f || (-1 <= f.offset < blob && Reads(bin, at + EntrySize(bin[at]), info, blob, f, e))
  }

  lemma {:induction false} DisturbsSpills(bin: seq<Byte>, at: int, info: int, blob: int, prev: Entry, d: int) returns (e: Entry)
    requires 0 <= blob <= at && info == |bin| - 20 && Disturbs(bin, at, info, blob, prev, d)
    ensures Reads(bin, at, info, blob, prev, e) && blob - 3 <= e.offset < blob && !Gentle(bin, e, d, blob)
    decreases info - at
  {
    hide DecodeEntry, Gentle;
    e := DecodeEntry(bin, at, prev);
    if Gentle(bin, e, d, blob) {
      e := DisturbsSpills(bin, at + EntrySize(bin[at]), info, blob, e, d);
    } else {
      GentleBelow(bin, e, d, blob);
    }
  }

  /**
   * Only a disturbed list can break idempotence: if an image masks, and the same mask then does something else, an entry
   * was read that begins in the last three bytes below the list and writes something new into it. Whatever else may be
   * wrong with an image, it is then refused the first time.
   */
  lemma OnlySpillsBreakMasking(bin: seq<Byte>, d: int) returns (e: Entry)
    requires Int32(d) && !Idempotent(bin, d)
    ensures Disturbed(bin, d) && var blob := BlobAt(bin);
      Reads(bin, blob, InfoAt(bin), blob, Entry(0, 0), e) && blob - 3 <= e.offset < blob && !Gentle(bin, e, d, blob)
  {
    hide DecodeEntry, Word, PutWord, Signed, Proper, EntriesFrom, Walk, Tagged, BlobAt, Gentle, AllGentle, Disturbs, MaskData, Undisturbed, Reads;
    if !Disturbed(bin, d) {
      MaskedOrRefused(bin, d);
      MaskComposes(bin, d, d);
    }
    e := DisturbsSpills(bin, BlobAt(bin), InfoAt(bin), BlobAt(bin), Entry(0, 0), d);
  }

  /** One entry at offset 0 with the value 0x40000000, in an image whose list begins at offset 1. */
  const SPILLING: seq<Byte> :=
    [0] + [0, 0, 0, 0, 0x40, 0, 0, 0] + RETOUCH_TAG + [8, 0, 0, 0] + [0, 0, 0, 0] + PRE_TAG

  const SPILLED: seq<Byte> :=
    [0] + [0, 0, 0x40, 0, 0x40, 0, 0, 0] + RETOUCH_TAG + [8, 0, 0, 0] + [0, 0, 0, 0] + PRE_TAG

  /**
   * The check on an entry's offset only asks that it begin below the list. An entry that begins there and ends inside
   * the list rewrites the list itself: the image masks once, and what that leaves is refused.
   */
  lemma SpillBreaksMasking()
    ensures MaskData(SPILLING, Some(0)) == Outcome(Matched, SPILLED, 0)
    ensures MaskData(SPILLED, Some(0)).status == Error
    ensures !Idempotent(SPILLING, 0)
  {
    hide DecodeEntry, PutWord, Word, Signed, Tagged, BlobAt;
    SpillingLayout();
    SpilledLayout();
    var e := Entry(0, 0x4000_0000);
    WordOfPut(SPILLING, 0, 0x4000_0000);
    SignedShift(0x4000_0000, 0);
    WalkStep(SPILLING, 1, 9, 1, Entry(0, 0), Some(0), 0, None, false, SPILLED, 0);
    WalkEnd(SPILLED, 9, 9, 1, e, Some(0), 0, Some(0), false);
    WalkEntry(SPILLED, 1, 9, 1, Entry(0, 0), Some(0), 0, None, false);
  }

  lemma SpillingLayout()
    ensures Tagged(SPILLING) && BlobAt(SPILLING) == 1
    ensures DecodeEntry(SPILLING, 1, Entry(0, 0)) == Entry(0, 0x4000_0000)
    ensures PutWord(SPILLING, 0, 0x4000_0000) == SPILLED
  {
    assert SPILLING[9..17] == RETOUCH_TAG && SPILLING[25..] == PRE_TAG;
  }

  lemma SpilledLayout()
    ensures Tagged(SPILLED) && BlobAt(SPILLED) == 1
    ensures DecodeEntry(SPILLED, 1, Entry(0, 0)).offset == 0x4000
  {
    assert SPILLED[9..17] == RETOUCH_TAG && SPILLED[25..] == PRE_TAG;
  }

  /**
   * An image with two entries, whose list begins at offset 20. The first entry's first byte is f: with 0x9f it is for
   * offset 4, with 0xff for offset 16. The second is for offset 17 and writes 0, 0, 0, 0xff, the last of them over f.
   */
  function Lucky(x: Byte, y: Byte, f: Byte): (r: seq<Byte>)
    ensures |r| == 50
  {
    [0, 0, 0, 0] + [x, x, x, x] + [0, 0, 0, 0, 0, 0, 0, 0] + [0xff, y, y, y] + [f, 0xff, 0, 0, 0, 17, 0xff, 0, 0, 0] +
    RETOUCH_TAG + [10, 0, 0, 0] + [0, 0, 0, 0] + PRE_TAG
  }

  /**
   * Disturbing the list is not yet breaking it: here the second entry moves the first one from offset 4 to offset 16, and
   * there the image holds just what the first entry writes and the second does not write over again. So no look at the
   * disturbing entry alone can tell whether masking is idempotent.
   */
  lemma DisturbedYetIdempotent()
    ensures Disturbed(Lucky(0, 0, 0x9f), 0) && MaskData(Lucky(0, 0, 0x9f), Some(0)) == Outcome(Matched, Lucky(0xff, 0, 0xff), 0)
    ensures MaskData(Lucky(0xff, 0, 0xff), Some(0)) == Outcome(Matched, Lucky(0xff, 0, 0xff), 0) && Idempotent(Lucky(0, 0, 0x9f), 0)
  {
    hide Lucky, DecodeEntry, Tagged, BlobAt, PutWord, Word, Signed, Walk, EntrySize, Gentle, Disturbs;
    var e, f := Entry(4, 0xffff_ffff), Entry(16, 0xffff_ffff);
    LuckyLayout(0, 0, 0x9f);
    LuckyLayout(0xff, 0, 0x9f);
    LuckyLayout(0xff, 0, 0xff);
    LuckyLayout(0xff, 0xff, 0xff);
    LuckyWrites();
    LuckyWritesAgain();
    LuckySpill();
    LuckyWalk(Lucky(0, 0, 0x9f), Lucky(0xff, 0, 0x9f), Lucky(0xff, 0, 0xff), e);
    LuckyWalk(Lucky(0xff, 0, 0xff), Lucky(0xff, 0xff, 0xff), Lucky(0xff, 0, 0xff), f);
    LuckyDisturbs(Lucky(0, 0, 0x9f), e);
  }

  lemma LuckyDisturbs(bin: seq<Byte>, e: Entry)
    requires |bin| == 50 && -1 <= e.offset < 20 && EntrySize(bin[20]) == 2 && DecodeEntry(bin, 20, Entry(0, 0)) == e
    requires DecodeEntry(bin, 22, e) == Entry(17, 0xff00_0000) && !Gentle(bin, Entry(17, 0xff00_0000), 0, 20)
    ensures Disturbs(bin, 20, 30, 20, Entry(0, 0), 0)
  {
    hide DecodeEntry, Gentle, EntrySize;
    assert Disturbs(bin, 22, 30, 20, e, 0);
  }

  lemma LuckyWalk(bin: seq<Byte>, bin1: seq<Byte>, bin2: seq<Byte>, e: Entry)
    requires |bin| == |bin1| == |bin2| == 50 && -1 <= e.offset < 20 && e.original == 0xffff_ffff && EntrySize(bin[20]) == 2 && EntrySize(bin1[22]) == 8
    requires DecodeEntry(bin, 20, Entry(0, 0)) == e && bin1 == PutWord(bin, Target(bin, e), 0xffff_ffff)
    requires DecodeEntry(bin1, 22, e) == Entry(17, 0xff00_0000) && bin2 == PutWord(bin1, 17, 0xff00_0000)
    ensures Walk(bin, 20, 30, 20, Entry(0, 0), Some(0), 0, None, false) == Outcome(Matched, bin2, 0)
  {
    hide DecodeEntry, PutWord, Word, Signed, Walk, EntrySize;
    var g := Entry(17, 0xff00_0000);
    PutShape(bin, e, 0xffff_ffff);
    PutShape(bin1, g, 0xff00_0000);
    assert Target(bin1, g) == 17;
    WordOfPut(bin, Target(bin, e), 0xffff_ffff);
    WordOfPut(bin1, 17, 0xff00_0000);
    SignedShift(0xffff_ffff, 0);
    SignedShift(0xff00_0000, 0);
    WalkStep(bin, 20, 30, 20, Entry(0, 0), Some(0), 0, None, false, bin1, 0);
    WalkStep(bin1, 22, 30, 20, e, Some(0), 0, Some(0), false, bin2, 0);
    WalkEnd(bin2, 30, 30, 20, g, Some(0), 0, Some(0), false);
  }

  lemma LuckyLayout(x: Byte, y: Byte, f: Byte)
    requires f == 0x9f || f == 0xff
    ensures var bin := Lucky(x, y, f);
      && Tagged(bin) && BlobAt(bin) == 20 && EntrySize(bin[20]) == 2 && EntrySize(bin[22]) == 8
      && DecodeEntry(bin, 20, Entry(0, 0)) == Entry(if f == 0x9f then 4 else 16, 0xffff_ffff)
      && forall e :: DecodeEntry(bin, 22, e) == Entry(17, 0xff00_0000)
  {
    var bin := Lucky(x, y, f);
    assert bin[30..38] == RETOUCH_TAG && bin[46..] == PRE_TAG && Word(bin, 38) == 10;
    assert bin[20] == f && bin[21] == 0xff;
    assert bin[22] == 0 && bin[23] == 0 && bin[24] == 0 && bin[25] == 17 && bin[26] == 0xff && bin[27] == 0 && bin[28] == 0 && bin[29] == 0;
  }

  lemma LuckyWrites()
    ensures PutWord(Lucky(0, 0, 0x9f), 4, 0xffff_ffff) == Lucky(0xff, 0, 0x9f)
    ensures PutWord(Lucky(0xff, 0, 0x9f), 17, 0xff00_0000) == Lucky(0xff, 0, 0xff)
  {
  }

  lemma LuckyWritesAgain()
    ensures PutWord(Lucky(0xff, 0, 0xff), 16, 0xffff_ffff) == Lucky(0xff, 0xff, 0xff)
    ensures PutWord(Lucky(0xff, 0xff, 0xff), 17, 0xff00_0000) == Lucky(0xff, 0, 0xff)
  {
  }

  lemma LuckySpill()
    ensures !Gentle(Lucky(0, 0, 0x9f), Entry(17, 0xff00_0000), 0, 20)
  {
    var bin := Lucky(0, 0, 0x9f);
    assert bin[20] == 0x9f && PutWord(bin, 17, 0xff00_0000)[20] == 0xff;
  }
}
