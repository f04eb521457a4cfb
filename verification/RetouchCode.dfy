/** The encoding of retouch entries that minelf/Retouch.c decodes, and images that carry encoded lists. */
module RetouchCode {
  import opened Bytes
  import opened Numbers
  import opened Retouch

  /** Entries take two, three or eight bytes; the first two forms tell the entry by how it differs from the one before. */
  datatype Form = Short | Middle | Long

  const LAST_OFFSET := 0x3fff_ffff

  function Delta(prev: Entry, e: Entry): int { Signed(e.original - prev.original) }

  predicate Steps(prev: Entry, e: Entry) { e.offset - prev.offset in {4, 8, 12, 16} }

  /** The form can tell the entry. */
  predicate Codable(form: Form, prev: Entry, e: Entry) {
    && 0 <= e.original < WORD
    && match form
       case Short => Steps(prev, e) && -0x1000 <= Delta(prev, e) < 0x1000
       case Middle => Steps(prev, e) && -0x8_0000 <= Delta(prev, e) < 0x8_0000
       case Long => -1 <= e.offset < LAST_OFFSET
  }

  /** A word, most significant byte first. */
  function Big(v: int): seq<Byte> { [v / 16777216 % 256, v / 65536 % 256, v / 256 % 256, v % 256] }

  /**
   * Short: 1, two bits for the step, 13 bits for the difference of the contents. Middle: 01, two bits for the step, 20
   * bits for the difference. Long: 00, 30 bits for the offset, all of them ones for the prelink word, 32 for the contents.
   */
  function Code(form: Form, prev: Entry, e: Entry): (c: seq<Byte>)
    requires Codable(form, prev, e)
    ensures |c| == match form case Short => 2 case Middle => 3 case Long => 8
  {
    match form
    case Short =>
      var u := Delta(prev, e) % 0x2000;
      [0x80 + 32 * ((e.offset - prev.offset) / 4 - 1) + u / 256, u % 256]
    case Middle =>
      var u := Delta(prev, e) % 0x10_0000;
      [0x40 + 16 * ((e.offset - prev.offset) / 4 - 1) + u / 65536, u / 256 % 256, u % 256]
    case Long =>
      Big(if e.offset == -1 then LAST_OFFSET else e.offset) + Big(e.original)
  }

  lemma DeltaAdds(prev: Entry, e: Entry)
    requires 0 <= e.original < WORD
    ensures (prev.original + Delta(prev, e)) % WORD == e.original
  {
    var x := e.original - prev.original;
    var k := x / WORD;
    assert x == k * WORD + x % WORD;
    if x % WORD < 0x8000_0000 {
      Cycles(e.original, -k);
      assert prev.original + Delta(prev, e) == e.original + -k * WORD;
    } else {
      Cycles(e.original, -k - 1);
      assert prev.original + Delta(prev, e) == e.original + (-k - 1) * WORD;
    }
  }

  lemma BigValue(v: int)
    requires 0 <= v < WORD
    ensures var b := Big(v); 16777216 * (b[0] as int) + 65536 * (b[1] as int) + 256 * (b[2] as int) + b[3] == v
  {
    assert v / 65536 == v / 256 / 256 && v / 16777216 == v / 256 / 256 / 256;
  }

  /** Decoding inverts encoding, for every entry of each form. */
  lemma DecodeShort(bin: seq<Byte>, at: int, prev: Entry, e: Entry)
    requires Codable(Short, prev, e) && 0 <= at && at + 8 <= |bin| && bin[at..at + 2] == Code(Short, prev, e)
    ensures DecodeEntry(bin, at, prev) == e && EntrySize(bin[at]) == 2
  {
    DeltaAdds(prev, e);
    var c := Code(Short, prev, e);
    assert bin[at] == bin[at..at + 2][0] && bin[at + 1] == bin[at..at + 2][1];
    hide Signed;
    var u, s := Delta(prev, e) % 0x2000, (e.offset - prev.offset) / 4 - 1;
    var b: int := bin[at];
    assert b == 0x80 + 32 * s + u / 256 && 0 <= s < 4 && 0 <= u / 256 < 32;
    assert b % 32 == u / 256 && b / 32 % 4 == s;
    assert b % 32 * 256 + bin[at + 1] == u;
  }

  lemma DecodeMiddle(bin: seq<Byte>, at: int, prev: Entry, e: Entry)
    requires Codable(Middle, prev, e) && 0 <= at && at + 8 <= |bin| && bin[at..at + 3] == Code(Middle, prev, e)
    ensures DecodeEntry(bin, at, prev) == e && EntrySize(bin[at]) == 3
  {
    DeltaAdds(prev, e);
    var c := Code(Middle, prev, e);
    assert bin[at] == bin[at..at + 3][0] && bin[at + 1] == bin[at..at + 3][1] && bin[at + 2] == bin[at..at + 3][2];
    hide Signed;
    var u, s := Delta(prev, e) % 0x10_0000, (e.offset - prev.offset) / 4 - 1;
    var b: int := bin[at];
    assert b == 0x40 + 16 * s + u / 65536 && 0 <= s < 4 && 0 <= u / 65536 < 16;
    assert b % 16 == u / 65536 && b / 16 % 4 == s;
    assert u / 65536 == u / 256 / 256;
    assert b % 16 * 65536 + 256 * (bin[at + 1] as int) + bin[at + 2] == u;
  }

  lemma DecodeLong(bin: seq<Byte>, at: int, prev: Entry, e: Entry)
    requires Codable(Long, prev, e) && 0 <= at && at + 8 <= |bin| && bin[at..at + 8] == Code(Long, prev, e)
    ensures DecodeEntry(bin, at, prev) == e && EntrySize(bin[at]) == 8
  {
    var o := if e.offset == -1 then LAST_OFFSET else e.offset;
    BigValue(o);
    BigValue(e.original);
    var c := bin[at..at + 8];
    assert forall i :: 0 <= i < 8 ==> bin[at + i] == c[i];
    assert c[..4] == Big(o) && c[4..] == Big(e.original);
    assert forall i :: 0 <= i < 4 ==> c[i] == Big(o)[i] && c[4 + i] == Big(e.original)[i];
    assert o / 16777216 < 0x40;
  }

  lemma DecodeCode(bin: seq<Byte>, at: int, form: Form, prev: Entry, e: Entry)
    requires Codable(form, prev, e) && 0 <= at && at + 8 <= |bin| && bin[at..at + |Code(form, prev, e)|] == Code(form, prev, e)
    ensures DecodeEntry(bin, at, prev) == e && EntrySize(bin[at]) == |Code(form, prev, e)|
  {
    hide DecodeEntry, EntrySize, Codable;
    match form
    case Short => DecodeShort(bin, at, prev, e);
    case Middle => DecodeMiddle(bin, at, prev, e);
    case Long => DecodeLong(bin, at, prev, e);
  }

  // ----- Every string of bytes is the code of something -----

  lemma DeltaOf(prev: Entry, o: int, t: int)
    requires -0x8_0000 <= t < 0x8_0000
    ensures Delta(prev, Entry(o, (prev.original + t) % WORD)) == t
  {
    SignedShift(prev.original, t);
  }

  lemma CodeOfShort(bin: seq<Byte>, at: int, prev: Entry)
    requires 0 <= at && at + 8 <= |bin| && bin[at] >= 0x80
    ensures var e := DecodeEntry(bin, at, prev); Codable(Short, prev, e) && Code(Short, prev, e) == bin[at..at + 2]
  {
    var b: int, e := bin[at], DecodeEntry(bin, at, prev);
    var u := b % 32 * 256 + bin[at + 1];
    var t, s := if u >= 0x1000 then u - 0x2000 else u, b / 32 % 4;
    DeltaOf(prev, e.offset, t);
    hide Signed, Delta;
    assert b == 0x80 + 32 * s + b % 32;
    assert t % 0x2000 == u && u / 256 == b % 32 && u % 256 == bin[at + 1];
    assert e.offset - prev.offset == (s + 1) * 4;
  }

  lemma MiddleDigits(a: int, b: Byte, c: Byte)
    requires 0 <= a < 16
    ensures var u := a * 65536 + 256 * (b as int) + c; 0 <= u < 0x10_0000 && u / 65536 == a && u / 256 % 256 == b && u % 256 == c
  {
    Digits(c, b, a, 0, a * 65536 + 256 * (b as int) + c);
  }

  lemma CodeOfMiddle(bin: seq<Byte>, at: int, prev: Entry)
    requires 0 <= at && at + 8 <= |bin| && 0x40 <= bin[at] < 0x80
    ensures var e := DecodeEntry(bin, at, prev); Codable(Middle, prev, e) && Code(Middle, prev, e) == bin[at..at + 3]
  {
    var b: int, e := bin[at], DecodeEntry(bin, at, prev);
    var u := b % 16 * 65536 + 256 * (bin[at + 1] as int) + bin[at + 2];
    var t, s := if u >= 0x8_0000 then u - 0x10_0000 else u, b / 16 % 4;
    DeltaOf(prev, e.offset, t);
    MiddleDigits(b % 16, bin[at + 1], bin[at + 2]);
    hide Signed, Delta;
    assert b == 0x40 + 16 * s + b % 16;
    assert t % 0x10_0000 == u;
    assert e.offset - prev.offset == (s + 1) * 4;
  }

  lemma CodeOfLong(bin: seq<Byte>, at: int, prev: Entry)
    requires 0 <= at && at + 8 <= |bin| && bin[at] < 0x40
    ensures var e := DecodeEntry(bin, at, prev); Codable(Long, prev, e) && Code(Long, prev, e) == bin[at..at + 8]
  {
    BigOf(bin[at], bin[at + 1], bin[at + 2], bin[at + 3]);
    BigOf(bin[at + 4], bin[at + 5], bin[at + 6], bin[at + 7]);
  }

  lemma BigOf(a: Byte, b: Byte, c: Byte, d: Byte)
    ensures var v := 16777216 * (a as int) + 65536 * (b as int) + 256 * (c as int) + d; 0 <= v < WORD && Big(v) == [a, b, c, d]
  {
    Digits(d, c, b, a, 16777216 * (a as int) + 65536 * (b as int) + 256 * (c as int) + d);
  }

  /** What is decoded from any bytes is what they are the code of, and no other entry has that code. */
  lemma DecodesExactly(bin: seq<Byte>, at: int, prev: Entry, form: Form, e: Entry)
    requires 0 <= at && at + 8 <= |bin| && Codable(form, prev, e)
    ensures bin[at..at + |Code(form, prev, e)|] == Code(form, prev, e) <==>
      DecodeEntry(bin, at, prev) == e && EntrySize(bin[at]) == |Code(form, prev, e)|
  {
    hide DecodeEntry, Delta, Signed;
    if bin[at..at + |Code(form, prev, e)|] == Code(form, prev, e) {
      DecodeCode(bin, at, form, prev, e);
    } else if DecodeEntry(bin, at, prev) == e && EntrySize(bin[at]) == |Code(form, prev, e)| {
      match form
      case Short => CodeOfShort(bin, at, prev);
      case Middle => CodeOfMiddle(bin, at, prev);
      case Long => CodeOfLong(bin, at, prev);
    }
  }

  // ----- Images with encoded lists -----

  predicate CodableAll(forms: seq<Form>, prev: Entry, es: seq<Entry>) {
    |forms| == |es| && (es != [] ==> Codable(forms[0], prev, es[0]) && CodableAll(forms[1..], es[0], es[1..]))
  }

  function CodeAll(forms: seq<Form>, prev: Entry, es: seq<Entry>): seq<Byte>
    requires CodableAll(forms, prev, es)
  {
    if es == [] then [] else Code(forms[0], prev, es[0]) + CodeAll(forms[1..], es[0], es[1..])
  }

  /** A word, least significant byte first. */
  function Small(v: int): seq<Byte> { [v % 256, v / 256 % 256, v / 65536 % 256, v / 16777216 % 256] }

  const FIRST := Entry(0, 0)

  /** The contents, the list, its tag and length, the prelink word and its tag. */
  function Image(body: seq<Byte>, forms: seq<Form>, es: seq<Entry>, prelink: int): seq<Byte>
    requires CodableAll(forms, FIRST, es)
  {
    body + CodeAll(forms, FIRST, es) + (RETOUCH_TAG + Small(|CodeAll(forms, FIRST, es)|) + Small(prelink) + PRE_TAG)
  }

  lemma {:induction false} CodeReads(bin: seq<Byte>, at: int, info: int, blob: int, forms: seq<Form>, prev: Entry, es: seq<Entry>)
    requires CodableAll(forms, prev, es) && 0 <= blob <= at <= info == InfoAt(bin) && bin[at..info] == CodeAll(forms, prev, es)
    requires forall k :: 0 <= k < |es| ==> -1 <= es[k].offset < blob
    ensures Proper(bin, at, info, blob, prev) && EntriesFrom(bin, at, info, blob, prev) == es
    decreases |es|
  {
    if es == [] {
      assert at == info;
    } else {
      var c, rest := Code(forms[0], prev, es[0]), CodeAll(forms[1..], es[0], es[1..]);
      var next := at + |c|;
      hide Code, Codable, DecodeEntry;
      assert (c + rest)[..|c|] == c && (c + rest)[|c|..] == rest;
      assert bin[at..info][..|c|] == bin[at..next] && bin[at..info][|c|..] == bin[next..info];
      DecodeCode(bin, at, forms[0], prev, es[0]);
      CodeReads(bin, next, info, blob, forms[1..], es[0], es[1..]);
    }
  }

  lemma SmallValue(bin: seq<Byte>, at: int, v: int)
    requires 0 <= v < WORD && 0 <= at && at + 4 <= |bin| && bin[at..at + 4] == Small(v)
    ensures Word(bin, at) == v
  {
    var b := bin[at..at + 4];
    assert bin[at] == b[0] && bin[at + 1] == b[1] && bin[at + 2] == b[2] && bin[at + 3] == b[3];
    Digits(bin[at], bin[at + 1], bin[at + 2], bin[at + 3], v);
  }

  lemma ImageShape(body: seq<Byte>, forms: seq<Form>, es: seq<Entry>, prelink: int)
    requires CodableAll(forms, FIRST, es) && |CodeAll(forms, FIRST, es)| < WORD
    ensures var bin := Image(body, forms, es, prelink);
      Tagged(bin) && BlobAt(bin) == |body| && bin[BlobAt(bin)..InfoAt(bin)] == CodeAll(forms, FIRST, es)
  {
    var bin, list := Image(body, forms, es, prelink), CodeAll(forms, FIRST, es);
    hide CodeAll, CodableAll;
    var info := |body| + |list|;
    var a, b, c := Small(|list|), Small(prelink), body + list;
    var end := RETOUCH_TAG + a + b + PRE_TAG;
    assert bin == c + end && |end| == 20;
    assert end[..8] == RETOUCH_TAG && end[8..12] == a && end[16..] == PRE_TAG;
    assert bin[info..info + 8] == end[..8] && bin[info + 8..info + 12] == end[8..12] && bin[info + 16..] == end[16..];
    SmallValue(bin, info + 8, |list|);
    hide Word;
    assert bin[|body|..info] == list;
  }

  /** An image that carries a list of entries, each in a form that can tell it, is read as carrying just that list. */
  lemma ImageReads(body: seq<Byte>, forms: seq<Form>, es: seq<Entry>, prelink: int)
    requires CodableAll(forms, FIRST, es) && |CodeAll(forms, FIRST, es)| < WORD
    requires forall k :: 0 <= k < |es| ==> -1 <= es[k].offset < |body|
    ensures var bin := Image(body, forms, es, prelink); Tagged(bin) && BlobAt(bin) == |body| && Readable(bin) && EntriesOf(bin) == es
  {
    hide Image, CodeAll, CodableAll, Tagged, BlobAt, Proper, EntriesFrom;
    ImageShape(body, forms, es, prelink);
    var bin := Image(body, forms, es, prelink);
    TaggedRoom(bin);
    CodeReads(bin, |body|, InfoAt(bin), |body|, forms, FIRST, es);
  }

  lemma FormOf(bin: seq<Byte>, at: int, prev: Entry) returns (form: Form)
    requires 0 <= at && at + 8 <= |bin|
    ensures var e := DecodeEntry(bin, at, prev);
      Codable(form, prev, e) && |Code(form, prev, e)| == EntrySize(bin[at]) && Code(form, prev, e) == bin[at..at + EntrySize(bin[at])]
  {
    hide DecodeEntry, Delta, Signed;
    if bin[at] >= 0x80 {
      form := Short;
      CodeOfShort(bin, at, prev);
    } else if bin[at] >= 0x40 {
      form := Middle;
      CodeOfMiddle(bin, at, prev);
    } else {
      form := Long;
      CodeOfLong(bin, at, prev);
    }
  }

  /** A list that can be read is the code of its entries. */
  lemma {:induction false} CodeOf(bin: seq<Byte>, at: int, info: int, blob: int, prev: Entry) returns (forms: seq<Form>)
    requires 0 <= blob <= at <= info == InfoAt(bin) && Proper(bin, at, info, blob, prev)
    ensures var es := EntriesFrom(bin, at, info, blob, prev); CodableAll(forms, prev, es) && CodeAll(forms, prev, es) == bin[at..info]
    decreases info - at
  {
    forms := [];
    if at < info {
      hide Code, Codable, DecodeEntry;
      var e, next := DecodeEntry(bin, at, prev), at + EntrySize(bin[at]);
      var form := FormOf(bin, at, prev);
      assert next <= info by { hide CodeAll; }
      var rest := CodeOf(bin, next, info, blob, e);
      forms := [form] + rest;
      var es := EntriesFrom(bin, next, info, blob, e);
      assert EntriesFrom(bin, at, info, blob, prev) == [e] + es;
      assert forms[1..] == rest && ([e] + es)[1..] == es;
      assert bin[at..next] + bin[next..info] == bin[at..info];
    }
  }

  /** The image carries a list of entries that can be read. */
  ghost predicate Carries(bin: seq<Byte>, body: seq<Byte>, forms: seq<Form>, es: seq<Entry>, prelink: int) {
    && CodableAll(forms, FIRST, es) && |CodeAll(forms, FIRST, es)| < WORD && bin == Image(body, forms, es, prelink)
    && forall k :: 0 <= k < |es| ==> -1 <= es[k].offset < |body|
  }

  lemma SmallOf(bin: seq<Byte>, at: int)
    requires 0 <= at && at + 4 <= |bin|
    ensures bin[at..at + 4] == Small(Word(bin, at))
  {
    Digits(bin[at], bin[at + 1], bin[at + 2], bin[at + 3], Word(bin, at));
  }

  /** The parts of a tagged image. */
  lemma TaggedParts(bin: seq<Byte>)
    requires Tagged(bin) && 0 <= BlobAt(bin)
    ensures var blob, info := BlobAt(bin), InfoAt(bin);
      blob <= info && bin == bin[..blob] + bin[blob..info] + (RETOUCH_TAG + Small(info - blob) + Small(Word(bin, |bin| - 8)) + PRE_TAG)
  {
    var blob, info := BlobAt(bin), InfoAt(bin);
    SmallOf(bin, info + 8);
    SmallOf(bin, info + 12);
    hide Word, Small;
    assert bin[info..] == bin[info..info + 8] + bin[info + 8..info + 12] + bin[info + 12..info + 16] + bin[info + 16..];
    assert bin == bin[..blob] + bin[blob..info] + bin[info..];
  }

  /** Exactly the images that carry such a list can be read, and what is read is that list. */
  lemma ReadableExactly(bin: seq<Byte>)
    ensures Tagged(bin) && Readable(bin) <==> exists body, forms, es, prelink :: Carries(bin, body, forms, es, prelink)
    ensures forall body, forms, es, prelink :: Carries(bin, body, forms, es, prelink) ==> Tagged(bin) && Readable(bin) && EntriesOf(bin) == es
  {
    hide Tagged, BlobAt, Proper, EntriesFrom, CodableAll, CodeAll, Word;
    if Tagged(bin) && Readable(bin) {
      var blob, info := BlobAt(bin), InfoAt(bin);
      TaggedParts(bin);
      var forms := CodeOf(bin, blob, info, blob, FIRST);
      EntriesPlaced(bin, blob, info, blob, FIRST);
      ListShort(bin);
      assert Carries(bin, bin[..blob], forms, EntriesOf(bin), Word(bin, |bin| - 8));
    }
    forall body, forms, es, prelink | Carries(bin, body, forms, es, prelink)
      ensures Tagged(bin) && Readable(bin) && EntriesOf(bin) == es
    {
      ImageReads(body, forms, es, prelink);
    }
  }

  lemma ListShort(bin: seq<Byte>)
    requires Tagged(bin)
    ensures InfoAt(bin) - BlobAt(bin) < WORD
  {
  }

  lemma {:induction false} WalkRefuses(bin: seq<Byte>, at: int, info: int, blob: int, prev: Entry, seen: Option<int>, mismatch: bool)
    requires 0 <= blob <= at && blob <= info == InfoAt(bin) && !Proper(bin, at, info, blob, prev)
    ensures Walk(bin, at, info, blob, prev, None, 0, seen, mismatch).status == Error
    decreases info - at
  {
    if at < info {
      hide DecodeEntry, Word, Signed;
      WalkEntry(bin, at, info, blob, prev, None, 0, seen, mismatch);
      var e := DecodeEntry(bin, at, prev);
      if -1 <= e.offset < blob {
        var i := Signed(Word(bin, Target(bin, e)) - e.original);
        WalkStep(bin, at, info, blob, prev, None, 0, seen, mismatch, bin, i);
        WalkRefuses(bin, at + EntrySize(bin[at]), info, blob, e, if seen.None? then Some(i) else seen, mismatch || (seen.Some? && seen.value != i));
      }
    }
  }

  /** What inferring answers for every image: not applicable without tags, an error exactly if the list cannot be read. */
  lemma InferAnswers(bin: seq<Byte>)
    ensures var r := MaskData(bin, None);
      && (r.status == NotApplicable <==> !Tagged(bin))
      && (r.status == Error <==> Tagged(bin) && !Readable(bin))
  {
    hide Tagged, BlobAt, Proper, EntriesFrom, Walk;
    if Tagged(bin) {
      TaggedRoom(bin);
      if Readable(bin) {
        InfersExactly(bin, 0);
      } else if BlobAt(bin) >= 0 {
        WalkRefuses(bin, BlobAt(bin), InfoAt(bin), BlobAt(bin), FIRST, None, false);
      }
    }
  }

  // ----- What masking leaves -----

  /** No entry behind the k-th writes where it does. */
  ghost predicate Final(bin: seq<Byte>, es: seq<Entry>, k: int)
    requires 0 <= k < |es|
  {
    forall j :: k < j < |es| ==> Target(bin, es[j]) + 4 <= Target(bin, es[k]) || Target(bin, es[k]) + 4 <= Target(bin, es[j])
  }

  lemma WordSame(x: seq<Byte>, y: seq<Byte>, p: int)
    requires |x| == |y| && 0 <= p && p + 4 <= |x| && forall q :: p <= q < p + 4 ==> x[q] == y[q]
    ensures Word(x, p) == Word(y, p)
  {
  }

  lemma {:induction false} WriteAllAt(bin: seq<Byte>, es: seq<Entry>, d: int, blob: int, k: int)
    requires Placed(es, bin, blob) && 0 <= k < |es| && Final(bin, es, k)
    ensures 0 <= Target(bin, es[k]) <= |bin| - 4 && Word(WriteAll(bin, es, d, blob), Target(bin, es[k])) == (es[k].original + d) % WORD
    decreases |es|
  {
    hide Word, PutWord;
    var p, v := Target(bin, es[0]), (es[0].original + d) % WORD;
    var bin' := PutWord(bin, p, v);
    if k > 0 {
      assert Final(bin', es[1..], k - 1) by {
        forall j | k - 1 < j < |es[1..]|
          ensures Target(bin', es[1..][j]) + 4 <= Target(bin', es[k]) || Target(bin', es[k]) + 4 <= Target(bin', es[1..][j])
        {
          assert es[1..][j] == es[j + 1];
        }
      }
      WriteAllAt(bin', es[1..], d, blob, k - 1);
    } else {
      WordOfPut(bin, p, v);
      WriteAllElsewhere(bin', es[1..], d, blob);
      var m := WriteAll(bin', es[1..], d, blob);
      forall q | p <= q < p + 4
        ensures m[q] == bin'[q]
      {
        assert forall j :: 0 <= j < |es[1..]| ==> es[1..][j] == es[j + 1] && !Covers(bin', es[1..][j], q);
        assert !Covered(bin', es[1..], q);
      }
      WordSame(bin', m, p);
    }
  }

  /**
   * Masking an image with d, whatever its entries: it matches; each entry that no later one overlaps then shows its own
   * contents plus d; and bytes that no entry covers are as they were.
   */
  lemma MaskedImage(body: seq<Byte>, forms: seq<Form>, es: seq<Entry>, prelink: int, d: int)
    requires CodableAll(forms, FIRST, es) && |CodeAll(forms, FIRST, es)| < WORD && Int32(d)
    requires forall k :: 0 <= k < |es| ==> -1 <= es[k].offset <= |body| - 4
    ensures var bin := Image(body, forms, es, prelink); var m := MaskData(bin, Some(d));
      && m.status == Matched && m.offset == d && SameUncovered(bin, m.bin, es)
      && (forall k :: 0 <= k < |es| ==> 0 <= Target(bin, es[k]) <= |m.bin| - 4)
      && (forall k :: 0 <= k < |es| && Final(bin, es, k) ==> Word(m.bin, Target(bin, es[k])) == (es[k].original + d) % WORD)
  {
    var bin := Image(body, forms, es, prelink);
    ImageReads(body, forms, es, prelink);
    assert Clean(bin) by { hide Image, EntriesOf, Tagged, BlobAt, CodableAll, CodeAll, Readable; }
    hide *;
    CleanIsUndisturbed(bin, d);
    MaskWrites(bin, d);
    WriteAllElsewhere(bin, es, d, |body|);
    forall k | 0 <= k < |es|
      ensures 0 <= Target(bin, es[k]) <= |bin| - 4
    {
      PlacedAt(es, bin, |body|, k);
    }
    forall k | 0 <= k < |es| && Final(bin, es, k)
      ensures Word(WriteAll(bin, es, d, |body|), Target(bin, es[k])) == (es[k].original + d) % WORD
    {
      WriteAllAt(bin, es, d, |body|, k);
    }
  }
}
