/** Walking DER: the context windows of asn1_decoder.cpp, and read_pkcs7 of verifier.cpp. */
module Der {
  import opened Bytes

  /** The part of a buffer that a context still has to read. */
  datatype Window = Window(at: nat, end: nat)

  predicate In(w: Window, buf: seq<Byte>) { w.at <= w.end <= |buf| }

  /** w is inside v. */
  predicate Inside(w: Window, v: Window) { v.at <= w.at <= w.end <= v.end }

  function View(buf: seq<Byte>, w: Window): seq<Byte>
    requires In(w, buf)
  {
    buf[w.at..w.end]
  }

  function BigEndian(o: seq<Byte>): nat {
    if o == [] then 0 else 256 * BigEndian(o[..|o| - 1]) + o[|o| - 1]
  }

  function Pow256(n: nat): (r: nat)
    ensures r >= 1
  {
    if n == 0 then 1 else 256 * Pow256(n - 1)
  }

  // ----- What is read -----

  /** A length, and where the reading got to. */
  datatype Sized = Sized(length: nat, at: nat)

  /** decode_length, with word the size of size_t: the short form, or the long form with fewer than word octets. */
  function Length(buf: seq<Byte>, w: Window, word: nat): (r: Option<Sized>)
    requires In(w, buf)
    ensures r.Some? ==> w.at < r.value.at <= w.end
  {
    if w.at == w.end then None
    else
      var b := buf[w.at];
      if b < 128 then Some(Sized(b, w.at + 1))
      else
        var k := b - 128;
        if k >= word || w.at + 1 + k > w.end then None
        else Some(Sized(BigEndian(buf[w.at + 1..w.at + 1 + k]), w.at + 1 + k))
  }

  /** The content of the next element, if there is one, its tag is one of those asked for, and it fits the window. */
  function Content(buf: seq<Byte>, w: Window, word: nat, tags: set<Byte>): (r: Option<Window>)
    requires In(w, buf)
    ensures r.Some? ==> Inside(r.value, w) && In(r.value, buf) && w.at < r.value.at
  {
    if w.at == w.end || buf[w.at] !in tags then None
    else
      var l := Length(buf, Window(w.at + 1, w.end), word);
      if l.None? || l.value.length > w.end - l.value.at then None
      else Some(Window(l.value.at, l.value.at + l.value.length))
  }

  const ANY: set<Byte> := set b: Byte | 0 <= b < 256
  /** Tags are compared under the mask 0x7f. */
  const SEQUENCE: set<Byte> := {0x30, 0xb0}
  const SET: set<Byte> := {0x31, 0xb1}
  const OCTETS: set<Byte> := {0x04}
  /** Tags of the class [n], constructed. */
  const CONSTRUCTED: set<Byte> := set b: Byte | 0xa0 <= b < 0xc0

  /** asn1_sequence_next: what follows the next element. */
  function Next(buf: seq<Byte>, w: Window, word: nat): (r: Option<Window>)
    requires In(w, buf)
    ensures r.Some? ==> Inside(r.value, w) && In(r.value, buf) && w.at < r.value.at
  {
    var c := Content(buf, w, word, ANY);
    if c.None? then None else Some(Window(c.value.end, w.end))
  }

  /** So many elements skipped. */
  function Skip(buf: seq<Byte>, w: Window, word: nat, n: nat): (r: Option<Window>)
    requires In(w, buf)
    ensures r.Some? ==> Inside(r.value, w) && In(r.value, buf)
    decreases n
  {
    if n == 0 then Some(w)
    else
      var v := Next(buf, w, word);
      if v.None? then None else Skip(buf, v.value, word, n - 1)
  }

  /** asn1_constructed_skip_all: the first element that is not of the class [n]; there has to be one. */
  function SkipConstructed(buf: seq<Byte>, w: Window, word: nat): (r: Option<Window>)
    requires In(w, buf)
    ensures r.Some? ==> Inside(r.value, w) && In(r.value, buf)
    decreases w.end - w.at
  {
    if w.at == w.end then None
    else if buf[w.at] !in CONSTRUCTED then Some(w)
    else
      var v := Next(buf, w, word);
      if v.None? then None else SkipConstructed(buf, v.value, word)
  }

  /** From the SignedData to the first SignerInfo. */
  function FirstSigner(buf: seq<Byte>, w: Window, word: nat): (r: Option<Window>)
    requires In(w, buf)
    ensures r.Some? ==> Inside(r.value, w) && In(r.value, buf)
  {
    var heads := Skip(buf, w, word, 3);
    if heads.None? then None else
    var rest := SkipConstructed(buf, heads.value, word);
    if rest.None? then None else
    var signers := Content(buf, rest.value, word, SET);
    if signers.None? then None else
    Content(buf, signers.value, word, SEQUENCE)
  }

  /** read_pkcs7 as far as the SignerInfo. */
  function SignerInfo(buf: seq<Byte>, word: nat): (r: Option<Window>)
    ensures r.Some? ==> In(r.value, buf)
  {
    var info := Content(buf, Window(0, |buf|), word, SEQUENCE);
    if info.None? then None else
    var typed := Next(buf, info.value, word);
    if typed.None? then None else
    var app := Content(buf, typed.value, word, CONSTRUCTED);
    if app.None? then None else
    var data := Content(buf, app.value, word, SEQUENCE);
    if data.None? then None else FirstSigner(buf, data.value, word)
  }

  /** read_pkcs7: the octets of the signature. They are a piece of the input, and not empty. */
  function Signature(buf: seq<Byte>, word: nat): (r: Option<seq<Byte>>)
    ensures r.Some? ==> r.value != [] && exists w: Window :: In(w, buf) && r.value == View(buf, w)
  {
    var signer := SignerInfo(buf, word);
    if signer.None? then None else
    var at := Skip(buf, signer.value, word, 4);
    if at.None? then None else
    var sig := Content(buf, at.value, word, OCTETS);
    if sig.None? || sig.value.at == sig.value.end then None
    else Some(View(buf, sig.value))
  }

  // ----- What is written -----

  /** The octets of a number, most significant first, without leading zeros. */
  function Octets(n: nat): seq<Byte> {
    if n == 0 then [] else Octets(n / 256) + [n % 256]
  }

  /** Length octets in the distinguished encoding: section 10.1 of ITU-T X.690. */
  function DerLength(n: nat): seq<Byte> {
    if n < 128 then [n] else [(128 + |Octets(n)|) % 256] + Octets(n)
  }

  /** An element: its tag, the octets of its length, its content. */
  datatype Element = Element(tag: Byte, size: seq<Byte>, content: seq<Byte>)

  function Enc(e: Element): seq<Byte> { [e.tag] + (e.size + e.content) }

  function EncAll(es: seq<Element>): seq<Byte> { if es == [] then [] else Enc(es[0]) + EncAll(es[1..]) }

  /** Octets that tell the length n: the number itself, or how many octets follow and those, fewer than word. */
  predicate Coded(o: seq<Byte>, n: nat, word: nat) {
    o != [] && if o[0] < 128 then |o| == 1 && o[0] == n else |o| == 1 + (o[0] - 128) <= word && BigEndian(o[1..]) == n
  }

  predicate Formed(e: Element, word: nat) { Coded(e.size, |e.content|, word) }

  predicate AllFormed(es: seq<Element>, word: nat) { forall k :: 0 <= k < |es| ==> Formed(es[k], word) }

  predicate AllConstructed(es: seq<Element>) { forall k :: 0 <= k < |es| ==> es[k].tag in CONSTRUCTED }

  /**
   * The documented shape: a ContentInfo with its type and the SignedData, which has three elements, optional ones, and the
   * SET of signers; the first SignerInfo has four elements, and one that should be the signature. Where an element is only
   * skipped it may be any element, and more stands for whatever follows in each place.
   */
  datatype Shape = Shape(
    info: Element, contentType: Element, applied: Element, data: Element, heads: seq<Element>, optional: seq<Element>,
    signers: Element, signer: Element, fields: seq<Element>, signature: Element, more: seq<seq<Byte>>)

  /** Whose lengths are in order. */
  predicate Sizes(s: Shape, word: nat) {
    && Formed(s.info, word) && Formed(s.contentType, word) && Formed(s.applied, word) && Formed(s.data, word)
    && AllFormed(s.heads, word) && AllFormed(s.optional, word) && Formed(s.signers, word) && Formed(s.signer, word)
    && AllFormed(s.fields, word) && Formed(s.signature, word)
  }

  /** Whose elements stand in each other as they should, down to the first signer. */
  predicate Nested(s: Shape) {
    && |s.heads| == 3 && |s.fields| == 4 && |s.more| == 6
    && s.info.content == Enc(s.contentType) + (Enc(s.applied) + s.more[1]) && s.applied.content == Enc(s.data) + s.more[2]
    && s.data.content == EncAll(s.heads) + (EncAll(s.optional) + (Enc(s.signers) + s.more[3]))
    && s.signers.content == Enc(s.signer) + s.more[4]
    && s.signer.content == EncAll(s.fields) + (Enc(s.signature) + s.more[5])
  }

  /** Whose tags are those asked for. A SET under its other tag, 0xb1, would be taken for an optional element. */
  predicate TagsRight(s: Shape) {
    && s.info.tag in SEQUENCE && s.applied.tag in CONSTRUCTED && s.data.tag in SEQUENCE && AllConstructed(s.optional)
    && s.signers.tag == 0x31 && s.signer.tag in SEQUENCE
  }

  /** The block is of that shape. */
  predicate Parses(buf: seq<Byte>, word: nat, s: Shape) {
    Sizes(s, word) && Nested(s) && TagsRight(s) && buf == Enc(s.info) + s.more[0]
  }

  lemma {:induction false} OctetsValue(n: nat)
    ensures BigEndian(Octets(n)) == n
  {
    if n > 0 {
      var o := Octets(n);
      OctetsValue(n / 256);
      assert o[..|o| - 1] == Octets(n / 256);
    }
  }

  lemma {:induction false} OctetsFit(n: nat, k: nat)
    requires n < Pow256(k)
    ensures |Octets(n)| <= k
    decreases k
  {
    if n > 0 && k > 0 {
      OctetsFit(n / 256, k - 1);
    }
  }

  // ----- Reading what was written -----

  /** Every length in a buffer of this size can be represented. */
  predicate Representable(n: nat, word: nat) { 1 <= word <= 8 && n < Pow256(word - 1) }

  lemma SliceFront(buf: seq<Byte>, at: int, end: int, n: nat)
    requires 0 <= at && at + n <= end <= |buf|
    ensures buf[at..end][..n] == buf[at..at + n] && buf[at..end][n..] == buf[at + n..end]
  {
  }

  /** Reading a field off the front of a window. */
  lemma PeelView(buf: seq<Byte>, w: Window, field: seq<Byte>, rest: seq<Byte>)
    requires In(w, buf) && View(buf, w) == field + rest
    ensures w.at + |field| <= w.end && buf[w.at..w.at + |field|] == field && View(buf, Window(w.at + |field|, w.end)) == rest
  {
    var v, n := View(buf, w), |field|;
    assert |v| == n + |rest|;
    Unappend(field, rest);
    SliceFront(buf, w.at, w.end, n);
  }

  /** Lengths in the distinguished encoding are in order. */
  lemma DerCoded(n: nat, word: nat)
    requires Representable(n, word)
    ensures Coded(DerLength(n), n, word)
  {
    hide Octets, BigEndian, Pow256;
    if n >= 128 {
      OctetsFit(n, word - 1);
      OctetsValue(n);
      assert DerLength(n)[1..] == Octets(n);
    }
  }

  lemma LengthOf(buf: seq<Byte>, w: Window, word: nat, o: seq<Byte>, n: nat, rest: seq<Byte>)
    requires In(w, buf) && Coded(o, n, word) && View(buf, w) == o + rest
    ensures Length(buf, w, word) == Some(Sized(n, w.at + |o|)) && w.at + |o| <= w.end
  {
    hide BigEndian;
    PeelView(buf, w, o, rest);
    assert buf[w.at] == buf[w.at..w.at + |o|][0];
    assert buf[w.at + 1..w.at + |o|] == buf[w.at..w.at + |o|][1..];
  }

  /** And a length that was read is told by the octets read. */
  lemma LengthCoded(buf: seq<Byte>, w: Window, word: nat)
    requires In(w, buf) && Length(buf, w, word).Some?
    ensures var l := Length(buf, w, word).value; Coded(buf[w.at..l.at], l.length, word)
  {
    hide BigEndian;
    var l := Length(buf, w, word).value;
    assert buf[w.at..l.at][1..] == buf[w.at + 1..l.at];
  }

  /** The next element is found, if its tag is asked for, with its content and what follows it. */
  lemma ContentOf(buf: seq<Byte>, w: Window, word: nat, tags: set<Byte>, e: Element, rest: seq<Byte>)
    requires In(w, buf) && Formed(e, word) && View(buf, w) == Enc(e) + rest
    ensures var c := Content(buf, w, word, tags);
      if e.tag !in tags then c.None?
      else c.Some? && View(buf, c.value) == e.content && c.value.end <= w.end && View(buf, Window(c.value.end, w.end)) == rest
  {
    hide Coded, Length;
    Reappend([e.tag], e.size + e.content, rest);
    Reappend(e.size, e.content, rest);
    PeelView(buf, w, [e.tag], e.size + (e.content + rest));
    assert buf[w.at] == buf[w.at..w.at + 1][0];
    var w1 := Window(w.at + 1, w.end);
    PeelView(buf, w1, e.size, e.content + rest);
    var w2 := Window(w1.at + |e.size|, w.end);
    PeelView(buf, w2, e.content, rest);
    LengthOf(buf, w1, word, e.size, |e.content|, e.content + rest);
  }

  /** And what is found is an element. */
  lemma ContentParses(buf: seq<Byte>, w: Window, word: nat, tags: set<Byte>) returns (e: Element)
    requires In(w, buf) && Content(buf, w, word, tags).Some?
    ensures var c := Content(buf, w, word, tags).value;
      && Formed(e, word) && e.tag in tags && e.tag == buf[w.at] && e.content == View(buf, c)
      && View(buf, w) == Enc(e) + View(buf, Window(c.end, w.end))
  {
    hide Coded;
    var c, w1 := Content(buf, w, word, tags).value, Window(w.at + 1, w.end);
    LengthCoded(buf, w1, word);
    e := Element(buf[w.at], buf[w1.at..c.at], View(buf, c));
    hide Content, Length;
    CutElement(buf, w.at, c.at, c.end, w.end);
  }

  lemma CutElement(buf: seq<Byte>, at: int, mid: int, end: int, stop: int)
    requires 0 <= at < mid <= end <= stop <= |buf|
    ensures buf[at..stop] == Enc(Element(buf[at], buf[at + 1..mid], buf[mid..end])) + buf[end..stop]
  {
    var size, content, rest := buf[at + 1..mid], buf[mid..end], buf[end..stop];
    assert buf[at..stop] == [buf[at]] + buf[at + 1..stop];
    assert buf[at + 1..stop] == size + buf[mid..stop];
    assert buf[mid..stop] == content + rest;
    Reappend(size, content, rest);
    Reappend([buf[at]], size + content, rest);
  }

  lemma NextOf(buf: seq<Byte>, w: Window, word: nat, e: Element, rest: seq<Byte>)
    requires In(w, buf) && Formed(e, word) && View(buf, w) == Enc(e) + rest
    ensures var v := Next(buf, w, word); v.Some? && v.value.end == w.end && View(buf, v.value) == rest
  {
    ContentOf(buf, w, word, ANY, e, rest);
    hide Content, Enc, Formed;
  }

  lemma {:induction false} SkipOf(buf: seq<Byte>, w: Window, word: nat, es: seq<Element>, rest: seq<Byte>)
    requires In(w, buf) && AllFormed(es, word) && View(buf, w) == EncAll(es) + rest
    ensures var v := Skip(buf, w, word, |es|); v.Some? && v.value.end == w.end && View(buf, v.value) == rest
    decreases |es|
  {
    hide Next, Formed, Enc;
    if es == [] {
      assert [] + rest == rest;
    } else {
      Reappend(Enc(es[0]), EncAll(es[1..]), rest);
      NextOf(buf, w, word, es[0], EncAll(es[1..]) + rest);
      SkipOf(buf, Next(buf, w, word).value, word, es[1..], rest);
    }
  }

  lemma {:induction false} SkipParses(buf: seq<Byte>, w: Window, word: nat, n: nat) returns (es: seq<Element>)
    requires In(w, buf) && Skip(buf, w, word, n).Some?
    ensures var v := Skip(buf, w, word, n).value;
      |es| == n && AllFormed(es, word) && v.end == w.end && View(buf, w) == EncAll(es) + View(buf, v)
    decreases n
  {
    hide Content, Formed, Enc;
    es := [];
    if n > 0 {
      var e := ContentParses(buf, w, word, ANY);
      var v := Next(buf, w, word).value;
      var rest := SkipParses(buf, v, word, n - 1);
      es := [e] + rest;
      assert es[1..] == rest;
      Reappend(Enc(e), EncAll(rest), View(buf, Skip(buf, w, word, n).value));
    } else {
      assert [] + View(buf, w) == View(buf, w);
    }
  }

  /** The optional elements are skipped, however many there are. */
  lemma {:induction false} SkipOptional(buf: seq<Byte>, w: Window, word: nat, es: seq<Element>, e: Element, rest: seq<Byte>)
    requires In(w, buf) && AllFormed(es, word) && Formed(e, word) && View(buf, w) == EncAll(es) + (Enc(e) + rest)
    requires e.tag !in CONSTRUCTED && AllConstructed(es)
    ensures var v := SkipConstructed(buf, w, word); v.Some? && v.value.end == w.end && View(buf, v.value) == Enc(e) + rest
    decreases |es|
  {
    hide Next, Formed;
    var v := View(buf, w);
    assert v != [] && buf[w.at] == v[0];
    if es == [] {
      assert v == Enc(e) + rest;
    } else {
      Reappend(Enc(es[0]), EncAll(es[1..]), Enc(e) + rest);
      NextOf(buf, w, word, es[0], EncAll(es[1..]) + (Enc(e) + rest));
      SkipOptional(buf, Next(buf, w, word).value, word, es[1..], e, rest);
    }
  }

  lemma {:induction false} SkipConstructedParses(buf: seq<Byte>, w: Window, word: nat) returns (es: seq<Element>)
    requires In(w, buf) && SkipConstructed(buf, w, word).Some?
    ensures var v := SkipConstructed(buf, w, word).value;
      && AllFormed(es, word) && AllConstructed(es) && v.end == w.end && View(buf, w) == EncAll(es) + View(buf, v)
      && v.at < v.end && buf[v.at] !in CONSTRUCTED
    decreases w.end - w.at
  {
    hide Content, Formed, Enc;
    es := [];
    if buf[w.at] in CONSTRUCTED {
      var e := ContentParses(buf, w, word, ANY);
      var v := Next(buf, w, word).value;
      var rest := SkipConstructedParses(buf, v, word);
      es := [e] + rest;
      assert es[1..] == rest;
      Reappend(Enc(e), EncAll(rest), View(buf, SkipConstructed(buf, w, word).value));
    } else {
      assert [] + View(buf, w) == View(buf, w);
    }
  }

  // ----- Exactly the documented shape -----

  lemma FirstSignerOf(buf: seq<Byte>, w: Window, word: nat, s: Shape)
    requires In(w, buf) && Sizes(s, word) && Nested(s) && TagsRight(s) && View(buf, w) == s.data.content
    ensures var r := FirstSigner(buf, w, word); r.Some? && View(buf, r.value) == s.signer.content
  {
    hide Content, Next, Skip, SkipConstructed, Enc, EncAll, Formed, AllFormed, AllConstructed;
    SkipOf(buf, w, word, s.heads, EncAll(s.optional) + (Enc(s.signers) + s.more[3]));
    var heads := Skip(buf, w, word, 3).value;
    SkipOptional(buf, heads, word, s.optional, s.signers, s.more[3]);
    var rest := SkipConstructed(buf, heads, word).value;
    ContentOf(buf, rest, word, SET, s.signers, s.more[3]);
    var signers := Content(buf, rest, word, SET).value;
    ContentOf(buf, signers, word, SEQUENCE, s.signer, s.more[4]);
  }

  lemma SignerInfoOf(buf: seq<Byte>, word: nat, s: Shape)
    requires Parses(buf, word, s)
    ensures var r := SignerInfo(buf, word); r.Some? && View(buf, r.value) == s.signer.content
  {
    hide Content, Next, FirstSigner, Enc, EncAll, Formed, AllFormed;
    var w := Window(0, |buf|);
    assert View(buf, w) == buf;
    ContentOf(buf, w, word, SEQUENCE, s.info, s.more[0]);
    var info := Content(buf, w, word, SEQUENCE).value;
    NextOf(buf, info, word, s.contentType, Enc(s.applied) + s.more[1]);
    var typed := Next(buf, info, word).value;
    ContentOf(buf, typed, word, CONSTRUCTED, s.applied, s.more[1]);
    var applied := Content(buf, typed, word, CONSTRUCTED).value;
    ContentOf(buf, applied, word, SEQUENCE, s.data, s.more[2]);
    FirstSignerOf(buf, Content(buf, applied, word, SEQUENCE).value, word, s);
  }

  /**
   * Whatever optional elements are present and whatever follows, the octets of the fifth element of the SignerInfo are
   * returned, exactly if it is an OCTET STRING with any octets. So a SignerInfo with signed attributes, where the fifth
   * element is the signature algorithm, is refused.
   */
  lemma SignatureOf(buf: seq<Byte>, word: nat, s: Shape)
    requires Parses(buf, word, s)
    ensures Signature(buf, word) == if s.signature.tag == 0x04 && s.signature.content != [] then Some(s.signature.content) else None
  {
    hide SignerInfo, Content, Skip, Enc, EncAll, Formed, AllFormed;
    SignerInfoOf(buf, word, s);
    var w := SignerInfo(buf, word).value;
    SkipOf(buf, w, word, s.fields, Enc(s.signature) + s.more[5]);
    ContentOf(buf, Skip(buf, w, word, 4).value, word, OCTETS, s.signature, s.more[5]);
  }

  /** The part of the shape below the SignedData. */
  lemma FirstSignerParses(buf: seq<Byte>, w: Window, word: nat)
    returns (heads: seq<Element>, optional: seq<Element>, signers: Element, signer: Element, more3: seq<Byte>, more4: seq<Byte>)
    requires In(w, buf) && FirstSigner(buf, w, word).Some?
    ensures AllFormed(heads, word) && AllFormed(optional, word) && Formed(signers, word) && Formed(signer, word)
    ensures |heads| == 3 && AllConstructed(optional) && signers.tag == 0x31 && signer.tag in SEQUENCE
    ensures View(buf, w) == EncAll(heads) + (EncAll(optional) + (Enc(signers) + more3))
    ensures signers.content == Enc(signer) + more4 && signer.content == View(buf, FirstSigner(buf, w, word).value)
  {
    hide Content, Skip, SkipConstructed, Enc, EncAll, Formed, AllFormed, AllConstructed;
    heads := SkipParses(buf, w, word, 3);
    var w1 := Skip(buf, w, word, 3).value;
    optional := SkipConstructedParses(buf, w1, word);
    var w2 := SkipConstructed(buf, w1, word).value;
    signers := ContentParses(buf, w2, word, SET);
    var c := Content(buf, w2, word, SET).value;
    signer := ContentParses(buf, c, word, SEQUENCE);
    more3, more4 := View(buf, Window(c.end, w2.end)), View(buf, Window(Content(buf, c, word, SEQUENCE).value.end, c.end));
  }

  /** The part above it. */
  lemma OuterParses(buf: seq<Byte>, word: nat)
    returns (info: Element, contentType: Element, applied: Element, data: Element, w: Window, more: seq<seq<Byte>>)
    requires SignerInfo(buf, word).Some?
    ensures In(w, buf) && FirstSigner(buf, w, word) == SignerInfo(buf, word) && data.content == View(buf, w)
    ensures Formed(info, word) && Formed(contentType, word) && Formed(applied, word) && Formed(data, word) && |more| == 3
    ensures info.tag in SEQUENCE && applied.tag in CONSTRUCTED && data.tag in SEQUENCE && buf == Enc(info) + more[0]
    ensures info.content == Enc(contentType) + (Enc(applied) + more[1]) && applied.content == Enc(data) + more[2]
  {
    hide Content, FirstSigner, Enc, Formed;
    var all := Window(0, |buf|);
    assert View(buf, all) == buf;
    info := ContentParses(buf, all, word, SEQUENCE);
    var c0 := Content(buf, all, word, SEQUENCE).value;
    contentType := ContentParses(buf, c0, word, ANY);
    var typed := Next(buf, c0, word).value;
    applied := ContentParses(buf, typed, word, CONSTRUCTED);
    var c1 := Content(buf, typed, word, CONSTRUCTED).value;
    data := ContentParses(buf, c1, word, SEQUENCE);
    w := Content(buf, c1, word, SEQUENCE).value;
    more := [View(buf, Window(c0.end, all.end)), View(buf, Window(c1.end, typed.end)), View(buf, Window(w.end, c1.end))];
  }

  /** Only blocks of that shape are accepted. */
  lemma SignatureParses(buf: seq<Byte>, word: nat) returns (s: Shape)
    requires Signature(buf, word).Some?
    ensures Parses(buf, word, s) && s.signature.tag == 0x04 && Signature(buf, word) == Some(s.signature.content) && s.signature.content != []
  {
    hide SignerInfo, Content, Skip, FirstSigner, Enc, EncAll, Formed, AllFormed, AllConstructed;
    var info, contentType, applied, data, w, more := OuterParses(buf, word);
    var heads, optional, signers, signer, more3, more4 := FirstSignerParses(buf, w, word);
    var c := SignerInfo(buf, word).value;
    var fields := SkipParses(buf, c, word, 4);
    var at := Skip(buf, c, word, 4).value;
    var signature := ContentParses(buf, at, word, OCTETS);
    var more5 := View(buf, Window(Content(buf, at, word, OCTETS).value.end, at.end));
    s := Shape(info, contentType, applied, data, heads, optional, signers, signer, fields, signature, more + [more3, more4, more5]);
  }

  /** A signature is returned exactly if the block is of the documented shape, with that signature. */
  lemma SignatureExactly(buf: seq<Byte>, word: nat, sig: seq<Byte>)
    ensures Signature(buf, word) == Some(sig) <==>
      sig != [] && exists s: Shape :: Parses(buf, word, s) && s.signature.tag == 0x04 && s.signature.content == sig
  {
    hide Signature, Parses;
    if Signature(buf, word) == Some(sig) {
      var s := SignatureParses(buf, word);
    }
    if s: Shape :| Parses(buf, word, s) && s.signature.tag == 0x04 && s.signature.content == sig {
      SignatureOf(buf, word, s);
      assert sig == [] ==> Signature(buf, word).None?;
    }
  }

  // ----- Contexts -----

  /** asn1_context: a pointer into the buffer and what is left to read there. */
  class Context {
    const buf: seq<Byte>
    const word: nat
    var p: nat
    var length: nat

    ghost predicate Valid()
      reads this
    {
      p + length <= |buf|
    }

    function Win(): Window
      reads this
    {
      Window(p, p + length)
    }

    constructor (buf: seq<Byte>, word: nat, p: nat, length: nat)
      requires p + length <= |buf|
      ensures Valid() && this.buf == buf && this.word == word && Win() == Window(p, p + length)
    {
      this.buf, this.word, this.p, this.length := buf, word, p, length;
    }

    /** peek_byte, with -1 at the end. */
    method PeekByte() returns (b: int)
      requires Valid()
      ensures b == if length == 0 then -1 else buf[p]
    {
      b := if length == 0 then -1 else buf[p];
    }

    /** get_byte. */
    method GetByte() returns (b: int)
      requires Valid()
      modifies this
      ensures Valid() && b == (if old(length) == 0 then -1 else buf[old(p)])
      ensures Win() == Window(if b == -1 then old(p) else old(p) + 1, old(p + length))
    {
      if length == 0 {
        return -1;
      }
      b := buf[p];
      p, length := p + 1, length - 1;
    }

    /** skip_bytes. */
    method SkipBytes(n: nat) returns (ok: bool)
      requires Valid()
      modifies this
      ensures Valid() && ok == (n <= old(length)) && Win() == Window(if ok then old(p) + n else old(p), old(p + length))
    {
      ok := n <= length;
      if ok {
        p, length := p + n, length - n;
      }
    }

    /** decode_length. */
    method DecodeLength() returns (r: Option<nat>)
      requires Valid()
      modifies this
      ensures Valid() && Inside(Win(), old(Win())) && Win().end == old(Win()).end
      ensures var l := Length(buf, old(Win()), word);
        if l.None? then r.None? else r == Some(l.value.length) && Win().at == l.value.at
    {
      hide BigEndian;
      var b := GetByte();
      if b == -1 {
        return None;
      }
      if b < 128 {
        return Some(b);
      }
      var k: nat := b - 128;
      if k >= word {
        return None;
      }
      r := DecodeOctets(k);
    }

    /** The loop of decode_length. */
    method DecodeOctets(k: nat) returns (r: Option<nat>)
      requires Valid()
      modifies this
      ensures Valid() && Inside(Win(), old(Win())) && Win().end == old(Win()).end
      ensures if k > old(length) then r.None? else r == Some(BigEndian(buf[old(p)..old(p) + k])) && p == old(p) + k
    {
      var n: nat, i := 0, 0;
      while i < k
        invariant Valid() && 0 <= i <= k && i <= old(length) && Win() == Window(old(p) + i, old(p + length))
        invariant n == BigEndian(buf[old(p)..old(p) + i])
      {
        var b := GetByte();
        if b == -1 {
          return None;
        }
        BigEndianMore(buf, old(p), i);
        n := 256 * n + b;
        i := i + 1;
      }
      r := Some(n);
    }

    /** asn1_sequence_get, asn1_set_get, asn1_constructed_get and asn1_octet_string_get up to the content. */
    method Enter(tags: set<Byte>) returns (child: Context?)
      requires Valid()
      modifies this
      ensures Valid() && Inside(Win(), old(Win())) && Win().end == old(Win()).end
      ensures var c := Content(buf, old(Win()), word, tags);
        if c.None? then child == null
        else child != null && fresh(child) && child.Valid() && child.buf == buf && child.word == word && child.Win() == c.value
    {
      child := null;
      var b := GetByte();
      if b == -1 || b !in tags {
        return;
      }
      var l := DecodeLength();
      if l.None? || l.value > length {
        return;
      }
      child := new Context(buf, word, p, l.value);
    }

    /** asn1_sequence_next. */
    method SequenceNext() returns (ok: bool)
      requires Valid()
      modifies this
      ensures Valid() && Inside(Win(), old(Win())) && Win().end == old(Win()).end
      ensures var v := Next(buf, old(Win()), word); ok == v.Some? && (ok ==> Win() == v.value)
    {
      var b := GetByte();
      if b == -1 {
        return false;
      }
      var l := DecodeLength();
      if l.None? {
        return false;
      }
      ok := SkipBytes(l.value);
    }

    method SkipElements(n: nat) returns (ok: bool)
      requires Valid()
      modifies this
      ensures Valid() && Inside(Win(), old(Win())) && Win().end == old(Win()).end
      ensures var v := Skip(buf, old(Win()), word, n); ok == v.Some? && (ok ==> Win() == v.value)
    {
      hide Next;
      ok := true;
      var i := 0;
      while i < n && ok
        invariant Valid() && 0 <= i <= n && Inside(Win(), old(Win())) && Win().end == old(Win()).end
        invariant if ok then Skip(buf, old(Win()), word, n) == Skip(buf, Win(), word, n - i) else Skip(buf, old(Win()), word, n).None?
      {
        ok := SequenceNext();
        i := i + 1;
      }
    }

    /** asn1_constructed_skip_all. */
    method ConstructedSkipAll() returns (ok: bool)
      requires Valid()
      modifies this
      ensures Valid() && Inside(Win(), old(Win())) && Win().end == old(Win()).end
      ensures var v := SkipConstructed(buf, old(Win()), word); ok == v.Some? && (ok ==> Win() == v.value)
    {
      hide Next;
      var b := PeekByte();
      while b != -1 && b in CONSTRUCTED
        invariant Valid() && Inside(Win(), old(Win())) && Win().end == old(Win()).end
        invariant b == if length == 0 then -1 else buf[p]
        invariant SkipConstructed(buf, old(Win()), word) == SkipConstructed(buf, Win(), word)
        decreases length
      {
        ghost var w := Win();
        ok := SequenceNext();
        if !ok {
          return;
        }
        b := PeekByte();
      }
      ok := b != -1;
    }
  }

  lemma BigEndianMore(buf: seq<Byte>, at: nat, i: nat)
    requires at + i < |buf|
    ensures BigEndian(buf[at..at + i + 1]) == 256 * BigEndian(buf[at..at + i]) + buf[at + i]
  {
    var o := buf[at..at + i + 1];
    assert o[..|o| - 1] == buf[at..at + i];
  }

  /** read_pkcs7 as far as the SignerInfo. */
  method FindSigner(der: seq<Byte>, word: nat) returns (signer: Context?)
    ensures var w := SignerInfo(der, word);
      if w.None? then signer == null
      else signer != null && fresh(signer) && signer.Valid() && signer.buf == der && signer.word == word && signer.Win() == w.value
  {
    hide Content, Next, Skip, SkipConstructed, FirstSigner;
    signer := null;
    var ctx := new Context(der, word, 0, |der|);
    var info := ctx.Enter(SEQUENCE);
    if info == null { return; }
    var ok := info.SequenceNext();
    if !ok { return; }
    var app := info.Enter(CONSTRUCTED);
    if app == null { return; }
    var data := app.Enter(SEQUENCE);
    if data == null { return; }
    signer := FindFirstSigner(data);
  }

  method FindFirstSigner(data: Context) returns (signer: Context?)
    requires data.Valid()
    modifies data
    ensures var w := FirstSigner(data.buf, old(data.Win()), data.word);
      if w.None? then signer == null
      else signer != null && fresh(signer) && signer.Valid() && signer.buf == data.buf && signer.word == data.word && signer.Win() == w.value
  {
    hide Content, Next, Skip, SkipConstructed;
    signer := null;
    var ok := data.SkipElements(3);
    if !ok { return; }
    ok := data.ConstructedSkipAll();
    if !ok { return; }
    var signers := data.Enter(SET);
    if signers == null { return; }
    signer := signers.Enter(SEQUENCE);
  }

  /** read_pkcs7. */
  method ReadPkcs7(der: seq<Byte>, word: nat) returns (sig: Option<seq<Byte>>)
    ensures sig == Signature(der, word)
  {
    hide Content, Next, Skip, SignerInfo;
    sig := None;
    var signer := FindSigner(der, word);
    if signer == null { return; }
    var ok := signer.SkipElements(4);
    if !ok { return; }
    var octets := signer.Enter(OCTETS);
    if octets == null || octets.length == 0 { return; }
    sig := Some(octets.buf[octets.p..octets.p + octets.length]);
  }

  // ----- Lengths never wrap -----

  lemma {:induction false} BigEndianBound(o: seq<Byte>)
    ensures BigEndian(o) < Pow256(|o|)
  {
    if o != [] {
      BigEndianBound(o[..|o| - 1]);
    }
  }

  lemma {:induction false} Pow256Grows(a: nat, b: nat)
    requires a <= b
    ensures Pow256(a) <= Pow256(b)
    decreases b - a
  {
    if a < b {
      Pow256Grows(a, b - 1);
    }
  }

  /** A decoded length is always below what size_t holds, so the shifting in decode_length loses nothing. */
  lemma LengthHolds(buf: seq<Byte>, w: Window, word: nat)
    requires In(w, buf) && word >= 1
    ensures var l := Length(buf, w, word); l.Some? ==> l.value.length < Pow256(word)
  {
    var l := Length(buf, w, word);
    if l.Some? {
      Pow256Grows(1, word);
      var k: int := (buf[w.at] as int) - 128;
      if k >= 0 {
        BigEndianBound(buf[w.at + 1..w.at + 1 + k]);
        Pow256Grows(k, word);
      } else {
        assert Pow256(1) == 256;
      }
    }
  }
}
