/** Digests written as hexadecimal digits: ParseSha1 and FindMatchingPatch of applypatch/applypatch.c. */
module Sha1Text {
  import opened Bytes

  const SIZE := 20

  function Digit(c: char): (r: Option<int>)
    ensures r.Some? ==> 0 <= r.value < 16
  {
    if '0' <= c <= '9' then Some(c as int - '0' as int)
    else if 'a' <= c <= 'f' then Some(c as int - 'a' as int + 10)
    else if 'A' <= c <= 'F' then Some(c as int - 'A' as int + 10)
    else None
  }

  function Char(d: int): (c: char)
    requires 0 <= d < 16
    ensures Digit(c) == Some(d)
  {
    if d < 10 then ('0' as int + d) as char else ('a' as int + d - 10) as char
  }

  /** A digest in lower-case digits, two to a byte. */
  function Hex(digest: seq<Byte>): string {
    if digest == [] then [] else [Char(digest[0] / 16), Char(digest[0] % 16)] + Hex(digest[1..])
  }

  predicate AllDigits(s: string) { forall i :: 0 <= i < |s| ==> Digit(s[i]).Some? }

  /** The bytes that pairs of digits stand for. */
  function Unhex(s: string): (r: seq<Byte>)
    requires AllDigits(s) && |s| % 2 == 0
    ensures |r| == |s| / 2
  {
    if s == [] then []
    else
      assert forall i :: 0 <= i < |s[2..]| ==> s[2..][i] == s[i + 2];
      [16 * Digit(s[0]).value + Digit(s[1]).value] + Unhex(s[2..])
  }

  /** The digest a string stands for: exactly forty digits. */
  function Parse(s: string): (r: Option<seq<Byte>>)
    ensures r.Some? ==> |r.value| == SIZE
  {
    if |s| == 2 * SIZE && AllDigits(s) then Some(Unhex(s)) else None
  }

  lemma {:induction false} UnhexAppend(s: string, a: char, b: char)
    requires AllDigits(s) && |s| % 2 == 0 && Digit(a).Some? && Digit(b).Some?
    ensures AllDigits(s + [a, b]) && Unhex(s + [a, b]) == Unhex(s) + [16 * Digit(a).value + Digit(b).value]
    decreases |s|
  {
    var t := s + [a, b];
    hide Digit;
    if s == [] {
      assert t == [a, b] && t[2..] == [];
    } else {
      assert t[2..] == s[2..] + [a, b];
      assert forall i :: 0 <= i < |s[2..]| ==> s[2..][i] == s[i + 2];
      UnhexAppend(s[2..], a, b);
    }
  }

  /** ParseSha1, over a string that ends where its characters do. */
  method ParseSha1(s: string) returns (r: Option<seq<Byte>>)
    ensures r == Parse(s)
  {
    var digest: seq<Byte>, high := [], 0;
    var i := 0;
    hide Digit;
    while i < 2 * SIZE
      invariant 0 <= i <= 2 * SIZE && i <= |s| && AllDigits(s[..i])
      invariant if i % 2 == 0 then digest == Unhex(s[..i]) else digest == Unhex(s[..i - 1]) && Digit(s[i - 1]) == Some(high)
    {
      if i == |s| || Digit(s[i]).None? {
        return None;
      }
      var d := Digit(s[i]).value;
      DigitRange(s[i]);
      assert s[..i + 1] == s[..i] + [s[i]];
      if i % 2 == 0 {
        high := d;
      } else {
        assert s[..i + 1] == s[..i - 1] + [s[i - 1], s[i]];
        assert AllDigits(s[..i - 1]) by { assert forall j :: 0 <= j < i - 1 ==> s[..i - 1][j] == s[..i][j]; }
        DigitRange(s[i - 1]);
        UnhexAppend(s[..i - 1], s[i - 1], s[i]);
        digest := digest + [16 * high + d];
      }
      i := i + 1;
    }
    if |s| != i {
      return None;
    }
    assert s[..i] == s;
    r := Some(digest);
  }

  lemma DigitRange(c: char)
    ensures Digit(c).Some? ==> 0 <= Digit(c).value < 16
  {
  }

  /** Digits read back as the digest they were written from. */
  lemma {:induction false} HexUnhex(digest: seq<Byte>)
    ensures |Hex(digest)| == 2 * |digest| && AllDigits(Hex(digest)) && Unhex(Hex(digest)) == digest
  {
    if digest != [] {
      HexUnhex(digest[1..]);
      var h := Hex(digest);
      assert h[2..] == Hex(digest[1..]);
      hide Char, Digit;
      assert forall i :: 2 <= i < |h| ==> h[i] == h[2..][i - 2];
      assert h[0] == Char(digest[0] / 16) && h[1] == Char(digest[0] % 16);
    }
  }

  function LowerChar(c: char): char { if 'A' <= c <= 'F' then (c as int + 32) as char else c }

  function Lower(s: string): string { if s == [] then [] else [LowerChar(s[0])] + Lower(s[1..]) }

  /** And a string that parses is, but for its case, what the digest is written as. */
  lemma {:induction false} UnhexHex(s: string)
    requires AllDigits(s) && |s| % 2 == 0
    ensures Hex(Unhex(s)) == Lower(s)
    decreases |s|
  {
    hide Digit, Char, LowerChar;
    if s != [] {
      assert forall i :: 0 <= i < |s[2..]| ==> s[2..][i] == s[i + 2];
      UnhexHex(s[2..]);
      LowerDigit(s[0]);
      LowerDigit(s[1]);
      DigitRange(s[0]);
      DigitRange(s[1]);
      assert s[1..][1..] == s[2..];
      assert Lower(s) == [LowerChar(s[0])] + ([LowerChar(s[1])] + Lower(s[2..]));
    }
  }

  lemma LowerDigit(c: char)
    requires Digit(c).Some?
    ensures Char(Digit(c).value) == LowerChar(c)
  {
  }

  /** Two strings stand for the same digest exactly if they differ in case only. */
  lemma SameDigest(s: string, t: string)
    requires Parse(s).Some? && Parse(t).Some?
    ensures Parse(s) == Parse(t) <==> Lower(s) == Lower(t)
  {
    UnhexHex(s);
    UnhexHex(t);
    HexUnhex(Parse(s).value);
    HexUnhex(Parse(t).value);
  }

  /** A digest followed by a colon and anything at all is refused, though the description of ParseSha1 admits it. */
  lemma SuffixRefused(digest: seq<Byte>, rest: string)
    requires |digest| == SIZE
    ensures Parse(Hex(digest) + [':'] + rest).None?
  {
    HexUnhex(digest);
  }

  /** FindMatchingPatch: the first string that stands for the digest, or -1. */
  method FindMatchingPatch(sha1: seq<Byte>, patches: seq<string>) returns (k: int)
    ensures -1 <= k < |patches|
    ensures k >= 0 ==> Parse(patches[k]) == Some(sha1) && forall j :: 0 <= j < k ==> Parse(patches[j]) != Some(sha1)
    ensures k == -1 ==> forall j :: 0 <= j < |patches| ==> Parse(patches[j]) != Some(sha1)
  {
    hide Parse;
    k := 0;
    while k < |patches|
      invariant 0 <= k <= |patches| && forall j :: 0 <= j < k ==> Parse(patches[j]) != Some(sha1)
    {
      var d := ParseSha1(patches[k]);
      if d == Some(sha1) {
        return;
      }
      k := k + 1;
    }
    k := -1;
  }
}
