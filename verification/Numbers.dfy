/** The integer encodings of the patch formats: applypatch/utils.c, and offtout/offtin of bsdiff.c and bspatch.c. */
module Numbers {
  import opened Bytes

  /** base 256 to the n. */
  function Pow(n: nat): (r: nat)
    ensures r >= 1
  {
    if n == 0 then 1 else 256 * Pow(n - 1)
  }

  /** The n low bytes of y, least significant first. */
  function Little(y: nat, n: nat): (r: seq<Byte>)
    ensures |r| == n
    decreases n
  {
    if n == 0 then [] else [y % 256] + Little(y / 256, n - 1)
  }

  function Value(b: seq<Byte>): (r: nat)
    ensures r < Pow(|b|)
  {
    if b == [] then 0 else b[0] + 256 * Value(b[1..])
  }

  lemma {:induction false} LittleValue(y: nat, n: nat)
    requires y < Pow(n)
    ensures Value(Little(y, n)) == y
  {
    if n > 0 {
      LittleValue(y / 256, n - 1);
      assert Little(y, n)[1..] == Little(y / 256, n - 1);
    }
  }

  lemma {:induction false} ValueLittle(b: seq<Byte>)
    ensures Little(Value(b), |b|) == b
  {
    if b != [] {
      ValueLittle(b[1..]);
    }
  }

  /** Byte i is worth 256 to the i. */
  lemma {:induction false} LittleAt(y: nat, n: nat, i: nat)
    requires i < n
    ensures Little(y, n)[i] == y / Pow(i) % 256
    decreases n
  {
    if i > 0 {
      LittleAt(y / 256, n - 1, i - 1);
      DivideTwice(y, Pow(i - 1));
    }
  }

  lemma DivideTwice(y: nat, p: nat)
    requires p > 0
    ensures y / 256 / p == y / (256 * p)
  {
    var a := y / 256;
    var q, r := a / p, a % p;
    assert a == p * q + r && y == 256 * a + y % 256;
    assert y == 256 * p * q + (256 * r + y % 256);
    Quotient(y, 256 * p, q, 256 * r + y % 256);
  }

  lemma Quotient(y: int, d: int, q: int, r: int)
    requires d > 0 && 0 <= r < d && y == d * q + r
    ensures y / d == q
  {
    var k := y / d - q;
    assert y == d * (y / d) + y % d;
    assert d * k == r - y % d;
    Multiples(d, k);
  }

  lemma Multiples(d: int, k: int)
    requires d > 0
    ensures (k >= 1 ==> d * k >= d) && (k <= -1 ==> d * k <= -d)
  {
  }

  lemma Powers()
    ensures Pow(4) == 0x1_0000_0000 && Pow(8) == 0x1_0000_0000_0000_0000
  {
    assert Pow(2) == 65536;
    assert Pow(4) == 65536 * 65536;
    assert Pow(6) == 65536 * Pow(4);
    assert Pow(8) == 65536 * Pow(6);
  }

  predicate Int32(v: int) { -0x8000_0000 <= v < 0x8000_0000 }
  predicate Int64(v: int) { -0x8000_0000_0000_0000 <= v < 0x8000_0000_0000_0000 }

  /** Write4: the two's complement of a 32-bit int. */
  function Write4(v: int): (r: seq<Byte>)
    ensures |r| == 4
  {
    Little(v % 0x1_0000_0000, 4)
  }

  /** Write8: the two's complement of a 64-bit int. */
  function Write8(v: int): (r: seq<Byte>)
    ensures |r| == 8
  {
    Little(v % 0x1_0000_0000_0000_0000, 8)
  }

  function Read4(b: seq<Byte>): (r: int)
    requires |b| == 4
    ensures Int32(r)
  {
    Powers();
    var u := Value(b);
    if u < 0x8000_0000 then u else u - 0x1_0000_0000
  }

  function Read8(b: seq<Byte>): (r: int)
    requires |b| == 8
    ensures Int64(r)
  {
    Powers();
    var u := Value(b);
    if u < 0x8000_0000_0000_0000 then u else u - 0x1_0000_0000_0000_0000
  }

  /** Negative values, such as the window bits -15 of a raw deflate stream, survive too. */
  lemma WriteRead4(v: int)
    requires Int32(v)
    ensures Read4(Write4(v)) == v
  {
    Powers();
    LittleValue(v % 0x1_0000_0000, 4);
  }

  lemma WriteRead8(v: int)
    requires Int64(v)
    ensures Read8(Write8(v)) == v
  {
    Powers();
    LittleValue(v % 0x1_0000_0000_0000_0000, 8);
  }

  /** And what is read is what those bytes were written for. */
  lemma ReadWrite4(b: seq<Byte>)
    requires |b| == 4
    ensures Write4(Read4(b)) == b
  {
    Powers();
    ValueLittle(b);
    hide Little, Value, Pow;
  }

  lemma ReadWrite8(b: seq<Byte>)
    requires |b| == 8
    ensures Write8(Read8(b)) == b
  {
    Powers();
    ValueLittle(b);
    hide Little, Value, Pow;
  }

  /** The numbers offtout can write: sign and magnitude on 64 bits. */
  predicate Writable(x: int) { -0x8000_0000_0000_0000 < x < 0x8000_0000_0000_0000 }

  function Abs(x: int): nat { if x < 0 then -x else x }

  /** offtout: the magnitude, least significant byte first, with the sign in the top bit of the last byte. */
  function OffOut(x: int): (r: seq<Byte>)
    requires Writable(x)
    ensures |r| == 8
  {
    var b := Little(Abs(x), 8);
    if x < 0 then LastByteSmall(Abs(x)); b[7 := b[7] + 128] else b
  }

  /** The bytes of offtout. */
  lemma OffBytes(x: int, i: nat)
    requires Writable(x) && i < 8
    ensures OffOut(x)[i] == Abs(x) / Pow(i) % 256 + if i == 7 && x < 0 then 128 else 0
  {
    hide Little, Pow;
    LittleAt(Abs(x), 8, i);
  }

  /** The bytes of Write4 and Write8: two's complement, least significant first. */
  lemma WriteBytes(v: int, i: nat)
    ensures i < 4 ==> Write4(v)[i] == v % 0x1_0000_0000 / Pow(i) % 256
    ensures i < 8 ==> Write8(v)[i] == v % 0x1_0000_0000_0000_0000 / Pow(i) % 256
  {
    hide Little, Pow;
    if i < 4 {
      LittleAt(v % 0x1_0000_0000, 4, i);
    }
    if i < 8 {
      LittleAt(v % 0x1_0000_0000_0000_0000, 8, i);
    }
  }

  /** offtin */
  function OffIn(b: seq<Byte>): (r: int)
    requires |b| == 8
  {
    var y := Value(b[7 := b[7] % 128]);
    if b[7] >= 128 then -(y as int) else y
  }

  lemma ValueOfLast(b: seq<Byte>)
    requires |b| == 8
    ensures Value(b) == Value(b[..7]) + b[7] * Pow(7)
  {
    ValueSnoc(b[..7], b[7]);
    assert b[..7] + [b[7]] == b;
  }

  lemma MulShift(c: int, p: int)
    ensures 256 * (c * p) == c * (256 * p)
  {
  }

  lemma {:induction false} ValueSnoc(b: seq<Byte>, c: Byte)
    ensures Value(b + [c]) == Value(b) + c * Pow(|b|)
  {
    if b == [] {
      assert (b + [c])[1..] == [];
    } else {
      ValueSnoc(b[1..], c);
      assert (b + [c])[1..] == b[1..] + [c] && (b + [c])[0] == b[0];
      MulShift(c, Pow(|b| - 1));
    }
  }

  /** With 63 bits of magnitude the sign bit of the last byte is free. */
  lemma LastByteSmall(y: nat)
    requires y < 0x8000_0000_0000_0000
    ensures Little(y, 8)[7] < 128
  {
    Powers();
    assert Pow(8) == 256 * Pow(7);
    LittleValue(y, 8);
    ValueOfLast(Little(y, 8));
  }

  lemma OffRoundTrip(x: int)
    requires Writable(x)
    ensures OffIn(OffOut(x)) == x
  {
    Powers();
    var b := Little(Abs(x), 8);
    LittleValue(Abs(x), 8);
    LastByteSmall(Abs(x));
    hide Little, Value, Pow;
    var o := OffOut(x);
    assert o[7 := o[7] % 128] == b;
  }
}
