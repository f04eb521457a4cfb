/** The bit tricks of minzip/Hash.c: rounding up to a power of two, and masking as a remainder. */
module Bits {

  predicate IsPow2(n: int)
    decreases n
  {
    n == 1 || (n > 1 && n % 2 == 0 && IsPow2(n / 2))
  }

  /** x & y */
  function And(x: nat, y: nat): nat
    decreases y
  {
    if x == 0 || y == 0 then 0 else (x % 2) * (y % 2) + 2 * And(x / 2, y / 2)
  }

  lemma MulAtLeast(k: int, d: int)
    requires k >= 1 && d > 0
    ensures k * d >= d
  {
    assert k * d == (k - 1) * d + d;
  }

  lemma RemainderIs(x: int, d: int, q: int, r: int)
    requires d > 0 && x == q * d + r && 0 <= r < d
    ensures x % d == r
  {
    var q' := x / d;
    var r' := x - d * q';
    assert x % d == r';
    assert (q - q') * d == q * d - d * q' && (q' - q) * d == d * q' - q * d;
    if q > q' {
      MulAtLeast(q - q', d);
    } else if q < q' {
      MulAtLeast(q' - q, d);
    }
  }

  lemma HalfRemainder(x: nat, m: nat)
    requires m > 0
    ensures x % (2 * m) == 2 * ((x / 2) % m) + x % 2
  {
    var q, r := (x / 2) / m, (x / 2) % m;
    assert x / 2 == q * m + r;
    assert q * (2 * m) == 2 * (q * m);
    RemainderIs(x, 2 * m, q, 2 * r + x % 2);
  }

  /** Masking with a power of two less one is the remainder. */
  lemma {:induction false} AndMask(x: nat, n: int)
    requires IsPow2(n)
    ensures And(x, n - 1) == x % n
    decreases n
  {
    if n > 1 {
      AndMask(x / 2, n / 2);
      HalfRemainder(x, n / 2);
      assert (n - 1) % 2 == 1 && (n - 1) / 2 == n / 2 - 1;
      if x == 0 {
        assert 0 % n == 0;
      }
    }
  }

  /** The k low bits of n, least significant first. */
  function ToBits(n: nat, k: nat): (r: seq<bool>)
    ensures |r| == k
    decreases k
  {
    if k == 0 then [] else [n % 2 == 1] + ToBits(n / 2, k - 1)
  }

  function FromBits(b: seq<bool>): nat {
    if b == [] then 0 else (if b[0] then 1 else 0) + 2 * FromBits(b[1..])
  }

  function Power(k: nat): nat {
    if k == 0 then 1 else 2 * Power(k - 1)
  }

  lemma {:induction false} BitsRoundTrip(n: nat, k: nat)
    requires n < Power(k)
    ensures FromBits(ToBits(n, k)) == n
    decreases k
  {
    if k > 0 {
      BitsRoundTrip(n / 2, k - 1);
      assert ToBits(n, k)[1..] == ToBits(n / 2, k - 1);
    }
  }

  /** v | v >> m */
  function OrShift(b: seq<bool>, m: nat): (r: seq<bool>)
    ensures |r| == |b|
  {
    seq(|b|, i requires 0 <= i < |b| => b[i] || (i + m < |b| && b[i + m]))
  }

  /** Bit i of b tells whether any of the m bits of a from i up is set. */
  ghost predicate Smeared(a: seq<bool>, b: seq<bool>, m: nat) {
    |a| == |b| && forall i :: 0 <= i < |a| ==> (b[i] <==> exists j :: i <= j < i + m && j < |a| && a[j])
  }

  lemma SmearDoubles(a: seq<bool>, b: seq<bool>, m: nat)
    requires Smeared(a, b, m)
    ensures Smeared(a, OrShift(b, m), 2 * m)
  {
    var c := OrShift(b, m);
    forall i | 0 <= i < |a| ensures c[i] <==> exists j :: i <= j < i + 2 * m && j < |a| && a[j] {
      if j :| i <= j < i + 2 * m && j < |a| && a[j] {
        if j < i + m {
          assert b[i];
        } else {
          assert b[i + m];
        }
      }
    }
  }

  /** Setting every bit below the top one gives a power of two less one, less than twice the number. */
  lemma {:induction false} SmearedValue(a: seq<bool>, b: seq<bool>, m: nat)
    requires Smeared(a, b, m) && m >= |a|
    ensures IsPow2(FromBits(b) + 1) && FromBits(a) <= FromBits(b)
    ensures FromBits(b) == 0 || FromBits(b) < 2 * FromBits(a)
    ensures FromBits(b) > 0 <==> exists j :: 0 <= j < |a| && a[j]
  {
    if a != [] {
      var t, u := a[1..], b[1..];
      forall i | 0 <= i < |t| ensures u[i] <==> exists j :: i <= j < i + m && j < |t| && t[j] {
        if u[i] {
          var j :| i + 1 <= j < i + 1 + m && j < |a| && a[j];
          assert t[j - 1];
        }
        if j :| i <= j < i + m && j < |t| && t[j] {
          assert a[j + 1];
        }
      }
      SmearedValue(t, u, m);
      assert forall k :: 0 < k < |a| && a[k] ==> t[k - 1];
      if j :| 0 <= j < |t| && t[j] {
        assert a[j + 1];
        assert b[0];
        assert (FromBits(b) + 1) / 2 == FromBits(u) + 1;
      } else if b[0] {
        var j :| 0 <= j < m && j < |a| && a[j];
        assert j == 0;
        assert IsPow2(1) && IsPow2(2);
      } else {
        assert !a[0];
      }
    }
  }

  /** roundUpPower2, on the 32 bits of val - 1. */
  function RoundUpPower2(val: int): int
    requires 0 < val
  {
    var v := ToBits(val - 1, 32);
    FromBits(OrShift(OrShift(OrShift(OrShift(OrShift(v, 1), 2), 4), 8), 16)) + 1
  }

  /** The next power of two: no smaller than val, and less than its double. */
  lemma RoundUpIsNext(val: int)
    requires 0 < val <= 0x8000_0000
    ensures IsPow2(RoundUpPower2(val)) && val <= RoundUpPower2(val) < 2 * val
  {
    hide *;
    var v := ToBits(val - 1, 32);
    Power32();
    BitsRoundTrip(val - 1, 32);
    SmearedFully(v);
    SmearedValue(v, OrShift(OrShift(OrShift(OrShift(OrShift(v, 1), 2), 4), 8), 16), 32);
    RoundUpDef(val);
  }

  lemma Power32()
    ensures Power(32) == 0x1_0000_0000
  {
    assert Power(4) == 16;
    assert Power(8) == 256;
    assert Power(12) == 4096;
    assert Power(16) == 65536;
    assert Power(20) == 1048576;
    assert Power(24) == 16777216;
    assert Power(28) == 268435456;
  }

  lemma SmearedFully(v: seq<bool>)
    ensures Smeared(v, OrShift(OrShift(OrShift(OrShift(OrShift(v, 1), 2), 4), 8), 16), 32)
  {
    Smeared1(v);
    hide *;
    SmearDoubles(v, v, 1);
    SmearDoubles(v, OrShift(v, 1), 2);
    SmearDoubles(v, OrShift(OrShift(v, 1), 2), 4);
    SmearDoubles(v, OrShift(OrShift(OrShift(v, 1), 2), 4), 8);
    SmearDoubles(v, OrShift(OrShift(OrShift(OrShift(v, 1), 2), 4), 8), 16);
  }

  lemma RoundUpDef(val: int)
    requires 0 < val
    ensures var v := ToBits(val - 1, 32);
            RoundUpPower2(val) == FromBits(OrShift(OrShift(OrShift(OrShift(OrShift(v, 1), 2), 4), 8), 16)) + 1
  {
    hide ToBits, FromBits, OrShift;
  }

  lemma Smeared1(v: seq<bool>)
    ensures Smeared(v, v, 1)
  {
  }
}
