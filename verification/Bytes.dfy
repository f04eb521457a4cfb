/** Bytes, and the small vocabulary shared by every module. */
module Bytes {
  type Byte = x: int | 0 <= x < 256

  /** Unsigned 8-bit addition and subtraction. */
  function Plus(a: int, b: int): Byte { (a + b) % 256 }
  function Minus(a: int, b: int): Byte { (a - b) % 256 }

  datatype Option<+T> = None | Some(value: T)

  /** A sequence with two of its elements exchanged. */
  function Swap<T>(s: seq<T>, a: int, b: int): seq<T>
    requires 0 <= a < |s| && 0 <= b < |s|
  {
    s[a := s[b]][b := s[a]]
  }

  /** Reading a field off the front of what is left of a blob. */
  lemma Peel<T>(blob: seq<T>, at: int, field: seq<T>, rest: seq<T>)
    requires 0 <= at <= |blob| && blob[at..] == field + rest
    ensures at + |field| <= |blob| && blob[at..at + |field|] == field && blob[at + |field|..] == rest
  {
    assert blob[at..at + |field|] == blob[at..][..|field|];
    assert blob[at + |field|..] == blob[at..][|field|..];
  }

  lemma Unappend<T>(a: seq<T>, b: seq<T>)
    ensures (a + b)[..|a|] == a && (a + b)[|a|..] == b
  {
  }

  lemma Reappend<T>(a: seq<T>, b: seq<T>, c: seq<T>)
    ensures a + b + c == a + (b + c)
  {
  }

  /** b with the elements from at on replaced by those of piece. */
  function Splice<T>(b: seq<T>, at: int, piece: seq<T>): (r: seq<T>)
    requires 0 <= at && at + |piece| <= |b|
    ensures |r| == |b|
  {
    b[..at] + piece + b[at + |piece|..]
  }

  lemma SpliceGrows<T>(b: seq<T>, at: int, piece: seq<T>, i: int)
    requires 0 <= at && 0 <= i < |piece| && at + |piece| <= |b|
    ensures Splice(b, at, piece[..i])[at + i := piece[i]] == Splice(b, at, piece[..i + 1])
    ensures Splice(b, at, piece[..i])[at + i] == b[at + i]
  {
  }
}
