/** What a binary patch means, byte by byte: the interpreter of applypatch/bspatch.c without its loop. */
module BsExact {
  import opened Bytes
  import opened Numbers
  import opened BsPatch

  /** One triple of the control stream: x bytes of the diff stream, y of the extra stream, and a move by z in the old data. */
  datatype Move = Move(x: int, y: int, z: int)

  function MoveAt(ctrl: seq<Byte>, k: nat): Move
    requires 24 * k + 24 <= |ctrl|
  {
    var c := ctrl[24 * k..];
    Move(OffIn(c[..8]), OffIn(c[8..16]), OffIn(c[16..24]))
  }

  /** How far the first k triples go in the diff stream, the extra stream and the old data. */
  datatype Reach = Reach(x: int, y: int, at: int)

  function ReachOf(ctrl: seq<Byte>, k: nat): Reach
    requires 24 * k <= |ctrl|
  {
    if k == 0 then Reach(0, 0, 0)
    else
      var r, m := ReachOf(ctrl, k - 1), MoveAt(ctrl, k - 1);
      Reach(r.x + m.x, r.y + m.y, r.at + m.x + m.z)
  }

  /** The triple number k is needed, and there is enough of both streams for it, and room. */
  ghost predicate Fine(ctrl: seq<Byte>, diff: seq<Byte>, extra: seq<Byte>, size: nat, k: nat)
    requires 24 * k + 24 <= |ctrl|
  {
    var r, s, m := ReachOf(ctrl, k), ReachOf(ctrl, k + 1), MoveAt(ctrl, k);
    r.x + r.y < size && 0 <= m.x && 0 <= m.y && s.x <= |diff| && s.y <= |extra| && s.x + s.y <= size
  }

  ghost predicate AllFine(ctrl: seq<Byte>, diff: seq<Byte>, extra: seq<Byte>, size: nat, n: nat) {
    24 * n <= |ctrl| && forall k: nat :: k < n ==> Fine(ctrl, diff, extra, size, k)
  }

  /** A byte of the diff stream, with the old byte at p added if there is one. */
  function Summed(source: seq<Byte>, p: int, b: Byte): Byte {
    if 0 <= p < |source| then (b as int + source[p] as int) % 256 else b
  }

  /** What the triple number k puts into the output. */
  ghost predicate Puts(source: seq<Byte>, ctrl: seq<Byte>, diff: seq<Byte>, extra: seq<Byte>, out: seq<Byte>, k: nat)
    requires 24 * k + 24 <= |ctrl|
  {
    var r, s := ReachOf(ctrl, k), ReachOf(ctrl, k + 1);
    && 0 <= r.x <= s.x <= |diff| && 0 <= r.y <= s.y <= |extra| && s.x + s.y <= |out|
    && forall i :: r.x + r.y <= i < s.x + s.y ==>
         out[i] == if i < s.x + r.y then Summed(source, r.at + (i - r.x - r.y), diff[i - r.y]) else extra[i - s.x]
  }

  /** The output of the first n triples. */
  ghost predicate Written(source: seq<Byte>, ctrl: seq<Byte>, diff: seq<Byte>, extra: seq<Byte>, out: seq<Byte>, n: nat) {
    24 * n <= |ctrl| && |out| == ReachOf(ctrl, n).x + ReachOf(ctrl, n).y && forall k: nat :: k < n ==> Puts(source, ctrl, diff, extra, out, k)
  }

  lemma ReachNext(ctrl: seq<Byte>, k: nat)
    requires 24 * k + 24 <= |ctrl|
    ensures var r, s, m := ReachOf(ctrl, k), ReachOf(ctrl, k + 1), MoveAt(ctrl, k);
      s == Reach(r.x + m.x, r.y + m.y, r.at + m.x + m.z)
  {
    hide MoveAt;
  }

  /** Where the reach is after fine triples. */
  lemma {:induction false} ReachFine(ctrl: seq<Byte>, diff: seq<Byte>, extra: seq<Byte>, size: nat, n: nat)
    requires AllFine(ctrl, diff, extra, size, n)
    ensures var r := ReachOf(ctrl, n); 0 <= r.x <= |diff| && 0 <= r.y <= |extra| && r.x + r.y <= size
  {
    hide MoveAt;
    if n > 0 {
      assert Fine(ctrl, diff, extra, size, n - 1);
      ReachFine(ctrl, diff, extra, size, n - 1);
    }
  }

  /** The interpreter after n triples. */
  ghost predicate Arrives(source: seq<Byte>, ctrl: seq<Byte>, diff: seq<Byte>, extra: seq<Byte>, size: nat, n: nat, out: seq<Byte>) {
    && 24 * n <= |ctrl| && 0 <= ReachOf(ctrl, n).x <= |diff| && 0 <= ReachOf(ctrl, n).y <= |extra|
    && Interpret(source, ctrl, diff, extra, size, 0, []) ==
       Interpret(source, ctrl[24 * n..], diff[ReachOf(ctrl, n).x..], extra[ReachOf(ctrl, n).y..], size, ReachOf(ctrl, n).at, out)
  }

  /** The output grows by what the triple puts. */
  function Grown(source: seq<Byte>, diff: seq<Byte>, extra: seq<Byte>, r: Reach, s: Reach, out: seq<Byte>): seq<Byte>
    requires 0 <= r.x <= s.x <= |diff| && 0 <= r.y <= s.y <= |extra|
  {
    out + AddOld(source, r.at, diff[r.x..s.x]) + extra[r.y..s.y]
  }

  lemma WrittenMore(source: seq<Byte>, ctrl: seq<Byte>, diff: seq<Byte>, extra: seq<Byte>, out: seq<Byte>, n: nat)
    requires Written(source, ctrl, diff, extra, out, n) && 24 * n + 24 <= |ctrl|
    requires var r, s := ReachOf(ctrl, n), ReachOf(ctrl, n + 1); 0 <= r.x <= s.x <= |diff| && 0 <= r.y <= s.y <= |extra|
    ensures Written(source, ctrl, diff, extra, Grown(source, diff, extra, ReachOf(ctrl, n), ReachOf(ctrl, n + 1), out), n + 1)
  {
    hide ReachOf;
    var r, s := ReachOf(ctrl, n), ReachOf(ctrl, n + 1);
    var mid, more := AddOld(source, r.at, diff[r.x..s.x]), Grown(source, diff, extra, r, s, out);
    forall k: nat | k < n + 1
      ensures Puts(source, ctrl, diff, extra, more, k)
    {
      if k < n {
        assert Puts(source, ctrl, diff, extra, out, k);
        assert forall i :: 0 <= i < |out| ==> more[i] == out[i];
      } else {
        forall i | r.x + r.y <= i < s.x + s.y
          ensures more[i] == if i < s.x + r.y then Summed(source, r.at + (i - r.x - r.y), diff[i - r.y]) else extra[i - s.x]
        {
          if i < s.x + r.y {
            assert more[i] == mid[i - r.x - r.y] && diff[r.x..s.x][i - r.x - r.y] == diff[i - r.y];
          } else {
            assert more[i] == extra[r.y..s.y][i - s.x - r.y];
          }
        }
      }
    }
  }

  /** There is only one output. */
  lemma WrittenOnce(source: seq<Byte>, ctrl: seq<Byte>, diff: seq<Byte>, extra: seq<Byte>, a: seq<Byte>, b: seq<Byte>, n: nat)
    requires Written(source, ctrl, diff, extra, a, n) && Written(source, ctrl, diff, extra, b, n)
    ensures a == b
  {
    forall i | 0 <= i < |a|
      ensures a[i] == b[i]
    {
      SameAt(source, ctrl, diff, extra, a, b, n, i);
    }
  }

  lemma {:induction false} SameAt(source: seq<Byte>, ctrl: seq<Byte>, diff: seq<Byte>, extra: seq<Byte>, a: seq<Byte>, b: seq<Byte>, n: nat, i: nat)
    requires 24 * n <= |ctrl| && |a| == |b| && i < |a| && i < ReachOf(ctrl, n).x + ReachOf(ctrl, n).y
    requires forall k: nat :: k < n ==> Puts(source, ctrl, diff, extra, a, k) && Puts(source, ctrl, diff, extra, b, k)
    ensures a[i] == b[i]
    decreases n
  {
    hide ReachOf;
    if n == 0 {
      ReachStart(ctrl);
    } else {
      var k := n - 1;
      assert Puts(source, ctrl, diff, extra, a, k) && Puts(source, ctrl, diff, extra, b, k);
      if i < ReachOf(ctrl, k).x + ReachOf(ctrl, k).y {
        hide Puts;
        SameAt(source, ctrl, diff, extra, a, b, k, i);
      }
    }
  }

  lemma ReachStart(ctrl: seq<Byte>)
    ensures ReachOf(ctrl, 0) == Reach(0, 0, 0)
  {
  }

  /** One more fine triple. */
  lemma OneTriple(source: seq<Byte>, ctrl: seq<Byte>, diff: seq<Byte>, extra: seq<Byte>, size: nat, n: nat, out: seq<Byte>)
    requires Arrives(source, ctrl, diff, extra, size, n, out) && |out| == ReachOf(ctrl, n).x + ReachOf(ctrl, n).y
    requires 24 * n + 24 <= |ctrl| && Fine(ctrl, diff, extra, size, n)
    ensures var r, s := ReachOf(ctrl, n), ReachOf(ctrl, n + 1);
      && 0 <= r.x <= s.x <= |diff| && 0 <= r.y <= s.y <= |extra|
      && Arrives(source, ctrl, diff, extra, size, n + 1, Grown(source, diff, extra, r, s, out))
  {
    hide ReachOf, Interpret, OffIn, AddOld;
    ReachNext(ctrl, n);
    var r, s, m := ReachOf(ctrl, n), ReachOf(ctrl, n + 1), MoveAt(ctrl, n);
    var c, d, e := ctrl[24 * n..], diff[r.x..], extra[r.y..];
    InterpretTriple(source, c, d, e, size, r.at, out, m.x, m.y, m.z);
    assert c[24..] == ctrl[24 * (n + 1)..] && d[m.x..] == diff[s.x..] && e[m.y..] == extra[s.y..];
    assert d[..m.x] == diff[r.x..s.x] && e[..m.y] == extra[r.y..s.y];
  }

  lemma NothingRead(source: seq<Byte>, ctrl: seq<Byte>, diff: seq<Byte>, extra: seq<Byte>, size: nat)
    ensures Arrives(source, ctrl, diff, extra, size, 0, []) && Written(source, ctrl, diff, extra, [], 0)
  {
    hide Interpret;
    assert ctrl[0..] == ctrl && diff[0..] == diff && extra[0..] == extra;
  }

  lemma {:induction false} ArrivesFine(source: seq<Byte>, ctrl: seq<Byte>, diff: seq<Byte>, extra: seq<Byte>, size: nat, n: nat) returns (out: seq<Byte>)
    requires AllFine(ctrl, diff, extra, size, n)
    ensures Arrives(source, ctrl, diff, extra, size, n, out) && Written(source, ctrl, diff, extra, out, n)
  {
    hide Interpret, ReachOf, Fine, Arrives, Puts, Grown;
    if n == 0 {
      out := [];
      NothingRead(source, ctrl, diff, extra, size);
    } else {
      var before := ArrivesFine(source, ctrl, diff, extra, size, n - 1);
      OneTriple(source, ctrl, diff, extra, size, n - 1, before);
      WrittenMore(source, ctrl, diff, extra, before, n - 1);
      out := Grown(source, diff, extra, ReachOf(ctrl, n - 1), ReachOf(ctrl, n), before);
    }
  }

  /** At the end of the output, nothing more is read. */
  lemma Ends(source: seq<Byte>, ctrl: seq<Byte>, diff: seq<Byte>, extra: seq<Byte>, size: nat, n: nat, out: seq<Byte>)
    requires Arrives(source, ctrl, diff, extra, size, n, out) && |out| >= size
    ensures Interpret(source, ctrl, diff, extra, size, 0, []) == Some(out)
  {
    hide ReachOf;
  }

  /** A triple that is not fine is refused, and so is the lack of one. */
  lemma Refused(source: seq<Byte>, ctrl: seq<Byte>, diff: seq<Byte>, extra: seq<Byte>, size: nat, n: nat, out: seq<Byte>)
    requires Arrives(source, ctrl, diff, extra, size, n, out) && |out| == ReachOf(ctrl, n).x + ReachOf(ctrl, n).y < size
    requires 24 * n + 24 <= |ctrl| ==> !Fine(ctrl, diff, extra, size, n)
    ensures Interpret(source, ctrl, diff, extra, size, 0, []) == None
  {
    if 24 * n + 24 <= |ctrl| {
      ReachNext(ctrl, n);
    }
    hide ReachOf, OffIn, AddOld;
  }

  lemma {:induction false} FindEnd(source: seq<Byte>, ctrl: seq<Byte>, diff: seq<Byte>, extra: seq<Byte>, size: nat, n: nat) returns (m: nat)
    requires AllFine(ctrl, diff, extra, size, n) && Interpret(source, ctrl, diff, extra, size, 0, []).Some?
    ensures AllFine(ctrl, diff, extra, size, m) && ReachOf(ctrl, m).x + ReachOf(ctrl, m).y == size
    decreases |ctrl| - 24 * n
  {
    hide Interpret, MoveAt;
    ReachFine(ctrl, diff, extra, size, n);
    var out := ArrivesFine(source, ctrl, diff, extra, size, n);
    if ReachOf(ctrl, n).x + ReachOf(ctrl, n).y == size {
      m := n;
    } else {
      if !(24 * n + 24 <= |ctrl| && Fine(ctrl, diff, extra, size, n)) {
        Refused(source, ctrl, diff, extra, size, n, out);
      }
      m := FindEnd(source, ctrl, diff, extra, size, n + 1);
    }
  }

  /**
   * The three streams give an output exactly if, for some n, the first n triples are just enough for it, with no negative
   * length and with enough of both streams; and then each byte of it is the one their lengths and moves say, old bytes
   * added to the diff stream where there are any.
   */
  lemma InterpretExactly(source: seq<Byte>, ctrl: seq<Byte>, diff: seq<Byte>, extra: seq<Byte>, size: nat, out: seq<Byte>)
    ensures Interpret(source, ctrl, diff, extra, size, 0, []) == Some(out) <==>
      |out| == size && exists n: nat :: AllFine(ctrl, diff, extra, size, n) && Written(source, ctrl, diff, extra, out, n)
  {
    hide Interpret, ReachOf, MoveAt;
    if Interpret(source, ctrl, diff, extra, size, 0, []) == Some(out) {
      assert AllFine(ctrl, diff, extra, size, 0);
      var n := FindEnd(source, ctrl, diff, extra, size, 0);
      var o := ArrivesFine(source, ctrl, diff, extra, size, n);
      Ends(source, ctrl, diff, extra, size, n, o);
    }
    if |out| == size {
      forall n: nat | AllFine(ctrl, diff, extra, size, n) && Written(source, ctrl, diff, extra, out, n)
        ensures Interpret(source, ctrl, diff, extra, size, 0, []) == Some(out)
      {
        var o := ArrivesFine(source, ctrl, diff, extra, size, n);
        WrittenOnce(source, ctrl, diff, extra, o, out, n);
        Ends(source, ctrl, diff, extra, size, n, o);
      }
    }
  }
}
