/**
 * The sockets of minadbd/sockets.c as objects: the two lists they are linked in, and the packets linked to each of
 * them that wait to be written.
 */
module AdbLists {
  import opened Bytes
  import opened AdbSockets

  class RemoteSocket {
    const id: nat
    var peer: LocalSocket?
    /** Its number, for the record. */
    ghost const ref: Ref

    constructor (id: nat, peer: LocalSocket, ghost ref: Ref)
      ensures this.id == id && this.peer == peer && this.ref == ref
    {
      this.id, this.peer := id, peer;
      this.ref := ref;
    }
  }

  /** A packet that waits, and what is still to be written of it. */
  class Parcel {
    var next: Parcel?
    var data: seq<Byte>
    /** The socket it waits for. */
    ghost const owner: LocalSocket

    constructor (data: seq<Byte>, ghost owner: LocalSocket)
      ensures this.data == data && next == null && this.owner == owner
    {
      this.data, next := data, null;
      this.owner := owner;
    }
  }

  class LocalSocket {
    var next: LocalSocket?
    var prev: LocalSocket?
    var id: nat
    var closing: bool
    var peer: RemoteSocket?
    var pktFirst: Parcel?
    var pktLast: Parcel?
    var wantRead: bool
    var wantWrite: bool
    var pendRead: bool
    var pendWrite: bool
    /** The packets from pktFirst to pktLast, and what they hold. */
    ghost var parcels: seq<Parcel>
    ghost var queue: seq<seq<Byte>>
    /** Its number and its history, for the record. */
    ghost const ref: Ref
    ghost var accepted: seq<Byte>
    ghost var written: seq<Byte>
    ghost var turns: seq<Turn>
    ghost var grants: seq<nat>

    constructor (ghost ref: Ref)
      ensures this.ref == ref && Chained(this)
      ensures Abs(this) == Local(0, false, None, [], false, false, false, false, [], [], [], [])
    {
      this.ref := ref;
      next, prev, id, closing, peer := null, null, 0, false, null;
      pktFirst, pktLast, parcels, queue := null, null, [], [];
      wantRead, wantWrite, pendRead, pendWrite := false, false, false, false;
      accepted, written, turns, grants := [], [], [], [];
    }
  }

  ghost function Abs(s: LocalSocket): Local
    reads s`id, s`closing, s`peer, s`queue, s`wantRead, s`wantWrite, s`pendRead, s`pendWrite, s`accepted, s`written, s`turns, s`grants
  {
    Local(s.id, s.closing, if s.peer == null then None else Some(s.peer.ref), s.queue,
          s.wantRead, s.wantWrite, s.pendRead, s.pendWrite, s.accepted, s.written, s.turns, s.grants)
  }

  // ----- Queues -----

  /** The packets of a socket are linked in order, and hold its queue. */
  ghost predicate Chained(s: LocalSocket)
    reads s`pktFirst, s`pktLast, s`parcels, s`queue, set n: Parcel | n in s.parcels
  {
    && |s.queue| == |s.parcels| && (forall i :: 0 <= i < |s.parcels| ==> s.parcels[i].data == s.queue[i] && s.parcels[i].owner == s)
    && (forall i, j :: 0 <= i < j < |s.parcels| ==> s.parcels[i] != s.parcels[j])
    && (forall i, j :: 0 <= i < j < |s.parcels| && j == i + 1 ==> s.parcels[i].next == s.parcels[j])
    && (if s.parcels == [] then s.pktFirst == null && s.pktLast == null
        else s.pktFirst == s.parcels[0] && s.pktLast == s.parcels[|s.parcels| - 1] && s.parcels[|s.parcels| - 1].next == null)
  }

  /** A packet joins the tail. */
  method AppendParcel(s: LocalSocket, data: seq<Byte>)
    requires Chained(s)
    modifies s`pktFirst, s`pktLast, s`parcels, s`queue, s.parcels
    ensures Chained(s) && s.queue == old(s.queue) + [data]
  {
    var p := new Parcel(data, s);
    if s.pktFirst != null {
      s.pktLast.next := p;
    } else {
      s.pktFirst := p;
    }
    s.pktLast := p;
    s.parcels, s.queue := s.parcels + [p], s.queue + [data];
  }

  /** Some bytes of the first packet have been written. */
  method ConsumeFirst(s: LocalSocket, k: nat)
    requires Chained(s) && s.queue != [] && k <= |s.queue[0]|
    modifies s`queue, s.pktFirst
    ensures Chained(s) && s.queue == [old(s.queue)[0][k..]] + old(s.queue)[1..]
  {
    s.pktFirst.data := s.pktFirst.data[k..];
    s.queue := [s.queue[0][k..]] + s.queue[1..];
  }

  /** The first packet, all written, leaves. */
  method PopFirst(s: LocalSocket)
    requires Chained(s) && s.queue != []
    modifies s`pktFirst, s`pktLast, s`parcels, s`queue
    ensures Chained(s) && s.queue == old(s.queue)[1..] && s.parcels == old(s.parcels)[1..]
  {
    assert s.pktFirst == s.parcels[0] && (|s.parcels| > 1 ==> s.pktFirst.next == s.parcels[1]);
    s.pktFirst := s.pktFirst.next;
    if s.pktFirst == null {
      s.pktLast := null;
    }
    s.parcels, s.queue := s.parcels[1..], s.queue[1..];
  }

  lemma FirstData(s: LocalSocket)
    requires Chained(s)
    ensures s.pktFirst == null <==> s.queue == []
    ensures s.queue != [] ==> s.pktFirst in s.parcels && s.pktFirst.data == s.queue[0]
  {
  }

  /** The two nested loops of local_socket_event_func that empty the queue, packet by packet. */
  method WriteQueue(s: LocalSocket, answers: seq<Answer>) returns (ghost out: seq<Byte>, end: End)
    requires Chained(s)
    modifies s`pktFirst, s`pktLast, s`parcels, s`queue, s.parcels
    ensures Chained(s) && Drained(out, s.queue, end) == Drain(old(s.queue), answers, [])
  {
    hide Chained;
    FirstData(s);
    out := [];
    var a := answers;
    while s.pktFirst != null
      invariant Chained(s) && Drain(old(s.queue), answers, []) == Drain(s.queue, a, out)
      invariant s.pktFirst == null <==> s.queue == []
      invariant forall n :: n in s.parcels ==> n in old(s.parcels)
      decreases |a|, |s.queue|
    {
      FirstData(s);
      ghost var a0, n0 := a, |s.queue|;
      while s.pktFirst.data != []
        invariant Chained(s) && s.queue != [] && s.pktFirst != null && s.pktFirst.data == s.queue[0] && |s.queue| == n0 && |a| <= |a0|
        invariant Drain(old(s.queue), answers, []) == Drain(s.queue, a, out)
        invariant forall n :: n in s.parcels ==> n in old(s.parcels)
        decreases |a|
      {
        FirstData(s);
        if a == [] { end := Blocked; return; }
        match a[0] {
          case Wrote(n) =>
            if n == 0 { end := Broken; return; }
            var k := Least(n, |s.pktFirst.data|);
            out := out + s.queue[0][..k];
            ConsumeFirst(s, k);
            FirstData(s);
          case Again => end := Blocked; return;
          case Interrupted =>
          case Failed => end := Broken; return;
        }
        a := a[1..];
      }
      PopFirst(s);
      FirstData(s);
    }
    end := Emptied;
  }

  /** The loop of local_socket_enqueue. */
  method WritePacket(p: seq<Byte>, answers: seq<Answer>) returns (rest: seq<Byte>, failed: bool)
    ensures (rest, failed) == Push(p, answers)
  {
    rest, failed := p, false;
    var a := answers;
    while rest != [] && a != []
      invariant Push(p, answers) == Push(rest, a) && !failed
      decreases |a|
    {
      match a[0] {
        case Wrote(n) =>
          if n == 0 { failed := true; return; }
          rest := rest[Least(n, |rest|)..];
        case Again => return;
        case _ => failed := true; return;
      }
      a := a[1..];
    }
  }

  lemma GatherOne(avail: nat, inputs: seq<Input>, x: seq<Byte>)
    requires avail > 0 && inputs != [] && inputs[0].Got? && inputs[0].bytes != []
    ensures var k := Least(avail, |inputs[0].bytes|); var (g, h) := (Gather(avail, inputs), Gather(avail - k, inputs[1..]));
      x + g.0 == x + inputs[0].bytes[..k] + h.0 && g.1 == h.1
  {
    var k := Least(avail, |inputs[0].bytes|);
    Reappend(x, inputs[0].bytes[..k], Gather(avail - k, inputs[1..]).0);
  }

  /** The loop of local_socket_event_func that reads into one packet. */
  method ReadPacket(inputs: seq<Input>) returns (data: seq<Byte>, eof: bool)
    ensures (data, eof) == Gather(MAX_PAYLOAD, inputs)
  {
    data, eof := [], false;
    var avail: nat, i := MAX_PAYLOAD, inputs;
    assert [] + Gather(avail, i).0 == Gather(avail, i).0;
    while avail > 0 && i != []
      invariant !eof && data + Gather(avail, i).0 == Gather(MAX_PAYLOAD, inputs).0 && Gather(avail, i).1 == Gather(MAX_PAYLOAD, inputs).1
      decreases |i|
    {
      assert data + [] == data;
      match i[0] {
        case Got(bytes) =>
          if bytes == [] { eof := true; return; }
          var k := Least(avail, |bytes|);
          GatherOne(avail, i, data);
          data, avail := data + bytes[..k], avail - k;
        case Nothing => return;
        case Signal =>
        case Fault => eof := true; return;
      }
      i := i[1..];
    }
    assert data + [] == data;
  }

  // ----- Linked lists -----

  ghost predicate Joined(a: LocalSocket, b: LocalSocket)
    reads a`next, b`prev
  {
    a.next == b && b.prev == a
  }

  ghost predicate Chain(c: seq<LocalSocket>)
    reads c`next, c`prev
  {
    forall i, j :: 0 <= i < j < |c| && j == i + 1 ==> Joined(c[i], c[j])
  }

  ghost predicate Distinct(c: seq<LocalSocket>) {
    forall i, j :: 0 <= i < j < |c| ==> c[i] != c[j]
  }

  ghost function Circle(list: LocalSocket, ring: seq<LocalSocket>): seq<LocalSocket> { [list] + ring + [list] }

  /** From the list's head through its elements and back. */
  ghost predicate Ring(list: LocalSocket, ring: seq<LocalSocket>)
    reads list`next, list`prev, ring`next, ring`prev
  {
    Distinct(ring) && list !in ring && Chain(Circle(list, ring))
  }

  /** insert_local_socket: before the head, which is at the end. */
  method InsertLocalSocket(s: LocalSocket, list: LocalSocket, ghost ring: seq<LocalSocket>)
    requires Ring(list, ring) && s !in ring && s != list
    modifies list`next, list`prev, s`next, s`prev, ring`next
    ensures Ring(list, ring + [s])
  {
    ghost var c := Circle(list, ring);
    assert Joined(c[|ring|], c[|ring| + 1]);
    s.next := list;
    s.prev := s.next.prev;
    s.prev.next := s;
    s.next.prev := s;
    ghost var d := Circle(list, ring + [s]);
    forall i, j | 0 <= i < j < |d| && j == i + 1
      ensures Joined(d[i], d[j])
    {
      assert i < |ring| ==> Joined(c[i], c[j]);
    }
  }

  /** remove_socket, from whichever list the socket is in. */
  method RemoveSocket(s: LocalSocket, ghost list: LocalSocket, ghost ring: seq<LocalSocket>, ghost k: nat)
    requires Ring(list, ring) && k < |ring| && ring[k] == s
    modifies list`next, list`prev, ring`next, ring`prev, s`id
    ensures Ring(list, ring[..k] + ring[k + 1..]) && s.id == 0 && s.next == null && s.prev == null
  {
    ghost var c := Circle(list, ring);
    assert Joined(c[k], c[k + 1]) && Joined(c[k + 1], c[k + 2]);
    s.prev.next := s.next;
    s.next.prev := s.prev;
    s.next := null;
    s.prev := null;
    s.id := 0;
    ghost var d := Circle(list, ring[..k] + ring[k + 1..]);
    forall i, j | 0 <= i < j < |d| && j == i + 1
      ensures Joined(d[i], d[j])
    {
      assert i < k ==> Joined(c[i], c[j]);
      assert i > k ==> Joined(c[i + 1], c[j + 1]);
    }
  }
}
