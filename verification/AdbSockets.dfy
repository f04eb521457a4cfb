/**
 * Local and remote sockets of the debug bridge and the packets that drive them: minadbd/sockets.c and the protocol
 * step of minadbd/adb.c. Sockets are reached through references, as they are through pointers in the program.
 */
module AdbSockets {
  import opened Bytes

  type Ref = nat

  const MAX_PAYLOAD := 4096

  /** SYNC, CNXN, OPEN, OKAY, CLSE and WRTE; local is the sender's socket, remote the receiver's. */
  datatype Packet =
    | Sync(on: bool)
    | Cnxn
    | Open(local: nat)
    | Okay(local: nat, remote: nat)
    | Clse(local: nat, remote: nat)
    | Wrte(local: nat, remote: nat, data: seq<Byte>)

  /** A WRTE sent for a socket, and an OKAY handled for it. */
  datatype Turn = Sent | Acked

  /**
   * A socket bound to a file descriptor. Besides its fields it carries its history: the payloads it accepted, the
   * bytes its descriptor took, its turns as a sender, and how much was queued at each OKAY it had sent for it.
   */
  datatype Local = Local(
    id: nat, closing: bool, peer: Option<Ref>, queue: seq<seq<Byte>>,
    wantRead: bool, wantWrite: bool, pendRead: bool, pendWrite: bool,
    accepted: seq<Byte>, written: seq<Byte>, turns: seq<Turn>, grants: seq<nat>)

  /** A socket at the other end of the transport. */
  datatype Remote = Remote(id: nat, peer: Option<Ref>)

  /** The socket lists and everything they reach; gone keeps the sockets that were freed, for the record. */
  datatype Device = Device(
    locals: map<Ref, Local>, remotes: map<Ref, Remote>, live: seq<Ref>, closing: seq<Ref>,
    nextId: nat, nextRef: Ref, online: bool, sent: seq<Packet>, gone: map<Ref, Local>)

  // ----- Queues -----

  function Concat(queue: seq<seq<Byte>>): seq<Byte> {
    if queue == [] then [] else queue[0] + Concat(queue[1..])
  }

  lemma {:induction false} ConcatAppend(queue: seq<seq<Byte>>, p: seq<Byte>)
    ensures Concat(queue + [p]) == Concat(queue) + p
  {
    if queue == [] {
      assert queue + [p] == [p] && [p][1..] == [];
    } else {
      assert (queue + [p])[1..] == queue[1..] + [p];
      ConcatAppend(queue[1..], p);
    }
  }

  lemma ConcatFirst(p: seq<Byte>, rest: seq<seq<Byte>>)
    ensures Concat([p] + rest) == p + Concat(rest)
  {
    assert ([p] + rest)[1..] == rest;
  }

  /** What one call of write answers: a count of bytes, or an error. A count of 0 is end of file. */
  datatype Answer = Wrote(count: nat) | Again | Interrupted | Failed

  function Least(a: nat, b: nat): nat { if a < b then a else b }

  /** The write loop of local_socket_enqueue: what is left of the packet, and whether the descriptor failed. */
  function Push(p: seq<Byte>, answers: seq<Answer>): (r: (seq<Byte>, bool))
    ensures exists n: nat :: n <= |p| && r.0 == p[n..]
    decreases |answers|
  {
    if p == [] || answers == [] then
      assert p == p[0..];
      (p, false)
    else
      match answers[0]
      case Wrote(n) =>
        if n == 0 then
          assert p == p[0..];
          (p, true)
        else
          var k := Least(n, |p|);
          var r := Push(p[k..], answers[1..]);
          assert forall n: nat :: n <= |p[k..]| ==> p[k..][n..] == p[k + n..];
          r
      case Again =>
        assert p == p[0..];
        (p, false)
      case _ =>
        assert p == p[0..];
        (p, true)
  }

  datatype End = Emptied | Blocked | Broken

  datatype Drained = Drained(out: seq<Byte>, left: seq<seq<Byte>>, end: End)

  /** The write loops of local_socket_event_func. */
  function Drain(queue: seq<seq<Byte>>, answers: seq<Answer>, out: seq<Byte>): Drained
    decreases |answers|, |queue|
  {
    if queue == [] then Drained(out, queue, Emptied)
    else if queue[0] == [] then Drain(queue[1..], answers, out)
    else if answers == [] then Drained(out, queue, Blocked)
    else
      match answers[0]
      case Wrote(n) =>
        if n == 0 then Drained(out, queue, Broken)
        else
          var k := Least(n, |queue[0]|);
          Drain([queue[0][k..]] + queue[1..], answers[1..], out + queue[0][..k])
      case Again => Drained(out, queue, Blocked)
      case Interrupted => Drain(queue, answers[1..], out)
      case Failed => Drained(out, queue, Broken)
  }

  /** Draining moves bytes from the queue to the descriptor, in order, and loses none. */
  lemma {:induction false} DrainMoves(queue: seq<seq<Byte>>, answers: seq<Answer>, out: seq<Byte>)
    ensures var r := Drain(queue, answers, out);
      && r.out + Concat(r.left) == out + Concat(queue) && |r.left| <= |queue|
      && (r.end == Emptied <==> r.left == [])
    decreases |answers|, |queue|
  {
    if queue == [] {
    } else if queue[0] == [] {
      DrainMoves(queue[1..], answers, out);
    } else if answers == [] {
    } else if answers[0].Wrote? && answers[0].count > 0 {
      var k := Least(answers[0].count, |queue[0]|);
      DrainMoves([queue[0][k..]] + queue[1..], answers[1..], out + queue[0][..k]);
      ConcatFirst(queue[0][k..], queue[1..]);
      assert queue[0][..k] + queue[0][k..] == queue[0];
      Reappend(out, queue[0][..k], queue[0][k..] + Concat(queue[1..]));
      Reappend(queue[0][..k], queue[0][k..], Concat(queue[1..]));
    } else if answers[0].Interrupted? {
      DrainMoves(queue, answers[1..], out);
    }
  }

  /** What one call of read answers; no bytes at all is end of file. */
  datatype Input = Got(bytes: seq<Byte>) | Nothing | Signal | Fault

  /** The read loop of local_socket_event_func: the bytes read, and whether the descriptor ended. */
  function Gather(avail: nat, inputs: seq<Input>): (r: (seq<Byte>, bool))
    ensures |r.0| <= avail
    decreases |inputs|
  {
    if avail == 0 || inputs == [] then ([], false)
    else
      match inputs[0]
      case Got(bytes) =>
        if bytes == [] then ([], true)
        else
          var k := Least(avail, |bytes|);
          var r := Gather(avail - k, inputs[1..]);
          (bytes[..k] + r.0, r.1)
      case Nothing => ([], false)
      case Signal => Gather(avail, inputs[1..])
      case Fault => ([], true)
  }

  // ----- Operations -----

  function Send(d: Device, p: Packet): Device { d.(sent := d.sent + [p]) }

  function Put(d: Device, r: Ref, l: Local): Device { d.(locals := d.locals[r := l]) }

  /** The same socket, as far as its links go. */
  predicate SameEnds(l: Local, m: Local) { m.id == l.id && m.closing == l.closing && m.peer == l.peer }

  /** fdevent_set: the events now wanted; of those pending, the ones now wanted are dropped. */
  function Arm(l: Local, read: bool, write: bool): (a: Local)
    ensures SameEnds(l, a) && a.queue == l.queue && a.wantRead == read && a.wantWrite == write
  {
    if l.wantRead == read && l.wantWrite == write then l
    else l.(wantRead := read, wantWrite := write, pendRead := l.pendRead && !read, pendWrite := l.pendWrite && !write)
  }

  function Without(s: seq<Ref>, r: Ref): (t: seq<Ref>)
    ensures forall x :: x in t <==> x in s && x != r
    ensures NoDup(s) ==> NoDup(t)
    ensures |t| <= |s| && (r in s ==> |t| < |s|)
  {
    if s == [] then [] else if s[0] == r then Without(s[1..], r) else [s[0]] + Without(s[1..], r)
  }

  predicate NoDup(s: seq<Ref>) { s == [] || (s[0] !in s[1..] && NoDup(s[1..])) }

  /** The first socket of the list with this id. */
  function Find(d: Device, id: nat, at: nat): (r: Option<Ref>)
    requires at <= |d.live| && forall x :: x in d.live ==> x in d.locals
    ensures r.Some? ==> r.value in d.live && d.locals[r.value].id == id
    ensures r.None? ==> forall k :: at <= k < |d.live| ==> d.locals[d.live[k]].id != id
    decreases |d.live| - at
  {
    if at == |d.live| then None
    else if d.locals[d.live[at]].id == id then Some(d.live[at])
    else Find(d, id, at + 1)
  }

  /** create_local_socket and create_remote_socket for one connection, linked to each other. */
  function Connect(d: Device, remote: nat): Device {
    var r, q := d.nextRef, d.nextRef + 1;
    var l := Local(d.nextId, false, Some(q), [], false, false, false, false, [], [], [], []);
    d.(locals := d.locals[r := l], remotes := d.remotes[q := Remote(remote, Some(r))], live := d.live + [r],
       nextId := d.nextId + 1, nextRef := d.nextRef + 2)
  }

  /** The peer of l can be followed. */
  predicate Sighted(d: Device, l: Local) { l.peer.Some? ==> l.peer.value in d.remotes }

  /** local_socket_ready, when the far side has acknowledged. */
  function Ready(l: Local): (m: Local)
    ensures SameEnds(l, m) && m.queue == l.queue && m.wantRead
  {
    Arm(l.(turns := l.turns + [Acked]), true, l.wantWrite)
  }

  /** local_socket_destroy. */
  function Destroy(d: Device, r: Ref): Device
    requires r in d.locals
  {
    d.(locals := d.locals - {r}, live := Without(d.live, r), closing := Without(d.closing, r), gone := d.gone[r := d.locals[r]])
  }

  /** remote_socket_close, for a remote socket whose peer has let go of it. */
  function CloseRemote(d: Device, q: Ref): Device
    requires q in d.remotes
  {
    Send(d, Clse(0, d.remotes[q].id)).(remotes := d.remotes - {q})
  }

  /** local_socket_close_locked. */
  function CloseLocal(d: Device, r: Ref): Device
    requires r in d.locals && Sighted(d, d.locals[r])
  {
    var l := d.locals[r];
    var d1 := if l.peer.Some? then CloseRemote(d, l.peer.value) else d;
    if l.closing || l.queue == [] then Destroy(Put(d1, r, l.(peer := None)), r)
    else
      var l' := Arm(l.(peer := None, closing := true, id := 0), false, l.wantWrite);
      Put(d1, r, l').(live := Without(d1.live, r), closing := Without(d1.closing, r) + [r])
  }

  /** A payload joins the queue. */
  function Queued(l: Local, p: seq<Byte>): (m: Local)
    ensures SameEnds(l, m) && m.wantRead == l.wantRead && m.queue == l.queue + [p]
  {
    Arm(l.(accepted := l.accepted + p, queue := l.queue + [p]), l.wantRead, true)
  }

  /** A payload goes to the descriptor, all but rest. */
  function Pushed(l: Local, p: seq<Byte>, rest: seq<Byte>): (m: Local)
    requires |rest| <= |p|
    ensures SameEnds(l, m) && m.wantRead == l.wantRead && m.queue == l.queue
  {
    l.(accepted := l.accepted + p, written := l.written + p[..|p| - |rest|])
  }

  /** The rest waits. */
  function Held(l: Local, rest: seq<Byte>): (m: Local)
    ensures SameEnds(l, m) && m.wantRead == l.wantRead && m.queue == [rest]
  {
    Arm(l.(queue := [rest]), l.wantRead, true)
  }

  /** An OKAY is sent on behalf of the socket: the queue at that moment goes on record. */
  function Granted(l: Local): (m: Local)
    ensures SameEnds(l, m) && m.wantRead == l.wantRead && m.queue == l.queue
  {
    l.(grants := l.grants + [|l.queue|])
  }

  /** local_socket_enqueue of a WRTE payload, with the OKAY that follows if the socket is ready for more. */
  function Enqueue(d: Device, r: Ref, p: seq<Byte>, remote: nat, answers: seq<Answer>): Device
    requires r in d.locals && Sighted(d, d.locals[r])
  {
    var l := d.locals[r];
    if l.queue != [] then Put(d, r, Queued(l, p))
    else
      var (rest, failed) := Push(p, answers);
      var m := Pushed(l, p, rest);
      if failed then CloseLocal(Put(d, r, m), r)
      else if rest == [] then Send(Put(d, r, Granted(m)), Okay(l.id, remote))
      else Put(d, r, Held(m, rest))
  }

  /** The descriptor took w.out from the queue. */
  function Flushed(l: Local, w: Drained): (m: Local)
    ensures SameEnds(l, m) && m.wantRead == l.wantRead && m.queue == w.left
  {
    l.(queue := w.left, written := l.written + w.out)
  }

  /** The part of local_socket_event_func that writes, and whether the part that reads may follow. */
  function WritePart(d: Device, r: Ref, answers: seq<Answer>): (Device, bool)
    requires r in d.locals && Sighted(d, d.locals[r]) && (!d.locals[r].closing ==> d.locals[r].peer.Some?)
  {
    var l := d.locals[r];
    var w := Drain(l.queue, answers, []);
    var m := Flushed(l, w);
    if w.end == Blocked then (Put(d, r, m), false)
    else if w.end == Broken || l.closing then (CloseLocal(Put(d, r, m), r), false)
    else (Send(Put(d, r, Granted(Arm(m, m.wantRead, false))), Okay(l.id, d.remotes[l.peer.value].id)), true)
  }

  /** A WRTE is sent for what the socket read; it reads no more until that is acknowledged. */
  function Spoken(l: Local): (m: Local)
    ensures SameEnds(l, m) && m.queue == l.queue && !m.wantRead
  {
    Arm(l.(turns := l.turns + [Sent]), false, l.wantWrite)
  }

  /** The part of local_socket_event_func that reads. */
  function ReadPart(d: Device, r: Ref, inputs: seq<Input>): Device
    requires r in d.locals && Sighted(d, d.locals[r])
  {
    var l := d.locals[r];
    var (data, eof) := Gather(MAX_PAYLOAD, inputs);
    var d1 :=
      if data == [] || l.peer.None? then d
      else Send(Put(d, r, Spoken(l)), Wrte(l.id, d.remotes[l.peer.value].id, data));
    if eof then CloseLocal(d1, r) else d1
  }

  /** When the part that reads may follow, the socket is there, as eager to read as before. */
  lemma WriteStays(d: Device, r: Ref, answers: seq<Answer>)
    requires r in d.locals && Sighted(d, d.locals[r]) && (!d.locals[r].closing ==> d.locals[r].peer.Some?)
    ensures var (e, on) := WritePart(d, r, answers);
      on ==> r in e.locals && SameEnds(d.locals[r], e.locals[r]) && e.locals[r].wantRead == d.locals[r].wantRead && e.remotes == d.remotes
  {
    hide Drain, CloseLocal;
  }

  // ----- Well-formed devices -----

  /** A socket of the list has a peer that points back at it. */
  predicate LiveOk(d: Device, r: Ref) {
    && r in d.locals && !d.locals[r].closing && 0 < d.locals[r].id < d.nextId
    && d.locals[r].peer.Some? && d.locals[r].peer.value in d.remotes && d.remotes[d.locals[r].peer.value].peer == Some(r)
  }

  /** A remote socket has a peer in the list that points back at it. */
  predicate RemoteOk(d: Device, q: Ref) {
    && q in d.remotes && q < d.nextRef && d.remotes[q].peer.Some?
    && var r := d.remotes[q].peer.value; r in d.live && r in d.locals && d.locals[r].peer == Some(q)
  }

  /** A socket of the closing list has no peer and no id. */
  predicate ClosingOk(d: Device, r: Ref) {
    r in d.locals && d.locals[r].closing && d.locals[r].peer.None? && d.locals[r].id == 0
  }

  predicate SameId(d: Device, r: Ref, s: Ref) {
    r in d.locals && s in d.locals && d.locals[r].id == d.locals[s].id
  }

  ghost predicate Lives(d: Device) { forall r :: r in d.live ==> LiveOk(d, r) }

  ghost predicate Remotes(d: Device) { forall q :: q in d.remotes ==> RemoteOk(d, q) }

  ghost predicate Closings(d: Device) { forall r :: r in d.closing ==> ClosingOk(d, r) }

  /** Every socket is in a list, and nothing refers to what has not been allocated. */
  ghost predicate Listed(d: Device) { forall r :: r in d.locals ==> r < d.nextRef && (r in d.live || r in d.closing) }

  ghost predicate UniqueIds(d: Device) { forall r, s :: r in d.live && s in d.live && SameId(d, r, s) ==> r == s }

  /** Peer links are symmetric, every socket is in exactly one list, and ids in the list are unique. */
  ghost predicate Linked(d: Device) {
    && Lives(d) && Remotes(d) && Closings(d) && Listed(d) && UniqueIds(d)
    && NoDup(d.live) && NoDup(d.closing) && 0 < d.nextId && (!d.online ==> d.live == [])
  }

  /** Before every WRTE but the first, and before the first too, stands an acknowledgement. */
  ghost predicate Alternate(turns: seq<Turn>) {
    forall k :: 0 <= k < |turns| && turns[k] == Sent ==> k > 0 && turns[k - 1] == Acked
  }

  ghost predicate AllZero(grants: seq<nat>) { forall k :: 0 <= k < |grants| ==> grants[k] == 0 }

  /** What stays true of a socket even after it was freed. */
  ghost predicate Fair(l: Local) { l.written <= l.accepted && Alternate(l.turns) && AllZero(l.grants) }

  /** What is true of a socket between callbacks. */
  ghost predicate Sound(l: Local) {
    && l.written + Concat(l.queue) == l.accepted && Alternate(l.turns) && AllZero(l.grants)
    && (l.wantWrite <==> l.queue != []) && (l.pendWrite ==> l.wantWrite)
    && (l.wantRead ==> l.turns != [] && l.turns[|l.turns| - 1] == Acked)
    && (l.closing ==> !l.wantRead && l.queue != []) && (!l.closing && l.pendRead ==> l.wantRead)
  }

  lemma SoundFair(l: Local)
    requires Sound(l)
    ensures Fair(l)
  {
  }

  ghost predicate Valid(d: Device) {
    Linked(d) && (forall r :: r in d.locals ==> Sound(d.locals[r])) && (forall r :: r in d.gone ==> Fair(d.gone[r]))
  }

  /** The socket r may be closed: it is already closing or has nothing queued, or else it is sound. */
  ghost predicate Closable(l: Local) { Fair(l) && (l.closing || l.queue == [] || Sound(l)) }

  /** Valid, except that the socket r need only be closable. */
  ghost predicate ValidBut(d: Device, r: Ref) {
    && Linked(d) && r in d.locals && Closable(d.locals[r])
    && (forall s :: s in d.locals && s != r ==> Sound(d.locals[s]))
    && (forall s :: s in d.gone ==> Fair(d.gone[s]))
  }

  /** The parts of a device that its links consist of. */
  ghost predicate SameLinks(d: Device, e: Device) {
    && d.locals.Keys == e.locals.Keys && d.remotes == e.remotes && d.live == e.live && d.closing == e.closing
    && d.nextId == e.nextId && d.nextRef == e.nextRef && d.online == e.online
    && forall r :: r in d.locals ==>
         e.locals[r].id == d.locals[r].id && e.locals[r].closing == d.locals[r].closing && e.locals[r].peer == d.locals[r].peer
  }

  lemma SameLinksLinked(d: Device, e: Device)
    requires Linked(d) && SameLinks(d, e)
    ensures Linked(e)
  {
    hide NoDup;
    assert forall x :: x in d.live ==> LiveOk(d, x);
    assert forall x, y :: SameId(e, x, y) ==> SameId(d, x, y);
  }

  lemma {:induction false} NoDupAppend(s: seq<Ref>, r: Ref)
    requires NoDup(s) && r !in s
    ensures NoDup(s + [r])
  {
    if s != [] {
      NoDupAppend(s[1..], r);
      assert (s + [r])[1..] == s[1..] + [r];
    }
  }

  lemma NoDupTail(refs: seq<Ref>)
    requires NoDup(refs) && refs != []
    ensures refs[0] !in refs[1..] && NoDup(refs[1..])
  {
  }

  lemma {:induction false} WithoutNone(refs: seq<Ref>, r: Ref)
    requires r !in refs
    ensures Without(refs, r) == refs
  {
    if refs != [] {
      WithoutNone(refs[1..], r);
    }
  }

  /** What closing the socket r does to the links. */
  ghost predicate Closed(d: Device, e: Device, r: Ref)
    requires r in d.locals
  {
    && e.live == Without(d.live, r)
    && e.nextId == d.nextId && e.nextRef == d.nextRef && e.online == d.online
    && (e.remotes == if d.locals[r].peer.Some? then d.remotes - {d.locals[r].peer.value} else d.remotes)
    && (forall x :: x in d.locals && x != r ==> x in e.locals && e.locals[x] == d.locals[x])
    && (forall x :: x in e.locals ==> x in d.locals)
    && (forall x :: x in e.closing ==> if x == r then r in e.locals else x in d.closing)
    && (forall x :: x in d.closing && x != r ==> x in e.closing)
    && (r in e.locals ==> r in e.closing && e.locals[r].closing && e.locals[r].peer.None? && e.locals[r].id == 0)
  }

  /** What closing the socket r does, part by part. */
  lemma CloseParts(d: Device, r: Ref)
    requires r in d.locals && Sighted(d, d.locals[r])
    ensures var e, l := CloseLocal(d, r), d.locals[r];
      && e.nextRef == d.nextRef && e.nextId == d.nextId && e.online == d.online && e.live == Without(d.live, r)
      && (e.remotes == if l.peer.Some? then d.remotes - {l.peer.value} else d.remotes)
      && if l.closing || l.queue == [] then
           e.locals == d.locals - {r} && e.closing == Without(d.closing, r) && e.gone == d.gone[r := l.(peer := None)]
         else
           && e.locals == d.locals[r := Arm(l.(peer := None, closing := true, id := 0), false, l.wantWrite)]
           && e.closing == Without(d.closing, r) + [r] && e.gone == d.gone
  {
    hide Without, Arm, NoDup, CloseRemote, Destroy;
    var l := d.locals[r];
    RemoteParts(d, l.peer);
    DestroyParts(if l.peer.Some? then CloseRemote(d, l.peer.value) else d, r, l.(peer := None));
  }

  lemma DestroyParts(d: Device, r: Ref, l: Local)
    requires r in d.locals
    ensures Destroy(Put(d, r, l), r) ==
      d.(locals := d.locals - {r}, live := Without(d.live, r), closing := Without(d.closing, r), gone := d.gone[r := l])
  {
    hide Without, NoDup;
    assert d.locals[r := l] - {r} == d.locals - {r};
  }

  lemma RemoteParts(d: Device, peer: Option<Ref>)
    requires peer.Some? ==> peer.value in d.remotes
    ensures peer.Some? ==> var e := CloseRemote(d, peer.value); e == d.(sent := e.sent, remotes := d.remotes - {peer.value})
  {
  }

  lemma CloseShape(d: Device, r: Ref)
    requires r in d.locals && Sighted(d, d.locals[r])
    ensures Closed(d, CloseLocal(d, r), r)
  {
    hide *;
    var l := d.locals[r];
    CloseParts(d, r);
    ArmLinks(l.(peer := None, closing := true, id := 0), l.wantWrite);
    ShapeOf(d, CloseLocal(d, r), r, Arm(l.(peer := None, closing := true, id := 0), false, l.wantWrite));
  }

  lemma ShapeOf(d: Device, e: Device, r: Ref, m: Local)
    requires r in d.locals && m.closing && m.peer.None? && m.id == 0
    requires e.nextRef == d.nextRef && e.nextId == d.nextId && e.online == d.online && e.live == Without(d.live, r)
    requires e.remotes == if d.locals[r].peer.Some? then d.remotes - {d.locals[r].peer.value} else d.remotes
    requires (e.locals == d.locals - {r} && e.closing == Without(d.closing, r)) ||
             (e.locals == d.locals[r := m] && e.closing == Without(d.closing, r) + [r])
    ensures Closed(d, e, r)
  {
    hide Without, NoDup;
  }

  lemma ArmLinks(l: Local, write: bool)
    ensures var a := Arm(l, false, write); a.peer == l.peer && a.closing == l.closing && a.id == l.id
  {
  }

  lemma CloseNoDup(d: Device, r: Ref)
    requires r in d.locals && Sighted(d, d.locals[r]) && NoDup(d.live) && NoDup(d.closing)
    ensures NoDup(CloseLocal(d, r).live) && NoDup(CloseLocal(d, r).closing)
  {
    hide NoDup, Arm, Without;
    NoDupAppend(Without(d.closing, r), r);
  }

  lemma ClosedLinks(d: Device, e: Device, r: Ref)
    requires Linked(d) && r in d.locals && Sighted(d, d.locals[r]) && Closed(d, e, r)
    ensures Lives(e) && Remotes(e)
  {
    hide NoDup, Without;
    forall x | x in e.live
      ensures LiveOk(e, x)
    {
      assert LiveOk(d, x);
    }
    forall q | q in e.remotes
      ensures RemoteOk(e, q)
    {
      assert RemoteOk(d, q);
    }
  }

  lemma ClosedLists(d: Device, e: Device, r: Ref)
    requires Linked(d) && r in d.locals && Sighted(d, d.locals[r]) && Closed(d, e, r)
    ensures Closings(e) && Listed(e) && UniqueIds(e) && (!e.online ==> e.live == [])
  {
    hide NoDup, Without;
    forall x | x in e.closing
      ensures ClosingOk(e, x)
    {
      assert x != r ==> ClosingOk(d, x);
    }
    forall x, y | x in e.live && y in e.live && SameId(e, x, y)
      ensures x == y
    {
      assert SameId(d, x, y);
    }
    assert d.live == [] ==> e.live == [] by { if d.live == [] { assert forall x :: x !in e.live; } }
  }

  /** Closing a socket, in whichever state, keeps the links symmetric. */
  lemma CloseLinked(d: Device, r: Ref)
    requires Linked(d) && r in d.locals && Sighted(d, d.locals[r])
    ensures Linked(CloseLocal(d, r))
  {
    var e := CloseLocal(d, r);
    hide NoDup, Without, CloseLocal, Closed, Lives, Remotes, Closings, Listed, UniqueIds, Sighted;
    CloseShape(d, r);
    CloseNoDup(d, r);
    ClosedLinks(d, e, r);
    ClosedLists(d, e, r);
  }

  lemma LinkedSighted(d: Device, r: Ref)
    requires Linked(d) && r in d.locals
    ensures Sighted(d, d.locals[r]) && (r in d.live <==> !d.locals[r].closing) && (r in d.live ==> LiveOk(d, r))
    ensures r in d.live ==> RemoteOk(d, d.locals[r].peer.value)
    ensures d.locals[r].peer.Some? ==> r in d.live
  {
    hide NoDup;
    assert r in d.live ==> LiveOk(d, r);
    assert r in d.closing ==> ClosingOk(d, r);
  }

  /** A socket moved to the closing list is sound there. */
  lemma ClosingSound(l: Local)
    requires Sound(l) && !l.closing && l.queue != []
    ensures Sound(Arm(l.(peer := None, closing := true, id := 0), false, l.wantWrite))
  {
    hide Concat;
  }

  lemma CloseKeeps(d: Device, r: Ref)
    requires ValidBut(d, r) && Sighted(d, d.locals[r])
    ensures Valid(CloseLocal(d, r))
  {
    var e, l := CloseLocal(d, r), d.locals[r];
    CloseLinked(d, r);
    hide Linked, Arm, Without, Sound, Alternate, AllZero;
    if l.closing || l.queue == [] {
      assert e.gone == d.gone[r := l.(peer := None)];
    } else {
      ClosingSound(l);
    }
  }

  lemma PutLinked(d: Device, r: Ref, l: Local, sent: seq<Packet>)
    requires Linked(d) && r in d.locals && SameEnds(d.locals[r], l)
    ensures Linked(Put(d, r, l).(sent := sent))
  {
    hide Linked;
    SameLinksLinked(d, Put(d, r, l).(sent := sent));
  }

  /** Changing one socket and sending packets, with its links as they were. */
  lemma PutKeeps(d: Device, r: Ref, l: Local, sent: seq<Packet>)
    requires Valid(d) && r in d.locals && Sound(l) && SameEnds(d.locals[r], l)
    ensures Valid(Put(d, r, l).(sent := sent))
  {
    PutLinked(d, r, l, sent);
    hide Linked, Sound, Fair, SameEnds;
  }

  lemma PutClosable(d: Device, r: Ref, l: Local, sent: seq<Packet>)
    requires Valid(d) && r in d.locals && Closable(l) && SameEnds(d.locals[r], l)
    ensures ValidBut(Put(d, r, l).(sent := sent), r)
  {
    PutLinked(d, r, l, sent);
    hide Linked, Sound, Fair, Closable, SameEnds;
  }

  lemma QueuedSound(l: Local, p: seq<Byte>)
    requires Sound(l)
    ensures Sound(Queued(l, p))
  {
    ConcatAppend(l.queue, p);
    Reappend(l.written, Concat(l.queue), p);
    hide Concat;
  }

  lemma PushedSound(l: Local, p: seq<Byte>, rest: seq<Byte>)
    requires Sound(l) && l.queue == [] && !l.closing && |rest| <= |p| && rest == p[|p| - |rest|..]
    ensures var m := Pushed(l, p, rest);
      Closable(m) && (rest == [] ==> Sound(Granted(m))) && (rest != [] ==> Sound(Held(m, rest)))
  {
    var done := p[..|p| - |rest|];
    assert done + rest == p;
    Reappend(l.written, done, rest);
    assert l.written == l.accepted;
    assert l.written + done <= l.accepted + p;
    ConcatFirst(rest, []);
    assert [rest] + [] == [rest];
  }

  lemma PushSuffix(p: seq<Byte>, answers: seq<Answer>)
    ensures var rest := Push(p, answers).0; |rest| <= |p| && rest == p[|p| - |rest|..]
  {
    hide Push;
    var rest := Push(p, answers).0;
    var n: nat :| n <= |p| && rest == p[n..];
  }

  lemma EnqueueKeeps(d: Device, r: Ref, p: seq<Byte>, remote: nat, answers: seq<Answer>)
    requires Valid(d) && r in d.live && r in d.locals && Sighted(d, d.locals[r])
    ensures Valid(Enqueue(d, r, p, remote, answers))
  {
    hide Linked, Sound, Push, CloseLocal, Queued, Pushed, Held, Granted, Closable, ValidBut;
    var l := d.locals[r];
    LinkedSighted(d, r);
    if l.queue != [] {
      QueuedSound(l, p);
      PutKeeps(d, r, Queued(l, p), d.sent);
    } else {
      var (rest, failed) := Push(p, answers);
      PushSuffix(p, answers);
      PushedSound(l, p, rest);
      var m := Pushed(l, p, rest);
      if failed {
        PutClosable(d, r, m, d.sent);
        CloseKeeps(Put(d, r, m), r);
      } else if rest == [] {
        PutKeeps(d, r, Granted(m), d.sent + [Okay(l.id, remote)]);
      } else {
        PutKeeps(d, r, Held(m, rest), d.sent);
      }
    }
  }

  lemma FlushedSound(l: Local, answers: seq<Answer>)
    requires Sound(l) && l.pendWrite == false
    ensures var w := Drain(l.queue, answers, []); var m := Flushed(l, w);
      && Closable(m) && (w.end == Blocked ==> Sound(m))
      && (w.end == Emptied && !l.closing ==> Sound(Granted(Arm(m, m.wantRead, false))))
  {
    var w := Drain(l.queue, answers, []);
    DrainMoves(l.queue, answers, []);
    assert [] + Concat(l.queue) == Concat(l.queue);
    Reappend(l.written, w.out, Concat(w.left));
    hide Drain, Concat;
  }

  lemma SpokenSound(l: Local)
    requires Sound(l) && l.wantRead && !l.pendRead
    ensures Sound(Spoken(l))
  {
    hide Concat;
  }

  lemma ReadySound(l: Local)
    requires Sound(l) && !l.closing
    ensures Sound(Ready(l))
  {
    hide Concat;
  }

  lemma WritePartKeeps(d: Device, r: Ref, answers: seq<Answer>)
    requires Valid(d) && r in d.locals && Sighted(d, d.locals[r]) && (!d.locals[r].closing ==> d.locals[r].peer.Some?)
    requires !d.locals[r].pendWrite
    ensures Valid(WritePart(d, r, answers).0)
  {
    hide Linked, Sound, Drain, CloseLocal, Flushed, Granted, Closable, ValidBut, Arm;
    var l := d.locals[r];
    var w := Drain(l.queue, answers, []);
    var m := Flushed(l, w);
    FlushedSound(l, answers);
    if w.end == Blocked {
      PutKeeps(d, r, m, d.sent);
    } else if w.end == Broken || l.closing {
      PutClosable(d, r, m, d.sent);
      CloseKeeps(Put(d, r, m), r);
    } else {
      PutKeeps(d, r, Granted(Arm(m, m.wantRead, false)), d.sent + [Okay(l.id, d.remotes[l.peer.value].id)]);
    }
  }

  lemma ReadPartKeeps(d: Device, r: Ref, inputs: seq<Input>)
    requires Valid(d) && r in d.locals && Sighted(d, d.locals[r]) && (!d.locals[r].closing ==> d.locals[r].wantRead && !d.locals[r].pendRead)
    ensures Valid(ReadPart(d, r, inputs))
  {
    hide Linked, Sound, Gather, CloseLocal, Spoken, Closable;
    var l := d.locals[r];
    LinkedSighted(d, r);
    var (data, eof) := Gather(MAX_PAYLOAD, inputs);
    if data == [] || l.peer.None? {
      SoundClosable(d, r);
      if eof { CloseKeeps(d, r); }
    } else {
      SpokenSound(l);
      var e := Put(d, r, Spoken(l)).(sent := d.sent + [Wrte(l.id, d.remotes[l.peer.value].id, data)]);
      PutKeeps(d, r, Spoken(l), d.sent + [Wrte(l.id, d.remotes[l.peer.value].id, data)]);
      SoundClosable(e, r);
      if eof { CloseKeeps(e, r); }
    }
  }

  lemma SoundClosable(d: Device, r: Ref)
    requires Valid(d) && r in d.locals
    ensures ValidBut(d, r)
  {
    hide Linked, Concat;
    SoundFair(d.locals[r]);
  }

  // ----- The protocol step -----

  /** remote_socket_disconnect, for the peer of the socket r: the remote socket goes without a word. */
  function Disconnect(d: Device, r: Ref): Device
    requires Linked(d) && r in d.live
  {
    LinkedSighted(d, r);
    var l := d.locals[r];
    CloseLocal(d.(locals := d.locals[r := l.(peer := None)]), r).(remotes := d.remotes - {l.peer.value})
  }

  lemma DisconnectCloses(d: Device, r: Ref)
    requires Linked(d) && r in d.live
    ensures r in d.locals && Sighted(d, d.locals[r]) && Disconnect(d, r) == CloseLocal(d, r).(sent := d.sent)
  {
    LinkedSighted(d, r);
    hide Linked, Without, Arm, Sighted;
    var l, m := d.locals[r], d.locals[r].(peer := None);
    var m' := Arm(m.(closing := true, id := 0), false, l.wantWrite);
    assert d.locals[r := m][r := m] == d.locals[r := m] && d.locals[r := m][r := m'] == d.locals[r := m'];
  }

  lemma DisconnectKeeps(d: Device, r: Ref)
    requires Valid(d) && r in d.live
    ensures Valid(Disconnect(d, r)) && Disconnect(d, r).live == Without(d.live, r)
  {
    DisconnectCloses(d, r);
    SoundClosable(d, r);
    CloseKeeps(d, r);
    CloseShape(d, r);
    Resent(CloseLocal(d, r), d.sent);
    hide Disconnect, CloseLocal, Valid, Without;
  }

  lemma Resent(d: Device, sent: seq<Packet>)
    requires Valid(d)
    ensures Valid(d.(sent := sent))
  {
    SameLinksLinked(d, d.(sent := sent));
    hide Linked, Sound, Fair;
  }

  /** handle_offline: every remote socket of the transport is disconnected. */
  function Offline(d: Device): (e: Device)
    requires Valid(d)
    ensures Valid(e) && e.live == [] && e.sent == d.sent
    decreases |d.live|
  {
    if d.live == [] then d
    else
      DisconnectKeeps(d, d.live[0]);
      DisconnectCloses(d, d.live[0]);
      Offline(Disconnect(d, d.live[0]))
  }

  /** close_all_sockets, on the only transport. */
  function CloseAll(d: Device): (e: Device)
    requires Valid(d)
    ensures Valid(e) && e.live == []
    decreases |d.live|
  {
    if d.live == [] then d
    else
      var r := d.live[0];
      assert LiveOk(d, r);
      LinkedSighted(d, r);
      SoundClosable(d, r);
      CloseKeeps(d, r);
      CloseShape(d, r);
      CloseAll(CloseLocal(d, r))
  }

  /** The OPEN step: a socket for the service is linked to a remote one, announced, and made to read. */
  function Accept(d: Device, remote: nat): Device {
    var r := d.nextRef;
    var e := Connect(d, remote);
    Put(Send(e, Okay(d.nextId, remote)), r, Ready(Granted(e.locals[r])))
  }

  lemma ConnectLinked(d: Device, remote: nat)
    requires Linked(d) && d.online
    ensures Linked(Connect(d, remote))
  {
    hide NoDup, Closings, Listed, UniqueIds, LiveOk, RemoteOk;
    NewRefs(d);
    NoDupAppend(d.live, d.nextRef);
    ConnectLists(d, remote);
    ConnectEnds(d, remote);
  }

  lemma NewRefs(d: Device)
    requires Linked(d)
    ensures d.nextRef !in d.locals && d.nextRef !in d.live && d.nextRef !in d.remotes && d.nextRef + 1 !in d.remotes
  {
    hide NoDup;
    assert forall x :: x in d.live ==> LiveOk(d, x);
    assert forall q :: q in d.remotes ==> RemoteOk(d, q);
  }

  lemma ConnectEnds(d: Device, remote: nat)
    requires Linked(d) && d.nextRef !in d.locals && d.nextRef + 1 !in d.remotes
    ensures Lives(Connect(d, remote)) && Remotes(Connect(d, remote))
  {
    hide NoDup;
    var r, e := d.nextRef, Connect(d, remote);
    forall x | x in e.live
      ensures LiveOk(e, x)
    {
      assert x != r ==> LiveOk(d, x);
    }
    forall q | q in e.remotes
      ensures RemoteOk(e, q)
    {
      assert q != r + 1 ==> RemoteOk(d, q);
    }
  }

  lemma ConnectLists(d: Device, remote: nat)
    requires Linked(d) && d.nextRef !in d.locals
    ensures Closings(Connect(d, remote)) && Listed(Connect(d, remote)) && UniqueIds(Connect(d, remote))
  {
    hide NoDup;
    var r, e := d.nextRef, Connect(d, remote);
    forall x | x in e.closing
      ensures ClosingOk(e, x)
    {
      assert ClosingOk(d, x);
    }
    forall x, y | x in e.live && y in e.live && SameId(e, x, y)
      ensures x == y
    {
      assert x != r ==> LiveOk(d, x);
      assert y != r ==> LiveOk(d, y);
      assert x != r && y != r ==> SameId(d, x, y);
    }
  }

  lemma NewSound(l: Local)
    requires l == Local(l.id, false, l.peer, [], false, false, false, false, [], [], [], [])
    ensures Sound(l) && Sound(Granted(l)) && !Granted(l).closing
  {
  }

  lemma ReadyEnds(l: Local)
    ensures SameEnds(l, Ready(Granted(l)))
  {
    hide Arm;
  }

  lemma AcceptKeeps(d: Device, remote: nat)
    requires Valid(d) && d.online
    ensures Valid(Accept(d, remote))
  {
    hide Linked, Sound, Fair, Ready, Granted, SameEnds;
    var r, e := d.nextRef, Connect(d, remote);
    ConnectLinked(d, remote);
    NewSound(e.locals[r]);
    ReadySound(Granted(e.locals[r]));
    assert SameEnds(e.locals[r], Ready(Granted(e.locals[r]))) by { ReadyEnds(e.locals[r]); }
    PutKeeps(e, r, Ready(Granted(e.locals[r])), d.sent + [Okay(d.nextId, remote)]);
  }

  /** The socket a packet is for. Such a socket has a peer: the branch that would give it one is never taken. */
  function Addressed(d: Device, id: nat): (r: Option<Ref>)
    requires Valid(d)
    ensures r.Some? ==> r.value in d.live && LiveOk(d, r.value) && d.locals[r.value].id == id && Sighted(d, d.locals[r.value])
    ensures r.None? && d.online ==> forall x :: x in d.live ==> x in d.locals && d.locals[x].id != id
  {
    assert forall x :: x in d.live ==> LiveOk(d, x);
    if d.online then Find(d, id, 0) else None
  }

  /** handle_packet. Whether the service of an OPEN can be started, and what the descriptor answers, comes from outside. */
  function HandlePacket(d: Device, p: Packet, opens: bool, answers: seq<Answer>): (e: Device)
    requires Valid(d)
  {
    match p
    case Sync(on) => if on then Send(d, p) else Send(Offline(d).(online := false), p)
    case Cnxn => Send((if d.online then Offline(d) else d).(online := true), Cnxn)
    case Open(remote) =>
      if !d.online then d else if !opens then Send(d, Clse(0, remote)) else Accept(d, remote)
    case Okay(_, id) => var r := Addressed(d, id); if r.None? then d else Put(d, r.value, Ready(d.locals[r.value]))
    case Clse(_, id) => var r := Addressed(d, id); if r.None? then d else CloseLocal(d, r.value)
    case Wrte(remote, id, data) => var r := Addressed(d, id); if r.None? then d else Enqueue(d, r.value, data, remote, answers)
  }

  lemma SwitchKeeps(d: Device, online: bool, sent: seq<Packet>)
    requires Valid(d) && (online || d.live == [])
    ensures Valid(d.(online := online, sent := sent))
  {
    hide NoDup, Sound, Fair;
    var e := d.(online := online, sent := sent);
    assert forall x :: x in d.live ==> LiveOk(d, x);
    assert forall x, y :: SameId(e, x, y) ==> SameId(d, x, y);
  }

  lemma HandleKeeps(d: Device, p: Packet, opens: bool, answers: seq<Answer>)
    requires Valid(d)
    ensures Valid(HandlePacket(d, p, opens, answers))
  {
    hide Valid, Linked, Sound, Offline, Accept, Ready, CloseLocal, Enqueue, Find, Sighted, Addressed;
    match p
    case Sync(on) =>
      if on { Resent(d, d.sent + [p]); } else { SwitchKeeps(Offline(d), false, d.sent + [p]); }
    case Cnxn =>
      SwitchKeeps(if d.online then Offline(d) else d, true, d.sent + [p]);
    case Open(remote) =>
      if d.online {
        if opens { AcceptKeeps(d, remote); } else { Resent(d, d.sent + [Clse(0, remote)]); }
      }
    case Okay(_, id) =>
      var r := Addressed(d, id);
      if r.Some? { ReadyKeeps(d, r.value); }
    case Clse(_, id) =>
      var r := Addressed(d, id);
      if r.Some? { SoundClosable(d, r.value); CloseKeeps(d, r.value); }
    case Wrte(remote, id, data) =>
      var r := Addressed(d, id);
      if r.Some? { EnqueueKeeps(d, r.value, data, remote, answers); }
  }

  lemma ReadyKeeps(d: Device, r: Ref)
    requires Valid(d) && r in d.live && LiveOk(d, r)
    ensures Valid(Put(d, r, Ready(d.locals[r])))
  {
    ReadySound(d.locals[r]);
    hide Linked, Sound, Ready;
    PutKeeps(d, r, Ready(d.locals[r]), d.sent);
  }

  // ----- Events -----

  /** fdevent_process finds the descriptor ready for some of the events wanted of it. */
  function Notice(d: Device, r: Ref, read: bool, write: bool): Device
    requires r in d.locals && (read ==> d.locals[r].wantRead) && (write ==> d.locals[r].wantWrite)
  {
    var l := d.locals[r];
    Put(d, r, l.(pendRead := l.pendRead || read, pendWrite := l.pendWrite || write))
  }

  /** Which sockets have an event pending. */
  predicate Pending(d: Device, r: Ref) {
    r in d.locals && (d.locals[r].pendRead || d.locals[r].pendWrite)
  }

  /** fdevent_call_fdfunc takes the pending events of a socket, and local_socket_event_func handles them. */
  function Dispatch(d: Device, r: Ref, answers: seq<Answer>, inputs: seq<Input>): Device
    requires Valid(d) && Pending(d, r)
  {
    var l := d.locals[r];
    LinkedSighted(d, r);
    var e := Taken(d, r);
    var (e1, on) := if l.pendWrite then WritePart(e, r, answers) else (e, true);
    if on && l.pendRead then
      assert r in e1.locals && Sighted(e1, e1.locals[r]);
      ReadPart(e1, r, inputs)
    else e1
  }

  /** The pending events of a socket are taken off it. */
  function Taken(d: Device, r: Ref): (e: Device)
    requires r in d.locals
    ensures r in e.locals && SameEnds(d.locals[r], e.locals[r]) && e.remotes == d.remotes
  {
    Put(d, r, d.locals[r].(pendRead := false, pendWrite := false))
  }

  lemma TakenKeeps(d: Device, r: Ref)
    requires Valid(d) && r in d.locals
    ensures Valid(Taken(d, r))
  {
    assert Sound(Taken(d, r).locals[r]) by { hide Linked, Concat; }
    hide Linked, Sound;
    PutKeeps(d, r, Taken(d, r).locals[r], d.sent);
  }

  lemma NoticeKeeps(d: Device, r: Ref, read: bool, write: bool)
    requires Valid(d) && r in d.locals && (read ==> d.locals[r].wantRead) && (write ==> d.locals[r].wantWrite)
    ensures Valid(Notice(d, r, read, write))
  {
    assert Sound(Notice(d, r, read, write).locals[r]) by { hide Linked, Concat; }
    hide Linked, Sound;
    PutKeeps(d, r, Notice(d, r, read, write).locals[r], d.sent);
  }

  lemma DispatchKeeps(d: Device, r: Ref, answers: seq<Answer>, inputs: seq<Input>)
    requires Valid(d) && Pending(d, r)
    ensures Valid(Dispatch(d, r, answers, inputs))
  {
    hide Linked, Sound, WritePart, ReadPart, Valid, Sighted;
    LinkedOf(d);
    LinkedSighted(d, r);
    PendingMeans(d, r);
    TakenKeeps(d, r);
    var l, e := d.locals[r], Taken(d, r);
    LinkedOf(e);
    LinkedSighted(e, r);
    if l.pendWrite {
      WritePartKeeps(e, r, answers);
      WriteStays(e, r, answers);
    }
    var (e1, on) := if l.pendWrite then WritePart(e, r, answers) else (e, true);
    if on && l.pendRead {
      EventsTaken(d, r, answers);
      LinkedOf(e1);
      LinkedSighted(e1, r);
      ReadPartKeeps(e1, r, inputs);
    }
  }

  /** After the writing part, no read is pending. */
  lemma EventsTaken(d: Device, r: Ref, answers: seq<Answer>)
    requires r in d.locals && Sighted(d, d.locals[r]) && (!d.locals[r].closing ==> d.locals[r].peer.Some?)
    ensures var (e, on) := WritePart(Taken(d, r), r, answers); on ==> r in e.locals && !e.locals[r].pendRead
  {
    hide Drain, CloseLocal;
  }

  lemma PendingMeans(d: Device, r: Ref)
    requires Valid(d) && r in d.locals
    ensures var l := d.locals[r]; (l.pendWrite ==> l.queue != []) && (l.pendRead && !l.closing ==> l.wantRead)
  {
    hide Linked, Concat;
  }

  lemma LinkedOf(d: Device)
    requires Valid(d)
    ensures Linked(d)
  {
    hide Linked, Sound, Fair;
  }

  // ----- Whole runs, with any peer at all -----

  datatype Op =
    | Arrives(p: Packet, opens: bool, answers: seq<Answer>)
    | Noticed(r: Ref, read: bool, write: bool)
    | Dispatched(r: Ref, answers: seq<Answer>, inputs: seq<Input>)
    | AllClosed

  /** One operation; an event that cannot occur when its turn comes is passed over. */
  function Next(d: Device, op: Op): (e: Device)
    requires Valid(d)
    ensures Valid(e)
  {
    match op
    case Arrives(p, opens, answers) => HandleKeeps(d, p, opens, answers); HandlePacket(d, p, opens, answers)
    case Noticed(r, read, write) =>
      if r in d.locals && (read ==> d.locals[r].wantRead) && (write ==> d.locals[r].wantWrite) then
        NoticeKeeps(d, r, read, write); Notice(d, r, read, write)
      else d
    case Dispatched(r, answers, inputs) =>
      if Pending(d, r) then DispatchKeeps(d, r, answers, inputs); Dispatch(d, r, answers, inputs) else d
    case AllClosed => CloseAll(d)
  }

  /** The device after any sequence of packets and events. */
  function Driven(ops: seq<Op>): (d: Device)
    ensures Valid(d)
    decreases |ops|
  {
    if ops == [] then Device(map[], map[], [], [], 1, 0, false, [], map[]) else Next(Driven(ops[..|ops| - 1]), ops[|ops| - 1])
  }

  lemma DrivenNext(ops: seq<Op>)
    ensures if ops == [] then Driven(ops).gone == map[] else Driven(ops) == Next(Driven(ops[..|ops| - 1]), ops[|ops| - 1])
  {
    hide Next;
  }

  /**
   * Whatever the peer sends: of every socket, live or closing, what its descriptor took and what is queued are together
   * the payloads accepted, in order; each OKAY sent for it was sent with nothing queued; and before each WRTE sent for
   * it stands an acknowledgement or the opening of the connection, with no other WRTE between.
   */
  lemma NothingLost(ops: seq<Op>, r: Ref)
    requires r in Driven(ops).locals
    ensures var l := Driven(ops).locals[r];
      && l.written + Concat(l.queue) == l.accepted
      && (forall k :: 0 <= k < |l.grants| ==> l.grants[k] == 0)
      && (forall k :: 0 <= k < |l.turns| && l.turns[k] == Sent ==> k > 0 && l.turns[k - 1] == Acked)
  {
    hide Driven, Linked;
    assert Valid(Driven(ops));
  }

  /** Of a socket that was freed, the same, except that bytes still queued then are dropped. */
  lemma OnlyTheRestIsDropped(ops: seq<Op>, r: Ref)
    requires r in Driven(ops).gone
    ensures var l := Driven(ops).gone[r]; l.written <= l.accepted && AllZero(l.grants) && Alternate(l.turns)
  {
    hide Driven, Linked, AllZero, Alternate;
    assert Valid(Driven(ops));
  }

  /** Whatever the order of closing: every link between a local and a remote socket goes both ways, and only live sockets have one. */
  lemma PeersAgree(ops: seq<Op>)
    ensures var d := Driven(ops);
      && (forall r :: r in d.locals && d.locals[r].peer.Some? ==>
            r in d.live && d.locals[r].peer.value in d.remotes && d.remotes[d.locals[r].peer.value].peer == Some(r))
      && (forall q :: q in d.remotes ==>
            d.remotes[q].peer.Some? && d.remotes[q].peer.value in d.locals && d.locals[d.remotes[q].peer.value].peer == Some(q))
      && (forall r :: r in d.locals ==> (r in d.live <==> d.locals[r].peer.Some?) && (r in d.live <==> r !in d.closing))
  {
    var d := Driven(ops);
    hide Driven, Sound, Fair, NoDup;
    assert forall r :: r in d.live ==> LiveOk(d, r);
    assert forall r :: r in d.closing ==> ClosingOk(d, r);
    assert forall q :: q in d.remotes ==> RemoteOk(d, q);
  }
}
