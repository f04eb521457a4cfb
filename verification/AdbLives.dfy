/** Which sockets of the debug bridge are open, said from the packets that arrive and the answers of the descriptors. */
module AdbLives {
  import opened Bytes
  import opened AdbSockets
  import opened AdbStreams
  import opened AdbSent

  /** The socket has the ids at both ends that it had. */
  predicate SameLine(d: Device, e: Device, x: Ref) {
    x in d.locals && x in e.locals && e.locals[x].id == d.locals[x].id && Far(e, x) == Far(d, x)
  }

  /** The live sockets stay, but for those that are closed. */
  ghost predicate Stays(d: Device, e: Device, closed: set<Ref>) {
    && (forall x :: x in e.live <==> x in d.live && x !in closed)
    && (forall x :: x in e.live ==> SameLine(d, e, x))
  }

  lemma StaysTwice(d: Device, e: Device, f: Device, a: set<Ref>, b: set<Ref>)
    requires Stays(d, e, a) && Stays(e, f, b)
    ensures Stays(d, f, a + b)
  {
    hide Far;
  }

  lemma SelfStays(d: Device)
    requires Linked(d)
    ensures Stays(d, d, {})
  {
    hide Linked, Far;
    LiveLocal(d);
  }

  lemma SwitchStays(d: Device, e: Device, online: bool, sent: seq<Packet>, closed: set<Ref>)
    requires Stays(d, e, closed)
    ensures Stays(d, e.(online := online, sent := sent), closed)
  {
  }

  function All(d: Device): set<Ref> { set x | x in d.live }

  /** When all are closed. */
  lemma NoneStays(d: Device, e: Device)
    requires e.live == []
    ensures Stays(d, e, All(d))
  {
  }

  lemma PutStays(d: Device, r: Ref, l: Local, sent: seq<Packet>)
    requires Linked(d) && r in d.locals && SameEnds(d.locals[r], l)
    ensures Stays(d, Put(d, r, l).(sent := sent), {})
  {
    SelfStays(d);
    hide Linked;
  }

  lemma CloseStays(d: Device, r: Ref)
    requires Linked(d) && r in d.locals && Sighted(d, d.locals[r])
    ensures Stays(d, CloseLocal(d, r), {r})
  {
    hide *;
    var e := CloseLocal(d, r);
    LiveLocal(d);
    CloseShape(d, r);
    forall x | x in d.live && x != r
      ensures Far(e, x) == Far(d, x)
    {
      CloseFar(d, r, x);
    }
    ClosedStays(d, e, r);
  }

  lemma LiveLocal(d: Device)
    requires Linked(d)
    ensures forall x :: x in d.live ==> x in d.locals
  {
    hide NoDup;
    assert forall x :: x in d.live ==> LiveOk(d, x);
  }

  lemma ClosedStays(d: Device, e: Device, r: Ref)
    requires r in d.locals && Closed(d, e, r) && forall x :: x in d.live ==> x in d.locals
    requires forall x :: x in d.live && x != r ==> Far(e, x) == Far(d, x)
    ensures Stays(d, e, {r})
  {
    hide Far, NoDup;
  }

  lemma PutCloseStays(d: Device, r: Ref, l: Local, sent: seq<Packet>)
    requires Linked(d) && r in d.locals && SameEnds(d.locals[r], l)
    ensures var e := Put(d, r, l).(sent := sent); Sighted(e, l) && Stays(d, CloseLocal(e, r), {r})
  {
    hide Linked, CloseLocal, Stays;
    var e := Put(d, r, l).(sent := sent);
    PutFar(d, r, l, sent);
    PutStays(d, r, l, sent);
    CloseStays(e, r);
    StaysTwice(d, e, CloseLocal(e, r), {}, {r});
    assert {} + {r} == {r};
  }

  /** A write fails with some of the payload unwritten. */
  predicate Rejects(p: seq<Byte>, answers: seq<Answer>) { Takes(answers) < |p| && Breaks(Stop(answers)) }

  lemma EnqueueStays(d: Device, r: Ref, p: seq<Byte>, remote: nat, answers: seq<Answer>)
    requires Linked(d) && r in d.locals && Sighted(d, d.locals[r])
    ensures Stays(d, Enqueue(d, r, p, remote, answers), if d.locals[r].queue == [] && Rejects(p, answers) then {r} else {})
  {
    hide Linked, Sighted, Push, CloseLocal, Queued, Pushed, Held, Granted, Stays, Takes, Stop, Breaks;
    var l := d.locals[r];
    if l.queue != [] {
      PutStays(d, r, Queued(l, p), d.sent);
    } else {
      PushTakes(p, answers);
      var rest := Push(p, answers).0;
      var m := Pushed(l, p, rest);
      PutCloseStays(d, r, m, d.sent);
      PutStays(d, r, Granted(m), d.sent + [Okay(l.id, remote)]);
      PutStays(d, r, Held(m, rest), d.sent);
    }
  }

  lemma ReadStays(d: Device, r: Ref, inputs: seq<Input>)
    requires Linked(d) && r in d.locals && Sighted(d, d.locals[r])
    ensures Stays(d, ReadPart(d, r, inputs), if Over(inputs) then {r} else {})
  {
    hide Linked, Sighted, Gather, CloseLocal, Spoken, Stays, Yields, Ends;
    GatherTakes(MAX_PAYLOAD, inputs);
    var l := d.locals[r];
    LiveFar(d, r);
    SelfStays(d);
    CloseStays(d, r);
    var wrte := Wrte(l.id, if l.peer.Some? then d.remotes[l.peer.value].id else 0, Gather(MAX_PAYLOAD, inputs).0);
    PutStays(d, r, Spoken(l), d.sent + [wrte]);
    PutCloseStays(d, r, Spoken(l), d.sent + [wrte]);
  }

  lemma DrainStays(d: Device, r: Ref, answers: seq<Answer>)
    requires Linked(d) && r in d.locals && Sighted(d, d.locals[r]) && (!d.locals[r].closing ==> d.locals[r].peer.Some?)
    ensures var end := Drain(d.locals[r].queue, answers, []).end;
      Stays(d, WritePart(d, r, answers).0, if end == Broken || (end == Emptied && d.locals[r].closing) then {r} else {})
  {
    hide Linked, Sighted, Drain, CloseLocal, Flushed, Granted, Arm, Stays;
    LiveFar(d, r);
    var l := d.locals[r];
    var m := Flushed(l, Drain(l.queue, answers, []));
    PutStays(d, r, m, d.sent);
    PutCloseStays(d, r, m, d.sent);
    PutStays(d, r, Granted(Arm(m, m.wantRead, false)), d.sent + [Okay(l.id, if l.peer.Some? then d.remotes[l.peer.value].id else 0)]);
  }

  /** Serving its events closes the live socket r: writing fails, or it is read and has ended. */
  predicate Finishes(d: Device, r: Ref, answers: seq<Answer>, inputs: seq<Input>)
    requires r in d.locals
  {
    var l := d.locals[r];
    var end := if l.pendWrite then Drain(l.queue, answers, []).end else Emptied;
    end == Broken || (end == Emptied && l.pendRead && Over(inputs))
  }

  lemma ServeStays(d: Device, r: Ref, answers: seq<Answer>, inputs: seq<Input>)
    requires Valid(d) && Pending(d, r)
    ensures r in d.locals && (r in d.live ==> Stays(d, Dispatch(d, r, answers, inputs), if Finishes(d, r, answers, inputs) then {r} else {}))
    ensures r !in d.live ==> Stays(d, Dispatch(d, r, answers, inputs), {r})
  {
    hide Linked, Sound, WritePart, ReadPart, Valid, Sighted, Stays, Drain, Over;
    LinkedOf(d);
    LinkedSighted(d, r);
    TakenKeeps(d, r);
    LiveFar(d, r);
    var l, e := d.locals[r], Taken(d, r);
    LinkedOf(e);
    LinkedSighted(e, r);
    PutStays(d, r, l.(pendRead := false, pendWrite := false), d.sent);
    var a, b: set<Ref> := {}, {};
    if l.pendWrite {
      WriteSays(e, r, answers);
      WriteStays(e, r, answers);
      DrainStays(e, r, answers);
      var end := Drain(l.queue, answers, []).end;
      a := if end == Broken || (end == Emptied && l.closing) then {r} else {};
      StaysTwice(d, e, WritePart(e, r, answers).0, {}, a);
      assert {} + a == a;
    }
    var (f, on) := if l.pendWrite then WritePart(e, r, answers) else (e, true);
    assert Stays(d, f, a) && a + {} == a;
    if on && l.pendRead {
      LinkedSighted(f, r);
      ReadStays(f, r, inputs);
      b := if Over(inputs) then {r} else {};
      StaysTwice(d, f, ReadPart(f, r, inputs), a, b);
    }
    assert Stays(d, Dispatch(d, r, answers, inputs), a + b);
    if r !in d.live {
      Anyway(d, Dispatch(d, r, answers, inputs), a + b, r);
    } else {
      assert a + b == if Finishes(d, r, answers, inputs) then {r} else {};
    }
  }

  /** A socket that is not live is not closed again. */
  lemma Anyway(d: Device, e: Device, closed: set<Ref>, r: Ref)
    requires r !in d.live && Stays(d, e, closed) && closed <= {r}
    ensures Stays(d, e, {r})
  {
    hide SameLine;
  }

  /** An OPEN that can be served gives the next socket the next id, and the far end's. */
  predicate Opens(d: Device, op: Op, x: Ref) { op.Arrives? && op.p.Open? && op.opens && d.online && x == d.nextRef }

  /** An operation closes the live socket x. */
  predicate Closes(d: Device, op: Op, x: Ref) {
    match op
    case Arrives(p, _, answers) => (
      match p
      case Sync(on) => !on
      case Cnxn => d.online
      case Clse(_, id) => Names(d, id, x)
      case Wrte(_, id, data) => Names(d, id, x) && d.locals[x].queue == [] && Rejects(data, answers)
      case _ => false
    )
    case Noticed(_, _, _) => false
    case Dispatched(r, answers, inputs) => r == x && Pending(d, r) && Finishes(d, r, answers, inputs)
    case AllClosed => true
  }

  /** What an operation means for the socket x. */
  ghost predicate Turns(d: Device, op: Op, e: Device, x: Ref) {
    && (x in e.live <==> (x in d.live && !Closes(d, op, x)) || Opens(d, op, x))
    && (x in d.live && x in e.live ==> SameLine(d, e, x))
    && (Opens(d, op, x) ==> x in e.locals && e.locals[x].id == d.nextId && Far(e, x) == op.p.local)
  }

  lemma StaysTurns(d: Device, op: Op, e: Device, closed: set<Ref>, x: Ref)
    requires Stays(d, e, closed) && !Opens(d, op, x) && (x in d.live ==> (x in closed <==> Closes(d, op, x)))
    ensures Turns(d, op, e, x)
  {
    hide Closes, Opens, SameLine;
  }

  lemma AcceptTurns(d: Device, remote: nat, answers: seq<Answer>, x: Ref)
    requires Linked(d) && d.online
    ensures Turns(d, Arrives(Open(remote), true, answers), Accept(d, remote), x)
  {
    hide Linked, Ready, Granted;
    NewRefs(d);
    SelfStays(d);
    AcceptFar(d, remote, x);
  }

  lemma AcceptFar(d: Device, remote: nat, x: Ref)
    requires Linked(d)
    ensures var e := Accept(d, remote);
      && e.live == d.live + [d.nextRef] && d.nextRef in e.locals && e.locals[d.nextRef].id == d.nextId && Far(e, d.nextRef) == remote
      && (x in d.live ==> x != d.nextRef && SameLine(d, e, x))
  {
    hide Ready, Granted, NoDup;
    NewRefs(d);
    if x in d.live {
      assert LiveOk(d, x);
    }
  }

  lemma PacketTurns(d: Device, p: Packet, opens: bool, answers: seq<Answer>, x: Ref)
    requires Valid(d)
    ensures Turns(d, Arrives(p, opens, answers), HandlePacket(d, p, opens, answers), x)
  {
    hide Valid, Linked, Offline, Accept, CloseLocal, Enqueue, Sighted, Addressed, Ready, Stays, Turns, Names, Rejects;
    LinkedOf(d);
    SelfStays(d);
    var op, e := Arrives(p, opens, answers), HandlePacket(d, p, opens, answers);
    match p
    case Sync(on) =>
      SwitchStays(d, d, d.online, e.sent, {});
      if on {
        StaysTurns(d, op, e, {}, x);
      } else {
        NoneStays(d, e);
        StaysTurns(d, op, e, All(d), x);
      }
    case Cnxn =>
      SwitchStays(d, d, true, e.sent, {});
      if d.online {
        NoneStays(d, e);
        StaysTurns(d, op, e, All(d), x);
      } else {
        StaysTurns(d, op, e, {}, x);
      }
    case Open(remote) =>
      if d.online && opens {
        AcceptTurns(d, remote, answers, x);
      } else {
        SwitchStays(d, d, d.online, e.sent, {});
        StaysTurns(d, op, e, {}, x);
      }
    case Okay(_, id) =>
      var r := Addressed(d, id);
      if r.Some? { PutStays(d, r.value, Ready(d.locals[r.value]), d.sent); }
      StaysTurns(d, op, e, {}, x);
    case Clse(_, id) =>
      var r := Addressed(d, id);
      AddressedNames(d, id, x);
      if r.Some? {
        CloseStays(d, r.value);
        StaysTurns(d, op, e, {r.value}, x);
      } else {
        StaysTurns(d, op, e, {}, x);
      }
    case Wrte(remote, id, data) =>
      var r := Addressed(d, id);
      AddressedNames(d, id, x);
      if r.Some? {
        EnqueueStays(d, r.value, data, remote, answers);
        StaysTurns(d, op, e, if d.locals[r.value].queue == [] && Rejects(data, answers) then {r.value} else {}, x);
      } else {
        StaysTurns(d, op, e, {}, x);
      }
  }

  /** One operation, for each socket: it is live afterwards exactly if it was and is not closed, or if it is opened. */
  lemma NextTurns(d: Device, op: Op, x: Ref)
    requires Valid(d)
    ensures Turns(d, op, Next(d, op), x)
  {
    hide Valid, HandlePacket, Dispatch, CloseAll, Linked, Stays, Turns, Finishes;
    LinkedOf(d);
    SelfStays(d);
    match op
    case Arrives(p, opens, answers) => PacketTurns(d, p, opens, answers, x);
    case Noticed(r, read, write) =>
      if r in d.locals {
        var l := d.locals[r];
        PutStays(d, r, l.(pendRead := l.pendRead || read, pendWrite := l.pendWrite || write), d.sent);
      }
      StaysTurns(d, op, Next(d, op), {}, x);
    case Dispatched(r, answers, inputs) =>
      if Pending(d, r) {
        ServeStays(d, r, answers, inputs);
        StaysTurns(d, op, Next(d, op), if r in d.live && !Finishes(d, r, answers, inputs) then {} else {r}, x);
      } else {
        StaysTurns(d, op, Next(d, op), {}, x);
      }
    case AllClosed =>
      NoneStays(d, Next(d, op));
      StaysTurns(d, op, Next(d, op), All(d), x);
  }

  /** The socket x was opened by the operation number k, and none since has closed it. */
  ghost predicate OpenSince(ops: seq<Op>, k: int, x: Ref)
    requires 0 <= k < |ops|
  {
    Opens(Driven(ops[..k]), ops[k], x) && forall j :: k < j < |ops| ==> !Closes(Driven(ops[..j]), ops[j], x)
  }

  /** And it has the ids it was given then. */
  ghost predicate Line(ops: seq<Op>, k: int, x: Ref)
    requires 0 <= k < |ops|
  {
    LineOf(Driven(ops), Driven(ops[..k]), ops[k], x)
  }

  predicate LineOf(d: Device, was: Device, op: Op, x: Ref) {
    x in d.locals && d.locals[x].id == was.nextId && op.Arrives? && op.p.Open? && Far(d, x) == op.p.local
  }

  lemma SinceStep(ops: seq<Op>, k: int, x: Ref)
    requires 0 <= k < |ops| - 1
    ensures var n := |ops| - 1; OpenSince(ops, k, x) <==> OpenSince(ops[..n], k, x) && !Closes(Driven(ops[..n]), ops[n], x)
  {
    hide Driven, Opens, Closes;
    var n := |ops| - 1;
    assert ops[..n][..k] == ops[..k] && ops[..n][k] == ops[k];
    assert forall j :: k < j < n ==> ops[..n][..j] == ops[..j] && ops[..n][j] == ops[j];
  }

  /** What the last operation means for a socket opened before, or by it. */
  lemma LineStep(ops: seq<Op>, k: int, x: Ref)
    requires 0 <= k < |ops| && OpenSince(ops, k, x) && x in Driven(ops).live
    requires k < |ops| - 1 ==> x in Driven(ops[..|ops| - 1]).live && Line(ops[..|ops| - 1], k, x)
    ensures Line(ops, k, x)
  {
    hide *;
    var n := |ops| - 1;
    var d, op := Driven(ops[..n]), ops[n];
    DrivenNext(ops);
    NextTurns(d, op, x);
    if k < n {
      assert ops[..n][..k] == ops[..k] && ops[..n][k] == ops[k];
      LineIs(ops[..n], k, x);
      LineStays(d, op, Driven(ops), Driven(ops[..k]), ops[k], x);
    } else {
      SinceLast(ops, x);
      LineStarts(d, op, Driven(ops), x);
    }
    LineIs(ops, k, x);
  }

  lemma LineIs(ops: seq<Op>, k: int, x: Ref)
    requires 0 <= k < |ops|
    ensures Line(ops, k, x) <==> LineOf(Driven(ops), Driven(ops[..k]), ops[k], x)
  {
    hide Driven, LineOf;
  }

  lemma LineStays(d: Device, op: Op, e: Device, was: Device, open: Op, x: Ref)
    requires Turns(d, op, e, x) && x in d.live && x in e.live && LineOf(d, was, open, x)
    ensures LineOf(e, was, open, x)
  {
    hide Far, Opens, Closes;
  }

  lemma LineStarts(d: Device, op: Op, e: Device, x: Ref)
    requires Turns(d, op, e, x) && Opens(d, op, x)
    ensures LineOf(e, d, op, x)
  {
    hide Far, Closes;
  }

  lemma LiveAfter(ops: seq<Op>, x: Ref)
    requires ops != []
    ensures var n := |ops| - 1; var d := Driven(ops[..n]);
      x in Driven(ops).live <==> (x in d.live && !Closes(d, ops[n], x)) || Opens(d, ops[n], x)
  {
    hide Driven, Next, Closes, Opens, SameLine, Far;
    DrivenNext(ops);
    NextTurns(Driven(ops[..|ops| - 1]), ops[|ops| - 1], x);
  }

  lemma {:induction false} OpenIff(ops: seq<Op>, x: Ref)
    ensures x in Driven(ops).live <==> exists k :: 0 <= k < |ops| && OpenSince(ops, k, x)
    decreases |ops|
  {
    hide *;
    if ops == [] {
      NoneOpen(ops);
    } else {
      var n := |ops| - 1;
      var d := Driven(ops[..n]);
      OpenIff(ops[..n], x);
      LiveAfter(ops, x);
      SinceLast(ops, x);
      forall k | 0 <= k < n
        ensures OpenSince(ops, k, x) <==> OpenSince(ops[..n], k, x) && !Closes(d, ops[n], x)
      {
        SinceStep(ops, k, x);
      }
      if x in d.live && !Closes(d, ops[n], x) {
        var k :| 0 <= k < n && OpenSince(ops[..n], k, x);
        assert OpenSince(ops, k, x);
      }
    }
  }

  lemma {:induction false} LineSince(ops: seq<Op>, k: int, x: Ref)
    requires 0 <= k < |ops| && OpenSince(ops, k, x)
    ensures Line(ops, k, x)
    decreases |ops|
  {
    hide *;
    var n := |ops| - 1;
    OpenIff(ops, x);
    if k < n {
      SinceStep(ops, k, x);
      OpenIff(ops[..n], x);
      LineSince(ops[..n], k, x);
    }
    LineStep(ops, k, x);
  }

  /**
   * Whatever the peer sends and the descriptors answer: a socket is open exactly if an OPEN opened it and nothing since
   * has closed it, which is a CLSE for it, the failure or the end of its own descriptor, the loss or the restart of the
   * transport, or closing all; and it has the id it was then given and that of the OPEN at the far end.
   */
  lemma OpenExactly(ops: seq<Op>, x: Ref)
    ensures x in Driven(ops).live <==> exists k :: 0 <= k < |ops| && OpenSince(ops, k, x)
    ensures forall k :: 0 <= k < |ops| && OpenSince(ops, k, x) ==> Line(ops, k, x)
  {
    hide *;
    OpenIff(ops, x);
    forall k | 0 <= k < |ops| && OpenSince(ops, k, x)
      ensures Line(ops, k, x)
    {
      LineSince(ops, k, x);
    }
  }

  lemma NoneOpen(ops: seq<Op>)
    requires ops == []
    ensures Driven(ops).live == []
  {
  }

  lemma SinceLast(ops: seq<Op>, x: Ref)
    requires ops != []
    ensures var n := |ops| - 1; OpenSince(ops, n, x) <==> Opens(Driven(ops[..n]), ops[n], x)
  {
    hide Driven, Opens, Closes;
  }
}
