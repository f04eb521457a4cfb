/** When a socket of the debug bridge is freed with payloads unwritten: only if its own descriptor failed or ended. */
module AdbFreed {
  import opened Bytes
  import opened AdbSockets
  import opened AdbStreams
  import opened AdbSent

  /** Everything accepted was written. */
  predicate Delivered(l: Local) { l.written == l.accepted }

  /**
   * The descriptor of the socket r fails in the operation: a call of write does, with some of a payload still to be
   * written; or the socket, which is closing and waits to be written, is read and has ended.
   */
  predicate Fails(d: Device, op: Op, r: Ref) {
    r in d.locals &&
    match op
    case Arrives(p, _, answers) =>
      p.Wrte? && Names(d, p.remote, r) && d.locals[r].queue == [] && Takes(answers) < |p.data| && Breaks(Stop(answers))
    case Dispatched(x, answers, inputs) =>
      && x == r
      && ((d.locals[r].pendWrite && Drain(d.locals[r].queue, answers, []).end == Broken)
          || (d.locals[r].pendRead && d.locals[r].closing && Over(inputs)))
    case _ => false
  }

  /** What was freed before stays on record; what is freed now was delivered, or is one of those that failed. */
  ghost predicate Frees(d: Device, e: Device, failed: set<Ref>) {
    && (forall y :: y in d.gone ==> y in e.gone && e.gone[y] == d.gone[y])
    && (forall y :: y in e.gone && y !in d.gone ==> Delivered(e.gone[y]) || y in failed)
  }

  lemma FreesTwice(d: Device, e: Device, f: Device, failed: set<Ref>)
    requires Frees(d, e, failed) && Frees(e, f, failed)
    ensures Frees(d, f, failed)
  {
  }

  lemma FreesNone(d: Device, e: Device, failed: set<Ref>)
    requires e.gone == d.gone
    ensures Frees(d, e, failed)
  {
  }

  lemma EmptyDelivered(l: Local)
    requires Sound(l) && l.queue == []
    ensures Delivered(l)
  {
    assert l.written + [] == l.written;
  }

  /** Closing frees a socket that is closing already or has nothing queued. */
  lemma CloseFrees(d: Device, r: Ref)
    requires Tidy(d) && r in d.locals && Sighted(d, d.locals[r])
    ensures var l := d.locals[r]; Frees(d, CloseLocal(d, r), if Delivered(l) || (!l.closing && l.queue != []) then {} else {r})
  {
    hide CloseLocal, Sighted, Arm;
    CloseParts(d, r);
  }

  lemma SoundAt(d: Device, r: Ref)
    requires Valid(d) && r in d.locals
    ensures Sound(d.locals[r])
  {
    hide Linked, Sound;
  }

  /** A live socket that is freed was delivered. */
  lemma CloseLiveFrees(d: Device, r: Ref)
    requires Valid(d) && Tidy(d) && r in d.live
    ensures r in d.locals && Sighted(d, d.locals[r]) && Frees(d, CloseLocal(d, r), {})
  {
    hide Valid, Linked, CloseLocal, Sighted, Frees, Sound;
    LinkedOf(d);
    LiveSighted(d, r);
    SoundAt(d, r);
    CloseFrees(d, r);
    if d.locals[r].queue == [] {
      EmptyDelivered(d.locals[r]);
    }
  }

  lemma {:induction false} OfflineFrees(d: Device)
    requires Valid(d) && Tidy(d)
    ensures Frees(d, Offline(d), {})
    decreases |d.live|
  {
    hide Valid, Linked, CloseLocal, Sighted, Frees, Disconnect, Tidy, Books;
    if d.live == [] {
      FreesNone(d, d, {});
    } else {
      LinkedOf(d);
      var r := d.live[0];
      var e := Disconnect(d, r);
      DisconnectKeeps(d, r);
      DisconnectCloses(d, r);
      CloseLiveFrees(d, r);
      CloseBooks(d, r);
      SentApart(d, CloseLocal(d, r), d.sent);
      TidyOf(d, e);
      FreesNone(CloseLocal(d, r), e, {});
      FreesTwice(d, CloseLocal(d, r), e, {});
      OfflineFrees(e);
      FreesTwice(d, e, Offline(e), {});
    }
  }

  lemma {:induction false} CloseAllFrees(d: Device)
    requires Valid(d) && Tidy(d)
    ensures Frees(d, CloseAll(d), {})
    decreases |d.live|
  {
    hide Valid, Linked, CloseLocal, Sighted, Frees, Tidy, Books;
    if d.live == [] {
      FreesNone(d, d, {});
    } else {
      var r := d.live[0];
      LinkedOf(d);
      CloseLiveFrees(d, r);
      SoundClosable(d, r);
      CloseKeeps(d, r);
      CloseShape(d, r);
      CloseBooks(d, r);
      TidyOf(d, CloseLocal(d, r));
      CloseAllFrees(CloseLocal(d, r));
      FreesTwice(d, CloseLocal(d, r), CloseAll(CloseLocal(d, r)), {});
    }
  }

  /** A change of a socket, and a close. */
  lemma PutCloseFrees(d: Device, r: Ref, l: Local, sent: seq<Packet>)
    requires Linked(d) && Tidy(d) && r in d.locals && SameEnds(d.locals[r], l)
    ensures var e := Put(d, r, l).(sent := sent);
      Sighted(e, l) && Frees(d, CloseLocal(e, r), if Delivered(l) || (!l.closing && l.queue != []) then {} else {r})
  {
    hide Linked, CloseLocal, Frees, Sighted, BooksBut;
    var e := Put(d, r, l).(sent := sent);
    PutFar(d, r, l, sent);
    assert Tidy(e);
    CloseFrees(e, r);
    var failed := if Delivered(l) || (!l.closing && l.queue != []) then {} else {r};
    FreesNone(d, e, failed);
    FreesTwice(d, e, CloseLocal(e, r), failed);
  }

  lemma EnqueueFrees(d: Device, r: Ref, p: seq<Byte>, remote: nat, answers: seq<Answer>)
    requires Linked(d) && Tidy(d) && r in d.locals && Sighted(d, d.locals[r])
    ensures Frees(d, Enqueue(d, r, p, remote, answers),
                  if d.locals[r].queue == [] && Takes(answers) < |p| && Breaks(Stop(answers)) then {r} else {})
  {
    hide Linked, Sighted, Push, CloseLocal, Queued, Pushed, Held, Granted, Frees, Takes, Stop, Breaks, Tidy, Delivered;
    var l, e := d.locals[r], Enqueue(d, r, p, remote, answers);
    PushTakes(p, answers);
    var m := Pushed(l, p, Push(p, answers).0);
    PutCloseFrees(d, r, m, d.sent);
    if l.queue == [] && Push(p, answers).1 {
      FreesMore(d, e, if Delivered(m) || (!m.closing && m.queue != []) then {} else {r}, {r});
    } else {
      FreesNone(d, e, {});
    }
  }

  lemma FreesMore(d: Device, e: Device, a: set<Ref>, b: set<Ref>)
    requires Frees(d, e, a) && forall y :: y in a ==> y in b
    ensures Frees(d, e, b)
  {
  }

  /** When the queue has been emptied, everything was written. */
  lemma FlushedDelivered(l: Local, answers: seq<Answer>)
    requires Sound(l) && Drain(l.queue, answers, []).end == Emptied
    ensures Delivered(Flushed(l, Drain(l.queue, answers, [])))
  {
    hide Drain;
    var w := Drain(l.queue, answers, []);
    DrainMoves(l.queue, answers, []);
    assert w.left == [] && w.out + [] == w.out && [] + Concat(l.queue) == Concat(l.queue);
  }

  lemma WriteFrees(d: Device, r: Ref, answers: seq<Answer>)
    requires Linked(d) && Tidy(d) && r in d.locals && Sighted(d, d.locals[r]) && (!d.locals[r].closing ==> d.locals[r].peer.Some?)
    requires Sound(d.locals[r])
    ensures Frees(d, WritePart(d, r, answers).0, if Drain(d.locals[r].queue, answers, []).end == Broken then {r} else {})
  {
    hide Linked, Sighted, Drain, CloseLocal, Flushed, Granted, Arm, Frees, Tidy, Sound, Delivered;
    var l, e := d.locals[r], WritePart(d, r, answers).0;
    LiveFar(d, r);
    var w := Drain(l.queue, answers, []);
    var m := Flushed(l, w);
    PutCloseFrees(d, r, m, d.sent);
    if w.end == Broken {
      FreesMore(d, e, if Delivered(m) || (!m.closing && m.queue != []) then {} else {r}, {r});
    } else if w.end == Emptied && l.closing {
      FlushedDelivered(l, answers);
    } else {
      FreesNone(d, e, {});
    }
  }

  lemma ReadFrees(d: Device, r: Ref, inputs: seq<Input>)
    requires Linked(d) && Tidy(d) && r in d.locals && Sighted(d, d.locals[r]) && Sound(d.locals[r])
    ensures Frees(d, ReadPart(d, r, inputs), if Over(inputs) && d.locals[r].closing then {r} else {})
  {
    hide Linked, Sighted, Gather, CloseLocal, Spoken, Frees, Tidy, Sound, Yields, Ends, Delivered;
    var l, e := d.locals[r], ReadPart(d, r, inputs);
    LiveFar(d, r);
    GatherTakes(MAX_PAYLOAD, inputs);
    var wrte := Wrte(l.id, if l.peer.Some? then d.remotes[l.peer.value].id else 0, Gather(MAX_PAYLOAD, inputs).0);
    CloseFrees(d, r);
    PutCloseFrees(d, r, Spoken(l), d.sent + [wrte]);
    SpokenBooks(l);
    if l.queue == [] {
      EmptyDelivered(l);
    }
    if Over(inputs) {
      FreesMore(d, e, if Delivered(l) || (!l.closing && l.queue != []) then {} else {r}, if l.closing then {r} else {});
    } else {
      FreesNone(d, e, {});
    }
  }

  lemma SpokenBooks(l: Local)
    ensures Delivered(Spoken(l)) == Delivered(l)
  {
    ArmBooks(l.(turns := l.turns + [Sent]), false, l.wantWrite);
    hide Arm;
  }

  lemma ServeFrees(d: Device, r: Ref, answers: seq<Answer>, inputs: seq<Input>)
    requires Valid(d) && Tidy(d) && Pending(d, r)
    ensures Frees(d, Dispatch(d, r, answers, inputs), if Fails(d, Dispatched(r, answers, inputs), r) then {r} else {})
  {
    hide Linked, Sound, WritePart, ReadPart, Valid, Sighted, Frees, Tidy, Drain, Over, Books, Worked;
    LinkedOf(d);
    LinkedSighted(d, r);
    TakenKeeps(d, r);
    TakenBooks(d, r);
    var l, e := d.locals[r], Taken(d, r);
    LinkedOf(e);
    LinkedSighted(e, r);
    SoundAt(e, r);
    TidyOf(d, e);
    var failed := if Fails(d, Dispatched(r, answers, inputs), r) then {r} else {};
    FreesNone(d, e, failed);
    if l.pendWrite {
      WriteSays(e, r, answers);
      WriteStays(e, r, answers);
      WritePartKeeps(e, r, answers);
      WriteWorked(e, r, answers);
      WriteFrees(e, r, answers);
      var f := WritePart(e, r, answers).0;
      FreesMore(e, f, if Drain(e.locals[r].queue, answers, []).end == Broken then {r} else {}, failed);
      FreesTwice(d, e, f, failed);
      WorkedTidy(e, f, r, [], |Drain(e.locals[r].queue, answers, []).out|);
    }
    var (f, on) := if l.pendWrite then WritePart(e, r, answers) else (e, true);
    if on && l.pendRead {
      LinkedSighted(f, r);
      SoundAt(f, r);
      ReadFrees(f, r, inputs);
      var g := ReadPart(f, r, inputs);
      FreesMore(f, g, if Over(inputs) && f.locals[r].closing then {r} else {}, failed);
      FreesTwice(d, f, g, failed);
    }
  }

  /** What an operation frees was delivered, or its descriptor fails in the operation. */
  ghost predicate FreesOnly(d: Device, op: Op, e: Device) {
    && (forall y :: y in d.gone ==> y in e.gone && e.gone[y] == d.gone[y])
    && (forall y :: y in e.gone && y !in d.gone ==> Delivered(e.gone[y]) || Fails(d, op, y))
  }

  lemma FreesMeans(d: Device, op: Op, e: Device, failed: set<Ref>)
    requires Frees(d, e, failed) && forall y :: y in failed ==> Fails(d, op, y)
    ensures FreesOnly(d, op, e)
  {
    hide Fails;
  }

  lemma PacketFrees(d: Device, p: Packet, opens: bool, answers: seq<Answer>)
    requires Valid(d) && Tidy(d)
    ensures FreesOnly(d, Arrives(p, opens, answers), HandlePacket(d, p, opens, answers))
  {
    hide Valid, Linked, Offline, CloseLocal, Enqueue, Sighted, Addressed, Ready, Granted, Tidy, Frees, FreesOnly, Takes, Stop, Breaks, Names;
    LinkedOf(d);
    var op, e := Arrives(p, opens, answers), HandlePacket(d, p, opens, answers);
    if p.Wrte? && Addressed(d, p.remote).Some? {
      var r := Addressed(d, p.remote).value;
      AddressedNames(d, p.remote, r);
      EnqueueFrees(d, r, p.data, p.local, answers);
      FreesMeans(d, op, e, if d.locals[r].queue == [] && Takes(answers) < |p.data| && Breaks(Stop(answers)) then {r} else {});
    } else {
      assert Frees(d, e, {}) by {
        match p
        case Sync(on) => OfflineFrees(d); FreesNone(if on then d else Offline(d), e, {}); FreesNone(d, d, {}); FreesTwice(d, if on then d else Offline(d), e, {});
        case Cnxn => OfflineFrees(d); FreesNone(d, d, {}); FreesNone(if d.online then Offline(d) else d, e, {}); FreesTwice(d, if d.online then Offline(d) else d, e, {});
        case Open(_) => FreesNone(d, e, {});
        case Okay(_, _) => FreesNone(d, e, {});
        case Clse(_, id) =>
          FreesNone(d, d, {});
          if Addressed(d, id).Some? { CloseLiveFrees(d, Addressed(d, id).value); }
        case Wrte(_, _, _) => FreesNone(d, e, {});
      }
      FreesMeans(d, op, e, {});
    }
  }

  lemma NextFrees(d: Device, op: Op)
    requires Valid(d) && Tidy(d)
    ensures FreesOnly(d, op, Next(d, op))
  {
    hide Valid, HandlePacket, Dispatch, CloseAll, Tidy, Frees, FreesOnly, Fails;
    match op
    case Arrives(p, opens, answers) => PacketFrees(d, p, opens, answers);
    case Noticed(_, _, _) =>
      FreesNone(d, Next(d, op), {});
      FreesMeans(d, op, Next(d, op), {});
    case Dispatched(r, answers, inputs) =>
      var failed := if Fails(d, op, r) then {r} else {};
      FreesNone(d, d, failed);
      if Pending(d, r) {
        ServeFrees(d, r, answers, inputs);
      }
      FreesMeans(d, op, Next(d, op), failed);
    case AllClosed =>
      CloseAllFrees(d);
      FreesMeans(d, op, Next(d, op), {});
  }

  /** The descriptor of the socket r failed at some point. */
  ghost predicate Failed(ops: seq<Op>, r: Ref) { exists k :: 0 <= k < |ops| && Fails(Driven(ops[..k]), ops[k], r) }

  lemma FailedMore(ops: seq<Op>, r: Ref)
    requires ops != [] && Failed(ops[..|ops| - 1], r)
    ensures Failed(ops, r)
  {
    hide Driven, Fails;
    var n := |ops| - 1;
    var k :| 0 <= k < n && Fails(Driven(ops[..n][..k]), ops[..n][k], r);
    assert ops[..n][..k] == ops[..k] && ops[..n][k] == ops[k];
  }

  lemma FailedNow(ops: seq<Op>, r: Ref)
    requires ops != [] && Fails(Driven(ops[..|ops| - 1]), ops[|ops| - 1], r)
    ensures Failed(ops, r)
  {
    hide Driven, Fails;
  }

  lemma {:induction false} FreedAt(ops: seq<Op>, r: Ref)
    requires r in Driven(ops).gone
    ensures Delivered(Driven(ops).gone[r]) || Failed(ops, r)
    decreases |ops|
  {
    hide Driven, Next, Fails, Failed, Tidy, Delivered, Valid, Arrived, Took;
    DrivenNext(ops);
    if ops != [] {
      var n := |ops| - 1;
      var d := Driven(ops[..n]);
      AcceptedExactly(ops[..n], r);
      NextFrees(d, ops[n]);
      if r in d.gone {
        FreedAt(ops[..n], r);
        if Failed(ops[..n], r) {
          FailedMore(ops, r);
        }
      } else if Fails(d, ops[n], r) {
        FailedNow(ops, r);
      }
    }
  }

  /**
   * A socket is freed before all payloads that arrived for it were written only if its own descriptor failed, or ended
   * while the socket was closing: neither the peer, nor the loss of the transport, nor closing all sockets drops a byte.
   */
  lemma OnlyFailureDrops(ops: seq<Op>, r: Ref)
    requires r in Driven(ops).gone
    ensures Driven(ops).gone[r].written == Arrived(ops, r) || Failed(ops, r)
  {
    FreedAt(ops, r);
    AcceptedExactly(ops, r);
    var d := Driven(ops);
    hide Driven, Failed, Arrived;
    EverIn(d, r);
    assert r !in d.locals;
  }
}
