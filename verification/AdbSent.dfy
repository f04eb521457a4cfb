/** Every packet the device sends, said from the packets that arrive and the answers of the descriptors. */
module AdbSent {
  import opened Bytes
  import opened AdbSockets
  import opened AdbStreams

  /** The number of the socket at the other end. */
  function Far(d: Device, r: Ref): nat {
    if r in d.locals && d.locals[r].peer.Some? && d.locals[r].peer.value in d.remotes then d.remotes[d.locals[r].peer.value].id else 0
  }

  /** What is said when the socket r is closed: a socket that is closing already has no peer to say it. */
  function Bye(d: Device, r: Ref): seq<Packet> { if r in d.live then [Clse(0, Far(d, r))] else [] }

  /** The bytes of one packet, of what a descriptor yields. */
  function Filled(inputs: seq<Input>): seq<Byte> { Yields(inputs)[..Least(MAX_PAYLOAD, |Yields(inputs)|)] }

  /** Whether a descriptor ends before it has filled a packet. */
  predicate Over(inputs: seq<Input>) { |Yields(inputs)| < MAX_PAYLOAD && Ends(inputs) }

  /** What reading from the socket r says. */
  function SaidReading(d: Device, r: Ref, inputs: seq<Input>): seq<Packet>
    requires r in d.locals
  {
    (if r in d.live && Filled(inputs) != [] then [Wrte(d.locals[r].id, Far(d, r), Filled(inputs))] else []) +
    if Over(inputs) then Bye(d, r) else []
  }

  /** What serving the events of the socket r says: an OKAY when its queue has been emptied, and what was read. */
  function SaidServing(d: Device, r: Ref, answers: seq<Answer>, inputs: seq<Input>): seq<Packet>
    requires r in d.locals
  {
    var l := d.locals[r];
    var end := Drain(l.queue, answers, []).end;
    if !l.pendWrite then SaidReading(d, r, inputs)
    else if end == Blocked then []
    else if end == Broken || l.closing then Bye(d, r)
    else [Okay(l.id, Far(d, r))] + if l.pendRead then SaidReading(d, r, inputs) else []
  }

  /** What a packet is answered with. */
  function SaidTo(d: Device, p: Packet, opens: bool, answers: seq<Answer>): seq<Packet>
    requires Valid(d)
  {
    match p
    case Sync(_) => [p]
    case Cnxn => [Cnxn]
    case Open(m) => if !d.online then [] else if opens then [Okay(d.nextId, m)] else [Clse(0, m)]
    case Okay(_, _) => []
    case Clse(_, id) => var r := Addressed(d, id); if r.None? then [] else Bye(d, r.value)
    case Wrte(m, id, data) =>
      var r := Addressed(d, id);
      if r.None? || d.locals[r.value].queue != [] then []
      else if Takes(answers) >= |data| then [Okay(id, m)]
      else if Breaks(Stop(answers)) then Bye(d, r.value)
      else []
  }

  /** What closing every socket says. */
  function Byes(d: Device): (ps: seq<Packet>)
    ensures |ps| == |d.live| && forall k :: 0 <= k < |d.live| ==> ps[k] == Clse(0, Far(d, d.live[k]))
  {
    seq(|d.live|, k requires 0 <= k < |d.live| => Clse(0, Far(d, d.live[k])))
  }

  /** What an operation says. */
  function Said(d: Device, op: Op): seq<Packet>
    requires Valid(d)
  {
    match op
    case Arrives(p, opens, answers) => SaidTo(d, p, opens, answers)
    case Noticed(_, _, _) => []
    case Dispatched(r, answers, inputs) => if Pending(d, r) then SaidServing(d, r, answers, inputs) else []
    case AllClosed => Byes(d)
  }

  function SaidAll(ops: seq<Op>): seq<Packet> {
    if ops == [] then []
    else
      var n := |ops| - 1;
      SaidAll(ops[..n]) + Said(Driven(ops[..n]), ops[n])
  }

  // ----- Closing -----

  lemma CloseSays(d: Device, r: Ref)
    requires Linked(d) && r in d.locals
    ensures Sighted(d, d.locals[r]) && CloseLocal(d, r).sent == d.sent + Bye(d, r)
  {
    LinkedSighted(d, r);
    hide Linked, Without, Arm;
    assert d.locals[r].peer.Some? <==> r in d.live;
  }

  /** What is far from the other sockets stays so. */
  lemma CloseFar(d: Device, r: Ref, x: Ref)
    requires Linked(d) && r in d.locals && x in d.live && x != r
    ensures Sighted(d, d.locals[r]) && Far(CloseLocal(d, r), x) == Far(d, x)
  {
    LinkedSighted(d, r);
    CloseShape(d, r);
    hide NoDup, CloseLocal;
    assert LiveOk(d, x);
  }

  lemma {:induction false} CloseAllSays(d: Device)
    requires Valid(d)
    ensures CloseAll(d).sent == d.sent + Byes(d)
    decreases |d.live|
  {
    hide Linked, Valid, CloseLocal, Far, Without, NoDup, Byes, Sighted;
    if d.live == [] {
      assert d.sent + [] == d.sent;
    } else {
      var r := d.live[0];
      LinkedOf(d);
      LiveSighted(d, r);
      SoundClosable(d, r);
      CloseKeeps(d, r);
      CloseShape(d, r);
      CloseSays(d, r);
      var e := CloseLocal(d, r);
      CloseAllSays(e);
      LiveDistinct(d);
      FirstLeaves(d.live);
      ByesAfter(d, e, r);
      Reappend(d.sent, [Clse(0, Far(d, r))], Byes(e));
    }
  }

  lemma LiveDistinct(d: Device)
    requires Linked(d)
    ensures NoDup(d.live)
  {
    hide NoDup;
  }

  lemma ByesAfter(d: Device, e: Device, r: Ref)
    requires Linked(d) && r in d.locals && Sighted(d, d.locals[r]) && e == CloseLocal(d, r)
    requires d.live != [] && d.live[0] == r && e.live == d.live[1..] && r !in d.live[1..]
    ensures Byes(d) == [Clse(0, Far(d, r))] + Byes(e)
  {
    hide Linked, CloseLocal, Far, Byes, Sighted;
    forall k | 0 <= k < |e.live|
      ensures Far(e, e.live[k]) == Far(d, d.live[k + 1])
    {
      CloseFar(d, r, d.live[k + 1]);
    }
  }

  lemma FirstLeaves(s: seq<Ref>)
    requires NoDup(s) && s != []
    ensures Without(s, s[0]) == s[1..] && s[0] !in s[1..]
  {
    hide NoDup;
    NoDupTail(s);
    WithoutNone(s[1..], s[0]);
  }

  // ----- One operation -----

  /** A change of the socket r, its links apart, leaves what is far from it. */
  lemma PutFar(d: Device, r: Ref, l: Local, sent: seq<Packet>)
    requires Linked(d) && r in d.locals && SameEnds(d.locals[r], l)
    ensures var e := Put(d, r, l).(sent := sent);
      Linked(e) && Sighted(e, l) && Far(e, r) == Far(d, r) && Bye(e, r) == Bye(d, r) && CloseLocal(e, r).sent == sent + Bye(d, r)
  {
    hide Linked, CloseLocal;
    PutLinked(d, r, l, sent);
    LinkedSighted(d, r);
    CloseSays(Put(d, r, l).(sent := sent), r);
  }

  lemma EnqueueSays(d: Device, r: Ref, p: seq<Byte>, remote: nat, answers: seq<Answer>)
    requires Linked(d) && r in d.locals && Sighted(d, d.locals[r])
    ensures Enqueue(d, r, p, remote, answers).sent == d.sent +
      if d.locals[r].queue != [] then []
      else if Takes(answers) >= |p| then [Okay(d.locals[r].id, remote)]
      else if Breaks(Stop(answers)) then Bye(d, r) else []
  {
    hide Linked, Sighted, Push, CloseLocal, Queued, Pushed, Held, Granted, Takes, Stop, Breaks, Bye;
    assert d.sent + [] == d.sent;
    var l := d.locals[r];
    if l.queue == [] {
      PushTakes(p, answers);
      var m := Pushed(l, p, Push(p, answers).0);
      PutFar(d, r, m, d.sent);
    }
  }

  lemma LiveFar(d: Device, r: Ref)
    requires Linked(d) && r in d.locals
    ensures d.locals[r].peer.Some? <==> r in d.live
    ensures r in d.live <==> !d.locals[r].closing
    ensures r in d.live ==> d.locals[r].peer.value in d.remotes && Far(d, r) == d.remotes[d.locals[r].peer.value].id
  {
    hide Linked;
    LinkedSighted(d, r);
  }

  lemma ReadSays(d: Device, r: Ref, inputs: seq<Input>)
    requires Linked(d) && r in d.locals && Sighted(d, d.locals[r])
    ensures ReadPart(d, r, inputs).sent == d.sent + SaidReading(d, r, inputs)
  {
    hide Linked, Sighted, Gather, CloseLocal, Spoken, Bye, Yields, Ends, Far;
    var l := d.locals[r];
    LiveFar(d, r);
    GatherTakes(MAX_PAYLOAD, inputs);
    var data, eof := Filled(inputs), Over(inputs);
    assert Gather(MAX_PAYLOAD, inputs) == (data, eof);
    hide Filled, Over;
    CloseSays(d, r);
    assert d.sent + [] == d.sent && [] + Bye(d, r) == Bye(d, r);
    if data != [] && l.peer.Some? {
      var wrte := Wrte(l.id, Far(d, r), data);
      PutFar(d, r, Spoken(l), d.sent + [wrte]);
      Reappend(d.sent, [wrte], Bye(d, r));
      assert [wrte] + [] == [wrte];
    }
  }

  lemma WriteSays(d: Device, r: Ref, answers: seq<Answer>)
    requires Linked(d) && r in d.locals && Sighted(d, d.locals[r]) && (!d.locals[r].closing ==> d.locals[r].peer.Some?)
    ensures var end := Drain(d.locals[r].queue, answers, []).end; var (e, on) := WritePart(d, r, answers);
      && on == (end == Emptied && !d.locals[r].closing)
      && e.sent == d.sent + (if end == Blocked then [] else if !on then Bye(d, r) else [Okay(d.locals[r].id, Far(d, r))])
      && (on ==> Far(e, r) == Far(d, r) && Bye(e, r) == Bye(d, r) && e.live == d.live && Linked(e))
  {
    hide Linked, Sighted, Drain, CloseLocal, Flushed, Granted, Arm, Bye, Far;
    LiveFar(d, r);
    assert d.sent + [] == d.sent;
    var l := d.locals[r];
    var m := Flushed(l, Drain(l.queue, answers, []));
    PutFar(d, r, m, d.sent);
    PutFar(d, r, Granted(Arm(m, m.wantRead, false)), d.sent + [Okay(l.id, Far(d, r))]);
  }

  lemma ServeSays(d: Device, r: Ref, answers: seq<Answer>, inputs: seq<Input>)
    requires Valid(d) && Pending(d, r)
    ensures Dispatch(d, r, answers, inputs).sent == d.sent + SaidServing(d, r, answers, inputs)
  {
    hide Linked, Sound, WritePart, ReadPart, Valid, Sighted, Drain, Bye, Far, Filled, Over;
    LinkedOf(d);
    LinkedSighted(d, r);
    TakenKeeps(d, r);
    var l, e := d.locals[r], Taken(d, r);
    LinkedOf(e);
    LinkedSighted(e, r);
    PutFar(d, r, l.(pendRead := false, pendWrite := false), d.sent);
    if l.pendWrite {
      WriteSays(e, r, answers);
      WriteStays(e, r, answers);
      var (f, on) := WritePart(e, r, answers);
      if on && l.pendRead {
        LinkedSighted(f, r);
        ReadSays(f, r, inputs);
        Reappend(d.sent, [Okay(l.id, Far(d, r))], SaidReading(d, r, inputs));
      } else {
        assert [Okay(l.id, Far(d, r))] + [] == [Okay(l.id, Far(d, r))];
      }
    } else {
      ReadSays(e, r, inputs);
    }
  }

  lemma PacketSays(d: Device, p: Packet, opens: bool, answers: seq<Answer>)
    requires Valid(d)
    ensures HandlePacket(d, p, opens, answers).sent == d.sent + SaidTo(d, p, opens, answers)
  {
    hide Valid, Linked, Offline, CloseLocal, Enqueue, Sighted, Addressed, Ready, Granted, Takes, Stop, Breaks, Bye;
    LinkedOf(d);
    assert d.sent + [] == d.sent;
    match p
    case Sync(_) =>
    case Cnxn =>
    case Open(_) =>
    case Okay(_, _) =>
    case Clse(_, id) =>
      var r := Addressed(d, id);
      if r.Some? { CloseSays(d, r.value); }
    case Wrte(m, id, data) =>
      var r := Addressed(d, id);
      if r.Some? { EnqueueSays(d, r.value, data, m, answers); }
  }

  lemma NextSays(d: Device, op: Op)
    requires Valid(d)
    ensures Next(d, op).sent == d.sent + Said(d, op)
  {
    hide Valid, HandlePacket, Dispatch, CloseAll, SaidTo, SaidServing, Byes;
    assert d.sent + [] == d.sent;
    match op
    case Arrives(p, opens, answers) => PacketSays(d, p, opens, answers);
    case Noticed(_, _, _) =>
    case Dispatched(r, answers, inputs) => if Pending(d, r) { ServeSays(d, r, answers, inputs); }
    case AllClosed => CloseAllSays(d);
  }

  /** Whatever the peer sends and the descriptors answer, the packets sent are exactly these, in this order. */
  lemma {:induction false} SentExactly(ops: seq<Op>)
    ensures Driven(ops).sent == SaidAll(ops)
    decreases |ops|
  {
    if ops != [] {
      var n := |ops| - 1;
      SentExactly(ops[..n]);
      assert Driven(ops) == Next(Driven(ops[..n]), ops[n]);
      hide Driven, Said, Next;
      NextSays(Driven(ops[..n]), ops[n]);
    }
  }

  // ----- What a socket has read is sent -----

  /** The data of the WRTEs sent for the socket with this id, one after the other. */
  function DataFrom(ps: seq<Packet>, id: nat): seq<Byte> {
    if ps == [] then []
    else
      var n := |ps| - 1;
      DataFrom(ps[..n], id) + if ps[n].Wrte? && ps[n].local == id then ps[n].data else []
  }

  /** What the descriptor of the socket with this id yields in an operation, if it is read: as much as one packet holds. */
  function Reading(d: Device, op: Op, id: nat): seq<Byte> {
    if op.Dispatched? && op.r in d.live && op.r in d.locals && d.locals[op.r].id == id && d.locals[op.r].pendRead &&
       (d.locals[op.r].pendWrite ==> Drain(d.locals[op.r].queue, op.answers, []).end == Emptied)
    then Filled(op.inputs) else []
  }

  /** Everything it has yielded. */
  function Yielded(ops: seq<Op>, id: nat): seq<Byte> {
    if ops == [] then []
    else
      var n := |ops| - 1;
      Yielded(ops[..n], id) + Reading(Driven(ops[..n]), ops[n], id)
  }

  lemma DataSnoc(ps: seq<Packet>, p: Packet, id: nat)
    ensures DataFrom(ps + [p], id) == DataFrom(ps, id) + if p.Wrte? && p.local == id then p.data else []
  {
    assert (ps + [p])[..|ps|] == ps;
  }

  lemma {:induction false} DataJoin(ps: seq<Packet>, qs: seq<Packet>, id: nat)
    ensures DataFrom(ps + qs, id) == DataFrom(ps, id) + DataFrom(qs, id)
    decreases |qs|
  {
    if qs == [] {
      hide DataFrom;
      assert ps + qs == ps && DataFrom(ps, id) + [] == DataFrom(ps, id);
      assert DataFrom([], id) == [] by { NoData([], id); }
    } else {
      var n := |qs| - 1;
      DataSnoc(ps + qs[..n], qs[n], id);
      DataSnoc(qs[..n], qs[n], id);
      hide DataFrom;
      assert ps + qs[..n] + [qs[n]] == ps + qs && qs[..n] + [qs[n]] == qs;
      DataJoin(ps, qs[..n], id);
      Reappend(DataFrom(ps, id), DataFrom(qs[..n], id), if qs[n].Wrte? && qs[n].local == id then qs[n].data else []);
    }
  }

  /** Nothing but a WRTE has data. */
  lemma {:induction false} NoData(ps: seq<Packet>, id: nat)
    requires forall k :: 0 <= k < |ps| ==> !ps[k].Wrte?
    ensures DataFrom(ps, id) == []
    decreases |ps|
  {
    if ps != [] {
      NoData(ps[..|ps| - 1], id);
    }
  }

  lemma OneDatum(p: Packet, id: nat)
    ensures DataFrom([p], id) == if p.Wrte? && p.local == id then p.data else []
  {
    assert [p][..0] == [];
  }

  lemma ReadingData(d: Device, r: Ref, inputs: seq<Input>, id: nat)
    requires r in d.locals
    ensures DataFrom(SaidReading(d, r, inputs), id) == if r in d.live && d.locals[r].id == id then Filled(inputs) else []
  {
    hide DataFrom, Filled, Over, Far;
    var first := if r in d.live && Filled(inputs) != [] then [Wrte(d.locals[r].id, Far(d, r), Filled(inputs))] else [];
    var last := if Over(inputs) then Bye(d, r) else [];
    DataJoin(first, last, id);
    NoData(last, id);
    NoData([], id);
    OneDatum(Wrte(d.locals[r].id, Far(d, r), Filled(inputs)), id);
  }

  lemma ServingData(d: Device, r: Ref, answers: seq<Answer>, inputs: seq<Input>, id: nat)
    requires Valid(d) && Pending(d, r)
    ensures DataFrom(SaidServing(d, r, answers, inputs), id) == Reading(d, Dispatched(r, answers, inputs), id)
  {
    hide DataFrom, SaidReading, Drain, Filled, Far, Valid, Linked;
    LinkedOf(d);
    LiveFar(d, r);
    ReadingData(d, r, inputs, id);
    NoData([], id);
    NoData(Bye(d, r), id);
    var l := d.locals[r];
    var okay := Okay(l.id, Far(d, r));
    NoData([okay], id);
    DataJoin([okay], SaidReading(d, r, inputs), id);
    assert [okay] + [] == [okay];
  }

  lemma SaidData(d: Device, op: Op, id: nat)
    requires Valid(d)
    ensures DataFrom(Said(d, op), id) == Reading(d, op, id)
  {
    hide DataFrom, SaidServing, Valid, Far;
    NoData([], id);
    match op
    case Arrives(p, opens, answers) => hide Reading, Addressed; NoWrte(d, p, opens, answers); NoData(SaidTo(d, p, opens, answers), id); NotRead(d, op, id);
    case Noticed(_, _, _) =>
    case Dispatched(r, answers, inputs) => if Pending(d, r) { ServingData(d, r, answers, inputs, id); }
    case AllClosed => NoData(Byes(d), id);
  }

  lemma NotRead(d: Device, op: Op, id: nat)
    requires !op.Dispatched?
    ensures Reading(d, op, id) == []
  {
  }

  lemma NoWrte(d: Device, p: Packet, opens: bool, answers: seq<Answer>)
    requires Valid(d)
    ensures forall k :: 0 <= k < |SaidTo(d, p, opens, answers)| ==> !SaidTo(d, p, opens, answers)[k].Wrte?
  {
    hide Valid, Addressed, Takes, Stop, Far;
  }

  /**
   * The outward twin of the law about payloads: whatever the peer sends and the descriptors answer, the data of the WRTEs
   * sent for a socket are, one after the other, exactly the bytes that its descriptor yielded.
   */
  lemma {:induction false} NothingReadIsLost(ops: seq<Op>, id: nat)
    ensures DataFrom(Driven(ops).sent, id) == Yielded(ops, id)
    decreases |ops|
  {
    if ops != [] {
      var n := |ops| - 1;
      NothingReadIsLost(ops[..n], id);
      assert Driven(ops) == Next(Driven(ops[..n]), ops[n]);
      hide Driven, Said, Next, DataFrom, Reading;
      var d := Driven(ops[..n]);
      NextSays(d, ops[n]);
      DataJoin(d.sent, Said(d, ops[n]), id);
      SaidData(d, ops[n], id);
    }
  }

  // ----- Ids -----

  /** A live socket was live before, with the id it has, or has an id that had not been given out. */
  ghost predicate Carried(d: Device, e: Device) {
    && e.nextId >= d.nextId
    && forall x :: x in e.live ==>
         x in e.locals && ((x in d.live && x in d.locals && e.locals[x].id == d.locals[x].id) || e.locals[x].id >= d.nextId)
  }

  lemma CarriedTwice(d: Device, e: Device, f: Device)
    requires Carried(d, e) && Carried(e, f)
    ensures Carried(d, f)
  {
  }

  lemma SelfCarried(d: Device)
    requires Linked(d)
    ensures Carried(d, d)
  {
    hide NoDup;
    assert forall x :: x in d.live ==> LiveOk(d, x);
  }

  lemma PutCarried(d: Device, r: Ref, l: Local, sent: seq<Packet>)
    requires Linked(d) && r in d.locals && SameEnds(d.locals[r], l)
    ensures Carried(d, Put(d, r, l).(sent := sent))
  {
    SelfCarried(d);
    hide Linked;
  }

  lemma CloseCarried(d: Device, r: Ref)
    requires Linked(d) && r in d.locals && Sighted(d, d.locals[r])
    ensures Carried(d, CloseLocal(d, r))
  {
    SelfCarried(d);
    CloseShape(d, r);
    hide Linked, CloseLocal, Sighted;
  }

  lemma SwitchCarried(d: Device, e: Device, online: bool, sent: seq<Packet>)
    requires Carried(d, e)
    ensures Carried(d, e.(online := online, sent := sent))
  {
  }

  lemma {:induction false} OfflineCarried(d: Device)
    requires Valid(d)
    ensures Carried(d, Offline(d))
    decreases |d.live|
  {
    hide Linked, Valid, Sighted, CloseLocal, Disconnect, Carried;
    LinkedOf(d);
    SelfCarried(d);
    if d.live != [] {
      var r := d.live[0];
      var e := Disconnect(d, r);
      DisconnectKeeps(d, r);
      DisconnectCloses(d, r);
      CloseCarried(d, r);
      SwitchCarried(d, CloseLocal(d, r), CloseLocal(d, r).online, d.sent);
      OfflineCarried(e);
      CarriedTwice(d, e, Offline(e));
    }
  }

  lemma {:induction false} CloseAllCarried(d: Device)
    requires Valid(d)
    ensures Carried(d, CloseAll(d))
    decreases |d.live|
  {
    hide Linked, Valid, Sighted, CloseLocal, Carried;
    LinkedOf(d);
    SelfCarried(d);
    if d.live != [] {
      var r := d.live[0];
      LiveSighted(d, r);
      SoundClosable(d, r);
      CloseKeeps(d, r);
      CloseShape(d, r);
      CloseCarried(d, r);
      CloseAllCarried(CloseLocal(d, r));
      CarriedTwice(d, CloseLocal(d, r), CloseAll(CloseLocal(d, r)));
    }
  }

  /** A change of a socket, and a close. */
  lemma PutCloseCarried(d: Device, r: Ref, l: Local, sent: seq<Packet>)
    requires Linked(d) && r in d.locals && SameEnds(d.locals[r], l)
    ensures var e := Put(d, r, l).(sent := sent); Sighted(e, l) && Carried(d, CloseLocal(e, r))
  {
    hide Linked, CloseLocal, Carried;
    var e := Put(d, r, l).(sent := sent);
    PutFar(d, r, l, sent);
    PutCarried(d, r, l, sent);
    CloseCarried(e, r);
    CarriedTwice(d, e, CloseLocal(e, r));
  }

  lemma EnqueueCarried(d: Device, r: Ref, p: seq<Byte>, remote: nat, answers: seq<Answer>)
    requires Linked(d) && r in d.locals && Sighted(d, d.locals[r])
    ensures Carried(d, Enqueue(d, r, p, remote, answers))
  {
    hide Linked, Sighted, Push, CloseLocal, Queued, Pushed, Held, Granted, Carried;
    var l := d.locals[r];
    if l.queue != [] {
      PutCarried(d, r, Queued(l, p), d.sent);
    } else {
      var rest := Push(p, answers).0;
      PushSuffix(p, answers);
      var m := Pushed(l, p, rest);
      PutCloseCarried(d, r, m, d.sent);
      PutCarried(d, r, Granted(m), d.sent + [Okay(l.id, remote)]);
      PutCarried(d, r, Held(m, rest), d.sent);
    }
  }

  lemma ReadCarried(d: Device, r: Ref, inputs: seq<Input>)
    requires Linked(d) && r in d.locals && Sighted(d, d.locals[r])
    ensures Carried(d, ReadPart(d, r, inputs))
  {
    hide Linked, Sighted, Gather, CloseLocal, Spoken, Carried;
    var l := d.locals[r];
    LiveFar(d, r);
    SelfCarried(d);
    CloseCarried(d, r);
    var wrte := Wrte(l.id, if l.peer.Some? then d.remotes[l.peer.value].id else 0, Gather(MAX_PAYLOAD, inputs).0);
    PutCarried(d, r, Spoken(l), d.sent + [wrte]);
    PutCloseCarried(d, r, Spoken(l), d.sent + [wrte]);
  }

  lemma WriteCarried(d: Device, r: Ref, answers: seq<Answer>)
    requires Linked(d) && r in d.locals && Sighted(d, d.locals[r]) && (!d.locals[r].closing ==> d.locals[r].peer.Some?)
    ensures Carried(d, WritePart(d, r, answers).0)
  {
    hide Linked, Sighted, Drain, CloseLocal, Flushed, Granted, Arm, Carried;
    LiveFar(d, r);
    var l := d.locals[r];
    var m := Flushed(l, Drain(l.queue, answers, []));
    PutCarried(d, r, m, d.sent);
    PutCloseCarried(d, r, m, d.sent);
    PutCarried(d, r, Granted(Arm(m, m.wantRead, false)), d.sent + [Okay(l.id, if l.peer.Some? then d.remotes[l.peer.value].id else 0)]);
  }

  lemma ServeCarried(d: Device, r: Ref, answers: seq<Answer>, inputs: seq<Input>)
    requires Valid(d) && Pending(d, r)
    ensures Carried(d, Dispatch(d, r, answers, inputs))
  {
    hide Linked, Sound, WritePart, ReadPart, Valid, Sighted, Carried;
    LinkedOf(d);
    LinkedSighted(d, r);
    TakenKeeps(d, r);
    var l, e := d.locals[r], Taken(d, r);
    LinkedOf(e);
    LinkedSighted(e, r);
    PutCarried(d, r, l.(pendRead := false, pendWrite := false), d.sent);
    if l.pendWrite {
      WriteSays(e, r, answers);
      WriteStays(e, r, answers);
      WriteCarried(e, r, answers);
      CarriedTwice(d, e, WritePart(e, r, answers).0);
    }
    var (f, on) := if l.pendWrite then WritePart(e, r, answers) else (e, true);
    if on && l.pendRead {
      LinkedSighted(f, r);
      ReadCarried(f, r, inputs);
      CarriedTwice(d, f, ReadPart(f, r, inputs));
    }
  }

  lemma AcceptCarried(d: Device, remote: nat)
    requires Linked(d)
    ensures Carried(d, Accept(d, remote))
  {
    SelfCarried(d);
    hide Linked, Ready, Granted;
  }

  lemma PacketCarried(d: Device, p: Packet, opens: bool, answers: seq<Answer>)
    requires Valid(d)
    ensures Carried(d, HandlePacket(d, p, opens, answers))
  {
    hide Valid, Linked, Offline, Accept, CloseLocal, Enqueue, Sighted, Addressed, Ready, Carried;
    LinkedOf(d);
    SelfCarried(d);
    match p
    case Sync(on) =>
      OfflineCarried(d);
      SwitchCarried(d, d, d.online, d.sent + [p]);
      SwitchCarried(d, Offline(d), false, Offline(d).sent + [p]);
    case Cnxn =>
      OfflineCarried(d);
      var e := if d.online then Offline(d) else d;
      SwitchCarried(d, e, true, e.sent + [Cnxn]);
    case Open(remote) =>
      AcceptCarried(d, remote);
      SwitchCarried(d, d, d.online, d.sent + [Clse(0, remote)]);
    case Okay(_, id) =>
      var r := Addressed(d, id);
      if r.Some? { PutCarried(d, r.value, Ready(d.locals[r.value]), d.sent); }
    case Clse(_, id) =>
      var r := Addressed(d, id);
      if r.Some? { CloseCarried(d, r.value); }
    case Wrte(remote, id, data) =>
      var r := Addressed(d, id);
      if r.Some? { EnqueueCarried(d, r.value, data, remote, answers); }
  }

  lemma NextCarried(d: Device, op: Op)
    requires Valid(d)
    ensures Carried(d, Next(d, op))
  {
    hide Valid, HandlePacket, Dispatch, CloseAll, Carried, Linked;
    LinkedOf(d);
    SelfCarried(d);
    match op
    case Arrives(p, opens, answers) => PacketCarried(d, p, opens, answers);
    case Noticed(r, read, write) =>
      if r in d.locals {
        var l := d.locals[r];
        PutCarried(d, r, l.(pendRead := l.pendRead || read, pendWrite := l.pendWrite || write), d.sent);
      }
    case Dispatched(r, answers, inputs) => if Pending(d, r) { ServeCarried(d, r, answers, inputs); }
    case AllClosed => CloseAllCarried(d);
  }

  lemma {:induction false} DrivenCarried(ops: seq<Op>, k: nat)
    requires k <= |ops|
    ensures Carried(Driven(ops[..k]), Driven(ops))
    decreases |ops|
  {
    hide *;
    if k == |ops| {
      assert ops[..k] == ops;
      LinkedOf(Driven(ops));
      SelfCarried(Driven(ops));
    } else {
      var n := |ops| - 1;
      assert ops[..n][..k] == ops[..k];
      DrivenCarried(ops[..n], k);
      DrivenNext(ops);
      NextCarried(Driven(ops[..n]), ops[n]);
      CarriedTwice(Driven(ops[..k]), Driven(ops[..n]), Driven(ops));
    }
  }

  /** In all of a run an id is that of one socket only, so what is said of an id is said of that socket. */
  lemma IdsNameOne(ops: seq<Op>, k: nat, r: Ref, s: Ref)
    requires k <= |ops| && r in Driven(ops[..k]).live && s in Driven(ops).live
    ensures r in Driven(ops[..k]).locals && s in Driven(ops).locals
    ensures Driven(ops[..k]).locals[r].id == Driven(ops).locals[s].id ==> r == s
  {
    DrivenCarried(ops, k);
    var d, e := Driven(ops[..k]), Driven(ops);
    hide Driven, Sound, Fair, NoDup;
    assert Valid(d) && Valid(e);
    assert LiveOk(d, r);
    if d.locals[r].id == e.locals[s].id {
      assert SameId(d, r, s);
    }
  }
}
