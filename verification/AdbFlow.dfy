/** The device and a host that obeys the protocol, with packets under way in both directions. */
module AdbFlow {
  import opened Bytes
  import opened AdbSockets

  /**
   * dev.sent holds the packets on their way to the host, toDevice those on their way back. For the device's socket
   * number i, credit is how many OKAYs the host has seen and not yet used, debt how many WRTEs it has yet to acknowledge.
   */
  datatype System = System(dev: Device, toDevice: seq<Packet>, credit: map<nat, nat>, debt: map<nat, nat>)

  function At(m: map<nat, nat>, i: nat): nat { if i in m then m[i] else 0 }

  // ----- Counting packets -----

  datatype Kind = OkayFrom(id: nat) | WrteFrom(id: nat) | OkayTo(id: nat) | WrteTo(id: nat)

  predicate Is(p: Packet, k: Kind) {
    match k
    case OkayFrom(i) => p.Okay? && p.local == i
    case WrteFrom(i) => p.Wrte? && p.local == i
    case OkayTo(i) => p.Okay? && p.remote == i
    case WrteTo(i) => p.Wrte? && p.remote == i
  }

  function Count(ps: seq<Packet>, k: Kind): nat {
    if ps == [] then 0 else (if Is(ps[0], k) then 1 else 0) + Count(ps[1..], k)
  }

  lemma {:induction false} CountAppend(ps: seq<Packet>, p: Packet, k: Kind)
    ensures Count(ps + [p], k) == Count(ps, k) + if Is(p, k) then 1 else 0
  {
    if ps == [] {
      assert ps + [p] == [p] && [p][1..] == [];
    } else {
      assert (ps + [p])[1..] == ps[1..] + [p];
      CountAppend(ps[1..], p, k);
    }
  }

  // ----- Tokens -----

  /** The right to send to the socket r: with the host, under way as a WRTE, in the queue, or under way back as an OKAY. */
  function Inward(s: System, l: Local): nat {
    At(s.credit, l.id) + Count(s.toDevice, WrteTo(l.id)) + |l.queue| + Count(s.dev.sent, OkayFrom(l.id))
  }

  /** The right to send for the socket r: with the socket, under way as a WRTE, with the host, or under way back as an OKAY. */
  function Outward(s: System, l: Local): nat {
    (if l.wantRead then 1 else 0) + Count(s.dev.sent, WrteFrom(l.id)) + At(s.debt, l.id) + Count(s.toDevice, OkayTo(l.id))
  }

  ghost predicate Balanced(s: System, r: Ref) {
    r in s.dev.locals && Inward(s, s.dev.locals[r]) == 1 && Outward(s, s.dev.locals[r]) == 1
  }

  /** Nothing has been heard of the socket number i. */
  ghost predicate Quiet(s: System, i: nat) {
    && At(s.credit, i) == 0 && At(s.debt, i) == 0
    && Count(s.dev.sent, OkayFrom(i)) == 0 && Count(s.dev.sent, WrteFrom(i)) == 0
    && Count(s.toDevice, OkayTo(i)) == 0 && Count(s.toDevice, WrteTo(i)) == 0
  }

  ghost predicate Inv(s: System) {
    Valid(s.dev) && (forall r :: r in s.dev.live ==> Balanced(s, r)) && (forall i: nat :: i >= s.dev.nextId ==> Quiet(s, i))
  }

  // ----- Steps -----

  datatype Step =
    | HostSays(p: Packet)
    | HostWrites(local: nat, id: nat, data: seq<Byte>)
    | HostAcknowledges(local: nat, id: nat)
    | HostHears
    | Deliver(opens: bool, answers: seq<Answer>)
    | Notices(r: Ref, read: bool, write: bool)
    | Dispatches(r: Ref, answers: seq<Answer>, inputs: seq<Input>)
    | ClosesAll

  /** Whether a step can happen. The host writes only with credit, and acknowledges only what it has received. */
  predicate Enabled(s: System, step: Step) {
    match step
    case HostSays(p) => !p.Wrte? && !p.Okay?
    case HostWrites(_, id, _) => At(s.credit, id) > 0
    case HostAcknowledges(_, id) => At(s.debt, id) > 0
    case HostHears => s.dev.sent != []
    case Deliver(_, _) => s.toDevice != []
    case Notices(r, read, write) =>
      r in s.dev.locals && (read ==> s.dev.locals[r].wantRead) && (write ==> s.dev.locals[r].wantWrite)
    case Dispatches(r, _, _) => Pending(s.dev, r)
    case ClosesAll => true
  }

  /** The host takes in a packet: an OKAY is credit, a WRTE is debt. */
  function Hear(s: System): System
    requires s.dev.sent != []
  {
    var p := s.dev.sent[0];
    var t := s.(dev := s.dev.(sent := s.dev.sent[1..]));
    match p
    case Okay(i, _) => t.(credit := t.credit[i := At(t.credit, i) + 1])
    case Wrte(i, _, _) => t.(debt := t.debt[i := At(t.debt, i) + 1])
    case _ => t
  }

  function Post(s: System, p: Packet): System { s.(toDevice := s.toDevice + [p]) }

  function Write(s: System, local: nat, id: nat, data: seq<Byte>): System
    requires At(s.credit, id) > 0
  {
    Post(s.(credit := s.credit[id := At(s.credit, id) - 1]), Wrte(local, id, data))
  }

  function Acknowledge(s: System, local: nat, id: nat): System
    requires At(s.debt, id) > 0
  {
    Post(s.(debt := s.debt[id := At(s.debt, id) - 1]), Okay(local, id))
  }

  function Receive(s: System, opens: bool, answers: seq<Answer>): System
    requires Valid(s.dev) && s.toDevice != []
  {
    s.(dev := HandlePacket(s.dev, s.toDevice[0], opens, answers), toDevice := s.toDevice[1..])
  }

  function Apply(s: System, step: Step): System
    requires Valid(s.dev) && Enabled(s, step)
  {
    match step
    case HostSays(p) => Post(s, p)
    case HostWrites(local, id, data) => Write(s, local, id, data)
    case HostAcknowledges(local, id) => Acknowledge(s, local, id)
    case HostHears => Hear(s)
    case Deliver(opens, answers) => Receive(s, opens, answers)
    case Notices(r, read, write) => s.(dev := Notice(s.dev, r, read, write))
    case Dispatches(r, answers, inputs) => s.(dev := Dispatch(s.dev, r, answers, inputs))
    case ClosesAll => s.(dev := CloseAll(s.dev))
  }

  // ----- The host's steps -----

  /** Steps that only move packets leave the device as it was, and every token in play. */
  ghost predicate Moved(s: System, t: System) {
    && t.dev == s.dev.(sent := t.dev.sent)
    && (forall l: Local :: Inward(t, l) == Inward(s, l) && Outward(t, l) == Outward(s, l))
    && (forall i: nat :: Quiet(s, i) ==> Quiet(t, i))
  }

  lemma MovedInv(s: System, t: System)
    requires Inv(s) && Moved(s, t)
    ensures Inv(t)
  {
    Resent(s.dev, t.dev.sent);
    hide Valid, Inward, Outward, Quiet;
    forall r | r in t.dev.live
      ensures Balanced(t, r)
    {
      assert Balanced(s, r);
    }
  }

  lemma SayMoves(s: System, p: Packet)
    requires !p.Wrte? && !p.Okay?
    ensures Moved(s, Post(s, p))
  {
    forall k: Kind
      ensures Count(s.toDevice + [p], k) == Count(s.toDevice, k)
    {
      CountAppend(s.toDevice, p, k);
    }
  }

  lemma WriteMoves(s: System, local: nat, id: nat, data: seq<Byte>)
    requires At(s.credit, id) > 0
    ensures Moved(s, Write(s, local, id, data))
  {
    var p := Wrte(local, id, data);
    forall k: Kind
      ensures Count(s.toDevice + [p], k) == Count(s.toDevice, k) + if Is(p, k) then 1 else 0
    {
      CountAppend(s.toDevice, p, k);
    }
    hide Count;
  }

  lemma AcknowledgeMoves(s: System, local: nat, id: nat)
    requires At(s.debt, id) > 0
    ensures Moved(s, Acknowledge(s, local, id))
  {
    var p := Okay(local, id);
    forall k: Kind
      ensures Count(s.toDevice + [p], k) == Count(s.toDevice, k) + if Is(p, k) then 1 else 0
    {
      CountAppend(s.toDevice, p, k);
    }
    hide Count;
  }

  lemma CountFirst(ps: seq<Packet>, k: Kind)
    requires ps != []
    ensures Count(ps, k) == Count(ps[1..], k) + if Is(ps[0], k) then 1 else 0
  {
  }

  lemma HearMoves(s: System)
    requires s.dev.sent != []
    ensures Moved(s, Hear(s))
  {
    hide Count;
    var p, t := s.dev.sent[0], Hear(s);
    forall k: Kind
      ensures Count(s.dev.sent, k) == Count(t.dev.sent, k) + if Is(p, k) then 1 else 0
    {
      CountFirst(s.dev.sent, k);
    }
    forall i: nat
      ensures At(t.credit, i) == At(s.credit, i) + if Is(p, OkayFrom(i)) then 1 else 0
      ensures At(t.debt, i) == At(s.debt, i) + if Is(p, WrteFrom(i)) then 1 else 0
    {
    }
    assert t.toDevice == s.toDevice && t.dev == s.dev.(sent := t.dev.sent);
    hide At, Is, Hear;
  }

  // ----- The device's steps -----

  /** What an operation on the socket r may change: r itself, and packets sent in the name of r. */
  ghost predicate Confined(d: Device, e: Device, r: Ref) {
    && r in d.locals && e.nextId == d.nextId
    && (forall x :: x in e.live && x != r ==> x in d.live && x in e.locals && x in d.locals && e.locals[x] == d.locals[x])
    && (forall i: nat :: i != d.locals[r].id ==>
          Count(e.sent, OkayFrom(i)) == Count(d.sent, OkayFrom(i)) && Count(e.sent, WrteFrom(i)) == Count(d.sent, WrteFrom(i)))
  }

  lemma ConfinedTwice(d: Device, e: Device, f: Device, r: Ref)
    requires Confined(d, e, r) && Confined(e, f, r) && e.locals[r].id == d.locals[r].id
    ensures Confined(d, f, r)
  {
    hide Count;
  }

  /** The tokens of r that the device holds or has under way. */
  function HeldIn(d: Device, l: Local): nat { |l.queue| + Count(d.sent, OkayFrom(l.id)) }
  function HeldOut(d: Device, l: Local): nat { (if l.wantRead then 1 else 0) + Count(d.sent, WrteFrom(l.id)) }

  lemma Tokens(s: System, l: Local)
    ensures Inward(s, l) == At(s.credit, l.id) + Count(s.toDevice, WrteTo(l.id)) + HeldIn(s.dev, l)
    ensures Outward(s, l) == At(s.debt, l.id) + Count(s.toDevice, OkayTo(l.id)) + HeldOut(s.dev, l)
  {
    hide Count, At;
  }

  /** If r is still live it was live before, and the device holds so many tokens more of the right to send to it. */
  ghost predicate Traded(d: Device, e: Device, r: Ref, more: nat) {
    r in e.live ==>
      && r in d.live && r in d.locals && r in e.locals && e.locals[r].id == d.locals[r].id
      && HeldIn(e, e.locals[r]) == HeldIn(d, d.locals[r]) + more && HeldOut(e, e.locals[r]) == HeldOut(d, d.locals[r])
  }

  /** An operation on r keeps every other socket balanced, and everything unheard of unheard of. */
  lemma OthersBalanced(s: System, t: System, r: Ref)
    requires Inv(s) && Confined(s.dev, t.dev, r) && Valid(t.dev) && t.credit == s.credit && t.debt == s.debt
    requires forall i: nat :: i != s.dev.locals[r].id ==>
      Count(t.toDevice, OkayTo(i)) == Count(s.toDevice, OkayTo(i)) && Count(t.toDevice, WrteTo(i)) == Count(s.toDevice, WrteTo(i))
    ensures forall x :: x in t.dev.live && x != r ==> Balanced(t, x)
    ensures forall i: nat :: i >= t.dev.nextId ==> Quiet(t, i)
  {
    hide Count, Valid, At;
    forall x | x in t.dev.live && x != r
      ensures Balanced(t, x)
    {
      assert Balanced(s, x);
      OtherId(s.dev, x, r);
    }
    forall i: nat | i >= t.dev.nextId
      ensures Quiet(t, i)
    {
      assert Quiet(s, i);
      KnownId(s.dev, r);
    }
  }

  lemma OtherId(d: Device, x: Ref, r: Ref)
    requires Valid(d) && x in d.live && r in d.locals && x != r
    ensures x in d.locals && d.locals[x].id != d.locals[r].id
  {
    hide Sound, Fair, NoDup;
    assert LiveOk(d, x) && (LiveOk(d, r) || ClosingOk(d, r)) && !(r in d.live && SameId(d, x, r));
  }

  lemma KnownId(d: Device, r: Ref)
    requires Valid(d) && r in d.locals
    ensures d.locals[r].id < d.nextId
  {
    hide Sound, Fair, NoDup;
    assert LiveOk(d, r) || ClosingOk(d, r);
  }

  lemma LiveLocals(d: Device)
    requires Linked(d)
    ensures forall x :: x in d.live ==> x in d.locals
  {
    assert forall x :: x in d.live ==> LiveOk(d, x);
    hide NoDup;
  }

  lemma PutConfined(d: Device, r: Ref, l: Local, p: Packet)
    requires Linked(d) && r in d.locals && (p.Okay? || p.Wrte? ==> p.local == d.locals[r].id)
    ensures Confined(d, Put(d, r, l), r) && Confined(d, Send(Put(d, r, l), p), r)
  {
    hide Linked, Count;
    LiveLocals(d);
    forall i: nat | i != d.locals[r].id
      ensures Count(d.sent + [p], OkayFrom(i)) == Count(d.sent, OkayFrom(i))
      ensures Count(d.sent + [p], WrteFrom(i)) == Count(d.sent, WrteFrom(i))
    {
      CountAppend(d.sent, p, OkayFrom(i));
      CountAppend(d.sent, p, WrteFrom(i));
    }
  }

  lemma CloseConfined(d: Device, r: Ref)
    requires Linked(d) && r in d.locals && Sighted(d, d.locals[r])
    ensures Confined(d, CloseLocal(d, r), r) && r !in CloseLocal(d, r).live
  {
    hide *;
    CloseShape(d, r);
    LiveLocals(d);
    CloseSends(d, r);
    ClosedConfined(d, CloseLocal(d, r), r);
  }

  lemma ClosedConfined(d: Device, e: Device, r: Ref)
    requires r in d.locals && Closed(d, e, r) && (forall x :: x in d.live ==> x in d.locals)
    requires forall k: Kind :: Count(e.sent, k) == Count(d.sent, k)
    ensures Confined(d, e, r) && r !in e.live
  {
    hide Count;
  }

  lemma CloseSends(d: Device, r: Ref)
    requires r in d.locals && Sighted(d, d.locals[r])
    ensures forall k: Kind :: Count(CloseLocal(d, r).sent, k) == Count(d.sent, k)
  {
    forall k: Kind
      ensures Count(CloseLocal(d, r).sent, k) == Count(d.sent, k)
    {
      if d.locals[r].peer.Some? {
        CountAppend(d.sent, Clse(0, d.remotes[d.locals[r].peer.value].id), k);
      }
    }
  }

  /** A payload that arrives becomes one token more: a packet in the queue, or an OKAY. */
  lemma EnqueueHeld(d: Device, r: Ref, p: seq<Byte>, remote: nat, answers: seq<Answer>)
    requires Linked(d) && r in d.live && r in d.locals && Sighted(d, d.locals[r])
    ensures Confined(d, Enqueue(d, r, p, remote, answers), r) && Traded(d, Enqueue(d, r, p, remote, answers), r, 1)
  {
    hide Linked, Push, CloseLocal, Queued, Pushed, Held, Granted, Count, Confined;
    var l := d.locals[r];
    var (rest, failed) := Push(p, answers);
    var m := Pushed(l, p, rest);
    var okay := Okay(l.id, remote);
    PutConfined(d, r, Queued(l, p), okay);
    PutConfined(d, r, m, okay);
    PutConfined(d, r, Held(m, rest), okay);
    PutConfined(d, r, Granted(m), okay);
    CountAppend(d.sent, okay, OkayFrom(l.id));
    CountAppend(d.sent, okay, WrteFrom(l.id));
    if l.queue == [] && failed {
      PutLinked(d, r, m, d.sent);
      CloseConfined(Put(d, r, m), r);
      ConfinedTwice(d, Put(d, r, m), CloseLocal(Put(d, r, m), r), r);
    }
  }

  /** Writing turns the one packet that may be queued into an OKAY, or leaves it in the queue. */
  lemma WriteHeld(d: Device, r: Ref, answers: seq<Answer>)
    requires Linked(d) && r in d.locals && Sighted(d, d.locals[r]) && (!d.locals[r].closing ==> d.locals[r].peer.Some? && |d.locals[r].queue| == 1)
    ensures Stage(d, WritePart(d, r, answers).0, r)
  {
    hide Linked, Drain, CloseLocal, Flushed, Granted, Count, Confined, Concat, Arm;
    LinkedSighted(d, r);
    var l := d.locals[r];
    var w := Drain(l.queue, answers, []);
    DrainMoves(l.queue, answers, []);
    var m := Flushed(l, w);
    var okay := Okay(l.id, if l.peer.Some? then d.remotes[l.peer.value].id else 0);
    PutConfined(d, r, m, okay);
    PutConfined(d, r, Granted(Arm(m, m.wantRead, false)), okay);
    CountAppend(d.sent, okay, OkayFrom(l.id));
    CountAppend(d.sent, okay, WrteFrom(l.id));
    if w.end == Broken || (w.end == Emptied && l.closing) {
      PutLinked(d, r, m, d.sent);
      CloseConfined(Put(d, r, m), r);
      ConfinedTwice(d, Put(d, r, m), CloseLocal(Put(d, r, m), r), r);
    }
  }

  /** Reading turns the right to read into a WRTE, or leaves it. */
  lemma ReadHeld(d: Device, r: Ref, inputs: seq<Input>)
    requires Linked(d) && r in d.locals && Sighted(d, d.locals[r]) && (!d.locals[r].closing ==> d.locals[r].wantRead)
    ensures Stage(d, ReadPart(d, r, inputs), r)
  {
    hide Linked, Gather, CloseLocal, Spoken, Count, Confined;
    LinkedSighted(d, r);
    var l := d.locals[r];
    var (data, eof) := Gather(MAX_PAYLOAD, inputs);
    var wrte := Wrte(l.id, if l.peer.Some? then d.remotes[l.peer.value].id else 0, data);
    PutConfined(d, r, Spoken(l), wrte);
    PutConfined(d, r, l, wrte);
    assert d == Put(d, r, l);
    CountAppend(d.sent, wrte, OkayFrom(l.id));
    CountAppend(d.sent, wrte, WrteFrom(l.id));
    var e := if data == [] || l.peer.None? then d else Send(Put(d, r, Spoken(l)), wrte);
    if eof {
      PutLinked(d, r, Spoken(l), d.sent + [wrte]);
      CloseConfined(e, r);
      ConfinedTwice(d, e, CloseLocal(e, r), r);
    }
  }

  lemma TakenHeld(d: Device, r: Ref)
    requires Linked(d) && r in d.locals
    ensures Stage(d, Taken(d, r), r)
  {
    PutConfined(d, r, Taken(d, r).locals[r], Cnxn);
    hide Linked, Count;
  }

  /** One stage of a callback. */
  ghost predicate Stage(d: Device, e: Device, r: Ref) { Confined(d, e, r) && Traded(d, e, r, 0) }

  lemma StageTwice(d: Device, e: Device, f: Device, r: Ref)
    requires Stage(d, e, r) && Stage(e, f, r) && r in d.locals && r in e.locals && SameEnds(d.locals[r], e.locals[r])
    ensures Stage(d, f, r)
  {
    hide Count;
  }

  lemma DispatchHeld(d: Device, r: Ref, answers: seq<Answer>, inputs: seq<Input>)
    requires Valid(d) && Pending(d, r) && (r in d.live ==> |d.locals[r].queue| <= 1)
    ensures Stage(d, Dispatch(d, r, answers, inputs), r)
  {
    hide Linked, Sound, Stage, WritePart, ReadPart, Valid, Sighted;
    LinkedOf(d);
    LinkedSighted(d, r);
    PendingMeans(d, r);
    TakenKeeps(d, r);
    TakenHeld(d, r);
    var l, e := d.locals[r], Taken(d, r);
    LinkedOf(e);
    LinkedSighted(e, r);
    if l.pendWrite {
      WriteStage(e, r, answers);
      var (e1, on) := WritePart(e, r, answers);
      StageTwice(d, e, e1, r);
      if on && l.pendRead {
        LinkedOf(e1);
        ReadHeld(e1, r, inputs);
        StageTwice(d, e1, ReadPart(e1, r, inputs), r);
      }
    } else {
      ReadHeld(e, r, inputs);
      StageTwice(d, e, ReadPart(e, r, inputs), r);
    }
  }

  lemma WriteStage(d: Device, r: Ref, answers: seq<Answer>)
    requires Valid(d) && r in d.locals && Sighted(d, d.locals[r]) && !d.locals[r].pendWrite
    requires !d.locals[r].closing ==> d.locals[r].peer.Some? && |d.locals[r].queue| == 1
    ensures var (e, on) := WritePart(d, r, answers);
      && Valid(e) && Stage(d, e, r)
      && (on ==> r in e.locals && SameEnds(d.locals[r], e.locals[r]) && e.locals[r].wantRead == d.locals[r].wantRead && Sighted(e, e.locals[r]))
  {
    hide Linked, Sound, Stage, WritePart, Valid;
    LinkedOf(d);
    WritePartKeeps(d, r, answers);
    WriteHeld(d, r, answers);
    WriteStays(d, r, answers);
  }

  // ----- Every step keeps the balance -----

  lemma StageInv(s: System, e: Device, r: Ref)
    requires Inv(s) && Valid(e) && Stage(s.dev, e, r)
    ensures Inv(s.(dev := e))
  {
    hide Valid, Confined, Count, Quiet, Inward, Outward, HeldIn, HeldOut;
    var t := s.(dev := e);
    OthersBalanced(s, t, r);
    if r in e.live {
      assert Balanced(s, r);
      Tokens(s, s.dev.locals[r]);
      Tokens(t, e.locals[r]);
    }
  }

  lemma DispatchInv(s: System, r: Ref, answers: seq<Answer>, inputs: seq<Input>)
    requires Inv(s) && Pending(s.dev, r)
    ensures Inv(s.(dev := Dispatch(s.dev, r, answers, inputs)))
  {
    hide Valid, Dispatch, Count, Quiet, Stage;
    assert r in s.dev.live ==> Balanced(s, r);
    DispatchKeeps(s.dev, r, answers, inputs);
    DispatchHeld(s.dev, r, answers, inputs);
    StageInv(s, Dispatch(s.dev, r, answers, inputs), r);
  }

  lemma NoticeHeld(d: Device, r: Ref, read: bool, write: bool)
    requires Linked(d) && r in d.locals && (read ==> d.locals[r].wantRead) && (write ==> d.locals[r].wantWrite)
    ensures Stage(d, Notice(d, r, read, write), r)
  {
    PutConfined(d, r, Notice(d, r, read, write).locals[r], Cnxn);
    hide Linked, Count;
  }

  lemma NoticeInv(s: System, r: Ref, read: bool, write: bool)
    requires Inv(s) && Enabled(s, Notices(r, read, write))
    ensures Inv(s.(dev := Notice(s.dev, r, read, write)))
  {
    hide Valid, Notice, Linked, Stage, Quiet, Balanced;
    LinkedOf(s.dev);
    NoticeKeeps(s.dev, r, read, write);
    NoticeHeld(s.dev, r, read, write);
    StageInv(s, Notice(s.dev, r, read, write), r);
  }

  /** A device without a live socket, the same numbers given out, the same tokens under way. */
  lemma IdleInv(s: System, t: System)
    requires Inv(s) && Valid(t.dev) && t.dev.live == [] && t.dev.nextId == s.dev.nextId && t.credit == s.credit && t.debt == s.debt
    requires forall k: Kind :: Count(t.dev.sent, k) == Count(s.dev.sent, k)
    requires forall i: nat :: Quiet(s, i) ==> Count(t.toDevice, OkayTo(i)) == 0 && Count(t.toDevice, WrteTo(i)) == 0
    ensures Inv(t)
  {
    hide Valid, Count;
    forall i: nat | i >= t.dev.nextId
      ensures Quiet(t, i)
    {
      assert Quiet(s, i);
    }
  }

  /** Closing everything sends nothing but CLSE, and gives out no number. */
  lemma {:induction false} CloseAllSends(d: Device)
    requires Valid(d)
    ensures CloseAll(d).nextId == d.nextId && forall k: Kind :: Count(CloseAll(d).sent, k) == Count(d.sent, k)
    decreases |d.live|
  {
    if d.live != [] {
      var r := d.live[0];
      LinkedOf(d);
      LiveLocals(d);
      LinkedSighted(d, r);
      SoundClosable(d, r);
      CloseKeeps(d, r);
      CloseShape(d, r);
      CloseSends(d, r);
      hide Valid, Linked, CloseLocal, Count, Sighted;
      CloseAllSends(CloseLocal(d, r));
    }
  }

  lemma {:induction false} OfflineGives(d: Device)
    requires Valid(d)
    ensures Offline(d).nextId == d.nextId
    decreases |d.live|
  {
    if d.live != [] {
      var r := d.live[0];
      LinkedOf(d);
      DisconnectKeeps(d, r);
      DisconnectCloses(d, r);
      CloseShape(d, r);
      hide Valid, Linked, CloseLocal, Sighted, Disconnect;
      OfflineGives(Disconnect(d, r));
    }
  }

  /** The packet delivered is no longer under way. */
  lemma TailCounts(ps: seq<Packet>)
    requires ps != []
    ensures forall k: Kind :: Count(ps, k) == Count(ps[1..], k) + if Is(ps[0], k) then 1 else 0
  {
    forall k: Kind
      ensures Count(ps, k) == Count(ps[1..], k) + if Is(ps[0], k) then 1 else 0
    {
      CountFirst(ps, k);
    }
  }

  /** A delivered packet that concerns no live socket, and sends at most something that is neither WRTE nor OKAY. */
  lemma LostInv(s: System, t: System)
    requires Inv(s) && s.toDevice != [] && t == s.(toDevice := s.toDevice[1..], dev := s.dev.(sent := t.dev.sent))
    requires forall k: Kind :: Count(t.dev.sent, k) == Count(s.dev.sent, k)
    requires var p := s.toDevice[0];
      p.Okay? || p.Wrte? ==> forall x :: x in s.dev.live ==> x in s.dev.locals && s.dev.locals[x].id != p.remote
    ensures Inv(t)
  {
    TailCounts(s.toDevice);
    Resent(s.dev, t.dev.sent);
    hide Valid, Count, At;
    forall x | x in t.dev.live
      ensures Balanced(t, x)
    {
      assert Balanced(s, x);
    }
    forall i: nat | i >= t.dev.nextId
      ensures Quiet(t, i)
    {
      assert Quiet(s, i);
    }
  }

  /** A delivered packet that only concerns the live socket r. */
  lemma FoundInv(s: System, t: System, r: Ref)
    requires Inv(s) && s.toDevice != [] && r in s.dev.live && r in s.dev.locals
    requires t.toDevice == s.toDevice[1..] && t.credit == s.credit && t.debt == s.debt
    requires Valid(t.dev) && Confined(s.dev, t.dev, r)
    requires var p := s.toDevice[0]; p.Clse? || (p.Okay? && p.remote == s.dev.locals[r].id) || (p.Wrte? && p.remote == s.dev.locals[r].id)
    requires r in t.dev.live ==>
      && r in t.dev.locals && t.dev.locals[r].id == s.dev.locals[r].id
      && HeldIn(t.dev, t.dev.locals[r]) == HeldIn(s.dev, s.dev.locals[r]) + (if s.toDevice[0].Wrte? then 1 else 0)
      && HeldOut(t.dev, t.dev.locals[r]) == HeldOut(s.dev, s.dev.locals[r]) + (if s.toDevice[0].Okay? then 1 else 0)
    ensures Inv(t)
  {
    hide Valid, Count, At, Confined, Inward, Outward, HeldIn, HeldOut, Quiet;
    TailCounts(s.toDevice);
    OthersBalanced(s, t, r);
    assert Balanced(s, r);
    Tokens(s, s.dev.locals[r]);
    if r in t.dev.live { Tokens(t, t.dev.locals[r]); }
  }

  lemma ReceiveOkay(s: System, r: Ref)
    requires Inv(s) && s.toDevice != [] && s.toDevice[0].Okay? && r in s.dev.live && LiveOk(s.dev, r) && s.dev.locals[r].id == s.toDevice[0].remote
    ensures Inv(s.(toDevice := s.toDevice[1..], dev := Put(s.dev, r, Ready(s.dev.locals[r]))))
  {
    var l := s.dev.locals[r];
    var t := s.(toDevice := s.toDevice[1..], dev := Put(s.dev, r, Ready(l)));
    ReadyKeeps(s.dev, r);
    LinkedOf(s.dev);
    PutConfined(s.dev, r, Ready(l), Cnxn);
    TailCounts(s.toDevice);
    hide Valid, Count, At, Confined, Ready, Linked;
    assert Balanced(s, r);
    FoundInv(s, t, r);
  }

  lemma ReceiveClse(s: System, r: Ref)
    requires Inv(s) && s.toDevice != [] && s.toDevice[0].Clse? && r in s.dev.live && LiveOk(s.dev, r) && Sighted(s.dev, s.dev.locals[r])
    ensures Inv(s.(toDevice := s.toDevice[1..], dev := CloseLocal(s.dev, r)))
  {
    hide Valid, Count, At, Confined, CloseLocal, Linked;
    SoundClosable(s.dev, r);
    CloseKeeps(s.dev, r);
    LinkedOf(s.dev);
    CloseConfined(s.dev, r);
    FoundInv(s, s.(toDevice := s.toDevice[1..], dev := CloseLocal(s.dev, r)), r);
  }

  lemma ReceiveWrte(s: System, r: Ref, answers: seq<Answer>)
    requires Inv(s) && s.toDevice != [] && s.toDevice[0].Wrte? && r in s.dev.live && LiveOk(s.dev, r)
    requires s.dev.locals[r].id == s.toDevice[0].remote && Sighted(s.dev, s.dev.locals[r])
    ensures var p := s.toDevice[0];
      Inv(s.(toDevice := s.toDevice[1..], dev := Enqueue(s.dev, r, p.data, p.local, answers)))
  {
    hide Valid, Count, At, Confined, Enqueue, Linked;
    var p := s.toDevice[0];
    EnqueueKeeps(s.dev, r, p.data, p.local, answers);
    LinkedOf(s.dev);
    EnqueueHeld(s.dev, r, p.data, p.local, answers);
    FoundInv(s, s.(toDevice := s.toDevice[1..], dev := Enqueue(s.dev, r, p.data, p.local, answers)), r);
  }

  /** The new socket starts with both rights in play: its OKAY is under way, and it may read. */
  lemma ReceiveOpen(s: System)
    requires Inv(s) && s.toDevice != [] && s.toDevice[0].Open? && s.dev.online
    ensures Inv(s.(toDevice := s.toDevice[1..], dev := Accept(s.dev, s.toDevice[0].local)))
  {
    hide Valid, Count, At, Linked, Accept;
    var d, remote := s.dev, s.toDevice[0].local;
    var t := s.(toDevice := s.toDevice[1..], dev := Accept(d, remote));
    AcceptKeeps(d, remote);
    LinkedOf(d);
    AcceptShape(d, remote);
    TailCounts(s.toDevice);
    SentCounts(d.sent, Okay(d.nextId, remote));
    assert Quiet(s, d.nextId);
    forall x | x in t.dev.live
      ensures Balanced(t, x)
    {
      if x != d.nextRef {
        assert Balanced(s, x);
        KnownId(d, x);
      }
    }
    forall i: nat | i >= t.dev.nextId
      ensures Quiet(t, i)
    {
      assert Quiet(s, i);
    }
  }

  lemma AcceptShape(d: Device, remote: nat)
    requires Linked(d)
    ensures var e, r := Accept(d, remote), d.nextRef;
      && e.live == d.live + [r] && e.nextId == d.nextId + 1 && e.sent == d.sent + [Okay(d.nextId, remote)]
      && r in e.locals && e.locals[r].id == d.nextId && e.locals[r].queue == [] && e.locals[r].wantRead
      && forall x :: x in d.live ==> x in d.locals && x in e.locals && e.locals[x] == d.locals[x]
  {
    LiveLocals(d);
    FreshRef(d);
    hide Linked, Ready, Granted;
  }

  lemma FreshRef(d: Device)
    requires Linked(d)
    ensures d.nextRef !in d.locals
  {
    hide NoDup;
  }

  lemma SentCounts(ps: seq<Packet>, p: Packet)
    ensures forall k: Kind :: Count(ps + [p], k) == Count(ps, k) + if Is(p, k) then 1 else 0
  {
    forall k: Kind
      ensures Count(ps + [p], k) == Count(ps, k) + if Is(p, k) then 1 else 0
    {
      CountAppend(ps, p, k);
    }
  }

  lemma ReceiveInv(s: System, opens: bool, answers: seq<Answer>)
    requires Inv(s) && s.toDevice != []
    ensures Inv(Receive(s, opens, answers))
  {
    hide Valid, Count, Quiet, Balanced, Offline, Accept, CloseLocal, Enqueue, Sighted, Addressed, LiveOk, Ready;
    var d, p, t := s.dev, s.toDevice[0], Receive(s, opens, answers);
    HandleKeeps(d, p, opens, answers);
    match p
    case Sync(on) =>
      SentCounts(d.sent, p);
      if on { LostInv(s, t); } else { OfflineGives(d); SilentTail(s); IdleInv(s, t); }
    case Cnxn =>
      SentCounts(d.sent, p);
      OfflineGives(d);
      OfflineIdle(d);
      SilentTail(s);
      IdleInv(s, t);
    case Open(remote) =>
      SentCounts(d.sent, Clse(0, remote));
      if d.online && opens { ReceiveOpen(s); } else { LostInv(s, t); }
    case Okay(_, id) =>
      OfflineIdle(d);
      if Addressed(d, id).None? { LostInv(s, t); } else { ReceiveOkay(s, Addressed(d, id).value); }
    case Clse(_, id) =>
      if Addressed(d, id).None? { LostInv(s, t); } else { ReceiveClse(s, Addressed(d, id).value); }
    case Wrte(_, id, _) =>
      OfflineIdle(d);
      if Addressed(d, id).None? { LostInv(s, t); } else { ReceiveWrte(s, Addressed(d, id).value, answers); }
  }

  lemma OfflineIdle(d: Device)
    requires Valid(d)
    ensures !d.online ==> d.live == []
  {
    hide Sound, Fair, NoDup;
  }

  lemma SilentTail(s: System)
    requires s.toDevice != []
    ensures forall i: nat :: Quiet(s, i) ==> Count(s.toDevice[1..], OkayTo(i)) == 0 && Count(s.toDevice[1..], WrteTo(i)) == 0
  {
    TailCounts(s.toDevice);
    hide Count;
  }

  /** Every step keeps the invariant. */
  lemma StepInv(s: System, step: Step)
    requires Inv(s) && Enabled(s, step)
    ensures Inv(Apply(s, step))
  {
    hide Valid, Quiet, Balanced, Count, Dispatch, Notice, Receive, Hear, Post, Write, Acknowledge, CloseAll, Moved;
    match step
    case HostSays(p) => SayMoves(s, p); MovedInv(s, Post(s, p));
    case HostWrites(local, id, data) => WriteMoves(s, local, id, data); MovedInv(s, Write(s, local, id, data));
    case HostAcknowledges(local, id) => AcknowledgeMoves(s, local, id); MovedInv(s, Acknowledge(s, local, id));
    case HostHears => HearMoves(s); MovedInv(s, Hear(s));
    case Deliver(opens, answers) => ReceiveInv(s, opens, answers);
    case Notices(r, read, write) => NoticeInv(s, r, read, write);
    case Dispatches(r, answers, inputs) => DispatchInv(s, r, answers, inputs);
    case ClosesAll =>
      CloseAllSends(s.dev);
      QuietMeans(s);
      IdleInv(s, s.(dev := CloseAll(s.dev)));
  }

  lemma QuietMeans(s: System)
    ensures forall i: nat :: Quiet(s, i) ==> Count(s.toDevice, OkayTo(i)) == 0 && Count(s.toDevice, WrteTo(i)) == 0
  {
    hide Count;
  }

  // ----- Whole runs -----

  function Start(): System {
    System(Device(map[], map[], [], [], 1, 0, false, [], map[]), [], map[], map[])
  }

  /** The system after a schedule of steps; steps that cannot happen when their turn comes are passed over. */
  function After(steps: seq<Step>): (s: System)
    ensures Inv(s)
    decreases |steps|
  {
    if steps == [] then Start()
    else
      var s := After(steps[..|steps| - 1]);
      var step := steps[|steps| - 1];
      if Enabled(s, step) then StepInv(s, step); Apply(s, step) else s
  }

  /**
   * In every run with an obeying host, exactly one party holds the right to send in each direction of each live socket.
   * So no socket ever has more than one packet queued, and then the host may not write and no OKAY is under way; and no
   * socket ever has more than one WRTE that was not acknowledged, and then it does not read.
   */
  lemma OneAtATime(steps: seq<Step>, r: Ref)
    requires r in After(steps).dev.live
    ensures var s := After(steps); r in s.dev.locals && var l := s.dev.locals[r];
      && |l.queue| <= 1 && Count(s.toDevice, WrteTo(l.id)) <= 1
      && (l.queue != [] ==> At(s.credit, l.id) == 0 && Count(s.toDevice, WrteTo(l.id)) == 0 && Count(s.dev.sent, OkayFrom(l.id)) == 0)
      && Count(s.dev.sent, WrteFrom(l.id)) + At(s.debt, l.id) + Count(s.toDevice, OkayTo(l.id)) == (if l.wantRead then 0 else 1)
  {
    hide After, Count, At, Valid;
    assert Balanced(After(steps), r);
  }
}
