/** What the socket objects show of the device, and the steps that concern one socket. */
module AdbViews {
  import opened Bytes
  import opened AdbSockets
  import opened AdbLists

  /** fdevent_set, on the events of a socket. */
  method SetEvents(s: LocalSocket, read: bool, write: bool)
    modifies s`wantRead, s`wantWrite, s`pendRead, s`pendWrite
    ensures Abs(s) == Arm(old(Abs(s)), read, write)
  {
    if s.wantRead == read && s.wantWrite == write {
      return;
    }
    s.wantRead, s.wantWrite := read, write;
    s.pendRead, s.pendWrite := s.pendRead && !read, s.pendWrite && !write;
  }

  // ----- What the objects show -----

  /** The two lists are linked, and have nothing in common. */
  ghost predicate TwoRings(liveList: LocalSocket, closingList: LocalSocket, live: seq<LocalSocket>, closing: seq<LocalSocket>)
    reads liveList`next, liveList`prev, closingList`next, closingList`prev, live`next, live`prev, closing`next, closing`prev
  {
    && Ring(liveList, live) && Ring(closingList, closing)
    && liveList != closingList && liveList !in closing && closingList !in live && forall s :: s in live ==> s !in closing
  }

  /** Peers point at each other. */
  ghost predicate Paired(live: seq<LocalSocket>, disconnects: seq<RemoteSocket>)
    reads live`peer, disconnects`peer
  {
    |disconnects| == |live| && forall k :: 0 <= k < |live| ==> live[k].peer == disconnects[k] && disconnects[k].peer == live[k]
  }

  /** The numbers of the sockets in the two lists. */
  ghost predicate Numbered(q: seq<LocalSocket>, refs: seq<Ref>) {
    |refs| == |q| && forall k :: 0 <= k < |q| ==> refs[k] == q[k].ref
  }

  /** The remote sockets that the device remembers for the live ones. */
  ghost predicate Remembered(live: seq<LocalSocket>, disconnects: seq<RemoteSocket>, remotes: map<Ref, Remote>) {
    && |disconnects| == |live|
    && forall k :: 0 <= k < |live| ==>
         disconnects[k].ref in remotes && remotes[disconnects[k].ref] == Remote(disconnects[k].id, Some(live[k].ref))
  }

  /** What the socket holds is what the device says of its number. */
  ghost predicate Shown(s: LocalSocket, locals: map<Ref, Local>)
    reads s
  {
    s.ref in locals && locals[s.ref] == Abs(s)
  }

  ghost predicate AllShown(q: seq<LocalSocket>, locals: map<Ref, Local>)
    reads q
  {
    forall k :: 0 <= k < |q| ==> Shown(q[k], locals)
  }

  /** The packets of all the sockets. */
  ghost predicate AllChained(q: seq<LocalSocket>)
    reads q`pktFirst, q`pktLast, q`parcels, q`queue, set t: LocalSocket, n: Parcel | t in q && n in t.parcels :: n
  {
    forall t :: t in q ==> Chained(t)
  }

  lemma SubChained(live: seq<LocalSocket>, closing: seq<LocalSocket>, q: seq<LocalSocket>)
    requires AllChained(live) && AllChained(closing) && forall t :: t in q ==> t in live || t in closing
    ensures AllChained(q)
  {
    hide Chained;
  }

  /** All but s: whatever happens to s does not matter. */
  ghost predicate ShownBut(q: seq<LocalSocket>, s: LocalSocket, locals: map<Ref, Local>)
    reads set t: LocalSocket | t in q && t != s
  {
    forall k :: 0 <= k < |q| && q[k] != s ==> Shown(q[k], locals)
  }

  ghost function Cut<T>(s: seq<T>, k: nat): (t: seq<T>)
    requires k < |s|
    ensures |t| == |s| - 1 && (forall x :: x in t ==> x in s)
  {
    s[..k] + s[k + 1..]
  }

  lemma CloseSends(d: Device, r: Ref)
    requires r in d.locals && Sighted(d, d.locals[r])
    ensures CloseLocal(d, r).sent == d.sent + Goodbye(d, r)
    ensures CloseLocal(d, r).(sent := d.sent + Goodbye(d, r)) == CloseLocal(d, r)
  {
    hide Without, Arm;
  }

  /** The remote sockets but the peer of r. */
  function Rest(d: Device, r: Ref): map<Ref, Remote>
    requires r in d.locals
  {
    if d.locals[r].peer.Some? then d.remotes - {d.locals[r].peer.value} else d.remotes
  }

  /** What the peer of r says when it is closed. */
  function Goodbye(d: Device, r: Ref): seq<Packet>
    requires r in d.locals && Sighted(d, d.locals[r])
  {
    if d.locals[r].peer.Some? then [Clse(0, d.remotes[d.locals[r].peer.value].id)] else []
  }

  /** What is left when s has been taken out of its list and its peer has been freed. */
  ghost predicate Left(s: LocalSocket, d: Device, live: seq<LocalSocket>, closing: seq<LocalSocket>, disconnects: seq<RemoteSocket>)
    requires s.ref in d.locals
    reads live`peer, disconnects`peer
  {
    && Paired(live, disconnects) && s !in live && s !in closing
    && Numbered(live, Without(d.live, s.ref)) && Numbered(closing, Without(d.closing, s.ref))
    && Remembered(live, disconnects, Rest(d, s.ref)) && Apart(live, s) && Apart(closing, s)
  }

  /** Where a socket is. */
  datatype Spot = Live(at: nat) | Closing(at: nat)

  /** Without s, which is at the spot, the lists are live' and rest. */
  ghost predicate At(s: LocalSocket, spot: Spot, live: seq<LocalSocket>, closing: seq<LocalSocket>, live': seq<LocalSocket>, rest: seq<LocalSocket>) {
    match spot
    case Live(k) => k < |live| && live[k] == s && live' == Cut(live, k) && rest == closing
    case Closing(k) => k < |closing| && closing[k] == s && live' == live && rest == Cut(closing, k)
  }

  lemma AtMeans(s: LocalSocket, spot: Spot, live: seq<LocalSocket>, closing: seq<LocalSocket>, live': seq<LocalSocket>, rest: seq<LocalSocket>)
    requires At(s, spot, live, closing, live', rest)
    ensures (forall t :: t in live' ==> t in live) && (forall t :: t in rest ==> t in closing)
  {
  }

  lemma LeftWithout(s: LocalSocket, d: Device, live: seq<LocalSocket>, closing: seq<LocalSocket>, disconnects: seq<RemoteSocket>)
    requires s.ref in d.locals && Left(s, d, live, closing, disconnects)
    ensures s !in live + closing
  {
  }

  /** Sockets of which only the links have changed. */
  twostate lemma StillShown(q: seq<LocalSocket>, new locals: map<Ref, Local>)
    requires old(AllShown(q, locals)) && forall k :: 0 <= k < |q| ==> Abs(q[k]) == old(Abs(q[k]))
    ensures AllShown(q, locals)
  {
    hide Abs;
    assert forall k :: 0 <= k < |q| ==> old(Shown(q[k], locals));
  }

  lemma CutPaired(live: seq<LocalSocket>, disconnects: seq<RemoteSocket>, k: nat)
    requires Paired(live, disconnects) && Distinct(live) && k < |live|
    ensures Paired(Cut(live, k), Cut(disconnects, k)) && live[k] !in Cut(live, k) && disconnects[k] !in Cut(disconnects, k)
  {
  }

  lemma {:induction false} WithoutAt(refs: seq<Ref>, k: nat)
    requires NoDup(refs) && k < |refs|
    ensures Without(refs, refs[k]) == Cut(refs, k)
    decreases |refs|
  {
    hide NoDup;
    NoDupTail(refs);
    if k == 0 {
      WithoutNone(refs[1..], refs[0]);
    } else {
      WithoutAt(refs[1..], k - 1);
      assert refs[k] == refs[1..][k - 1];
      assert Cut(refs, k) == [refs[0]] + Cut(refs[1..], k - 1);
    }
  }

  lemma CutNumbered(q: seq<LocalSocket>, refs: seq<Ref>, k: nat)
    requires Numbered(q, refs) && NoDup(refs) && k < |q|
    ensures Numbered(Cut(q, k), Without(refs, q[k].ref))
  {
    hide NoDup, Without;
    WithoutAt(refs, k);
  }

  lemma CutRemembered(live: seq<LocalSocket>, disconnects: seq<RemoteSocket>, remotes: map<Ref, Remote>, k: nat)
    requires Remembered(live, disconnects, remotes) && k < |live| && Apart(live, live[k]) && Distinct(live)
    ensures Remembered(Cut(live, k), Cut(disconnects, k), remotes - {disconnects[k].ref})
  {
    forall i | 0 <= i < |live| && i != k
      ensures disconnects[i].ref != disconnects[k].ref
    {
      assert live[i].ref != live[k].ref;
    }
  }

  /** Takes a remote socket off the transport's list. */
  function Leave(disconnects: seq<RemoteSocket>, q: RemoteSocket): seq<RemoteSocket> {
    if disconnects == [] then [] else if disconnects[0] == q then disconnects[1..] else [disconnects[0]] + Leave(disconnects[1..], q)
  }

  lemma {:induction false} LeaveAt(disconnects: seq<RemoteSocket>, k: nat)
    requires k < |disconnects| && disconnects[k] !in Cut(disconnects, k)
    ensures Leave(disconnects, disconnects[k]) == Cut(disconnects, k)
    decreases |disconnects|
  {
    var c := Cut(disconnects, k);
    if k > 0 {
      assert c == [disconnects[0]] + Cut(disconnects[1..], k - 1);
      assert disconnects[0] in c;
      LeaveAt(disconnects[1..], k - 1);
    }
  }

  /** Different sockets have different numbers. */
  ghost predicate Apart(q: seq<LocalSocket>, s: LocalSocket) {
    forall k :: 0 <= k < |q| && q[k] != s ==> q[k].ref != s.ref
  }

  lemma PutShown(q: seq<LocalSocket>, s: LocalSocket, locals: map<Ref, Local>)
    requires ShownBut(q, s, locals) && Apart(q, s)
    ensures AllShown(q, locals[s.ref := Abs(s)])
  {
    hide Abs;
    forall k | 0 <= k < |q|
      ensures Shown(q[k], locals[s.ref := Abs(s)])
    {
      assert q[k] != s ==> Shown(q[k], locals);
    }
  }

  lemma DropShown(live: seq<LocalSocket>, closing: seq<LocalSocket>, s: LocalSocket, locals: map<Ref, Local>)
    requires AllShown(live + closing, locals) && Apart(live, s) && Apart(closing, s) && s !in live && s !in closing
    ensures AllShown(live, locals - {s.ref}) && AllShown(closing, locals - {s.ref})
  {
    hide Abs;
    forall k | 0 <= k < |live|
      ensures Shown(live[k], locals - {s.ref})
    {
      assert Shown((live + closing)[k], locals);
    }
    forall k | 0 <= k < |closing|
      ensures Shown(closing[k], locals - {s.ref})
    {
      assert Shown((live + closing)[|live| + k], locals);
    }
  }

  lemma MoveShown(live: seq<LocalSocket>, rest: seq<LocalSocket>, s: LocalSocket, locals: map<Ref, Local>)
    requires AllShown(live + rest, locals) && Apart(live, s) && Apart(rest, s) && s !in live && s !in rest
    ensures AllShown(live, locals[s.ref := Abs(s)]) && AllShown(rest + [s], locals[s.ref := Abs(s)])
  {
    hide Abs;
    forall k | 0 <= k < |live|
      ensures Shown(live[k], locals[s.ref := Abs(s)])
    {
      assert Shown((live + rest)[k], locals);
    }
    forall k | 0 <= k < |rest|
      ensures Shown(rest[k], locals[s.ref := Abs(s)])
    {
      assert Shown((live + rest)[|live| + k], locals);
    }
  }

  lemma {:induction false} NoDupAt(s: seq<Ref>, j: nat, k: nat)
    requires NoDup(s) && j < |s| && k < |s| && j != k
    ensures s[j] != s[k]
    decreases |s|
  {
    if j > 0 && k > 0 {
      NoDupAt(s[1..], j - 1, k - 1);
    }
  }

  /** The sockets of a device that is linked have numbers of their own. */
  lemma NumbersApart(live: seq<LocalSocket>, closing: seq<LocalSocket>, d: Device, s: LocalSocket)
    requires Numbered(live, d.live) && Numbered(closing, d.closing) && Linked(d) && (s in live || s in closing)
    ensures Apart(live, s) && Apart(closing, s)
  {
    hide NoDup;
    assert forall r :: r in d.live ==> LiveOk(d, r);
    assert forall r :: r in d.closing ==> ClosingOk(d, r);
    assert s in live ==> s.ref in d.live;
    assert s in closing ==> s.ref in d.closing;
    if s in live {
      var i :| 0 <= i < |live| && live[i] == s;
      SameNumber(live, d.live, i);
      assert forall k :: 0 <= k < |closing| ==> d.closing[k] in d.closing;
    } else {
      var i :| 0 <= i < |closing| && closing[i] == s;
      SameNumber(closing, d.closing, i);
      assert forall k :: 0 <= k < |live| ==> d.live[k] in d.live;
    }
  }

  lemma SameNumber(q: seq<LocalSocket>, refs: seq<Ref>, i: nat)
    requires Numbered(q, refs) && NoDup(refs) && i < |q|
    ensures Apart(q, q[i])
  {
    hide NoDup;
    forall k | 0 <= k < |q| && q[k] != q[i]
      ensures q[k].ref != q[i].ref
    {
      NoDupAt(refs, k, i);
    }
  }

  /** The events found pending. */
  method MarkEvents(s: LocalSocket, read: bool, write: bool)
    modifies s`pendRead, s`pendWrite
    ensures Abs(s) == old(Abs(s)).(pendRead := read, pendWrite := write)
  {
    s.pendRead, s.pendWrite := read, write;
  }

  lemma OthersShown(live: seq<LocalSocket>, closing: seq<LocalSocket>, q: seq<LocalSocket>, locals: map<Ref, Local>)
    requires AllShown(live, locals) && AllShown(closing, locals) && forall t :: t in q ==> t in live || t in closing
    ensures AllShown(q, locals)
  {
    hide Abs;
    assert forall k :: 0 <= k < |q| ==> q[k] in q;
  }

  lemma RingApart(list: LocalSocket, ring: seq<LocalSocket>)
    requires Ring(list, ring)
    ensures list !in ring
  {
  }

  lemma DistinctOf(list: LocalSocket, ring: seq<LocalSocket>)
    requires Ring(list, ring)
    ensures Distinct(ring)
  {
  }

  lemma NotAmong(q: seq<LocalSocket>, refs: seq<Ref>, s: LocalSocket)
    requires Numbered(q, refs) && Apart(q, s) && s !in q
    ensures s.ref !in refs
  {
    assert forall k :: 0 <= k < |q| ==> q[k] in q;
  }

  lemma CutApart(q: seq<LocalSocket>, k: nat)
    requires Distinct(q) && k < |q|
    ensures q[k] !in Cut(q, k)
  {
  }

  lemma AbsOf(s: LocalSocket)
    ensures Abs(s).closing == s.closing && Abs(s).queue == s.queue && Abs(s).wantWrite == s.wantWrite && Abs(s).id == s.id
    ensures s.peer == null <==> Abs(s).peer.None?
    ensures Abs(s).wantRead == s.wantRead && Abs(s).pendRead == s.pendRead && Abs(s).pendWrite == s.pendWrite
  {
  }

  method LosePeer(s: LocalSocket)
    modifies s`peer
    ensures Abs(s) == old(Abs(s)).(peer := None)
  {
    s.peer := null;
  }

  /** The socket is closing, and reads no more. */
  method StopReading(s: LocalSocket)
    modifies s`closing, s`wantRead, s`wantWrite, s`pendRead, s`pendWrite
    ensures Abs(s) == Arm(old(Abs(s)).(closing := true), false, old(Abs(s).wantWrite))
  {
    hide Arm;
    s.closing := true;
    SetEvents(s, false, s.wantWrite);
  }

  lemma ArmApart(l: Local, write: bool)
    ensures Arm(l.(closing := true), false, write).(id := 0) == Arm(l.(closing := true, id := 0), false, write)
  {
  }

  /** A payload is queued. */
  method QueuePacket(s: LocalSocket, p: seq<Byte>)
    requires Chained(s)
    modifies s`pktFirst, s`pktLast, s`parcels, s`queue, s`accepted, s`wantRead, s`wantWrite, s`pendRead, s`pendWrite, s.parcels
    ensures Chained(s) && Abs(s) == Queued(old(Abs(s)), p)
  {
    hide Chained, Arm;
    s.accepted := s.accepted + p;
    AppendParcel(s, p);
    SetEvents(s, s.wantRead, true);
  }

  method HoldPacket(s: LocalSocket, rest: seq<Byte>)
    requires Chained(s) && s.queue == []
    modifies s`pktFirst, s`pktLast, s`parcels, s`queue, s`wantRead, s`wantWrite, s`pendRead, s`pendWrite, s.parcels
    ensures Chained(s) && Abs(s) == Held(old(Abs(s)), rest)
  {
    hide Chained, Arm;
    AppendParcel(s, rest);
    assert s.queue == [rest];
    SetEvents(s, s.wantRead, true);
  }

  method FlushQueue(s: LocalSocket, answers: seq<Answer>) returns (end: End)
    requires Chained(s)
    modifies s`pktFirst, s`pktLast, s`parcels, s`queue, s`written, s.parcels
    ensures Chained(s) && Abs(s) == Flushed(old(Abs(s)), Drain(old(s.queue), answers, [])) && end == Drain(old(s.queue), answers, []).end
  {
    hide Chained, Drain;
    ghost var out;
    out, end := WriteQueue(s, answers);
    s.written := s.written + out;
  }

  twostate lemma StillChained(q: seq<LocalSocket>)
    requires old(AllChained(q))
    requires forall t: LocalSocket :: t in q ==>
      t.pktFirst == old(t.pktFirst) && t.pktLast == old(t.pktLast) && t.parcels == old(t.parcels) && t.queue == old(t.queue)
    requires forall t: LocalSocket, n: Parcel :: t in q && n in old(t.parcels) ==> n.next == old(n.next) && n.data == old(n.data)
    ensures AllChained(q)
  {
    assert forall t: LocalSocket :: t in q ==> old(Chained(t));
  }

  lemma SpotIn(s: LocalSocket, spot: Spot, live: seq<LocalSocket>, closing: seq<LocalSocket>, live': seq<LocalSocket>, rest: seq<LocalSocket>)
    requires At(s, spot, live, closing, live', rest)
    ensures s in live || s in closing
  {
  }

  lemma ChainedAgain(s: LocalSocket, spot: Spot, live: seq<LocalSocket>, closing: seq<LocalSocket>, live': seq<LocalSocket>, rest: seq<LocalSocket>)
    requires At(s, spot, live, closing, live', rest) && Chained(s) && AllChained(live' + rest)
    ensures AllChained(live) && AllChained(closing)
  {
    hide Chained;
  }

  lemma PutAgain(d: Device, r: Ref, l: Local, m: Local)
    ensures Put(Put(d, r, l), r, m) == Put(d, r, m)
  {
    assert d.locals[r := l][r := m] == d.locals[r := m];
  }

  lemma LiveIn(d: Device, r: Ref)
    requires Linked(d) && r in d.live
    ensures r in d.locals
  {
    hide NoDup;
    assert LiveOk(d, r);
  }

  lemma LivesIn(d: Device)
    requires Linked(d)
    ensures forall x :: x in d.live ==> x in d.locals
  {
    hide NoDup;
    assert forall x :: x in d.live ==> LiveOk(d, x);
  }

  lemma AddShown(live: seq<LocalSocket>, closing: seq<LocalSocket>, s: LocalSocket, locals: map<Ref, Local>)
    requires AllShown(live + closing, locals) && s.ref !in locals
    ensures AllShown(live + [s], locals[s.ref := Abs(s)]) && AllShown(closing, locals[s.ref := Abs(s)])
  {
    hide Abs;
    forall k | 0 <= k < |live|
      ensures Shown(live[k], locals[s.ref := Abs(s)])
    {
      assert Shown((live + closing)[k], locals);
    }
    forall k | 0 <= k < |closing|
      ensures Shown(closing[k], locals[s.ref := Abs(s)])
    {
      assert Shown((live + closing)[|live| + k], locals);
    }
  }

  lemma ConnectMeans(d: Device, remote: nat)
    ensures var e := Connect(d, remote); d.nextRef in e.locals && e.locals[d.nextRef].id == d.nextId && e.sent == d.sent
  {
  }

  lemma OneChained(s: LocalSocket)
    requires Chained(s)
    ensures AllChained([s]) && AllChained([])
  {
  }

  lemma NoneChained()
    ensures AllChained([])
  {
  }

  lemma RingOfNone(list: LocalSocket)
    requires list.next == list && list.prev == list
    ensures Ring(list, [])
  {
  }

  lemma NothingDriven()
    ensures Driven([]) == Device(map[], map[], [], [], 1, 0, false, [], map[])
  {
  }
}
