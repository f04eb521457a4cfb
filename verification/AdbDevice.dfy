/**
 * The socket layer as a program: socket objects linked in lists, to their peers and to their packets, updated in place.
 * Each operation takes the objects from showing a device d to showing what AdbSockets says becomes of d.
 */
module AdbDevice {
  import opened Bytes
  import opened AdbSockets
  import opened AdbLists
  import opened AdbViews

  class Bridge {
    /** local_socket_list and local_socket_closing_list. */
    const liveList: LocalSocket
    const closingList: LocalSocket
    var nextId: nat
    var online: bool
    var sent: seq<Packet>
    /** The remote sockets, in the order in which they asked to be told when the transport goes. */
    var disconnects: seq<RemoteSocket>
    /** The sockets in the two lists, in order; the next number; and what was freed. */
    ghost var live: seq<LocalSocket>
    ghost var closing: seq<LocalSocket>
    ghost var nextRef: Ref
    ghost var gone: map<Ref, Local>

    /** The fields that are not lists. */
    ghost predicate Counted(d: Device)
      reads `nextId, `nextRef, `online, `sent, `gone
    {
      d.nextId == nextId && d.nextRef == nextRef && d.online == online && d.sent == sent && d.gone == gone
    }

    /** The parts that a change of one socket leaves alone. */
    ghost predicate Framed(d: Device)
      reads `live, `closing, `disconnects, liveList`next, liveList`prev, closingList`next, closingList`prev,
            live`next, live`prev, live`peer, closing`next, closing`prev, disconnects`peer
    {
      && TwoRings(liveList, closingList, live, closing) && Paired(live, disconnects)
      && Numbered(live, d.live) && Numbered(closing, d.closing) && Remembered(live, disconnects, d.remotes)
    }

    /** The objects show the device d. */
    ghost predicate Good(d: Device)
      reads this, liveList, closingList, live, closing, disconnects, set t: LocalSocket, n: Parcel | t in live + closing && n in t.parcels :: n
    {
      Framed(d) && AllShown(live, d.locals) && AllShown(closing, d.locals) && Counted(d) && AllChained(live) && AllChained(closing)
    }

    constructor ()
      ensures Good(Driven([])) && live == [] && closing == [] && disconnects == []
    {
      hide *;
      var a := new LocalSocket(0);
      var b := new LocalSocket(0);
      liveList, closingList := a, b;
      nextId, online, sent, disconnects := 1, false, [], [];
      live, closing, nextRef, gone := [], [], 0, map[];
      new;
      liveList.next, liveList.prev := liveList, liveList;
      closingList.next, closingList.prev := closingList, closingList;
      NothingGood();
    }

    lemma NothingGood()
      requires liveList != closingList && live == [] && closing == [] && disconnects == []
      requires liveList.next == liveList && liveList.prev == liveList && closingList.next == closingList && closingList.prev == closingList
      requires nextId == 1 && nextRef == 0 && !online && sent == [] && gone == map[]
      ensures Good(Driven([]))
    {
      hide Ring, Driven, AllChained;
      RingOfNone(liveList);
      RingOfNone(closingList);
      NoneChained();
      NothingDriven();
    }

    /** The objects show one device and no other. */
    lemma ShowsOne(d: Device, e: Device)
      requires Good(d) && Good(e) && Linked(d) && Linked(e)
      ensures d == e
    {
      hide TwoRings, AllChained;
      assert d.live == e.live && d.closing == e.closing by { hide Linked, AllShown, Remembered, Paired; }
      SameLocals(d, e);
      SameLocals(e, d);
      SameRemotes(d, e);
      SameRemotes(e, d);
      hide Linked, AllShown, Remembered, Paired, Numbered;
      assert d.locals == e.locals && d.remotes == e.remotes;
    }

    lemma SameLocals(d: Device, e: Device)
      requires Good(d) && Good(e) && Linked(d)
      ensures forall r :: r in d.locals ==> r in e.locals && e.locals[r] == d.locals[r]
    {
      hide TwoRings, AllChained, Remembered, Paired, NoDup;
      forall r | r in d.locals
        ensures r in e.locals && e.locals[r] == d.locals[r]
      {
        if r in d.live {
          var k :| 0 <= k < |d.live| && d.live[k] == r;
          assert Shown(live[k], d.locals) && Shown(live[k], e.locals);
        } else {
          var k :| 0 <= k < |d.closing| && d.closing[k] == r;
          assert Shown(closing[k], d.locals) && Shown(closing[k], e.locals);
        }
      }
    }

    lemma SameRemotes(d: Device, e: Device)
      requires Good(d) && Good(e) && Linked(d)
      ensures forall q :: q in d.remotes ==> q in e.remotes && e.remotes[q] == d.remotes[q]
    {
      hide TwoRings, AllChained, NoDup;
      forall q | q in d.remotes
        ensures q in e.remotes && e.remotes[q] == d.remotes[q]
      {
        assert RemoteOk(d, q);
        var r := d.remotes[q].peer.value;
        var k :| 0 <= k < |d.live| && d.live[k] == r;
        assert Shown(live[k], d.locals);
      }
    }

    /** A socket has changed, its links apart. */
    lemma Replaced(s: LocalSocket, d: Device)
      requires Linked(d) && Framed(d) && (s in live || s in closing)
      requires ShownBut(live, s, d.locals) && ShownBut(closing, s, d.locals) && Counted(d.(sent := sent))
      requires AllChained(live) && AllChained(closing)
      ensures Good(Put(d, s.ref, Abs(s)).(sent := sent))
    {
      hide Linked, TwoRings, Paired, Abs, AllShown, ShownBut, Apart, Remembered, AllChained;
      NumbersApart(live, closing, d, s);
      PutShown(live, s, d.locals);
      PutShown(closing, s, d.locals);
    }

    /** local_socket_ready, when an OKAY has come. */
    method ReadySocket(s: LocalSocket, ghost d: Device)
      requires Good(d) && Linked(d) && (s in live || s in closing)
      modifies s`turns, s`wantRead, s`wantWrite, s`pendRead, s`pendWrite
      ensures Good(Put(d, s.ref, Ready(d.locals[s.ref])))
    {
      hide Linked, Framed, AllShown, ShownBut, Arm, AllChained;
      ShownAt(s, d);
      s.turns := s.turns + [Acked];
      SetEvents(s, true, s.wantWrite);
      Replaced(s, d);
    }

    /** remove_socket, from the list that the socket is in. */
    method Unlink(s: LocalSocket, ghost spot: Spot, ghost live': seq<LocalSocket>, ghost rest: seq<LocalSocket>)
      requires TwoRings(liveList, closingList, live, closing) && At(s, spot, live, closing, live', rest)
      modifies `live, `closing, s`id, liveList`next, liveList`prev, closingList`next, closingList`prev
      modifies live`next, live`prev, closing`next, closing`prev
      ensures TwoRings(liveList, closingList, live, closing) && Abs(s) == old(Abs(s)).(id := 0)
      ensures live == live' && closing == rest
    {
      hide Ring;
      ghost var isLive, k := spot.Live?, spot.at;
      ghost var list, ring := if isLive then liveList else closingList, if isLive then live else closing;
      RemoveSocket(s, list, ring, k);
      if isLive {
        assert forall t :: t in closing ==> t.next == old(t.next) && t.prev == old(t.prev);
        assert old(Ring(closingList, closing));
        assert Ring(closingList, closing);
        live := Cut(live, k);
      } else {
        assert forall t :: t in live ==> t.next == old(t.next) && t.prev == old(t.prev);
        assert old(Ring(liveList, live));
        assert Ring(liveList, live);
        closing := Cut(closing, k);
      }
    }

    /** remote_socket_close, by way of the peer: it lets go of s, says so, and is freed. */
    method DropPeer(s: LocalSocket, q: RemoteSocket, ghost k: nat)
      requires k < |live| && live[k] == s && s.peer == q && Paired(live, disconnects) && Distinct(live)
      modifies s`peer, q`peer, `sent, `disconnects
      ensures Abs(s) == old(Abs(s)).(peer := None) && disconnects == Cut(old(disconnects), k) && Paired(Cut(live, k), disconnects)
      ensures sent == old(sent) + [Clse(0, q.id)]
    {
      CutPaired(live, disconnects, k);
      LeaveAt(disconnects, k);
      hide Cut, Leave;
      hide Paired;
      q.peer := null;
      sent := sent + [Clse(0, q.id)];
      disconnects := Leave(disconnects, q);
      LosePeer(s);
    }

    /** insert_local_socket, at the end of the closing list. */
    method Relink(s: LocalSocket)
      requires TwoRings(liveList, closingList, live, closing) && s !in live && s !in closing && s != liveList && s != closingList
      modifies `closing, s`next, s`prev, closingList`next, closingList`prev, closing`next
      ensures TwoRings(liveList, closingList, live, closing) && closing == old(closing) + [s]
    {
      hide Ring;
      InsertLocalSocket(s, closingList, closing);
      assert forall t :: t in live ==> t.next == old(t.next) && t.prev == old(t.prev);
      assert old(Ring(liveList, live));
      assert Ring(liveList, live);
      closing := closing + [s];
    }

    /** The socket s is in its list, has no peer, and nothing stands in the way of its leaving. */
    ghost predicate Leaving(s: LocalSocket, spot: Spot, live': seq<LocalSocket>, rest: seq<LocalSocket>, d: Device)
      reads this, liveList, closingList, live, closing, disconnects, s, live', rest
      reads s.parcels, set t: LocalSocket, n: Parcel | t in live' + rest && n in t.parcels :: n
    {
      && s.ref in d.locals && Sighted(d, d.locals[s.ref]) && Abs(s) == d.locals[s.ref].(peer := None)
      && At(s, spot, live, closing, live', rest) && TwoRings(liveList, closingList, live, closing)
      && Left(s, d, live', rest, disconnects) && AllShown(live' + rest, d.locals) && Chained(s) && AllChained(live' + rest)
    }

    lemma DestroyedGood(s: LocalSocket, d: Device)
      requires s.ref in d.locals && Sighted(d, d.locals[s.ref]) && (d.locals[s.ref].closing || d.locals[s.ref].queue == [])
      requires TwoRings(liveList, closingList, live, closing) && Left(s, d, live, closing, disconnects)
      requires AllShown(live + closing, d.locals) && AllChained(live + closing)
      requires Counted(d.(sent := sent, gone := d.gone[s.ref := d.locals[s.ref].(peer := None)]))
      ensures Good(CloseLocal(d, s.ref).(sent := sent))
    {
      hide TwoRings, Paired, Numbered, Remembered, Without, Apart, AllShown, Arm, Abs, AllChained;
      NoneChained();
      SubChained(live + closing, [], live);
      SubChained(live + closing, [], closing);
      DropShown(live, closing, s, d.locals);
      assert d.locals[s.ref := d.locals[s.ref].(peer := None)] - {s.ref} == d.locals - {s.ref};
    }

    lemma MovedGood(s: LocalSocket, d: Device, rest: seq<LocalSocket>)
      requires s.ref in d.locals && Sighted(d, d.locals[s.ref]) && !d.locals[s.ref].closing && d.locals[s.ref].queue != []
      requires TwoRings(liveList, closingList, live, closing) && Left(s, d, live, rest, disconnects) && closing == rest + [s]
      requires AllShown(live + rest, d.locals) && Chained(s) && AllChained(live + rest)
      requires Counted(d.(sent := sent))
      requires var l := d.locals[s.ref]; Abs(s) == Arm(l.(peer := None, closing := true, id := 0), false, l.wantWrite)
      ensures Good(CloseLocal(d, s.ref).(sent := sent))
    {
      hide TwoRings, Paired, Remembered, Without, Apart, Arm, Abs, AllShown, Chained, AllChained;
      OneChained(s);
      SubChained(live + rest, [], live);
      SubChained(live + rest, [s], closing);
      MoveShown(live, rest, s, d.locals);
    }

    /** local_socket_destroy, when the peer has gone. */
    method DestroySocket(s: LocalSocket, ghost spot: Spot, ghost live': seq<LocalSocket>, ghost rest: seq<LocalSocket>, ghost d: Device)
      requires Leaving(s, spot, live', rest, d) && (s.closing || s.queue == []) && Counted(d.(sent := sent))
      modifies `live, `closing, `gone, s`id, liveList`next, liveList`prev, closingList`next, closingList`prev
      modifies live`next, live`prev, closing`next, closing`prev
      ensures Good(CloseLocal(d, s.ref).(sent := sent)) && live == live' && closing == rest
    {
      hide Abs, Left, AllShown, TwoRings, Goodbye, CloseLocal, Good, At, Chained, AllChained;
      AbsOf(s);
      ghost var q := live' + rest;
      LeftWithout(s, d, live', rest, disconnects);
      gone := gone[s.ref := Abs(s)];
      Unlink(s, spot, live', rest);
      assert forall i :: 0 <= i < |q| ==> Abs(q[i]) == old(Abs(q[i]));
      StillShown(q, d.locals);
      DestroyedGood(s, d);
    }

    method Transfer(s: LocalSocket, ghost spot: Spot, ghost live': seq<LocalSocket>, ghost rest: seq<LocalSocket>)
      requires TwoRings(liveList, closingList, live, closing) && s != liveList && s != closingList
      requires At(s, spot, live, closing, live', rest) && s !in live' + rest
      modifies `live, `closing, s`id, s`next, s`prev, liveList`next, liveList`prev, closingList`next, closingList`prev
      modifies live`next, live`prev, closing`next, closing`prev
      ensures TwoRings(liveList, closingList, live, closing) && Abs(s) == old(Abs(s)).(id := 0)
      ensures live == live' && closing == rest + [s]
    {
      hide Ring, Abs;
      AtMeans(s, spot, live, closing, live', rest);
      hide At;
      Unlink(s, spot, live', rest);
      Relink(s);
    }

    /** The end of local_socket_close_locked: the socket waits in the closing list until its queue is empty. */
    method DeferSocket(s: LocalSocket, ghost spot: Spot, ghost live': seq<LocalSocket>, ghost rest: seq<LocalSocket>, ghost d: Device)
      requires Leaving(s, spot, live', rest, d) && !s.closing && s.queue != [] && Counted(d.(sent := sent))
      requires s != liveList && s != closingList
      modifies `live, `closing, s`id, s`closing, s`next, s`prev, s`wantRead, s`wantWrite, s`pendRead, s`pendWrite, liveList`next, liveList`prev, closingList`next, closingList`prev
      modifies live`next, live`prev, closing`next, closing`prev
      ensures Good(CloseLocal(d, s.ref).(sent := sent)) && live == live' && closing == rest + [s]
    {
      hide Left, AllShown, TwoRings, Goodbye, CloseLocal, Good, Arm, At, Abs, Chained, AllChained;
      LeftWithout(s, d, live', rest, disconnects);
      ghost var l, q := d.locals[s.ref], live' + rest;
      AbsOf(s);
      StopReading(s);
      ArmApart(l.(peer := None), l.wantWrite);
      Transfer(s, spot, live', rest);
      assert forall i :: 0 <= i < |q| ==> Abs(q[i]) == old(Abs(q[i]));
      StillShown(q, d.locals);
      MovedGood(s, d, rest);
    }

    lemma QueueOf(s: LocalSocket, spot: Spot, live': seq<LocalSocket>, rest: seq<LocalSocket>, d: Device)
      requires Leaving(s, spot, live', rest, d)
      ensures s.pktFirst == null <==> s.queue == []
    {
      FirstData(s);
    }

    /** local_socket_close_locked, of a socket without a peer. */
    method FinishClose(s: LocalSocket, ghost spot: Spot, ghost live': seq<LocalSocket>, ghost rest: seq<LocalSocket>, ghost d: Device)
      requires Leaving(s, spot, live', rest, d) && Counted(d.(sent := sent)) && s != liveList && s != closingList
      modifies `live, `closing, `gone, s`id, s`closing, s`next, s`prev, s`wantRead, s`wantWrite, s`pendRead, s`pendWrite
      modifies liveList`next, liveList`prev, closingList`next, closingList`prev
      modifies live`next, live`prev, closing`next, closing`prev
      ensures Good(CloseLocal(d, s.ref).(sent := sent)) && live == live' && forall t :: t in closing ==> t in rest || t == s
    {
      hide *;
      QueueOf(s, spot, live', rest, d);
      if s.closing || s.pktFirst == null {
        DestroySocket(s, spot, live', rest, d);
      } else {
        DeferSocket(s, spot, live', rest, d);
      }
    }

    /** local_socket_close_locked. */
    method CloseSocket(s: LocalSocket, ghost d: Device)
      requires Good(d) && Linked(d) && (s in live || s in closing)
      modifies `live, `closing, `disconnects, `sent, `gone, disconnects`peer, s`peer, s`id, s`closing, s`next, s`prev, s`wantRead, s`wantWrite, s`pendRead, s`pendWrite
      modifies liveList`next, liveList`prev, closingList`next, closingList`prev, live`next, live`prev, closing`next, closing`prev
      ensures s.ref in d.locals && Sighted(d, d.locals[s.ref]) && Good(CloseLocal(d, s.ref))
      ensures (forall t :: t in live ==> t in old(live)) && (forall t :: t in closing ==> t in old(closing) || t == s)
      ensures forall q :: q in disconnects ==> q in old(disconnects)
    {
      hide *;
      ghost var spot, live', rest := Where(s, d);
      AtMeans(s, spot, live, closing, live', rest);
      CloseSends(d, s.ref);
      Detach(s, spot, live', rest, d);
      FinishClose(s, spot, live', rest, d);
    }

    /** The start of local_socket_close_locked. */
    method Detach(s: LocalSocket, ghost spot: Spot, ghost live': seq<LocalSocket>, ghost rest: seq<LocalSocket>, ghost d: Device)
      requires Good(d) && Linked(d) && At(s, spot, live, closing, live', rest)
      modifies s`peer, disconnects`peer, `sent, `disconnects
      ensures Leaving(s, spot, live', rest, d) && sent == d.sent + Goodbye(d, s.ref) && Counted(d.(sent := sent))
      ensures forall q :: q in disconnects ==> q in old(disconnects)
    {
      hide Left, AllShown, Linked, TwoRings, Goodbye, Sighted, Abs, Distinct, At, Chained, AllChained;
      ghost var disconnects' := LeaveList(s, spot, live', rest, d);
      if s.peer != null {
        DropPeer(s, s.peer, spot.at);
      }
    }

    /** remote_socket_disconnect, of the first remote socket of the transport: it goes without a word. */
    method DisconnectSocket(q: RemoteSocket, ghost d: Device)
      requires Good(d) && Linked(d) && disconnects != [] && q == disconnects[0]
      modifies `live, `closing, `disconnects, `gone, live, liveList`next, liveList`prev, closingList`next, closingList`prev
      modifies closing`next, closing`prev
      ensures |old(live)| > 0 && old(live)[0].ref in d.locals && Sighted(d, d.locals[old(live)[0].ref])
      ensures Good(CloseLocal(d, old(live)[0].ref).(sent := d.sent))
      ensures (forall t :: t in live ==> t in old(live)) && (forall t :: t in closing ==> t in old(closing) || t in old(live))
      ensures disconnects == old(disconnects)[1..]
    {
      hide *;
      FirstPair(d);
      var s := q.peer;
      ghost var spot, live', rest := Live(0), Cut(live, 0), closing;
      LetGo(s, q, live', d);
      FinishClose(s, spot, live', rest, d);
    }

    lemma FirstPair(d: Device)
      requires Good(d) && disconnects != []
      ensures |live| > 0 && disconnects[0].peer == live[0] && sent == d.sent
    {
    }

    method LetGo(s: LocalSocket, q: RemoteSocket, ghost live': seq<LocalSocket>, ghost d: Device)
      requires Good(d) && Linked(d) && disconnects != [] && q == disconnects[0] && q.peer == s && |live| > 0 && live' == Cut(live, 0)
      modifies s`peer, `disconnects
      ensures Leaving(s, Live(0), live', closing, d) && disconnects == old(disconnects)[1..] && Counted(d)
      ensures s != liveList && s != closingList && (forall t :: t in live' ==> t in live)
      ensures s.ref in d.locals && Sighted(d, d.locals[s.ref])
    {
      hide Left, AllShown, Linked, TwoRings, Goodbye, Sighted, Abs, Distinct, Chained, AllChained;
      ghost var disconnects' := LeaveList(s, Live(0), live', closing, d);
      assert disconnects[1..] == Cut(disconnects, 0);
      LosePeer(s);
      disconnects := disconnects[1..];
    }

    /** The place of a socket in its list. */
    lemma Where(s: LocalSocket, d: Device) returns (spot: Spot, live': seq<LocalSocket>, rest: seq<LocalSocket>)
      requires Good(d) && Linked(d) && (s in live || s in closing)
      ensures At(s, spot, live, closing, live', rest) && s.ref in d.locals && Sighted(d, d.locals[s.ref]) && s != liveList && s != closingList
    {
      ShownAt(s, d);
      LinkedSighted(d, s.ref);
      hide Abs, Ring, Linked, Sighted;
      if s in live {
        var k :| 0 <= k < |live| && live[k] == s;
        spot, live', rest := Live(k), Cut(live, k), closing;
      } else {
        var k :| 0 <= k < |closing| && closing[k] == s;
        spot, live', rest := Closing(k), live, Cut(closing, k);
      }
      RingApart(liveList, live);
      RingApart(closingList, closing);
    }

    /** What will be left. */
    lemma LeaveList(s: LocalSocket, spot: Spot, live': seq<LocalSocket>, rest: seq<LocalSocket>, d: Device) returns (disconnects': seq<RemoteSocket>)
      requires Good(d) && Linked(d) && At(s, spot, live, closing, live', rest)
      ensures spot.Live? == (s.peer != null)
      ensures s.ref in d.locals && Sighted(d, d.locals[s.ref]) && d.locals[s.ref] == Abs(s) && AllShown(live' + rest, d.locals)
      ensures Chained(s) && AllChained(live' + rest)
      ensures s != liveList && s != closingList
      ensures Left(s, d, live', rest, disconnects') && s !in live' + rest
      ensures spot.Live? ==> spot.at < |live| && live[spot.at] == s && Distinct(live) && spot.at < |disconnects| && s.peer == disconnects[spot.at] && disconnects' == Cut(disconnects, spot.at) && s.peer !in disconnects'
      ensures spot.Closing? ==> disconnects' == disconnects && Abs(s).peer.None?
      ensures Goodbye(d, s.ref) == if spot.Live? then [Clse(0, s.peer.id)] else []
    {
      ShownAt(s, d);
      LinkedSighted(d, s.ref);
      AbsOf(s);
      RingApart(liveList, live);
      RingApart(closingList, closing);
      if spot.Live? {
        LeaveLive(s, spot.at, d);
        disconnects' := Cut(disconnects, spot.at);
      } else {
        LeaveClosing(s, spot.at, d);
        disconnects' := disconnects;
      }
      LeftWithout(s, d, live', rest, disconnects');
      hide Left, Linked, Numbered;
      OthersShown(live, closing, live' + rest, d.locals);
      SubChained(live, closing, live' + rest);
    }

    lemma LeaveLive(s: LocalSocket, k: nat, d: Device)
      requires Framed(d) && Shown(s, d.locals) && Linked(d) && k < |live| && live[k] == s
      ensures disconnects[k] !in Cut(disconnects, k) && Left(s, d, Cut(live, k), closing, Cut(disconnects, k))
    {
      hide Cut, NoDup, Without, LiveOk, ClosingOk, RemoteOk, Ring;
      NumbersApart(live, closing, d, s);
      DistinctOf(liveList, live);
      CutPaired(live, disconnects, k);
      CutNumbered(live, d.live, k);
      CutRemembered(live, disconnects, d.remotes, k);
      NotAmong(closing, d.closing, s);
      WithoutNone(d.closing, s.ref);
    }

    lemma LeaveClosing(s: LocalSocket, k: nat, d: Device)
      requires Framed(d) && Shown(s, d.locals) && Linked(d) && k < |closing| && closing[k] == s
      ensures Left(s, d, live, Cut(closing, k), disconnects)
    {
      hide Cut, NoDup, Without, LiveOk, RemoteOk, Ring;
      NumbersApart(live, closing, d, s);
      DistinctOf(closingList, closing);
      CutApart(closing, k);
      CutNumbered(closing, d.closing, k);
      NotAmong(live, d.live, s);
      WithoutNone(d.live, s.ref);
      assert ClosingOk(d, d.closing[k]);
    }

    // ----- Payloads -----

    /** A payload goes behind the others. */
    method Backlog(s: LocalSocket, p: seq<Byte>, ghost d: Device)
      requires Good(d) && Linked(d) && (s in live || s in closing)
      modifies s`pktFirst, s`pktLast, s`parcels, s`queue, s`accepted, s`wantRead, s`wantWrite, s`pendRead, s`pendWrite, s.parcels
      ensures s.ref in d.locals && Good(Put(d, s.ref, Queued(d.locals[s.ref], p)))
    {
      hide Linked, Framed, AllShown, ShownBut, AllChained, Queued, Chained, At, Abs;
      ghost var spot, live', rest := Where(s, d);
      Apartness(s, spot, live', rest, d);
      ghost var q := live' + rest;
      QueuePacket(s, p);
      StillChained(q);
      ChainedAgain(s, spot, live, closing, live', rest);
      Replaced(s, d);
    }

    /** The descriptor has taken a payload, all but rest. */
    ghost method Pay(s: LocalSocket, p: seq<Byte>, rest: seq<Byte>, d: Device)
      requires Good(d) && Linked(d) && (s in live || s in closing) && |rest| <= |p|
      modifies s`accepted, s`written
      ensures s.ref in d.locals && Good(Put(d, s.ref, Pushed(d.locals[s.ref], p, rest)))
    {
      hide Linked, Framed, AllShown, ShownBut, AllChained;
      ShownAt(s, d);
      s.accepted, s.written := s.accepted + p, s.written + p[..|p| - |rest|];
      Replaced(s, d);
    }

    /** The rest of a payload is queued. */
    method Hold(s: LocalSocket, rest: seq<Byte>, ghost d: Device)
      requires Good(d) && Linked(d) && (s in live || s in closing) && s.queue == []
      modifies s`pktFirst, s`pktLast, s`parcels, s`queue, s`wantRead, s`wantWrite, s`pendRead, s`pendWrite, s.parcels
      ensures s.ref in d.locals && Good(Put(d, s.ref, Held(d.locals[s.ref], rest)))
    {
      hide Linked, Framed, AllShown, ShownBut, AllChained, Arm, Chained, At;
      ghost var spot, live', others := Where(s, d);
      Apartness(s, spot, live', others, d);
      ghost var q := live' + others;
      HoldPacket(s, rest);
      StillChained(q);
      ChainedAgain(s, spot, live, closing, live', others);
      Replaced(s, d);
    }

    /** An OKAY for the socket. */
    method Grant(s: LocalSocket, remote: nat, ghost d: Device)
      requires Good(d) && Linked(d) && (s in live || s in closing)
      modifies s`grants, `sent
      ensures s.ref in d.locals && Good(Send(Put(d, s.ref, Granted(d.locals[s.ref])), Okay(d.locals[s.ref].id, remote)))
    {
      hide Linked, Framed, AllShown, ShownBut, AllChained;
      ShownAt(s, d);
      s.grants := s.grants + [|s.queue|];
      sent := sent + [Okay(s.id, remote)];
      Replaced(s, d);
    }

    /** The descriptor takes what it will of the queue. */
    method Flush(s: LocalSocket, answers: seq<Answer>, ghost d: Device) returns (end: End)
      requires Good(d) && Linked(d) && (s in live || s in closing)
      modifies s`pktFirst, s`pktLast, s`parcels, s`queue, s`written, s.parcels
      ensures s.ref in d.locals && Good(Put(d, s.ref, Flushed(d.locals[s.ref], Drain(d.locals[s.ref].queue, answers, []))))
      ensures end == Drain(d.locals[s.ref].queue, answers, []).end
    {
      hide Linked, Framed, AllShown, ShownBut, AllChained, Drain, Chained, At, Flushed;
      ghost var spot, live', rest := Where(s, d);
      Apartness(s, spot, live', rest, d);
      ghost var q := live' + rest;
      end := FlushQueue(s, answers);
      StillChained(q);
      ChainedAgain(s, spot, live, closing, live', rest);
      Replaced(s, d);
    }

    /** The socket need not be told that it can write. */
    method StopWriting(s: LocalSocket, ghost d: Device)
      requires Good(d) && Linked(d) && (s in live || s in closing)
      modifies s`wantRead, s`wantWrite, s`pendRead, s`pendWrite
      ensures s.ref in d.locals && Good(Put(d, s.ref, Arm(d.locals[s.ref], d.locals[s.ref].wantRead, false)))
    {
      hide Linked, Framed, AllShown, ShownBut, AllChained, Arm;
      ShownAt(s, d);
      SetEvents(s, s.wantRead, false);
      Replaced(s, d);
    }

    /** remote_socket_enqueue, and the socket waits for the answer. */
    method Speak(s: LocalSocket, data: seq<Byte>, ghost d: Device)
      requires Good(d) && Linked(d) && (s in live || s in closing) && s.peer != null
      modifies s`turns, s`wantRead, s`wantWrite, s`pendRead, s`pendWrite, `sent
      ensures s.ref in d.locals && d.locals[s.ref].peer.Some? && d.locals[s.ref].peer.value in d.remotes
      ensures var l := d.locals[s.ref]; Good(Send(Put(d, s.ref, Spoken(l)), Wrte(l.id, d.remotes[l.peer.value].id, data)))
    {
      hide Linked, Framed, AllShown, ShownBut, AllChained, Arm;
      ShownAt(s, d);
      PeerAt(s, d);
      sent := sent + [Wrte(s.id, s.peer.id, data)];
      s.turns := s.turns + [Sent];
      SetEvents(s, false, s.wantWrite);
      Replaced(s, d);
    }

    lemma PeerAt(s: LocalSocket, d: Device)
      requires Good(d) && Linked(d) && (s in live || s in closing) && s.peer != null
      ensures s.ref in d.locals && d.locals[s.ref].peer.Some? && d.locals[s.ref].peer.value in d.remotes && s in live
      ensures d.remotes[d.locals[s.ref].peer.value].id == s.peer.id
    {
      hide *;
      ghost var spot, live', rest := Where(s, d);
      ghost var disconnects' := LeaveList(s, spot, live', rest, d);
      PeerOfLive(s, spot.at, d);
    }

    lemma PeerOfLive(s: LocalSocket, k: nat, d: Device)
      requires Good(d) && k < |live| && live[k] == s && Shown(s, d.locals)
      ensures k < |disconnects| && s.peer == disconnects[k] && d.locals[s.ref].peer == Some(s.peer.ref)
      ensures s.peer.ref in d.remotes && d.remotes[s.peer.ref].id == s.peer.id
    {
    }

    /** local_socket_enqueue, and the OKAY of handle_packet. */
    method EnqueuePacket(s: LocalSocket, p: seq<Byte>, remote: nat, answers: seq<Answer>, ghost d: Device)
      requires Good(d) && Linked(d) && (s in live || s in closing)
      modifies `live, `closing, `disconnects, `sent, `gone, s, s.parcels, disconnects`peer
      modifies liveList`next, liveList`prev, closingList`next, closingList`prev, live`next, live`prev, closing`next, closing`prev
      ensures s.ref in d.locals && Sighted(d, d.locals[s.ref]) && Good(Enqueue(d, s.ref, p, remote, answers))
      ensures (forall t :: t in live ==> t in old(live)) && (forall t :: t in closing ==> t in old(closing) || t == s)
      ensures forall q :: q in disconnects ==> q in old(disconnects)
    {
      hide Push, CloseLocal, Queued, Pushed, Held, Granted, Good, Linked, Sighted;
      ghost var l := Look(s, d);
      ghost var r := s.ref;
      if s.pktFirst != null {
        Backlog(s, p, d);
        return;
      }
      var rest, failed := WritePacket(p, answers);
      PushSuffix(p, answers);
      Pay(s, p, rest, d);
      ghost var m := Pushed(l, p, rest);
      ghost var d1 := Put(d, r, m);
      PutLinked(d, r, m, d.sent);
      if failed {
        CloseSocket(s, d1);
      } else if rest == [] {
        Grant(s, remote, d1);
        PutAgain(d, r, m, Granted(m));
      } else {
        Hold(s, rest, d1);
        PutAgain(d, r, m, Held(m, rest));
      }
    }

    /** The FDE_WRITE part of local_socket_event_func; on says whether the part that reads may follow. */
    method ServeWrite(s: LocalSocket, answers: seq<Answer>, ghost d: Device) returns (on: bool)
      requires Good(d) && Linked(d) && (s in live || s in closing)
      modifies `live, `closing, `disconnects, `sent, `gone, s, s.parcels, disconnects`peer
      modifies liveList`next, liveList`prev, closingList`next, closingList`prev, live`next, live`prev, closing`next, closing`prev
      ensures s.ref in d.locals && Sighted(d, d.locals[s.ref]) && (!d.locals[s.ref].closing ==> d.locals[s.ref].peer.Some?)
      ensures var (e, o) := WritePart(d, s.ref, answers); Good(e) && on == o
      ensures on ==> s in live || s in closing
      ensures (forall t :: t in live ==> t in old(live)) && (forall t :: t in closing ==> t in old(closing) || t == s)
      ensures forall q :: q in disconnects ==> q in old(disconnects)
    {
      hide Drain, CloseLocal, Flushed, Granted, Arm, Good, Linked, Sighted;
      ghost var l := Look(s, d);
      ghost var r := s.ref;
      var end := Flush(s, answers, d);
      ghost var m := Flushed(l, Drain(l.queue, answers, []));
      ghost var d1 := Put(d, r, m);
      PutLinked(d, r, m, d.sent);
      if end == Blocked {
        return false;
      }
      if end == Broken || s.closing {
        CloseSocket(s, d1);
        return false;
      }
      StopWriting(s, d1);
      ghost var m2 := Arm(m, m.wantRead, false);
      ghost var d2 := Put(d1, r, m2);
      PutLinked(d1, r, m2, d1.sent);
      PeerAt(s, d2);
      Grant(s, s.peer.id, d2);
      PutAgain(d, r, m, m2);
      PutAgain(d, r, m2, Granted(m2));
      on := true;
    }

    /** The FDE_READ part. */
    method ServeRead(s: LocalSocket, inputs: seq<Input>, ghost d: Device)
      requires Good(d) && Linked(d) && (s in live || s in closing)
      modifies `live, `closing, `disconnects, `sent, `gone, s, disconnects`peer
      modifies liveList`next, liveList`prev, closingList`next, closingList`prev, live`next, live`prev, closing`next, closing`prev
      ensures s.ref in d.locals && Sighted(d, d.locals[s.ref]) && Good(ReadPart(d, s.ref, inputs))
      ensures (forall t :: t in live ==> t in old(live)) && (forall t :: t in closing ==> t in old(closing) || t == s)
      ensures forall q :: q in disconnects ==> q in old(disconnects)
    {
      hide Gather, CloseLocal, Spoken, Good, Linked, Sighted;
      ghost var l := Look(s, d);
      ghost var d1 := d;
      var data, eof := ReadPacket(inputs);
      if data != [] && s.peer != null {
        Speak(s, data, d);
        d1 := Send(Put(d, s.ref, Spoken(l)), Wrte(l.id, d.remotes[l.peer.value].id, data));
        PutLinked(d, s.ref, Spoken(l), d1.sent);
      }
      if eof {
        CloseSocket(s, d1);
      }
    }

    /** fdevent_process finds events. */
    method NoticeEvents(s: LocalSocket, read: bool, write: bool, ghost d: Device)
      requires Good(d) && Linked(d) && (s in live || s in closing) && (read ==> s.wantRead) && (write ==> s.wantWrite)
      modifies s`pendRead, s`pendWrite
      ensures s.ref in d.locals && (read ==> d.locals[s.ref].wantRead) && (write ==> d.locals[s.ref].wantWrite)
      ensures Good(Notice(d, s.ref, read, write))
    {
      hide Linked, Framed, AllShown, ShownBut, AllChained, Chained;
      ShownAt(s, d);
      AbsOf(s);
      hide Abs;
      MarkEvents(s, s.pendRead || read, s.pendWrite || write);
      Replaced(s, d);
    }

    method TakeEvents(s: LocalSocket, ghost d: Device)
      requires Good(d) && Linked(d) && (s in live || s in closing)
      modifies s`pendRead, s`pendWrite
      ensures s.ref in d.locals && Good(Taken(d, s.ref))
    {
      hide Linked, Framed, AllShown, ShownBut, AllChained, Abs;
      ShownAt(s, d);
      MarkEvents(s, false, false);
      Replaced(s, d);
    }

    /** fdevent_call_fdfunc and local_socket_event_func. */
    method ServeEvents(s: LocalSocket, answers: seq<Answer>, inputs: seq<Input>, ghost d: Device)
      requires Good(d) && Valid(d) && (s in live || s in closing) && (s.pendRead || s.pendWrite)
      modifies `live, `closing, `disconnects, `sent, `gone, s, s.parcels, disconnects`peer
      modifies liveList`next, liveList`prev, closingList`next, closingList`prev, live`next, live`prev, closing`next, closing`prev
      ensures Pending(d, s.ref) && Good(Dispatch(d, s.ref, answers, inputs))
      ensures (forall t :: t in live ==> t in old(live)) && (forall t :: t in closing ==> t in old(closing) || t == s)
      ensures forall q :: q in disconnects ==> q in old(disconnects)
    {
      hide WritePart, ReadPart, Linked, Sound, Valid, Good, Sighted;
      LinkedOf(d);
      ghost var l := Look(s, d);
      ghost var r := s.ref;
      TakenKeeps(d, r);
      ghost var e := Taken(d, r);
      LinkedOf(e);
      var read, write := s.pendRead, s.pendWrite;
      TakeEvents(s, d);
      var on := true;
      if write {
        PendingMeans(d, r);
        LinkedSighted(e, r);
        WritePartKeeps(e, r, answers);
        on := ServeWrite(s, answers, e);
        e := WritePart(e, r, answers).0;
        LinkedOf(e);
      }
      if on && read {
        assert forall i :: 0 <= i < |live| ==> live[i] in old(live);
        assert forall i :: 0 <= i < |closing| ==> closing[i] in old(closing) || closing[i] == s;
        assert forall i :: 0 <= i < |disconnects| ==> disconnects[i] in old(disconnects);
        ServeRead(s, inputs, e);
      }
    }

    /** handle_offline, through remote_socket_disconnect of each remote socket. */
    method HandleOffline(ghost d: Device)
      requires Good(d) && Valid(d)
      modifies `live, `closing, `disconnects, `gone, live, liveList`next, liveList`prev, closingList`next, closingList`prev
      modifies closing`next, closing`prev
      ensures Good(Offline(d)) && disconnects == []
      ensures (forall t :: t in live ==> t in old(live)) && (forall t :: t in closing ==> t in old(closing) || t in old(live))
    {
      hide Valid, Linked, Disconnect, CloseLocal, Good, Sighted;
      ghost var e := d;
      while disconnects != []
        invariant Good(e) && Valid(e) && Offline(d) == Offline(e)
        invariant (forall t :: t in live ==> t in old(live)) && (forall t :: t in closing ==> t in old(closing) || t in old(live))
        decreases |disconnects|
      {
        LinkedOf(e);
        FirstPair(e);
        FirstNumber(e);
        ghost var r := live[0].ref;
        assert forall i :: 0 <= i < |live| ==> live[i] in old(live);
        assert forall i :: 0 <= i < |closing| ==> closing[i] in old(closing) || closing[i] in old(live);
        DisconnectSocket(disconnects[0], e);
        DisconnectKeeps(e, r);
        DisconnectCloses(e, r);
        e := Disconnect(e, r);
      }
      NoneLeft(e);
    }

    lemma FirstNumber(d: Device)
      requires Good(d) && live != []
      ensures d.live != [] && d.live[0] == live[0].ref
    {
    }

    lemma NoneLeft(d: Device)
      requires Good(d) && disconnects == []
      ensures d.live == []
    {
    }

    /** close_all_sockets: every socket of the list has its peer on the transport, so each is closed. */
    method CloseAllSockets(ghost d: Device)
      requires Good(d) && Valid(d)
      modifies `live, `closing, `disconnects, `sent, `gone, live, disconnects`peer
      modifies liveList`next, liveList`prev, closingList`next, closingList`prev, closing`next, closing`prev
      ensures Good(CloseAll(d)) && liveList.next == liveList
    {
      hide Valid, Linked, CloseLocal, Good, Sighted;
      ghost var e := d;
      FirstIn(e);
      while liveList.next != liveList
        invariant Good(e) && Valid(e) && CloseAll(d) == CloseAll(e) && liveList.next != null
        invariant (forall t :: t in live ==> t in old(live)) && (forall t :: t in closing ==> t in old(closing) || t in old(live))
        invariant forall q :: q in disconnects ==> q in old(disconnects)
        decreases |e.live|
      {
        LinkedOf(e);
        FirstIn(e);
        ghost var r := e.live[0];
        LiveIn(e, r);
        LinkedSighted(e, r);
        SoundClosable(e, r);
        CloseKeeps(e, r);
        CloseShape(e, r);
        assert forall i :: 0 <= i < |live| ==> live[i] in old(live);
        assert forall i :: 0 <= i < |closing| ==> closing[i] in old(closing) || closing[i] in old(live);
        assert forall i :: 0 <= i < |disconnects| ==> disconnects[i] in old(disconnects);
        CloseSocket(liveList.next, e);
        e := CloseLocal(e, r);
        FirstIn(e);
      }
      FirstIn(e);
    }

    /** The first socket of the list. */
    lemma FirstIn(d: Device)
      requires Good(d)
      ensures liveList.next == if live == [] then liveList else live[0]
      ensures live != [] ==> live[0] != liveList && d.live != [] && d.live[0] == live[0].ref
      ensures live == [] ==> d.live == []
    {
      ghost var c := Circle(liveList, live);
      assert Joined(c[0], c[1]);
    }

    // ----- Packets -----

    /** find_local_socket. */
    method FindLocalSocket(id: nat, ghost d: Device) returns (r: LocalSocket?)
      requires Good(d) && Linked(d)
      ensures (forall x :: x in d.live ==> x in d.locals) && (r == null <==> Find(d, id, 0).None?)
      ensures r != null ==> r in live && Find(d, id, 0) == Some(r.ref)
    {
      hide Linked, Good;
      LivesIn(d);
      ghost var k := 0;
      NextOf(0, d);
      var s := liveList.next;
      while s != liveList
        invariant k <= |live| == |d.live| && s == (if k == |live| then liveList else live[k]) && Find(d, id, 0) == Find(d, id, k)
        decreases |live| - k
      {
        NextOf(k + 1, d);
        AtNumber(k, d);
        if s.id == id { return s; }
        s := s.next;
        k := k + 1;
      }
      EndOf(k, d);
      r := null;
    }

    lemma NextOf(k: nat, d: Device)
      requires Good(d) && k <= |live|
      ensures |d.live| == |live| && (if k == 0 then liveList else live[k - 1]).next == if k == |live| then liveList else live[k]
    {
      ghost var c := Circle(liveList, live);
      assert Joined(c[k], c[k + 1]);
    }

    lemma AtNumber(k: nat, d: Device)
      requires Good(d) && k < |live|
      ensures k < |d.live| && d.live[k] == live[k].ref && d.live[k] in d.locals && d.locals[d.live[k]].id == live[k].id
    {
      assert Shown(live[k], d.locals);
    }

    lemma EndOf(k: nat, d: Device)
      requires Good(d) && k <= |live| && liveList == (if k == |live| then liveList else live[k])
      ensures k == |live| == |d.live|
    {
    }

    /** install_local_socket, for a socket just created. */
    method Install(s: LocalSocket)
      requires TwoRings(liveList, closingList, live, closing) && s !in live && s !in closing && s != liveList && s != closingList
      modifies `live, `nextId, s`id, s`next, s`prev, liveList`next, liveList`prev, live`next
      ensures TwoRings(liveList, closingList, live, closing) && live == old(live) + [s]
      ensures nextId == old(nextId) + 1 && Abs(s) == old(Abs(s)).(id := old(nextId))
    {
      hide Ring;
      s.id := nextId;
      nextId := nextId + 1;
      InsertLocalSocket(s, liveList, live);
      assert forall t :: t in closing ==> t.next == old(t.next) && t.prev == old(t.prev);
      assert old(Ring(closingList, closing));
      assert Ring(closingList, closing);
      live := live + [s];
    }

    /** create_local_socket. */
    method CreateLocalSocket(ghost locals: map<Ref, Local>) returns (s: LocalSocket)
      requires TwoRings(liveList, closingList, live, closing) && Paired(live, disconnects)
      requires AllShown(live + closing, locals) && AllChained(live + closing)
      modifies `live, `nextId, liveList`next, liveList`prev, live`next
      ensures TwoRings(liveList, closingList, live, closing) && live == old(live) + [s] && fresh(s) && s.ref == nextRef
      ensures nextId == old(nextId) + 1 && Chained(s) && Paired(old(live), disconnects)
      ensures Abs(s) == Local(old(nextId), false, None, [], false, false, false, false, [], [], [], [])
      ensures AllShown(old(live) + closing, locals) && AllChained(old(live) + closing)
    {
      hide TwoRings, Paired, AllShown, AllChained, Chained, Abs;
      ghost var q := live + closing;
      s := new LocalSocket(nextRef);
      Install(s);
      assert forall i :: 0 <= i < |q| ==> Abs(q[i]) == old(Abs(q[i]));
      StillShown(q, locals);
    }

    /** create_remote_socket, and the two sockets are made peers. */
    method CreateRemoteSocket(remote: nat, s: LocalSocket) returns (p: RemoteSocket)
      modifies s`peer, `disconnects
      ensures fresh(p) && p.id == remote && p.peer == s && p.ref == nextRef + 1 && disconnects == old(disconnects) + [p]
      ensures s.peer == p && Abs(s) == old(Abs(s)).(peer := Some(p.ref))
    {
      p := new RemoteSocket(remote, s, nextRef + 1);
      disconnects := disconnects + [p];
      s.peer := p;
    }

    /** create_local_socket and create_remote_socket, each the peer of the other. */
    method ConnectSocket(remote: nat, ghost d: Device) returns (s: LocalSocket)
      requires Good(d) && Linked(d)
      modifies `live, `nextId, `nextRef, `disconnects, liveList`next, liveList`prev, live`next
      ensures Good(Connect(d, remote)) && s.ref == d.nextRef && s.peer != null && s.peer.id == remote && fresh(s)
      ensures live == old(live) + [s] && fresh(s.peer) && disconnects == old(disconnects) + [s.peer]
    {
      hide Linked, TwoRings, Paired, Numbered, Remembered, AllShown, AllChained, Chained, Abs, Connect, Good, Framed;
      Everyone(d);
      NewRefs(d);
      s := CreateLocalSocket(d.locals);
      var p := CreateRemoteSocket(remote, s);
      nextRef := nextRef + 2;
      ConnectedGood(s, p, old(live), old(disconnects), d);
    }

    lemma Everyone(d: Device)
      requires Good(d)
      ensures AllShown(live + closing, d.locals) && AllChained(live + closing) && TwoRings(liveList, closingList, live, closing)
      ensures Paired(live, disconnects) && Numbered(live, d.live) && Numbered(closing, d.closing)
      ensures Remembered(live, disconnects, d.remotes) && Counted(d)
    {
      hide TwoRings, Paired, Numbered, Remembered;
      OthersShown(live, closing, live + closing, d.locals);
      SubChained(live, closing, live + closing);
    }

    lemma ConnectedGood(s: LocalSocket, p: RemoteSocket, were: seq<LocalSocket>, peers: seq<RemoteSocket>, d: Device)
      requires TwoRings(liveList, closingList, live, closing) && live == were + [s] && disconnects == peers + [p]
      requires Paired(were, peers) && s.peer == p && p.peer == s && s.ref == d.nextRef && p.ref == d.nextRef + 1
      requires Numbered(were, d.live) && Numbered(closing, d.closing) && Remembered(were, peers, d.remotes)
      requires d.nextRef !in d.locals && d.nextRef + 1 !in d.remotes
      requires AllShown(were + closing, d.locals) && AllChained(were + closing) && Chained(s)
      requires Abs(s) == Local(d.nextId, false, Some(d.nextRef + 1), [], false, false, false, false, [], [], [], [])
      requires Counted(d.(nextId := d.nextId + 1, nextRef := d.nextRef + 2))
      ensures Good(Connect(d, p.id))
    {
      hide TwoRings, Abs, Chained, AllShown, AllChained;
      OneChained(s);
      SubChained(were + closing, [s], live);
      SubChained(were + closing, [s], closing);
      AddShown(were, closing, s, d.locals);
    }

    /** The OPEN step of handle_packet, when the service could be started. */
    method AcceptSocket(remote: nat, ghost d: Device)
      requires Good(d) && Linked(d) && d.online
      modifies `live, `nextId, `nextRef, `disconnects, `sent, liveList`next, liveList`prev, live`next
      ensures Good(Accept(d, remote))
    {
      hide Linked, Good, Ready, Granted, Connect;
      ConnectLinked(d, remote);
      ghost var e, r := Connect(d, remote), d.nextRef;
      var s := ConnectSocket(remote, d);
      Grant(s, remote, e);
      ghost var m := Granted(e.locals[r]);
      ghost var e1 := Send(Put(e, r, m), Okay(e.locals[r].id, remote));
      PutLinked(e, r, m, e1.sent);
      ReadySocket(s, e1);
      PutAgain(e, r, m, Ready(m));
      ConnectMeans(d, remote);
    }

    /** handle_packet. */
    method Handle(p: Packet, opens: bool, answers: seq<Answer>, ghost d: Device)
      requires Good(d) && Valid(d)
      modifies this, live, closing`next, closing`prev, disconnects`peer, liveList`next, liveList`prev, closingList`next, closingList`prev
      modifies set t: LocalSocket, n: Parcel | t in live && n in t.parcels :: n
      ensures Good(HandlePacket(d, p, opens, answers))
    {
      hide Valid, Linked, CloseLocal, Enqueue, Offline, Sighted, Ready, Granted, Accept, Good, Find;
      LinkedOf(d);
      FlagOf(d);
      match p
      case Sync(on) =>
        if on {
          SendPacket(p, d);
        } else {
          HandleOffline(d);
          Switch(false, Offline(d));
          SendPacket(p, Offline(d).(online := false));
        }
      case Cnxn =>
        if online {
          HandleOffline(d);
        }
        ghost var e := if d.online then Offline(d) else d;
        Switch(true, e);
        SendPacket(Cnxn, e.(online := true));
      case Open(remote) =>
        if online {
          if opens { AcceptSocket(remote, d); } else { SendPacket(Clse(0, remote), d); }
        }
      case Okay(_, id) =>
        var s := Address(id, d);
        if s != null { ReadySocket(s, d); }
      case Clse(_, id) =>
        var s := Address(id, d);
        if s != null { CloseSocket(s, d); }
      case Wrte(remote, id, data) =>
        var s := Address(id, d);
        if s != null {
          assert forall i :: 0 <= i < |s.parcels| ==> s.parcels[i] in s.parcels;
          EnqueuePacket(s, data, remote, answers, d);
        }
    }

    /** The socket that a packet is for. */
    method Address(id: nat, ghost d: Device) returns (r: LocalSocket?)
      requires Good(d) && Valid(d)
      ensures r == null <==> Addressed(d, id).None?
      ensures r != null ==> r in live && Addressed(d, id) == Some(r.ref)
    {
      hide Valid, Linked, Good, Find;
      LinkedOf(d);
      FlagOf(d);
      r := null;
      if online {
        r := FindLocalSocket(id, d);
      }
    }

    method SendPacket(p: Packet, ghost d: Device)
      requires Good(d)
      modifies `sent
      ensures Good(Send(d, p))
    {
      hide AllShown, AllChained, TwoRings, Paired, Numbered, Remembered;
      sent := sent + [p];
    }

    /** The transport goes on line or off. */
    method Switch(on: bool, ghost d: Device)
      requires Good(d)
      modifies `online
      ensures Good(d.(online := on))
    {
      hide AllShown, AllChained, TwoRings, Paired, Numbered, Remembered;
      online := on;
    }

    lemma FlagOf(d: Device)
      requires Good(d)
      ensures online == d.online
    {
    }

    lemma Look(s: LocalSocket, d: Device) returns (l: Local)
      requires Good(d) && Linked(d) && (s in live || s in closing)
      ensures s.ref in d.locals && Sighted(d, d.locals[s.ref]) && l == d.locals[s.ref] == Abs(s)
      ensures l.queue == s.queue && l.id == s.id && l.closing == s.closing && (s.pktFirst == null <==> s.queue == [])
      ensures (s.peer == null <==> l.peer.None?) && (!l.closing ==> l.peer.Some?)
      ensures l.pendRead == s.pendRead && l.pendWrite == s.pendWrite
    {
      ShownAt(s, d);
      LinkedSighted(d, s.ref);
      hide Linked, Sighted, Framed, AllShown, ShownBut, Counted;
      l := Abs(s);
      FirstData(s);
    }

    /** The chains of the others have no packet in common with that of s. */
    lemma Apartness(s: LocalSocket, spot: Spot, live': seq<LocalSocket>, rest: seq<LocalSocket>, d: Device)
      requires Good(d) && Linked(d) && At(s, spot, live, closing, live', rest)
      ensures s.ref in d.locals && d.locals[s.ref] == Abs(s) && ShownBut(live, s, d.locals) && ShownBut(closing, s, d.locals)
      ensures Chained(s) && AllChained(live' + rest) && s !in live' + rest
      ensures forall i :: 0 <= i < |s.parcels| ==> s.parcels[i].owner == s
      ensures forall t: LocalSocket, n: Parcel :: t in live' + rest && n in t.parcels ==> n.owner == t
    {
      ghost var disconnects' := LeaveList(s, spot, live', rest, d);
      SpotIn(s, spot, live, closing, live', rest);
      ShownAt(s, d);
    }

    lemma ShownAt(s: LocalSocket, d: Device)
      requires Good(d) && (s in live || s in closing)
      ensures Shown(s, d.locals) && ShownBut(live, s, d.locals) && ShownBut(closing, s, d.locals)
    {
    }
  }
}
