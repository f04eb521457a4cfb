/** Events on file descriptors: the pending ring, the table of descriptors and the select loop of minadbd/fdevent.c. */
module FdEvents {
  /** FDE_READ, FDE_WRITE and FDE_ERROR. */
  datatype Mask = Mask(read: bool, write: bool, error: bool)

  const NONE := Mask(false, false, false)

  function Or(a: Mask, b: Mask): Mask { Mask(a.read || b.read, a.write || b.write, a.error || b.error) }
  function Less(a: Mask, b: Mask): Mask { Mask(a.read && !b.read, a.write && !b.write, a.error && !b.error) }

  class FdEvent {
    var fd: int
    var active: bool
    var pending: bool
    var wants: Mask
    var events: Mask
    var next: FdEvent?
    var prev: FdEvent?

    constructor ()
      ensures !active && !pending
    {
      active, pending := false, false;
    }
  }

  ghost predicate Joined(a: FdEvent, b: FdEvent)
    reads a`next, b`prev
  {
    a.next == b && b.prev == a
  }

  /** Each element is joined to the one after it. */
  ghost predicate Chain(c: seq<FdEvent>)
    reads c`next, c`prev
  {
    forall i, j :: 0 <= i < j < |c| && j == i + 1 ==> Joined(c[i], c[j])
  }

  ghost predicate Distinct(c: seq<FdEvent>) {
    forall i, j :: 0 <= i < j < |c| ==> c[i] != c[j]
  }

  /** The ring: from the list head through the elements back to it. */
  ghost function Circle(list: FdEvent, ring: seq<FdEvent>): seq<FdEvent> { [list] + ring + [list] }

  ghost predicate Ring(list: FdEvent, ring: seq<FdEvent>)
    reads list`next, list`prev, ring`next, ring`prev
  {
    Distinct(ring) && list !in ring && Chain(Circle(list, ring))
  }

  /** fdevent_plist_enqueue. */
  method PlistEnqueue(list: FdEvent, node: FdEvent, ghost ring: seq<FdEvent>)
    requires Ring(list, ring) && node !in ring && node != list
    modifies list`next, list`prev, node`next, node`prev, ring`next
    ensures Ring(list, ring + [node])
  {
    ghost var c := Circle(list, ring);
    assert Joined(c[|ring|], c[|ring| + 1]);
    node.next := list;
    node.prev := list.prev;
    node.prev.next := node;
    list.prev := node;
    ghost var d := Circle(list, ring + [node]);
    forall i, j | 0 <= i < j < |d| && j == i + 1
      ensures Joined(d[i], d[j])
    {
      assert i < |ring| ==> Joined(c[i], c[j]);
    }
  }

  /** fdevent_plist_remove. */
  method PlistRemove(list: FdEvent, node: FdEvent, ghost ring: seq<FdEvent>, ghost k: nat)
    requires Ring(list, ring) && k < |ring| && ring[k] == node
    modifies list`next, list`prev, ring`next, ring`prev
    ensures Ring(list, ring[..k] + ring[k + 1..])
    ensures node.next == null && node.prev == null
  {
    ghost var c := Circle(list, ring);
    assert Joined(c[k], c[k + 1]) && Joined(c[k + 1], c[k + 2]);
    node.prev.next := node.next;
    node.next.prev := node.prev;
    node.next := null;
    node.prev := null;
    ghost var rest := ring[..k] + ring[k + 1..];
    ghost var d := Circle(list, rest);
    forall i, j | 0 <= i < j < |d| && j == i + 1
      ensures Joined(d[i], d[j])
    {
      assert i < k ==> Joined(c[i], c[j]);
      assert i > k ==> Joined(c[i + 1], c[j + 1]);
    }
  }

  /** fdevent_plist_dequeue takes the first element off the ring. */
  method PlistDequeue(list: FdEvent, ghost ring: seq<FdEvent>) returns (node: FdEvent?)
    requires Ring(list, ring)
    modifies list`next, ring`next, ring`prev, list`prev
    ensures ring == [] ==> node == null && Ring(list, ring)
    ensures ring != [] ==> node == ring[0] && Ring(list, ring[1..]) && node.next == null && node.prev == null
  {
    ghost var c := Circle(list, ring);
    assert Joined(c[0], c[1]);
    node := list.next;
    if node == list {
      return null;
    }
    PlistRemove(list, node, ring, 0);
    assert ring[..0] + ring[1..] == ring[1..];
  }

  /** r without its element x, wherever that stood. */
  ghost predicate Dropped<T>(r: seq<T>, r': seq<T>, x: T) {
    exists k :: 0 <= k < |r| && r[k] == x && r' == r[..k] + r[k + 1..]
  }

  // ----- The descriptor table -----

  const MAX_FD := 32000

  /** The size the table grows to when it has to hold fd. */
  function Doubled(max: nat, fd: nat): (r: nat)
    requires max > 0
    ensures r > fd && r >= max
    decreases fd - max
  {
    if fd < max then max else Doubled(2 * max, fd)
  }

  class EventLoop {
    const list: FdEvent
    var table: seq<FdEvent?>
    var selectN: int
    var readFds: set<int>
    var writeFds: set<int>
    var errorFds: set<int>
    /** The events in the ring, in order, and all events that are registered. */
    ghost var ring: seq<FdEvent>
    ghost var all: set<FdEvent>

    /** The table and the registered events point at each other, and select covers them all. */
    ghost predicate Registered()
      reads `table, `selectN, `all, all`fd, all`active
    {
      && (forall e :: e in all ==> e.active && 0 <= e.fd < |table| && table[e.fd] == e && e.fd < selectN)
      && (forall i :: 0 <= i < |table| && table[i] != null ==> table[i] in all && table[i].fd == i)
      && 0 <= selectN <= |table|
    }

    /** The ring holds exactly the events flagged as pending, and those are the ones with something to report. */
    ghost predicate Flagged()
      reads `ring, `all, all`pending, all`events
    {
      && (forall e :: e in ring ==> e in all)
      && (forall e :: e in all ==> (e.pending <==> e in ring) && (e.pending <==> e.events != NONE))
    }

    /** What is wanted of the descriptor i. */
    ghost function Want(i: int): Mask
      reads `table, `all, all`wants
    {
      if 0 <= i < |table| && table[i] != null && table[i] in all then table[i].wants else NONE
    }

    /** The three sets given to select say what is wanted of every descriptor. */
    ghost predicate Watched()
      reads `readFds, `writeFds, `errorFds, `table, `all, all`wants
    {
      forall i :: (i in readFds <==> Want(i).read) && (i in writeFds <==> Want(i).write) && (i in errorFds <==> Want(i).error)
    }

    ghost predicate Valid()
      reads this, list, all, ring
    {
      list !in all && Ring(list, ring) && Flagged() && Registered() && Watched()
    }

    constructor ()
      ensures Valid() && all == {} && ring == [] && fresh(list)
    {
      var head := new FdEvent();
      list := head;
      table, selectN, readFds, writeFds, errorFds, ring, all := [], 0, {}, {}, {}, [], {};
      new;
      list.next, list.prev := list, list;
    }

    /** fdevent_register makes room for the descriptor and enters the event. */
    method Register(e: FdEvent)
      requires 0 <= e.fd <= MAX_FD
      modifies `table
      ensures |table| >= |old(table)| && e.fd < |table|
      ensures forall i :: 0 <= i < |table| ==>
        table[i] == if i == e.fd then e else if i < |old(table)| then old(table)[i] else null
    {
      if e.fd >= |table| {
        var max := Doubled(if |table| == 0 then 256 else |table|, e.fd);
        table := table + seq(max - |table|, _ => null);
      }
      table := table[e.fd := e];
    }

    /** The event is wiped, and is active for the descriptor fd. */
    method Blank(e: FdEvent, fd: int)
      modifies e
      ensures e.fd == fd && e.active && !e.pending && e.wants == NONE && e.events == NONE && e.next == null && e.prev == null
    {
      e.fd, e.active, e.pending, e.wants, e.events, e.next, e.prev := fd, true, false, NONE, NONE, null, null;
    }

    /** fdevent_install, for an event that is not in use and a descriptor that no event is registered for. */
    method Install(e: FdEvent, fd: int)
      requires Valid() && e !in all && e != list
      requires 0 <= fd <= MAX_FD && (fd < |table| ==> table[fd] == null)
      modifies this, e
      ensures Valid() && all == old(all) + {e} && ring == old(ring) && e.fd == fd && e.wants == NONE && e.events == NONE
    {
      hide Ring, Flagged, Registered, Watched;
      Blank(e, fd);
      Register(e);
      if e.fd >= selectN {
        selectN := e.fd + 1;
      }
      all := all + {e};
      InstallFlagged(e);
      InstallRegistered(e);
      InstallWatched(e);
    }

    twostate lemma InstallFlagged(new e: FdEvent)
      requires e !in old(all) && all == old(all) + {e} && ring == old(ring) && old(Flagged())
      requires !e.pending && e.events == NONE && forall x :: x in old(all) ==> x.pending == old(x.pending) && x.events == old(x.events)
      ensures Flagged()
    {
    }

    twostate lemma InstallRegistered(new e: FdEvent)
      requires e !in old(all) && all == old(all) + {e} && old(Registered()) && e.active && 0 <= e.fd < |table| && |old(table)| <= |table|
      requires e.fd < |old(table)| ==> old(table)[e.fd] == null
      requires forall x :: x in old(all) ==> x.fd == old(x.fd) && x.active == old(x.active)
      requires selectN == if e.fd >= old(selectN) then e.fd + 1 else old(selectN)
      requires forall i :: 0 <= i < |table| ==> table[i] == if i == e.fd then e else if i < |old(table)| then old(table)[i] else null
      ensures Registered()
    {
    }

    twostate lemma InstallWatched(new e: FdEvent)
      requires e !in old(all) && all == old(all) + {e} && old(Watched()) && e.wants == NONE && 0 <= e.fd < |table| && |old(table)| <= |table|
      requires e.fd < |old(table)| ==> old(table)[e.fd] == null
      requires forall x :: x in old(all) ==> x.wants == old(x.wants)
      requires readFds == old(readFds) && writeFds == old(writeFds) && errorFds == old(errorFds)
      requires forall i :: 0 <= i < |table| ==> table[i] == if i == e.fd then e else if i < |old(table)| then old(table)[i] else null
      ensures Watched()
    {
      forall i
        ensures Want(i) == old(Want(i))
      {
      }
    }

    // ----- Removing -----

    /** The search of fdevent_disconnect for the last descriptor in use. */
    method LastInUse() returns (n: int)
      requires 0 <= selectN <= |table|
      ensures 0 <= n && (n < selectN || n == 0) && forall i :: n < i < selectN ==> table[i] == null
    {
      n := 0;
      var i := 0;
      while i < selectN
        invariant 0 <= i <= selectN && 0 <= n && (n < i || n == 0) && forall j :: n < j < i ==> table[j] == null
      {
        if table[i] != null { n := i; }
        i := i + 1;
      }
    }

    /** fdevent_disconnect and fdevent_unregister. */
    method Unregister(e: FdEvent)
      requires Registered() && Watched() && e in all
      modifies `table, `selectN, `readFds, `writeFds, `errorFds, `all
      ensures all == old(all) - {e} && Registered() && Watched()
    {
      var fd := e.fd;
      readFds, writeFds, errorFds := readFds - {fd}, writeFds - {fd}, errorFds - {fd};
      var n := LastInUse();
      selectN := n + 1;
      table := table[fd := null];
      all := all - {e};
      hide Want, Watched;
      assert Registered();
      UnregisterWatched(e);
    }

    twostate lemma UnregisterWatched(e: FdEvent)
      requires old(Watched()) && old(Registered()) && e in old(all) && all == old(all) - {e} && e.fd == old(e.fd) && table == old(table)[e.fd := null]
      requires readFds == old(readFds) - {e.fd} && writeFds == old(writeFds) - {e.fd} && errorFds == old(errorFds) - {e.fd}
      requires forall x :: x in all ==> x.wants == old(x.wants)
      ensures Watched()
    {
      forall i
        ensures Want(i) == if i == e.fd then NONE else old(Want(i))
      {
      }
    }

    /** Taking an event off the ring, from wherever it is. */
    method Unlink(e: FdEvent)
      requires Ring(list, ring) && e in ring
      modifies list`next, list`prev, ring`next, ring`prev, `ring
      ensures Ring(list, ring) && Dropped(old(ring), ring, e) && forall x :: x in ring <==> x in old(ring) && x != e
    {
      ghost var k :| 0 <= k < |ring| && ring[k] == e;
      PlistRemove(list, e, ring, k);
      RingWithout(ring, k);
      ring := ring[..k] + ring[k + 1..];
    }

    /** A pending event leaves the ring. */
    method Unflag(e: FdEvent)
      requires Ring(list, ring) && Flagged() && e in all && e.pending
      modifies list`next, list`prev, ring`next, ring`prev, `ring, e`pending, e`events
      ensures Ring(list, ring) && Flagged() && !e.pending && e.events == NONE && Dropped(old(ring), ring, e)
    {
      hide Ring, Dropped;
      Unlink(e);
      e.pending, e.events := false, NONE;
    }

    /** fdevent_remove. */
    method Remove(e: FdEvent)
      requires Valid() && (e in all || (!e.active && !e.pending)) && e != list
      modifies this, e, list`next, list`prev, ring`next, ring`prev
      ensures Valid() && all == old(all) - {e} && !e.active && !e.pending && e.fd == old(e.fd)
      ensures if old(e.pending) then Dropped(old(ring), ring, e) else ring == old(ring)
    {
      hide Ring, Registered, Watched, Dropped;
      if e.pending {
        Unflag(e);
      }
      if e.active {
        Unregister(e);
      }
      AllActive();
      hide Flagged;
      e.active, e.wants, e.events := false, NONE, NONE;
    }

    // ----- Wanting -----

    /** fdevent_update. */
    method Update(e: FdEvent, events: Mask)
      requires e in all && Registered() && Watched()
      modifies e`wants, `readFds, `writeFds, `errorFds
      ensures e.wants == events && Registered() && Watched()
    {
      var fd := e.fd;
      readFds := if events.read then readFds + {fd} else readFds - {fd};
      writeFds := if events.write then writeFds + {fd} else writeFds - {fd};
      errorFds := if events.error then errorFds + {fd} else errorFds - {fd};
      e.wants := events;
      UpdateWatched(e);
    }

    twostate lemma UpdateWatched(e: FdEvent)
      requires old(Registered()) && old(Watched()) && e in all && all == old(all) && table == old(table) && selectN == old(selectN)
      requires readFds == if e.wants.read then old(readFds) + {e.fd} else old(readFds) - {e.fd}
      requires writeFds == if e.wants.write then old(writeFds) + {e.fd} else old(writeFds) - {e.fd}
      requires errorFds == if e.wants.error then old(errorFds) + {e.fd} else old(errorFds) - {e.fd}
      requires forall x :: x in all ==> x.fd == old(x.fd) && x.active == old(x.active) && (x != e ==> x.wants == old(x.wants))
      ensures Registered() && Watched()
    {
      forall i
        ensures Want(i) == if i == e.fd then e.wants else old(Want(i))
      {
      }
    }

    /** fdevent_set. What was pending and is wanted now is dropped; an event left with nothing pending leaves the ring. */
    method Set(e: FdEvent, events: Mask)
      requires Valid() && (e in all || (!e.active && !e.pending)) && e != list
      modifies `readFds, `writeFds, `errorFds, `ring, e, list`next, list`prev, ring`next, ring`prev
      ensures Valid() && e.wants == events && e.active == old(e.active) && e.fd == old(e.fd)
      ensures e.events == if old(e.pending) && old(e.wants) != events then Less(old(e.events), events) else old(e.events)
      ensures if old(e.pending) && e.events == NONE then Dropped(old(ring), ring, e) else ring == old(ring)
    {
      hide Ring, Registered, Watched, Dropped;
      if e.wants == events {
        return;
      }
      if e.active {
        Update(e, events);
      }
      AllActive();
      e.wants := events;
      RestPending(e, events);
    }

    lemma AllActive()
      requires Registered()
      ensures forall x :: x in all ==> x.active
    {
    }

    /** The end of fdevent_set, when the sets are up to date. */
    method RestPending(e: FdEvent, events: Mask)
      requires Valid() && (e in all || !e.pending)
      modifies `ring, e`events, e`pending, list`next, list`prev, ring`next, ring`prev
      ensures Valid()
      ensures e.events == if old(e.pending) then Less(old(e.events), events) else old(e.events)
      ensures if old(e.pending) && e.events == NONE then Dropped(old(ring), ring, e) else ring == old(ring)
    {
      hide Ring, Registered, Watched, Dropped;
      if e.pending {
        e.events := Less(e.events, events);
        if e.events == NONE {
          Unlink(e);
          e.pending := false;
        }
      }
    }

    // ----- Noticing and dispatching -----

    /** An event is flagged and joins the ring, unless it was flagged already. */
    method Flag(e: FdEvent)
      requires e in all && Ring(list, ring) && (forall x :: x in ring ==> x in all) && (e in ring <==> e.pending) && e != list
      modifies `ring, list`prev, list`next, e`pending, e`prev, e`next, ring`next
      ensures e.pending && ring == (if old(e.pending) then old(ring) else old(ring) + [e]) && Ring(list, ring)
    {
      hide Ring;
      if !e.pending {
        e.pending := true;
        PlistEnqueue(list, e, ring);
        ring := ring + [e];
      }
    }

    /** An event has something more to report. */
    method Report(e: FdEvent, mask: Mask)
      requires Ring(list, ring) && Flagged() && e in all && mask != NONE && list !in all
      modifies `ring, list`prev, list`next, e`events, e`pending, e`prev, e`next, ring`next
      ensures Ring(list, ring) && Flagged() && e.events == Or(old(e.events), mask)
      ensures ring == if old(e.pending) then old(ring) else old(ring) + [e]
    {
      hide Ring;
      e.events := Or(e.events, mask);
      Flag(e);
    }

    /** The body of fdevent_process for a descriptor that is ready. */
    method Signal(i: int, mask: Mask)
      requires Valid() && 0 <= i < |table| && table[i] != null && mask != NONE
      modifies `ring, list`prev, list`next, all`events, all`pending, all`next, all`prev
      ensures Valid() && old(ring) <= ring
      ensures table[i] in all && table[i].fd == i && table[i].events == Or(old(table[i].events), mask)
      ensures forall x :: x in all && x != table[i] ==> x.events == old(x.events) && x.fd != i
      ensures ring == old(ring) || ring == old(ring) + [table[i]]
    {
      hide Ring, Registered, Watched, Flagged;
      AtIndex(i);
      InAll();
      Report(table[i], mask);
    }

    lemma InAll()
      requires Flagged()
      ensures forall x :: x in ring ==> x in all
    {
    }

    lemma AtIndex(i: int)
      requires Registered() && 0 <= i < |table| && table[i] != null
      ensures table[i] in all && table[i].fd == i && forall x :: x in all && x.fd == i ==> x == table[i]
    {
    }

    /** Which of the three sets that select filled hold the descriptor i. */
    function Ready(i: int, r: set<int>, w: set<int>, x: set<int>): Mask { Mask(i in r, i in w, i in x) }

    /** How many bits the three sets hold from i on. */
    function Bits(i: int, r: set<int>, w: set<int>, x: set<int>): (n: nat)
      requires i <= selectN
      reads `selectN
      ensures n == 0 ==> forall j :: i <= j < selectN ==> Ready(j, r, w, x) == NONE
      decreases selectN - i
    {
      if i == selectN then 0
      else (if i in r then 1 else 0) + (if i in w then 1 else 0) + (if i in x then 1 else 0) + Bits(i + 1, r, w, x)
    }

    /** From n on, the ring holds events in the order of their descriptors, all below limit. */
    ghost predicate Ascending(n: nat, limit: int)
      reads `ring, ring`fd
    {
      && (forall j, k :: n <= j < k < |ring| ==> ring[j].fd < ring[k].fd)
      && (forall k :: n <= k < |ring| ==> ring[k].fd < limit)
    }

    /**
     * fdevent_process after select has answered with n bits: every registered event has what is ready added to what it
     * has to report, and none is missed when the count runs out. A descriptor in the sets always has an event.
     */
    method Process(r: set<int>, w: set<int>, x: set<int>, n: int)
      requires Valid() && n == Bits(0, r, w, x)
      requires forall i :: 0 <= i < selectN && Ready(i, r, w, x) != NONE ==> table[i] != null
      modifies `ring, list`prev, list`next, all`events, all`pending, all`next, all`prev
      ensures Valid() && old(ring) <= ring && Ascending(|old(ring)|, selectN)
      ensures forall e :: e in all ==> e.events == Or(old(e.events), Ready(e.fd, r, w, x))
    {
      var i, left := 0, n;
      hide Ring, Registered, Watched, Flagged;
      Covered();
      while i < selectN && left > 0
        invariant Valid() && 0 <= i <= selectN && left == Bits(i, r, w, x) && old(ring) <= ring && Ascending(|old(ring)|, i)
        invariant forall e :: e in all ==>
          e.events == if e.fd < i then Or(old(e.events), Ready(e.fd, r, w, x)) else old(e.events)
        decreases selectN - i
      {
        var mask := Ready(i, r, w, x);
        left := left - (if mask.read then 1 else 0) - (if mask.write then 1 else 0) - (if mask.error then 1 else 0);
        if mask != NONE {
          Signal(i, mask);
        }
        i := i + 1;
      }
    }

    lemma Covered()
      requires Registered()
      ensures 0 <= selectN <= |table| && forall e :: e in all ==> 0 <= e.fd < selectN
    {
    }

    /** fdevent_plist_dequeue and the beginning of fdevent_call_fdfunc: the event whose callback is due, and what it is told. */
    method Take() returns (e: FdEvent?, events: Mask)
      requires Valid()
      modifies `ring, list`prev, list`next, all`events, all`pending, all`next, all`prev
      ensures Valid()
      ensures old(ring) == [] ==> e == null && ring == []
      ensures old(ring) != [] ==> e == old(ring)[0] && ring == old(ring)[1..] && events == old(e.events) && events != NONE && e.events == NONE
      ensures forall x :: x in all && x != e ==> x.events == old(x.events)
    {
      hide Ring, Registered, Watched;
      RingTail(list, ring);
      e := PlistDequeue(list, ring);
      events := NONE;
      if e != null {
        ring := ring[1..];
        events := e.events;
        e.events, e.pending := NONE, false;
      }
    }

    // ----- Select -----

    lemma {:induction false} BitsAdd(k: int, r: set<int>, i: int)
      requires k <= i < selectN && i !in r
      ensures Bits(k, r + {i}, {}, {}) == Bits(k, r, {}, {}) + 1
      decreases i - k
    {
      if k < i {
        BitsAdd(k + 1, r, i);
      } else {
        BitsAbove(k + 1, r, i);
      }
    }

    lemma {:induction false} BitsAbove(k: int, r: set<int>, i: int)
      requires i < k <= selectN
      ensures Bits(k, r + {i}, {}, {}) == Bits(k, r, {}, {})
      decreases selectN - k
    {
      if k < selectN {
        BitsAbove(k + 1, r, i);
      }
    }

    lemma {:induction false} BitsNone(k: int)
      requires k <= selectN
      ensures Bits(k, {}, {}, {}) == 0
      decreases selectN - k
    {
      if k < selectN {
        BitsNone(k + 1);
      }
    }

    /** fdevent_fd_check: the registered descriptors that are no longer good. */
    method FdCheck(bad: set<int>) returns (r: set<int>, n: int)
      requires 0 <= selectN <= |table|
      ensures forall i :: i in r <==> 0 <= i < selectN && table[i] != null && i in bad
      ensures n == Bits(0, r, {}, {})
    {
      r, n := {}, 0;
      BitsNone(0);
      var i := 0;
      while i < selectN
        invariant 0 <= i <= selectN && n == Bits(0, r, {}, {})
        invariant forall j :: j in r <==> 0 <= j < i && table[j] != null && j in bad
      {
        if table[i] != null && i in bad {
          BitsAdd(0, r, i);
          r, n := r + {i}, n + 1;
        }
        i := i + 1;
      }
    }

    /** The sets given to select name registered descriptors only. */
    lemma WatchedRegistered(i: int)
      requires Watched() && (i in readFds || i in writeFds || i in errorFds)
      ensures 0 <= i < |table| && table[i] != null
    {
      assert Want(i) != NONE;
    }

    /**
     * fdevent_process. Select answers with parts of the three sets, or with an error; if it has nothing to report, or found
     * a bad descriptor, the descriptors that are no longer good are reported as readable.
     */
    method Poll(answer: Selected, bad: set<int>)
      requires Valid()
      requires answer.Ready? ==> Within(answer.r, readFds) && Within(answer.w, writeFds) && Within(answer.x, errorFds)
      modifies `ring, list`prev, list`next, all`events, all`pending, all`next, all`prev
      ensures Valid() && old(ring) <= ring && Ascending(|old(ring)|, selectN)
      ensures forall e :: e in all ==> e.events == Or(old(e.events), Found(answer, e.fd, bad))
    {
      hide Ring, Flagged;
      Covered();
      if answer == Failed {
        return;
      }
      if answer.Ready? {
        var n := Bits(0, answer.r, answer.w, answer.x);
        forall i | 0 <= i < selectN && Ready(i, answer.r, answer.w, answer.x) != NONE
          ensures table[i] != null
        {
          WatchedRegistered(i);
        }
        NothingReady(answer);
        if n > 0 {
          Process(answer.r, answer.w, answer.x, n);
          return;
        }
      }
      var r, n := FdCheck(bad);
      hide Watched;
      Process(r, {}, {}, n);
    }

    /** Select reports no bits exactly if its three sets are empty. */
    lemma NothingReady(answer: Selected)
      requires Registered() && Watched() && answer.Ready? && Within(answer.r, readFds) && Within(answer.w, writeFds) && Within(answer.x, errorFds)
      ensures 0 <= selectN && (Bits(0, answer.r, answer.w, answer.x) == 0 <==> answer == Selected.Ready({}, {}, {}))
    {
      forall i | i in answer.r || i in answer.w || i in answer.x
        ensures 0 <= i < selectN
      {
        WatchedRegistered(i);
        assert table[i] in all;
      }
      BitsNone(0);
      if Bits(0, answer.r, answer.w, answer.x) == 0 {
        assert forall i :: 0 <= i < selectN ==> Ready(i, answer.r, answer.w, answer.x) == NONE;
        assert forall i :: i !in answer.r && i !in answer.w && i !in answer.x by {
          hide Registered, Watched;
          forall i
            ensures i !in answer.r && i !in answer.w && i !in answer.x
          {
            assert 0 <= i < selectN ==> Ready(i, answer.r, answer.w, answer.x) == NONE;
          }
        }
        assert answer.r == {} && answer.w == {} && answer.x == {};
      }
    }
  }

  predicate Within(a: set<int>, b: set<int>) { forall i :: i in a ==> i in b }

  /** How select answers: with what is ready, that a descriptor is bad, or that it failed otherwise. */
  datatype Selected = Ready(r: set<int>, w: set<int>, x: set<int>) | BadDescriptor | Failed

  /** What a registered descriptor is found ready for. */
  function Found(answer: Selected, fd: int, bad: set<int>): Mask {
    if answer.Failed? then NONE
    else if answer.Ready? && answer != Selected.Ready({}, {}, {}) then Mask(fd in answer.r, fd in answer.w, fd in answer.x)
    else Mask(fd in bad, false, false)
  }

  lemma RingTail(list: FdEvent, ring: seq<FdEvent>)
    requires Ring(list, ring)
    ensures ring != [] ==> forall x :: x in ring[1..] <==> x in ring && x != ring[0]
  {
    hide Chain;
  }

  lemma RingWithout(ring: seq<FdEvent>, k: nat)
    requires Distinct(ring) && k < |ring|
    ensures forall x :: x in ring[..k] + ring[k + 1..] <==> x in ring && x != ring[k]
  {
    var rest := ring[..k] + ring[k + 1..];
    forall x | x in ring && x != ring[k]
      ensures x in rest
    {
      var i :| 0 <= i < |ring| && ring[i] == x;
      assert i < k ==> rest[i] == x;
      assert i > k ==> rest[i - 1] == x;
    }
  }
}
