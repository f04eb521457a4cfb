/** Whole runs of the event loop of minadbd/fdevent.c, by what can be seen of it. */
module FdRuns {
  import opened Bytes
  import opened FdEvents

  /** One thing a program may do between callbacks or in one; events are named by their descriptors. */
  datatype Act =
    | Installs(fd: int)
    | Sets(fd: int, events: Mask)
    | Removes(fd: int)
    | Polls(answer: Selected, bad: set<int>)
    | Dispatches

  /** What a callback is told: its descriptor, and the events. */
  datatype Report = Report(fd: int, events: Mask)

  /**
   * What can be seen of a loop: the descriptors in the ring, in order; what is wanted of each registered one; and what
   * each has to report.
   */
  datatype Loop = Loop(ring: seq<int>, wants: map<int, Mask>, events: map<int, Mask>)

  /** The ring holds exactly the descriptors with something to report, each once. */
  ghost predicate Sound(a: Loop) {
    && a.wants.Keys == a.events.Keys && (forall j, k :: 0 <= j < k < |a.ring| ==> a.ring[j] != a.ring[k])
    && (forall fd :: fd in a.ring <==> fd in a.events && a.events[fd] != NONE)
  }

  /** An answer of select to what was asked of it. */
  ghost predicate Offered(a: Loop, answer: Selected) {
    answer.Ready? ==>
      && (forall fd :: fd in answer.r ==> fd in a.wants && a.wants[fd].read)
      && (forall fd :: fd in answer.w ==> fd in a.wants && a.wants[fd].write)
      && (forall fd :: fd in answer.x ==> fd in a.wants && a.wants[fd].error)
  }

  /** The events of the descriptors after select has answered. */
  ghost predicate Polled(a: Loop, b: Loop, answer: Selected, bad: set<int>) {
    && b.wants == a.wants && b.events.Keys == a.events.Keys
    && (forall fd :: fd in a.events ==> b.events[fd] == Or(a.events[fd], Found(answer, fd, bad)))
    && a.ring <= b.ring && forall j, k :: |a.ring| <= j < k < |b.ring| ==> b.ring[j] < b.ring[k]
  }

  /** What fdevent_set leaves to be reported of a descriptor. */
  function Kept(a: Loop, fd: int, m: Mask): Mask
    requires fd in a.events
  {
    if fd in a.ring then Less(a.events[fd], m) else a.events[fd]
  }

  /** What each act does; what a caller may not do is passed over. */
  ghost predicate Does(act: Act, a: Loop, b: Loop) {
    match act
    case Installs(fd) => b == if 0 <= fd <= MAX_FD && fd !in a.wants then a.(wants := a.wants[fd := NONE], events := a.events[fd := NONE]) else a
    case Sets(fd, m) =>
      if fd !in a.wants || fd !in a.events || a.wants[fd] == m then b == a
      else
        && b.wants == a.wants[fd := m] && b.events == a.events[fd := Kept(a, fd, m)]
        && if fd in a.ring && Kept(a, fd, m) == NONE then Dropped(a.ring, b.ring, fd) else b.ring == a.ring
    case Removes(fd) =>
      && b.wants == a.wants - {fd} && b.events == a.events - {fd}
      && if fd in a.ring then Dropped(a.ring, b.ring, fd) else b.ring == a.ring
    case Polls(answer, bad) => if Offered(a, answer) then Polled(a, b, answer, bad) else b == a
    case Dispatches => b == if a.ring == [] then a else Loop(a.ring[1..], a.wants, a.events[a.ring[0] := NONE])
  }

  /** The loop shows this. */
  ghost predicate Shows(loop: EventLoop, a: Loop)
    reads loop, loop.all, loop.ring
  {
    && |a.ring| == |loop.ring| && (forall k :: 0 <= k < |a.ring| ==> a.ring[k] == loop.ring[k].fd)
    && a.wants.Keys == a.events.Keys
    && (forall e :: e in loop.all ==> e.fd in a.wants && a.wants[e.fd] == e.wants && a.events[e.fd] == e.events)
    && (forall fd :: fd in a.wants ==> 0 <= fd < |loop.table| && loop.table[fd] != null && loop.table[fd] in loop.all)
  }

  /** What a valid loop shows is sound. */
  lemma ShownIsSound(loop: EventLoop, a: Loop)
    requires loop.Valid() && Shows(loop, a)
    ensures Sound(a)
  {
    forall j, k | 0 <= j < k < |a.ring|
      ensures a.ring[j] != a.ring[k]
    {
      assert loop.ring[j] in loop.all && loop.ring[k] in loop.all && loop.ring[j] != loop.ring[k];
    }
    forall fd
      ensures fd in a.ring <==> fd in a.events && a.events[fd] != NONE
    {
      if fd in a.ring {
        var k :| 0 <= k < |a.ring| && a.ring[k] == fd;
        assert loop.ring[k] in loop.all;
      }
      if fd in a.events && a.events[fd] != NONE {
        var e := loop.table[fd];
        assert e in loop.ring;
        var k :| 0 <= k < |loop.ring| && loop.ring[k] == e;
        assert a.ring[k] == fd;
      }
    }
  }

  lemma AtFd(loop: EventLoop, a: Loop, fd: int)
    requires loop.Valid() && Shows(loop, a)
    ensures fd in a.wants <==> 0 <= fd < |loop.table| && loop.table[fd] != null
    ensures fd in a.wants ==> loop.table[fd] in loop.all && loop.table[fd].fd == fd && (loop.table[fd].pending <==> fd in a.ring)
    ensures fd in a.wants ==> fd in a.events && forall e :: e in loop.all && e != loop.table[fd] ==> e.fd != fd
  {
    ShownIsSound(loop, a);
    hide Ring, EventLoop.Watched;
  }

  method DoInstall(loop: EventLoop, fd: int, ghost a: Loop) returns (ghost b: Loop)
    requires loop.Valid() && Shows(loop, a)
    modifies loop, loop.list, loop.all
    ensures loop.Valid() && Shows(loop, b) && Does(Installs(fd), a, b) && fresh(loop.all - old(loop.all))
  {
    AtFd(loop, a, fd);
    b := a;
    if 0 <= fd <= MAX_FD && (fd >= |loop.table| || loop.table[fd] == null) {
      var e := new FdEvent();
      loop.Install(e, fd);
      b := a.(wants := a.wants[fd := NONE], events := a.events[fd := NONE]);
      hide Ring, EventLoop.Watched, EventLoop.Flagged;
    }
  }

  /** The descriptors of a ring from which an event was dropped. */
  lemma DropShown(ring: seq<FdEvent>, ring': seq<FdEvent>, e: FdEvent, fds: seq<int>, fd: int) returns (fds': seq<int>)
    requires Dropped(ring, ring', e) && |fds| == |ring| && e.fd == fd && forall k :: 0 <= k < |fds| ==> fds[k] == ring[k].fd
    ensures Dropped(fds, fds', fd) && |fds'| == |ring'| && forall k :: 0 <= k < |fds'| ==> fds'[k] == ring'[k].fd
  {
    var k :| 0 <= k < |ring| && ring[k] == e && ring' == ring[..k] + ring[k + 1..];
    fds' := fds[..k] + fds[k + 1..];
    assert fds[k] == fd;
  }

  lemma SetDoes(a: Loop, b: Loop, fd: int, m: Mask)
    requires Sound(a) && fd in a.wants && fd in a.events
    requires var ev := if fd in a.ring && a.wants[fd] != m then Less(a.events[fd], m) else a.events[fd];
      && b.wants == a.wants[fd := m] && b.events == a.events[fd := ev]
      && if fd in a.ring && ev == NONE then Dropped(a.ring, b.ring, fd) else b.ring == a.ring
    ensures Does(Sets(fd, m), a, b)
  {
    hide Dropped, Less;
    if a.wants[fd] == m {
      assert a.wants[fd := m] == a.wants && a.events[fd := a.events[fd]] == a.events;
    }
  }

  method DoSet(loop: EventLoop, fd: int, m: Mask, ghost a: Loop) returns (ghost b: Loop)
    requires loop.Valid() && Shows(loop, a)
    modifies loop, loop.list, loop.all
    ensures loop.Valid() && Shows(loop, b) && Does(Sets(fd, m), a, b) && loop.all == old(loop.all)
  {
    hide Ring, EventLoop.Watched, EventLoop.Flagged, EventLoop.Registered, Dropped, Less, Sound;
    AtFd(loop, a, fd);
    ShownIsSound(loop, a);
    loop.InAll();
    b := a;
    if 0 <= fd < |loop.table| && loop.table[fd] != null {
      var e := loop.table[fd];
      ghost var ring := loop.ring;
      ghost var fds := a.ring;
      loop.Set(e, m);
      if fd in a.ring && e.events == NONE {
        fds := DropShown(ring, loop.ring, e, a.ring, fd);
      }
      b := Loop(fds, a.wants[fd := m], a.events[fd := e.events]);
      SetDoes(a, b, fd, m);
      hide Does;
    }
  }

  lemma RegisteredOnly(loop: EventLoop)
    requires loop.Registered()
    ensures forall e :: e in loop.all ==> 0 <= e.fd < |loop.table| && loop.table[e.fd] == e
  {
  }

  method DoRemove(loop: EventLoop, fd: int, ghost a: Loop) returns (ghost b: Loop)
    requires loop.Valid() && Shows(loop, a)
    modifies loop, loop.list, loop.all
    ensures loop.Valid() && Shows(loop, b) && Does(Removes(fd), a, b) && loop.all <= old(loop.all)
  {
    AtFd(loop, a, fd);
    ShownIsSound(loop, a);
    loop.InAll();
    b := a;
    if 0 <= fd < |loop.table| && loop.table[fd] != null {
      var e := loop.table[fd];
      ghost var ring := loop.ring;
      hide Ring, EventLoop.Watched, EventLoop.Flagged, EventLoop.Registered, Dropped, Sound;
      loop.Remove(e);
      RegisteredOnly(loop);
      b := a.(wants := a.wants - {fd}, events := a.events - {fd});
      if fd in a.ring {
        var fds := DropShown(ring, loop.ring, e, a.ring, fd);
        b := b.(ring := fds);
      }
    } else {
      assert a.wants - {fd} == a.wants && a.events - {fd} == a.events;
    }
  }

  /** What is offered can be read off the three sets. */
  lemma OfferedMeans(loop: EventLoop, a: Loop, answer: Selected)
    requires loop.Valid() && Shows(loop, a)
    ensures Offered(a, answer) <==> (answer.Ready? ==> Within(answer.r, loop.readFds) && Within(answer.w, loop.writeFds) && Within(answer.x, loop.errorFds))
  {
    forall fd
      ensures fd in loop.readFds <==> fd in a.wants && a.wants[fd].read
      ensures fd in loop.writeFds <==> fd in a.wants && a.wants[fd].write
      ensures fd in loop.errorFds <==> fd in a.wants && a.wants[fd].error
    {
      AtFd(loop, a, fd);
      assert loop.Want(fd) == if fd in a.wants then a.wants[fd] else NONE;
    }
  }

  ghost function FdsOf(ring: seq<FdEvent>): (fds: seq<int>)
    reads ring`fd
    ensures |fds| == |ring| && forall k :: 0 <= k < |ring| ==> fds[k] == ring[k].fd
  {
    if ring == [] then [] else FdsOf(ring[..|ring| - 1]) + [ring[|ring| - 1].fd]
  }

  function Recorded(events: map<int, Mask>, answer: Selected, bad: set<int>): (m: map<int, Mask>)
    ensures m.Keys == events.Keys && forall fd :: fd in events ==> m[fd] == Or(events[fd], Found(answer, fd, bad))
  {
    map fd | fd in events :: Or(events[fd], Found(answer, fd, bad))
  }

  /** What the loop shows once the events found are recorded. */
  lemma PolledShown(loop: EventLoop, a: Loop, answer: Selected, bad: set<int>) returns (b: Loop)
    requires |a.ring| <= |loop.ring| && (forall k :: 0 <= k < |a.ring| ==> a.ring[k] == loop.ring[k].fd)
    requires loop.Ascending(|a.ring|, loop.selectN) && a.wants.Keys == a.events.Keys
    requires forall e :: e in loop.all ==>
      e.fd in a.wants && a.wants[e.fd] == e.wants && e.events == Or(a.events[e.fd], Found(answer, e.fd, bad))
    requires forall fd :: fd in a.wants ==> 0 <= fd < |loop.table| && loop.table[fd] != null && loop.table[fd] in loop.all
    ensures Shows(loop, b) && Polled(a, b, answer, bad)
  {
    hide Or, Found, FdsOf, Recorded;
    b := Loop(FdsOf(loop.ring), a.wants, Recorded(a.events, answer, bad));
    assert a.ring <= b.ring;
  }

  method DoPoll(loop: EventLoop, answer: Selected, bad: set<int>, ghost a: Loop) returns (ghost b: Loop)
    requires loop.Valid() && Shows(loop, a)
    modifies loop, loop.list, loop.all
    ensures loop.Valid() && Shows(loop, b) && Does(Polls(answer, bad), a, b) && loop.all == old(loop.all)
  {
    hide Ring, EventLoop.Watched, EventLoop.Flagged, EventLoop.Registered, EventLoop.Ascending, Offered, Within, Polled, Or, Found;
    OfferedMeans(loop, a, answer);
    loop.InAll();
    b := a;
    if answer.Ready? ==> Within(answer.r, loop.readFds) && Within(answer.w, loop.writeFds) && Within(answer.x, loop.errorFds) {
      ghost var ring := loop.ring;
      loop.Poll(answer, bad);
      assert forall k :: 0 <= k < |a.ring| ==> loop.ring[k] == ring[k];
      b := PolledShown(loop, a, answer, bad);
    }
  }

  /** What the next callback is told: the first descriptor of the ring, and all it has to report. */
  ghost function Told(a: Loop, act: Act): Option<Report> {
    if act == Dispatches && a.ring != [] && a.ring[0] in a.events then Some(Report(a.ring[0], a.events[a.ring[0]])) else None
  }

  method DoDispatch(loop: EventLoop, ghost a: Loop) returns (told: Option<Report>, ghost b: Loop)
    requires loop.Valid() && Shows(loop, a)
    modifies loop, loop.list, loop.all
    ensures loop.Valid() && Shows(loop, b) && Does(Dispatches, a, b) && loop.all == old(loop.all) && told == Told(a, Dispatches)
  {
    told := None;
    ShownIsSound(loop, a);
    loop.InAll();
    b := a;
    ghost var ring := loop.ring;
    if ring != [] {
      AtFd(loop, a, ring[0].fd);
    }
    hide Ring, EventLoop.Watched, EventLoop.Flagged;
    var e, events := loop.Take();
    if e != null {
      told := Some(Report(e.fd, events));
      b := Loop(a.ring[1..], a.wants, a.events[a.ring[0] := NONE]);
    }
  }

  method Perform(loop: EventLoop, act: Act, ghost a: Loop) returns (told: Option<Report>, ghost b: Loop)
    requires loop.Valid() && Shows(loop, a)
    modifies loop, loop.list, loop.all
    ensures loop.Valid() && Shows(loop, b) && Does(act, a, b) && fresh(loop.all - old(loop.all)) && told == Told(a, act)
  {
    hide Shows, Does, EventLoop.Valid;
    told := None;
    match act
    case Installs(fd) => b := DoInstall(loop, fd, a);
    case Sets(fd, events) => b := DoSet(loop, fd, events, a);
    case Removes(fd) => b := DoRemove(loop, fd, a);
    case Polls(answer, bad) => b := DoPoll(loop, answer, bad, a);
    case Dispatches => told, b := DoDispatch(loop, a);
  }

  /** A run of what can be seen, from nothing. */
  ghost predicate LoopRun(states: seq<Loop>, acts: seq<Act>) {
    && |states| <= |acts| + 1 && states != [] && states[0] == Loop([], map[], map[])
    && (forall k, j :: 0 <= k < j < |states| && j == k + 1 ==> Does(acts[k], states[k], states[j]))
    && (forall k :: 0 <= k < |states| ==> Sound(states[k]))
  }

  lemma LoopRunStep(states: seq<Loop>, acts: seq<Act>, b: Loop)
    requires LoopRun(states, acts) && |states| <= |acts| && Does(acts[|states| - 1], states[|states| - 1], b) && Sound(b)
    ensures LoopRun(states + [b], acts)
  {
    hide Does, Sound;
  }

  lemma NothingShown(loop: EventLoop, a: Loop, acts: seq<Act>)
    requires loop.all == {} && loop.ring == [] && a == Loop([], map[], map[])
    ensures Shows(loop, a) && LoopRun([a], acts)
  {
  }

  /**
   * Any sequence of installing, setting, removing, polling and dispatching: each act does what it says, at every point the
   * ring holds exactly the descriptors with something to report, once each, each callback is told what the first of them
   * has to report, and the loop is as the last act left it.
   */
  method Run(acts: seq<Act>) returns (loop: EventLoop, told: seq<Option<Report>>, ghost states: seq<Loop>)
    ensures loop.Valid() && |states| == |acts| + 1 && LoopRun(states, acts) && Shows(loop, states[|acts|])
    ensures |told| == |acts| && forall k :: 0 <= k < |acts| ==> told[k] == Told(states[k], acts[k])
  {
    hide Shows, Does, EventLoop.Valid, Sound, LoopRun, Told;
    told := [];
    loop := new EventLoop();
    ghost var a := Loop([], map[], map[]);
    NothingShown(loop, a, acts);
    states := [a];
    var k := 0;
    while k < |acts|
      invariant 0 <= k <= |acts| && loop.Valid() && fresh(loop) && fresh(loop.list) && fresh(loop.all)
      invariant Shows(loop, a) && |states| == k + 1 && states[k] == a && LoopRun(states, acts)
      invariant |told| == k && forall j :: 0 <= j < k ==> told[j] == Told(states[j], acts[j])
    {
      var t;
      ghost var b;
      t, b := Perform(loop, acts[k], a);
      told := told + [t];
      ShownIsSound(loop, b);
      LoopRunStep(states, acts, b);
      states, a := states + [b], b;
      k := k + 1;
    }
  }

  function And(a: Mask, b: Mask): Mask { Mask(a.read && b.read, a.write && b.write, a.error && b.error) }

  /**
   * fdevent_set means to keep, of what a descriptor has to report, what is still wanted. Whenever it is called on a
   * descriptor that has something to report and changes what is wanted, it keeps just what is not wanted, and that is never
   * what was meant.
   */
  lemma KeepsTheUnwanted(a: Loop, b: Loop, fd: int, m: Mask)
    requires Sound(a) && Does(Sets(fd, m), a, b) && fd in a.ring && a.wants[fd] != m
    ensures b.events[fd] == Less(a.events[fd], m) && b.events[fd] != And(a.events[fd], m)
    ensures fd in b.ring <==> Less(a.events[fd], m) != NONE
  {
    assert b.events[fd] == Less(a.events[fd], m);
    if Less(a.events[fd], m) == NONE {
      var k :| 0 <= k < |a.ring| && a.ring[k] == fd && b.ring == a.ring[..k] + a.ring[k + 1..];
    }
  }

  // ----- No event is lost, and none is invented -----

  datatype Bit = Read | Write | Error

  predicate Has(m: Mask, bit: Bit) {
    match bit
    case Read => m.read
    case Write => m.write
    case Error => m.error
  }

  /** There is something of this kind to report of the descriptor. */
  predicate Due(a: Loop, fd: int, bit: Bit) { fd in a.events && Has(a.events[fd], bit) }

  /**
   * The act finds the descriptor, which is registered, ready: select names it in the set for the bit; or select names
   * nothing at all, or a bad descriptor, and this one is bad, which is reported as readable.
   */
  ghost predicate Finds(a: Loop, act: Act, fd: int, bit: Bit) {
    && act.Polls? && Offered(a, act.answer) && fd in a.events
    && match act.answer
       case Ready(r, w, x) => if r == {} && w == {} && x == {} then bit == Read && fd in act.bad else fd in (match bit case Read => r case Write => w case Error => x)
       case BadDescriptor => bit == Read && fd in act.bad
       case Failed => false
  }

  /** The act has what there is to report of this kind told to a callback, or takes it off: fdevent_set or fdevent_remove. */
  ghost predicate Ends(a: Loop, act: Act, fd: int, bit: Bit) {
    match act
    case Dispatches => a.ring != [] && a.ring[0] == fd
    case Sets(f, m) => f == fd && fd in a.wants && a.wants[fd] != m && Has(m, bit)
    case Removes(f) => f == fd
    case _ => false
  }

  /** One act: something is due afterwards exactly if it was found, or was due and has not ended. */
  lemma DueAfter(a: Loop, b: Loop, act: Act, fd: int, bit: Bit)
    requires Sound(a) && Does(act, a, b)
    ensures Due(b, fd, bit) <==> Finds(a, act, fd, bit) || (Due(a, fd, bit) && !Ends(a, act, fd, bit))
  {
    hide Offered, Dropped;
    match act
    case Installs(_) =>
    case Sets(_, _) =>
    case Removes(_) =>
    case Polls(_, _) =>
    case Dispatches =>
  }

  lemma NothingDue(states: seq<Loop>, acts: seq<Act>, fd: int, bit: Bit)
    requires LoopRun(states, acts)
    ensures !Due(states[0], fd, bit)
  {
  }

  lemma RunStep(states: seq<Loop>, acts: seq<Act>, i: nat)
    requires LoopRun(states, acts) && i + 1 < |states|
    ensures Does(acts[i], states[i], states[i + 1]) && Sound(states[i])
  {
    hide Does, Sound;
  }

  /** Found at k, it is due until it ends. */
  ghost predicate DueSince(states: seq<Loop>, acts: seq<Act>, k: int, j: int, fd: int, bit: Bit)
    requires 0 <= k < j <= |acts| < |states|
  {
    Finds(states[k], acts[k], fd, bit) && forall i :: k < i < j ==> !Ends(states[i], acts[i], fd, bit)
  }

  /**
   * Over every run: something is due of a descriptor exactly if it was found once and neither told to a callback nor taken
   * off since. So nothing found is lost before its callback is due, and no callback is told what was not found.
   */
  lemma {:induction false} DueExactly(states: seq<Loop>, acts: seq<Act>, j: nat, fd: int, bit: Bit)
    requires LoopRun(states, acts) && |states| == |acts| + 1 && j <= |acts|
    ensures Due(states[j], fd, bit) <==> exists k :: 0 <= k < j && DueSince(states, acts, k, j, fd, bit)
    decreases j
  {
    hide LoopRun, Does, Sound, Due, Finds, Ends;
    if j == 0 {
      NothingDue(states, acts, fd, bit);
    } else {
      var i := j - 1;
      RunStep(states, acts, i);
      DueExactly(states, acts, i, fd, bit);
      DueAfter(states[i], states[j], acts[i], fd, bit);
      if Finds(states[i], acts[i], fd, bit) {
        assert DueSince(states, acts, i, j, fd, bit);
      } else if k :| 0 <= k < i && DueSince(states, acts, k, i, fd, bit) {
        assert !Ends(states[i], acts[i], fd, bit) ==> DueSince(states, acts, k, j, fd, bit);
      }
      if k :| 0 <= k < j && DueSince(states, acts, k, j, fd, bit) {
        assert k < i ==> DueSince(states, acts, k, i, fd, bit);
      }
    }
  }
}
