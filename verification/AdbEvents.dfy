/** The events of the sockets are those of the event loop: what AdbSockets says of them is what fdevent.c does. */
module AdbEvents {
  import opened Bytes
  import opened AdbSockets
  import FdEvents
  import FdRuns

  /** The loop wants of the descriptor, and has to report of it, what the socket says. */
  predicate Carries(a: FdRuns.Loop, fd: int, l: Local) {
    && fd in a.wants && a.wants[fd] == FdEvents.Mask(l.wantRead, l.wantWrite, false)
    && fd in a.events && a.events[fd] == FdEvents.Mask(l.pendRead, l.pendWrite, false)
  }

  /** Arming a socket is setting its event. */
  lemma ArmIsSet(a: FdRuns.Loop, b: FdRuns.Loop, fd: int, l: Local, read: bool, write: bool)
    requires FdRuns.Sound(a) && Carries(a, fd, l) && FdRuns.Does(FdRuns.Sets(fd, FdEvents.Mask(read, write, false)), a, b)
    ensures Carries(b, fd, Arm(l, read, write))
  {
    assert fd in a.ring <==> a.events[fd] != FdEvents.NONE;
  }

  /** Noticing events is polling, when select finds something: it reports only what is wanted. */
  lemma NoticeIsPoll(a: FdRuns.Loop, b: FdRuns.Loop, fd: int, d: Device, r: Ref, answer: FdEvents.Selected, bad: set<int>)
    requires r in d.locals && Carries(a, fd, d.locals[r]) && FdRuns.Does(FdRuns.Polls(answer, bad), a, b) && FdRuns.Offered(a, answer)
    requires answer.Ready? && (answer.r != {} || answer.w != {} || answer.x != {})
    ensures var read, write := fd in answer.r, fd in answer.w;
      && (read ==> d.locals[r].wantRead) && (write ==> d.locals[r].wantWrite)
      && Carries(b, fd, Notice(d, r, read, write).locals[r])
  {
    assert fd !in answer.x;
    assert b.events[fd] == FdEvents.Or(a.events[fd], FdEvents.Found(answer, fd, bad));
  }

  /** Taking the events off a socket is dispatching it, and the callback is told what was pending. */
  lemma TakenIsDispatch(a: FdRuns.Loop, b: FdRuns.Loop, fd: int, d: Device, r: Ref)
    requires r in d.locals && Carries(a, fd, d.locals[r]) && FdRuns.Does(FdRuns.Dispatches, a, b) && FdRuns.Sound(a)
    requires a.ring != [] && a.ring[0] == fd
    ensures Pending(d, r) && Carries(b, fd, Taken(d, r).locals[r])
    ensures FdRuns.Told(a, FdRuns.Dispatches) == Some(FdRuns.Report(fd, FdEvents.Mask(d.locals[r].pendRead, d.locals[r].pendWrite, false)))
  {
    assert fd in a.ring;
  }

  /** Acts on other descriptors leave the socket as it is. */
  lemma OthersApart(a: FdRuns.Loop, b: FdRuns.Loop, fd: int, l: Local, act: FdRuns.Act)
    requires FdRuns.Sound(a) && Carries(a, fd, l) && FdRuns.Does(act, a, b)
    requires match act
      case Installs(f) => true
      case Sets(f, _) => f != fd
      case Removes(f) => f != fd
      case Polls(_, _) => false
      case Dispatches => a.ring == [] || a.ring[0] != fd
    ensures Carries(b, fd, l)
  {
  }
}
