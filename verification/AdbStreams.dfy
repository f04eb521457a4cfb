/**
 * What the sockets of the debug bridge do with the bytes, said from the packets that arrive and the answers of the
 * descriptors alone: every payload reaches its descriptor, and everything a descriptor yields is sent.
 */
module AdbStreams {
  import opened Bytes
  import opened AdbSockets

  // ----- Descriptors -----

  /** How many bytes a descriptor takes, in one call of write after another, before it gives another answer. */
  function Takes(answers: seq<Answer>): nat {
    if answers != [] && answers[0].Wrote? && answers[0].count > 0 then answers[0].count + Takes(answers[1..]) else 0
  }

  /** The answer it then gives, if any. */
  function Stop(answers: seq<Answer>): Option<Answer> {
    if answers == [] then None
    else if answers[0].Wrote? && answers[0].count > 0 then Stop(answers[1..])
    else Some(answers[0])
  }

  /** The answers without those of interrupted calls. */
  function Steady(answers: seq<Answer>): seq<Answer> {
    if answers == [] then [] else (if answers[0].Interrupted? then [] else [answers[0]]) + Steady(answers[1..])
  }

  /** Whether the last answer ends the socket. */
  predicate Breaks(stop: Option<Answer>) { stop.Some? && stop.value != Again }

  lemma PushOne(p: seq<Byte>, answers: seq<Answer>)
    requires p != [] && answers != [] && answers[0].Wrote? && answers[0].count > 0
    ensures Push(p, answers) == Push(p[Least(answers[0].count, |p|)..], answers[1..])
  {
  }

  lemma PushNone(p: seq<Byte>, answers: seq<Answer>)
    requires p == [] || answers == [] || !(answers[0].Wrote? && answers[0].count > 0)
    ensures Push(p, answers) == (p, p != [] && Breaks(Stop(answers)))
  {
  }

  /** The write loop of local_socket_enqueue writes as much as the descriptor takes, and no more than there is. */
  lemma {:induction false} PushTakes(p: seq<Byte>, answers: seq<Answer>)
    ensures var n := Least(|p|, Takes(answers));
      Push(p, answers) == (p[n..], n < |p| && Breaks(Stop(answers)))
    decreases |answers|
  {
    hide Push, Breaks;
    if p != [] && answers != [] && answers[0].Wrote? && answers[0].count > 0 {
      var k := Least(answers[0].count, |p|);
      PushOne(p, answers);
      PushTakes(p[k..], answers[1..]);
      assert Takes(answers) == answers[0].count + Takes(answers[1..]) && Stop(answers) == Stop(answers[1..]);
      hide Takes, Stop;
      var n := Least(|p| - k, Takes(answers[1..]));
      assert p[k..][n..] == p[k + n..];
    } else {
      PushNone(p, answers);
      assert p[0..] == p;
    }
  }

  /** What a descriptor yields, in one call of read after another, until it has nothing more, ends or fails. */
  function Yields(inputs: seq<Input>): seq<Byte> {
    if inputs == [] then []
    else
      match inputs[0]
      case Got(bytes) => if bytes == [] then [] else bytes + Yields(inputs[1..])
      case Signal => Yields(inputs[1..])
      case _ => []
  }

  /** Whether it then has ended or failed. */
  predicate Ends(inputs: seq<Input>) {
    if inputs == [] then false
    else
      match inputs[0]
      case Got(bytes) => bytes == [] || Ends(inputs[1..])
      case Nothing => false
      case Signal => Ends(inputs[1..])
      case Fault => true
  }

  /** The read loop of local_socket_event_func takes all of it, up to one packet full. */
  lemma {:induction false} GatherTakes(avail: nat, inputs: seq<Input>)
    ensures var y := Yields(inputs);
      Gather(avail, inputs) == (y[..Least(avail, |y|)], |y| < avail && Ends(inputs))
    decreases |inputs|
  {
    if avail > 0 && inputs != [] {
      if inputs[0].Got? && inputs[0].bytes != [] {
        var b, y := inputs[0].bytes, Yields(inputs[1..]);
        var k := Least(avail, |b|);
        GatherTakes(avail - k, inputs[1..]);
        assert (b + y)[..Least(avail, |b + y|)] == b[..k] + y[..Least(avail - k, |y|)];
      } else if inputs[0].Signal? {
        GatherTakes(avail, inputs[1..]);
      }
    } else {
      assert Yields(inputs)[..0] == [];
    }
  }

  /** No answer takes more than was offered, which is the rest of one packet. */
  ghost predicate Fitting(queue: seq<seq<Byte>>, answers: seq<Answer>) {
    forall i, j :: 0 <= i < |answers| && 0 <= j <= |queue| ==>
      !(Takes(answers[..i]) < |Concat(queue[..j])| < Takes(answers[..i + 1]))
  }

  lemma TakesFirst(answers: seq<Answer>, i: nat)
    requires answers != [] && answers[0].Wrote? && answers[0].count > 0 && i < |answers|
    ensures Takes(answers[..i + 1]) == answers[0].count + Takes(answers[1..][..i])
  {
    assert answers[..i + 1][1..] == answers[1..][..i];
  }

  lemma ConcatUpTo(queue: seq<seq<Byte>>, j: nat)
    requires 0 < j <= |queue|
    ensures |Concat(queue[..j])| == |queue[0]| + |Concat(queue[1..][..j - 1])|
  {
    assert queue[..j][1..] == queue[1..][..j - 1] && queue[..j][0] == queue[0];
  }

  lemma FittingTail(queue: seq<seq<Byte>>, answers: seq<Answer>)
    requires Fitting(queue, answers) && queue != [] && queue[0] == []
    ensures Fitting(queue[1..], answers)
  {
    hide Takes, Concat;
    forall i, j | 0 <= i < |answers| && 0 <= j <= |queue[1..]|
      ensures !(Takes(answers[..i]) < |Concat(queue[1..][..j])| < Takes(answers[..i + 1]))
    {
      ConcatUpTo(queue, j + 1);
    }
  }

  /** The first answer takes some of the first packet. */
  lemma FittingRest(queue: seq<seq<Byte>>, answers: seq<Answer>)
    requires Fitting(queue, answers) && queue != [] && queue[0] != []
    requires answers != [] && answers[0].Wrote? && answers[0].count > 0
    ensures answers[0].count <= |queue[0]| && Fitting([queue[0][answers[0].count..]] + queue[1..], answers[1..])
  {
    var n := answers[0].count;
    TakesFirst(answers, 0);
    ConcatUpTo(queue, 1);
    assert Takes(answers[..0]) == 0 && Takes(answers[1..][..0]) == 0 && Concat(queue[1..][..0]) == [];
    hide Takes, Concat;
    assert !(Takes(answers[..0]) < |Concat(queue[..1])| < Takes(answers[..0 + 1]));
    var q := [queue[0][n..]] + queue[1..];
    forall i, j | 0 <= i < |answers[1..]| && 0 <= j <= |q|
      ensures !(Takes(answers[1..][..i]) < |Concat(q[..j])| < Takes(answers[1..][..i + 1]))
    {
      TakesFirst(answers, i);
      TakesFirst(answers, i + 1);
      if j == 0 {
        ConcatNothing(q[..0]);
      } else {
        ConcatUpTo(q, j);
        ConcatUpTo(queue, j);
        assert q[1..] == queue[1..];
        assert !(Takes(answers[..i + 1]) < |Concat(queue[..j])| < Takes(answers[..i + 1 + 1]));
      }
    }
  }

  lemma ConcatNothing(queue: seq<seq<Byte>>)
    requires queue == []
    ensures Concat(queue) == []
  {
  }

  /** Interrupted calls make no difference. */
  lemma {:induction false} DrainSteady(queue: seq<seq<Byte>>, answers: seq<Answer>, out: seq<Byte>)
    ensures Drain(queue, answers, out) == Drain(queue, Steady(answers), out)
    decreases |answers|, |queue|
  {
    if queue != [] && queue[0] == [] {
      DrainSteady(queue[1..], answers, out);
    } else if queue != [] && answers != [] {
      var s := Steady(answers);
      if answers[0].Interrupted? {
        DrainSteady(queue, answers[1..], out);
        assert s == Steady(answers[1..]);
      } else {
        assert s[0] == answers[0] && s[1..] == Steady(answers[1..]);
        if answers[0].Wrote? && answers[0].count > 0 {
          var k := Least(answers[0].count, |queue[0]|);
          DrainSteady([queue[0][k..]] + queue[1..], answers[1..], out + queue[0][..k]);
        }
      }
    }
  }

  /**
   * The write loops of local_socket_event_func write as much as the descriptor takes, and no more than there is; the queue
   * is emptied exactly if it takes all of it, and else the last answer tells how the loops end.
   */
  lemma {:induction false} DrainTakes(queue: seq<seq<Byte>>, answers: seq<Answer>, out: seq<Byte>)
    requires Fitting(queue, answers) && Steady(answers) == answers
    ensures var w, total := Drain(queue, answers, out), |Concat(queue)|;
      && |w.out| == |out| + Least(total, Takes(answers))
      && w.end == if Takes(answers) >= total then Emptied else if Breaks(Stop(answers)) then Broken else Blocked
    decreases |answers|, |queue|
  {
    if queue == [] {
    } else if queue[0] == [] {
      FittingTail(queue, answers);
      DrainTakes(queue[1..], answers, out);
    } else if answers != [] && answers[0].Wrote? && answers[0].count > 0 {
      var n := answers[0].count;
      FittingRest(queue, answers);
      var q := [queue[0][n..]] + queue[1..];
      assert Steady(answers[1..]) == answers[1..] by { assert Steady(answers) == [answers[0]] + Steady(answers[1..]); }
      DrainTakes(q, answers[1..], out + queue[0][..n]);
      ConcatFirst(queue[0][n..], queue[1..]);
    } else if answers != [] {
      NotInterrupted(answers);
    }
  }

  lemma NotInterrupted(answers: seq<Answer>)
    requires Steady(answers) == answers && answers != []
    ensures !answers[0].Interrupted?
  {
    SteadyShort(answers[1..]);
  }

  lemma {:induction false} SteadyShort(answers: seq<Answer>)
    ensures |Steady(answers)| <= |answers|
  {
    if answers != [] {
      SteadyShort(answers[1..]);
    }
  }

  // ----- What becomes of the payloads -----

  /** The socket r is the one that packets for this id are for. */
  predicate Names(d: Device, id: nat, r: Ref) { d.online && r in d.live && r in d.locals && d.locals[r].id == id }

  /** The payload that an operation brings for the socket r. */
  function Payload(d: Device, op: Op, r: Ref): seq<Byte> {
    if op.Arrives? && op.p.Wrte? && Names(d, op.p.remote, r) then op.p.data else []
  }

  /** The payloads for the socket r, in the order of their arrival. */
  function Arrived(ops: seq<Op>, r: Ref): seq<Byte> {
    if ops == [] then []
    else
      var n := |ops| - 1;
      Arrived(ops[..n], r) + Payload(Driven(ops[..n]), ops[n], r)
  }

  /** How many bytes the descriptor of the socket r takes in an operation, going by its answers. */
  function Taking(d: Device, op: Op, r: Ref): nat {
    if op.Arrives? && op.p.Wrte? && Names(d, op.p.remote, r) && d.locals[r].queue == [] then Least(|op.p.data|, Takes(op.answers))
    else if op.Dispatched? && op.r == r && r in d.locals && d.locals[r].pendWrite then
      Least(|Concat(d.locals[r].queue)|, Takes(Steady(op.answers)))
    else 0
  }

  function Took(ops: seq<Op>, r: Ref): nat {
    if ops == [] then 0
    else
      var n := |ops| - 1;
      Took(ops[..n], r) + Taking(Driven(ops[..n]), ops[n], r)
  }

  /** No call of write takes more than it was offered. */
  ghost predicate Fits(d: Device, op: Op) {
    op.Dispatched? && op.r in d.locals ==> Fitting(d.locals[op.r].queue, Steady(op.answers))
  }

  ghost predicate AllFit(ops: seq<Op>) {
    ops == [] || (AllFit(ops[..|ops| - 1]) && Fits(Driven(ops[..|ops| - 1]), ops[|ops| - 1]))
  }

  /** Every socket there was, whether freed or not. */
  function Ever(d: Device): map<Ref, Local> { d.gone + d.locals }

  /** What was freed is not in use, and no number is given out twice. */
  ghost predicate Tidy(d: Device) { forall r :: r in d.gone ==> r !in d.locals && r < d.nextRef }

  ghost predicate SameBooks(l: Local, m: Local) { m.accepted == l.accepted && m.written == l.written }

  /** The same sockets, with the same books, but for r. */
  ghost predicate BooksBut(d: Device, e: Device, r: Ref) {
    && Ever(e).Keys == Ever(d).Keys && Tidy(e) && e.nextRef == d.nextRef
    && forall x :: x in Ever(d) && x != r ==> SameBooks(Ever(d)[x], Ever(e)[x])
  }

  ghost predicate Books(d: Device, e: Device) {
    && Ever(e).Keys == Ever(d).Keys && Tidy(e) && e.nextRef == d.nextRef
    && forall x :: x in Ever(d) ==> SameBooks(Ever(d)[x], Ever(e)[x])
  }

  lemma BooksTwice(d: Device, e: Device, f: Device)
    requires Books(d, e) && Books(e, f)
    ensures Books(d, f)
  {
    hide Ever, Tidy;
  }

  lemma BooksOf(d: Device, e: Device, f: Device, r: Ref)
    requires BooksBut(d, e, r) && Books(e, f)
    ensures BooksBut(d, f, r)
  {
    hide Ever, Tidy;
  }

  lemma PutBooks(d: Device, r: Ref, l: Local, sent: seq<Packet>)
    requires Tidy(d) && r in d.locals
    ensures BooksBut(d, Put(d, r, l).(sent := sent), r) && Ever(Put(d, r, l).(sent := sent))[r] == l
    ensures SameBooks(d.locals[r], l) ==> Books(d, Put(d, r, l).(sent := sent))
  {
  }

  /** A socket is freed, or moved to the closing list. */
  lemma FreeBooks(d: Device, e: Device, r: Ref, l: Local)
    requires Tidy(d) && r in d.locals && r < d.nextRef && e.nextRef == d.nextRef && SameBooks(d.locals[r], l)
    requires e.locals == d.locals - {r} && e.gone == d.gone[r := l]
    ensures Books(d, e)
  {
  }

  lemma MoveBooks(d: Device, e: Device, r: Ref, l: Local)
    requires Tidy(d) && r in d.locals && e.nextRef == d.nextRef && SameBooks(d.locals[r], l)
    requires e.gone == d.gone && e.locals == d.locals[r := l]
    ensures Books(d, e)
  {
  }

  lemma KnownRef(d: Device, r: Ref)
    requires Linked(d) && r in d.locals
    ensures r < d.nextRef
  {
    hide NoDup;
  }

  /** Closing a socket changes no books. */
  lemma CloseBooks(d: Device, r: Ref)
    requires Linked(d) && Tidy(d) && r in d.locals && Sighted(d, d.locals[r])
    ensures Books(d, CloseLocal(d, r))
  {
    hide Linked, Arm, CloseLocal, Tidy, Books, Sighted;
    var e, l := CloseLocal(d, r), d.locals[r];
    KnownRef(d, r);
    CloseParts(d, r);
    var m := Arm(l.(peer := None, closing := true, id := 0), false, l.wantWrite);
    ArmBooks(l.(peer := None, closing := true, id := 0), false, l.wantWrite);
    if l.closing || l.queue == [] {
      FreeBooks(d, e, r, l.(peer := None));
    } else {
      MoveBooks(d, e, r, m);
    }
  }

  lemma ArmBooks(l: Local, read: bool, write: bool)
    ensures SameBooks(l, Arm(l, read, write))
  {
  }

  lemma {:induction false} OfflineBooks(d: Device)
    requires Valid(d) && Tidy(d)
    ensures Books(d, Offline(d))
    decreases |d.live|
  {
    hide Linked, Tidy, Books, Sighted, Valid, CloseLocal, Disconnect;
    if d.live == [] {
      SelfBooks(d);
    } else {
      LinkedOf(d);
      var r := d.live[0];
      var e := Disconnect(d, r);
      DisconnectKeeps(d, r);
      DisconnectCloses(d, r);
      CloseBooks(d, r);
      SentApart(d, CloseLocal(d, r), d.sent);
      TidyOf(d, e);
      OfflineBooks(e);
      BooksTwice(d, e, Offline(e));
    }
  }

  lemma SelfBooks(d: Device)
    requires Tidy(d)
    ensures Books(d, d)
  {
  }

  lemma SentApart(d: Device, e: Device, sent: seq<Packet>)
    requires Books(d, e)
    ensures Books(d, e.(sent := sent))
  {
  }

  lemma SwitchApart(d: Device, e: Device, online: bool)
    requires Books(d, e)
    ensures Books(d, e.(online := online))
  {
  }

  lemma TidyOf(d: Device, e: Device)
    requires Books(d, e)
    ensures Tidy(e)
  {
  }

  lemma {:induction false} CloseAllBooks(d: Device)
    requires Valid(d) && Tidy(d)
    ensures Books(d, CloseAll(d))
    decreases |d.live|
  {
    hide Linked, Tidy, Books, Sighted, Valid, CloseLocal;
    if d.live == [] {
      SelfBooks(d);
    } else {
      var r := d.live[0];
      LinkedOf(d);
      LiveSighted(d, r);
      SoundClosable(d, r);
      CloseKeeps(d, r);
      CloseShape(d, r);
      CloseBooks(d, r);
      TidyOf(d, CloseLocal(d, r));
      CloseAllBooks(CloseLocal(d, r));
      BooksTwice(d, CloseLocal(d, r), CloseAll(CloseLocal(d, r)));
    }
  }

  lemma LiveSighted(d: Device, r: Ref)
    requires Linked(d) && r in d.live
    ensures r in d.locals && Sighted(d, d.locals[r]) && d.locals[r].peer.Some? && !d.locals[r].closing
  {
    hide NoDup;
    assert LiveOk(d, r);
  }

  /** The books of a socket after it was given p and its descriptor took n bytes. */
  ghost predicate Grown(l: Local, m: Local, p: seq<Byte>, n: nat) {
    m.accepted == l.accepted + p && |m.written| == |l.written| + n
  }

  /** An operation on the socket r, as far as the books go. */
  ghost predicate Worked(d: Device, e: Device, r: Ref, p: seq<Byte>, n: nat) {
    r in d.locals && BooksBut(d, e, r) && r in Ever(e) && Grown(d.locals[r], Ever(e)[r], p, n)
  }

  lemma PutWorked(d: Device, r: Ref, l: Local, sent: seq<Packet>, p: seq<Byte>, n: nat)
    requires Tidy(d) && r in d.locals && Grown(d.locals[r], l, p, n)
    ensures Worked(d, Put(d, r, l).(sent := sent), r, p, n)
  {
    hide BooksBut, Grown, SameBooks, Ever;
    PutBooks(d, r, l, sent);
    EverIn(Put(d, r, l).(sent := sent), r);
  }

  lemma EverIn(d: Device, r: Ref)
    ensures r in d.locals ==> r in Ever(d) && Ever(d)[r] == d.locals[r]
    ensures r in d.gone && r !in d.locals ==> r in Ever(d) && Ever(d)[r] == d.gone[r]
    ensures r in Ever(d) <==> r in d.locals || r in d.gone
  {
  }

  /** And if the socket is then closed. */
  lemma CloseWorked(d: Device, e: Device, r: Ref, p: seq<Byte>, n: nat)
    requires Worked(d, e, r, p, n) && Linked(e) && r in e.locals && Sighted(e, e.locals[r])
    ensures Worked(d, CloseLocal(e, r), r, p, n)
  {
    hide CloseLocal, Linked, Sighted, Tidy, Ever;
    CloseBooks(e, r);
    BooksOf(d, e, CloseLocal(e, r), r);
  }

  lemma EnqueueWorked(d: Device, r: Ref, p: seq<Byte>, remote: nat, answers: seq<Answer>)
    requires Linked(d) && Tidy(d) && r in d.locals && Sighted(d, d.locals[r])
    ensures Worked(d, Enqueue(d, r, p, remote, answers), r, p, if d.locals[r].queue == [] then Least(|p|, Takes(answers)) else 0)
  {
    hide Linked, Tidy, Push, CloseLocal, Worked, Arm, Takes, Sighted;
    var l := d.locals[r];
    if l.queue != [] {
      ArmBooks(l.(accepted := l.accepted + p, queue := l.queue + [p]), l.wantRead, true);
      PutWorked(d, r, Queued(l, p), d.sent, p, 0);
    } else {
      PushTakes(p, answers);
      var (rest, failed) := Push(p, answers);
      var n := Least(|p|, Takes(answers));
      var m := Pushed(l, p, rest);
      assert |p| - |rest| == n && |p[..n]| == n;
      PutWorked(d, r, m, d.sent, p, n);
      if failed {
        PutLinked(d, r, m, d.sent);
        PutSighted(d, r, m, d.sent);
        CloseWorked(d, Put(d, r, m), r, p, n);
      } else if rest == [] {
        PutWorked(d, r, Granted(m), d.sent + [Okay(l.id, remote)], p, n);
      } else {
        ArmBooks(m.(queue := [rest]), m.wantRead, true);
        PutWorked(d, r, Held(m, rest), d.sent, p, n);
      }
    }
  }

  lemma PutSighted(d: Device, r: Ref, l: Local, sent: seq<Packet>)
    requires r in d.locals && Sighted(d, d.locals[r]) && SameEnds(d.locals[r], l)
    ensures Sighted(Put(d, r, l).(sent := sent), l)
  {
  }

  lemma WorkedAfter(d: Device, e: Device, f: Device, r: Ref, p: seq<Byte>, n: nat)
    requires Books(d, e) && Worked(e, f, r, p, n) && r in d.locals && SameBooks(d.locals[r], e.locals[r])
    ensures Worked(d, f, r, p, n)
  {
    hide Ever, Tidy;
  }

  lemma WorkedThen(d: Device, e: Device, f: Device, r: Ref, p: seq<Byte>, n: nat)
    requires Worked(d, e, r, p, n) && Books(e, f)
    ensures Worked(d, f, r, p, n)
  {
    hide Ever, Tidy;
  }

  lemma WriteWorked(d: Device, r: Ref, answers: seq<Answer>)
    requires Linked(d) && Tidy(d) && r in d.locals && Sighted(d, d.locals[r]) && (!d.locals[r].closing ==> d.locals[r].peer.Some?)
    ensures Worked(d, WritePart(d, r, answers).0, r, [], |Drain(d.locals[r].queue, answers, []).out|)
  {
    hide Linked, Tidy, Drain, CloseLocal, Worked, Arm, Sighted;
    var l := d.locals[r];
    var w := Drain(l.queue, answers, []);
    var m, n := Flushed(l, w), |w.out|;
    assert l.accepted + [] == l.accepted;
    assert Sighted(d, l) && l.peer.Some? ==> l.peer.value in d.remotes by { SightedMeans(d, l); }
    PutWorked(d, r, m, d.sent, [], n);
    if w.end == Broken || (w.end == Emptied && l.closing) {
      PutLinked(d, r, m, d.sent);
      PutSighted(d, r, m, d.sent);
      CloseWorked(d, Put(d, r, m), r, [], n);
    } else if w.end == Emptied {
      ArmBooks(m, m.wantRead, false);
      PutWorked(d, r, Granted(Arm(m, m.wantRead, false)), d.sent + [Okay(l.id, d.remotes[l.peer.value].id)], [], n);
    }
  }

  lemma SightedMeans(d: Device, l: Local)
    requires Sighted(d, l)
    ensures l.peer.Some? ==> l.peer.value in d.remotes
  {
  }

  lemma ReadBooks(d: Device, r: Ref, inputs: seq<Input>)
    requires Linked(d) && Tidy(d) && r in d.locals && Sighted(d, d.locals[r])
    ensures Books(d, ReadPart(d, r, inputs))
  {
    hide Linked, Tidy, Gather, CloseLocal, Books, Arm, Sighted;
    var l := d.locals[r];
    SightedMeans(d, l);
    var (data, eof) := Gather(MAX_PAYLOAD, inputs);
    var spoken := data != [] && l.peer.Some?;
    var wrte := Wrte(l.id, if l.peer.Some? then d.remotes[l.peer.value].id else 0, data);
    var e := if spoken then Send(Put(d, r, Spoken(l)), wrte) else d;
    SelfBooks(d);
    ArmBooks(l.(turns := l.turns + [Sent]), false, l.wantWrite);
    PutBooks(d, r, Spoken(l), d.sent + [wrte]);
    if eof {
      PutLinked(d, r, Spoken(l), d.sent + [wrte]);
      PutSighted(d, r, Spoken(l), d.sent + [wrte]);
      TidyOf(d, e);
      CloseBooks(e, r);
      BooksTwice(d, e, CloseLocal(e, r));
    }
  }

  /** How many bytes the loops write for the socket r when its events are served. */
  function Flows(d: Device, r: Ref, answers: seq<Answer>): nat
    requires r in d.locals
  {
    if d.locals[r].pendWrite then |Drain(d.locals[r].queue, answers, []).out| else 0
  }

  lemma TakenBooks(d: Device, r: Ref)
    requires Tidy(d) && r in d.locals
    ensures Books(d, Taken(d, r)) && SameBooks(d.locals[r], Taken(d, r).locals[r]) && Taken(d, r).locals[r].queue == d.locals[r].queue
  {
    PutBooks(d, r, d.locals[r].(pendRead := false, pendWrite := false), d.sent);
  }

  lemma DispatchWorked(d: Device, r: Ref, answers: seq<Answer>, inputs: seq<Input>)
    requires Valid(d) && Tidy(d) && Pending(d, r)
    ensures Worked(d, Dispatch(d, r, answers, inputs), r, [], Flows(d, r, answers))
  {
    hide Linked, Sound, WritePart, ReadPart, Valid, Sighted, Tidy, Books, Worked, Taken, Drain, SameBooks;
    LinkedOf(d);
    LinkedSighted(d, r);
    PendingMeans(d, r);
    TakenKeeps(d, r);
    TakenBooks(d, r);
    var l, e := d.locals[r], Taken(d, r);
    LinkedOf(e);
    LinkedSighted(e, r);
    TidyOf(d, e);
    var n := Flows(d, r, answers);
    if l.pendWrite {
      TakenPending(d, r);
      WritePartKeeps(e, r, answers);
      WriteStays(e, r, answers);
      WriteWorked(e, r, answers);
    } else {
      NoWork(e, r);
    }
    var (f, on) := if l.pendWrite then WritePart(e, r, answers) else (e, true);
    WorkedAfter(d, e, f, r, [], n);
    if on && l.pendRead {
      LinkedOf(f);
      LinkedSighted(f, r);
      WorkedTidy(d, f, r, [], n);
      ReadBooks(f, r, inputs);
      WorkedThen(d, f, ReadPart(f, r, inputs), r, [], n);
    }
  }

  lemma TakenPending(d: Device, r: Ref)
    requires r in d.locals
    ensures !Taken(d, r).locals[r].pendWrite
  {
  }

  lemma NoWork(d: Device, r: Ref)
    requires Tidy(d) && r in d.locals
    ensures Worked(d, d, r, [], 0)
  {
    assert d.locals[r].accepted + [] == d.locals[r].accepted;
  }

  lemma WorkedTidy(d: Device, e: Device, r: Ref, p: seq<Byte>, n: nat)
    requires Worked(d, e, r, p, n)
    ensures Tidy(e)
  {
  }

  // ----- Whole runs -----

  /** How many bytes an operation writes for the socket r. */
  function Writing(d: Device, op: Op, r: Ref): nat {
    if op.Dispatched? && op.r == r && r in d.locals then Flows(d, r, op.answers) else Taking(d, op, r)
  }

  /** What one operation does to the books of the socket r. */
  ghost predicate Ledger(d: Device, e: Device, r: Ref, p: seq<Byte>, n: nat) {
    && (r in Ever(d) ==> r in Ever(e) && Grown(Ever(d)[r], Ever(e)[r], p, n))
    && (r !in Ever(d) ==> p == [] && n == 0 && (r in Ever(e) ==> Ever(e)[r].accepted == [] && Ever(e)[r].written == []))
  }

  lemma BooksLedger(d: Device, e: Device, r: Ref)
    requires Books(d, e)
    ensures Ledger(d, e, r, [], 0)
  {
    hide Ever, Tidy;
    if r in Ever(d) {
      assert Ever(d)[r].accepted + [] == Ever(d)[r].accepted;
    } else {
      assert r !in Ever(d).Keys;
    }
  }

  lemma WorkedLedger(d: Device, e: Device, r: Ref, p: seq<Byte>, n: nat, x: Ref)
    requires Tidy(d) && Worked(d, e, r, p, n)
    ensures Ledger(d, e, x, if x == r then p else [], if x == r then n else 0)
  {
    EverIn(d, r);
    hide Ever, Tidy;
    if x == r {
    } else if x in Ever(d) {
      assert Ever(d)[x].accepted + [] == Ever(d)[x].accepted;
    } else {
      assert x !in Ever(d).Keys;
    }
  }

  /** A new socket has empty books. */
  lemma NewLedger(d: Device, e: Device, l: Local, r: Ref)
    requires Tidy(d) && d.nextRef !in d.locals && d.nextRef < e.nextRef && l.accepted == [] && l.written == []
    requires e.gone == d.gone && e.locals == d.locals[d.nextRef := l]
    ensures Tidy(e) && Ledger(d, e, r, [], 0)
  {
    EverIn(d, r);
    EverIn(e, r);
    hide Ever;
    if r in Ever(d) {
      assert Ever(d)[r].accepted + [] == Ever(d)[r].accepted;
    }
  }

  lemma AcceptMaps(d: Device, remote: nat)
    ensures var l := Ready(Granted(Local(d.nextId, false, Some(d.nextRef + 1), [], false, false, false, false, [], [], [], [])));
      var e := Accept(d, remote); e.gone == d.gone && e.locals == d.locals[d.nextRef := l] && e.nextRef == d.nextRef + 2
  {
    hide Ready, Granted;
  }

  lemma AcceptLedger(d: Device, remote: nat, r: Ref)
    requires Linked(d) && Tidy(d)
    ensures Tidy(Accept(d, remote)) && Ledger(d, Accept(d, remote), r, [], 0)
  {
    hide Linked, Tidy, Ledger, Ready, Accept;
    NewRefs(d);
    AcceptMaps(d, remote);
    var l := Granted(Local(d.nextId, false, Some(d.nextRef + 1), [], false, false, false, false, [], [], [], []));
    ReadyBooks(l);
    NewLedger(d, Accept(d, remote), Ready(l), r);
  }

  lemma ReadyBooks(l: Local)
    ensures SameBooks(l, Ready(l))
  {
    ArmBooks(l.(turns := l.turns + [Acked]), true, l.wantWrite);
  }

  /** The socket that a packet is for is the one its id names. */
  lemma AddressedNames(d: Device, id: nat, x: Ref)
    requires Valid(d)
    ensures Names(d, id, x) <==> Addressed(d, id) == Some(x)
  {
    var r := Addressed(d, id);
    hide Find, Sound, Fair, NoDup;
    if r.Some? && Names(d, id, x) {
      assert SameId(d, r.value, x);
    }
    assert r.None? && d.online ==> forall y :: y in d.live ==> d.locals[y].id != id;
  }

  lemma PacketLedger(d: Device, p: Packet, opens: bool, answers: seq<Answer>, x: Ref)
    requires Valid(d) && Tidy(d)
    ensures var op, e := Arrives(p, opens, answers), HandlePacket(d, p, opens, answers);
      Tidy(e) && Ledger(d, e, x, Payload(d, op, x), Taking(d, op, x))
  {
    hide Valid, Linked, Offline, Accept, CloseLocal, Enqueue, Sighted, Addressed, Ready, Tidy, Books, Ledger, Ever, Worked, Names, Takes;
    LinkedOf(d);
    SelfBooks(d);
    match p
    case Sync(on) =>
      OfflineBooks(d);
      var e := if on then d else Offline(d);
      SwitchApart(d, e, if on then d.online else false);
      SentApart(d, e.(online := if on then d.online else false), HandlePacket(d, p, opens, answers).sent);
      TidyOf(d, HandlePacket(d, p, opens, answers));
      BooksLedger(d, HandlePacket(d, p, opens, answers), x);
    case Cnxn =>
      OfflineBooks(d);
      var e := if d.online then Offline(d) else d;
      SwitchApart(d, e, true);
      SentApart(d, e.(online := true), e.sent + [Cnxn]);
      TidyOf(d, HandlePacket(d, p, opens, answers));
      BooksLedger(d, HandlePacket(d, p, opens, answers), x);
    case Open(remote) =>
      AcceptLedger(d, remote, x);
      SentApart(d, d, d.sent + [Clse(0, remote)]);
      BooksLedger(d, d, x);
      BooksLedger(d, d.(sent := d.sent + [Clse(0, remote)]), x);
      TidyOf(d, d.(sent := d.sent + [Clse(0, remote)]));
    case Okay(_, id) =>
      var r := Addressed(d, id);
      BooksLedger(d, d, x);
      if r.Some? {
        ReadyBooks(d.locals[r.value]);
        PutBooks(d, r.value, Ready(d.locals[r.value]), d.sent);
        TidyOf(d, HandlePacket(d, p, opens, answers));
        BooksLedger(d, HandlePacket(d, p, opens, answers), x);
      }
    case Clse(_, id) =>
      var r := Addressed(d, id);
      BooksLedger(d, d, x);
      if r.Some? {
        CloseBooks(d, r.value);
        TidyOf(d, HandlePacket(d, p, opens, answers));
        BooksLedger(d, HandlePacket(d, p, opens, answers), x);
      }
    case Wrte(remote, id, data) =>
      var r := Addressed(d, id);
      AddressedNames(d, id, x);
      BooksLedger(d, d, x);
      if r.Some? {
        AddressedNames(d, id, r.value);
        EnqueueWorked(d, r.value, data, remote, answers);
        var n := if d.locals[r.value].queue == [] then Least(|data|, Takes(answers)) else 0;
        WorkedTidy(d, HandlePacket(d, p, opens, answers), r.value, data, n);
        WorkedLedger(d, HandlePacket(d, p, opens, answers), r.value, data, n, x);
        NamesMeans(d, id, x);
      }
  }

  lemma NamesMeans(d: Device, id: nat, r: Ref)
    ensures Names(d, id, r) ==> r in d.locals
  {
  }

  lemma NextLedger(d: Device, op: Op, x: Ref)
    requires Valid(d) && Tidy(d)
    ensures Tidy(Next(d, op)) && Ledger(d, Next(d, op), x, Payload(d, op, x), Writing(d, op, x))
  {
    hide Valid, HandlePacket, Dispatch, CloseAll, Tidy, Books, Ledger, Ever, Worked, Flows;
    SelfBooks(d);
    BooksLedger(d, d, x);
    match op
    case Arrives(p, opens, answers) => PacketLedger(d, p, opens, answers, x);
    case Noticed(r, read, write) =>
      if Next(d, op) != d {
        var l := d.locals[r];
        PutBooks(d, r, l.(pendRead := l.pendRead || read, pendWrite := l.pendWrite || write), d.sent);
        TidyOf(d, Next(d, op));
        BooksLedger(d, Next(d, op), x);
      }
    case Dispatched(r, answers, inputs) =>
      if Pending(d, r) {
        DispatchWorked(d, r, answers, inputs);
        WorkedTidy(d, Next(d, op), r, [], Flows(d, r, answers));
        WorkedLedger(d, Next(d, op), r, [], Flows(d, r, answers), x);
      } else {
        NoFlow(d, r, answers);
      }
    case AllClosed =>
      CloseAllBooks(d);
      TidyOf(d, Next(d, op));
      BooksLedger(d, Next(d, op), x);
  }

  lemma NoFlow(d: Device, r: Ref, answers: seq<Answer>)
    requires !Pending(d, r)
    ensures r in d.locals ==> Flows(d, r, answers) == 0
  {
  }

  /** When no call takes more than it was offered, the loops write what the answers say. */
  lemma WritingIsTaking(d: Device, op: Op, r: Ref)
    requires Fits(d, op)
    ensures Writing(d, op, r) == Taking(d, op, r)
  {
    hide Drain, Takes, Steady, Fitting, Concat;
    if op.Dispatched? && op.r == r && r in d.locals {
      SteadyTwice(op.answers);
      DrainSteady(d.locals[r].queue, op.answers, []);
      DrainTakes(d.locals[r].queue, Steady(op.answers), []);
    }
  }

  lemma {:induction false} SteadyTwice(answers: seq<Answer>)
    ensures Steady(Steady(answers)) == Steady(answers)
  {
    if answers != [] {
      SteadyTwice(answers[1..]);
      if answers[0].Interrupted? {
        assert Steady(answers) == Steady(answers[1..]);
      } else {
        assert Steady(answers)[1..] == Steady(answers[1..]);
      }
    }
  }

  /**
   * Whatever the peer sends, for every socket there ever was: what it accepted are the payloads that arrived for it, in
   * order; and, if no call of write takes more than it was offered, as many bytes were written as its descriptor's
   * answers say it took.
   */
  lemma {:induction false} AcceptedExactly(ops: seq<Op>, r: Ref)
    ensures Tidy(Driven(ops))
    ensures r in Ever(Driven(ops)) ==>
      Ever(Driven(ops))[r].accepted == Arrived(ops, r) && (AllFit(ops) ==> |Ever(Driven(ops))[r].written| == Took(ops, r))
    ensures r !in Ever(Driven(ops)) ==> Arrived(ops, r) == [] && Took(ops, r) == 0
    decreases |ops|
  {
    if ops == [] {
    } else {
      var n := |ops| - 1;
      var d, op := Driven(ops[..n]), ops[n];
      AcceptedExactly(ops[..n], r);
      assert Driven(ops) == Next(d, op) && Valid(d);
      hide Driven, Ever, Payload, Taking, Writing, Next, Tidy, Fits, Valid;
      NextLedger(d, op, r);
      if AllFit(ops) {
        WritingIsTaking(d, op, r);
      }
      if r !in Ever(d) {
        NothingTaken(d, op, r);
      }
    }
  }

  lemma NothingTaken(d: Device, op: Op, r: Ref)
    requires r !in Ever(d)
    ensures Payload(d, op, r) == [] && Taking(d, op, r) == 0
  {
  }

  /**
   * So the payloads that arrived for a socket are, in order, what its descriptor has taken, as many bytes as its answers
   * say, and what is queued; of a socket that was freed, they begin with what its descriptor took.
   */
  lemma PayloadsDelivered(ops: seq<Op>, r: Ref)
    ensures var d := Driven(ops);
      && (r in d.locals ==> d.locals[r].written + Concat(d.locals[r].queue) == Arrived(ops, r))
      && (r in d.gone ==> d.gone[r].written <= Arrived(ops, r))
    ensures AllFit(ops) ==>
      && (r in Driven(ops).locals ==> |Driven(ops).locals[r].written| == Took(ops, r))
      && (r in Driven(ops).gone ==> |Driven(ops).gone[r].written| == Took(ops, r))
  {
    var d := Driven(ops);
    AcceptedExactly(ops, r);
    hide Driven, Arrived, Took, AllFit;
    EverIn(d, r);
    assert r in d.gone ==> r !in d.locals;
    hide Ever, Tidy;
    if r in d.locals {
      NothingLost(ops, r);
    }
    if r in d.gone {
      OnlyTheRestIsDropped(ops, r);
    }
  }
}
