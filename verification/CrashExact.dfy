/** Exactly when applypatch is crash safe: runs that lose everything when a condition of the safety theorem fails. */
module CrashExact {
  import opened Bytes
  import opened Paths
  import opened CrashModel
  import opened CrashSafety

  // ----- Building runs -----

  ghost predicate Path(w: World, c: Call, r: seq<State>) {
    r != [] && forall i :: 0 <= i < |r| - 1 ==> Next(w, c, r[i], r[i + 1])
  }

  lemma PathStep(w: World, c: Call, r: seq<State>, s: State)
    requires Path(w, c, r) && Next(w, c, r[|r| - 1], s)
    ensures Path(w, c, r + [s])
  {
    hide Next;
  }

  lemma PathAlone(w: World, c: Call, s: State)
    ensures Path(w, c, [s])
  {
  }

  lemma PathJoin(w: World, c: Call, r: seq<State>, t: seq<State>)
    requires Path(w, c, r) && Path(w, c, t) && r[|r| - 1] == t[0]
    ensures Path(w, c, r + t[1..])
  {
    hide Next;
    var q := r + t[1..];
    forall i | 0 <= i < |q| - 1
      ensures Next(w, c, q[i], q[i + 1])
    {
      assert i < |r| - 1 ==> q[i] == r[i] && q[i + 1] == r[i + 1];
      assert i >= |r| - 1 ==> q[i] == t[i - |r| + 1] && q[i + 1] == t[i - |r| + 2];
    }
  }

  lemma PathRuns(w: World, c: Call, r: seq<State>)
    requires Path(w, c, r) && r[0].pc == Idle
    ensures Run(w, c, r)
  {
    hide Next;
  }

  function Resting(fs: Files): State { State(fs, Idle, true, [], 0, false, 0) }

  function Busy(fs: Files, pc: Pc, d: seq<Byte>, retry: int, madeCopy: bool): State { State(fs, pc, true, d, retry, madeCopy, 1) }

  /** A run from files that offer an input to files that do not. */
  ghost predicate Loses(w: World, c: Call, r: seq<State>) {
    Run(w, c, r) && Recoverable(w, c, r[0].fs) && !Recoverable(w, c, r[|r| - 1].fs)
  }

  /** Files only, and a source x that loads as an accepted input d. */
  ghost predicate Begun(w: World, c: Call, x: seq<Byte>, d: seq<Byte>) {
    && !Partition(c.source) && !Partition(TargetName(c.source, c.target))
    && w.load(x) == Some(d) && w.sha(d) in c.accepted && (Target(c) == Source(c) ==> w.sha(d) != c.goal)
  }

  lemma Begins(w: World, c: Call, x: seq<Byte>, d: seq<Byte>)
    requires Begun(w, c, x, d)
    ensures Start(w, c, Resting(map[Source(c) := x]), Busy(map[Source(c) := x], Choosing, d, 1, false))
    ensures Recoverable(w, c, map[Source(c) := x])
  {
    hide Resolve;
    var fs: Files := map[Source(c) := x];
    assert LoadFile(w, fs, Source(c)) == Some(d) && Load(w, fs, c.source) == Some(d);
    assert Decide(w, c, fs) == Use(true, d);
  }

  lemma NothingLeft(w: World, c: Call)
    requires !Partition(c.source)
    ensures !Recoverable(w, c, map[])
  {
  }

  lemma Steps(w: World, c: Call, s: State, s': State)
    ensures Start(w, c, s, s') || Choose(c, s, s') || MakeRoom(s, s') || Save(s, s') || DropSource(c, s, s') || Open(c, s, s') ==> Next(w, c, s, s')
    ensures Write(c, s, s') || WriteShort(c, s, s') || Fail(c, s, s') || Finish(c, s, s') || Retry(c, s, s') ==> Next(w, c, s, s')
    ensures Check(w, c, s, s') || Install(c, s, s') || CleanUp(s, s') || Stop(s, s') ==> Next(w, c, s, s')
  {
    hide Start, Choose, MakeRoom, Save, DropSource, Open, Write, WriteShort, Fail, Finish, Retry, Check, Install, CleanUp, Stop;
  }

  /** A run that finds too little space, saves the copy and drops the source, up to the opening of the output. */
  lemma CopyMade(w: World, c: Call, x: seq<Byte>, d: seq<Byte>) returns (r: seq<State>)
    requires Begun(w, c, x, d)
    ensures Path(w, c, r) && r[0] == Resting(map[Source(c) := x])
    ensures r[|r| - 1] == Busy(Without(map[Source(c) := x][COPY := d], Source(c)), Opening, d, 0, true)
  {
    hide Resolve;
    var fs: Files := map[Source(c) := x];
    var f0: Files := fs[COPY := []];
    var f1: Files := fs[COPY := d];
    Begins(w, c, x, d);
    var s0, s1, s2, s3 := Resting(fs), Busy(fs, Choosing, d, 1, false), Busy(fs, MakingRoom, d, 0, false), Busy(f0, Saving(0), d, 0, false);
    var s4, s5, s6 := Busy(f1, Saving(|d|), d, 0, false), Busy(f1, Saved, d, 0, true), Busy(Without(f1, Source(c)), Opening, d, 0, true);
    CopySteps(c, fs, d);
    hide *;
    Steps(w, c, s0, s1);
    Steps(w, c, s1, s2);
    Steps(w, c, s2, s3);
    Steps(w, c, s3, s4);
    Steps(w, c, s4, s5);
    Steps(w, c, s5, s6);
    PathAlone(w, c, s0);
    PathStep(w, c, [s0], s1);
    PathStep(w, c, [s0] + [s1], s2);
    PathStep(w, c, [s0] + [s1] + [s2], s3);
    PathStep(w, c, [s0] + [s1] + [s2] + [s3], s4);
    PathStep(w, c, [s0] + [s1] + [s2] + [s3] + [s4], s5);
    PathStep(w, c, [s0] + [s1] + [s2] + [s3] + [s4] + [s5], s6);
    r := [s0] + [s1] + [s2] + [s3] + [s4] + [s5] + [s6];
  }

  lemma CopySteps(c: Call, fs: Files, d: seq<Byte>)
    requires !Partition(c.source)
    ensures var f0, f1 := fs[COPY := []], fs[COPY := d];
      && Choose(c, Busy(fs, Choosing, d, 1, false), Busy(fs, MakingRoom, d, 0, false))
      && MakeRoom(Busy(fs, MakingRoom, d, 0, false), Busy(f0, Saving(0), d, 0, false))
      && Save(Busy(f0, Saving(0), d, 0, false), Busy(f1, Saving(|d|), d, 0, false))
      && Save(Busy(f1, Saving(|d|), d, 0, false), Busy(f1, Saved, d, 0, true))
      && DropSource(c, Busy(f1, Saved, d, 0, true), Busy(Without(f1, Source(c)), Opening, d, 0, true))
  {
    hide Resolve, Expendable;
    var f0: Files := fs[COPY := []];
    var f1: Files := fs[COPY := d];
    var s3, s4 := Busy(f0, Saving(0), d, 0, false), Busy(f1, Saving(|d|), d, 0, false);
    assert Save(s3, s4) by {
      assert d[..|d|] == d && f0[COPY := d] == f1;
      assert s4 == s3.(pc := Saving(|d|), fs := s3.fs[COPY := s3.data[..|d|]]);
    }
  }

  // ----- From the opening of the output to the end -----

  /** What this run leaves of a piece: all of it, or, of one that comes out short, the first byte if that is not all. */
  function Cut(p: Piece, short: bool): seq<Byte> {
    if !short then p.bytes else if |p.bytes| > 1 then p.bytes[..1] else []
  }

  function Spill(ps: seq<Piece>, short: seq<bool>): seq<Byte>
    requires |short| <= |ps|
    decreases |short|
  {
    if short == [] then []
    else
      var n := |short| - 1;
      Spill(ps, short[..n]) + Cut(ps[n], short[n])
  }

  /** Only pieces that nobody checks come out short. */
  ghost predicate Allowed(ps: seq<Piece>, short: seq<bool>) {
    |short| == |ps| && forall k :: 0 <= k < |ps| && short[k] ==> !ps[k].checked && ps[k].bytes != []
  }

  /** The state after n pieces. */
  function At(s: State, c: Call, short: seq<bool>, n: nat): State
    requires n <= |short| && |short| == |c.product(s.data).pieces|
  {
    s.(pc := Patching(short[..n]), fs := s.fs[Out(c) := Spill(c.product(s.data).pieces, short[..n])])
  }

  lemma AtNext(w: World, c: Call, s: State, short: seq<bool>, n: nat)
    requires Allowed(c.product(s.data).pieces, short) && n < |short|
    ensures Next(w, c, At(s, c, short, n), At(s, c, short, n + 1))
  {
    hide Resolve;
    var ps := c.product(s.data).pieces;
    var p, b, a, t := ps[n], Cut(ps[n], short[n]), At(s, c, short, n), At(s, c, short, n + 1);
    assert short[..n + 1] == short[..n] + [short[n]] && short[..n + 1][..n] == short[..n];
    assert t.fs == Append(a.fs, Out(c), b);
    assert Write(c, a, t) || WriteShort(c, a, t) by {
      hide Spill;
      if short[n] {
        assert b < p.bytes && t == a.(pc := Patching(a.pc.short + [true]), fs := Append(a.fs, Out(c), b));
      } else {
        assert t == a.(pc := Patching(a.pc.short + [false]), fs := Append(a.fs, Out(c), p.bytes));
      }
    }
    hide *;
    Steps(w, c, a, t);
  }

  lemma WritesPath(w: World, c: Call, s: State, short: seq<bool>) returns (r: seq<State>)
    requires Allowed(c.product(s.data).pieces, short)
    ensures Path(w, c, r) && r[0] == At(s, c, short, 0) && r[|r| - 1] == At(s, c, short, |short|)
  {
    hide Next, Spill, Resolve;
    r := seq(|short| + 1, k requires 0 <= k <= |short| => At(s, c, short, k));
    forall i | 0 <= i < |r| - 1
      ensures Next(w, c, r[i], r[i + 1])
    {
      AtNext(w, c, s, short, i);
    }
    hide At;
  }

  /** The files when the output has been renamed and the copy, if this run made it, deleted. */
  function Final(s: State, c: Call, out: seq<Byte>): Files {
    var fs := Rename(s.fs[Out(c) := out], Out(c), Target(c));
    if s.madeCopy then Without(fs, COPY) else fs
  }

  /** The state in which the digest has matched. */
  function Ready(s: State, c: Call, short: seq<bool>): State
    requires |short| == |c.product(s.data).pieces|
  {
    s.(pc := Installing(short), fs := s.fs[Out(c) := Spill(c.product(s.data).pieces, short)])
  }

  /** A patch whose hashed pieces have the digest asked for passes the check, with whatever is in the output. */
  lemma Matched(w: World, c: Call, s: State, short: seq<bool>) returns (r: seq<State>)
    requires s.pc == Opening && c.product(s.data).good && Allowed(c.product(s.data).pieces, short)
    requires w.sha(Hashed(c.product(s.data).pieces, short)) == c.goal
    ensures Path(w, c, r) && r[0] == s && |r| > 1 && r[|r| - 1] == Ready(s, c, short)
  {
    hide Resolve;
    var ps := c.product(s.data).pieces;
    var f := s.fs[Out(c) := Spill(ps, short)];
    assert short[..0] == [] && short[..|short|] == short;
    var first, done := At(s, c, short, 0), At(s, c, short, |short|);
    var s1, s2 := s.(pc := Checking(short), fs := f), Ready(s, c, short);
    assert Open(c, s, first) && Finish(c, done, s1) && Check(w, c, s1, s2);
    var q := WritesPath(w, c, s, short);
    hide *;
    Steps(w, c, s, first);
    Steps(w, c, done, s1);
    Steps(w, c, s1, s2);
    PathAlone(w, c, s);
    PathStep(w, c, [s], first);
    PathJoin(w, c, [s] + [first], q);
    r := [s] + [first] + q[1..];
    assert r[|r| - 1] == done;
    PathStep(w, c, r, s1);
    PathStep(w, c, r + [s1], s2);
    r := r + [s1] + [s2];
  }

  /** And then it is installed. */
  lemma Installed(w: World, c: Call, s: State, short: seq<bool>) returns (r: seq<State>)
    requires s.pc == Opening && c.product(s.data).good && Allowed(c.product(s.data).pieces, short)
    requires w.sha(Hashed(c.product(s.data).pieces, short)) == c.goal
    ensures Path(w, c, r) && r[0] == s && r[|r| - 1] == s.(pc := Exited(0), fs := Final(s, c, Spill(c.product(s.data).pieces, short)))
    ensures |r| > 3 && r[|r| - 3] == Ready(s, c, short)
    ensures r[|r| - 2] == s.(pc := CleaningUp, fs := Rename(Ready(s, c, short).fs, Out(c), Target(c)))
  {
    hide Resolve, Spill;
    r := Matched(w, c, s, short);
    var s2 := Ready(s, c, short);
    var s3 := s.(pc := CleaningUp, fs := Rename(s2.fs, Out(c), Target(c)));
    var s4 := s.(pc := Exited(0), fs := Final(s, c, Spill(c.product(s.data).pieces, short)));
    assert Install(c, s2, s3) && CleanUp(s3, s4) by { hide Rename; }
    hide *;
    Steps(w, c, s2, s3);
    Steps(w, c, s3, s4);
    PathStep(w, c, r, s3);
    PathStep(w, c, r + [s3], s4);
    r := r + [s3] + [s4];
  }

  // ----- Names that are not safe -----

  /** Patches that fail, and a patch with no output. */
  function Breaks(d: seq<Byte>): Product { Product([], false) }
  function Blank(d: seq<Byte>): Product { Product([], true) }

  /** Dropping the source deletes a copy that is the source. */
  lemma SourceIsCopy(w: World, c: Call, x: seq<Byte>, d: seq<Byte>) returns (r: seq<State>)
    requires Begun(w, c, x, d) && Source(c) == COPY
    ensures Loses(w, c, r)
  {
    hide Resolve, Next;
    Begins(w, c, x, d);
    r := CopyMade(w, c, x, d);
    PathRuns(w, c, r);
    assert Without(map[Source(c) := x][COPY := d], Source(c)) == map[];
    NothingLeft(w, c);
  }

  /** Retrying deletes a source that is the output. */
  lemma SourceIsOutput(w: World, c: Call, x: seq<Byte>, d: seq<Byte>) returns (r: seq<State>)
    requires Begun(w, c, x, d) && Source(c) == Out(c)
    ensures Loses(w, c, r)
  {
    hide Resolve;
    var fs: Files := map[Source(c) := x];
    var f0: Files := fs[Out(c) := []];
    Begins(w, c, x, d);
    var s0, s1, s2, s3 := Resting(fs), Busy(fs, Choosing, d, 1, false), Busy(fs, Opening, d, 1, false), Busy(f0, Patching([]), d, 1, false);
    var s4 := Busy(f0, Retrying, d, 1, false);
    var s5 := State(Without(f0, Out(c)), Choosing, true, d, 0, false, 2);
    assert Choose(c, s1, s2) && Open(c, s2, s3) && Retry(c, s4, s5);
    assert Fail(c, s3, s4) by {
      var b: seq<Byte> := [];
      assert f0[Out(c)] + b == f0[Out(c)] && Append(f0, Out(c), b) == f0;
      assert s4 == s3.(pc := Retrying, fs := Append(s3.fs, Out(c), b));
    }
    assert s5.fs == map[];
    NothingLeft(w, c);
    hide *;
    Steps(w, c, s0, s1);
    Steps(w, c, s1, s2);
    Steps(w, c, s2, s3);
    Steps(w, c, s3, s4);
    Steps(w, c, s4, s5);
    PathAlone(w, c, s0);
    PathStep(w, c, [s0], s1);
    PathStep(w, c, [s0] + [s1], s2);
    PathStep(w, c, [s0] + [s1] + [s2], s3);
    PathStep(w, c, [s0] + [s1] + [s2] + [s3], s4);
    PathStep(w, c, [s0] + [s1] + [s2] + [s3] + [s4], s5);
    r := [s0] + [s1] + [s2] + [s3] + [s4] + [s5];
    LosesBy(w, c, r, fs);
  }

  lemma LosesBy(w: World, c: Call, r: seq<State>, fs: Files)
    requires Path(w, c, r) && r[0] == Resting(fs) && Recoverable(w, c, fs) && !Recoverable(w, c, r[|r| - 1].fs)
    ensures Loses(w, c, r)
  {
    hide Next, Recoverable;
  }

  /** Making room can delete the source before it is saved. */
  lemma SourceIsExpendable(w: World, c: Call, x: seq<Byte>, d: seq<Byte>) returns (r: seq<State>)
    requires Begun(w, c, x, d) && Expendable(Source(c))
    ensures Loses(w, c, r)
  {
    hide Resolve;
    var fs: Files := map[Source(c) := x];
    Begins(w, c, x, d);
    var s0, s1, s2, s3 := Resting(fs), Busy(fs, Choosing, d, 1, false), Busy(fs, MakingRoom, d, 0, false), Busy(Without(fs, Source(c)), MakingRoom, d, 0, false);
    assert Choose(c, s1, s2);
    assert MakeRoom(s2, s3) by {
      assert Expendable(Source(c)) && s3 == s2.(fs := Without(s2.fs, Source(c)));
    }
    assert s3.fs == map[];
    NothingLeft(w, c);
    hide *;
    Steps(w, c, s0, s1);
    Steps(w, c, s1, s2);
    Steps(w, c, s2, s3);
    PathAlone(w, c, s0);
    PathStep(w, c, [s0], s1);
    PathStep(w, c, [s0] + [s1], s2);
    PathStep(w, c, [s0] + [s1] + [s2], s3);
    r := [s0] + [s1] + [s2] + [s3];
    LosesBy(w, c, r, fs);
  }

  /** What loads as an accepted input need not be one once it is saved. */
  lemma InputDoesNotReload(w: World, c: Call, x: seq<Byte>, d: seq<Byte>) returns (r: seq<State>)
    requires Begun(w, c, x, d) && Source(c) != COPY && Target(c) != COPY && !Accepts(w, c, w.load(d))
    ensures Loses(w, c, r)
  {
    hide Resolve, Next;
    Begins(w, c, x, d);
    r := CopyMade(w, c, x, d);
    PathRuns(w, c, r);
    assert Without(map[Source(c) := x][COPY := d], Source(c)) == map[COPY := d];
  }

  /** A target that is the copy is deleted at the end. */
  lemma TargetIsCopy(w: World, c: Call, x: seq<Byte>, d: seq<Byte>) returns (r: seq<State>)
    requires Begun(w, c, x, d) && Target(c) == COPY && Source(c) != COPY && Source(c) != Out(c)
    requires c.product == Blank && c.goal == w.sha([])
    ensures Loses(w, c, r)
  {
    hide Resolve;
    OutIsApart(c);
    Begins(w, c, x, d);
    var s := Busy(Without(map[Source(c) := x][COPY := d], Source(c)), Opening, d, 0, true);
    assert Final(s, c, []) == map[];
    assert Blank(d) == Product([], true) && Hashed([], []) == [] && Spill([], []) == [] && Allowed([], []);
    NothingLeft(w, c);
    r := CopyMade(w, c, x, d);
    hide *;
    var q := Installed(w, c, s, []);
    PathJoin(w, c, r, q);
    r := r + q[1..];
    LosesBy(w, c, r, map[Source(c) := x]);
  }

  // ----- The exact condition -----

  /** There is something to lose: some file loads as an accepted input. */
  ghost predicate Usable(w: World, accepted: set<seq<Byte>>) { exists x: seq<Byte> :: Accepted(w, accepted, w.load(x)) }

  /** In every run of every sealed call with these names and inputs, from files that offer an input. */
  ghost predicate AlwaysSafe(w: World, source: string, target: string, accepted: set<seq<Byte>>) {
    forall c: Call, r: seq<State> ::
      c.source == source && c.target == target && c.accepted == accepted && Sealed(w, c) && Run(w, c, r) && Recoverable(w, c, r[0].fs) ==>
      forall i :: 0 <= i < |r| ==> Recoverable(w, c, r[i].fs)
  }

  /** If nothing loads as an accepted input, no run touches anything. */
  lemma {:induction false} NothingToLose(w: World, c: Call, r: seq<State>, i: int)
    requires !Partition(c.source) && !Usable(w, c.accepted) && Run(w, c, r) && 0 <= i < |r|
    ensures r[i].fs == r[0].fs && (r[i].pc == Idle || r[i].pc.Exited?)
    decreases i
  {
    hide Next, Usable;
    if i > 0 {
      NothingToLose(w, c, r, i - 1);
      assert Next(w, c, r[i - 1], r[i - 1 + 1]);
      IdleStep(w, c, r[i - 1], r[i]);
    }
  }

  lemma IdleStep(w: World, c: Call, s: State, s': State)
    requires !Partition(c.source) && !Usable(w, c.accepted) && Next(w, c, s, s') && (s.pc == Idle || s.pc.Exited?)
    ensures s'.fs == s.fs && (s'.pc == Idle || s'.pc.Exited?)
  {
    assert Start(w, c, s, s') || Stop(s, s') by { hide Start, Resolve, Expendable; }
    hide Next;
    NoPlan(w, c, s.fs);
    hide Decide;
  }

  lemma NoPlan(w: World, c: Call, fs: Files)
    requires !Partition(c.source) && !Usable(w, c.accepted)
    ensures !Decide(w, c, fs).Use?
  {
    hide Resolve;
    assert forall at :: at in fs ==> !Accepted(w, c.accepted, w.load(fs[at]));
  }

  /** A call with a patch that fails and a goal that the input does not have. */
  function BrokenCall(w: World, source: string, target: string, accepted: set<seq<Byte>>, d: seq<Byte>): Call {
    Call(source, target, w.sha(d) + [0], accepted, Breaks)
  }

  lemma BrokenSealed(w: World, c: Call)
    requires c.product == Breaks || c.product == Blank
    ensures Sealed(w, c)
  {
  }

  lemma UnsafeLoses(w: World, source: string, target: string, accepted: set<seq<Byte>>) returns (c: Call, r: seq<State>)
    requires !Partition(source) && !Partition(TargetName(source, target)) && Usable(w, accepted)
    requires !SafeNames(source, target) || !Reloads(w, accepted)
    ensures c.source == source && c.target == target && c.accepted == accepted && Sealed(w, c) && Loses(w, c, r)
  {
    hide Resolve, Sealed, Loses, Expendable;
    var x: seq<Byte> :| Accepted(w, accepted, w.load(x));
    if SafeNames(source, target) {
      x :| Accepted(w, accepted, w.load(x)) && !Accepted(w, accepted, w.load(w.load(x).value));
    }
    var d := w.load(x).value;
    c := BrokenCall(w, source, target, accepted, d);
    BrokenSealed(w, c);
    if Source(c) == Out(c) {
      r := SourceIsOutput(w, c, x, d);
    } else if Source(c) == COPY {
      r := SourceIsCopy(w, c, x, d);
    } else if Expendable(Source(c)) {
      r := SourceIsExpendable(w, c, x, d);
    } else if Target(c) == COPY {
      c := c.(goal := w.sha([]), product := Blank);
      BrokenSealed(w, c);
      r := TargetIsCopy(w, c, x, d);
    } else {
      r := InputDoesNotReload(w, c, x, d);
    }
  }

  /**
   * The exact condition, for any digest, any way of loading, any names of which the target's is a file's, and any inputs:
   * every run of every sealed call keeps something to go on from, if and only if the source is a partition, or nothing can
   * be an input at all, or the names are safe and inputs reload.
   */
  lemma SafeExactly(w: World, source: string, target: string, accepted: set<seq<Byte>>)
    requires !Partition(TargetName(source, target))
    ensures AlwaysSafe(w, source, target, accepted) <==>
      Partition(source) || !Usable(w, accepted) || (SafeNames(source, target) && Reloads(w, accepted))
  {
    hide Next, Recoverable, SafeNames, Reloads, Usable, Sealed, Partition;
    if Partition(source) || !Usable(w, accepted) || (SafeNames(source, target) && Reloads(w, accepted)) {
      forall c: Call, r: seq<State> |
        c.source == source && c.target == target && c.accepted == accepted && Sealed(w, c) && Run(w, c, r) && Recoverable(w, c, r[0].fs)
        ensures forall i :: 0 <= i < |r| ==> Recoverable(w, c, r[i].fs)
      {
        if Partition(source) || (SafeNames(source, target) && Reloads(w, accepted)) {
          AlwaysRecoverable(w, c, r);
        } else {
          forall i | 0 <= i < |r| ensures Recoverable(w, c, r[i].fs) { NothingToLose(w, c, r, i); }
        }
      }
    } else {
      var c, r := UnsafeLoses(w, source, target, accepted);
      assert !Recoverable(w, c, r[|r| - 1].fs);
    }
  }

  // ----- Pieces that come out short -----

  /** Digests tell files apart. */
  ghost predicate Injective(w: World) { forall x: seq<Byte>, y: seq<Byte> :: w.sha(x) == w.sha(y) ==> x == y }

  /** All the output of a patch. */
  function Full(ps: seq<Piece>): seq<Byte> { if ps == [] then [] else Full(ps[..|ps| - 1]) + ps[|ps| - 1].bytes }

  lemma {:induction false} HashedLength(ps: seq<Piece>, short: seq<bool>)
    requires |short| <= |ps|
    ensures |Hashed(ps, short)| <= |Spill(ps, short)| <= |Full(ps[..|short|])|
    ensures (exists k :: 0 <= k < |short| && short[k] && |ps[k].bytes| > 1) ==> |Hashed(ps, short)| < |Spill(ps, short)| < |Full(ps[..|short|])|
    ensures (forall k :: 0 <= k < |short| ==> !short[k]) ==> Hashed(ps, short) == Spill(ps, short) == Full(ps[..|short|])
    decreases |short|
  {
    if short != [] {
      var n := |short| - 1;
      HashedLength(ps, short[..n]);
      assert ps[..n + 1][..n] == ps[..n];
      assert forall k :: 0 <= k < n ==> short[..n][k] == short[k];
    }
  }

  /** If the patches make the file asked for, no loss goes unnoticed. */
  lemma HonestSealed(w: World, c: Call)
    requires Injective(w) && forall d: seq<Byte> :: Input(w, c, d) && c.product(d).good ==> w.sha(Full(c.product(d).pieces)) == c.goal
    ensures Sealed(w, c)
  {
    hide Input, Hashed, Full;
    forall d: seq<Byte>, short: seq<bool> | Input(w, c, d) && c.product(d).good && Torn(c.product(d).pieces, short)
      ensures w.sha(Hashed(c.product(d).pieces, short)) != c.goal
    {
      var ps := c.product(d).pieces;
      HashedLength(ps, short);
      assert ps[..|short|] == ps;
    }
  }

  /** With this input in use, there is a run in which exactly these pieces come out short and the check passes. */
  ghost predicate PassesShort(w: World, c: Call, d: seq<Byte>, short: seq<bool>) {
    exists r: seq<State> :: Run(w, c, r) && Recoverable(w, c, r[0].fs) && r[|r| - 1].pc == Installing(short) && r[|r| - 1].data == d
  }

  /** A run that starts from an accepted copy alone, to the opening of the output. */
  lemma CopyUsed(w: World, c: Call, x: seq<Byte>, d: seq<Byte>) returns (r: seq<State>)
    requires !Partition(c.source) && !Partition(TargetName(c.source, c.target)) && Source(c) != COPY && Target(c) != COPY
    requires w.load(x) == Some(d) && w.sha(d) in c.accepted
    ensures Path(w, c, r) && r[0] == Resting(map[COPY := x]) && Recoverable(w, c, map[COPY := x])
    ensures r[|r| - 1] == State(map[COPY := x], Opening, false, d, 1, false, 1)
  {
    hide Resolve;
    var fs: Files := map[COPY := x];
    assert LoadFile(w, fs, COPY) == Some(d) && Decide(w, c, fs) == Use(false, d);
    var s0, s1, s2 := Resting(fs), State(fs, Choosing, false, d, 1, false, 1), State(fs, Opening, false, d, 1, false, 1);
    assert Start(w, c, s0, s1) && Choose(c, s1, s2);
    hide *;
    Steps(w, c, s0, s1);
    Steps(w, c, s1, s2);
    PathAlone(w, c, s0);
    PathStep(w, c, [s0], s1);
    PathStep(w, c, [s0] + [s1], s2);
    r := [s0] + [s1] + [s2];
  }

  lemma OnlyCheckPasses(w: World, c: Call, s: State, s': State)
    requires Next(w, c, s, s') && s'.pc.Installing?
    ensures |s'.pc.short| <= |c.product(s'.data).pieces| && w.sha(Hashed(c.product(s'.data).pieces, s'.pc.short)) == c.goal
  {
    assert Check(w, c, s, s') by {
      hide Start, Choose, MakeRoom, Save, DropSource, Open, Write, WriteShort, Fail, Finish, Retry, Check, Install, CleanUp;
      EarlyPc(w, c, s, s');
      LatePc(c, s, s');
    }
    hide Next;
  }

  lemma EarlyPc(w: World, c: Call, s: State, s': State)
    ensures Start(w, c, s, s') || Choose(c, s, s') || MakeRoom(s, s') || Save(s, s') || DropSource(c, s, s') || Open(c, s, s') ==> !s'.pc.Installing?
  {
    hide Resolve, Expendable;
  }

  lemma LatePc(c: Call, s: State, s': State)
    ensures Write(c, s, s') || WriteShort(c, s, s') || Fail(c, s, s') || Finish(c, s, s') || Retry(c, s, s') || Install(c, s, s') || CleanUp(s, s') ==> !s'.pc.Installing?
  {
    hide Resolve;
  }

  /**
   * Short pieces pass the check exactly if the pieces that were written whole have the digest asked for by themselves.
   */
  lemma PassesExactly(w: World, c: Call, x: seq<Byte>, d: seq<Byte>, short: seq<bool>)
    requires !Partition(c.source) && !Partition(TargetName(c.source, c.target)) && Source(c) != COPY && Target(c) != COPY
    requires w.load(x) == Some(d) && w.sha(d) in c.accepted && c.product(d).good && Allowed(c.product(d).pieces, short)
    ensures PassesShort(w, c, d, short) <==> w.sha(Hashed(c.product(d).pieces, short)) == c.goal
  {
    hide Next, Recoverable, Hashed, Resolve;
    if r: seq<State> :| Run(w, c, r) && Recoverable(w, c, r[0].fs) && r[|r| - 1].pc == Installing(short) && r[|r| - 1].data == d {
      var i := |r| - 2;
      assert Next(w, c, r[i], r[i + 1]);
      OnlyCheckPasses(w, c, r[i], r[i + 1]);
    }
    if w.sha(Hashed(c.product(d).pieces, short)) == c.goal {
      var r := CopyUsed(w, c, x, d);
      var s := r[|r| - 1];
      var q := Matched(w, c, s, short);
      PathJoin(w, c, r, q);
      PathRuns(w, c, r + q[1..]);
      assert (r + q[1..])[|r + q[1..]| - 1] == q[|q| - 1];
    }
  }

  /** Whatever is put under the target's name has the digest asked for, in every run. */
  ghost predicate InstallsRight(w: World, c: Call) {
    forall r: seq<State> :: Run(w, c, r) && Recoverable(w, c, r[0].fs) && r[|r| - 1].pc == CleaningUp ==>
      Target(c) in r[|r| - 1].fs && w.sha(r[|r| - 1].fs[Target(c)]) == c.goal
  }

  /** Exactly the sealed calls install only what was asked for. */
  lemma SealedExactly(w: World, c: Call)
    requires Injective(w) && !Partition(c.source) && !Partition(TargetName(c.source, c.target)) && SafeNames(c.source, c.target) && Reloads(w, c.accepted)
    ensures InstallsRight(w, c) <==> Sealed(w, c)
  {
    hide Next, Recoverable, Resolve, Hashed, Reloads, Expendable, Spill;
    if Sealed(w, c) {
      assert Safe(w, c);
      hide Sealed, Safe;
      forall r: seq<State> | Run(w, c, r) && Recoverable(w, c, r[0].fs) && r[|r| - 1].pc == CleaningUp
        ensures Target(c) in r[|r| - 1].fs && w.sha(r[|r| - 1].fs[Target(c)]) == c.goal
      {
        RunHolds(w, c, r, |r| - 1);
        InstalledHolds(w, c, r[|r| - 1]);
      }
    } else {
      var d: seq<Byte>, short: seq<bool> :|
        Input(w, c, d) && c.product(d).good && Torn(c.product(d).pieces, short) && w.sha(Hashed(c.product(d).pieces, short)) == c.goal;
      var x: seq<Byte> :| w.load(x) == Some(d);
      var r := TornRun(w, c, x, d, short);
      HashedLength(c.product(d).pieces, short);
      assert w.sha(r[|r| - 1].fs[Target(c)]) != c.goal;
    }
  }

  lemma TornRun(w: World, c: Call, x: seq<Byte>, d: seq<Byte>, short: seq<bool>) returns (r: seq<State>)
    requires !Partition(c.source) && !Partition(TargetName(c.source, c.target)) && Source(c) != COPY && Target(c) != COPY
    requires w.load(x) == Some(d) && w.sha(d) in c.accepted && c.product(d).good && Torn(c.product(d).pieces, short)
    requires w.sha(Hashed(c.product(d).pieces, short)) == c.goal
    ensures Run(w, c, r) && Recoverable(w, c, r[0].fs) && r[|r| - 1].pc == CleaningUp
    ensures Target(c) in r[|r| - 1].fs && r[|r| - 1].fs[Target(c)] == Spill(c.product(d).pieces, short)
  {
    OutIsApart(c);
    hide Next, Recoverable, Resolve, Hashed, Spill;
    r := CopyUsed(w, c, x, d);
    var q := Installed(w, c, r[|r| - 1], short);
    PathPrefix(w, c, q);
    q := q[..|q| - 1];
    PathJoin(w, c, r, q);
    r := r + q[1..];
    PathRuns(w, c, r);
    assert r[|r| - 1] == q[|q| - 1];
  }

  lemma PathPrefix(w: World, c: Call, r: seq<State>)
    requires Path(w, c, r) && |r| > 1
    ensures Path(w, c, r[..|r| - 1])
  {
    hide Next;
    var q := r[..|r| - 1];
    forall i | 0 <= i < |q| - 1
      ensures Next(w, c, q[i], q[i + 1])
    {
      assert q[i] == r[i] && q[i + 1] == r[i + 1];
    }
  }

  /**
   * A call that is not sealed can lose everything: after a run that found too little space, the torn output under the
   * target's name is all there is.
   */
  lemma ShortPieceLoses(w: World, c: Call, x: seq<Byte>, d: seq<Byte>, short: seq<bool>) returns (r: seq<State>)
    requires Begun(w, c, x, d) && SafeNames(c.source, c.target) && c.product(d).good && Torn(c.product(d).pieces, short)
    requires w.sha(Hashed(c.product(d).pieces, short)) == c.goal
    ensures Run(w, c, r) && Recoverable(w, c, r[0].fs) && r[|r| - 1].fs == map[Target(c) := Spill(c.product(d).pieces, short)]
    ensures Injective(w) ==> w.sha(Spill(c.product(d).pieces, short)) != c.goal
  {
    hide Next, Recoverable, Resolve, Hashed, Expendable;
    OutIsApart(c);
    HashedLength(c.product(d).pieces, short);
    Begins(w, c, x, d);
    r := CopyMade(w, c, x, d);
    var s := r[|r| - 1];
    assert s.fs == map[COPY := d];
    assert Final(s, c, Spill(c.product(d).pieces, short)) == map[Target(c) := Spill(c.product(d).pieces, short)];
    hide Spill, Final;
    var q := Installed(w, c, s, short);
    PathJoin(w, c, r, q);
    r := r + q[1..];
    PathRuns(w, c, r);
  }
}
