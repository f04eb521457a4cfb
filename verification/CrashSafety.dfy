/** Crash safety of applypatch on file targets: what every step keeps, and what follows for every run. */
module CrashSafety {
  import opened Bytes
  import opened Paths
  import opened CrashModel

  /**
   * The names that keep a call safe, by what they name: neither file is the saved copy, the source is not the output's
   * temporary file, and the source is not something that may be deleted to make room.
   */
  predicate SafeNames(source: string, target: string) {
    var s, t := Resolve(source), TargetName(source, target);
    s != COPY && Resolve(t) != COPY && s != Resolve(t + ".patch") && !Expendable(s)
  }

  /** What loads as an accepted input is still one when it is stored and loaded again. */
  ghost predicate Reloads(w: World, accepted: set<seq<Byte>>) {
    forall x: seq<Byte> :: Accepted(w, accepted, w.load(x)) ==> Accepted(w, accepted, w.load(w.load(x).value))
  }

  /** The pieces that came out short were not checked, and some of what they should have been can be in the output. */
  ghost predicate Torn(ps: seq<Piece>, short: seq<bool>) {
    && |short| == |ps| && (forall k :: 0 <= k < |ps| && short[k] ==> !ps[k].checked && ps[k].bytes != [])
    && exists k :: 0 <= k < |ps| && short[k] && |ps[k].bytes| > 1
  }

  /** An input that can come to be used: the digest is accepted, and it was loaded from something. */
  ghost predicate Input(w: World, c: Call, d: seq<Byte>) {
    w.sha(d) in c.accepted && ((exists x: seq<Byte> :: w.load(x) == Some(d)) || (Partition(c.source) && w.partition(c.source) == Some(d)))
  }

  /** Whatever pieces are lost from the output of a patch that succeeds, the rest does not have the digest asked for. */
  ghost predicate Sealed(w: World, c: Call) {
    forall d: seq<Byte>, short: seq<bool> ::
      Input(w, c, d) && c.product(d).good && Torn(c.product(d).pieces, short) ==> w.sha(Hashed(c.product(d).pieces, short)) != c.goal
  }

  ghost predicate Safe(w: World, c: Call) {
    && !Partition(TargetName(c.source, c.target)) && Sealed(w, c)
    && (Partition(c.source) || (SafeNames(c.source, c.target) && Reloads(w, c.accepted)))
  }

  lemma CopyPlace()
    ensures |COPY| > 0 && COPY == Resolve(CACHE_DIR) + ["saved.file"]
  {
    hide Resolve;
    assert CACHE_TEMP_SOURCE == CACHE_DIR + "saved.file";
    ResolveIn(CACHE_DIR, "saved.file");
  }

  lemma OutIsApart(c: Call)
    ensures Out(c) != Target(c) && Out(c) != COPY
  {
    hide Resolve;
    var name := TargetName(c.source, c.target);
    GrownIsApart(name, ".patch");
    var dir, last := ResolveGrown(name, ".patch");
    CopyPlace();
    assert forall n: nat :: n == |last| + 5 ==> (last + ".patch")[n] == 'h';
    assert Out(c)[|Out(c)| - 1] == last + ".patch" && COPY[|COPY| - 1] == "saved.file";
    assert "saved.file"[9] == 'e' && |"saved.file"| == 10;
  }

  /** The input in use is where it was loaded from, or, once that is given up, in the saved copy. */
  ghost predicate Kept(w: World, c: Call, s: State) {
    && Input(w, c, s.data)
    && (0 <= s.retry <= 1 && 1 <= s.passes && s.retry + s.passes <= 2)
    && if s.madeCopy then s.fromSource && !Partition(c.source) && s.retry == 0 && COPY in s.fs && s.fs[COPY] == s.data
       else (if s.fromSource then Load(w, s.fs, c.source) else LoadFile(w, s.fs, COPY)) == Some(s.data)
  }

  /** Before the copy is complete, an input from the source is still to be found there. */
  ghost predicate Unsaved(w: World, c: Call, s: State) {
    Kept(w, c, s) && !s.madeCopy && s.fromSource && s.retry == 0 && !Partition(c.source)
  }

  /** The output so far: all that was hashed, unless something has been lost that could leave a trace. */
  ghost predicate Faithful(c: Call, s: State, short: seq<bool>) {
    var ps := c.product(s.data).pieces;
    && Out(c) in s.fs && |short| <= |ps|
    && (forall k :: 0 <= k < |short| && short[k] ==> !ps[k].checked && ps[k].bytes != [])
    && (s.fs[Out(c)] == Hashed(ps, short) || exists k :: 0 <= k < |short| && short[k] && |ps[k].bytes| > 1)
  }

  /** What holds at each point of a run. */
  ghost predicate Holds(w: World, c: Call, s: State) {
    && Recoverable(w, c, s.fs)
    && match s.pc
       case Idle => true
       case Exited(_) => true
       case Choosing => Kept(w, c, s) && !s.madeCopy
       case MakingRoom => Unsaved(w, c, s)
       case Saving(k) => Unsaved(w, c, s) && COPY in s.fs && k <= |s.data| && s.fs[COPY] == s.data[..k]
       case Saved => Kept(w, c, s) && s.madeCopy
       case Opening => Kept(w, c, s)
       case Patching(short) => Kept(w, c, s) && Faithful(c, s, short)
       case Checking(short) => Kept(w, c, s) && Faithful(c, s, short) && |short| == |c.product(s.data).pieces| && c.product(s.data).good
       case Retrying => Kept(w, c, s) && Out(c) in s.fs
       case Installing(short) => Kept(w, c, s) && Out(c) in s.fs && w.sha(s.fs[Out(c)]) == c.goal
       case CleaningUp => Target(c) in s.fs && w.sha(s.fs[Target(c)]) == c.goal && (s.madeCopy ==> !Partition(c.source))
  }

  lemma KeptRecoverable(w: World, c: Call, s: State)
    requires Safe(w, c) && Kept(w, c, s)
    ensures Recoverable(w, c, s.fs)
  {
    hide Sealed, SafeNames, Resolve;
    if s.madeCopy {
      var x :| w.load(x) == Some(s.data);
      assert Accepted(w, c.accepted, w.load(x));
    }
  }

  lemma StartHolds(w: World, c: Call, s: State, s': State)
    requires Safe(w, c) && Holds(w, c, s) && Start(w, c, s, s')
    ensures Holds(w, c, s')
  {
    hide Sealed, Reloads, Resolve, Expendable;
    if s'.pc == Choosing {
      assert w.sha(s'.data) in c.accepted;
      var at := if s'.fromSource then Source(c) else COPY;
      assert !(s'.fromSource && Partition(c.source)) ==> at in s.fs && w.load(s.fs[at]) == Some(s'.data);
    }
  }

  lemma ChooseHolds(w: World, c: Call, s: State, s': State)
    requires Safe(w, c) && Holds(w, c, s) && Choose(c, s, s')
    ensures Holds(w, c, s')
  {
    hide Safe, Recoverable, Input, Load, LoadFile, Resolve;
  }

  lemma MakeRoomHolds(w: World, c: Call, s: State, s': State)
    requires Safe(w, c) && Holds(w, c, s) && MakeRoom(s, s')
    ensures Holds(w, c, s')
  {
    hide Expendable, Sealed, Reloads, Recoverable, Input, Resolve;
    if s'.pc != Exited(1) {
      assert Kept(w, c, s');
      KeptRecoverable(w, c, s');
    }
  }

  lemma SaveHolds(w: World, c: Call, s: State, s': State)
    requires Safe(w, c) && Holds(w, c, s) && Save(s, s')
    ensures Holds(w, c, s')
  {
    hide Sealed, Reloads, Recoverable, Input, Expendable, Resolve;
    if s'.pc != Exited(1) {
      assert s.data[..|s.data|] == s.data;
      assert Kept(w, c, s');
      KeptRecoverable(w, c, s');
    }
  }

  lemma DropSourceHolds(w: World, c: Call, s: State, s': State)
    requires Safe(w, c) && Holds(w, c, s) && DropSource(c, s, s')
    ensures Holds(w, c, s')
  {
    hide Sealed, Reloads, Recoverable, Input, Expendable, Resolve;
    assert Kept(w, c, s');
    KeptRecoverable(w, c, s');
  }

  /** Changes to the output leave the input in use where it was. */
  lemma OutputKeeps(w: World, c: Call, s: State, s': State)
    requires Safe(w, c) && Kept(w, c, s)
    requires forall p :: p != Out(c) ==> (p in s.fs <==> p in s'.fs) && (p in s.fs ==> s'.fs[p] == s.fs[p])
    requires s'.fromSource == s.fromSource && s'.data == s.data && s'.madeCopy == s.madeCopy
    requires 0 <= s'.retry <= 1 && 1 <= s'.passes && s'.retry + s'.passes <= 2 && (s.retry == 0 ==> s'.retry == 0)
    ensures Kept(w, c, s') && Recoverable(w, c, s'.fs)
  {
    OutIsApart(c);
    assert Kept(w, c, s') by { hide Sealed, Reloads, Input, Expendable, Resolve; }
    hide Kept, Safe, Resolve;
    KeptRecoverable(w, c, s');
  }

  lemma OpenHolds(w: World, c: Call, s: State, s': State)
    requires Safe(w, c) && Holds(w, c, s) && Open(c, s, s')
    ensures Holds(w, c, s')
  {
    hide Safe, Recoverable, Input, Resolve;
    if s'.pc.Patching? {
      OutputKeeps(w, c, s, s');
    }
  }

  lemma WriteHolds(w: World, c: Call, s: State, s': State)
    requires Safe(w, c) && Holds(w, c, s) && Write(c, s, s')
    ensures Holds(w, c, s')
  {
    hide Safe, Recoverable, Input, Kept, Resolve;
    assert Kept(w, c, s);
    OutputKeeps(w, c, s, s') by { KeptBounds(w, c, s); }
    WriteFaithful(c, s, s');
  }

  lemma KeptBounds(w: World, c: Call, s: State)
    requires Kept(w, c, s)
    ensures 0 <= s.retry <= 1 && 1 <= s.passes && s.retry + s.passes <= 2
  {
  }

  lemma WriteFaithful(c: Call, s: State, s': State)
    requires s.pc.Patching? && Faithful(c, s, s.pc.short) && Write(c, s, s')
    ensures Faithful(c, s', s'.pc.short)
  {
    var short := s.pc.short;
    assert (short + [false])[..|short|] == short;
    assert forall k :: 0 <= k < |short| ==> (short + [false])[k] == short[k];
  }

  lemma WriteShortFaithful(c: Call, s: State, s': State)
    requires s.pc.Patching? && Faithful(c, s, s.pc.short) && WriteShort(c, s, s')
    ensures Faithful(c, s', s'.pc.short)
  {
    var short, p := s.pc.short, c.product(s.data).pieces[|s.pc.short|];
    assert (short + [true])[..|short|] == short;
    assert forall k :: 0 <= k < |short| ==> (short + [true])[k] == short[k];
    var b: seq<Byte> :| b < p.bytes && s' == s.(pc := Patching(short + [true]), fs := Append(s.fs, Out(c), b));
    if |p.bytes| > 1 {
      assert (short + [true])[|short|];
    } else {
      assert b == [];
      assert s.fs[Out(c)] + b == s.fs[Out(c)];
      assert Hashed(c.product(s.data).pieces, short + [true]) == Hashed(c.product(s.data).pieces, short) + [];
    }
  }

  lemma WriteShortHolds(w: World, c: Call, s: State, s': State)
    requires Safe(w, c) && Holds(w, c, s) && WriteShort(c, s, s')
    ensures Holds(w, c, s')
  {
    hide Safe, Recoverable, Input, Kept, Faithful, Resolve, Hashed;
    WriteShortFaithful(c, s, s');
    KeptBounds(w, c, s);
    OutputKeeps(w, c, s, s');
  }

  lemma FailHolds(w: World, c: Call, s: State, s': State)
    requires Safe(w, c) && Holds(w, c, s) && Fail(c, s, s')
    ensures Holds(w, c, s')
  {
    hide Safe, Recoverable, Input, Kept, Faithful, Resolve;
    KeptBounds(w, c, s);
    OutputKeeps(w, c, s, s');
  }

  lemma FinishHolds(w: World, c: Call, s: State, s': State)
    requires Safe(w, c) && Holds(w, c, s) && Finish(c, s, s')
    ensures Holds(w, c, s')
  {
    hide Safe, Recoverable, Input, Resolve;
  }

  lemma RetryHolds(w: World, c: Call, s: State, s': State)
    requires Safe(w, c) && Holds(w, c, s) && Retry(c, s, s')
    ensures Holds(w, c, s')
  {
    hide Safe, Recoverable, Input, Kept, Resolve;
    KeptBounds(w, c, s);
    if s'.pc == Choosing {
      KeptRetry(w, c, s);
      OutputKeeps(w, c, s, s');
    }
  }

  lemma KeptRetry(w: World, c: Call, s: State)
    requires Kept(w, c, s) && s.retry != 0
    ensures !s.madeCopy
  {
  }

  lemma CheckHolds(w: World, c: Call, s: State, s': State)
    requires Safe(w, c) && Holds(w, c, s) && Check(w, c, s, s')
    ensures Holds(w, c, s')
  {
    hide Recoverable, Reloads, SafeNames, Resolve;
    var ps, short := c.product(s.data).pieces, s.pc.short;
    assert Input(w, c, s.data);
    if Torn(ps, short) {
      assert w.sha(Hashed(ps, short)) != c.goal;
    }
  }

  lemma InstallHolds(w: World, c: Call, s: State, s': State)
    requires Safe(w, c) && Holds(w, c, s) && Install(c, s, s')
    ensures Holds(w, c, s')
  {
    OutIsApart(c);
    hide Safe, Input, Resolve;
  }

  lemma CleanUpHolds(w: World, c: Call, s: State, s': State)
    requires Safe(w, c) && Holds(w, c, s) && CleanUp(s, s')
    ensures Holds(w, c, s')
  {
    hide Sealed, Reloads, Expendable, Resolve;
  }

  /** Every step, a crash included, keeps what a rerun needs. */
  lemma StepHolds(w: World, c: Call, s: State, s': State)
    requires Safe(w, c) && Holds(w, c, s) && Next(w, c, s, s')
    ensures Holds(w, c, s')
  {
    hide Safe, Start, Choose, MakeRoom, Save, DropSource, Open, Write, WriteShort, Fail, Finish, Retry, Check, Install, CleanUp, Recoverable, Resolve;
    if Start(w, c, s, s') {
      StartHolds(w, c, s, s');
    } else if Choose(c, s, s') {
      ChooseHolds(w, c, s, s');
    } else if MakeRoom(s, s') {
      MakeRoomHolds(w, c, s, s');
    } else if Save(s, s') {
      SaveHolds(w, c, s, s');
    } else if DropSource(c, s, s') {
      DropSourceHolds(w, c, s, s');
    } else if Open(c, s, s') {
      OpenHolds(w, c, s, s');
    } else if Write(c, s, s') {
      WriteHolds(w, c, s, s');
    } else if WriteShort(c, s, s') {
      WriteShortHolds(w, c, s, s');
    } else if Fail(c, s, s') {
      FailHolds(w, c, s, s');
    } else if Finish(c, s, s') {
      FinishHolds(w, c, s, s');
    } else if Retry(c, s, s') {
      RetryHolds(w, c, s, s');
    } else if Check(w, c, s, s') {
      CheckHolds(w, c, s, s');
    } else if Install(c, s, s') {
      InstallHolds(w, c, s, s');
    } else if CleanUp(s, s') {
      CleanUpHolds(w, c, s, s');
    }
  }

  lemma {:induction false} RunHolds(w: World, c: Call, r: seq<State>, i: int)
    requires Safe(w, c) && Run(w, c, r) && Recoverable(w, c, r[0].fs) && 0 <= i < |r|
    ensures Holds(w, c, r[i])
    decreases i
  {
    if i > 0 {
      RunHolds(w, c, r, i - 1);
      assert Next(w, c, r[i - 1], r[i - 1 + 1]);
      StepHolds(w, c, r[i - 1], r[i]);
    }
    hide Next, Safe, Recoverable, Resolve;
  }

  /**
   * However often runs are cut off and repeated, and whatever chunks come out short, something to go on from is always
   * left, and no run loops more than twice.
   */
  lemma AlwaysRecoverable(w: World, c: Call, r: seq<State>)
    requires Safe(w, c) && Run(w, c, r) && Recoverable(w, c, r[0].fs)
    ensures forall i :: 0 <= i < |r| ==> Recoverable(w, c, r[i].fs)
    ensures forall i :: 0 <= i < |r| && r[i].pc.Choosing? ==> 1 <= r[i].passes <= 2
  {
    hide Recoverable, Safe, Input, Run, Resolve;
    forall i | 0 <= i < |r| ensures Recoverable(w, c, r[i].fs) && (r[i].pc.Choosing? ==> 1 <= r[i].passes <= 2) {
      RunHolds(w, c, r, i);
    }
  }

  /** The only thing ever put under the target's name is output whose digest matched. */
  lemma InstallsOnlyTheGoal(w: World, c: Call, r: seq<State>, i: int)
    requires Safe(w, c) && Run(w, c, r) && Recoverable(w, c, r[0].fs) && 0 <= i < |r| - 1
    requires Target(c) in r[i + 1].fs && (Target(c) !in r[i].fs || r[i].fs[Target(c)] != r[i + 1].fs[Target(c)])
    ensures w.sha(r[i + 1].fs[Target(c)]) == c.goal
  {
    hide Safe, Recoverable, Kept, Resolve, Holds;
    RunHolds(w, c, r, i);
    assert Next(w, c, r[i], r[i + 1]);
    OnlyInstallChanges(w, c, r[i], r[i + 1]);
    RunHolds(w, c, r, i + 1);
    InstalledHolds(w, c, r[i + 1]);
  }

  lemma InstalledHolds(w: World, c: Call, s: State)
    requires Holds(w, c, s) && s.pc == CleaningUp
    ensures Target(c) in s.fs && w.sha(s.fs[Target(c)]) == c.goal
  {
    hide Recoverable, Kept, Resolve;
  }

  lemma OnlyInstallChanges(w: World, c: Call, s: State, s': State)
    requires Safe(w, c) && Holds(w, c, s) && Next(w, c, s, s')
    requires Target(c) in s'.fs && (Target(c) !in s.fs || s.fs[Target(c)] != s'.fs[Target(c)])
    ensures s'.pc == CleaningUp
  {
    OutIsApart(c);
    assert s.pc == MakingRoom || s.pc.Saving? ==> !Partition(c.source) by { hide Recoverable, Resolve; }
    assert !Partition(c.source) ==> Target(c) != COPY by { hide Sealed, Reloads, Expendable, Resolve; }
    hide Holds, Safe, Resolve, Target, Out, Start, Choose, Check, Finish, Open, Write, WriteShort, Fail, Retry, Expendable, MakeRoom, Save, DropSource, CleanUp;
    RemovingSteps(c, s, s', Target(c));
    StartKeepsFiles(w, c, s, s');
    OthersKeepFiles(w, c, s, s');
    OutputSteps(c, s, s', Target(c));
  }

  lemma RemovingSteps(c: Call, s: State, s': State, p: Place)
    requires p in s'.fs && (s.pc == MakingRoom || s.pc.Saving? ==> p != COPY)
    ensures MakeRoom(s, s') || Save(s, s') || DropSource(c, s, s') || CleanUp(s, s') ==> p in s.fs && s.fs[p] == s'.fs[p]
  {
    hide Resolve, Expendable;
  }

  lemma OutputSteps(c: Call, s: State, s': State, p: Place)
    requires p != Out(c) && p in s'.fs
    ensures Open(c, s, s') || Write(c, s, s') || WriteShort(c, s, s') || Fail(c, s, s') || Retry(c, s, s') ==> p in s.fs && s.fs[p] == s'.fs[p]
  {
    hide Out;
  }

  lemma OthersKeepFiles(w: World, c: Call, s: State, s': State)
    ensures Check(w, c, s, s') || Finish(c, s, s') || Choose(c, s, s') ==> s'.fs == s.fs
  {
  }

  lemma StartKeepsFiles(w: World, c: Call, s: State, s': State)
    ensures Start(w, c, s, s') ==> s'.fs == s.fs
  {
    hide Resolve;
  }

  /** A run gives up for want of input exactly when no file offers any. */
  lemma GivesUpOnlyWithoutInput(w: World, c: Call, fs: Files)
    requires !Partition(TargetName(c.source, c.target))
    ensures Decide(w, c, fs) == NoInput <==>
      && (LoadFile(w, fs, Target(c)).Some? ==> w.sha(LoadFile(w, fs, Target(c)).value) != c.goal)
      && !Accepts(w, c, Load(w, fs, c.source)) && !Accepts(w, c, LoadFile(w, fs, COPY))
  {
    hide Resolve;
  }

  /** What has the digest asked for loads as it is. */
  ghost predicate GoalLoads(w: World, c: Call) { forall x: seq<Byte> :: w.sha(x) == c.goal ==> w.load(x) == Some(x) }

  /** If finished targets load as they are, a run started after any cut-off always has something to do or nothing left to do. */
  lemma NeverStranded(w: World, c: Call, r: seq<State>, i: int)
    requires Safe(w, c) && Run(w, c, r) && Recoverable(w, c, r[0].fs) && 0 <= i < |r| && GoalLoads(w, c)
    ensures Decide(w, c, r[i].fs) != NoInput
  {
    RunHolds(w, c, r, i);
    GivesUpOnlyWithoutInput(w, c, r[i].fs);
    hide Run, Decide, Sealed, Reloads, SafeNames, Resolve, Input;
  }
}
