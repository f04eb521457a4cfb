/**
 * Restarting: recovery's run from get_args through the wipes and installs of main to finish_recovery, cut short anywhere
 * and started again by the boot message (recovery.cpp).
 */
module BootRestart {
  import opened Bytes
  import opened BootMessage

  /** The options that decide what main does. */
  datatype Options = Options(update: bool, wipeData: bool, wipeCache: bool, wipeMedia: bool, sideload: bool)

  datatype Call = Install | DeviceWipe | EraseData | EraseMedia | EraseCache | Sideload

  /** A call that returned: whether it succeeded, and whether an install asked for the cache to be wiped. */
  datatype Return = Return(call: Call, ok: bool, wipeCache: bool)

  // ----- What main does -----

  /** Where main is: at the if-else chain over the options, in one of its calls, or past all of them. */
  datatype Pc =
    | Booting
    | Choosing
    | InInstall | InDevice | InData | InMedia | InCache | InSideload
    | Finishing
    | Cleared
    | Left

  /** The end of the branch for an update, and of the one for wiping data: the cache, if that is still to be wiped. */
  function LastWipe(wipeCache: bool): Pc { if wipeCache then InCache else Finishing }

  /** The if-else chain. */
  function Branch(o: Options, wipeCache: bool): Pc {
    if o.update then InInstall
    else if o.wipeData then InDevice
    else if wipeCache then InCache
    else if o.wipeMedia then InMedia
    else if o.sideload then InSideload
    else Finishing
  }

  /** The call that main is in. */
  function Current(pc: Pc): Option<Call> {
    match pc
    case InInstall => Some(Install)
    case InDevice => Some(DeviceWipe)
    case InData => Some(EraseData)
    case InMedia => Some(EraseMedia)
    case InCache => Some(EraseCache)
    case InSideload => Some(Sideload)
    case _ => None
  }

  /** Where main goes on when the call has returned; wipeCache is the variable, with what the install asked for. */
  function After(o: Options, pc: Pc, ok: bool, wipeCache: bool): Pc {
    match pc
    case InInstall => if !ok then Finishing else if o.wipeData then InDevice else if o.wipeMedia then InMedia else LastWipe(wipeCache)
    case InDevice => InData
    case InData => LastWipe(wipeCache)
    case InMedia => if o.update then LastWipe(wipeCache) else Finishing
    case _ => Finishing
  }

  // ----- What the options ask for -----

  ghost predicate Returned(done: seq<Return>, c: Call) { exists k :: 0 <= k < |done| && done[k].call == c }

  /** A package was installed, and asked for the cache to be wiped or did not. */
  ghost predicate Installed(done: seq<Return>) { exists k :: 0 <= k < |done| && done[k].call == Install && done[k].ok }
  ghost predicate CacheAsked(done: seq<Return>) { exists k :: 0 <= k < |done| && done[k].call == Install && done[k].wipeCache }

  /** The wipes are to be made: there is no package, or it was installed. */
  ghost predicate Wiping(o: Options, done: seq<Return>) { !o.update || Installed(done) }

  /** What is asked for: a package to be installed, and, unless that fails, the wipes; media only instead of data. */
  ghost predicate Asks(o: Options, done: seq<Return>, c: Call) { Wanted(o, Wiping(o, done), CacheAsked(done), c) }

  predicate Wanted(o: Options, wiping: bool, cacheAsked: bool, c: Call) {
    match c
    case Install => o.update
    case DeviceWipe => o.wipeData && wiping
    case EraseData => o.wipeData && wiping
    case EraseMedia => o.wipeMedia && !o.wipeData && wiping && (o.update || !o.wipeCache)
    case EraseCache => (o.wipeCache || cacheAsked) && wiping
    case Sideload => o.sideload && !o.update && !o.wipeData && !o.wipeCache && !o.wipeMedia
  }

  /** Every call asked for has returned, and no other was made. */
  ghost predicate AllReturned(o: Options, done: seq<Return>) {
    forall c: Call :: Returned(done, c) <==> Asks(o, done, c)
  }

  /** The order of the calls: what is installed comes first, and the cache, which may hold the package, goes last. */
  ghost predicate InOrder(done: seq<Return>) {
    forall j, k :: 0 <= j < k < |done| ==> done[k].call != Install && done[j].call != EraseCache && done[j].call != done[k].call
  }

  // ----- The machine -----

  /** The boot message (its command and its text), the command file, and the program's state. */
  datatype Machine = Machine(command: string, text: string, file: Option<string>, pc: Pc, args: seq<string>, wipeCache: bool, done: seq<Return>)

  const BOOT_RECOVERY := "boot-recovery"

  datatype Step =
    | Start
    | Choose
    | Returns(ok: bool, wipeCache: bool)
    | FileLost
    | Clear
    | Unlink
    | Crash

  /** Which steps can happen: only the place in the program decides. */
  predicate Enabled(m: Machine, step: Step) {
    match step
    case Start => m.pc == Booting
    case Choose => m.pc == Choosing
    case Returns(_, _) => Current(m.pc).Some?
    case FileLost => Current(m.pc).Some?
    case Clear => m.pc == Finishing
    case Unlink => m.pc == Cleared
    case Crash => true
  }

  /** The bootloader starts recovery again as long as the message says so. */
  function Apply(m: Machine, step: Step, parse: seq<string> -> Options): Machine {
    match step
    case Start =>
      var args := Args([], m.text, m.file);
      m.(command := BOOT_RECOVERY, text := Compose(args), pc := Choosing, args := args, wipeCache := parse(args).wipeCache, done := [])
    case Choose => m.(pc := Branch(parse(m.args), m.wipeCache))
    case Returns(ok, wipeCache) =>
      if Current(m.pc).None? then m
      else
        var c := Current(m.pc).value;
        var flag := m.wipeCache || (c == Install && wipeCache);
        m.(done := m.done + [Return(c, ok, c == Install && wipeCache)], wipeCache := flag, pc := After(parse(m.args), m.pc, ok, flag),
           file := if c == EraseCache then None else m.file)
    case FileLost => m.(file := None)
    case Clear => m.(command := "", text := "", pc := Cleared)
    case Unlink => m.(file := None, pc := Left)
    case Crash => m.(pc := if m.command == BOOT_RECOVERY then Booting else Left)
  }

  /** A run: each state comes from the one before by a step that can happen. */
  ghost predicate Runs(ms: seq<Machine>, steps: seq<Step>, parse: seq<string> -> Options) {
    && |ms| == |steps| + 1
    && forall k, j :: 0 <= k < |steps| && j == k + 1 ==> Enabled(ms[k], steps[k]) && ms[j] == Apply(ms[k], steps[k], parse)
  }

  // ----- What holds along the program -----

  function Calls(done: seq<Return>): seq<Call> { seq(|done|, k requires 0 <= k < |done| => done[k].call) }

  /** The package, if there is one. */
  function First(o: Options): seq<Call> { if o.update then [Install] else [] }

  /** The calls of data or media. */
  function Middle(o: Options): seq<Call> {
    if o.wipeData then [DeviceWipe, EraseData] else if o.wipeMedia && (o.update || !o.wipeCache) then [EraseMedia] else []
  }

  /** Which calls have returned where. */
  ghost predicate Along(o: Options, pc: Pc, wipeCache: bool, done: seq<Return>) {
    && (wipeCache <==> o.wipeCache || CacheAsked(done))
    && match pc
       case Choosing => done == [] && wipeCache == o.wipeCache
       case InInstall => done == [] && o.update
       case InDevice => Calls(done) == First(o) && o.wipeData && Wiping(o, done)
       case InData => Calls(done) == First(o) + [DeviceWipe] && o.wipeData && Wiping(o, done)
       case InMedia => Calls(done) == First(o) && Middle(o) == [EraseMedia] && Wiping(o, done)
       case InCache => Calls(done) == First(o) + Middle(o) && Wiping(o, done) && wipeCache
       case InSideload => done == [] && Asks(o, done, Sideload)
       case Finishing => Ended(o, wipeCache, done)
       case _ => true
  }

  /** The calls that have returned at the end, one way or another. */
  ghost predicate Ended(o: Options, wipeCache: bool, done: seq<Return>) {
    || (Calls(done) == [Install] && o.update && !Installed(done))
    || (Calls(done) == [Sideload] && Asks(o, done, Sideload))
    || (Calls(done) == First(o) + Middle(o) + (if wipeCache then [EraseCache] else []) && Wiping(o, done) && !Asks(o, done, Sideload))
  }

  lemma CallsMore(done: seq<Return>, r: Return)
    ensures Calls(done + [r]) == Calls(done) + [r.call]
    ensures Installed(done + [r]) <==> Installed(done) || (r.call == Install && r.ok)
    ensures CacheAsked(done + [r]) <==> CacheAsked(done) || (r.call == Install && r.wipeCache)
  {
    var more := done + [r];
    assert more[|done|] == r && forall k :: 0 <= k < |done| ==> more[k] == done[k];
  }

  lemma BranchAlong(o: Options)
    ensures Along(o, Branch(o, o.wipeCache), o.wipeCache, [])
  {
    assert Calls([]) == [];
    assert First(o) + Middle(o) + [] == First(o) + Middle(o);
  }

  /** Each call returns into a place that the calls made so far lead to. */
  lemma ReturnsAlong(o: Options, pc: Pc, wipeCache: bool, done: seq<Return>, r: Return)
    requires Along(o, pc, wipeCache, done) && Current(pc) == Some(r.call) && (r.wipeCache ==> r.call == Install)
    ensures Along(o, After(o, pc, r.ok, wipeCache || r.wipeCache), wipeCache || r.wipeCache, done + [r])
  {
    hide Along;
    if pc == InInstall {
      InstallAlong(o, wipeCache, done, r);
    } else {
      WipeAlong(o, pc, wipeCache, done, r);
    }
  }

  lemma InstallAlong(o: Options, wipeCache: bool, done: seq<Return>, r: Return)
    requires Along(o, InInstall, wipeCache, done) && r.call == Install
    ensures Along(o, After(o, InInstall, r.ok, wipeCache || r.wipeCache), wipeCache || r.wipeCache, done + [r])
  {
    hide Calls, Installed, CacheAsked;
    CallsMore(done, r);
    NothingYet();
    assert [] + [Install] == [Install];
    assert First(o) + Middle(o) + [] == First(o) + Middle(o) && First(o) + [] == First(o);
  }

  lemma WipeAlong(o: Options, pc: Pc, wipeCache: bool, done: seq<Return>, r: Return)
    requires Along(o, pc, wipeCache, done) && Current(pc) == Some(r.call) && pc != InInstall && !r.wipeCache
    ensures Along(o, After(o, pc, r.ok, wipeCache), wipeCache, done + [r])
  {
    CallsMore(done, r);
    NothingYet();
    assert Calls([]) == [] && [] + [Sideload] == [Sideload];
    hide Calls, Installed, CacheAsked;
    assert First(o) + [DeviceWipe] + [EraseData] == First(o) + [DeviceWipe, EraseData];
    assert First(o) + Middle(o) + [] == First(o) + Middle(o) && First(o) + [] == First(o);
  }

  lemma NothingYet()
    ensures !Installed([]) && !CacheAsked([]) && Calls([]) == []
  {
  }

  /** At the end, everything asked for has returned, nothing else was done, and in the right order. */
  lemma EndedMeans(o: Options, wipeCache: bool, done: seq<Return>)
    requires Along(o, Finishing, wipeCache, done)
    ensures AllReturned(o, done) && InOrder(done)
  {
    EndedInOrder(o, wipeCache, done);
    hide InOrder, Installed, CacheAsked, Wanted, First, Middle, Calls;
    var cs := Calls(done);
    NoPackageNoWish(o, done);
    forall c: Call
      ensures Returned(done, c) <==> Asks(o, done, c)
    {
      ReturnedIn(done, c);
      EndedCalls(o, wipeCache, Installed(done), CacheAsked(done), cs, c);
    }
  }

  lemma ReturnedIn(done: seq<Return>, c: Call)
    ensures Returned(done, c) <==> c in Calls(done)
  {
    var cs := Calls(done);
    assert forall k :: 0 <= k < |done| ==> cs[k] == done[k].call;
    if c in cs {
      var k :| 0 <= k < |cs| && cs[k] == c;
      assert done[k].call == c;
    }
  }

  lemma NoPackageNoWish(o: Options, done: seq<Return>)
    ensures (Installed(done) || CacheAsked(done)) ==> Install in Calls(done)
  {
    ReturnedIn(done, Install);
    hide Calls;
  }

  lemma EndedCalls(o: Options, wipeCache: bool, installed: bool, cacheAsked: bool, cs: seq<Call>, c: Call)
    requires (wipeCache <==> o.wipeCache || cacheAsked) && (installed || cacheAsked ==> Install in cs)
    requires
      || (cs == [Install] && o.update && !installed)
      || (cs == [Sideload] && Wanted(o, !o.update || installed, cacheAsked, Sideload))
      || (cs == First(o) + Middle(o) + (if wipeCache then [EraseCache] else []) && (!o.update || installed) && !Wanted(o, !o.update || installed, cacheAsked, Sideload))
    ensures c in cs <==> Wanted(o, !o.update || installed, cacheAsked, c)
  {
  }

  lemma EndedInOrder(o: Options, wipeCache: bool, done: seq<Return>)
    requires Along(o, Finishing, wipeCache, done)
    ensures InOrder(done)
  {
    var cs := Calls(done);
    assert forall k :: 0 <= k < |done| ==> cs[k] == done[k].call;
    hide Calls, Installed, CacheAsked, Wanted;
    assert |First(o)| <= 1 && |Middle(o)| <= 2;
  }

  // ----- Restarting -----

  /** get_args has just stored the arguments. */
  predicate JustStored(m: Machine, args: seq<string>, parse: seq<string> -> Options) {
    && m.pc == Choosing && m.done == [] && m.args == args && m.wipeCache == parse(args).wipeCache
    && m.command == BOOT_RECOVERY && m.text == Compose(args)
  }

  /**
   * Until the message is cleared it holds the arguments, and the calls made are those that lead to this place; once it is,
   * everything they asked for has returned.
   */
  ghost predicate Holds(m: Machine, args: seq<string>, o: Options) {
    if m.pc == Booting then m.command == BOOT_RECOVERY && m.text == Compose(args)
    else if m.pc == Cleared || m.pc == Left then m.command == "" && m.text == "" && m.args == args && AllReturned(o, m.done) && InOrder(m.done)
    else m.command == BOOT_RECOVERY && m.text == Compose(args) && m.args == args && Along(o, m.pc, m.wipeCache, m.done)
  }

  lemma StepHolds(m: Machine, step: Step, args: seq<string>, parse: seq<string> -> Options)
    requires Holds(m, args, parse(args)) && Enabled(m, step)
    requires args != [] && AllProper(args) && Fits(args)
    ensures Holds(Apply(m, step, parse), args, parse(args))
    ensures step == Start ==> Apply(m, step, parse).args == args && Apply(m, step, parse).text == m.text
    ensures step == Clear ==> AllReturned(parse(args), m.done) && InOrder(m.done)
  {
    hide Compose, Stored, Fits, AllReturned, InOrder, Asks, Wiping, Ended, Middle, First, Calls, Installed, After, Branch;
    var o := parse(args);
    match step
    case Start =>
      FitsThenStored(args);
      NothingYet();
    case Choose =>
      hide Along;
      assert m.done == [] && m.wipeCache == o.wipeCache by { ChoosingMeans(o, m.wipeCache, m.done); }
      BranchAlong(o);
      BranchPlace(o);
    case Returns(ok, wipeCache) =>
      hide Along;
      var c := Current(m.pc).value;
      ReturnsAlong(o, m.pc, m.wipeCache, m.done, Return(c, ok, c == Install && wipeCache));
      AfterPlace(o, m.pc, ok, m.wipeCache || (c == Install && wipeCache));
    case Clear =>
      hide Along;
      EndedMeans(o, m.wipeCache, m.done);
    case _ =>
  }

  lemma ChoosingMeans(o: Options, wipeCache: bool, done: seq<Return>)
    requires Along(o, Choosing, wipeCache, done)
    ensures done == [] && wipeCache == o.wipeCache
  {
  }

  lemma BranchPlace(o: Options)
    ensures var pc := Branch(o, o.wipeCache); pc != Booting && pc != Cleared && pc != Left
  {
  }

  lemma AfterPlace(o: Options, pc: Pc, ok: bool, wipeCache: bool)
    ensures var q := After(o, pc, ok, wipeCache); q != Booting && q != Cleared && q != Left
  {
  }

  /**
   * From the moment get_args has stored a list that fits: at every point of every run, through any number of crashes and
   * whether or not the command file survives, either the message still holds that very list, and every start reads it
   * back and writes the same text; or it was cleared at the end of main, and then, in that one start, every wipe and
   * install that the list asks for had returned, no other had been made, the package first and the cache last.
   */
  lemma {:induction false} Restartable(ms: seq<Machine>, steps: seq<Step>, args: seq<string>, parse: seq<string> -> Options, k: nat)
    requires Runs(ms, steps, parse) && k < |ms| && JustStored(ms[0], args, parse)
    requires args != [] && AllProper(args) && Fits(args)
    ensures Holds(ms[k], args, parse(args))
    ensures k < |steps| && steps[k] == Start ==> ms[k + 1].args == args && ms[k + 1].text == ms[k].text == Compose(args)
    ensures k < |steps| && steps[k] == Clear ==> AllReturned(parse(args), ms[k].done) && InOrder(ms[k].done)
    decreases k
  {
    hide Compose, Fits, AllReturned, InOrder, Apply, Enabled, Holds, JustStored, AllProper;
    if k == 0 {
      JustStoredHolds(ms[0], args, parse);
    } else {
      Restartable(ms, steps, args, parse, k - 1);
      var i := k - 1;
      assert Enabled(ms[i], steps[i]) && ms[k] == Apply(ms[i], steps[i], parse);
      StepHolds(ms[i], steps[i], args, parse);
    }
    if k < |steps| {
      var next := ms[k + 1];
      StepHolds(ms[k], steps[k], args, parse);
      if steps[k] == Start {
        StartsFromMessage(ms[k], steps[k], args, parse);
      }
    }
  }

  lemma JustStoredHolds(m: Machine, args: seq<string>, parse: seq<string> -> Options)
    requires JustStored(m, args, parse)
    ensures Holds(m, args, parse(args))
  {
    hide Compose;
    NothingYet();
  }

  lemma StartsFromMessage(m: Machine, step: Step, args: seq<string>, parse: seq<string> -> Options)
    requires Holds(m, args, parse(args)) && Enabled(m, step) && step == Start
    ensures m.text == Compose(args)
  {
    hide Compose;
  }

  /** Fitting is needed: once the command file is gone, a crash and a start bring the list back exactly if it fits. */
  lemma RestartsExactly(m: Machine, args: seq<string>, parse: seq<string> -> Options)
    requires JustStored(m, args, parse) && m.file.None? && args != [] && AllProper(args)
    ensures Apply(Apply(m, Crash, parse), Start, parse).args == args <==> Fits(args)
  {
    hide Compose, Stored, Fits, AllProper;
    StoredExactly(args);
  }

  /** What get_args finds in the boot message or in a command file is such a list, if the latter fits. */
  lemma FoundIsStorable(text: string, file: Option<string>)
    requires Text(text)
    ensures AllProper(Args([], text, file))
    ensures Stored(text).Some? && Stored(text).value != [] ==> Fits(Args([], text, file))
  {
    hide Stored, Fits, AllProper;
    if Stored(text).Some? {
      FoundFits(text);
    }
    NoneProper();
  }

  lemma NoneProper()
    ensures AllProper([])
  {
  }

  // ----- The dispatch itself -----

  /** What the calls return, one after the other; nothing more means that they fail. */
  function Reply(replies: seq<(bool, bool)>, k: nat): (bool, bool) { if k < |replies| then replies[k] else (false, false) }

  /** One call made, and what it returned. */
  method Make(c: Call, replies: seq<(bool, bool)>, done: seq<Return>, ghost o: Options, ghost pc: Pc, wipeCache: bool)
    returns (done': seq<Return>, ok: bool, wipeCache': bool)
    requires Along(o, pc, wipeCache, done) && Current(pc) == Some(c)
    ensures Along(o, After(o, pc, ok, wipeCache'), wipeCache', done')
    ensures ok == Reply(replies, |done|).0 && done' == done + [Return(c, ok, c == Install && Reply(replies, |done|).1)]
    ensures wipeCache' == (wipeCache || (c == Install && Reply(replies, |done|).1))
  {
    hide Along, After;
    var reply := Reply(replies, |done|);
    var r := Return(c, reply.0, c == Install && reply.1);
    ReturnsAlong(o, pc, wipeCache, done, r);
    done', ok, wipeCache' := done + [r], reply.0, wipeCache || r.wipeCache;
  }

  /**
   * The if-else chain of main, with the variable wipe_cache that an install may set. Whatever the calls return, it makes
   * exactly those asked for, the package first and the cache last.
   */
  method Dispatch(o: Options, replies: seq<(bool, bool)>) returns (done: seq<Return>)
    ensures AllReturned(o, done) && InOrder(done)
    ensures |done| <= 4 && forall k :: 0 <= k < |done| ==> done[k].ok == Reply(replies, k).0
  {
    hide AllReturned, InOrder, Along, Reply;
    var wipeCache, ok := o.wipeCache, true;
    done := [];
    BranchAlong(o);
    if o.update {
      done, ok, wipeCache := Make(Install, replies, done, o, InInstall, wipeCache);
      if ok {
        if o.wipeData {
          done, ok, wipeCache := Make(DeviceWipe, replies, done, o, InDevice, wipeCache);
          done, ok, wipeCache := Make(EraseData, replies, done, o, InData, wipeCache);
        } else if o.wipeMedia {
          done, ok, wipeCache := Make(EraseMedia, replies, done, o, InMedia, wipeCache);
        }
        if wipeCache {
          done, ok, wipeCache := Make(EraseCache, replies, done, o, InCache, wipeCache);
        }
      }
    } else if o.wipeData {
      done, ok, wipeCache := Make(DeviceWipe, replies, done, o, InDevice, wipeCache);
      done, ok, wipeCache := Make(EraseData, replies, done, o, InData, wipeCache);
      if wipeCache {
        done, ok, wipeCache := Make(EraseCache, replies, done, o, InCache, wipeCache);
      }
    } else if wipeCache {
      done, ok, wipeCache := Make(EraseCache, replies, done, o, InCache, wipeCache);
    } else if o.wipeMedia {
      done, ok, wipeCache := Make(EraseMedia, replies, done, o, InMedia, wipeCache);
    } else if o.sideload {
      done, ok, wipeCache := Make(Sideload, replies, done, o, InSideload, wipeCache);
    }
    EndedMeans(o, wipeCache, done);
  }
}
