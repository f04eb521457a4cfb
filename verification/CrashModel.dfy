/**
 * applypatch of applypatch/applypatch.c on a file target, as a state machine over its file-system
 * effects. A run may be cut off after any step and started again any number of times.
 */
module CrashModel {
  import opened Bytes
  import opened Paths

  const CACHE_TEMP_SOURCE := "/cache/saved.file"

  const CACHE_DIR := "/cache/"
  const OTATEST_DIR := "/cache/recovery/otatest/"

  /** Where the saved copy is. */
  const COPY: Place := Resolve(CACHE_TEMP_SOURCE)

  /**
   * SHA-1; what loading makes of a file's bytes (retouch entries masked; None when that fails); and what loading a
   * partition by its name gives, which nothing here changes.
   */
  datatype World = World(sha: seq<Byte> -> seq<Byte>, load: seq<Byte> -> Option<seq<Byte>>, partition: string -> Option<seq<Byte>>)

  /**
   * What applying a patch gives: pieces of output in order, and whether it then succeeds. Piece by piece, checked says
   * whether anybody looks at how much of it was written; nobody does for the normal chunks of an image patch.
   */
  datatype Piece = Piece(bytes: seq<Byte>, checked: bool)
  datatype Product = Product(pieces: seq<Piece>, good: bool)

  /**
   * One call: the names given for source and target, the target's digest, the digests there are patches for, and what
   * the patch for it makes of an input.
   */
  datatype Call = Call(source: string, target: string, goal: seq<Byte>, accepted: set<seq<Byte>>, product: seq<Byte> -> Product)

  /** "-" stands for the source's name. */
  function TargetName(source: string, target: string): string { if target == "-" then source else target }

  predicate Starts(name: string, prefix: string) { prefix <= name }

  predicate Partition(name: string) { Starts(name, "MTD:") || Starts(name, "EMMC:") }

  function Source(c: Call): Place { Resolve(c.source) }
  function Target(c: Call): Place { Resolve(TargetName(c.source, c.target)) }

  /** Where the patched output is written. */
  function Out(c: Call): Place { Resolve(TargetName(c.source, c.target) + ".patch") }

  type Files = map<Place, seq<Byte>>

  /** LoadFileContents. */
  function Load(w: World, fs: Files, name: string): Option<seq<Byte>> {
    if Partition(name) then w.partition(name)
    else LoadFile(w, fs, Resolve(name))
  }

  function LoadFile(w: World, fs: Files, at: Place): Option<seq<Byte>> {
    if at in fs then w.load(fs[at]) else None
  }

  predicate Accepted(w: World, accepted: set<seq<Byte>>, data: Option<seq<Byte>>) {
    data.Some? && w.sha(data.value) in accepted
  }

  predicate Accepts(w: World, c: Call, data: Option<seq<Byte>>) { Accepted(w, c.accepted, data) }

  /** What applypatch decides before it touches anything. */
  datatype Plan = AlreadyDone | Use(fromSource: bool, data: seq<Byte>) | NoInput

  function Decide(w: World, c: Call, fs: Files): Plan {
    var name := TargetName(c.source, c.target);
    var t := Load(w, fs, name);
    if t.Some? && w.sha(t.value) == c.goal then AlreadyDone
    else
      var s := if t.None? || name != c.source then Load(w, fs, c.source) else t;
      if Accepts(w, c, s) then Use(true, s.value)
      else
        var copy := LoadFile(w, fs, COPY);
        if Accepts(w, c, copy) then Use(false, copy.value) else NoInput
  }

  /** What MakeFreeSpaceOnCache may delete: files directly in two directories, but never the saved copy. */
  predicate Expendable(at: Place) {
    && at != COPY && |at| > 0
    && (at[..|at| - 1] == Resolve(CACHE_DIR) || at[..|at| - 1] == Resolve(OTATEST_DIR))
  }

  datatype Pc =
    | Idle                                    // not running
    | Choosing                                // top of the patch loop
    | MakingRoom                              // freeing space on /cache for the copy
    | Saving(k: nat)                          // the copy is open, k bytes of it written
    | Saved                                   // the copy is complete
    | Opening                                 // about to open the output
    | Patching(short: seq<bool>)              // the output is being written; which pieces so far came out short
    | Checking(short: seq<bool>)              // the patch was applied
    | Retrying                                // the patch failed
    | Installing(short: seq<bool>)            // the digest matched
    | CleaningUp                              // the output has been renamed over the target
    | Exited(code: int)

  /** fromSource and data: the input in use. retry, madeCopy: the loop's variables. passes: turns of the loop. */
  datatype State = State(fs: Files, pc: Pc, fromSource: bool, data: seq<Byte>, retry: int, madeCopy: bool, passes: int)

  function Without(fs: Files, at: Place): Files {
    fs - {at}
  }

  function Rename(fs: Files, from: Place, to: Place): Files
    requires from in fs
  {
    Without(fs[to := fs[from]], from)
  }

  /** The decision before the loop. */
  ghost predicate Start(w: World, c: Call, s: State, s': State) {
    && s.pc == Idle
    && match Decide(w, c, s.fs)
       case AlreadyDone => s' == s.(pc := Exited(0))
       case NoInput => s' == s.(pc := Exited(1))
       case Use(fromSource, data) => s' == State(s.fs, Choosing, fromSource, data, 1, false, 1)
  }

  /** Enough space goes on with the output; too little takes the source out of the way first, or fails if it is a partition. */
  ghost predicate Choose(c: Call, s: State, s': State) {
    && s.pc == Choosing
    && ((s.retry > 0 && s' == s.(pc := Opening))
        || s' == s.(pc := if !s.fromSource then Opening else if Partition(c.source) then Exited(1) else MakingRoom, retry := 0))
  }

  ghost predicate MakeRoom(s: State, s': State) {
    && s.pc == MakingRoom
    && ((exists p :: Expendable(p) && s' == s.(fs := Without(s.fs, p)))
        || s' == s.(pc := Exited(1))
        || s' == s.(pc := Saving(0), fs := s.fs[COPY := []]))
  }

  /** The copy is written piece by piece; the write, or setting the mode and owner after it, may fail. */
  ghost predicate Save(s: State, s': State) {
    && s.pc.Saving?
    && ((exists k :: s.pc.k <= k <= |s.data| && s' == s.(pc := Saving(k), fs := s.fs[COPY := s.data[..k]]))
        || s' == s.(pc := Exited(1))
        || (s.pc.k >= |s.data| && s' == s.(pc := Saved, madeCopy := true)))
  }

  /** The source is unlinked; nothing checks whether that worked. */
  ghost predicate DropSource(c: Call, s: State, s': State) {
    s.pc == Saved && (s' == s.(pc := Opening, fs := Without(s.fs, Source(c))) || s' == s.(pc := Opening))
  }

  ghost predicate Open(c: Call, s: State, s': State) {
    s.pc == Opening && (s' == s.(pc := Patching([]), fs := s.fs[Out(c) := []]) || s' == s.(pc := Exited(1)))
  }

  function Append(fs: Files, at: Place, b: seq<Byte>): Files
    requires at in fs
  {
    fs[at := fs[at] + b]
  }

  /** A whole piece goes to the output and into the hash. */
  ghost predicate Write(c: Call, s: State, s': State) {
    && s.pc.Patching? && Out(c) in s.fs && |s.pc.short| < |c.product(s.data).pieces|
    && s' == s.(pc := Patching(s.pc.short + [false]), fs := Append(s.fs, Out(c), c.product(s.data).pieces[|s.pc.short|].bytes))
  }

  /** Of a piece that nobody checks only a part goes to the output, and none of it into the hash. */
  ghost predicate WriteShort(c: Call, s: State, s': State) {
    && s.pc.Patching? && Out(c) in s.fs && |s.pc.short| < |c.product(s.data).pieces|
    && var p := c.product(s.data).pieces[|s.pc.short|];
       !p.checked && exists b: seq<Byte> :: b < p.bytes && s' == s.(pc := Patching(s.pc.short + [true]), fs := Append(s.fs, Out(c), b))
  }

  /** The patch fails, perhaps after part of a piece; or it is not a patch at all; or the run is cut off in a piece. */
  ghost predicate Fail(c: Call, s: State, s': State) {
    && s.pc.Patching? && Out(c) in s.fs
    && (s' == s.(pc := Exited(1))
        || exists b: seq<Byte> ::
             (s' == s.(pc := Retrying, fs := Append(s.fs, Out(c), b)) || s' == s.(pc := Idle, fs := Append(s.fs, Out(c), b))))
  }

  ghost predicate Finish(c: Call, s: State, s': State) {
    && s.pc.Patching? && |s.pc.short| == |c.product(s.data).pieces| && c.product(s.data).good
    && s' == s.(pc := Checking(s.pc.short))
  }

  ghost predicate Retry(c: Call, s: State, s': State) {
    && s.pc == Retrying
    && (s.retry == 0 ==> s' == s.(pc := Exited(1)))
    && (s.retry != 0 ==>
          || s' == s.(pc := Choosing, fs := Without(s.fs, Out(c)), retry := s.retry - 1, passes := s.passes + 1)
          || s' == s.(pc := Choosing, retry := s.retry - 1, passes := s.passes + 1))
  }

  /** What went into the hash: the pieces that were written whole. */
  function Hashed(ps: seq<Piece>, short: seq<bool>): seq<Byte>
    requires |short| <= |ps|
    decreases |short|
  {
    if short == [] then []
    else
      var n := |short| - 1;
      Hashed(ps, short[..n]) + if short[n] then [] else ps[n].bytes
  }

  ghost predicate Check(w: World, c: Call, s: State, s': State) {
    && s.pc.Checking? && |s.pc.short| <= |c.product(s.data).pieces|
    && s' == s.(pc := if w.sha(Hashed(c.product(s.data).pieces, s.pc.short)) == c.goal then Installing(s.pc.short) else Exited(1))
  }

  /** Setting mode and owner, or the rename itself, may fail. */
  ghost predicate Install(c: Call, s: State, s': State) {
    && s.pc.Installing? && Out(c) in s.fs
    && (s' == s.(pc := CleaningUp, fs := Rename(s.fs, Out(c), Target(c))) || s' == s.(pc := Exited(1)))
  }

  ghost predicate CleanUp(s: State, s': State) {
    && s.pc == CleaningUp
    && (s' == s.(pc := Exited(0)) || (s.madeCopy && s' == s.(pc := Exited(0), fs := Without(s.fs, COPY))))
  }

  /** The run ends, or is cut off: only the files are left. */
  ghost predicate Stop(s: State, s': State) {
    s' == s.(pc := Idle)
  }

  ghost predicate Next(w: World, c: Call, s: State, s': State) {
    || Start(w, c, s, s') || Choose(c, s, s') || MakeRoom(s, s') || Save(s, s') || DropSource(c, s, s') || Open(c, s, s')
    || Write(c, s, s') || WriteShort(c, s, s') || Fail(c, s, s') || Finish(c, s, s') || Retry(c, s, s')
    || Check(w, c, s, s') || Install(c, s, s') || CleanUp(s, s') || Stop(s, s')
  }

  ghost predicate Run(w: World, c: Call, r: seq<State>) {
    && r != [] && r[0].pc == Idle
    && forall i :: 0 <= i < |r| - 1 ==> Next(w, c, r[i], r[i + 1])
  }

  /** Some file still holds what is needed: the finished target, or a usable source, or a usable copy of it. */
  ghost predicate Recoverable(w: World, c: Call, fs: Files) {
    || (Target(c) in fs && w.sha(fs[Target(c)]) == c.goal)
    || (var t := LoadFile(w, fs, Target(c)); t.Some? && w.sha(t.value) == c.goal)
    || Accepts(w, c, Load(w, fs, c.source))
    || Accepts(w, c, LoadFile(w, fs, COPY))
  }
}
