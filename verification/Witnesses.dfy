/** Instances of what the other modules ask of compression and of loading a file, so that nothing is asked in vain. */
module Witnesses {
  import opened Bytes
  import BsPatch
  import CrashModel
  import CrashSafety
  import CrashExact
  import Retouch

  // ----- A compression that tells where it ends -----

  /** Every byte marked by a 1, and a 0 at the end. */
  function Escape(x: seq<Byte>): seq<Byte> {
    if x == [] then [0] else [1, x[0]] + Escape(x[1..])
  }

  function Unescape(s: seq<Byte>): seq<Byte> {
    if |s| < 2 || s[0] != 1 then [] else [s[1]] + Unescape(s[2..])
  }

  lemma {:induction false} UnescapeEscape(x: seq<Byte>, rest: seq<Byte>)
    ensures Unescape(Escape(x) + rest) == x
  {
    if x != [] {
      var tail := Escape(x[1..]);
      Reappend([1, x[0]], tail, rest);
      UnescapeOne(x[0], tail + rest);
      UnescapeEscape(x[1..], rest);
    }
  }

  lemma UnescapeOne(b: Byte, tail: seq<Byte>)
    ensures Unescape([1, b] + tail) == [b] + Unescape(tail)
  {
    assert ([1, b] + tail)[2..] == tail;
  }

  lemma SelfDelimitingExists()
    ensures BsPatch.SelfDelimiting(BsPatch.Codec(Escape, Unescape))
  {
    forall x: seq<Byte>, rest: seq<Byte>
      ensures Unescape(Escape(x) + rest) == x
    {
      UnescapeEscape(x, rest);
    }
  }

  // ----- Loading with retouch entries masked -----

  /** LoadFileContents with RETOUCH_DO_MASK: the image with its entries masked to 0, unless masking goes wrong. */
  function Masked(x: seq<Byte>): Option<seq<Byte>> {
    var r := Retouch.MaskData(x, Some(0));
    if r.status == Retouch.Matched then Some(r.bin) else None
  }

  /** Masking that does not disturb the list leaves what it would leave again. */
  lemma UndisturbedReloads(x: seq<Byte>)
    requires Masked(x).Some? && !Retouch.Disturbed(x, 0)
    ensures Masked(Masked(x).value) == Masked(x)
  {
    hide Retouch.MaskData, Retouch.Disturbed, Retouch.Undisturbed;
    Retouch.MaskedOrRefused(x, 0);
    Retouch.MaskComposes(x, 0, 0);
  }

  /**
   * With the loader as it is, inputs reload, as the restart protocol needs, if no file that loads as an accepted input has
   * a list that masking disturbs; or if masking leaves the accepted images as they are.
   */
  lemma MaskedReloads(w: CrashModel.World, accepted: set<seq<Byte>>)
    requires w.load == Masked
    requires (forall x: seq<Byte> :: CrashModel.Accepted(w, accepted, Masked(x)) ==> !Retouch.Disturbed(x, 0)) ||
             (forall d: seq<Byte> :: w.sha(d) in accepted ==> Masked(d) == Some(d))
    ensures CrashSafety.Reloads(w, accepted)
  {
    hide Masked, Retouch.Disturbed;
    forall x: seq<Byte> | CrashModel.Accepted(w, accepted, w.load(x))
      ensures CrashModel.Accepted(w, accepted, w.load(w.load(x).value))
    {
      if !Retouch.Disturbed(x, 0) {
        UndisturbedReloads(x);
      } else {
        assert w.sha(Masked(x).value) in accepted;
      }
    }
  }

  /**
   * And without such a condition they need not: with the spilled image as the accepted input, no names of files are crash
   * safe, for it is saved masked and does not load again.
   */
  lemma SpilledIsNeverSafe(w: CrashModel.World, source: string, target: string)
    requires w.load == Masked && !CrashModel.Partition(source) && !CrashModel.Partition(CrashModel.TargetName(source, target))
    ensures !CrashExact.AlwaysSafe(w, source, target, {w.sha(Retouch.SPILLED)})
  {
    hide Masked, CrashModel.Partition, CrashExact.AlwaysSafe, CrashSafety.SafeNames;
    SpillingLoadsOnce();
    var accepted := {w.sha(Retouch.SPILLED)};
    assert CrashModel.Accepted(w, accepted, w.load(Retouch.SPILLING)) && !CrashModel.Accepted(w, accepted, w.load(Retouch.SPILLED));
    assert CrashExact.Usable(w, accepted) && !CrashSafety.Reloads(w, accepted);
    CrashExact.SafeExactly(w, source, target, accepted);
  }

  lemma SpillingLoadsOnce()
    ensures Masked(Retouch.SPILLING) == Some(Retouch.SPILLED) && Masked(Retouch.SPILLED).None?
  {
    hide Retouch.MaskData;
    Retouch.SpillBreaksMasking();
  }
}
