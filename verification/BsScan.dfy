/** The scan loop of bsdiff in applypatch/bsdiff.c: where to cut the target, and how far to stretch each match. */
module BsScan {
  import opened Bytes
  import opened SuffixOrder
  import opened BsSearch

  /** Byte t of the target equals the byte of the text at distance off from it. */
  predicate Hit(text: seq<Byte>, target: seq<Byte>, off: int, t: int)
    requires 0 <= t < |target|
  {
    0 <= t + off < |text| && text[t + off] == target[t]
  }

  /** How many of the bytes a..b-1 of the target are hits. */
  ghost function Hits(text: seq<Byte>, target: seq<Byte>, off: int, a: int, b: int): (n: nat)
    requires 0 <= a && b <= |target|
    ensures a <= b ==> n <= b - a
    decreases b - a
  {
    if b <= a then 0 else Hits(text, target, off, a, b - 1) + if Hit(text, target, off, b - 1) then 1 else 0
  }

  lemma {:induction false} HitsFront(text: seq<Byte>, target: seq<Byte>, off: int, a: int, b: int)
    requires 0 <= a < b <= |target|
    ensures Hits(text, target, off, a, b) == Hits(text, target, off, a + 1, b) + if Hit(text, target, off, a) then 1 else 0
    decreases b
  {
    if a + 1 < b {
      HitsFront(text, target, off, a, b - 1);
    }
  }

  /** Score the bytes from scsc up to the end of the match just found. */
  method ScoreAhead(text: seq<Byte>, target: seq<Byte>, off: int, scan: int, scsc0: int, end: int, oldscore0: int)
    returns (scsc: int, oldscore: int)
    requires 0 <= scan <= end <= |target| && 0 <= scsc0 <= |target| && 0 <= scsc0 + off
    requires oldscore0 == Hits(text, target, off, scan, scsc0)
    requires scsc0 < scan ==> Hits(text, target, off, scsc0, scan) == 0
    ensures scsc == if scsc0 < end then end else scsc0
    ensures oldscore == Hits(text, target, off, scan, scsc)
  {
    scsc, oldscore := scsc0, oldscore0;
    while scsc < end
      invariant scsc0 <= scsc && (scsc <= end || scsc == scsc0)
      invariant oldscore == Hits(text, target, off, scan, scsc)
      invariant scsc < scan ==> Hits(text, target, off, scsc, scan) == 0
    {
      if scsc < scan {
        HitsFront(text, target, off, scsc, scan);
      }
      if scsc + off < |text| && text[scsc + off] == target[scsc] {
        oldscore := oldscore + 1;
      }
      scsc := scsc + 1;
    }
  }

  /**
   * The inner loop: move scan forward until the search finds a match worth using. It stops before the
   * end of the target only at a non-empty match that either is what the old alignment already gives or
   * beats it by more than 8 bytes.
   */
  method NextMatch(I: seq<int>, text: seq<Byte>, target: seq<Byte>, scan0: int, len0: int, pos0: int, off: int)
    returns (scan: int, len: int, pos: int, oldscore: int, ghost scored: int)
    requires SuffixArray(text, I) && 0 <= scan0 <= |target| && 0 <= scan0 + off && 0 <= len0 && 0 <= pos0 <= |text|
    ensures scan0 <= scan <= |target| && 0 <= pos <= |text| && 0 <= oldscore && 0 <= len
    ensures scan < |target| ==> MatchEnds(text, pos, target, scan, len) && len >= 1
    ensures scan < |target| ==> scan + len <= scored <= |target| && oldscore == Hits(text, target, off, scan, scored)
    ensures scan < |target| ==> len == oldscore || len > oldscore + 8
  {
    hide SuffixArray;
    scan, len, pos, oldscore, scored := scan0, len0, pos0, 0, scan0;
    var scsc := scan;
    while scan < |target|
      invariant scan0 <= scan <= |target| && scan0 <= scsc <= |target| && 0 <= pos <= |text| && 0 <= len
      invariant oldscore == Hits(text, target, off, scan, scsc)
      invariant scsc < scan ==> Hits(text, target, off, scsc, scan) == 0
    {
      len, pos := SearchAll(I, text, target, scan);
      scsc, oldscore := ScoreAhead(text, target, off, scan, scsc, scan + len, oldscore);
      if (len == oldscore && len != 0) || len > oldscore + 8 {
        scored := scsc;
        return;
      }
      if scan < scsc {
        HitsFront(text, target, off, scan, scsc);
      }
      if scan + off < |text| && text[scan + off] == target[scan] {
        oldscore := oldscore - 1;
      }
      scan := scan + 1;
    }
  }

  /** Twice the hits less the length: the gain of sending the i bytes from lastscan as a difference. */
  ghost function ForwardGain(text: seq<Byte>, target: seq<Byte>, lastscan: int, lastpos: int, i: int): int
    requires 0 <= lastscan && lastscan + i <= |target|
  {
    2 * Hits(text, target, lastpos - lastscan, lastscan, lastscan + i) - i
  }

  /** No extension forward gains more than f. */
  ghost predicate BestForward(text: seq<Byte>, target: seq<Byte>, lastscan: int, lastpos: int, scan: int, f: int)
    requires 0 <= lastscan <= scan <= |target| && 0 <= lastpos <= |text|
  {
    && 0 <= f <= Min(scan - lastscan, |text| - lastpos)
    && forall i :: 0 <= i <= Min(scan - lastscan, |text| - lastpos) ==>
         ForwardGain(text, target, lastscan, lastpos, i) <= ForwardGain(text, target, lastscan, lastpos, f)
  }

  /** How far to stretch the last match forward: to the greatest gain. */
  method Forward(text: seq<Byte>, target: seq<Byte>, lastscan: int, lastpos: int, scan: int) returns (lenf: int)
    requires 0 <= lastscan <= scan <= |target| && 0 <= lastpos <= |text|
    ensures BestForward(text, target, lastscan, lastpos, scan, lenf)
  {
    var s, best, i := 0, 0, 0;
    lenf := 0;
    while lastscan + i < scan && lastpos + i < |text|
      invariant 0 <= lenf <= i <= Min(scan - lastscan, |text| - lastpos)
      invariant 2 * s - i == ForwardGain(text, target, lastscan, lastpos, i)
      invariant 2 * best - lenf == ForwardGain(text, target, lastscan, lastpos, lenf)
      invariant forall j :: 0 <= j <= i ==> ForwardGain(text, target, lastscan, lastpos, j) <= 2 * best - lenf
    {
      if text[lastpos + i] == target[lastscan + i] {
        s := s + 1;
      }
      i := i + 1;
      if s * 2 - i > best * 2 - lenf {
        best, lenf := s, i;
      }
    }
  }

  ghost function BackwardGain(text: seq<Byte>, target: seq<Byte>, scan: int, pos: int, i: int): int
    requires 0 <= i <= scan <= |target|
  {
    2 * Hits(text, target, pos - scan, scan - i, scan) - i
  }

  lemma BackwardStep(text: seq<Byte>, target: seq<Byte>, scan: int, pos: int, i: int)
    requires 0 < i <= scan <= |target| && i <= pos <= |text|
    ensures BackwardGain(text, target, scan, pos, i)
         == BackwardGain(text, target, scan, pos, i - 1) + if text[pos - i] == target[scan - i] then 1 else -1
  {
    HitsFront(text, target, pos - scan, scan - i, scan);
  }

  /** No extension backward gains more than b. */
  ghost predicate BestBackward(text: seq<Byte>, target: seq<Byte>, lastscan: int, scan: int, pos: int, b: int)
    requires 0 <= lastscan <= scan <= |target| && 0 <= pos <= |text|
  {
    && 0 <= b <= Min(scan - lastscan, pos)
    && forall i :: 0 <= i <= Min(scan - lastscan, pos) ==>
         BackwardGain(text, target, scan, pos, i) <= BackwardGain(text, target, scan, pos, b)
  }

  /** How far to stretch the new match backward: again to the greatest gain. */
  method Backward(text: seq<Byte>, target: seq<Byte>, lastscan: int, scan: int, pos: int) returns (lenb: int)
    requires 0 <= lastscan <= scan <= |target| && 0 <= pos <= |text|
    ensures BestBackward(text, target, lastscan, scan, pos, lenb)
  {
    assert BackwardGain(text, target, scan, pos, 0) == 0;
    hide BackwardGain;
    var s, best, i := 0, 0, 1;
    lenb := 0;
    while scan >= lastscan + i && pos >= i
      invariant 1 <= i <= Min(scan - lastscan, pos) + 1 && 0 <= lenb < i
      invariant 2 * s - (i - 1) == BackwardGain(text, target, scan, pos, i - 1)
      invariant 2 * best - lenb == BackwardGain(text, target, scan, pos, lenb)
      invariant forall j :: 0 <= j < i ==> BackwardGain(text, target, scan, pos, j) <= 2 * best - lenb
    {
      BackwardStep(text, target, scan, pos, i);
      if text[pos - i] == target[scan - i] {
        s := s + 1;
      }
      if s * 2 - i > best * 2 - lenb {
        best, lenb := s, i;
      }
      i := i + 1;
    }
  }

  /** Forward hits less backward hits over the first i bytes of an overlap. */
  ghost function CutGain(text: seq<Byte>, target: seq<Byte>, from: int, fpos: int, bpos: int, i: int): int
    requires 0 <= from && from + i <= |target|
  {
    Hits(text, target, fpos - from, from, from + i) - Hits(text, target, bpos - from, from, from + i)
  }

  /** Where to cut an overlap of the two stretches: where forward hits before the cut gain most over backward ones. */
  method Cut(text: seq<Byte>, target: seq<Byte>, from: int, overlap: int, fpos: int, bpos: int) returns (lens: int)
    requires 0 <= from && 0 <= overlap && from + overlap <= |target|
    requires 0 <= fpos && fpos + overlap <= |text| && 0 <= bpos && bpos + overlap <= |text|
    ensures 0 <= lens <= overlap
    ensures forall i :: 0 <= i <= overlap ==>
      CutGain(text, target, from, fpos, bpos, i) <= CutGain(text, target, from, fpos, bpos, lens)
  {
    var s, best, i := 0, 0, 0;
    lens := 0;
    while i < overlap
      invariant 0 <= lens <= i <= overlap
      invariant s == CutGain(text, target, from, fpos, bpos, i)
      invariant best == CutGain(text, target, from, fpos, bpos, lens)
      invariant forall j :: 0 <= j <= i ==> CutGain(text, target, from, fpos, bpos, j) <= best
    {
      if target[from + i] == text[fpos + i] {
        s := s + 1;
      }
      if target[from + i] == text[bpos + i] {
        s := s - 1;
      }
      if s > best {
        best, lens := s, i + 1;
      }
      i := i + 1;
    }
  }

  lemma {:induction false} HitsSplit(text: seq<Byte>, target: seq<Byte>, off: int, a: int, b: int, c: int)
    requires 0 <= a <= b <= c <= |target|
    ensures Hits(text, target, off, a, c) == Hits(text, target, off, a, b) + Hits(text, target, off, b, c)
    decreases c
  {
    if b < c {
      HitsSplit(text, target, off, a, b, c - 1);
    }
  }

  /** How many bytes match when the first g follow the match before and the others the match after. */
  ghost function Matched(text: seq<Byte>, target: seq<Byte>, lastscan: int, lastpos: int, scan: int, pos: int, g: int): int
    requires 0 <= lastscan <= scan <= |target| && 0 <= g <= scan - lastscan
  {
    Hits(text, target, lastpos - lastscan, lastscan, lastscan + g) + Hits(text, target, pos - scan, lastscan + g, scan)
  }

  /** The lengths are the best ones, f and b; where those overlap, they meet where most bytes match. */
  ghost predicate Stretched(text: seq<Byte>, target: seq<Byte>, lastscan: int, lastpos: int, scan: int, pos: int, f: int, b: int, lenf: int, lenb: int)
    requires 0 <= lastscan <= scan <= |target| && 0 <= lastpos <= |text| && 0 <= pos <= |text|
  {
    && BestForward(text, target, lastscan, lastpos, scan, f)
    && (if scan < |target| then BestBackward(text, target, lastscan, scan, pos, b) else b == 0)
    && if f + b <= scan - lastscan then lenf == f && lenb == b
       else
         && scan - lastscan - b <= lenf <= f && lenb == scan - lastscan - lenf
         && forall g :: scan - lastscan - b <= g <= f ==>
              Matched(text, target, lastscan, lastpos, scan, pos, g) <= Matched(text, target, lastscan, lastpos, scan, pos, lenf)
  }

  /** A division of the overlap gains what its matches do, but for a constant. */
  lemma CutMatches(text: seq<Byte>, target: seq<Byte>, lastscan: int, lastpos: int, scan: int, pos: int, b: int, i: int)
    requires 0 <= lastscan <= scan - b && 0 <= b && 0 <= i <= b && scan <= |target|
    ensures var from := scan - b; var fpos := lastpos + from - lastscan;
      Matched(text, target, lastscan, lastpos, scan, pos, from - lastscan + i) == CutGain(text, target, from, fpos, pos - b, i)
        + Hits(text, target, lastpos - lastscan, lastscan, from) + Hits(text, target, pos - scan, from, scan)
  {
    hide Hits;
    var from := scan - b;
    HitsSplit(text, target, lastpos - lastscan, lastscan, from, from + i);
    HitsSplit(text, target, pos - scan, from, from + i, scan);
  }

  /** The lengths sent for one region: lenf bytes as a difference, then what lies before the last lenb bytes. */
  method Stretch(text: seq<Byte>, target: seq<Byte>, lastscan: int, lastpos: int, scan: int, pos: int) returns (lenf: int, lenb: int)
    requires 0 <= lastscan <= scan <= |target| && 0 <= lastpos <= |text| && 0 <= pos <= |text|
    ensures 0 <= lenf && 0 <= lenb <= pos && lastscan + lenf <= scan - lenb && lastpos + lenf <= |text|
    ensures scan == |target| ==> lenb == 0
    ensures exists f, b :: Stretched(text, target, lastscan, lastpos, scan, pos, f, b, lenf, lenb)
  {
    hide ForwardGain, BackwardGain, CutGain, Matched;
    lenf := Forward(text, target, lastscan, lastpos, scan);
    lenb := 0;
    if scan < |target| {
      lenb := Backward(text, target, lastscan, scan, pos);
    }
    ghost var f, b := lenf, lenb;
    if lastscan + lenf > scan - lenb {
      var overlap := lastscan + lenf - (scan - lenb);
      var lens := Cut(text, target, lastscan + lenf - overlap, overlap, lastpos + lenf - overlap, pos - lenb);
      lenf := lenf + lens - overlap;
      lenb := lenb - lens;
      CutMatches(text, target, lastscan, lastpos, scan, pos, b, lens);
      forall g | scan - lastscan - b <= g <= f
        ensures Matched(text, target, lastscan, lastpos, scan, pos, g) <= Matched(text, target, lastscan, lastpos, scan, pos, lenf)
      {
        CutMatches(text, target, lastscan, lastpos, scan, pos, b, g - (scan - lastscan - b));
      }
    }
    assert Stretched(text, target, lastscan, lastpos, scan, pos, f, b, lenf, lenb);
  }
}
