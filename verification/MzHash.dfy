/** The hash table of minzip/Hash.c and its iterator of minzip/Hash.h. */
module MzHash {
  import opened Bytes
  import opened Bits
  import opened HashSlots

  const LOAD_NUMER := 5
  const LOAD_DENOM := 8

  /** mzHashSize: the capacity to ask for so that size elements fit without a resize. */
  function HashSize(size: nat): nat {
    size * LOAD_DENOM / LOAD_NUMER + 1
  }

  predicate WithinLoad(used: int, tableSize: int) {
    used * LOAD_DENOM <= tableSize * LOAD_NUMER
  }

  /** A table made for n elements has room for n, dead or alive. */
  lemma HashSizeSuffices(n: nat, used: int, tableSize: int)
    requires used <= n && HashSize(n) <= tableSize
    ensures WithinLoad(used, tableSize)
  {
  }

  method NextPower(n: int) returns (r: int)
    requires 0 < n <= 0x8000_0000
    ensures r == RoundUpPower2(n) && IsPow2(r) && n <= r < 2 * n
  {
    RoundUpIsNext(n);
    r := RoundUpPower2(n);
    hide *;
  }

  /** Probe from the home of h for the first empty slot. */
  method FindEmpty<T(==)>(slots: array<Slot<T>>, h: int) returns (i: int)
    requires IsPow2(slots.Length) && Table(slots[..]) && 0 <= h && |Entries(slots[..])| + Tombs(slots[..]) < slots.Length
    ensures 0 <= i < slots.Length && slots[i] == Empty
    ensures forall q :: 0 <= q < slots.Length ==>
      Dist(Home(h, slots.Length), q, slots.Length) < Dist(Home(h, slots.Length), i, slots.Length) ==> slots[q] != Empty
  {
    ghost var s := slots[..];
    ghost var e := EmptySlot(s);
    var n := slots.Length;
    AndMask(h, n);
    i := And(h, n - 1);
    ghost var home := Home(h, n);
    hide IsPow2, And, Table, Entries, Tombs, Home;
    while slots[i] != Empty
      invariant 0 <= i < n && Dist(home, i, n) <= Dist(home, e, n)
      invariant forall q :: 0 <= q < n && Dist(home, q, n) < Dist(home, i, n) ==> s[q] != Empty
      decreases Dist(home, e, n) - Dist(home, i, n)
    {
      assert slots[i] == s[i];
      ProbeStep(home, i, e, n);
      i := Next(i, n);
    }
  }

  /** Re-insert one live slot into the new storage. */
  method Reinsert<T(==)>(slots: array<Slot<T>>, h: int, x: T)
    requires IsPow2(slots.Length) && Table(slots[..]) && 0 <= h && |Entries(slots[..])| + Tombs(slots[..]) < slots.Length
    modifies slots
    ensures Table(slots[..])
    ensures Entries(slots[..]) == old(Entries(slots[..])) + multiset{(h, x)} && Tombs(slots[..]) == old(Tombs(slots[..]))
  {
    ghost var s := slots[..];
    var i := FindEmpty(slots, h);
    assert forall q :: 0 <= q < |s| ==> s[q] == slots[q];
    Filled(s, i, h, x);
    slots[i] := Live(h, x);
    assert slots[..] == s[i := Live(h, x)];
    hide *;
  }

  /** resizeHash: the live slots of the old storage re-inserted into storage of twice the size, without tombstones. */
  method Rehash<T(==)>(slots: array<Slot<T>>, newSize: int) returns (fresh_: array<Slot<T>>)
    requires IsPow2(newSize) && Table(slots[..]) && |Entries(slots[..])| < newSize
    ensures fresh(fresh_) && fresh_.Length == newSize && Table(fresh_[..])
    ensures Entries(fresh_[..]) == Entries(slots[..]) && Tombs(fresh_[..]) == 0
  {
    ghost var s := slots[..];
    fresh_ := new Slot<T>[newSize](_ => Empty);
    AllEmpty(fresh_[..]);
    assert Table(fresh_[..]);
    assert s[..0] == [] && s[..|s|] == s;
    assert forall p :: 0 <= p < |s| && s[p].Live? ==> 0 <= s[p].hash;
    assert |Entries(s[..0])| == 0;
    hide IsPow2, Table, Entries, Tombs;
    var i := 0;
    while i < slots.Length
      invariant 0 <= i <= slots.Length == |s| && slots[..] == s
      invariant fresh_.Length == newSize && Table(fresh_[..])
      invariant Entries(fresh_[..]) == Entries(s[..i]) && Tombs(fresh_[..]) == 0
    {
      assert slots[i] == s[i];
      EntriesSnoc(s, i);
      EntriesPrefix(s, i);
      if slots[i].Live? {
        Reinsert(fresh_, slots[i].hash, slots[i].item);
      }
      i := i + 1;
    }
  }

  class HashTable<T(==,!new)> {
    var slots: array<Slot<T>>
    var numEntries: int
    var numDead: int

    ghost function Contents(): multiset<(int, T)>
      reads this, slots
    {
      Entries(slots[..])
    }

    /** Everything but the load bound: unbroken chains and counters that count. */
    ghost predicate Sound()
      reads this, slots
    {
      && IsPow2(slots.Length) && Table(slots[..])
      && numEntries == |Contents()| && numDead == Tombs(slots[..])
    }

    ghost predicate Valid()
      reads this, slots
    {
      Sound() && WithinLoad(numEntries + numDead, slots.Length)
    }

    /** mzHashTableCreate */
    constructor (initialSize: int)
      requires 0 < initialSize <= 0x8000_0000
      ensures Valid() && fresh(slots) && Contents() == multiset{} && numDead == 0 && numEntries == 0
      ensures slots.Length == RoundUpPower2(initialSize) && initialSize <= slots.Length < 2 * initialSize
    {
      hide RoundUpPower2;
      var size := NextPower(initialSize);
      slots := new Slot<T>[size](_ => Empty);
      numEntries, numDead := 0, 0;
      new;
      AllEmpty(slots[..]);
      hide IsPow2, Entries, Tombs;
    }

    /** Whether slot s is the one a lookup of (h, item) is after. */
    static predicate Wanted(s: Slot<T>, h: int, item: T, cmp: (T, T) -> bool) {
      s.Live? && s.hash == h && cmp(s.item, item)
    }

    /** The probe loop of mzHashTableLookup: stops at a match or at the first empty slot. */
    method Probe(h: int, item: T, cmp: (T, T) -> bool) returns (i: int)
      requires Valid() && 0 <= h
      ensures 0 <= i < slots.Length
      ensures slots[i] == Empty || Wanted(slots[i], h, item, cmp)
      ensures slots[i] == Empty ==> forall q :: 0 <= q < slots.Length ==> !Wanted(slots[q], h, item, cmp)
      ensures slots[i] == Empty ==> forall q :: 0 <= q < slots.Length ==>
        Dist(Home(h, slots.Length), q, slots.Length) < Dist(Home(h, slots.Length), i, slots.Length) ==> slots[q] != Empty
    {
      ghost var s := slots[..];
      ghost var e := EmptySlot(s);
      AndMask(h, slots.Length);
      i := And(h, slots.Length - 1);
      var n := slots.Length;
      ghost var home := Home(h, n);
      assert i == home;
      hide IsPow2, And, Entries, Tombs, Home;
      while slots[i] != Empty && !Wanted(slots[i], h, item, cmp)
        invariant 0 <= i < n == slots.Length == |s| && slots[..] == s && Dist(home, i, n) <= Dist(home, e, n)
        invariant forall q :: 0 <= q < n && Dist(home, q, n) < Dist(home, i, n) ==> s[q] != Empty && !Wanted(s[q], h, item, cmp)
        decreases Dist(home, e, n) - Dist(home, i, n)
      {
        assert slots[i] == s[i];
        ProbeStep(home, i, e, n);
        i := Next(i, n);
      }
      if slots[i] == Empty {
        forall q | 0 <= q < n ensures !Wanted(slots[q], h, item, cmp) {
          assert s[q] == slots[q] && s[i] == slots[i];
          if s[q].Live? && s[q].hash == h {
            NothingBeyond(s, i, h, q);
          }
        }
      }
    }

    /** Fill the empty slot a probe ended at. */
    method Fill(i: int, h: int, item: T)
      requires Sound() && 0 <= h && 0 <= i < slots.Length && slots[i] == Empty
      requires forall q :: 0 <= q < slots.Length ==>
        Dist(Home(h, slots.Length), q, slots.Length) < Dist(Home(h, slots.Length), i, slots.Length) ==> slots[q] != Empty
      modifies this`numEntries, slots
      ensures Sound() && Contents() == old(Contents()) + multiset{(h, item)} && numEntries == old(numEntries) + 1
    {
      hide IsPow2, Table, Entries, Tombs, Home, Dist;
      ghost var s := slots[..];
      assert forall q :: 0 <= q < |s| ==> s[q] == slots[q];
      Filled(s, i, h, item);
      slots[i] := Live(h, item);
      assert slots[..] == s[i := Live(h, item)];
      numEntries := numEntries + 1;
    }

    method Grow()
      requires Sound() && numEntries < 2 * slots.Length
      modifies this
      ensures Sound() && Contents() == old(Contents()) && numEntries == old(numEntries) && numDead == 0
      ensures fresh(slots) && slots.Length == 2 * old(slots.Length)
    {
      assert IsPow2(2 * slots.Length);
      hide IsPow2, Table, Entries, Tombs;
      slots := Rehash(slots, slots.Length * 2);
      numDead := 0;
    }

    /** Add an item at the slot a probe ended at, and resize if that brings the table too close to full. */
    method Add(i: int, h: int, item: T)
      requires Valid() && 0 <= h && 0 <= i < slots.Length && slots[i] == Empty
      requires forall q :: 0 <= q < slots.Length ==>
        Dist(Home(h, slots.Length), q, slots.Length) < Dist(Home(h, slots.Length), i, slots.Length) ==> slots[q] != Empty
      modifies this, slots
      ensures Valid() && Contents() == old(Contents()) + multiset{(h, item)} && numEntries == old(numEntries) + 1
      ensures slots == old(slots) || fresh(slots)
      ensures if WithinLoad(old(numEntries) + 1 + old(numDead), old(slots.Length)) then slots == old(slots) && numDead == old(numDead)
              else slots.Length == 2 * old(slots.Length) && numDead == 0
    {
      CountersPositive();
      hide Sound, Contents, Home, Dist;
      Fill(i, h, item);
      if (numEntries + numDead) * LOAD_DENOM > slots.Length * LOAD_NUMER {
        Grow();
      }
    }

    lemma CountersPositive()
      requires Sound()
      ensures numEntries >= 0 && numDead >= 0 && slots.Length > 0
    {
      hide Entries, Tombs;
    }

    /** Some entry stored under h is equal to item. */
    static ghost predicate Stored(contents: multiset<(int, T)>, h: int, item: T, cmp: (T, T) -> bool) {
      exists x :: (h, x) in contents && cmp(x, item)
    }

    /**
     * mzHashTableLookup: the stored entry equal to item, if there is one; otherwise nothing, or item itself
     * after it has been added.
     */
    method Lookup(h: int, item: T, cmp: (T, T) -> bool, doAdd: bool) returns (r: Option<T>)
      requires Valid() && 0 <= h
      modifies this, slots
      ensures Valid() && (slots == old(slots) || fresh(slots))
      ensures Stored(old(Contents()), h, item, cmp) ==> r.Some? && (h, r.value) in old(Contents()) && cmp(r.value, item)
      ensures !Stored(old(Contents()), h, item, cmp) ==> r == if doAdd then Some(item) else None
      ensures Contents() == if !Stored(old(Contents()), h, item, cmp) && doAdd then old(Contents()) + multiset{(h, item)} else old(Contents())
      ensures WithinLoad(old(numEntries) + 1 + old(numDead), old(slots.Length)) ==> slots == old(slots) && numDead == old(numDead)
      ensures numEntries <= old(numEntries) + 1
    {
      ghost var s := slots[..];
      var i := Probe(h, item, cmp);
      assert forall q :: 0 <= q < |s| ==> s[q] == slots[q];
      assert Contents() == Entries(s);
      hide Valid, Contents, Entries;
      if slots[i] == Empty {
        NotStored(s, h, item, cmp);
        if doAdd {
          Add(i, h, item);
          r := Some(item);
        } else {
          r := None;
        }
      } else {
        EntryAt(s, i);
        assert Stored(Entries(s), h, item, cmp);
        r := Some(slots[i].item);
      }
    }

    static lemma NotStored(s: seq<Slot<T>>, h: int, item: T, cmp: (T, T) -> bool)
      requires forall q :: 0 <= q < |s| ==> !Wanted(s[q], h, item, cmp)
      ensures !Stored(Entries(s), h, item, cmp)
    {
      if x :| (h, x) in Entries(s) && cmp(x, item) {
        var p := EntryPlace(s, h, x);
      }
    }

    /** The probe loop of mzHashTableRemove: stops at the item itself or at the first empty slot. */
    method ProbeItem(h: int, item: T) returns (i: int)
      requires Valid() && 0 <= h
      ensures 0 <= i < slots.Length
      ensures slots[i] == Empty || (slots[i].Live? && slots[i].item == item)
      ensures slots[i] == Empty ==> forall q :: 0 <= q < slots.Length ==> slots[q] != Live(h, item)
    {
      ghost var s := slots[..];
      ghost var e := EmptySlot(s);
      AndMask(h, slots.Length);
      i := And(h, slots.Length - 1);
      var n := slots.Length;
      ghost var home := Home(h, n);
      assert i == home;
      hide IsPow2, And, Entries, Tombs, Home;
      while slots[i] != Empty && !(slots[i].Live? && slots[i].item == item)
        invariant 0 <= i < n == slots.Length == |s| && slots[..] == s && Dist(home, i, n) <= Dist(home, e, n)
        invariant forall q :: 0 <= q < n && Dist(home, q, n) < Dist(home, i, n) ==> s[q] != Live(h, item)
        decreases Dist(home, e, n) - Dist(home, i, n)
      {
        assert slots[i] == s[i];
        ProbeStep(home, i, e, n);
        i := Next(i, n);
      }
      if slots[i] == Empty {
        forall q | 0 <= q < n ensures slots[q] != Live(h, item) {
          assert s[q] == slots[q] && s[i] == slots[i];
          if s[q] == Live(h, item) {
            NothingBeyond(s, i, h, q);
          }
        }
      }
    }

    /**
     * mzHashTableRemove: an entry holding this very item is buried. The stored hash is not compared, so on
     * the way from the home of h the item may be met under another hash (reported as h').
     */
    method Remove(h: int, item: T) returns (ok: bool, ghost h': int)
      requires Valid() && 0 <= h
      modifies this, slots
      ensures Valid() && slots == old(slots)
      ensures ok ==> (h', item) in old(Contents()) && Contents() == old(Contents()) - multiset{(h', item)}
      ensures !ok ==> (h, item) !in old(Contents()) && Contents() == old(Contents())
    {
      ghost var s := slots[..];
      var i := ProbeItem(h, item);
      assert forall q :: 0 <= q < |s| ==> s[q] == slots[q];
      h' := h;
      if slots[i] == Empty {
        NotHeld(s, h, item);
        hide *;
        return false, h';
      }
      h' := slots[i].hash;
      hide Sound, Contents;
      Bury(i);
      ok := true;
    }

    method Bury(i: int)
      requires Sound() && 0 <= i < slots.Length && slots[i].Live?
      modifies this`numEntries, this`numDead, slots
      ensures Sound() && numEntries == old(numEntries) - 1 && numDead == old(numDead) + 1
      ensures var entry := old((slots[i].hash, slots[i].item));
              entry in old(Contents()) && Contents() == old(Contents()) - multiset{entry}
    {
      ghost var s := slots[..];
      Buried(s, i);
      hide IsPow2, Table, Entries, Tombs;
      slots[i] := Tomb;
      assert slots[..] == s[i := Tomb];
      numEntries := numEntries - 1;
      numDead := numDead + 1;
    }

    static lemma NotHeld(s: seq<Slot<T>>, h: int, item: T)
      requires forall q :: 0 <= q < |s| ==> s[q] != Live(h, item)
      ensures (h, item) !in Entries(s)
    {
      if (h, item) in Entries(s) {
        var p := EntryPlace(s, h, item);
      }
    }

    /** mzHashTableClear */
    method Clear()
      requires Valid()
      modifies this, slots
      ensures Valid() && slots == old(slots) && Contents() == multiset{} && numDead == 0
    {
      ClearSlots(slots);
      AllEmpty(slots[..]);
      hide IsPow2, Entries, Tombs;
      numEntries, numDead := 0, 0;
    }

    static method ClearSlots(slots: array<Slot<T>>)
      modifies slots
      ensures forall p :: 0 <= p < slots.Length ==> slots[p] == Empty
    {
      var i := 0;
      while i < slots.Length
        invariant 0 <= i <= slots.Length && forall p :: 0 <= p < i ==> slots[p] == Empty
      {
        slots[i] := Empty;
        i := i + 1;
      }
    }

    /** mzHashIterNext: the next live slot after idx, or the end of the table. */
    method IterNext(idx: int) returns (next: int)
      requires -1 <= idx < slots.Length
      ensures idx < next <= slots.Length
      ensures forall p :: idx < p < next ==> !slots[p].Live?
      ensures next < slots.Length ==> slots[next].Live?
    {
      next := idx + 1;
      while next < slots.Length && !slots[next].Live?
        invariant idx < next <= slots.Length && forall p :: idx < p < next ==> !slots[p].Live?
      {
        next := next + 1;
      }
    }

    /** The loop the iterator is made for. It meets every live slot once, in order, and so the table's contents. */
    method Iterate() returns (items: seq<T>, ghost hashes: seq<int>)
      requires Valid()
      ensures |items| == |hashes| == numEntries
      ensures Pairs(hashes, items) == Contents()
    {
      ghost var s := slots[..];
      items, hashes := [], [];
      var idx := IterNext(-1);
      IterStart(s, idx);
      assert slots.Length > 0 && numEntries == |Entries(s)|;
      hide Valid, Entries, Pairs;
      while idx < slots.Length
        invariant 0 <= idx <= slots.Length == |s| && (idx < |s| ==> s[idx].Live?)
        invariant |items| == |hashes| && Pairs(hashes, items) == Entries(s[..idx])
        decreases slots.Length - idx
      {
        var next := IterNext(idx);
        IterStep(s, idx, next, hashes, items);
        items, hashes := items + [slots[idx].item], hashes + [s[idx].hash];
        idx := next;
      }
      assert s[..|s|] == s;
      PairsSize(hashes, items);
    }

    static lemma IterStart(s: seq<Slot<T>>, idx: int)
      requires 0 <= idx <= |s| && forall p :: 0 <= p < idx ==> !s[p].Live?
      ensures Pairs([], []) == Entries(s[..idx])
    {
      assert s[..0] == [];
      NoneLive(s, 0, idx);
    }

    static lemma IterStep(s: seq<Slot<T>>, idx: int, next: int, hs: seq<int>, xs: seq<T>)
      requires 0 <= idx < next <= |s| && s[idx].Live? && forall p :: idx < p < next ==> !s[p].Live?
      requires |hs| == |xs| && Pairs(hs, xs) == Entries(s[..idx])
      ensures Pairs(hs + [s[idx].hash], xs + [s[idx].item]) == Entries(s[..next])
    {
      hide Pairs, Entries;
      EntriesSnoc(s, idx);
      PairsSnoc(hs, xs, s[idx].hash, s[idx].item);
      NoneLive(s, idx + 1, next);
    }

    static ghost function Pairs(hs: seq<int>, xs: seq<T>): multiset<(int, T)>
      requires |hs| == |xs|
    {
      if hs == [] then multiset{} else Pairs(hs[..|hs| - 1], xs[..|xs| - 1]) + multiset{(hs[|hs| - 1], xs[|xs| - 1])}
    }

    static lemma PairsSnoc(hs: seq<int>, xs: seq<T>, h: int, x: T)
      requires |hs| == |xs|
      ensures Pairs(hs + [h], xs + [x]) == Pairs(hs, xs) + multiset{(h, x)}
    {
      assert (hs + [h])[..|hs|] == hs && (xs + [x])[..|xs|] == xs;
    }

    static lemma {:induction false} PairsSize(hs: seq<int>, xs: seq<T>)
      requires |hs| == |xs|
      ensures |Pairs(hs, xs)| == |hs|
    {
      if hs != [] {
        PairsSize(hs[..|hs| - 1], xs[..|xs| - 1]);
      }
    }

    static lemma {:induction false} NoneLive(s: seq<Slot<T>>, i: int, j: int)
      requires 0 <= i <= j <= |s| && forall p :: i <= p < j ==> !s[p].Live?
      ensures Entries(s[..j]) == Entries(s[..i])
      decreases j
    {
      if i < j {
        NoneLive(s, i, j - 1);
        EntriesSnoc(s, j - 1);
      }
    }
  }
}
