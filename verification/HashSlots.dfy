/** Open addressing with tombstones, as sequences of slots: minzip/Hash.c. */
module HashSlots {

  datatype Slot<T> = Empty | Tomb | Live(hash: int, item: T)

  /** The slot a probe for hash h begins at, in a table of n slots. */
  function Home(h: int, n: int): (p: int)
    requires 0 <= h && 0 < n
    ensures 0 <= p < n
  {
    h % n
  }

  /** How many steps a probe makes from slot a to slot p, wrapping around. */
  function Dist(a: int, p: int, n: int): int {
    if p >= a then p - a else p - a + n
  }

  /** The next slot of a probe. */
  function Next(p: int, n: int): int {
    if p + 1 == n then 0 else p + 1
  }

  ghost predicate Hashed<T>(s: seq<Slot<T>>) {
    forall p :: 0 <= p < |s| && s[p].Live? ==> 0 <= s[p].hash
  }

  /** No probe chain is broken: between the home of a live item and its slot no slot is empty. */
  ghost predicate Chained<T>(s: seq<Slot<T>>)
    requires Hashed(s) && 0 < |s|
  {
    forall p, q :: 0 <= p < |s| && 0 <= q < |s| && s[p].Live? ==>
      Dist(Home(s[p].hash, |s|), q, |s|) < Dist(Home(s[p].hash, |s|), p, |s|) ==> s[q] != Empty
  }

  ghost function Entry<T>(x: Slot<T>): multiset<(int, T)> {
    if x.Live? then multiset{(x.hash, x.item)} else multiset{}
  }

  /** The live entries of a table, with their stored hash values. */
  ghost function Entries<T>(s: seq<Slot<T>>): multiset<(int, T)> {
    if s == [] then multiset{} else Entries(s[..|s| - 1]) + Entry(s[|s| - 1])
  }

  ghost function Tombs<T>(s: seq<Slot<T>>): nat {
    if s == [] then 0 else Tombs(s[..|s| - 1]) + if s[|s| - 1] == Tomb then 1 else 0
  }

  lemma Shuffle<X>(a: multiset<X>, b: multiset<X>, e: multiset<X>, f: multiset<X>, l: multiset<X>)
    requires a + e == b + f
    ensures a + l + e == b + l + f
  {
    assert a + l + e == (a + e) + l;
    assert b + l + f == (b + f) + l;
  }

  lemma {:induction false} EntriesUpdate<T>(s: seq<Slot<T>>, i: int, v: Slot<T>)
    requires 0 <= i < |s|
    ensures Entries(s[i := v]) + Entry(s[i]) == Entries(s) + Entry(v)
  {
    hide Entry;
    var last := |s| - 1;
    if i == last {
      assert s[i := v][..last] == s[..last];
      assert Entries(s[i := v]) == Entries(s[..last]) + Entry(v);
      assert Entries(s[..last]) + Entry(v) + Entry(s[i]) == Entries(s[..last]) + Entry(s[i]) + Entry(v);
    } else {
      EntriesUpdate(s[..last], i, v);
      assert s[i := v][..last] == s[..last][i := v];
      Shuffle(Entries(s[..last][i := v]), Entries(s[..last]), Entry(s[i]), Entry(v), Entry(s[last]));
    }
  }

  lemma {:induction false} TombsUpdate<T>(s: seq<Slot<T>>, i: int, v: Slot<T>)
    requires 0 <= i < |s|
    ensures Tombs(s[i := v]) + (if s[i] == Tomb then 1 else 0) == Tombs(s) + (if v == Tomb then 1 else 0)
  {
    var last := |s| - 1;
    if i == last {
      assert s[i := v][..last] == s[..last];
    } else {
      TombsUpdate(s[..last], i, v);
      assert s[i := v][..last] == s[..last][i := v];
    }
  }

  lemma {:induction false} EntryAt<T>(s: seq<Slot<T>>, p: int)
    requires 0 <= p < |s| && s[p].Live?
    ensures (s[p].hash, s[p].item) in Entries(s)
  {
    if p < |s| - 1 {
      EntryAt(s[..|s| - 1], p);
    }
  }

  lemma {:induction false} EntryPlace<T>(s: seq<Slot<T>>, h: int, x: T) returns (p: int)
    requires (h, x) in Entries(s)
    ensures 0 <= p < |s| && s[p] == Live(h, x)
  {
    if s[|s| - 1] == Live(h, x) {
      p := |s| - 1;
    } else {
      assert Entry(s[|s| - 1])[(h, x)] == 0;
      p := EntryPlace(s[..|s| - 1], h, x);
    }
  }

  /** A table not full has an empty slot. */
  lemma {:induction false} EmptySlot<T>(s: seq<Slot<T>>) returns (e: int)
    requires |Entries(s)| + Tombs(s) < |s|
    ensures 0 <= e < |s| && s[e] == Empty
  {
    if s[|s| - 1] == Empty {
      e := |s| - 1;
    } else {
      e := EmptySlot(s[..|s| - 1]);
    }
  }

  lemma {:induction false} AllEmpty<T>(s: seq<Slot<T>>)
    requires forall p :: 0 <= p < |s| ==> s[p] == Empty
    ensures Entries(s) == multiset{} && Tombs(s) == 0
  {
    if s != [] {
      AllEmpty(s[..|s| - 1]);
    }
  }

  /** Filling an empty slot whose whole chain is occupied keeps every chain. */
  lemma FillKeepsChains<T>(s: seq<Slot<T>>, i: int, h: int, x: T)
    requires 0 < |s| && Hashed(s) && Chained(s) && 0 <= h && 0 <= i < |s| && s[i] == Empty
    requires forall q :: 0 <= q < |s| && Dist(Home(h, |s|), q, |s|) < Dist(Home(h, |s|), i, |s|) ==> s[q] != Empty
    ensures Hashed(s[i := Live(h, x)]) && Chained(s[i := Live(h, x)])
  {
    hide Home, Dist;
  }

  /** A tombstone keeps every chain, where an empty slot would break some. */
  lemma TombKeepsChains<T>(s: seq<Slot<T>>, i: int)
    requires 0 < |s| && Hashed(s) && Chained(s) && 0 <= i < |s| && s[i].Live?
    ensures Hashed(s[i := Tomb]) && Chained(s[i := Tomb])
  {
    hide Home, Dist;
  }

  /** Once a probe for h has met an empty slot at i, no entry with hash h lies beyond it. */
  lemma NothingBeyond<T>(s: seq<Slot<T>>, i: int, h: int, p: int)
    requires 0 < |s| && Hashed(s) && Chained(s) && 0 <= h && 0 <= i < |s| && s[i] == Empty
    requires 0 <= p < |s| && s[p].Live? && s[p].hash == h
    ensures Dist(Home(h, |s|), p, |s|) < Dist(Home(h, |s|), i, |s|)
  {
    hide Home;
  }

  /** A probe advances by one step and leaves exactly the slot it was at behind. */
  lemma ProbeStep(a: int, p: int, e: int, n: int)
    requires 0 <= a < n && 0 <= p < n && 0 <= e < n && p != e && Dist(a, p, n) <= Dist(a, e, n)
    ensures 0 <= Next(p, n) < n && Dist(a, Next(p, n), n) == Dist(a, p, n) + 1 <= Dist(a, e, n)
    ensures forall q :: 0 <= q < n ==> (Dist(a, q, n) < Dist(a, p, n) + 1 <==> Dist(a, q, n) < Dist(a, p, n) || q == p)
  {
  }

  lemma {:induction false} EntriesPrefix<T>(s: seq<Slot<T>>, i: int)
    requires 0 <= i <= |s|
    ensures Entries(s[..i]) <= Entries(s) && |Entries(s[..i])| <= |Entries(s)|
    decreases |s|
  {
    if i < |s| {
      EntriesPrefix(s[..|s| - 1], i);
      assert s[..|s| - 1][..i] == s[..i];
    } else {
      assert s[..i] == s;
    }
  }

  lemma EntriesSnoc<T>(s: seq<Slot<T>>, i: int)
    requires 0 <= i < |s|
    ensures Entries(s[..i + 1]) == Entries(s[..i]) + Entry(s[i])
  {
    assert s[..i + 1][..i] == s[..i];
  }

  /** A table as the operations keep it, without regard to its load. */
  ghost predicate Table<T>(s: seq<Slot<T>>) {
    0 < |s| && Hashed(s) && Chained(s)
  }

  /** What filling the empty slot that ends a probe for h does to a table. */
  lemma Filled<T>(s: seq<Slot<T>>, i: int, h: int, x: T)
    requires Table(s) && 0 <= h && 0 <= i < |s| && s[i] == Empty
    requires forall q :: 0 <= q < |s| && Dist(Home(h, |s|), q, |s|) < Dist(Home(h, |s|), i, |s|) ==> s[q] != Empty
    ensures Table(s[i := Live(h, x)])
    ensures Entries(s[i := Live(h, x)]) == Entries(s) + multiset{(h, x)} && Tombs(s[i := Live(h, x)]) == Tombs(s)
  {
    FillKeepsChains(s, i, h, x);
    EntriesUpdate(s, i, Live(h, x));
    TombsUpdate(s, i, Live(h, x));
    hide Chained, Hashed, Entries, Tombs;
    assert Entry(s[i]) == multiset{};
  }

  /** What burying a live slot does to a table. */
  lemma Buried<T>(s: seq<Slot<T>>, i: int)
    requires Table(s) && 0 <= i < |s| && s[i].Live?
    ensures Table(s[i := Tomb]) && Tombs(s[i := Tomb]) == Tombs(s) + 1
    ensures (s[i].hash, s[i].item) in Entries(s) && Entries(s[i := Tomb]) == Entries(s) - multiset{(s[i].hash, s[i].item)}
    ensures |Entries(s[i := Tomb])| == |Entries(s)| - 1
  {
    TombKeepsChains(s, i);
    EntriesUpdate(s, i, Tomb);
    TombsUpdate(s, i, Tomb);
    EntryAt(s, i);
    hide Chained, Hashed, Entries, Tombs;
    var b := multiset{(s[i].hash, s[i].item)};
    assert Entries(s[i := Tomb]) + b == Entries(s) + multiset{};
    assert Entries(s[i := Tomb]) == (Entries(s[i := Tomb]) + b) - b;
  }
}
