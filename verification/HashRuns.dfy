/** Whole runs of the hash table of minzip/Hash.c against a plain finite set. */
module HashRuns {
  import opened Bytes
  import Bits
  import opened HashSlots
  import opened MzHash

  datatype Op<T> = LookUp(item: T, doAdd: bool) | Remove(item: T) | Clear
  datatype Answer<T> = Found(item: Option<T>) | Removed(ok: bool) | Cleared

  /** How the caller hashes and compares: an equivalence, with equal items hashing alike. */
  ghost predicate Agreeing<T(!new)>(hash: T -> int, eq: (T, T) -> bool) {
    && (forall x :: 0 <= hash(x)) && (forall x :: eq(x, x))
    && (forall x, y :: eq(x, y) ==> eq(y, x) && hash(x) == hash(y))
    && (forall x, y, z :: eq(x, y) && eq(y, z) ==> eq(x, z))
  }

  ghost predicate Has<T>(S: set<T>, item: T, eq: (T, T) -> bool) {
    exists x :: x in S && eq(x, item)
  }

  /** No two members are equal. */
  ghost predicate Distinct<T>(S: set<T>, eq: (T, T) -> bool) {
    forall x, y :: x in S && y in S && eq(x, y) ==> x == y
  }

  /** What a finite set kept free of equal members would do. */
  ghost predicate Allowed<T>(S: set<T>, op: Op<T>, a: Answer<T>, S': set<T>, eq: (T, T) -> bool) {
    match op
    case LookUp(item, doAdd) =>
      if Has(S, item, eq) then a.Found? && a.item.Some? && a.item.value in S && eq(a.item.value, item) && S' == S
      else if doAdd then a == Found(Some(item)) && S' == S + {item}
      else a == Found(None) && S' == S
    case Remove(item) => a == Removed(item in S) && S' == S - {item}
    case Clear => a == Cleared && S' == {}
  }

  /** The table holds exactly the members of S, each once, under its own hash. */
  ghost predicate Represents<T(!new)>(contents: multiset<(int, T)>, S: set<T>, hash: T -> int, eq: (T, T) -> bool) {
    && Distinct(S, eq)
    && forall h, x :: contents[(h, x)] == if x in S && h == hash(x) then 1 else 0
  }

  lemma StoredIsHas<T(!new)>(contents: multiset<(int, T)>, S: set<T>, hash: T -> int, eq: (T, T) -> bool, item: T)
    requires Represents(contents, S, hash, eq) && Agreeing(hash, eq)
    ensures HashTable.Stored(contents, hash(item), item, eq) <==> Has(S, item, eq)
  {
    if HashTable.Stored(contents, hash(item), item, eq) {
      var x :| (hash(item), x) in contents && eq(x, item);
      assert x in S;
    }
    if x :| x in S && eq(x, item) {
      assert (hash(item), x) in contents;
    }
  }

  lemma AddRepresents<T(!new)>(contents: multiset<(int, T)>, S: set<T>, hash: T -> int, eq: (T, T) -> bool, item: T)
    requires Represents(contents, S, hash, eq) && Agreeing(hash, eq) && !Has(S, item, eq)
    ensures Represents(contents + multiset{(hash(item), item)}, S + {item}, hash, eq)
  {
    assert item !in S;
  }

  lemma RemoveRepresents<T(!new)>(contents: multiset<(int, T)>, S: set<T>, hash: T -> int, eq: (T, T) -> bool, h: int, item: T)
    requires Represents(contents, S, hash, eq) && (h, item) in contents
    ensures item in S && Represents(contents - multiset{(h, item)}, S - {item}, hash, eq)
  {
  }

  /** One operation on a table that represents S. */
  method Step<T(==,!new)>(t: HashTable<T>, op: Op<T>, hash: T -> int, eq: (T, T) -> bool, ghost S: set<T>)
    returns (a: Answer<T>, ghost S': set<T>)
    requires t.Valid() && Agreeing(hash, eq) && Represents(t.Contents(), S, hash, eq)
    modifies t, t.slots
    ensures t.Valid() && (t.slots == old(t.slots) || fresh(t.slots))
    ensures Represents(t.Contents(), S', hash, eq) && Allowed(S, op, a, S', eq)
  {
    ghost var contents := t.Contents();
    S' := S;
    match op {
      case LookUp(item, doAdd) =>
        StoredIsHas(contents, S, hash, eq, item);
        assert 0 <= hash(item);
        var r := t.Lookup(hash(item), item, eq, doAdd);
        a := Found(r);
        if Has(S, item, eq) {
          assert (hash(item), r.value) in contents;
        } else if doAdd {
          AddRepresents(contents, S, hash, eq, item);
          S' := S + {item};
        }
      case Remove(item) =>
        assert 0 <= hash(item);
        var ok, h' := t.Remove(hash(item), item);
        a := Removed(ok);
        if ok {
          RemoveRepresents(contents, S, hash, eq, h', item);
          S' := S - {item};
        } else {
          assert contents[(hash(item), item)] == 0;
          assert S - {item} == S;
        }
      case Clear =>
        t.Clear();
        a := Cleared;
        S' := {};
    }
  }

  /** A run of a finite set, from the empty one, that gives these answers; it never holds two equal members. */
  ghost predicate SetRun<T>(states: seq<set<T>>, ops: seq<Op<T>>, answers: seq<Answer<T>>, eq: (T, T) -> bool) {
    && |answers| <= |ops| && |states| == |answers| + 1 && states[0] == {}
    && (forall i :: 0 <= i < |answers| ==> Allowed(states[i], ops[i], answers[i], states[i + 1], eq))
    && (forall i :: 0 <= i < |states| ==> Distinct(states[i], eq))
  }

  lemma SetRunStep<T>(states: seq<set<T>>, ops: seq<Op<T>>, answers: seq<Answer<T>>, eq: (T, T) -> bool, a: Answer<T>, S: set<T>)
    requires SetRun(states, ops, answers, eq) && |answers| < |ops| && Distinct(S, eq)
    requires Allowed(states[|answers|], ops[|answers|], a, S, eq)
    ensures SetRun(states + [S], ops, answers + [a], eq)
  {
    hide Allowed, Distinct;
  }

  /** Any sequence of operations on a fresh table answers as a finite set would. */
  method Run<T(==,!new)>(initialSize: int, ops: seq<Op<T>>, hash: T -> int, eq: (T, T) -> bool)
    returns (answers: seq<Answer<T>>, ghost states: seq<set<T>>)
    requires 0 < initialSize <= 0x8000_0000 && Agreeing(hash, eq)
    ensures |answers| == |ops| && SetRun(states, ops, answers, eq)
  {
    var t := new HashTable<T>(initialSize);
    answers := [];
    ghost var S: set<T> := {};
    states := [S];
    assert Represents(t.Contents(), S, hash, eq) && SetRun(states, ops, answers, eq);
    hide *;
    var i := 0;
    while i < |ops|
      invariant 0 <= i <= |ops| && |answers| == i && |states| == i + 1 && S == states[i]
      invariant t.Valid() && Represents(t.Contents(), S, hash, eq) && fresh(t) && fresh(t.slots)
      invariant SetRun(states, ops, answers, eq)
    {
      var a, S' := Step(t, ops[i], hash, eq, S);
      RepresentsDistinct(t.Contents(), S', hash, eq);
      SetRunStep(states, ops, answers, eq, a, S');
      answers, states, S := answers + [a], states + [S'], S';
      i := i + 1;
    }
  }

  lemma RepresentsDistinct<T(!new)>(contents: multiset<(int, T)>, S: set<T>, hash: T -> int, eq: (T, T) -> bool)
    requires Represents(contents, S, hash, eq)
    ensures Distinct(S, eq)
  {
  }

  /** What a table holds after an item was added to it, unless an equal one was there. */
  ghost function WithItem<T(!new)>(contents: multiset<(int, T)>, item: T, hash: T -> int, eq: (T, T) -> bool): multiset<(int, T)> {
    if HashTable.Stored(contents, hash(item), item, eq) then contents else contents + multiset{(hash(item), item)}
  }

  ghost function WithAll<T(!new)>(contents: multiset<(int, T)>, items: seq<T>, hash: T -> int, eq: (T, T) -> bool): multiset<(int, T)>
    decreases |items|
  {
    if items == [] then contents else WithItem(WithAll(contents, items[..|items| - 1], hash, eq), items[|items| - 1], hash, eq)
  }

  lemma WithAllNone<T(!new)>(contents: multiset<(int, T)>, items: seq<T>, hash: T -> int, eq: (T, T) -> bool)
    ensures WithAll(contents, items[..0], hash, eq) == contents
  {
  }

  lemma WithAllMore<T(!new)>(contents: multiset<(int, T)>, items: seq<T>, i: nat, hash: T -> int, eq: (T, T) -> bool)
    requires i < |items|
    ensures WithAll(contents, items[..i + 1], hash, eq) == WithItem(WithAll(contents, items[..i], hash, eq), items[i], hash, eq)
  {
    assert items[..i + 1][..i] == items[..i];
  }

  /** Every item added has an equal one in the table, and nothing is in it that was not there or added. */
  lemma {:induction false} WithAllHolds<T(!new)>(contents: multiset<(int, T)>, items: seq<T>, hash: T -> int, eq: (T, T) -> bool, item: T)
    requires forall x :: eq(x, x)
    ensures item in items ==> HashTable.Stored(WithAll(contents, items, hash, eq), hash(item), item, eq)
    ensures HashTable.Stored(contents, hash(item), item, eq) ==> HashTable.Stored(WithAll(contents, items, hash, eq), hash(item), item, eq)
    ensures forall h, x :: (h, x) in WithAll(contents, items, hash, eq) ==> (h, x) in contents || (h == hash(x) && x in items)
    decreases |items|
  {
    if items != [] {
      var n := |items| - 1;
      var before := WithAll(contents, items[..n], hash, eq);
      WithAllHolds(contents, items[..n], hash, eq, item);
      if HashTable.Stored(before, hash(item), item, eq) {
        var x :| (hash(item), x) in before && eq(x, item);
        assert (hash(item), x) in WithItem(before, items[n], hash, eq);
      } else if item == items[n] {
        assert (hash(item), item) in WithItem(before, items[n], hash, eq) && eq(item, item);
      }
    }
  }

  /**
   * Adding to a table that was made for n items, or more, and holds so few that the new ones bring it to n at most: all of
   * them are added, and the storage is the array it was, after each addition.
   */
  method AddAll<T(==,!new)>(t: HashTable<T>, items: seq<T>, hash: T -> int, eq: (T, T) -> bool, ghost n: nat)
    returns (ghost storage: seq<array<Slot<T>>>)
    requires t.Valid() && t.numDead == 0 && t.numEntries + |items| <= n && HashSize(n) <= t.slots.Length && forall x :: 0 <= hash(x)
    modifies t, t.slots
    ensures t.Valid() && t.numDead == 0 && t.numEntries <= old(t.numEntries) + |items|
    ensures t.Contents() == WithAll(old(t.Contents()), items, hash, eq)
    ensures t.slots == old(t.slots) && |storage| == |items| + 1 && forall k :: 0 <= k < |storage| ==> storage[k] == old(t.slots)
  {
    hide WithAll, HashTable.Valid, HashTable.Contents;
    ghost var contents := t.Contents();
    WithAllNone(contents, items, hash, eq);
    storage := [t.slots];
    var i := 0;
    while i < |items|
      invariant 0 <= i <= |items| && t.Valid() && t.slots == old(t.slots) && t.numDead == 0 && t.numEntries <= old(t.numEntries) + i
      invariant t.Contents() == WithAll(contents, items[..i], hash, eq)
      invariant |storage| == i + 1 && forall k :: 0 <= k < |storage| ==> storage[k] == old(t.slots)
    {
      HashSizeSuffices(n, t.numEntries + 1, t.slots.Length);
      WithAllMore(contents, items, i, hash, eq);
      var r := t.Lookup(hash(items[i]), items[i], eq, true);
      storage := storage + [t.slots];
      i := i + 1;
    }
    assert items[..i] == items;
  }

  /** A table created for n items is never reallocated during its first n additions, and then holds them. */
  method FirstAdditions<T(==,!new)>(items: seq<T>, hash: T -> int, eq: (T, T) -> bool) returns (t: HashTable<T>)
    requires 0 < |items| && HashSize(|items|) <= 0x8000_0000 && forall x :: 0 <= hash(x)
    ensures t.Valid() && t.slots.Length == Bits.RoundUpPower2(HashSize(|items|)) && t.numDead == 0
    ensures t.Contents() == WithAll(multiset{}, items, hash, eq)
  {
    assert HashSize(|items|) > 0;
    hide *;
    t := new HashTable<T>(HashSize(|items|));
    ghost var storage := AddAll(t, items, hash, eq, |items|);
  }
}
