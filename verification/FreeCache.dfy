/** Making room on /cache: applypatch/freecache.c. */
module FreeCache {
  import opened Bytes
  import opened Paths
  import opened CrashModel
  import opened CrashSafety

  /** What a directory lists: a name, and whether it is a regular file. */
  datatype Item = Item(name: string, regular: bool)

  /** The paths of a directory that may be deleted as far as their kind goes, in the order listed. */
  function Regular(dir: string, items: seq<Item>): seq<string> {
    if items == [] then []
    else
      (if items[0].regular && dir + items[0].name != CACHE_TEMP_SOURCE then [dir + items[0].name] else []) +
      Regular(dir, items[1..])
  }

  /** Those of the paths that nothing has open. */
  function Unopened(paths: seq<string>, open: set<string>): seq<string> {
    if paths == [] then []
    else (if paths[0] in open then [] else [paths[0]]) + Unopened(paths[1..], open)
  }

  /** The paths that are left of an array in which some were struck out. */
  function Left(names: seq<Option<string>>): seq<string> {
    if names == [] then [] else (if names[0].Some? then [names[0].value] else []) + Left(names[1..])
  }

  /** A directory that cannot be opened lists nothing. */
  function Listing(items: Option<seq<Item>>): seq<Item> { if items.Some? then items.value else [] }

  /** What may be deleted, in the order in which it would be. */
  function Candidates(cache: Option<seq<Item>>, otatest: Option<seq<Item>>, open: set<string>): seq<string> {
    Unopened(Regular(CACHE_DIR, Listing(cache)) + Regular(OTATEST_DIR, Listing(otatest)), open)
  }

  // ----- What is to be deleted, said without the order of the work -----

  /** Something a directory lists, by its path. */
  datatype Thing = Thing(path: string, regular: bool)

  function Found(dir: string, items: seq<Item>): seq<Thing> {
    seq(|items|, k requires 0 <= k < |items| => Thing(dir + items[k].name, items[k].regular))
  }

  /** Everything the two directories list, /cache first. */
  function Things(cache: Option<seq<Item>>, otatest: Option<seq<Item>>): seq<Thing> {
    Found(CACHE_DIR, Listing(cache)) + Found(OTATEST_DIR, Listing(otatest))
  }

  /** A regular file that is neither open nor the saved copy. */
  predicate Deletable(t: Thing, open: set<string>) { t.regular && t.path != CACHE_TEMP_SOURCE && t.path !in open }

  /** The j-th path is that of a deletable thing, which stands at k. */
  ghost predicate Picks(things: seq<Thing>, open: set<string>, path: string, k: int) {
    0 <= k < |things| && Deletable(things[k], open) && path == things[k].path
  }

  ghost predicate Ascending(at: seq<int>) { forall i, j :: 0 <= i < j < |at| ==> at[i] < at[j] }

  ghost predicate Complete(things: seq<Thing>, open: set<string>, at: seq<int>) {
    forall k :: 0 <= k < |things| && Deletable(things[k], open) ==> k in at
  }

  /** The paths are those of the deletable things, which stand at these places: all of them, in the order listed. */
  ghost predicate Chosen(things: seq<Thing>, open: set<string>, paths: seq<string>, at: seq<int>) {
    |at| == |paths| && Ascending(at) && Complete(things, open, at) && forall j :: 0 <= j < |at| ==> Picks(things, open, paths[j], at[j])
  }

  function Kept(things: seq<Thing>, open: set<string>): seq<string> {
    if things == [] then []
    else
      var n := |things| - 1;
      Kept(things[..n], open) + if Deletable(things[n], open) then [things[n].path] else []
  }

  lemma {:induction false} KeptChosen(things: seq<Thing>, open: set<string>) returns (at: seq<int>)
    ensures Chosen(things, open, Kept(things, open), at)
    decreases |things|
  {
    if things == [] {
      at := [];
    } else {
      var n := |things| - 1;
      var before := KeptChosen(things[..n], open);
      var paths := Kept(things[..n], open);
      hide Kept;
      at := before + if Deletable(things[n], open) then [n] else [];
      assert Kept(things, open) == paths + if Deletable(things[n], open) then [things[n].path] else [] by { KeptLast(things, open); }
      PicksMore(things, open, paths, before);
      hide Picks, Deletable;
      assert Complete(things, open, at) by { CompleteMore(things, open, before); }
    }
  }

  lemma KeptLast(things: seq<Thing>, open: set<string>)
    requires things != []
    ensures var n := |things| - 1; Kept(things, open) == Kept(things[..n], open) + if Deletable(things[n], open) then [things[n].path] else []
  {
  }

  lemma PicksMore(things: seq<Thing>, open: set<string>, paths: seq<string>, at: seq<int>)
    requires things != [] && Chosen(things[..|things| - 1], open, paths, at)
    ensures forall j :: 0 <= j < |at| ==> Picks(things, open, paths[j], at[j]) && at[j] < |things| - 1
  {
    forall j | 0 <= j < |at|
      ensures Picks(things, open, paths[j], at[j]) && at[j] < |things| - 1
    {
      assert Picks(things[..|things| - 1], open, paths[j], at[j]);
    }
  }

  lemma CompleteMore(things: seq<Thing>, open: set<string>, at: seq<int>)
    requires things != [] && Complete(things[..|things| - 1], open, at)
    ensures Complete(things, open, at + if Deletable(things[|things| - 1], open) then [|things| - 1] else [])
  {
    var n := |things| - 1;
    var more := at + if Deletable(things[n], open) then [n] else [];
    forall k | 0 <= k < |things| && Deletable(things[k], open)
      ensures k in more
    {
      if k < n {
        assert things[..n][k] == things[k];
        assert k in at;
      } else {
        assert more[|at|] == n;
      }
    }
  }

  lemma {:induction false} KeptJoin(a: seq<Thing>, b: seq<Thing>, open: set<string>)
    ensures Kept(a + b, open) == Kept(a, open) + Kept(b, open)
    decreases |b|
  {
    if b == [] {
      assert a + b == a;
    } else {
      assert (a + b)[..|a + b| - 1] == a + b[..|b| - 1];
      KeptJoin(a, b[..|b| - 1], open);
    }
  }

  lemma {:induction false} UnopenedJoin(a: seq<string>, b: seq<string>, open: set<string>)
    ensures Unopened(a + b, open) == Unopened(a, open) + Unopened(b, open)
  {
    if a == [] {
      assert a + b == b;
    } else {
      assert (a + b)[1..] == a[1..] + b;
      UnopenedJoin(a[1..], b, open);
    }
  }

  lemma {:induction false} KeptRegular(dir: string, items: seq<Item>, open: set<string>)
    ensures Kept(Found(dir, items), open) == Unopened(Regular(dir, items), open)
    decreases |items|
  {
    if items != [] {
      var n := |items| - 1;
      assert Found(dir, items)[..n] == Found(dir, items[..n]) && items[..n + 1] == items;
      KeptRegular(dir, items[..n], open);
      RegularMore(dir, items, n);
      var last := if items[n].regular && dir + items[n].name != CACHE_TEMP_SOURCE then [dir + items[n].name] else [];
      UnopenedJoin(Regular(dir, items[..n]), last, open);
    }
  }

  lemma AllChosen(things: seq<Thing>, open: set<string>, paths: seq<string>, at: seq<int>)
    requires Chosen(things, open, paths, at)
    ensures forall k :: 0 <= k < |things| && Deletable(things[k], open) ==> things[k].path in paths
  {
    forall k | 0 <= k < |things| && Deletable(things[k], open)
      ensures things[k].path in paths
    {
      var j :| 0 <= j < |at| && at[j] == k;
      assert Picks(things, open, paths[j], at[j]);
    }
  }

  /** The candidates are exactly the deletable things, in the order listed. */
  lemma CandidatesChosen(cache: Option<seq<Item>>, otatest: Option<seq<Item>>, open: set<string>) returns (at: seq<int>)
    ensures Chosen(Things(cache, otatest), open, Candidates(cache, otatest, open), at)
  {
    hide Chosen, Kept, Unopened, Regular, Found;
    at := KeptChosen(Things(cache, otatest), open);
    KeptJoin(Found(CACHE_DIR, Listing(cache)), Found(OTATEST_DIR, Listing(otatest)), open);
    UnopenedJoin(Regular(CACHE_DIR, Listing(cache)), Regular(OTATEST_DIR, Listing(otatest)), open);
    KeptRegular(CACHE_DIR, Listing(cache), open);
    KeptRegular(OTATEST_DIR, Listing(otatest), open);
  }

  // ----- The loops -----

  lemma {:induction false} RegularMore(dir: string, items: seq<Item>, k: nat)
    requires k < |items|
    ensures Regular(dir, items[..k + 1]) == Regular(dir, items[..k]) +
      if items[k].regular && dir + items[k].name != CACHE_TEMP_SOURCE then [dir + items[k].name] else []
    decreases k
  {
    var s := items[..k + 1];
    if k > 0 {
      RegularMore(dir, items[1..], k - 1);
      assert s[1..] == items[1..][..k] && items[..k][1..] == items[1..][..k - 1] && items[..k][0] == items[0];
    } else {
      assert s[1..] == [];
    }
  }

  /** The reading of one directory in FindExpendableFiles. */
  method ReadDirectory(dir: string, items: seq<Item>, names: seq<string>) returns (all: seq<string>)
    ensures all == names + Regular(dir, items)
  {
    all := names;
    var k := 0;
    while k < |items|
      invariant 0 <= k <= |items| && all == names + Regular(dir, items[..k])
    {
      RegularMore(dir, items, k);
      var path := dir + items[k].name;
      if path != CACHE_TEMP_SOURCE && items[k].regular {
        all := all + [path];
      }
      k := k + 1;
    }
    assert items[..k] == items;
  }

  /** EliminateOpenFiles strikes out what is open. */
  method EliminateOpenFiles(names: seq<string>, open: set<string>) returns (left: seq<Option<string>>)
    ensures |left| == |names| && forall k :: 0 <= k < |names| ==> left[k] == if names[k] in open then None else Some(names[k])
  {
    left := [];
    while |left| < |names|
      invariant |left| <= |names| && forall k :: 0 <= k < |left| ==> left[k] == if names[k] in open then None else Some(names[k])
    {
      left := left + [if names[|left|] in open then None else Some(names[|left|])];
    }
  }

  lemma {:induction false} LeftIsUnopened(names: seq<string>, left: seq<Option<string>>, open: set<string>)
    requires |left| == |names| && forall k :: 0 <= k < |names| ==> left[k] == if names[k] in open then None else Some(names[k])
    ensures Left(left) == Unopened(names, open)
  {
    if names != [] {
      LeftIsUnopened(names[1..], left[1..], open);
    }
  }

  lemma {:induction false} LeftMore(names: seq<Option<string>>, k: nat)
    requires k < |names|
    ensures Left(names[..k + 1]) == Left(names[..k]) + if names[k].Some? then [names[k].value] else []
    decreases k
  {
    var s := names[..k + 1];
    if k > 0 {
      LeftMore(names[1..], k - 1);
      assert s[1..] == names[1..][..k] && names[..k][1..] == names[1..][..k - 1] && names[..k][0] == names[0];
    } else {
      assert s[1..] == [];
    }
  }

  lemma {:induction false} LeftSplit(names: seq<Option<string>>, k: nat)
    requires k <= |names|
    ensures Left(names) == Left(names[..k]) + Left(names[k..])
    decreases |names| - k
  {
    if k == |names| {
      assert names[..k] == names && Left(names[k..]) == [];
    } else {
      LeftSplit(names, k + 1);
      LeftMore(names, k);
      assert names[k..][1..] == names[k + 1..];
      Reappend(Left(names[..k]), if names[k].Some? then [names[k].value] else [], Left(names[k + 1..]));
    }
  }

  /** The deletions go no further than they must: before each of them there was too little room. */
  ghost predicate NoMore(space: seq<string> -> nat, needed: nat, deleted: seq<string>) {
    forall k :: 0 <= k < |deleted| ==> space(deleted[..k]) < needed
  }

  /** The loop of MakeFreeSpaceOnCache. The room on /cache after some deletions is what space says. */
  method DeleteUntil(names: seq<Option<string>>, needed: nat, space: seq<string> -> nat) returns (deleted: seq<string>, free: nat)
    requires space([]) < needed
    ensures deleted <= Left(names) && NoMore(space, needed, deleted) && free == space(deleted)
    ensures free < needed ==> deleted == Left(names)
  {
    deleted, free := [], space([]);
    var i := 0;
    while i < |names| && free < needed
      invariant 0 <= i <= |names| && deleted == Left(names[..i]) && NoMore(space, needed, deleted) && free == space(deleted)
    {
      LeftMore(names, i);
      if names[i].Some? {
        Further(space, needed, deleted, names[i].value);
        deleted := deleted + [names[i].value];
        free := space(deleted);
      }
      i := i + 1;
    }
    LeftSplit(names, i);
    assert names[..|names|] == names;
  }

  lemma Further(space: seq<string> -> nat, needed: nat, deleted: seq<string>, path: string)
    requires NoMore(space, needed, deleted) && space(deleted) < needed
    ensures NoMore(space, needed, deleted + [path])
  {
    var more := deleted + [path];
    forall k | 0 <= k < |more|
      ensures space(more[..k]) < needed
    {
      assert more[..k] == if k < |deleted| then deleted[..k] else deleted;
    }
  }

  /**
   * MakeFreeSpaceOnCache: of the deletable things that the two directories list, the first so many are deleted in the
   * order listed, only as long as there is too little room; the answer is whether there is enough in the end, and if not,
   * every one of them was deleted. If the open files cannot be told, nothing is.
   */
  method MakeFreeSpaceOnCache(needed: nat, cache: Option<seq<Item>>, otatest: Option<seq<Item>>, open: Option<set<string>>, space: seq<string> -> nat)
    returns (ok: bool, deleted: seq<string>)
    ensures open.None? ==> deleted == [] && ok == (space([]) >= needed)
    ensures open.Some? ==>
      deleted <= Candidates(cache, otatest, open.value) && NoMore(space, needed, deleted) && ok == (space(deleted) >= needed)
    ensures open.Some? && !ok ==> deleted == Candidates(cache, otatest, open.value)
    ensures open.Some? ==> exists all, at :: Chosen(Things(cache, otatest), open.value, all, at) && deleted <= all
    ensures open.Some? && !ok ==> forall k :: 0 <= k < |Things(cache, otatest)| && Deletable(Things(cache, otatest)[k], open.value) ==>
      Things(cache, otatest)[k].path in deleted
  {
    if open.Some? {
      ghost var at := CandidatesChosen(cache, otatest, open.value);
      AllChosen(Things(cache, otatest), open.value, Candidates(cache, otatest, open.value), at);
    }
    hide Chosen, Things, Deletable;
    deleted := [];
    ok := space([]) >= needed;
    if ok || open.None? {
      return;
    }
    var names := ReadDirectory(CACHE_DIR, Listing(cache), []);
    names := ReadDirectory(OTATEST_DIR, Listing(otatest), names);
    assert [] + Regular(CACHE_DIR, Listing(cache)) == Regular(CACHE_DIR, Listing(cache));
    var left := EliminateOpenFiles(names, open.value);
    LeftIsUnopened(names, left, open.value);
    hide Regular, Unopened, Left, NoMore;
    var free;
    deleted, free := DeleteUntil(left, needed, space);
    ok := free >= needed;
  }

  // ----- What is never deleted -----

  lemma {:induction false} RegularMeans(dir: string, items: seq<Item>, path: string)
    requires path in Regular(dir, items)
    ensures path != CACHE_TEMP_SOURCE && exists k :: 0 <= k < |items| && items[k].regular && path == dir + items[k].name
  {
    if items[0].regular && path == dir + items[0].name && path != CACHE_TEMP_SOURCE {
      assert path == dir + items[0].name;
    } else {
      RegularMeans(dir, items[1..], path);
      var k :| 0 <= k < |items[1..]| && items[1..][k].regular && path == dir + items[1..][k].name;
      assert items[k + 1] == items[1..][k];
    }
  }

  lemma {:induction false} UnopenedMeans(paths: seq<string>, open: set<string>, path: string)
    requires path in Unopened(paths, open)
    ensures path in paths && path !in open
  {
    if !(paths[0] !in open && path == paths[0]) {
      UnopenedMeans(paths[1..], open, path);
    }
  }

  /** What readdir lists: names without a slash, none empty, and the two dots are directories. */
  ghost predicate Listed(items: seq<Item>) {
    forall k :: 0 <= k < |items| ==> Plain(items[k].name) && items[k].name != "" && (items[k].regular ==> Proper(items[k].name))
  }

  lemma RegularPlace(dir: string, items: seq<Item>, path: string)
    requires path in Regular(dir, items) && Listed(items) && |dir| > 0 && dir[|dir| - 1] == '/'
    ensures |Resolve(path)| > 0 && Resolve(path)[..|Resolve(path)| - 1] == Resolve(dir)
    ensures path != CACHE_TEMP_SOURCE && exists name :: Proper(name) && path == dir + name && Resolve(path) == Resolve(dir) + [name]
  {
    hide Resolve;
    RegularMeans(dir, items, path);
    var k :| 0 <= k < |items| && items[k].regular && path == dir + items[k].name;
    ResolveIn(dir, items[k].name);
  }

  lemma OtatestIsApart()
    ensures Resolve(OTATEST_DIR) != Resolve(CACHE_DIR)
  {
    hide Resolve;
    assert CACHE_DIR + "recovery" + "/" == "/cache/recovery/";
    assert "/cache/recovery/" + "otatest" + "/" == OTATEST_DIR;
    ResolveDir(CACHE_DIR, "recovery");
    ResolveDir("/cache/recovery/", "otatest");
  }

  /** Only regular files directly in the two directories are ever deleted, none that is open, and never the saved copy. */
  lemma CandidatesExpendable(cache: Option<seq<Item>>, otatest: Option<seq<Item>>, open: set<string>, path: string)
    requires Listed(Listing(cache)) && Listed(Listing(otatest)) && path in Candidates(cache, otatest, open)
    ensures Expendable(Resolve(path)) && path !in open && Resolve(path) != COPY
  {
    hide Unopened, Regular, Resolve, Plain, Listed, Listing;
    var a, b := Regular(CACHE_DIR, Listing(cache)), Regular(OTATEST_DIR, Listing(otatest));
    UnopenedMeans(a + b, open, path);
    CopyPlace();
    OtatestIsApart();
    assert CACHE_TEMP_SOURCE == CACHE_DIR + "saved.file";
    if path in a {
      RegularPlace(CACHE_DIR, Listing(cache), path);
      var name :| Proper(name) && path == CACHE_DIR + name && Resolve(path) == Resolve(CACHE_DIR) + [name];
      assert (Resolve(CACHE_DIR) + [name])[|Resolve(CACHE_DIR)|] == name;
      assert COPY[|Resolve(CACHE_DIR)|] == "saved.file";
    } else {
      RegularPlace(OTATEST_DIR, Listing(otatest), path);
      assert COPY[..|COPY| - 1] == Resolve(CACHE_DIR);
    }
  }
}
