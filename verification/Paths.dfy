/**
 * File names and what they name. A name is resolved from the root, component by component, in a file system without
 * links: empty components and "." stay where they are, ".." goes up.
 */
module Paths {
  /** A file or directory, by the components that lead to it from the root. */
  type Place = seq<string>

  /** The components of a name; there is always at least one, perhaps empty. */
  function Parts(path: string): (ps: seq<string>)
    ensures |ps| > 0
  {
    if path == [] then [[]]
    else
      var rest := Parts(path[1..]);
      if path[0] == '/' then [[]] + rest else [[path[0]] + rest[0]] + rest[1..]
  }

  function Enter(at: Place, part: string): Place {
    if part == "" || part == "." then at
    else if part == ".." then if at == [] then [] else at[..|at| - 1]
    else at + [part]
  }

  function Walk(at: Place, parts: seq<string>): Place
    decreases |parts|
  {
    if parts == [] then at else Walk(Enter(at, parts[0]), parts[1..])
  }

  function Resolve(path: string): Place { Walk([], Parts(path)) }

  predicate Plain(name: string) { '/' !in name }

  /** A component that is a name, and neither nothing nor one of the two dots. */
  predicate Proper(name: string) { Plain(name) && name != "" && name != "." && name != ".." }

  /** Text added to the last component. */
  function Grown(parts: seq<string>, more: string): (g: seq<string>)
    requires |parts| > 0
    ensures |g| > 0
  {
    parts[..|parts| - 1] + [parts[|parts| - 1] + more]
  }

  lemma GrownAfter(first: string, rest: seq<string>, more: string)
    requires |rest| > 0
    ensures Grown([first] + rest, more) == [first] + Grown(rest, more)
  {
  }

  lemma GrownWithin(c: char, rest: seq<string>, more: string)
    requires |rest| > 0
    ensures var g := Grown(rest, more); Grown([[c] + rest[0]] + rest[1..], more) == [[c] + g[0]] + g[1..]
  {
    if |rest| == 1 {
      assert rest == [rest[0]] && Grown(rest, more) == [rest[0] + more];
      assert [c] + (rest[0] + more) == [c] + rest[0] + more;
    } else {
      var tail := rest[1..];
      assert rest == [rest[0]] + tail;
      GrownAfter(rest[0], tail, more);
      GrownAfter([c] + rest[0], tail, more);
    }
  }

  /** Text without a slash, added to a name, is added to its last component. */
  lemma {:induction false} PartsGrow(path: string, more: string)
    requires Plain(more)
    ensures Parts(path + more) == Grown(Parts(path), more)
  {
    if path == [] {
      assert path + more == more;
      PartsPlain(more);
    } else {
      hide Grown;
      PartsGrow(path[1..], more);
      assert (path + more)[1..] == path[1..] + more;
      GrownAfter([], Parts(path[1..]), more);
      GrownWithin(path[0], Parts(path[1..]), more);
    }
  }

  lemma {:induction false} PartsPlain(name: string)
    requires Plain(name)
    ensures Parts(name) == [name]
  {
    if name != [] {
      PartsPlain(name[1..]);
      assert [name[0]] + name[1..] == name;
    }
  }

  lemma {:induction false} WalkTwice(at: Place, a: seq<string>, b: seq<string>)
    ensures Walk(at, a + b) == Walk(Walk(at, a), b)
    decreases |a|
  {
    if a == [] {
      assert a + b == b;
    } else {
      assert (a + b)[1..] == a[1..] + b;
      WalkTwice(Enter(at, a[0]), a[1..], b);
    }
  }

  /** A name with something added ends in a proper component, in the directory the name was in. */
  lemma ResolveGrown(path: string, more: string) returns (dir: Place, last: string)
    requires Plain(more) && |more| > 2
    ensures Resolve(path) == Enter(dir, last) && Resolve(path + more) == dir + [last + more]
  {
    var ps := Parts(path);
    var n := |ps| - 1;
    dir, last := Walk([], ps[..n]), ps[n];
    PartsGrow(path, more);
    assert ps == ps[..n] + [last];
    WalkTwice([], ps[..n], [last]);
    WalkTwice([], ps[..n], [last + more]);
    assert |last + more| > 2;
  }

  /** So it names something else than the name did. */
  lemma GrownIsApart(path: string, more: string)
    requires Plain(more) && |more| > 2
    ensures Resolve(path + more) != Resolve(path)
  {
    var dir, last := ResolveGrown(path, more);
    assert (dir + [last + more])[|dir|] == last + more;
    assert Enter(dir, last) != dir + [last + more] by {
      if last != "" && last != "." && last != ".." {
        assert (dir + [last])[|dir|] == last;
        assert |last + more| > |last|;
      }
    }
  }

  /** A proper name in a directory. */
  lemma ResolveIn(dir: string, name: string)
    requires Proper(name) && |dir| > 0 && dir[|dir| - 1] == '/'
    ensures Resolve(dir + name) == Resolve(dir) + [name]
  {
    ResolveAdd(dir, name);
  }

  lemma {:induction false} PartsSlash(dir: string)
    requires |dir| > 0 && dir[|dir| - 1] == '/'
    ensures var ps := Parts(dir); ps[|ps| - 1] == ""
  {
    if |dir| > 1 {
      assert dir[1..][|dir| - 2] == '/';
      PartsSlash(dir[1..]);
      assert |Parts(dir[1..])| > 1 by { PartsMore(dir[1..]); }
    }
  }

  lemma {:induction false} PartsMore(path: string)
    requires !Plain(path)
    ensures |Parts(path)| > 1
  {
    if path[0] != '/' {
      PartsMore(path[1..]);
    }
  }

  lemma {:induction false} PartsClosed(path: string)
    ensures Parts(path + "/") == Parts(path) + [""]
  {
    if path == [] {
      assert path + "/" == "/";
    } else {
      assert (path + "/")[1..] == path[1..] + "/";
      PartsClosed(path[1..]);
    }
  }

  /** A proper directory in a directory. */
  lemma ResolveDir(dir: string, name: string)
    requires Proper(name) && |dir| > 0 && dir[|dir| - 1] == '/'
    ensures Resolve(dir + name + "/") == Resolve(dir) + [name]
  {
    ResolveIn(dir, name);
    PartsClosed(dir + name);
    WalkTwice([], Parts(dir + name), [""]);
  }

  /** Other ways to write a directory: a second slash, a dot, or a way down and up again. */
  lemma ResolveDetours(dir: string, name: string)
    requires Proper(name) && |dir| > 0 && dir[|dir| - 1] == '/'
    ensures Resolve(dir + "/") == Resolve(dir) && Resolve(dir + "." + "/") == Resolve(dir) && Resolve(dir + name + "/" + ".." + "/") == Resolve(dir)
    ensures Resolve(dir) == [] ==> Resolve(dir + ".." + "/") == []
  {
    ResolveAdd(dir, "..");
    PartsClosed(dir + "..");
    WalkTwice([], Parts(dir + ".."), [""]);
    PartsClosed(dir);
    WalkTwice([], Parts(dir), [""]);
    ResolveAdd(dir, ".");
    PartsClosed(dir + ".");
    WalkTwice([], Parts(dir + "."), [""]);
    ResolveDir(dir, name);
    var down := dir + name + "/";
    ResolveAdd(down, "..");
    PartsClosed(down + "..");
    WalkTwice([], Parts(down + ".."), [""]);
    assert (Resolve(dir) + [name])[..|Resolve(dir)|] == Resolve(dir);
  }

  /** Any component in a directory. */
  lemma ResolveAdd(dir: string, part: string)
    requires Plain(part) && |dir| > 0 && dir[|dir| - 1] == '/'
    ensures Resolve(dir + part) == Enter(Resolve(dir), part)
  {
    var ps := Parts(dir);
    var n := |ps| - 1;
    PartsSlash(dir);
    PartsGrow(dir, part);
    assert ps == ps[..n] + [""];
    WalkTwice([], ps[..n], [""]);
    WalkTwice([], ps[..n], [part]);
    assert "" + part == part;
  }
}
