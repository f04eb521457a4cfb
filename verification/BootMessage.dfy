/** Arguments kept in the boot message and read back from it: get_args of recovery.cpp. */
module BootMessage {
  import opened Bytes

  /** The size of the field for recovery, and the most arguments kept, the program's name included. */
  const FIELD := 768
  const MAX_ARGS := 100
  const MAX_ARG_LENGTH := 4096

  // ----- Tokens -----

  /** How far a string runs without any of the delimiters. */
  function Run(s: string, ends: set<char>): (n: nat)
    ensures n <= |s| && (forall i :: 0 <= i < n ==> s[i] !in ends) && (n < |s| ==> s[n] in ends)
  {
    if s == [] || s[0] in ends then 0 else 1 + Run(s[1..], ends)
  }

  const NEWLINE: set<char> := {'\n'}

  /** What repeated calls of strtok with a newline return. */
  function Tokens(s: string): seq<string> {
    if s == [] then []
    else if s[0] == '\n' then Tokens(s[1..])
    else
      var n := Run(s, NEWLINE);
      [s[..n]] + Tokens(s[n..])
  }

  /** An argument that can be stored on a line of its own. */
  predicate Proper(a: string) { a != [] && '\n' !in a && '\0' !in a }

  predicate AllProper(args: seq<string>) { forall k :: 0 <= k < |args| ==> Proper(args[k]) }

  function Lines(args: seq<string>): string {
    if args == [] then [] else args[0] + (['\n'] + Lines(args[1..]))
  }

  /** The length of the lines. */
  function Weight(args: seq<string>): nat {
    if args == [] then 0 else |args[0]| + 1 + Weight(args[1..])
  }

  lemma {:induction false} LinesWeight(args: seq<string>)
    ensures |Lines(args)| == Weight(args)
  {
    if args != [] {
      LinesWeight(args[1..]);
    }
  }

  lemma RunOf(a: string, rest: string)
    requires '\n' !in a && (rest == [] || rest[0] == '\n')
    ensures Run(a + rest, NEWLINE) == |a|
  {
    assert forall i :: 0 <= i < |a| ==> (a + rest)[i] == a[i];
    assert rest != [] ==> (a + rest)[|a|] == '\n';
  }

  lemma TokensFirst(a: string, rest: string)
    requires Proper(a) && (rest == [] || rest[0] == '\n')
    ensures Tokens(a + rest) == [a] + Tokens(rest)
  {
    RunOf(a, rest);
    assert (a + rest)[0] == a[0];
    Unappend(a, rest);
  }

  lemma LinesNothing()
    ensures Lines([]) == []
  {
  }

  /** Lines read back as the arguments they are, with or without the last newline. */
  lemma {:induction false} TokensLines(args: seq<string>)
    requires AllProper(args)
    ensures Tokens(Lines(args)) == args
    ensures args != [] ==> |Lines(args)| > 0 && Tokens(Lines(args)[..|Lines(args)| - 1]) == args
  {
    hide Tokens, Lines;
    if args == [] {
      LinesNothing();
      TokensNothing();
    } else {
      var a, rest := args[0], Lines(args[1..]);
      TokensLines(args[1..]);
      TokensFirst(a, ['\n'] + rest);
      TokensNewline(rest);
      assert Lines(args) == a + (['\n'] + rest) by { LinesFirst(args); }
      if args[1..] == [] {
        assert rest == [] by { LinesFirst(args[1..]); }
        assert (a + (['\n'] + rest))[..|a|] == a;
        assert a + [] == a;
        TokensFirst(a, []);
        assert Tokens([]) == [] by { TokensNothing(); }
      } else {
        var short := rest[..|rest| - 1];
        assert (a + (['\n'] + rest))[..|a| + |rest|] == a + (['\n'] + short);
        TokensFirst(a, ['\n'] + short);
        TokensNewline(short);
      }
    }
  }

  lemma TokensNothing()
    ensures Tokens([]) == []
  {
  }

  lemma LinesFirst(args: seq<string>)
    ensures Lines(args) == if args == [] then [] else args[0] + (['\n'] + Lines(args[1..]))
  {
  }

  lemma TokensNewline(rest: string)
    ensures Tokens(['\n'] + rest) == Tokens(rest)
  {
    assert (['\n'] + rest)[1..] == rest;
  }

  /** Tokens weigh no more than the text they come from, and its missing last newline. */
  lemma {:induction false} TokensWeight(s: string)
    ensures Weight(Tokens(s)) <= |s| + 1
    ensures s != [] && s[0] == '\n' ==> Weight(Tokens(s)) <= |s|
    decreases |s|
  {
    if s != [] {
      if s[0] == '\n' {
        TokensWeight(s[1..]);
      } else {
        var n := Run(s, NEWLINE);
        TokensWeight(s[n..]);
        assert Tokens(s)[1..] == Tokens(s[n..]);
      }
    }
  }

  lemma {:induction false} TokensProper(s: string)
    requires '\0' !in s
    ensures AllProper(Tokens(s))
    decreases |s|
  {
    if s != [] {
      if s[0] == '\n' {
        TokensProper(s[1..]);
      } else {
        var n := Run(s, NEWLINE);
        TokensProper(s[n..]);
      }
    }
  }

  // ----- The boot message -----

  /** What strlcpy and strlcat leave of a text in the field. */
  function Cap(s: string): string { if |s| >= FIELD then s[..FIELD - 1] else s }

  lemma CapAppend(x: string, y: string)
    ensures Cap(Cap(x) + y) == Cap(x + y)
  {
    if |x| >= FIELD {
      assert (Cap(x) + y)[..FIELD - 1] == Cap(x) && (x + y)[..FIELD - 1] == Cap(x);
    }
  }

  const NAME := "recovery"

  /** The text get_args stores for the arguments. */
  function Compose(args: seq<string>): string { Cap(Lines([NAME] + args)) }

  /** The arguments get_args finds in a text, without the program's name. */
  function Stored(text: string): Option<seq<string>> {
    var ts := Tokens(text);
    if ts == [] || ts[0] != NAME then None
    else Some(if |ts| > MAX_ARGS then ts[1..MAX_ARGS] else ts[1..])
  }

  /** A text the field can hold. */
  predicate Text(s: string) { |s| < FIELD && '\0' !in s }

  /** The arguments the field can hold. */
  predicate Fits(args: seq<string>) { |args| < MAX_ARGS && |NAME| + 1 + Weight(args) <= FIELD }

  lemma {:induction false} WeightPrefix(a: seq<string>, b: seq<string>)
    requires a <= b
    ensures Weight(a) <= Weight(b)
  {
    if a != [] {
      WeightPrefix(a[1..], b[1..]);
    }
  }

  lemma NamedWeight(args: seq<string>)
    ensures Weight([NAME] + args) == |NAME| + 1 + Weight(args)
  {
    assert ([NAME] + args)[1..] == args;
  }

  lemma NamedProper(args: seq<string>)
    requires AllProper(args)
    ensures AllProper([NAME] + args)
  {
  }

  lemma FitsThenStored(args: seq<string>)
    requires AllProper(args) && Fits(args)
    ensures Stored(Compose(args)) == Some(args)
  {
    hide Tokens, Lines, Weight, Proper;
    var all := [NAME] + args;
    var lines := Lines(all);
    NamedWeight(args);
    NamedProper(args);
    LinesWeight(all);
    TokensLines(all);
    assert lines[..|lines|] == lines;
    assert Tokens(Compose(args)) == all;
    assert all[1..] == args;
  }

  lemma StoredThenFits(args: seq<string>)
    requires Stored(Compose(args)) == Some(args)
    ensures Fits(args)
  {
    var text := Compose(args);
    var ts := Tokens(text);
    TokensWeight(text);
    hide Tokens, Lines, Weight;
    assert [NAME] + args <= ts;
    WeightPrefix([NAME] + args, ts);
    NamedWeight(args);
  }

  /** What is stored is read back as it was, exactly if it fits the field. */
  lemma StoredExactly(args: seq<string>)
    requires AllProper(args)
    ensures Stored(Compose(args)) == Some(args) <==> Fits(args)
  {
    hide Compose, Stored, Fits;
    if Fits(args) {
      FitsThenStored(args);
    }
    if Stored(Compose(args)) == Some(args) {
      StoredThenFits(args);
    }
  }

  /** Arguments found in a boot message always fit one. */
  lemma FoundFits(text: string)
    requires Text(text) && Stored(text).Some?
    ensures AllProper(Stored(text).value) && Fits(Stored(text).value)
  {
    var ts, args := Tokens(text), Stored(text).value;
    TokensProper(text);
    TokensWeight(text);
    hide Tokens, Weight;
    assert [NAME] + args <= ts;
    WeightPrefix([NAME] + args, ts);
    NamedWeight(args);
    forall k | 0 <= k < |args|
      ensures Proper(args[k])
    {
      assert args[k] == ts[k + 1];
    }
  }

  // ----- The command file -----

  const LINE_ENDS: set<char> := {'\n', '\r', '\0'}

  /** How much of the file one call of fgets takes: a line with its newline, or as much as its buffer holds. */
  function Piece(file: string): (n: nat)
    requires file != []
    ensures 0 < n <= |file|
  {
    var n := Run(file, NEWLINE);
    var m := if n < |file| then n + 1 else n;
    if m < MAX_ARG_LENGTH then m else MAX_ARG_LENGTH - 1
  }

  /** Leading line ends are skipped, but not past the end of the string. */
  function Trim(s: string): string {
    if s != [] && (s[0] == '\n' || s[0] == '\r') then Trim(s[1..]) else s
  }

  /** The token strtok finds in a piece, empty if there is none. */
  function Token(piece: string): string {
    var s := Trim(piece);
    s[..Run(s, LINE_ENDS)]
  }

  /** The arguments in the command file, at most so many. */
  function FileArgs(file: string, room: nat): (args: seq<string>)
    ensures |args| <= room && AllProper(args)
    decreases |file|
  {
    if file == [] || room == 0 then []
    else
      var n := Piece(file);
      var t := Token(file[..n]);
      if t == [] then FileArgs(file[n..], room)
      else [t] + FileArgs(file[n..], room - 1)
  }

  lemma {:induction false} TrimLead(lead: string, s: string)
    requires (forall i :: 0 <= i < |lead| ==> lead[i] in {'\n', '\r'}) && (s == [] || s[0] !in {'\n', '\r'})
    ensures Trim(lead + s) == s
  {
    if lead == [] {
      assert lead + s == s;
    } else {
      TrimLead(lead[1..], s);
      var all := lead + s;
      assert all[1..] == lead[1..] + s && all[0] == lead[0];
      assert Trim(all) == Trim(all[1..]);
    }
  }

  /** What can be read at once: at most as much as the buffer holds, with no newline but at its end. */
  ghost predicate Whole(p: string, rest: string) {
    && 0 < |p| < MAX_ARG_LENGTH && (forall i :: 0 <= i < |p| - 1 ==> p[i] != '\n')
    && (p[|p| - 1] == '\n' || |p| == MAX_ARG_LENGTH - 1 || rest == [])
  }

  lemma PieceWhole(p: string, rest: string)
    requires Whole(p, rest)
    ensures Piece(p + rest) == |p|
  {
    var file := p + rest;
    var n := Run(file, NEWLINE);
    assert forall i :: 0 <= i < |p| ==> file[i] == p[i];
    assert n >= |p| - 1;
    if p[|p| - 1] == '\n' {
      assert file[|p| - 1] in NEWLINE;
      assert n == |p| - 1;
    } else if rest == [] {
      assert file == p;
    } else {
      assert n >= |p|;
    }
  }

  /**
   * The command file, piece by piece, whatever it holds: line ends in front are passed over, what follows them up to the
   * next line end is the argument, and the rest of the piece is not looked at.
   */
  lemma FilePiece(lead: string, arg: string, tail: string, rest: string, room: nat)
    requires room > 0 && Whole(lead + arg + tail, rest)
    requires (forall i :: 0 <= i < |lead| ==> lead[i] in {'\n', '\r'}) && (forall i :: 0 <= i < |arg| ==> arg[i] !in LINE_ENDS)
    requires tail == [] || tail[0] == '\0' || (arg != [] && tail[0] in LINE_ENDS)
    ensures FileArgs(lead + arg + tail + rest, room) == if arg == [] then FileArgs(rest, room) else [arg] + FileArgs(rest, room - 1)
  {
    var p := lead + arg + tail;
    PieceWhole(p, rest);
    Unappend(p, rest);
    var s := arg + tail;
    assert p == lead + s;
    assert arg != [] ==> s[0] == arg[0];
    TrimLead(lead, s);
    assert Token(p) == arg by { TokenOf(p, arg, tail); }
    hide Token, Piece, Trim, Whole;
    assert (p + rest)[..|p|] == p && (p + rest)[|p|..] == rest;
  }

  lemma TokenOf(p: string, arg: string, tail: string)
    requires Trim(p) == arg + tail && (forall i :: 0 <= i < |arg| ==> arg[i] !in LINE_ENDS) && (tail == [] || tail[0] in LINE_ENDS)
    ensures Token(p) == arg
  {
    var s := arg + tail;
    var n := Run(s, LINE_ENDS);
    assert forall i :: 0 <= i < |arg| ==> s[i] == arg[i];
    assert tail != [] ==> s[|arg|] == tail[0];
    assert n == |arg|;
    assert s[..n] == arg;
  }

  /** An argument that a line of the command file can hold. */
  predicate Plain(a: string) { a != [] && forall i :: 0 <= i < |a| ==> a[i] !in LINE_ENDS }

  /** The ends of lines; the last one may be missing. */
  predicate LineEnd(end: string, last: bool) { end == "\n" || end == "\r\n" || (last && (end == "" || end == "\r")) }

  predicate LineEnds(ends: seq<string>) { forall k :: 0 <= k < |ends| ==> LineEnd(ends[k], k == |ends| - 1) }

  /** A command file: each argument on a line of its own. */
  function Written(args: seq<string>, ends: seq<string>): string
    requires |ends| == |args|
  {
    if args == [] then [] else args[0] + (ends[0] + Written(args[1..], ends[1..]))
  }

  lemma FileArg(a: string, tail: string, rest: string, room: nat)
    requires room > 0 && Plain(a) && Whole(a + tail, rest) && (tail == [] || tail[0] in LINE_ENDS)
    ensures FileArgs(a + (tail + rest), room) == [a] + FileArgs(rest, room - 1)
  {
    hide FileArgs, Whole;
    assert [] + a + tail == a + tail;
    Reappend(a, tail, rest);
    FilePiece([], a, tail, rest, room);
  }

  lemma LineWhole(a: string, tail: string, rest: string)
    requires Plain(a) && |a| + |tail| < MAX_ARG_LENGTH
    requires tail == "\n" || tail == "\r\n" || ((tail == "" || tail == "\r") && (rest == [] || |a| + |tail| == MAX_ARG_LENGTH - 1))
    ensures Whole(a + tail, rest)
  {
    var p := a + tail;
    forall i | 0 <= i < |p| - 1
      ensures p[i] != '\n'
    {
      if i < |a| {
        assert p[i] == a[i];
      } else {
        assert p[i] == tail[0];
      }
    }
    if tail == "\n" || tail == "\r\n" {
      assert p[|p| - 1] == tail[|tail| - 1];
    }
  }

  /** One line is one argument, as long as the buffer holds the argument, if not the line. */
  lemma FileLine(a: string, end: string, rest: string, room: nat)
    requires room > 0 && Plain(a) && |a| < MAX_ARG_LENGTH && LineEnd(end, rest == [])
    ensures FileArgs(a + (end + rest), room) == [a] + FileArgs(rest, room - 1)
  {
    hide FileArgs, Whole, Plain;
    if |a| + |end| < MAX_ARG_LENGTH {
      LineWhole(a, end, rest);
      FileArg(a, end, rest, room);
    } else if |a| == MAX_ARG_LENGTH - 1 {
      LineWhole(a, "", end + rest);
      FileArg(a, "", end + rest, room);
      assert "" + (end + rest) == end + rest;
      FileEnd(end, rest, room - 1);
    } else {
      LineWhole(a, "\r", "\n" + rest);
      FileArg(a, "\r", "\n" + rest, room);
      assert "\r" + ("\n" + rest) == end + rest;
      FileEnd("\n", rest, room - 1);
    }
  }

  /** A line end by itself is no argument. */
  lemma FileEnd(end: string, rest: string, room: nat)
    requires LineEnd(end, rest == [])
    ensures FileArgs(end + rest, room) == FileArgs(rest, room)
  {
    if end == [] {
      assert end + rest == rest;
    } else if room > 0 {
      assert end + [] + [] == end;
      FilePiece(end, [], [], rest, room);
      assert end + [] + [] + rest == end + rest;
    }
  }

  /** At most so many. */
  function First(args: seq<string>, room: nat): seq<string> { if |args| > room then args[..room] else args }

  /**
   * The command file is read back as it was written, one argument on a line, with "\n" or "\r\n" at the end of each and
   * with or without the last one; if there are too many arguments, the first ones are.
   */
  lemma {:induction false} FileRoundTrip(args: seq<string>, ends: seq<string>, room: nat)
    requires |ends| == |args| && LineEnds(ends) && (forall k :: 0 <= k < |args| ==> Plain(args[k]) && |args[k]| < MAX_ARG_LENGTH)
    ensures FileArgs(Written(args, ends), room) == First(args, room)
    decreases |args|
  {
    hide FileArgs, Written, Plain, LineEnds;
    WrittenNothing(args, ends);
    if args == [] || room == 0 {
      NoFileArgs(Written(args, ends), room);
    } else {
      var a, end, rest := args[0], ends[0], Written(args[1..], ends[1..]);
      LaterEnds(ends);
      FileRoundTrip(args[1..], ends[1..], room - 1);
      WrittenNothing(args[1..], ends[1..]);
      FileLine(a, end, rest, room);
      WrittenFirst(args, ends);
      assert [a] + First(args[1..], room - 1) == First(args, room);
    }
  }

  lemma NoFileArgs(file: string, room: nat)
    requires file == [] || room == 0
    ensures FileArgs(file, room) == []
  {
  }

  lemma LaterEnds(ends: seq<string>)
    requires LineEnds(ends) && ends != []
    ensures LineEnds(ends[1..]) && LineEnd(ends[0], |ends| == 1)
  {
    hide LineEnd;
    assert forall k :: 0 <= k < |ends| - 1 ==> ends[1..][k] == ends[k + 1];
  }

  lemma WrittenFirst(args: seq<string>, ends: seq<string>)
    requires |ends| == |args| > 0
    ensures Written(args, ends) == args[0] + (ends[0] + Written(args[1..], ends[1..]))
  {
  }

  lemma WrittenNothing(args: seq<string>, ends: seq<string>)
    requires |ends| == |args| && forall k :: 0 <= k < |args| ==> Plain(args[k])
    ensures Written(args, ends) == [] <==> args == []
  {
  }

  /** No argument read from the file is longer than the buffer. */
  lemma {:induction false} FileArgsShort(file: string, room: nat)
    ensures forall k :: 0 <= k < |FileArgs(file, room)| ==> |FileArgs(file, room)[k]| < MAX_ARG_LENGTH
    decreases |file|
  {
    if file != [] && room > 0 {
      var n := Piece(file);
      TokenShort(file[..n]);
      FileArgsShort(file[n..], room);
      FileArgsShort(file[n..], room - 1);
    }
  }

  lemma TokenShort(piece: string)
    ensures |Token(piece)| <= |piece|
  {
    TrimShort(piece);
  }

  lemma {:induction false} TrimShort(s: string)
    ensures |Trim(s)| <= |s|
  {
    if s != [] {
      TrimShort(s[1..]);
    }
  }

  /** And it is read back only so: exactly the arguments that the buffer can hold survive. */
  lemma FileExactly(args: seq<string>, ends: seq<string>, room: nat)
    requires |ends| == |args| <= room && LineEnds(ends) && forall k :: 0 <= k < |args| ==> Plain(args[k])
    ensures FileArgs(Written(args, ends), room) == args <==> forall k :: 0 <= k < |args| ==> |args[k]| < MAX_ARG_LENGTH
  {
    if forall k :: 0 <= k < |args| ==> |args[k]| < MAX_ARG_LENGTH {
      FileRoundTrip(args, ends, room);
    }
    FileArgsShort(Written(args, ends), room);
  }

  // ----- get_args -----

  /** Where the arguments come from: the command line, the boot message, the command file. */
  function Args(given: seq<string>, text: string, file: Option<string>): seq<string> {
    if given != [] then given
    else if Stored(text).Some? && Stored(text).value != [] then Stored(text).value
    else if file.Some? then FileArgs(file.value, MAX_ARGS - 1)
    else []
  }

  /** A boot message of these lines: the arguments are those behind the program's name, at most so many, if the name is there. */
  lemma StoredLines(lines: seq<string>)
    requires AllProper(lines)
    ensures Stored(Lines(lines)) == if lines != [] && lines[0] == NAME then Some(First(lines[1..], MAX_ARGS - 1)) else None
  {
    hide Tokens, Lines, Proper;
    TokensLines(lines);
    assert |lines| > MAX_ARGS ==> lines[1..][..MAX_ARGS - 1] == lines[1..MAX_ARGS];
  }

  /** The arguments can stand in a command file with these line ends. */
  ghost predicate Holds(args: seq<string>, ends: seq<string>) {
    |ends| == |args| && LineEnds(ends) && forall k :: 0 <= k < |args| ==> Plain(args[k]) && |args[k]| < MAX_ARG_LENGTH
  }

  /**
   * The arguments of a command file are taken when the boot message holds none, and stored so that, if they fit, the next
   * start finds them there, with or without the file.
   */
  lemma FileTaken(text: string, args: seq<string>, ends: seq<string>)
    requires (Stored(text).None? || Stored(text).value == []) && Holds(args, ends)
    ensures var first := First(args, MAX_ARGS - 1);
      && Args([], text, Some(Written(args, ends))) == first
      && (Fits(first) && first != [] ==> forall file :: Args([], Compose(first), file) == first)
  {
    var first := First(args, MAX_ARGS - 1);
    FileRoundTrip(args, ends, MAX_ARGS - 1);
    assert AllProper(first) by {
      forall k | 0 <= k < |first|
        ensures Proper(first[k])
      {
        assert Plain(args[k]);
      }
    }
    hide Stored, Compose, Fits, FileArgs, Written, Proper;
    StoredExactly(first);
  }

  /** The loop over strtok: the tokens of the text, at most so many. */
  method Split(text: string, room: nat) returns (ts: seq<string>)
    ensures ts == if |Tokens(text)| > room then Tokens(text)[..room] else Tokens(text)
  {
    ts := [];
    var s := text;
    while s != [] && |ts| < room
      invariant Tokens(text) == ts + Tokens(s) && |ts| <= room
      decreases |s|
    {
      if s[0] == '\n' {
        s := s[1..];
      } else {
        var n := Run(s, NEWLINE);
        assert Tokens(s) == [s[..n]] + Tokens(s[n..]);
        Reappend(ts, [s[..n]], Tokens(s[n..]));
        ts, s := ts + [s[..n]], s[n..];
      }
    }
    Unappend(ts, Tokens(s));
    assert ts + [] == ts;
  }

  /** The loop over strlcat. */
  method Store(args: seq<string>) returns (text: string)
    ensures text == Compose(args)
  {
    hide Cap;
    text := Cap(NAME + ['\n']);
    var i := 0;
    ghost var done := NAME + ['\n'];
    while i < |args|
      invariant 0 <= i <= |args| && text == Cap(done) && done + Lines(args[i..]) == Lines([NAME] + args)
    {
      LinesNext(args, i);
      CapAppend(done, args[i]);
      CapAppend(done + args[i], ['\n']);
      Reappend(done, args[i], ['\n'] + Lines(args[i + 1..]));
      Reappend(done + args[i], ['\n'], Lines(args[i + 1..]));
      text := Cap(text + args[i]);
      text := Cap(text + ['\n']);
      done := done + args[i] + ['\n'];
      i := i + 1;
    }
    assert done + [] == done;
  }

  lemma LinesNext(args: seq<string>, i: nat)
    requires i < |args|
    ensures Lines(args[i..]) == args[i] + (['\n'] + Lines(args[i + 1..]))
  {
    assert args[i..][1..] == args[i + 1..];
  }

  /** The loop over the command file. */
  method ReadFile(file: string, room: nat) returns (args: seq<string>)
    ensures args == FileArgs(file, room)
  {
    hide Piece, Token;
    args := [];
    var s := file;
    while s != [] && |args| < room
      invariant |args| <= room && FileArgs(file, room) == args + FileArgs(s, room - |args|)
      decreases |s|
    {
      var n := Piece(s);
      var t := Token(s[..n]);
      if t != [] {
        Reappend(args, [t], FileArgs(s[n..], room - |args| - 1));
        args := args + [t];
      }
      s := s[n..];
    }
    assert args + [] == args;
  }

  /** get_args: the arguments, and the text of the new boot message. */
  method GetArgs(given: seq<string>, text: string, file: Option<string>) returns (args: seq<string>, text': string)
    ensures args == Args(given, text, file) && text' == Compose(args) && (given != [] ==> args == given)
    ensures given == [] && (Stored(text).None? || Stored(text).value == []) ==>
      forall list, ends :: Holds(list, ends) && file == Some(Written(list, ends)) ==> args == First(list, MAX_ARGS - 1)
    ensures given == [] ==> forall list :: AllProper(list) && Fits(list) && list != [] && text == Compose(list) ==> args == list
  {
    hide Tokens, FileArgs, Compose, Written, Fits, Proper, LineEnds, Plain;
    forall list, ends | Holds(list, ends) && file == Some(Written(list, ends)) && (Stored(text).None? || Stored(text).value == [])
      ensures Args([], text, file) == First(list, MAX_ARGS - 1)
    {
      FileTaken(text, list, ends);
    }
    forall list | AllProper(list) && Fits(list) && list != [] && text == Compose(list)
      ensures Args([], text, file) == list
    {
      StoredExactly(list);
    }
    args := given;
    if args == [] {
      var ts := Split(text, MAX_ARGS);
      if ts != [] && ts[0] == NAME {
        args := ts[1..];
      }
    }
    if args == [] && file.Some? {
      args := ReadFile(file.value, MAX_ARGS - 1);
    }
    text' := Store(args);
  }
}
