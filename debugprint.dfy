/**
 * The print plumbing of src/debugprint.ts: escaping a string for a Lua
 * pattern, packing print arguments into one tab-separated line, the
 * registry of print loggers that every console.log call fans out to, and
 * the in-game console buffer that keeps the newest MAX_CONSOLE_LINES lines.
 *
 * Print arguments arrive already rendered (`String(arg)` is host code).
 * A logger is either the module's own `consolelog` or a host function,
 * which the model names by a reference and reports as a call.
 */
module DebugPrint {
  import opened Wrappers
  import opened Text
  import Predefine

  const MaxConsoleLines: nat := 20

  /** The characters that escape_lua_pattern prefixes with `%`. */
  predicate Magic(c: char)
  {
    c in "^$()%.[]*+-?"
  }

  /** A character escape_lua_pattern rewrites: a magic character or NUL. */
  predicate Special(c: char)
  {
    Magic(c) || c == '\0'
  }

  /** The number of characters of `s` that escape_lua_pattern rewrites. */
  function CountSpecial(s: string): nat
  {
    if s == [] then 0 else (if Special(s[0]) then 1 else 0) + CountSpecial(s[1..])
  }

  /** The replacement of one character: `%c` for a magic one, `%z` for NUL, itself otherwise. */
  function EscapeChar(c: char): string
  {
    if c == '\0' then "%z" else if Magic(c) then ['%', c] else [c]
  }

  /** escape_lua_pattern: every character replaced by its escape. */
  function EscapeLuaPattern(s: string): (r: string)
    ensures |r| == |s| + CountSpecial(s)
    ensures (forall i :: 0 <= i < |s| ==> !Special(s[i])) ==> r == s
  {
    if s == [] then []
    else EscapeChar(s[0]) + EscapeLuaPattern(s[1..])
  }

  /** Reading an escaped pattern back: `%z` is NUL and `%c` is `c`. */
  function Unescape(r: string): string
  {
    if r == [] then []
    else if r[0] == '%' && |r| >= 2 then (if r[1] == 'z' then ['\0'] else [r[1]]) + Unescape(r[2..])
    else [r[0]] + Unescape(r[1..])
  }

  /** Escaping loses nothing: the escaped pattern reads back as the original string. */
  lemma {:induction false} UnescapeEscape(s: string)
    ensures Unescape(EscapeLuaPattern(s)) == s
  {
    if s != [] {
      var e := EscapeChar(s[0]);
      var rest := EscapeLuaPattern(s[1..]);
      UnescapeEscape(s[1..]);
      if |e| == 2 {
        assert (e + rest)[2..] == rest;
      } else {
        assert (e + rest)[1..] == rest;
      }
    }
  }

  /** Escaping works character by character. */
  lemma {:induction false} EscapeConcat(a: string, b: string)
    ensures EscapeLuaPattern(a + b) == EscapeLuaPattern(a) + EscapeLuaPattern(b)
  {
    if a != [] {
      assert (a + b)[0] == a[0] && (a + b)[1..] == a[1..] + b;
      EscapeConcat(a[1..], b);
      calc {
        EscapeLuaPattern(a + b);
        EscapeChar(a[0]) + EscapeLuaPattern(a[1..] + b);
        EscapeChar(a[0]) + (EscapeLuaPattern(a[1..]) + EscapeLuaPattern(b));
      }
    } else {
      assert a + b == b;
    }
  }

  /** packstring: each argument followed by a tab. */
  function Packed(args: seq<string>): (r: string)
    ensures r == [] <==> args == []
    ensures args != [] ==> r[|r| - 1] == '\t'
  {
    if args == [] then [] else Packed(args[..|args| - 1]) + args[|args| - 1] + "\t"
  }

  /** Packing a list is packing its parts one after the other. */
  lemma {:induction false} PackedConcat(a: seq<string>, b: seq<string>)
    ensures Packed(a + b) == Packed(a) + Packed(b)
    decreases |b|
  {
    if b == [] {
      assert a + b == a;
    } else {
      var n := |b| - 1;
      assert (a + b)[..|a + b| - 1] == a + b[..n] && (a + b)[|a + b| - 1] == b[n];
      PackedConcat(a, b[..n]);
      calc {
        Packed(a + b);
        Packed(a + b[..n]) + b[n] + "\t";
        Packed(a) + Packed(b[..n]) + b[n] + "\t";
        Packed(a) + (Packed(b[..n]) + b[n] + "\t");
        Packed(a) + Packed(b);
      }
    }
  }

  method PackString(args: seq<string>) returns (str: string)
    ensures str == Packed(args)
  {
    str := "";
    for i := 0 to |args|
      invariant str == Packed(args[..i])
    {
      assert args[..i + 1][..i] == args[..i];
      str := str + args[i] + "\t";
    }
    assert args[..|args|] == args;
  }

  /** The index of the first "\r\n" in `s`, or -1. */
  function FindCrlf(s: string): (i: int)
    ensures i == -1 || (0 <= i && i + 1 < |s| && s[i] == '\r' && s[i + 1] == '\n')
    ensures i == -1 ==> forall k :: 0 <= k < |s| - 1 ==> !(s[k] == '\r' && s[k + 1] == '\n')
    ensures i != -1 ==> forall k :: 0 <= k < i ==> !(s[k] == '\r' && s[k + 1] == '\n')
  {
    if |s| < 2 then -1
    else if s[0] == '\r' && s[1] == '\n' then 0
    else
      var k := FindCrlf(s[1..]);
      if k == -1 then -1 else k + 1
  }

  /** No "\r\n" occurs in `p`. */
  predicate NoCrlf(p: string)
  {
    forall k :: 0 <= k < |p| - 1 ==> !(p[k] == '\r' && p[k + 1] == '\n')
  }

  /** `s.split("\r\n")`: the pieces between the separators, at least one. */
  function SplitCrlf(s: string): (r: seq<string>)
    ensures |r| >= 1
    ensures forall p :: p in r ==> NoCrlf(p)
    decreases |s|
  {
    var i := FindCrlf(s);
    if i == -1 then [s]
    else [s[..i]] + SplitCrlf(s[i + 2..])
  }

  /** A string with "\r\n" at `i` is its prefix, the separator and its suffix. */
  lemma CrlfAt(s: string, i: nat)
    requires i + 1 < |s| && s[i] == '\r' && s[i + 1] == '\n'
    ensures s[..i] + "\r\n" + s[i + 2..] == s
  {
    assert s[i..i + 2] == "\r\n";
    assert s == s[..i] + s[i..i + 2] + s[i + 2..];
  }

  /** Splitting on "\r\n" and joining with "\r\n" gives the string back. */
  lemma {:induction false} JoinSplit(s: string)
    ensures Join(SplitCrlf(s), "\r\n") == s
    decreases |s|
  {
    var i := FindCrlf(s);
    if i != -1 {
      var rest := SplitCrlf(s[i + 2..]);
      JoinSplit(s[i + 2..]);
      calc {
        Join(SplitCrlf(s), "\r\n");
        Join([s[..i]] + rest, "\r\n");
        { assert ([s[..i]] + rest)[1..] == rest; }
        s[..i] + "\r\n" + Join(rest, "\r\n");
        s[..i] + "\r\n" + s[i + 2..];
        { CrlfAt(s, i); }
        s;
      }
    }
  }

  /** `d` occurs in `s` at index `i`. */
  predicate OccursAt(s: string, d: string, i: int)
  {
    0 <= i && i + |d| <= |s| && s[i..i + |d|] == d
  }

  /** `str.replace(pattern, "")` for the pattern that matches `d` literally: every occurrence dropped, left to right. */
  function RemoveAll(s: string, d: string): (r: string)
    requires |d| > 0
    ensures |r| <= |s|
    ensures (forall i :: !OccursAt(s, d, i)) ==> r == s
  {
    if |s| < |d| then s
    else if s[..|d|] == d then
      assert OccursAt(s, d, 0);
      RemoveAll(s[|d|..], d)
    else
      var t := RemoveAll(s[1..], d);
      assert forall i :: OccursAt(s[1..], d, i) ==> OccursAt(s, d, i + 1);
      [s[0]] + t
  }

  /** The directory prefix stripped from console lines: CWD with forward slashes, then "/". */
  function ConsoleDir(cwd: Option<string>): (r: string)
    ensures |r| >= 1 && r[|r| - 1] == '/'
    ensures '\\' !in r
    ensures cwd.Some? ==> |r| == |cwd.value| + 1
  {
    var c := if cwd.Some? then cwd.value else "";
    seq(|c|, i requires 0 <= i < |c| => if c[i] == '\\' then '/' else c[i]) + "/"
  }

  /** The newest MAX_CONSOLE_LINES entries of `s`. */
  function Newest(s: seq<string>): (r: seq<string>)
    ensures |r| == if |s| > MaxConsoleLines then MaxConsoleLines else |s|
    ensures r == s[|s| - |r|..]
  {
    if |s| > MaxConsoleLines then s[|s| - MaxConsoleLines..] else s
  }

  /**
   * consolelog's effect on the buffer: the old lines followed by the new
   * pieces, of which only the newest MAX_CONSOLE_LINES are kept.
   */
  function ConsoleLogged(d: seq<string>, dir: string, args: seq<string>): (r: seq<string>)
    requires |dir| > 0
    ensures var all := d + SplitCrlf(RemoveAll(Packed(args), dir));
      && |r| == (if |all| > MaxConsoleLines then MaxConsoleLines else |all|)
      && r == all[|all| - |r|..]
  {
    Newest(d + SplitCrlf(RemoveAll(Packed(args), dir)))
  }

  datatype Logger = ConsoleLog | HostLogger(fn: nat)

  datatype HostCall = HostCall(fn: nat, line: string)

  /** The host loggers of a registry, in registration order. */
  function Hosts(loggers: seq<Logger>): (r: seq<nat>)
    ensures |r| <= |loggers|
  {
    if loggers == [] then []
    else
      var last := loggers[|loggers| - 1];
      Hosts(loggers[..|loggers| - 1]) + (if last.HostLogger? then [last.fn] else [])
  }

  /** The overridden console.log: the host calls made and the console buffer after every logger got `str`. */
  function Fanout(loggers: seq<Logger>, str: string, dir: string, d: seq<string>): (r: (seq<HostCall>, seq<string>))
    requires |dir| > 0
    ensures |r.0| == |Hosts(loggers)|
    ensures forall k :: 0 <= k < |r.0| ==> r.0[k] == HostCall(Hosts(loggers)[k], str)
    ensures r.1 == d || |r.1| <= MaxConsoleLines
  {
    if loggers == [] then ([], d)
    else
      var (calls, buf) := Fanout(loggers[..|loggers| - 1], str, dir, d);
      match loggers[|loggers| - 1]
      case ConsoleLog => (calls, ConsoleLogged(buf, dir, [str]))
      case HostLogger(fn) => (calls + [HostCall(fn, str)], buf)
  }

  class Console {
    const dir: string
    var loggers: seq<Logger>
    var debugstr: seq<string>

    /** The module's start-up: the console buffer is registered as a logger off consoles. */
    constructor (platform: string, cwd: Option<string>)
      ensures dir == ConsoleDir(cwd) && debugstr == []
      ensures loggers == if Predefine.IsNotConsole(platform) then [ConsoleLog] else []
    {
      dir := ConsoleDir(cwd);
      debugstr := [];
      loggers := if Predefine.IsNotConsole(platform) then [ConsoleLog] else [];
    }

    method AddPrintLogger(fn: Logger)
      modifies this`loggers
      ensures loggers == old(loggers) + [fn]
    {
      loggers := loggers + [fn];
    }

    /** GetConsoleOutputList. */
    function GetConsoleOutputList(): (r: seq<string>)
      reads this
      ensures |r| == |debugstr| && forall k :: 0 <= k < |r| ==> r[k] == debugstr[k]
    {
      debugstr
    }

    /** consolelog: push the "\r\n"-separated pieces, then drop the oldest lines beyond the limit. */
    method ConsoleLogLines(args: seq<string>)
      requires |dir| > 0
      modifies this`debugstr
      ensures debugstr == ConsoleLogged(old(debugstr), dir, args)
    {
      var str := PackString(args);
      str := RemoveAll(str, dir);
      var lines := SplitCrlf(str);
      for i := 0 to |lines|
        invariant debugstr == old(debugstr) + lines[..i]
      {
        assert lines[..i + 1] == lines[..i] + [lines[i]];
        debugstr := debugstr + [lines[i]];
      }
      assert lines[..|lines|] == lines;
      ghost var all := debugstr;
      while |debugstr| > MaxConsoleLines
        invariant |debugstr| <= |all| && debugstr == all[|all| - |debugstr|..]
        invariant |all| > MaxConsoleLines ==> |debugstr| >= MaxConsoleLines
        invariant |all| <= MaxConsoleLines ==> debugstr == all
      {
        debugstr := debugstr[1..];
      }
    }

    /** console.log: pack the arguments once and hand the line to every logger in registration order. */
    method Log(args: seq<string>) returns (calls: seq<HostCall>)
      requires |dir| > 0
      modifies this`debugstr
      ensures (calls, debugstr) == Fanout(loggers, Packed(args), dir, old(debugstr))
    {
      var str := PackString(args);
      calls := [];
      for i := 0 to |loggers|
        invariant (calls, debugstr) == Fanout(loggers[..i], str, dir, old(debugstr))
      {
        assert loggers[..i + 1][..i] == loggers[..i];
        match loggers[i]
        case ConsoleLog =>
          ConsoleLogLines([str]);
        case HostLogger(fn) =>
          calls := calls + [HostCall(fn, str)];
      }
      assert loggers[..|loggers|] == loggers;
    }
  }
}
