/** Finding the subcommand behind leading global flags. */
module Commands {
  import opened Flags
  import opened Prelude

  /** The flags accepted before the command. What follows holds for any such set. */
  const GLOBALS: FlagSet := map["url" := Valued, "key" := Valued, "timeout" := Valued, "json" := Switch]

  function Cut(s: string, c: char): string { s[..IndexOf(s, c)] }

  /** How many arguments a global flag spans when more follow or not; zero if it is none, or lacks its value. */
  function WidthOf(gs: FlagSet, arg: string, more: bool): (w: nat)
    ensures w <= if more then 2 else 1
  {
    if !FlagLike(arg) then 0 else
      var trimmed := TrimDashes(arg);
      var name := Cut(trimmed, '=');
      if '=' in trimmed || (name in gs && gs[name] == Switch) then 1
      else if name in gs && gs[name] == Valued && more then 2
      else 0
  }

  /** How a global flag may be written, with one dash or two, and what it then spans. */
  lemma GlobalWidths(gs: FlagSet, dashes: string, name: string, value: string, more: bool)
    requires (dashes == "-" || dashes == "--") && PlainName(name)
    ensures WidthOf(gs, dashes + name, more) ==
      if name !in gs then 0 else if gs[name] == Switch then 1 else if more then 2 else 0
    ensures WidthOf(gs, dashes + (name + "=" + value), more) == 1
  {
    NameCut(name, value);
    assert (name + "=" + value)[0] == name[0] && (name + "=" + value)[|name|] == '=';
    Dashed(dashes, name);
    Dashed(dashes, name + "=" + value);
    assert name[..|name|] == name;
  }

  /** The program's own: three that take a value, and one switch. */
  lemma ProgramGlobals(dashes: string, name: string)
    requires (dashes == "-" || dashes == "--") && PlainName(name)
    ensures WidthOf(GLOBALS, dashes + name, true) == 2 <==> name == "url" || name == "key" || name == "timeout"
    ensures WidthOf(GLOBALS, dashes + name, true) == 1 <==> name == "json"
  {
    GlobalWidths(GLOBALS, dashes, name, "", true);
  }

  /** A rule for how many arguments a flag spans, given whether another follows. */
  type Rule = (string, bool) -> nat

  /** A flag spans what there is, and only one that lacks its value cares whether more follows. */
  ghost predicate Sensible(width: Rule) {
    forall arg :: width(arg, false) <= 1 && width(arg, true) <= 2 && (width(arg, false) == 1 ==> width(arg, true) == 1)
  }

  function GlobalRule(gs: FlagSet): (width: Rule)
    ensures Sensible(width)
    ensures forall arg, more :: width(arg, more) == WidthOf(gs, arg, more)
  {
    (arg, more) => WidthOf(gs, arg, more)
  }

  /** Where the leading flags from index `i` on end. */
  function Leading(width: Rule, args: seq<string>, i: nat): (k: nat)
    requires Sensible(width) && i <= |args|
    ensures i <= k <= |args|
    decreases |args| - i
  {
    if i == |args| then i else
      var w := width(args[i], i + 1 < |args|);
      if w == 0 then i else Leading(width, args, i + w)
  }

  /** The command is the first argument that is no global flag; everything else keeps its order. */
  function SplitBy(width: Rule, args: seq<string>): (string, seq<string>)
    requires Sensible(width)
  {
    var k := Leading(width, args, 0);
    if k == |args| then ("", args) else (args[k], args[..k] + args[k + 1..])
  }

  function Split(gs: FlagSet, args: seq<string>): (string, seq<string>) { SplitBy(GlobalRule(gs), args) }

  /** Global flags only, each with its value. */
  predicate Complete(gs: FlagSet, g: seq<string>) { Leading(GlobalRule(gs), g, 0) == |g| }

  /** The three cases of the loop: how many arguments to take, none when this is not a global flag. */
  method Take(gs: FlagSet, arg: string, more: bool) returns (w: nat)
    requires FlagLike(arg)
    ensures w == GlobalRule(gs)(arg, more)
  {
    var trimmed := TrimDashes(arg);
    var inline := '=' in trimmed;
    var name := Cut(trimmed, '=');
    if inline || (name in gs && gs[name] == Switch) {
      return 1;
    } else if name in gs && gs[name] == Valued && more {
      return 2;
    }
    return 0;
  }

  lemma NoFlag(gs: FlagSet, arg: string, more: bool)
    requires !FlagLike(arg)
    ensures GlobalRule(gs)(arg, more) == 0
  {
  }

  lemma StopsAt(width: Rule, args: seq<string>, i: nat)
    requires Sensible(width) && i <= |args| && Leading(width, args, 0) == Leading(width, args, i) == i
    ensures SplitBy(width, args) == if i < |args| then (args[i], args[..i] + args[i + 1..]) else ("", args[..i])
  {
    assert args[..|args|] == args;
  }

  method SplitCommand(gs: FlagSet, args: seq<string>) returns (command: string, rest: seq<string>)
    ensures (command, rest) == Split(gs, args)
  {
    ghost var width := GlobalRule(gs);
    var leading: seq<string> := [];
    var i := 0;
    while i < |args| && FlagLike(args[i])
      invariant i <= |args| && leading == args[..i]
      invariant Leading(width, args, 0) == Leading(width, args, i)
    {
      var w := Take(gs, args[i], i + 1 < |args|);
      if w == 0 {
        break;
      }
      leading := leading + args[i..i + w];
      i := i + w;
    }
    if i < |args| && !FlagLike(args[i]) {
      NoFlag(gs, args[i], i + 1 < |args|);
    }
    StopsAt(width, args, i);
    if i >= |args| {
      return "", leading;
    }
    return args[i], leading + args[i + 1..];
  }

  /** Complete flags stay what they are with anything behind them. */
  lemma {:induction false} LeadingExtends(width: Rule, g: seq<string>, more: seq<string>, i: nat)
    requires Sensible(width) && i <= |g| && Leading(width, g, i) == |g|
    ensures Leading(width, g + more, i) == Leading(width, g + more, |g|)
    decreases |g| - i
  {
    if i < |g| {
      assert (g + more)[i] == g[i];
      LeadingExtends(width, g, more, i + width(g[i], i + 1 < |g|));
    }
  }

  lemma SplitsByAt(width: Rule, g: seq<string>, command: string, args: seq<string>)
    requires Sensible(width) && Leading(width, g, 0) == |g| && width(command, args != []) == 0
    ensures SplitBy(width, g + ([command] + args)) == (command, g + args)
  {
    var whole := g + ([command] + args);
    LeadingExtends(width, g, [command] + args, 0);
    assert whole[|g|] == command && |whole| == |g| + 1 + |args|;
    assert Leading(width, whole, |g|) == |g|;
    StopsAt(width, whole, |g|);
    assert whole[..|g|] == g && whole[|g| + 1..] == args;
  }

  /** Behind complete global flags, an argument that is none, or that lacks its value, is the command. */
  lemma SplitsAt(gs: FlagSet, g: seq<string>, command: string, args: seq<string>)
    requires Complete(gs, g) && WidthOf(gs, command, args != []) == 0
    ensures Split(gs, g + ([command] + args)) == (command, g + args)
  {
    SplitsByAt(GlobalRule(gs), g, command, args);
  }

  /** Global flags mean the same before the command and right after it. */
  lemma BothSpellings(gs: FlagSet, g: seq<string>, command: string, args: seq<string>)
    requires Complete(gs, g) && !FlagLike(command)
    ensures Split(gs, g + ([command] + args)) == (command, g + args)
    ensures Split(gs, [command] + (g + args)) == (command, g + args)
  {
    SplitsAt(gs, g, command, args);
    SplitsAt(gs, [], command, g + args);
    assert [] + ([command] + (g + args)) == [command] + (g + args);
    assert [] + (g + args) == g + args;
  }

  /** A last global flag without its value becomes the command itself. */
  lemma DanglingGlobal(gs: FlagSet, g: seq<string>, flag: string)
    requires Complete(gs, g) && FlagLike(flag) && TakesNext(gs, flag)
    ensures Split(gs, g + [flag]) == (flag, g)
  {
    var name := TrimDashes(flag);
    assert Cut(name, '=') == name;
    SplitsAt(gs, g, flag, []);
    assert [flag] + [] == [flag] && g + [] == g;
  }

  /** The documented pair of spellings, for the flags the program accepts before its command. */
  lemma URLFirst(host: string, command: string, args: seq<string>)
    requires !FlagLike(command)
    ensures Split(GLOBALS, ["--url", host] + ([command] + args)) == (command, ["--url", host] + args)
    ensures Split(GLOBALS, [command] + (["--url", host] + args)) == (command, ["--url", host] + args)
  {
    assert "--url" == "--" + "url" && PlainName("url");
    ProgramGlobals("--", "url");
    assert Complete(GLOBALS, ["--url", host]);
    BothSpellings(GLOBALS, ["--url", host], command, args);
  }
}
