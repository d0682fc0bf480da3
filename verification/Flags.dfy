/**
 * Moving flags ahead of positional arguments before Go's flag parser, which stops at the first
 * positional, sees them; and the parser itself, on uninterpreted flag values.
 */
module Flags {
  import opened Prelude

  datatype Kind = Switch | Valued

  /** The flags a command defines. */
  type FlagSet = map<string, Kind>

  predicate FlagLike(arg: string) { |arg| >= 2 && arg[0] == '-' }

  const SEPARATOR: string := "--"

  /** Every leading dash removed, as the reordering does it. */
  function TrimDashes(s: string): string {
    if s != [] && s[0] == '-' then TrimDashes(s[1..]) else s
  }

  /** One or two leading dashes removed, as the parser does it. */
  function Bare(arg: string): string
    requires FlagLike(arg)
  {
    if arg[1] == '-' then arg[2..] else arg[1..]
  }

  // ---- Reordering ------------------------------------------------------------------------------

  /** Whether a flag-like argument takes the next one as its value. */
  predicate TakesNext(fs: FlagSet, arg: string) {
    var name := TrimDashes(arg);
    '=' !in name && name in fs && fs[name] == Valued
  }

  /** How many arguments the flag in front keeps together. */
  function Width(fs: FlagSet, args: seq<string>): (w: nat)
    requires args != []
    ensures 1 <= w <= |args|
  {
    if TakesNext(fs, args[0]) && |args| > 1 then 2 else 1
  }

  predicate AtFlag(args: seq<string>) {
    args != [] && args[0] != SEPARATOR && FlagLike(args[0])
  }

  predicate AtPositional(args: seq<string>) {
    args != [] && args[0] != SEPARATOR && !FlagLike(args[0])
  }

  function FlagArgs(fs: FlagSet, args: seq<string>): seq<string> {
    if AtFlag(args) then args[..Width(fs, args)] + FlagArgs(fs, args[Width(fs, args)..])
    else if AtPositional(args) then FlagArgs(fs, args[1..])
    else []
  }

  function Positionals(fs: FlagSet, args: seq<string>): seq<string> {
    if AtFlag(args) then Positionals(fs, args[Width(fs, args)..])
    else if AtPositional(args) then [args[0]] + Positionals(fs, args[1..])
    else if args == [] then []
    else args[1..]
  }

  function Permuted(fs: FlagSet, args: seq<string>): seq<string> {
    FlagArgs(fs, args) + Positionals(fs, args)
  }

  /** What the loop has gathered before index i, and what the rest will add. */
  predicate Gathered(fs: FlagSet, args: seq<string>, i: nat, flags: seq<string>, positional: seq<string>) {
    && i <= |args|
    && FlagArgs(fs, args) == flags + FlagArgs(fs, args[i..])
    && Positionals(fs, args) == positional + Positionals(fs, args[i..])
  }

  lemma GatherNone(fs: FlagSet, args: seq<string>)
    ensures Gathered(fs, args, 0, [], [])
  {
    assert args[0..] == args;
    assert [] + FlagArgs(fs, args) == FlagArgs(fs, args) && [] + Positionals(fs, args) == Positionals(fs, args);
  }

  lemma GatherFlag(fs: FlagSet, args: seq<string>, i: nat, flags: seq<string>, positional: seq<string>, w: nat)
    requires i < |args| && args[i] != SEPARATOR && FlagLike(args[i])
    requires Gathered(fs, args, i, flags, positional)
    requires w == if TakesNext(fs, args[i]) && i + 1 < |args| then 2 else 1
    ensures i + w <= |args| && Gathered(fs, args, i + w, flags + args[i..i + w], positional)
  {
    assert AtFlag(args[i..]) && Width(fs, args[i..]) == w;
    assert args[i..][w..] == args[i + w..] && args[i..][..w] == args[i..i + w];
    Regroup(flags, args[i..i + w], FlagArgs(fs, args[i + w..]));
  }

  lemma GatherPositional(fs: FlagSet, args: seq<string>, i: nat, flags: seq<string>, positional: seq<string>)
    requires i < |args| && !FlagLike(args[i])
    requires Gathered(fs, args, i, flags, positional)
    ensures Gathered(fs, args, i + 1, flags, positional + [args[i]])
  {
    assert args[i] != SEPARATOR;
    assert AtPositional(args[i..]);
    assert args[i..][1..] == args[i + 1..];
    Regroup(positional, [args[i]], Positionals(fs, args[i + 1..]));
  }

  lemma GatherAll(fs: FlagSet, args: seq<string>, i: nat, flags: seq<string>, positional: seq<string>)
    requires Gathered(fs, args, i, flags, positional) && (i < |args| ==> args[i] == SEPARATOR)
    ensures Permuted(fs, args) == flags + if i < |args| then positional + args[i + 1..] else positional
  {
    if i < |args| {
      assert args[i..][1..] == args[i + 1..];
    } else {
      assert args[i..] == [];
    }
  }

  /** How many arguments a flag keeps together, asked of its definition as the flag package does. */
  method Keep(fs: FlagSet, arg: string, more: bool) returns (w: nat)
    ensures w == if TakesNext(fs, arg) && more then 2 else 1
  {
    var name := TrimDashes(arg);
    if '=' in name {
      return 1;
    }
    if name !in fs {
      return 1;
    }
    if fs[name] == Switch {
      return 1;
    }
    w := if more then 2 else 1;
  }

  method PermuteFlags(fs: FlagSet, args: seq<string>) returns (r: seq<string>)
    ensures r == Permuted(fs, args)
  {
    var flags: seq<string>, positional: seq<string> := [], [];
    var i := 0;
    GatherNone(fs, args);
    while i < |args|
      invariant Gathered(fs, args, i, flags, positional)
    {
      var arg := args[i];
      if arg == SEPARATOR {
        GatherAll(fs, args, i, flags, positional);
        positional := positional + args[i + 1..];
        return flags + positional;
      }
      if !FlagLike(arg) {
        GatherPositional(fs, args, i, flags, positional);
        positional := positional + [arg];
        i := i + 1;
      } else {
        var w := Keep(fs, arg, i + 1 < |args|);
        GatherFlag(fs, args, i, flags, positional, w);
        flags := flags + args[i..i + w];
        i := i + w;
      }
    }
    GatherAll(fs, args, i, flags, positional);
    r := flags + positional;
  }

  // ---- Parsing ---------------------------------------------------------------------------------

  datatype Assign = Assign(name: string, value: string)

  datatype Error = BadSyntax(arg: string) | Help | Undefined(name: string) | NeedsValue(name: string)

  /** The assignments made in order, and what is left or what was wrong. */
  datatype Outcome =
    | Parsed(assigns: seq<Assign>, rest: seq<string>)
    | Failed(assigns: seq<Assign>, error: Error)

  datatype One = Flag(assign: Assign, used: nat) | Wrong(error: Error)

  /** One flag in front, as the flag package reads it: one or two dashes, `=` or the next argument. */
  function ParseOne(fs: FlagSet, args: seq<string>): (r: One)
    requires AtFlag(args)
    ensures r.Flag? ==> 1 <= r.used <= |args|
  {
    var name := Bare(args[0]);
    if name == "" || name[0] == '-' || name[0] == '=' then Wrong(BadSyntax(args[0])) else
      var eq := IndexOf(name, '=');
      var flag := name[..eq];
      if flag !in fs then Wrong(if flag == "help" || flag == "h" then Help else Undefined(flag))
      else if eq < |name| then Flag(Assign(flag, name[eq + 1..]), 1)
      else if fs[flag] == Switch then Flag(Assign(flag, "true"), 1)
      else if |args| > 1 then Flag(Assign(flag, args[1]), 2)
      else Wrong(NeedsValue(flag))
  }

  predicate PlainName(name: string) { name != "" && name[0] != '-' && '=' !in name }

  lemma Dashed(dashes: string, name: string)
    requires dashes == "-" || dashes == "--"
    requires name == "" || name[0] != '-'
    ensures TrimDashes(dashes + name) == name
    ensures name != "" ==> FlagLike(dashes + name) && Bare(dashes + name) == name && dashes + name != SEPARATOR
  {
    assert (dashes + name)[|dashes|..] == name;
    assert (dashes + name)[1..] == dashes[1..] + name;
    assert TrimDashes(name) == name && ("-" + name)[1..] == name;
  }

  lemma NameCut(name: string, value: string)
    requires '=' !in name
    ensures IndexOf(name, '=') == |name|
    ensures IndexOf(name + "=" + value, '=') == |name|
    ensures (name + "=" + value)[..|name|] == name && (name + "=" + value)[|name| + 1..] == value
  {
    var s := name + "=" + value;
    assert s[|name|] == '=' && forall j :: 0 <= j < |name| ==> s[j] == name[j];
  }

  /** What the parser makes of `-name` and `--name`. */
  lemma ParsesName(fs: FlagSet, dashes: string, name: string, rest: seq<string>)
    requires (dashes == "-" || dashes == "--") && PlainName(name)
    ensures AtFlag([dashes + name] + rest)
    ensures ParseOne(fs, [dashes + name] + rest) ==
      if name !in fs then Wrong(if name == "help" || name == "h" then Help else Undefined(name))
      else if fs[name] == Switch then Flag(Assign(name, "true"), 1)
      else if rest != [] then Flag(Assign(name, rest[0]), 2)
      else Wrong(NeedsValue(name))
    ensures TakesNext(fs, dashes + name) <==> name in fs && fs[name] == Valued
  {
    Dashed(dashes, name);
    NameCut(name, "");
    assert name[..|name|] == name;
  }

  /** What it makes of `-name=value` and `--name=value`. */
  lemma ParsesInline(fs: FlagSet, dashes: string, name: string, value: string, rest: seq<string>)
    requires (dashes == "-" || dashes == "--") && PlainName(name)
    ensures AtFlag([dashes + (name + "=" + value)] + rest)
    ensures ParseOne(fs, [dashes + (name + "=" + value)] + rest) ==
      if name !in fs then Wrong(if name == "help" || name == "h" then Help else Undefined(name))
      else Flag(Assign(name, value), 1)
    ensures !TakesNext(fs, dashes + (name + "=" + value))
  {
    NameCut(name, value);
    assert (name + "=" + value)[0] == name[0] && (name + "=" + value)[|name|] == '=';
    Dashed(dashes, name + "=" + value);
  }

  function After(before: seq<Assign>, o: Outcome): Outcome {
    match o
    case Parsed(assigns, rest) => Parsed(before + assigns, rest)
    case Failed(assigns, error) => Failed(before + assigns, error)
  }

  lemma AfterAfter(a: seq<Assign>, b: seq<Assign>, o: Outcome)
    ensures After(a, After(b, o)) == After(a + b, o)
  {
    assert a + (b + o.assigns) == a + b + o.assigns;
  }

  /** Go's parser: flags up to the first positional argument or `--`. */
  function Parse(fs: FlagSet, args: seq<string>): Outcome
    decreases |args|
  {
    if AtFlag(args) then
      match ParseOne(fs, args)
      case Wrong(e) => Failed([], e)
      case Flag(a, used) => After([a], Parse(fs, args[used..]))
    else if args == [] || AtPositional(args) then Parsed([], args)
    else Parsed([], args[1..])
  }

  /** A parser that takes flags anywhere before `--`. */
  function ParseAnyOrder(fs: FlagSet, args: seq<string>): Outcome
    decreases |args|
  {
    if AtFlag(args) then
      match ParseOne(fs, args)
      case Wrong(e) => Failed([], e)
      case Flag(a, used) => After([a], ParseAnyOrder(fs, args[used..]))
    else if AtPositional(args) then
      match ParseAnyOrder(fs, args[1..])
      case Parsed(assigns, rest) => Parsed(assigns, [args[0]] + rest)
      case Failed(assigns, e) => Failed(assigns, e)
    else if args == [] then Parsed([], [])
    else Parsed([], args[1..])
  }

  // ---- Meaning is preserved ----------------------------------------------------------------------

  /** The assignments, and the first thing wrong with a flag if any, wherever the positionals are. */
  function FlagPart(fs: FlagSet, args: seq<string>): Outcome
    decreases |args|
  {
    if AtFlag(args) then
      match ParseOne(fs, args)
      case Wrong(e) => Failed([], e)
      case Flag(a, used) => After([a], FlagPart(fs, args[used..]))
    else if AtPositional(args) then FlagPart(fs, args[1..])
    else Parsed([], [])
  }

  lemma TrimIsBare(arg: string)
    requires FlagLike(arg) && Bare(arg) != "" && Bare(arg)[0] != '-'
    ensures TrimDashes(arg) == Bare(arg)
  {
    assert TrimDashes(arg) == TrimDashes(arg[1..]);
    if arg[1] == '-' {
      assert arg[1..][1..] == arg[2..];
      assert TrimDashes(arg[1..]) == TrimDashes(arg[2..]);
    }
  }

  /** Reordering and parsing agree on what a sound flag consumes. */
  lemma UsedIsWidth(fs: FlagSet, args: seq<string>)
    requires AtFlag(args) && ParseOne(fs, args).Flag?
    ensures ParseOne(fs, args).used == Width(fs, args)
  {
    TrimIsBare(args[0]);
    var name := Bare(args[0]);
    if IndexOf(name, '=') == |name| {
      assert name[..|name|] == name;
    }
  }

  /** A flag that lacks its value is the last argument, and reordering knows it takes one. */
  lemma LackingIsLast(fs: FlagSet, args: seq<string>)
    requires AtFlag(args) && ParseOne(fs, args).Wrong? && ParseOne(fs, args).error.NeedsValue?
    ensures |args| == 1 && Width(fs, args) == 1
    ensures TakesNext(fs, args[0])
  {
    TrimIsBare(args[0]);
    var name := Bare(args[0]);
    assert name[..|name|] == name;
  }

  lemma {:induction false} AnyOrderIsFlagPart(fs: FlagSet, args: seq<string>)
    ensures
      var part := FlagPart(fs, args);
      ParseAnyOrder(fs, args) == if part.Parsed? then Parsed(part.assigns, Positionals(fs, args)) else part
    decreases |args|
  {
    if AtFlag(args) {
      if ParseOne(fs, args).Flag? {
        UsedIsWidth(fs, args);
        AnyOrderIsFlagPart(fs, args[Width(fs, args)..]);
      }
    } else if AtPositional(args) {
      AnyOrderIsFlagPart(fs, args[1..]);
    }
  }

  /** What the parser makes of the flags with `more` behind them. */
  function Behind(fs: FlagSet, flags: Outcome, more: seq<string>): Outcome {
    match flags
    case Parsed(assigns, _) => After(assigns, Parse(fs, more))
    case Failed(assigns, NeedsValue(name)) =>
      if more == [] then flags
      else After(assigns + [Assign(name, more[0])], Parse(fs, more[1..]))
    case Failed(_, _) => flags
  }

  lemma BehindAfter(fs: FlagSet, a: seq<Assign>, flags: Outcome, more: seq<string>)
    ensures Behind(fs, After(a, flags), more) == After(a, Behind(fs, flags, more))
  {
    match flags
    case Parsed(assigns, _) => AfterAfter(a, assigns, Parse(fs, more));
    case Failed(assigns, NeedsValue(name)) =>
      if more != [] {
        assert a + assigns + [Assign(name, more[0])] == a + (assigns + [Assign(name, more[0])]);
        AfterAfter(a, assigns + [Assign(name, more[0])], Parse(fs, more[1..]));
      }
    case Failed(_, _) =>
  }

  /** How the flag in front reads once the rest of the arguments is replaced. */
  lemma FlagInFront(fs: FlagSet, args: seq<string>, tail: seq<string>)
    requires AtFlag(args)
    ensures AtFlag(args[..Width(fs, args)] + tail)
    ensures
      var was, now := ParseOne(fs, args), ParseOne(fs, args[..Width(fs, args)] + tail);
      if was.Flag? then now == Flag(was.assign, Width(fs, args))
      else if was.error.NeedsValue? && tail != [] then now == Flag(Assign(was.error.name, tail[0]), 2)
      else now == was
  {
    var w := Width(fs, args);
    var front := args[..w] + tail;
    assert front[0] == args[0] && |front| == w + |tail|;
    if ParseOne(fs, args).Flag? {
      UsedIsWidth(fs, args);
      if w == 2 {
        assert front[1] == args[1];
      }
    } else if ParseOne(fs, args).error.NeedsValue? {
      LackingIsLast(fs, args);
    }
  }

  /** Parsing the reordered flags with anything behind them, in every case. */
  lemma {:induction false} FlagsThenRest(fs: FlagSet, args: seq<string>, more: seq<string>)
    ensures Parse(fs, FlagArgs(fs, args) + more) == Behind(fs, FlagPart(fs, args), more)
    decreases |args|
  {
    if AtFlag(args) {
      FrontThenRest(fs, args, more);
      if ParseOne(fs, args).Flag? {
        UsedIsWidth(fs, args);
        var rest := args[Width(fs, args)..];
        FlagsThenRest(fs, rest, more);
        BehindAfter(fs, [ParseOne(fs, args).assign], FlagPart(fs, rest), more);
      }
    } else if AtPositional(args) {
      FlagsThenRest(fs, args[1..], more);
    } else {
      assert FlagArgs(fs, args) + more == more;
      assert [] + Parse(fs, more).assigns == Parse(fs, more).assigns;
    }
  }

  lemma FrontThenRest(fs: FlagSet, args: seq<string>, more: seq<string>)
    requires AtFlag(args)
    ensures
      var one, whole := ParseOne(fs, args), Parse(fs, FlagArgs(fs, args) + more);
      if one.Flag? then whole == After([one.assign], Parse(fs, FlagArgs(fs, args[Width(fs, args)..]) + more))
      else whole == Behind(fs, Failed([], one.error), more)
  {
    var w := Width(fs, args);
    var tail := FlagArgs(fs, args[w..]) + more;
    assert FlagArgs(fs, args) + more == args[..w] + tail;
    FlagInFront(fs, args, tail);
    assert (args[..w] + tail)[w..] == tail;
    var one := ParseOne(fs, args);
    if one.Wrong? && one.error.NeedsValue? {
      LackingIsLast(fs, args);
      assert FlagArgs(fs, args[w..]) == [] && tail == more;
      if more != [] {
        assert (args[..w] + more)[2..] == more[1..];
        assert [] + [Assign(one.error.name, more[0])] == [Assign(one.error.name, more[0])];
      }
    }
  }

  /** Parsing returns its input untouched exactly when there is nothing flag-like in front. */
  lemma {:induction false} NothingToParse(fs: FlagSet, args: seq<string>)
    ensures Parse(fs, args).Parsed? ==> |Parse(fs, args).rest| <= |args|
    ensures Parse(fs, args) == Parsed([], args) <==> args == [] || !FlagLike(args[0])
    decreases |args|
  {
    if AtFlag(args) && ParseOne(fs, args).Flag? {
      NothingToParse(fs, args[ParseOne(fs, args).used..]);
    }
  }

  /** Flags before a separator never run into it: a flag that lacks its value follows every positional. */
  lemma {:induction false} LackingMeansPlain(fs: FlagSet, args: seq<string>)
    requires FlagPart(fs, args).Failed? && FlagPart(fs, args).error.NeedsValue?
    ensures forall p :: p in Positionals(fs, args) ==> !FlagLike(p)
    decreases |args|
  {
    if AtFlag(args) {
      if ParseOne(fs, args).Flag? {
        UsedIsWidth(fs, args);
        LackingMeansPlain(fs, args[Width(fs, args)..]);
      } else {
        LackingIsLast(fs, args);
      }
    } else {
      LackingMeansPlain(fs, args[1..]);
    }
  }

  /**
   * When reordering is safe. Flags with another error fail alike. A last flag without its value
   * must have no positional to take; sound flags must not be followed by a positional that looks
   * like a flag, which only a separator lets through.
   */
  predicate Safe(fs: FlagSet, args: seq<string>) {
    var positional := Positionals(fs, args);
    match FlagPart(fs, args)
    case Parsed(_, _) => positional == [] || !FlagLike(positional[0])
    case Failed(_, NeedsValue(_)) => positional == []
    case Failed(_, _) => true
  }

  /** Reordering keeps the meaning of the command line exactly when it is safe. */
  lemma MeaningKeptIff(fs: FlagSet, args: seq<string>)
    ensures Parse(fs, Permuted(fs, args)) == ParseAnyOrder(fs, args) <==> Safe(fs, args)
  {
    var positional := Positionals(fs, args);
    AnyOrderIsFlagPart(fs, args);
    FlagsThenRest(fs, args, positional);
    match FlagPart(fs, args)
    case Parsed(assigns, _) =>
      NothingToParse(fs, positional);
      SoundFlagsThen(assigns, Parse(fs, positional), positional);
    case Failed(_, NeedsValue(_)) =>
      if positional != [] {
        LackingMeansPlain(fs, args);
        SwallowedParses(fs, args);
      }
    case Failed(_, _) =>
  }

  lemma SoundFlagsThen(assigns: seq<Assign>, o: Outcome, rest: seq<string>)
    ensures After(assigns, o) == Parsed(assigns, rest) <==> o == Parsed([], rest)
  {
    if After(assigns, o) == Parsed(assigns, rest) {
      assert |assigns + o.assigns| == |assigns|;
    }
    if o == Parsed([], rest) {
      assert assigns + [] == assigns;
    }
  }

  /** The unsafe dangling case: the flag takes the first positional, and parsing then succeeds. */
  lemma SwallowedParses(fs: FlagSet, args: seq<string>)
    requires FlagPart(fs, args).Failed? && FlagPart(fs, args).error.NeedsValue?
    requires Positionals(fs, args) != []
    ensures
      var part, positional := FlagPart(fs, args), Positionals(fs, args);
      Parse(fs, Permuted(fs, args)) ==
      Parsed(part.assigns + [Assign(part.error.name, positional[0])], positional[1..])
  {
    var part, positional := FlagPart(fs, args), Positionals(fs, args);
    FlagsThenRest(fs, args, positional);
    LackingMeansPlain(fs, args);
    NothingToParse(fs, positional[1..]);
    var assigns := part.assigns + [Assign(part.error.name, positional[0])];
    SoundFlagsThen(assigns, Parse(fs, positional[1..]), positional[1..]);
  }

  /** Two command lines whose meaning reordering changes: a flag without its value, and a dropped separator. */
  lemma MeaningLost()
    ensures
      var fs: FlagSet := map["o" := Valued];
      && Permuted(fs, ["tok", "-o"]) == ["-o", "tok"]
      && Parse(fs, ["-o", "tok"]) == Parsed([Assign("o", "tok")], [])
      && ParseAnyOrder(fs, ["tok", "-o"]) == Failed([], NeedsValue("o"))
    ensures
      var fs: FlagSet := map["n" := Switch];
      && Permuted(fs, ["--", "-n"]) == ["-n"]
      && Parse(fs, ["-n"]) == Parsed([Assign("n", "true")], [])
      && ParseAnyOrder(fs, ["--", "-n"]) == Parsed([], ["-n"])
  {
    DanglingTakes();
    SeparatorDropped();
  }

  lemma DanglingTakes()
    ensures
      var fs: FlagSet := map["o" := Valued];
      && Permuted(fs, ["tok", "-o"]) == ["-o", "tok"]
      && Parse(fs, ["-o", "tok"]) == Parsed([Assign("o", "tok")], [])
      && ParseAnyOrder(fs, ["tok", "-o"]) == Failed([], NeedsValue("o"))
  {
    var fs: FlagSet := map["o" := Valued];
    assert Bare("-o") == "o" && IndexOf("o", '=') == 1 && "o"[..1] == "o";
    assert ["tok", "-o"][1..] == ["-o"] && ["-o"][1..] == [] && ["-o"][..1] == ["-o"];
    assert ParseOne(fs, ["-o"]) == Wrong(NeedsValue("o"));
    assert ["-o", "tok"][2..] == [];
    assert ParseOne(fs, ["-o", "tok"]) == Flag(Assign("o", "tok"), 2);
    assert FlagArgs(fs, []) == [] && Positionals(fs, []) == [];
    LackingIsLast(fs, ["-o"]);
    assert FlagArgs(fs, ["-o"]) == ["-o"] && Positionals(fs, ["-o"]) == [];
  }

  lemma SeparatorDropped()
    ensures
      var fs: FlagSet := map["n" := Switch];
      && Permuted(fs, ["--", "-n"]) == ["-n"]
      && Parse(fs, ["-n"]) == Parsed([Assign("n", "true")], [])
      && ParseAnyOrder(fs, ["--", "-n"]) == Parsed([], ["-n"])
  {
    var fs: FlagSet := map["n" := Switch];
    assert Bare("-n") == "n" && IndexOf("n", '=') == 1 && "n"[..1] == "n";
    assert ["--", "-n"][1..] == ["-n"];
    assert ParseOne(fs, ["-n"]) == Flag(Assign("n", "true"), 1);
    assert ["-n"][1..] == [];
  }
}
