/** What reordering does to the list itself: a stable partition, and nothing more the second time. */
module FlagOrder {
  import opened Flags
  import opened Prelude

  // ---- Stable partition --------------------------------------------------------------------------

  /** Where the separator that ends flag processing is, or the length if there is none. */
  function SeparatorAt(fs: FlagSet, args: seq<string>): (k: nat)
    ensures k <= |args| && (k < |args| ==> args[k] == SEPARATOR)
    decreases |args|
  {
    if AtFlag(args) then Width(fs, args) + SeparatorAt(fs, args[Width(fs, args)..])
    else if AtPositional(args) then 1 + SeparatorAt(fs, args[1..])
    else 0
  }

  function Without(args: seq<string>, k: nat): seq<string> {
    if k < |args| then args[..k] + args[k + 1..] else args
  }

  function WithoutSeparator(fs: FlagSet, args: seq<string>): seq<string> {
    Without(args, SeparatorAt(fs, args))
  }

  /** The elements whose mark is b, in order. */
  function Select(s: seq<string>, marks: seq<bool>, b: bool): (r: seq<string>)
    requires |s| == |marks|
  {
    if s == [] then []
    else (if marks[0] == b then [s[0]] else []) + Select(s[1..], marks[1..], b)
  }

  lemma {:induction false} SelectConcat(s: seq<string>, t: seq<string>, m: seq<bool>, n: seq<bool>, b: bool)
    requires |s| == |m| && |t| == |n|
    ensures Select(s + t, m + n, b) == Select(s, m, b) + Select(t, n, b)
  {
    if s == [] {
      assert s + t == t && m + n == n;
    } else {
      SelectConcat(s[1..], t, m[1..], n, b);
      assert (s + t)[1..] == s[1..] + t && (m + n)[1..] == m[1..] + n;
      assert (s + t)[0] == s[0] && (m + n)[0] == m[0];
    }
  }

  lemma {:induction false} SelectSame(s: seq<string>, c: bool, b: bool)
    ensures Select(s, seq(|s|, _ => c), b) == if b == c then s else []
  {
    if s != [] {
      assert seq(|s|, _ => c)[1..] == seq(|s[1..]|, _ => c);
      SelectSame(s[1..], c, b);
      assert [s[0]] + s[1..] == s;
    }
  }

  lemma SelectStep(s: seq<string>, marks: seq<bool>, b: bool)
    requires |s| == |marks| && s != []
    ensures multiset(Select(s, marks, b)) ==
            (if marks[0] == b then multiset{s[0]} else multiset{}) + multiset(Select(s[1..], marks[1..], b))
  {
  }

  lemma {:induction false} SelectSplits(s: seq<string>, marks: seq<bool>)
    requires |s| == |marks|
    ensures multiset(Select(s, marks, true)) + multiset(Select(s, marks, false)) == multiset(s)
  {
    if s != [] {
      SelectSplits(s[1..], marks[1..]);
      SelectStep(s, marks, true);
      SelectStep(s, marks, false);
      assert s == [s[0]] + s[1..];
      assert multiset(s) == multiset{s[0]} + multiset(s[1..]);
    }
  }

  lemma DropLater(args: seq<string>, w: nat, k: nat)
    requires w <= |args|
    ensures Without(args, w + k) == args[..w] + Without(args[w..], k)
  {
    if w + k < |args| {
      assert args[w..][k + 1..] == args[w + k + 1..];
      assert args[..w + k] == args[..w] + args[w..][..k];
    } else {
      assert args == args[..w] + args[w..];
    }
  }

  /**
   * Reordering is a stable partition of the arguments other than the separator: some marking of them
   * selects the flags with their values, in order, and leaves the positionals, in order.
   */
  lemma {:induction false} StablePartition(fs: FlagSet, args: seq<string>) returns (marks: seq<bool>)
    ensures |marks| == |WithoutSeparator(fs, args)|
    ensures Select(WithoutSeparator(fs, args), marks, true) == FlagArgs(fs, args)
    ensures Select(WithoutSeparator(fs, args), marks, false) == Positionals(fs, args)
    decreases |args|
  {
    if AtFlag(args) {
      marks := MarkFront(fs, args, Width(fs, args), true);
    } else if AtPositional(args) {
      marks := MarkFront(fs, args, 1, false);
      assert args[..1] == [args[0]];
    } else {
      var rest := WithoutSeparator(fs, args);
      marks := seq(|rest|, _ => false);
      SelectSame(rest, false, true);
      SelectSame(rest, false, false);
    }
  }

  lemma {:induction false} MarkFront(fs: FlagSet, args: seq<string>, w: nat, b: bool) returns (marks: seq<bool>)
    requires 0 < w <= |args| && SeparatorAt(fs, args) == w + SeparatorAt(fs, args[w..])
    ensures |marks| == |WithoutSeparator(fs, args)|
    ensures Select(WithoutSeparator(fs, args), marks, b) ==
            args[..w] + if b then FlagArgs(fs, args[w..]) else Positionals(fs, args[w..])
    ensures Select(WithoutSeparator(fs, args), marks, !b) ==
            if b then Positionals(fs, args[w..]) else FlagArgs(fs, args[w..])
    decreases |args|, 0
  {
    var rest := StablePartition(fs, args[w..]);
    var front := seq(w, _ => b);
    marks := front + rest;
    DropLater(args, w, SeparatorAt(fs, args[w..]));
    SelectFront(args[..w], WithoutSeparator(fs, args[w..]), rest, b);
    assert front == seq(|args[..w]|, _ => b);
  }

  lemma SelectFront(front: seq<string>, s: seq<string>, marks: seq<bool>, b: bool)
    requires |s| == |marks|
    ensures Select(front + s, seq(|front|, _ => b) + marks, b) == front + Select(s, marks, b)
    ensures Select(front + s, seq(|front|, _ => b) + marks, !b) == Select(s, marks, !b)
  {
    var same := seq(|front|, _ => b);
    SelectSame(front, b, b);
    SelectSame(front, b, !b);
    SelectConcat(front, s, same, marks, b);
    SelectConcat(front, s, same, marks, !b);
  }

  /** Nothing is lost or made up but the separator. */
  lemma IsPermutation(fs: FlagSet, args: seq<string>)
    ensures multiset(Permuted(fs, args)) == multiset(WithoutSeparator(fs, args))
  {
    var marks := StablePartition(fs, args);
    SelectSplits(WithoutSeparator(fs, args), marks);
  }

  // ---- Twice is once -------------------------------------------------------------------------------

  predicate Plain(args: seq<string>) { forall a :: a in args ==> !FlagLike(a) }

  lemma {:induction false} PlainStays(fs: FlagSet, args: seq<string>)
    requires Plain(args)
    ensures FlagArgs(fs, args) == [] && Positionals(fs, args) == args
  {
    if args != [] {
      assert FlagLike(SEPARATOR);
      PlainStays(fs, args[1..]);
    }
  }

  /** With plain arguments behind the flags there is nothing left to move. */
  lemma {:induction false} FlagsInFrontStay(fs: FlagSet, args: seq<string>, more: seq<string>)
    requires Plain(more)
    ensures Permuted(fs, FlagArgs(fs, args) + more) == FlagArgs(fs, args) + more
    decreases |args|
  {
    if AtFlag(args) {
      FrontStays(fs, args, more);
    } else if AtPositional(args) {
      FlagsInFrontStay(fs, args[1..], more);
    } else {
      PlainStays(fs, more);
      assert [] + more == more;
    }
  }

  lemma PermutedFront(fs: FlagSet, args: seq<string>)
    requires AtFlag(args)
    ensures Permuted(fs, args) == args[..Width(fs, args)] + Permuted(fs, args[Width(fs, args)..])
    ensures args == args[..Width(fs, args)] + args[Width(fs, args)..]
  {
  }

  /** A flag and its value with nothing but plain arguments behind. */
  lemma PairStays(fs: FlagSet, args: seq<string>)
    requires AtFlag(args) && Width(fs, args) == 2 && Plain(args[2..])
    ensures Permuted(fs, args) == args
  {
    PermutedFront(fs, args);
    PlainStays(fs, args[2..]);
  }

  lemma {:induction false} FrontStays(fs: FlagSet, args: seq<string>, more: seq<string>)
    requires AtFlag(args) && Plain(more)
    ensures Permuted(fs, FlagArgs(fs, args) + more) == FlagArgs(fs, args) + more
    decreases |args|, 0
  {
    var w := Width(fs, args);
    var tail := FlagArgs(fs, args[w..]) + more;
    var all := args[..w] + tail;
    assert FlagArgs(fs, args) + more == all;
    assert all[0] == args[0] && AtFlag(all);
    PermutedFront(fs, all);
    if Width(fs, all) == w {
      FlagsInFrontStay(fs, args[w..], more);
      assert all[w..] == tail && all[..w] == args[..w];
    } else {
      assert args[w..] == [] && tail == more && all[2..] == more[1..];
      PairStays(fs, all);
    }
  }

  predicate PlainTail(args: seq<string>, k: nat) { k >= |args| || Plain(args[k + 1..]) }

  lemma PlainTailLater(args: seq<string>, w: nat, k: nat)
    requires w <= |args| && PlainTail(args, w + k)
    ensures PlainTail(args[w..], k)
  {
    if k < |args[w..]| {
      assert args[w..][k + 1..] == args[w + k + 1..];
    }
  }

  lemma {:induction false} PlainWhenTailIs(fs: FlagSet, args: seq<string>)
    requires PlainTail(args, SeparatorAt(fs, args))
    ensures Plain(Positionals(fs, args))
    decreases |args|
  {
    if AtFlag(args) {
      var w := Width(fs, args);
      PlainTailLater(args, w, SeparatorAt(fs, args[w..]));
      PlainWhenTailIs(fs, args[w..]);
    } else if AtPositional(args) {
      PlainTailLater(args, 1, SeparatorAt(fs, args[1..]));
      PlainWhenTailIs(fs, args[1..]);
    }
  }

  /** Flags with their values first, then plain arguments only: nothing to move and no separator to drop. */
  predicate InFront(fs: FlagSet, args: seq<string>) {
    if AtFlag(args) then InFront(fs, args[Width(fs, args)..]) else Plain(args)
  }

  lemma {:induction false} FlagsStartWithFlag(fs: FlagSet, args: seq<string>)
    ensures FlagArgs(fs, args) == [] || FlagLike(FlagArgs(fs, args)[0])
  {
    if AtPositional(args) {
      FlagsStartWithFlag(fs, args[1..]);
    }
  }

  lemma HeadIsFlag(fs: FlagSet, args: seq<string>)
    ensures FlagArgs(fs, args) == [] || (Permuted(fs, args) != [] && FlagLike(Permuted(fs, args)[0]))
  {
    FlagsStartWithFlag(fs, args);
  }

  lemma {:induction false} NoFlagsIsPlain(fs: FlagSet, args: seq<string>)
    requires FlagArgs(fs, args) == [] && Positionals(fs, args) == args
    ensures Plain(args)
  {
    assert |Positionals(fs, args)| == |args|;
    if AtPositional(args) {
      assert Positionals(fs, args)[1..] == Positionals(fs, args[1..]);
      NoFlagsIsPlain(fs, args[1..]);
    }
  }

  /** A list is left as it is exactly when its flags are in front and the rest is plain. */
  lemma {:induction false} PermutedIsSameIff(fs: FlagSet, args: seq<string>)
    ensures Permuted(fs, args) == args <==> InFront(fs, args)
    decreases |args|
  {
    if AtFlag(args) {
      PermutedFront(fs, args);
      var w := Width(fs, args);
      PermutedIsSameIff(fs, args[w..]);
      SameFront(args[..w], Permuted(fs, args[w..]), args[w..]);
    } else if Plain(args) {
      PlainStays(fs, args);
      assert [] + args == args;
    } else if Permuted(fs, args) == args {
      HeadIsFlag(fs, args);
      if FlagArgs(fs, args) == [] {
        assert [] + Positionals(fs, args) == Positionals(fs, args);
        NoFlagsIsPlain(fs, args);
      }
    }
  }

  lemma SameFront(front: seq<string>, a: seq<string>, b: seq<string>)
    ensures front + a == front + b <==> a == b
  {
    assert (front + a)[|front|..] == a && (front + b)[|front|..] == b;
  }

  /** The last flag takes a value and nothing follows it. */
  predicate Dangling(fs: FlagSet, args: seq<string>) {
    if AtFlag(args) then (|args| == 1 && TakesNext(fs, args[0])) || Dangling(fs, args[Width(fs, args)..])
    else AtPositional(args) && Dangling(fs, args[1..])
  }

  lemma {:induction false} DanglingIsPlain(fs: FlagSet, args: seq<string>)
    requires Dangling(fs, args)
    ensures Plain(Positionals(fs, args))
    decreases |args|
  {
    if AtFlag(args) {
      if |args| == 1 && TakesNext(fs, args[0]) {
        assert args[Width(fs, args)..] == [];
      } else {
        DanglingIsPlain(fs, args[Width(fs, args)..]);
      }
    } else {
      DanglingIsPlain(fs, args[1..]);
    }
  }

  /** Flags that have their values are told from what follows, whatever that is. */
  lemma {:induction false} FlagsThenPermuted(fs: FlagSet, args: seq<string>, more: seq<string>)
    requires !Dangling(fs, args)
    ensures Permuted(fs, FlagArgs(fs, args) + more) == FlagArgs(fs, args) + Permuted(fs, more)
    decreases |args|
  {
    if AtFlag(args) {
      var w := Width(fs, args);
      var tail := FlagArgs(fs, args[w..]) + more;
      FlagsThenPermuted(fs, args[w..], more);
      FrontThenPermuted(fs, args, tail);
      Regroup(args[..w], FlagArgs(fs, args[w..]), more);
      Regroup(args[..w], FlagArgs(fs, args[w..]), Permuted(fs, more));
    } else if AtPositional(args) {
      FlagsThenPermuted(fs, args[1..], more);
    } else {
      assert [] + more == more && [] + Permuted(fs, more) == Permuted(fs, more);
    }
  }

  lemma FrontThenPermuted(fs: FlagSet, args: seq<string>, tail: seq<string>)
    requires AtFlag(args) && !(|args| == 1 && TakesNext(fs, args[0]))
    ensures Permuted(fs, args[..Width(fs, args)] + tail) == args[..Width(fs, args)] + Permuted(fs, tail)
  {
    var w := Width(fs, args);
    var all := args[..w] + tail;
    assert all[0] == args[0] && AtFlag(all) && Width(fs, all) == w;
    PermutedFront(fs, all);
    assert all[w..] == tail && all[..w] == args[..w];
  }

  /**
   * Reordering again changes nothing exactly when the positionals, taken as a command line of their
   * own, have their flags in front: always without a separator, where they are plain.
   */
  lemma PermutedTwiceIff(fs: FlagSet, args: seq<string>)
    ensures Permuted(fs, Permuted(fs, args)) == Permuted(fs, args) <==> InFront(fs, Positionals(fs, args))
  {
    var positional := Positionals(fs, args);
    if Dangling(fs, args) {
      DanglingIsPlain(fs, args);
      FlagsInFrontStay(fs, args, positional);
      PlainIsInFront(fs, positional);
    } else {
      FlagsThenPermuted(fs, args, positional);
      SameFront(FlagArgs(fs, args), Permuted(fs, positional), positional);
      PermutedIsSameIff(fs, positional);
    }
  }

  lemma PlainIsInFront(fs: FlagSet, args: seq<string>)
    requires Plain(args)
    ensures InFront(fs, args)
  {
  }

  /** In particular when nothing flag-like follows the separator, or there is none. */
  lemma PermutedTwice(fs: FlagSet, args: seq<string>)
    requires PlainTail(args, SeparatorAt(fs, args))
    ensures Permuted(fs, Permuted(fs, args)) == Permuted(fs, args)
  {
    PlainWhenTailIs(fs, args);
    PlainIsInFront(fs, Positionals(fs, args));
    PermutedTwiceIff(fs, args);
  }
}
