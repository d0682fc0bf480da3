/**
 * The natural mode: the text is scanned word by word, each word typed at a random speed, with a
 * pause to think after some sentences. Draws are arbitrary values in their ranges.
 */
module NaturalTyping {
  import opened Int64
  import opened Prelude
  import opened Typing
  import opened Recipient

  const READ_MIN: int := 300
  const READ_MAX: int := 900
  const JITTER_LO: real := 0.80
  const JITTER_HI: real := 1.25
  const PAUSE_PROBABILITY: real := 0.60
  const PAUSE_MIN: int := 350
  const PAUSE_MAX: int := 900
  const NANOS: real := 1_000_000_000.0

  /** A draw from [0, 1). */
  type Unit = r: real | 0.0 <= r < 1.0 witness 0.0

  /**
   * One message's draws, those for a word under that word's number. `junk` is what a conversion to
   * an integer gives when the value is out of range, which the language leaves open.
   */
  datatype Draws = Draws(
    speed: Unit,
    read: nat,
    jitter: nat -> Unit,
    roll: nat -> Unit,
    pause: nat -> nat,
    junk: nat -> int)

  function UniformMS(draw: nat, lo: int, hi: int): (d: int)
    ensures lo < hi ==> lo * MILLISECOND <= d <= hi * MILLISECOND
    ensures hi <= lo ==> d == lo * MILLISECOND
  {
    if hi <= lo then lo * MILLISECOND else (lo + draw % (hi - lo + 1)) * MILLISECOND
  }

  predicate IsSentenceEnd(c: char) {
    c == '.' || c == '!' || c == '?' || c == '\U{3002}' || c == '\U{FF01}' || c == '\U{FF1F}'
  }

  // ---- Words -----------------------------------------------------------------------------------

  /** A word, where the white space after it ends, and whether that holds a line break. */
  datatype Word = Word(start: nat, end: nat, next: nat, newline: bool)

  /** The first position from `i` on whose character is (or is not) white space. */
  function Skip(text: string, i: nat, space: bool): (j: nat)
    requires i <= |text|
    ensures i <= j <= |text|
    ensures forall k :: i <= k < j ==> IsSpace(text[k]) == space
    ensures j < |text| ==> IsSpace(text[j]) != space
    decreases |text| - i
  {
    if i < |text| && IsSpace(text[i]) == space then Skip(text, i + 1, space) else i
  }

  predicate WordsIn(text: string, words: seq<Word>) {
    forall k :: 0 <= k < |words| ==> words[k].start < words[k].end <= words[k].next <= |text|
  }

  /** The words from position `i` on. */
  function Words(text: string, i: nat): (words: seq<Word>)
    requires i <= |text|
    ensures WordsIn(text, words)
    decreases |text| - i
  {
    if i == |text| then [] else
      var end := Skip(text, i, false);
      var next := Skip(text, end, true);
      if end == i then Words(text, next)
      else [Word(i, end, next, '\n' in text[end..next])] + Words(text, next)
  }

  /** The characters of `text[..i]` that are not white space. */
  function Typed(text: string, i: nat): nat
    requires i <= |text|
  {
    if i == 0 then 0 else Typed(text, i - 1) + if IsSpace(text[i - 1]) then 0 else 1
  }

  function Lengths(words: seq<Word>): int {
    if words == [] then 0 else Lengths(words[..|words| - 1]) + words[|words| - 1].end - words[|words| - 1].start
  }

  predicate IsWord(text: string, w: Word) {
    && w.start < w.end <= w.next <= |text|
    && (forall k :: w.start <= k < w.end ==> !IsSpace(text[k]))
    && (forall k :: w.end <= k < w.next ==> IsSpace(text[k]))
    && (0 < w.start ==> IsSpace(text[w.start - 1]))
    && (w.end < |text| ==> IsSpace(text[w.end]))
    && (w.next < |text| ==> !IsSpace(text[w.next]))
  }

  /** A place where a scan may resume: the beginning, or just after white space. */
  predicate Boundary(text: string, i: nat) {
    i <= |text| && (i == 0 || i == |text| || IsSpace(text[i - 1]))
  }

  /** What a scan from `i` yields: maximal words, each but the last followed by the next. */
  predicate IsScan(text: string, i: nat, words: seq<Word>)
    requires i <= |text|
  {
    && (forall k :: 0 <= k < |words| ==> IsWord(text, words[k]))
    && (forall k :: 0 <= k < |words| - 1 ==> words[k].next == words[k + 1].start)
    && (words != [] ==> words[|words| - 1].next == |text|)
    && (i < |text| && !IsSpace(text[i]) ==> words != [] && words[0].start == i)
  }

  lemma FirstWord(text: string, i: nat)
    requires Boundary(text, i) && i < Skip(text, i, false)
    ensures var end := Skip(text, i, false); var next := Skip(text, end, true);
      IsWord(text, Word(i, end, next, '\n' in text[end..next]))
  {
  }

  lemma PrependWord(text: string, w: Word, words: seq<Word>)
    requires IsWord(text, w) && IsScan(text, w.next, words) && (w.next == |text| ==> words == [])
    ensures IsScan(text, w.start, [w] + words)
  {
    var all := [w] + words;
    forall k | 0 <= k < |all| ensures IsWord(text, all[k]) {
      if k > 0 {
        assert all[k] == words[k - 1];
      }
    }
    forall k | 0 <= k < |all| - 1 ensures all[k].next == all[k + 1].start {
      assert all[k + 1] == words[k];
      if k > 0 {
        assert all[k] == words[k - 1] && words[k - 1].next == words[k - 1 + 1].start;
      }
    }
    if words != [] {
      assert all[|all| - 1] == words[|words| - 1];
    }
  }

  lemma {:induction false} WordsAreMaximal(text: string, i: nat)
    requires Boundary(text, i)
    ensures IsScan(text, i, Words(text, i))
    decreases |text| - i
  {
    if i < |text| {
      var end := Skip(text, i, false);
      var next := Skip(text, end, true);
      WordsAreMaximal(text, next);
      if i < end {
        FirstWord(text, i);
        PrependWord(text, Word(i, end, next, '\n' in text[end..next]), Words(text, next));
      }
    }
  }

  lemma {:induction false} TypedRun(text: string, i: nat, j: nat, space: bool)
    requires i <= j <= |text| && forall k :: i <= k < j ==> IsSpace(text[k]) == space
    ensures Typed(text, j) == Typed(text, i) + if space then 0 else j - i
  {
    if i < j {
      TypedRun(text, i, j - 1, space);
    }
  }

  lemma {:induction false} LengthsPrepend(w: Word, words: seq<Word>)
    ensures Lengths([w] + words) == w.end - w.start + Lengths(words)
  {
    if words == [] {
      assert [w][..0] == [];
    } else {
      assert ([w] + words)[..|words|] == [w] + words[..|words| - 1];
      LengthsPrepend(w, words[..|words| - 1]);
    }
  }

  /** Every character that is not white space belongs to exactly one word. */
  lemma {:induction false} LengthsAreTyped(text: string, i: nat)
    requires i <= |text|
    ensures Lengths(Words(text, i)) == Typed(text, |text|) - Typed(text, i)
    decreases |text| - i
  {
    if i < |text| {
      var end := Skip(text, i, false);
      var next := Skip(text, end, true);
      TypedRun(text, i, end, false);
      TypedRun(text, end, next, true);
      LengthsAreTyped(text, next);
      if end > i {
        LengthsPrepend(Word(i, end, next, '\n' in text[end..next]), Words(text, next));
      }
    }
  }

  /** Where a word begins: a character that is not white space, first or after white space. */
  predicate Begins(text: string, i: nat)
    requires i < |text|
  {
    !IsSpace(text[i]) && (i == 0 || IsSpace(text[i - 1]))
  }

  function Beginnings(text: string, i: nat): nat
    requires i <= |text|
  {
    if i == 0 then 0 else Beginnings(text, i - 1) + if Begins(text, i - 1) then 1 else 0
  }

  lemma {:induction false} NoBeginnings(text: string, i: nat, j: nat)
    requires i <= j <= |text| && forall k :: i <= k < j ==> !Begins(text, k)
    ensures Beginnings(text, j) == Beginnings(text, i)
  {
    if i < j {
      NoBeginnings(text, i, j - 1);
    }
  }

  /** The scan finds as many words as there are beginnings. */
  lemma {:induction false} WordsAreBeginnings(text: string, i: nat)
    requires Boundary(text, i)
    ensures |Words(text, i)| == Beginnings(text, |text|) - Beginnings(text, i)
    decreases |text| - i
  {
    if i < |text| {
      var end := Skip(text, i, false);
      var next := Skip(text, end, true);
      if i < end {
        assert Begins(text, i);
        NoBeginnings(text, i + 1, end);
      }
      NoBeginnings(text, end, next);
      WordsAreBeginnings(text, next);
    }
  }

  // ---- The delay -------------------------------------------------------------------------------

  function Portion(u: real, width: real): real { u * width }

  lemma PortionInRange(u: real, width: real)
    requires 0.0 <= u <= 1.0 && 0.0 <= width
    ensures 0.0 <= Portion(u, width) <= width
  {
    MultiplyMonotone(u, 1.0, width, width);
  }

  /** The point `u` of the way from `lo` to `hi`. */
  function Between(u: Unit, lo: real, hi: real): (r: real)
    ensures lo <= hi ==> lo <= r <= hi
  {
    if lo <= hi then PortionInRange(u, hi - lo); lo + Portion(u, hi - lo) else lo + Portion(u, hi - lo)
  }

  function Speed(cfg: Config, d: Draws): (cps: real)
    ensures 0.0 < cps
  {
    var cps := Between(d.speed, cfg.minCPS, cfg.maxCPS);
    if cps <= 0.0 then 1.0 else cps
  }

  function Jitter(u: Unit): real { Between(u, JITTER_LO, JITTER_HI) }

  /** The typing time of a word before it is made an integer. */
  function WordTime(length: nat, cps: real, u: Unit): real
    requires 0.0 < cps
  {
    length as real / cps * Jitter(u) * NANOS
  }

  /** Conversion to an integer number of nanoseconds. */
  function Nanos(x: real, junk: int): (n: int)
    ensures InRange(n)
  {
    if 0.0 <= x < MAX as real then x.Floor else Wrap(junk)
  }

  predicate MayPause(text: string, w: Word)
    requires w.start < w.end <= |text|
  {
    w.next < |text| && (w.newline || IsSentenceEnd(text[w.end - 1]))
  }

  function PauseTime(text: string, w: Word, k: nat, d: Draws): int
    requires w.start < w.end <= |text|
  {
    if MayPause(text, w) && d.roll(k) < PAUSE_PROBABILITY then UniformMS(d.pause(k), PAUSE_MIN, PAUSE_MAX) else 0
  }

  function PartTime(w: Word, k: nat, cps: real, d: Draws): int
    requires w.start < w.end && 0.0 < cps
  {
    Nanos(WordTime(w.end - w.start, cps, d.jitter(k)), d.junk(k))
  }

  /** The time the text from `i` on takes, `k` words having come before; on unbounded integers. */
  function TimeFrom(text: string, i: nat, k: nat, cps: real, d: Draws): int
    requires i <= |text| && 0.0 < cps
    decreases |text| - i
  {
    if i == |text| then 0 else
      var end := Skip(text, i, false);
      var next := Skip(text, end, true);
      if end == i then TimeFrom(text, next, k, cps, d)
      else
        var w := Word(i, end, next, '\n' in text[end..next]);
        PartTime(w, k, cps, d) + PauseTime(text, w, k, d) + TimeFrom(text, next, k + 1, cps, d)
  }

  /** The time of the first `n` of `words`, the first being word number `k` of the text. */
  function SumOf(text: string, words: seq<Word>, k: nat, n: nat, cps: real, d: Draws): int
    requires WordsIn(text, words) && n <= |words| && 0.0 < cps
  {
    if n == 0 then 0 else
      SumOf(text, words, k, n - 1, cps, d) +
      (PartTime(words[n - 1], k + n - 1, cps, d) + PauseTime(text, words[n - 1], k + n - 1, d))
  }

  lemma {:induction false} SumPrepend(text: string, w: Word, words: seq<Word>, k: nat, n: nat, cps: real, d: Draws)
    requires w.start < w.end <= |text| && 0.0 < cps
    requires WordsIn(text, [w] + words) && WordsIn(text, words) && n <= |words|
    ensures SumOf(text, [w] + words, k, n + 1, cps, d) ==
            PartTime(w, k, cps, d) + PauseTime(text, w, k, d) + SumOf(text, words, k + 1, n, cps, d)
  {
    if n > 0 {
      SumPrepend(text, w, words, k, n - 1, cps, d);
      assert ([w] + words)[n] == words[n - 1];
    }
  }

  function SumAll(text: string, words: seq<Word>, k: nat, cps: real, d: Draws): int
    requires WordsIn(text, words) && 0.0 < cps
  {
    SumOf(text, words, k, |words|, cps, d)
  }

  lemma SumFirst(text: string, i: nat, k: nat, cps: real, d: Draws)
    requires i < |text| && 0.0 < cps && i < Skip(text, i, false)
    requires var next := Skip(text, Skip(text, i, false), true);
      TimeFrom(text, next, k + 1, cps, d) == SumAll(text, Words(text, next), k + 1, cps, d)
    ensures TimeFrom(text, i, k, cps, d) == SumAll(text, Words(text, i), k, cps, d)
  {
    var end := Skip(text, i, false);
    var next := Skip(text, end, true);
    var w, rest := Word(i, end, next, '\n' in text[end..next]), Words(text, next);
    assert Words(text, i) == [w] + rest;
    WordFirst(text, w, k, cps, d);
    SumPrepend(text, w, rest, k, |rest|, cps, d);
  }

  /** The delay of a text is the sum over its words, each typed once and paused after at most once. */
  lemma {:induction false} TimeIsSum(text: string, i: nat, k: nat, cps: real, d: Draws)
    requires i <= |text| && 0.0 < cps
    ensures TimeFrom(text, i, k, cps, d) == SumAll(text, Words(text, i), k, cps, d)
    decreases |text| - i
  {
    if i < |text| {
      var end := Skip(text, i, false);
      TimeIsSum(text, Skip(text, end, true), if i == end then k else k + 1, cps, d);
      if i < end {
        SumFirst(text, i, k, cps, d);
      }
    }
  }

  predicate Pauses(text: string, w: Word, k: nat, d: Draws)
    requires w.start < w.end <= |text|
  {
    MayPause(text, w) && d.roll(k) < PAUSE_PROBABILITY
  }

  /** How many of the first `n` words are followed by a pause. */
  function PauseCount(text: string, words: seq<Word>, n: nat, d: Draws): (c: nat)
    requires WordsIn(text, words) && n <= |words|
    ensures c <= n
  {
    if n == 0 then 0 else
      PauseCount(text, words, n - 1, d) + if Pauses(text, words[n - 1], n - 1, d) then 1 else 0
  }

  /** There are fewer pauses than words, none being made after the last; and only pauses take pausing time. */
  lemma PausesAreGaps(text: string, d: Draws)
    ensures var words := Words(text, 0);
      && PauseCount(text, words, |words|, d) <= Gaps(|words|)
      && forall k :: 0 <= k < |words| && !Pauses(text, words[k], k, d) ==> PauseTime(text, words[k], k, d) == 0
  {
    WordsAreMaximal(text, 0);
  }

  lemma {:induction false} LineBreakSeen(text: string, i: nat, k: nat)
    requires i <= |text| && k < |Words(text, i)|
    ensures var w := Words(text, i)[k]; w.newline == ('\n' in text[w.end..w.next])
    decreases |text| - i
  {
    var end := Skip(text, i, false);
    var next := Skip(text, end, true);
    if end == i {
      LineBreakSeen(text, next, k);
    } else if k > 0 {
      LineBreakSeen(text, next, k - 1);
    }
  }

  /**
   * There is a pause after word number `k` exactly when text follows, a sentence or line ends there, and
   * the roll is below 0.6; it lasts 350 to 900 milliseconds.
   */
  lemma PauseDecided(text: string, k: nat, d: Draws)
    requires k < |Words(text, 0)|
    ensures
      var w := Words(text, 0)[k];
      PauseTime(text, w, k, d) ==
        if w.next < |text| && d.roll(k) < 0.6 &&
          (text[w.end - 1] in ".!?\U{3002}\U{FF01}\U{FF1F}" || '\n' in text[w.end..w.next])
        then (350 + d.pause(k) % 551) * 1_000_000 else 0
  {
    LineBreakSeen(text, 0, k);
  }

  /** The speed is the drawn point between the bounds. */
  lemma SpeedDrawn(cfg: Config, d: Draws)
    requires Normalized(cfg)
    ensures Speed(cfg, d) == cfg.minCPS + d.speed * (cfg.maxCPS - cfg.minCPS)
  {
  }

  /** A word takes its length at that speed, times 0.80 to 1.25, cut to the nanosecond. */
  lemma TypingDecided(w: Word, k: nat, cps: real, d: Draws)
    requires w.start < w.end && 0.0 < cps
    ensures
      var time := (w.end - w.start) as real / cps * (0.80 + d.jitter(k) * 0.45) * 1_000_000_000.0;
      0.0 <= time < MAX as real ==> PartTime(w, k, cps, d) as real <= time < (PartTime(w, k, cps, d) + 1) as real
  {
    assert Jitter(d.jitter(k)) == 0.80 + d.jitter(k) * 0.45;
  }

  /** Reading takes a whole number of milliseconds from 300 to 900, and every one of them can be drawn. */
  lemma ReadingReaches(ms: int)
    ensures 300 <= ms <= 900 <==> exists draw: nat :: UniformMS(draw, READ_MIN, READ_MAX) == ms * MILLISECOND
  {
    if 300 <= ms <= 900 {
      assert UniformMS(ms - 300, READ_MIN, READ_MAX) == ms * MILLISECOND;
    }
  }

  /** The scanner's inner loops: one run of other characters, then one of white space. */
  method ScanWord(text: string, start: nat) returns (wordEnd: nat, next: nat, sawNewline: bool)
    requires start <= |text|
    ensures wordEnd == Skip(text, start, false) && next == Skip(text, wordEnd, true)
    ensures sawNewline == ('\n' in text[wordEnd..next])
  {
    var i := start;
    while i < |text| && !IsSpace(text[i])
      invariant start <= i <= |text|
      invariant Skip(text, start, false) == Skip(text, i, false)
    {
      i := i + 1;
    }
    wordEnd, sawNewline := i, false;
    while i < |text| && IsSpace(text[i])
      invariant wordEnd <= i <= |text|
      invariant Skip(text, wordEnd, true) == Skip(text, i, true)
      invariant sawNewline == ('\n' in text[wordEnd..i])
    {
      assert text[wordEnd..i + 1] == text[wordEnd..i] + [text[i]];
      if text[i] == '\n' {
        sawNewline := true;
      }
      i := i + 1;
    }
    next := i;
  }

  /** The delay before clamping, on unbounded integers. */
  function Exact(text: string, cfg: Config, d: Draws): int {
    UniformMS(d.read, READ_MIN, READ_MAX) + SumAll(text, Words(text, 0), 0, Speed(cfg, d), d)
  }

  /** The word in front takes its time, then the rest of the text. */
  lemma WordFirst(text: string, w: Word, k: nat, cps: real, d: Draws)
    requires 0.0 < cps && w.start < w.end <= w.next <= |text|
    requires w.end == Skip(text, w.start, false) && w.next == Skip(text, w.end, true)
    requires w.newline == ('\n' in text[w.end..w.next])
    ensures TimeFrom(text, w.start, k, cps, d) ==
            PartTime(w, k, cps, d) + PauseTime(text, w, k, d) + TimeFrom(text, w.next, k + 1, cps, d)
  {
  }

  /** One turn of the scanning loop: a word, if there is one here, and the white space after it. */
  method TypeWord(text: string, start: nat, k: nat, cps: real, d: Draws, sum: int, ghost exact: int)
    returns (i: nat, count: nat, total: int, ghost sofar: int)
    requires start < |text| && 0.0 < cps && sum == Wrap(exact)
    ensures start < i <= |text| && total == Wrap(sofar)
    ensures sofar + TimeFrom(text, i, count, cps, d) == exact + TimeFrom(text, start, k, cps, d)
  {
    var wordEnd, next, sawNewline := ScanWord(text, start);
    i, count, total, sofar := next, k, sum, exact;
    if start < wordEnd {
      var w := Word(start, wordEnd, next, sawNewline);
      WordFirst(text, w, k, cps, d);
      total := AddWord(text, w, k, cps, d, sum, exact);
      sofar := exact + (PartTime(w, k, cps, d) + PauseTime(text, w, k, d));
      count := k + 1;
    }
  }

  /** The scanning loop: adds up the words of the whole text, wrapping. */
  method TypeText(text: string, cps: real, d: Draws, read: int) returns (total: int)
    requires 0.0 < cps && InRange(read)
    ensures total == Wrap(read + SumAll(text, Words(text, 0), 0, cps, d))
  {
    TimeIsSum(text, 0, 0, cps, d);
    ghost var exact := read;
    total := read;
    var i, k := 0, 0;
    while i < |text|
      invariant 0 <= i <= |text| && 0 <= k
      invariant total == Wrap(exact)
      invariant exact + TimeFrom(text, i, k, cps, d) == read + TimeFrom(text, 0, 0, cps, d)
    {
      i, k, total, exact := TypeWord(text, i, k, cps, d, total, exact);
    }
  }

  method DrawSpeed(cfg: Config, d: Draws) returns (cps: real)
    ensures cps == Speed(cfg, d)
  {
    cps := Between(d.speed, cfg.minCPS, cfg.maxCPS);
    if cps <= 0.0 {
      cps := 1.0;
    }
  }

  method NaturalDuration(text: string, cfg: Config, d: Draws) returns (r: int)
    ensures r == Clamp(Wrap(Exact(text, cfg, d)), cfg.minTotal, cfg.maxTotal)
  {
    var cps := DrawSpeed(cfg, d);
    var total := UniformMS(d.read, READ_MIN, READ_MAX);
    total := TypeText(text, cps, d, total);
    r := Clamp(total, cfg.minTotal, cfg.maxTotal);
  }

  /** Adds one word, and the pause after it if more text follows and the draw says so. */
  method AddWord(text: string, w: Word, k: nat, cps: real, d: Draws, sum: int, ghost exact: int) returns (total: int)
    requires w.start < w.end <= w.next <= |text| && 0.0 < cps && sum == Wrap(exact)
    ensures total == Wrap(exact + (PartTime(w, k, cps, d) + PauseTime(text, w, k, d)))
  {
    var part := Nanos(WordTime(w.end - w.start, cps, d.jitter(k)), d.junk(k));
    WrapAdd(exact, part);
    total := Wrap(sum + part);
    if w.next < |text| && (w.newline || IsSentenceEnd(text[w.end - 1])) {
      if d.roll(k) < PAUSE_PROBABILITY {
        var pause := UniformMS(d.pause(k), PAUSE_MIN, PAUSE_MAX);
        WrapAdd(exact + part, pause);
        total := Wrap(total + pause);
      }
    }
  }

  lemma SpeedInRange(cfg: Config, d: Draws)
    requires Normalized(cfg)
    ensures cfg.minCPS <= Speed(cfg, d) <= cfg.maxCPS
  {
  }

  // ---- Bounds ----------------------------------------------------------------------------------

  lemma MultiplyMonotone(a: real, b: real, c: real, e: real)
    requires 0.0 <= a <= b && 0.0 <= c <= e
    ensures 0.0 <= a * c <= b * e
  {
    assert a * c <= b * c <= b * e;
  }

  /** Nanoseconds per character at the fastest and slowest. */
  function Fastest(cfg: Config): real requires 0.0 < cfg.maxCPS { JITTER_LO * NANOS / cfg.maxCPS }
  function Slowest(cfg: Config): real requires 0.0 < cfg.minCPS { JITTER_HI * NANOS / cfg.minCPS }

  /** At `cps` characters per second, a character takes between `fast` and `slow` nanoseconds. */
  predicate Rated(cps: real, fast: real, slow: real) {
    && 0.0 < cps && 0.0 <= fast && 0.0 <= slow
    && fast * cps <= JITTER_LO * NANOS && JITTER_HI * NANOS <= slow * cps
  }

  lemma SpeedIsRated(cfg: Config, d: Draws)
    requires Normalized(cfg)
    ensures Rated(Speed(cfg, d), Fastest(cfg), Slowest(cfg))
  {
    SpeedInRange(cfg, d);
    PerSecond(JITTER_LO * NANOS, Speed(cfg, d), cfg.maxCPS);
    SlowerBy(JITTER_HI * NANOS, cfg.minCPS, Speed(cfg, d));
  }

  /** `amount / hi` a unit, over the smaller number of units. */
  lemma PerSecond(amount: real, lo: real, hi: real)
    requires 0.0 < lo <= hi && 0.0 < amount
    ensures 0.0 < amount / hi && amount / hi * lo <= amount
  {
    var each := amount / hi;
    assert each * hi == amount;
    Positive(each, hi);
    MultiplyMonotone(each, each, lo, hi);
  }

  lemma SlowerBy(amount: real, lo: real, hi: real)
    requires 0.0 < lo <= hi && 0.0 < amount
    ensures 0.0 < amount / lo && amount <= amount / lo * hi
  {
    var each := amount / lo;
    assert each * lo == amount;
    Positive(each, lo);
    MultiplyMonotone(each, each, lo, hi);
  }

  lemma Positive(t: real, x: real)
    requires 0.0 < x && 0.0 < t * x
    ensures 0.0 < t
  {
  }

  lemma WordTimeInRange(length: nat, cps: real, u: Unit, fast: real, slow: real)
    requires Rated(cps, fast, slow)
    ensures fast * length as real <= WordTime(length, cps, u) <= slow * length as real
  {
    PerCharacter(length as real, length as real / cps, cps, Jitter(u), fast, slow);
  }

  lemma PerCharacter(n: real, seconds: real, cps: real, jitter: real, fast: real, slow: real)
    requires Rated(cps, fast, slow) && 0.0 <= n && seconds * cps == n && JITTER_LO <= jitter <= JITTER_HI
    ensures fast * n <= seconds * jitter * NANOS <= slow * n
  {
    Ratio(seconds, cps);
    MultiplyMonotone(seconds, seconds, fast * cps, jitter * NANOS);
    MultiplyMonotone(seconds, seconds, jitter * NANOS, slow * cps);
    assert seconds * (fast * cps) == fast * n && seconds * (slow * cps) == slow * n;
    assert seconds * (jitter * NANOS) == seconds * jitter * NANOS;
  }

  lemma Ratio(seconds: real, cps: real)
    requires 0.0 < cps && 0.0 <= seconds * cps
    ensures 0.0 <= seconds
  {
  }

  const PAUSE: real := 900_000_000.0

  /** The pauses a text of `words` words has room for. */
  function Gaps(words: nat): nat { if words == 0 then 0 else words - 1 }

  lemma LengthsNonNegative(text: string, i: nat)
    requires i <= |text|
    ensures 0 <= Lengths(Words(text, i))
  {
    LengthsAreTyped(text, i);
    TypedMonotone(text, i, |text|);
  }

  lemma {:induction false} TypedMonotone(text: string, i: nat, j: nat)
    requires i <= j <= |text|
    ensures Typed(text, i) <= Typed(text, j)
  {
    if i < j {
      TypedMonotone(text, i, j - 1);
    }
  }

  /** One word's contribution, if its conversion is in range. */
  lemma PartInRange(w: Word, k: nat, cps: real, d: Draws, fast: real, slow: real)
    requires Rated(cps, fast, slow) && w.start < w.end
    requires Times(slow, w.end - w.start) < MAX as real
    ensures Times(fast, w.end - w.start) - 1.0 <= PartTime(w, k, cps, d) as real <= Times(slow, w.end - w.start)
  {
    WordTimeInRange(w.end - w.start, cps, d.jitter(k), fast, slow);
    TimesIs(fast, w.end - w.start);
    TimesIs(slow, w.end - w.start);
    TimesNonNegative(fast, w.end - w.start);
  }

  lemma PauseInRange(text: string, w: Word, k: nat, d: Draws)
    requires w.start < w.end <= |text|
    ensures 0.0 <= PauseTime(text, w, k, d) as real <= PAUSE
    ensures w.next >= |text| ==> PauseTime(text, w, k, d) == 0
  {
  }

  /** `n` times `c`, by repeated addition. */
  function Times(c: real, n: nat): real {
    if n == 0 then 0.0 else Times(c, n - 1) + c
  }

  lemma {:induction false} TimesIs(c: real, n: nat)
    ensures Times(c, n) == c * n as real
  {
    if n > 0 {
      TimesIs(c, n - 1);
      DistributeReal(c, (n - 1) as real, 1.0);
    }
  }

  lemma DistributeReal(c: real, x: real, y: real)
    ensures c * (x + y) == c * x + c * y
  {
  }

  lemma {:induction false} TimesAdd(c: real, a: nat, b: nat)
    ensures Times(c, a + b) == Times(c, a) + Times(c, b)
  {
    if b > 0 {
      TimesAdd(c, a, b - 1);
    }
  }

  lemma {:induction false} TimesNonNegative(c: real, n: nat)
    requires 0.0 <= c
    ensures 0.0 <= Times(c, n)
  {
    if n > 0 {
      TimesNonNegative(c, n - 1);
    }
  }

  /** `t` lies between typing `l` characters in `w` words at `fast` and at `slow` per character. */
  predicate Within(t: int, l: nat, w: nat, fast: real, slow: real) {
    Times(fast, l) - w as real <= t as real <= Times(slow, l) + Times(PAUSE, Gaps(w))
  }

  /** One more word in front keeps the bounds. */
  lemma WithinGrows(t: int, l: nat, w: nat, n: nat, part: int, pause: int, fast: real, slow: real)
    requires Within(t, l, w, fast, slow)
    requires Times(fast, n) - 1.0 <= part as real <= Times(slow, n)
    requires 0.0 <= pause as real <= PAUSE && (w == 0 ==> pause == 0)
    ensures Within(part + pause + t, n + l, w + 1, fast, slow)
  {
    TimesAdd(slow, n, l);
    TimesAdd(fast, n, l);
    assert w > 0 ==> Times(PAUSE, w) == Times(PAUSE, w - 1) + PAUSE;
  }

  /** What a scan from a word on consists of: that word, and a scan from the next. */
  lemma FirstOfWords(text: string, i: nat)
    requires Boundary(text, i) && i < |text| && i < Skip(text, i, false)
    ensures var end := Skip(text, i, false); var next := Skip(text, end, true); var rest := Words(text, next);
      && Boundary(text, next)
      && |Words(text, i)| == |rest| + 1
      && Lengths(Words(text, i)) == end - i + Lengths(rest) && 0 <= Lengths(rest)
      && (rest == [] ==> next == |text|)
  {
    var end := Skip(text, i, false);
    var next := Skip(text, end, true);
    LengthsPrepend(Word(i, end, next, '\n' in text[end..next]), Words(text, next));
    LengthsNonNegative(text, next);
    WordsAreMaximal(text, next);
  }

  lemma WordStep(text: string, i: nat, k: nat, cps: real, d: Draws, fast: real, slow: real, l: nat, w: nat)
    requires Rated(cps, fast, slow) && i < |text| && i < Skip(text, i, false)
    requires var next := Skip(text, Skip(text, i, false), true);
      Within(TimeFrom(text, next, k + 1, cps, d), l, w, fast, slow) && (w == 0 ==> next == |text|)
    requires Times(slow, Skip(text, i, false) - i) < MAX as real
    ensures Within(TimeFrom(text, i, k, cps, d), Skip(text, i, false) - i + l, w + 1, fast, slow)
  {
    var end := Skip(text, i, false);
    var next := Skip(text, end, true);
    var word := Word(i, end, next, '\n' in text[end..next]);
    PartInRange(word, k, cps, d, fast, slow);
    PauseInRange(text, word, k, d);
    WithinGrows(TimeFrom(text, next, k + 1, cps, d), l, w, end - i,
                PartTime(word, k, cps, d), PauseTime(text, word, k, d), fast, slow);
  }

  /** `t` is within the bounds if the typing time they allow fits in an integer. */
  predicate Bounded(t: int, l: int, w: nat, fast: real, slow: real) {
    0 <= l && (Times(slow, l) < MAX as real ==> Within(t, l, w, fast, slow))
  }

  /** What the rest of a text contributes is bounded. */
  predicate RestBounded(text: string, i: nat, k: nat, cps: real, d: Draws, fast: real, slow: real)
    requires i <= |text| && 0.0 < cps
  {
    Bounded(TimeFrom(text, i, k, cps, d), Lengths(Words(text, i)), |Words(text, i)|, fast, slow)
  }

  lemma WordBounded(text: string, i: nat, k: nat, cps: real, d: Draws, fast: real, slow: real, l: nat, w: nat)
    requires Rated(cps, fast, slow) && i < |text| && i < Skip(text, i, false)
    requires var next := Skip(text, Skip(text, i, false), true);
      Bounded(TimeFrom(text, next, k + 1, cps, d), l, w, fast, slow) && (w == 0 ==> next == |text|)
    ensures Bounded(TimeFrom(text, i, k, cps, d), Skip(text, i, false) - i + l, w + 1, fast, slow)
  {
    var n := Skip(text, i, false) - i;
    if Times(slow, n + l) < MAX as real {
      BothFit(slow, n, l);
      WordStep(text, i, k, cps, d, fast, slow, l, w);
    }
  }

  /** One more word. */
  lemma WordThenRest(text: string, i: nat, k: nat, cps: real, d: Draws, fast: real, slow: real)
    requires Rated(cps, fast, slow) && Boundary(text, i) && i < |text| && i < Skip(text, i, false)
    requires RestBounded(text, Skip(text, Skip(text, i, false), true), k + 1, cps, d, fast, slow)
    ensures RestBounded(text, i, k, cps, d, fast, slow)
  {
    FirstOfWords(text, i);
    var rest := Words(text, Skip(text, Skip(text, i, false), true));
    WordBounded(text, i, k, cps, d, fast, slow, Lengths(rest), |rest|);
  }

  lemma BothFit(slow: real, a: nat, b: nat)
    requires 0.0 <= slow && Times(slow, a + b) < MAX as real
    ensures Times(slow, a) < MAX as real && Times(slow, b) < MAX as real
  {
    TimesAdd(slow, a, b);
    TimesNonNegative(slow, a);
    TimesNonNegative(slow, b);
  }

  /** All delays stay within the bounds, whatever is drawn. */
  lemma {:induction false} TimeInRange(text: string, i: nat, k: nat, cps: real, d: Draws, fast: real, slow: real)
    requires Rated(cps, fast, slow) && Boundary(text, i)
    ensures RestBounded(text, i, k, cps, d, fast, slow)
    decreases |text| - i
  {
    if i < |text| {
      var end := Skip(text, i, false);
      var next := Skip(text, end, true);
      TimeInRange(text, next, if i == end then k else k + 1, cps, d, fast, slow);
      if i < end {
        WordThenRest(text, i, k, cps, d, fast, slow);
      }
    }
  }

  /** No delay for this text can exceed this many nanoseconds before clamping. */
  function Longest(text: string, cfg: Config): real
    requires Normalized(cfg)
  {
    PAUSE + Times(Slowest(cfg), Typed(text, |text|)) + Times(PAUSE, Gaps(Beginnings(text, |text|)))
  }

  /** None is shorter than this. */
  function Shortest(text: string, cfg: Config): real
    requires Normalized(cfg)
  {
    300_000_000.0 + Times(Fastest(cfg), Typed(text, |text|)) - Beginnings(text, |text|) as real
  }

  /**
   * Unless it could overflow, the delay before clamping lies between reading for 300ms and typing at
   * the fastest (less a nanosecond a word), and reading for 900ms, typing at the slowest and pausing
   * for 900ms after every word but the last.
   */
  lemma NaturalBounds(text: string, cfg: Config, d: Draws)
    requires Normalized(cfg) && Longest(text, cfg) < MAX as real
    ensures Shortest(text, cfg) <= Exact(text, cfg, d) as real <= Longest(text, cfg)
    ensures Wrap(Exact(text, cfg, d)) == Exact(text, cfg, d)
  {
    SpeedIsRated(cfg, d);
    TimeIsSum(text, 0, 0, Speed(cfg, d), d);
    WholeText(text, Speed(cfg, d), d, Fastest(cfg), Slowest(cfg));
  }

  lemma WholeText(text: string, cps: real, d: Draws, fast: real, slow: real)
    requires Rated(cps, fast, slow)
    requires PAUSE + Times(slow, Typed(text, |text|)) + Times(PAUSE, Gaps(Beginnings(text, |text|))) < MAX as real
    ensures Within(TimeFrom(text, 0, 0, cps, d), Typed(text, |text|), Beginnings(text, |text|), fast, slow)
    ensures 0.0 <= Times(fast, Typed(text, |text|)) && Beginnings(text, |text|) <= MAX
  {
    LengthsAreTyped(text, 0);
    WordsAreBeginnings(text, 0);
    TimesNonNegative(slow, Typed(text, |text|));
    TimesNonNegative(fast, Typed(text, |text|));
    TimesIs(PAUSE, Gaps(Beginnings(text, |text|)));
    TimesNonNegative(PAUSE, Gaps(Beginnings(text, |text|)));
    TimeInRange(text, 0, 0, cps, d, fast, slow);
  }

  // ---- The delay of a message ------------------------------------------------------------------

  /** Off, empty and unknown give no delay; otherwise the delay is within the normalised clamps. */
  method Duration(text: string, base: Config, d: Draws) returns (r: int)
    ensures var cfg := WithDefaults(base);
      && (text == "" || cfg.mode == Off || cfg.mode.Unknown? ==> r == 0)
      && (text != "" && (cfg.mode == Constant || cfg.mode == Natural) ==> 0 < cfg.minTotal <= r <= cfg.maxTotal)
      && (text != "" && cfg.mode == Constant ==> r == Clamp(Wrap(|text| * cfg.perChar), cfg.minTotal, cfg.maxTotal))
      && (text != "" && cfg.mode == Natural ==> r == Clamp(Wrap(Exact(text, cfg, d)), cfg.minTotal, cfg.maxTotal))
  {
    if text == "" {
      return 0;
    }
    var cfg := WithDefaults(base);
    match cfg.mode {
      case Off => r := 0;
      case Constant => r := Clamp(Wrap(|text| * cfg.perChar), cfg.minTotal, cfg.maxTotal);
      case Natural => r := NaturalDuration(text, cfg, d);
      case _ => r := 0;
    }
  }

  /** A request cannot lower the configured floor, nor set a ceiling below it or a speed that is not positive. */
  lemma OverrideKeepsFloor(base: Config, o: Option<Override>)
    requires Normalized(base)
    ensures var cfg := WithDefaults(Apply(base, o));
      cfg.minTotal == base.minTotal && base.minTotal <= cfg.maxTotal && 0.0 < cfg.minCPS <= cfg.maxCPS
  {
  }
}
