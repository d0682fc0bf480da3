/** One webhook delivery: bounded attempts, and the pause between them. */
module Delivery {
  import opened Int64

  /** What came back from one HTTP attempt. */
  datatype Response = BadRequest | TransportError | Status(code: int)

  datatype Verdict = Success | Retryable | Permanent

  /** Transport errors, 5xx and 429 are worth another attempt; every other failure is final. */
  function Classify(r: Response): (v: Verdict)
    ensures v == Retryable <==> r == TransportError || (r.Status? && (r.code == 429 || 500 <= r.code))
    ensures v == Success <==> r.Status? && 200 <= r.code < 300
  {
    match r
    case BadRequest => Permanent
    case TransportError => Retryable
    case Status(code) =>
      if 200 <= code < 300 then Success
      else if code >= 500 || code == 429 then Retryable
      else Permanent
  }

  // ---- Backoff -------------------------------------------------------------------------------

  function Pow2(k: nat): (p: nat)
    ensures 1 <= p
  {
    if k == 0 then 1 else 2 * Pow2(k - 1)
  }

  function Shift(attempt: int): (s: nat)
    ensures s <= 12
  {
    if attempt < 0 then 0 else if attempt > 12 then 12 else attempt
  }

  /** The delay before jitter: `base << shift` on 64 bits, or the ceiling. */
  function Ceiling(attempt: int, base: int, max: int): int {
    var d := Wrap(base * Pow2(Shift(attempt)));
    if d <= 0 || d > max then max else d
  }

  /** `jitter` is the random draw; only its remainder in 0..half counts. */
  function Backoff(attempt: int, base: int, max: int, jitter: nat): int
    requires 0 < max
  {
    var half := Ceiling(attempt, base, max) / 2;
    if half <= 0 then 0 else half + jitter % (half + 1)
  }

  /** The delay the doubling stands for, on unbounded integers. */
  function Doubled(attempt: int, base: int, max: int): int {
    var d := base * Pow2(Shift(attempt));
    if d > max then max else d
  }

  /** Whatever wraps, the delay never leaves [0, max], and jitter only ever shortens it. */
  lemma BackoffInRange(attempt: int, base: int, max: int, jitter: nat)
    requires 0 < max && 0 < base
    ensures 0 < Ceiling(attempt, base, max) <= max
    ensures Ceiling(attempt, base, max) / 2 <= Backoff(attempt, base, max, jitter) <= Ceiling(attempt, base, max)
  {
  }

  lemma SmallRemainder(x: nat, m: nat)
    requires x < m
    ensures x % m == x
  {
  }

  /** Every delay from half the ceiling up to twice that half can be drawn, and no other. */
  lemma BackoffReaches(attempt: int, base: int, max: int, d: int)
    requires 0 < max && 0 < base && 2 <= Ceiling(attempt, base, max)
    ensures
      var half := Ceiling(attempt, base, max) / 2;
      half <= d <= 2 * half <==> exists jitter: nat :: Backoff(attempt, base, max, jitter) == d
  {
    var half := Ceiling(attempt, base, max) / 2;
    if half <= d <= 2 * half {
      SmallRemainder(d - half, half + 1);
      assert Backoff(attempt, base, max, d - half) == d;
    }
    if jitter: nat :| Backoff(attempt, base, max, jitter) == d {
      assert 0 <= jitter % (half + 1) < half + 1;
    }
  }

  /** The first ceiling is the base; where the base leaves room, each of the next twelve is twice the last. */
  lemma CeilingDoubles(a: nat, base: int, max: int)
    requires 0 < base && 0 < max && base * 4096 <= MAX && a < 12
    ensures Ceiling(0, base, max) == if base > max then max else base
    ensures Ceiling(a + 1, base, max) ==
      if 2 * Ceiling(a, base, max) > max then max else 2 * Ceiling(a, base, max)
  {
    BackoffGrows(a, a + 1, base, max);
    BackoffGrows(a + 1, a + 1, base, max);
    BackoffGrows(0, 0, base, max);
    ExactDoubles(base, a);
  }

  /**
   * The ceiling is the doubled delay exactly when the shift does not wrap to a value below the
   * maximum; any shift that fits in 64 bits is safe.
   */
  lemma CeilingIsDoubledIff(attempt: int, base: int, max: int)
    requires 0 < base && 0 < max <= MAX
    ensures
      var exact := base * Pow2(Shift(attempt));
      Ceiling(attempt, base, max) == Doubled(attempt, base, max) <==>
        exact <= MAX || !(0 < Wrap(exact) < max)
  {
    assert 0 < base * Pow2(Shift(attempt)) by {
      MulPositive(base, Pow2(Shift(attempt)));
    }
  }

  lemma MulPositive(a: int, b: int)
    requires 0 < a && 0 < b
    ensures 0 < a * b
  {
  }

  lemma PowerTable()
    ensures Pow2(4) == 16 && Pow2(8) == 256 && Pow2(10) == 1024 && Pow2(12) == 4096
  {
    assert Pow2(2) == 4;
    assert Pow2(4) == 4 * Pow2(2);
    assert Pow2(6) == 4 * Pow2(4);
    assert Pow2(8) == 4 * Pow2(6);
    assert Pow2(10) == 4 * Pow2(8);
  }

  lemma {:induction false} Pow2Monotone(j: nat, k: nat)
    requires j <= k
    ensures Pow2(j) <= Pow2(k)
  {
    if j < k {
      Pow2Monotone(j, k - 1);
    }
  }

  lemma MulMonotone(base: int, p: int, q: int)
    requires 0 < base && p <= q
    ensures base * p <= base * q
  {
  }

  /** Without overflow the delays grow, level off at the twelfth doubling, and stay there. */
  lemma BackoffGrows(a: nat, b: nat, base: int, max: int)
    requires 0 < base && 0 < max && a <= b && base * 4096 <= MAX
    ensures Ceiling(a, base, max) == Doubled(a, base, max)
    ensures Ceiling(a, base, max) <= Ceiling(b, base, max)
    ensures 12 <= a ==> Ceiling(a, base, max) == Ceiling(b, base, max)
  {
    PowerTable();
    forall s | s == Shift(a) || s == Shift(b) ensures 0 < base * Pow2(s) <= MAX {
      Pow2Monotone(s, 12);
      MulMonotone(base, Pow2(s), 4096);
      MulPositive(base, Pow2(s));
    }
    Pow2Monotone(Shift(a), Shift(b));
    MulMonotone(base, Pow2(Shift(a)), Pow2(Shift(b)));
  }

  function Exact(base: int, shift: nat): int { base * Pow2(shift) }

  /** The shift wraps round to a usable delay below the maximum. */
  predicate Dips(base: int, max: int, shift: nat) {
    Exact(base, shift) > MAX && 0 < Wrap(Exact(base, shift)) < max
  }

  ghost predicate NeverShrinks(base: int, max: int) {
    forall a: nat, b: nat :: a <= b ==> Ceiling(a, base, max) <= Ceiling(b, base, max)
  }

  lemma {:induction false} FirstOverflow(base: int, shift: nat) returns (s: nat)
    requires 0 < base <= MAX && Exact(base, shift) > MAX
    ensures 0 < s <= shift && Exact(base, s - 1) <= MAX < Exact(base, s)
  {
    if Exact(base, shift - 1) > MAX {
      s := FirstOverflow(base, shift - 1);
    } else {
      s := shift;
    }
  }

  lemma ExactDoubles(base: int, s: nat)
    ensures Exact(base, s + 1) == 2 * Exact(base, s)
  {
    var p := Pow2(s);
    assert base * (2 * p) == 2 * (base * p);
  }

  /** The first doubling that overflows wraps to a negative number, so it is cut to the maximum. */
  lemma FirstOverflowIsCut(base: int, max: int, s: nat)
    requires 0 < s <= 12 && Exact(base, s - 1) <= MAX < Exact(base, s)
    ensures Wrap(Exact(base, s)) < 0 && Ceiling(s, base, max) == max
  {
    ExactDoubles(base, s - 1);
    WrapCongruent(Exact(base, s), -1);
  }

  /** A shift that dips comes after one that was cut to the maximum. */
  lemma DipShrinks(base: int, max: int, s: nat)
    requires 0 < base <= MAX && 0 < max <= MAX && s <= 12 && Dips(base, max, s)
    ensures !NeverShrinks(base, max)
  {
    var t := FirstOverflow(base, s);
    FirstOverflowIsCut(base, max, t);
    assert Ceiling(s, base, max) == Wrap(Exact(base, s));
    assert t <= s && Ceiling(t, base, max) > Ceiling(s, base, max);
  }

  lemma DoubledMonotone(a: nat, b: nat, base: int, max: int)
    requires 0 < base && a <= b
    ensures Doubled(a, base, max) <= Doubled(b, base, max)
  {
    Pow2Monotone(Shift(a), Shift(b));
    MulMonotone(base, Pow2(Shift(a)), Pow2(Shift(b)));
  }

  /** A later ceiling is never below an earlier one exactly when no shift dips. */
  lemma NeverShrinksIff(base: int, max: int)
    requires 0 < base <= MAX && 0 < max <= MAX
    ensures NeverShrinks(base, max) <==> forall s: nat :: s <= 12 ==> !Dips(base, max, s)
  {
    if s: nat :| s <= 12 && Dips(base, max, s) {
      DipShrinks(base, max, s);
    } else {
      forall a: nat, b: nat | a <= b ensures Ceiling(a, base, max) <= Ceiling(b, base, max) {
        NoDip(a, base, max);
        NoDip(b, base, max);
        DoubledMonotone(a, b, base, max);
      }
    }
  }

  lemma NoDip(a: nat, base: int, max: int)
    requires 0 < base <= MAX && 0 < max <= MAX
    requires !Dips(base, max, Shift(a))
    ensures Ceiling(a, base, max) == Doubled(a, base, max)
  {
    CeilingIsDoubledIff(a, base, max);
  }

  /** A base whose doubling for attempt 12 wraps to 4096ns, below what attempt 10 waits. */
  lemma BackoffShrinksOnOverflow()
    ensures
      var base, max := 0x10_0000_0000_0001, MAX;
      && Ceiling(10, base, max) == base * 1024
      && Ceiling(12, base, max) == 4096
      && !NeverShrinks(base, max)
  {
    var base := 0x10_0000_0000_0001;
    PowerTable();
    WrapCongruent(base * 4096, -1);
    assert Exact(base, 12) == base * 4096;
    NeverShrinksIff(base, MAX);
    assert Dips(base, MAX, 12);
  }

  // ---- Attempts ------------------------------------------------------------------------------

  datatype Outcome = Delivered | Refused | GaveUp | Cancelled

  /** The attempts of one finished delivery, in order, and how it ended. */
  predicate IsDelivery(tries: seq<Verdict>, retries: nat, outcome: Outcome) {
    && |tries| <= retries
    && (forall i :: 0 <= i < |tries| - 1 ==> tries[i] == Retryable)
    && match outcome
       case Delivered => tries != [] && tries[|tries| - 1] == Success
       case Refused => tries != [] && tries[|tries| - 1] == Permanent
       case GaveUp => |tries| == retries && (tries != [] ==> tries[|tries| - 1] == Retryable)
       case Cancelled => |tries| < retries && (tries != [] ==> tries[|tries| - 1] == Retryable)
  }

  /** How many attempts a script of answers allows before the first that settles the matter. */
  function Needed(script: nat -> Response, from: nat, retries: nat): (k: nat)
    requires from <= retries
    ensures from <= k <= retries
    ensures forall i :: from <= i < k - 1 ==> Classify(script(i)) == Retryable
    ensures k < retries ==> from < k && Classify(script(k - 1)) != Retryable
    decreases retries - from
  {
    if from == retries then from
    else if Classify(script(from)) != Retryable then from + 1
    else Needed(script, from + 1, retries)
  }

  function Verdicts(script: nat -> Response, k: nat): (v: seq<Verdict>)
    ensures |v| == k && forall i :: 0 <= i < k ==> v[i] == Classify(script(i))
  {
    seq(k, i requires 0 <= i < k => Classify(script(i)))
  }

  function Sum(s: seq<int>): int {
    if s == [] then 0 else Sum(s[..|s| - 1]) + s[|s| - 1]
  }

  /** `delays` are the pauses a delivery asked for, one after another from the first attempt. */
  predicate AreDelays(delays: seq<int>, base: int, max: int, jitter: nat -> nat)
    requires 0 < max
  {
    forall i :: 0 <= i < |delays| ==> delays[i] == Backoff(i, base, max, jitter(i))
  }

  /** How one more attempt ends a delivery, if it does. */
  lemma OneMoreTry(tries: seq<Verdict>, v: Verdict, retries: nat)
    requires |tries| < retries && forall i :: 0 <= i < |tries| ==> tries[i] == Retryable
    ensures v == Success ==> IsDelivery(tries + [v], retries, Delivered)
    ensures v == Permanent ==> IsDelivery(tries + [v], retries, Refused)
    ensures v == Retryable && |tries| + 1 == retries ==> IsDelivery(tries + [v], retries, GaveUp)
    ensures v == Retryable ==> forall i :: 0 <= i < |tries + [v]| ==> (tries + [v])[i] == Retryable
  {
  }

  lemma NeededStep(script: nat -> Response, from: nat, retries: nat)
    requires from < retries
    ensures Needed(script, from, retries) ==
      if Classify(script(from)) == Retryable then Needed(script, from + 1, retries) else from + 1
  {
  }

  lemma VerdictsStep(script: nat -> Response, k: nat)
    ensures Verdicts(script, k + 1) == Verdicts(script, k) + [Classify(script(k))]
  {
  }

  /** The loop after `k` attempts that all failed in a way worth retrying. */
  predicate Trying(script: nat -> Response, retries: nat, tries: seq<Verdict>, k: nat) {
    && k <= retries && tries == Verdicts(script, k)
    && (forall i :: 0 <= i < |tries| ==> tries[i] == Retryable)
    && Needed(script, 0, retries) == Needed(script, k, retries)
  }

  lemma TryAnswers(script: nat -> Response, retries: nat, tries: seq<Verdict>, k: nat)
    requires Trying(script, retries, tries, k) && k < retries
    ensures var v := Classify(script(k));
      && (v == Success ==> AsAnswered(script, retries, k + 1, Delivered))
      && (v == Permanent ==> AsAnswered(script, retries, k + 1, Refused))
      && (v == Retryable && k == retries - 1 ==> AsAnswered(script, retries, k + 1, GaveUp))
  {
    var v := Classify(script(k));
    OneMoreTry(tries, v, retries);
    VerdictsStep(script, k);
    if v != Retryable || k == retries - 1 {
      var outcome := if v == Success then Delivered else if v == Permanent then Refused else GaveUp;
      AnswersDecide(script, tries + [v], retries, outcome);
    }
  }

  /** What one more attempt makes of it. */
  lemma TryOnce(script: nat -> Response, retries: nat, tries: seq<Verdict>, k: nat)
    requires Trying(script, retries, tries, k) && k < retries
    ensures var v := Classify(script(k)); var more := tries + [v];
      && more == Verdicts(script, k + 1)
      && (v == Success ==> IsDelivery(more, retries, Delivered))
      && (v == Permanent ==> IsDelivery(more, retries, Refused))
      && (v == Retryable && k == retries - 1 ==> IsDelivery(more, retries, GaveUp))
      && (v == Retryable && k < retries - 1 ==> IsDelivery(more, retries, Cancelled))
      && (v == Retryable ==> Trying(script, retries, more, k + 1))
      && (v != Retryable || k == retries - 1 ==> Needed(script, 0, retries) == k + 1)
      && (v == Success ==> AsAnswered(script, retries, k + 1, Delivered))
      && (v == Permanent ==> AsAnswered(script, retries, k + 1, Refused))
      && (v == Retryable && k == retries - 1 ==> AsAnswered(script, retries, k + 1, GaveUp))
  {
    VerdictsStep(script, k);
    NeededStep(script, k, retries);
    OneMoreTry(tries, Classify(script(k)), retries);
    TryAnswers(script, retries, tries, k);
  }

  /** None of the first `k` looks at the cancellation flag saw it set. */
  predicate Quiet(cancelled: nat -> bool, k: nat) {
    forall i: nat :: i < k ==> !cancelled(i)
  }

  /**
   * A delivery of `n` attempts is cut short by the first look that sees the flag set: the one before
   * another attempt, or the one during the pause after the last.
   */
  predicate CutWhenSeen(cancelled: nat -> bool, n: nat, outcome: Outcome) {
    if outcome != Cancelled then n == 0 || Quiet(cancelled, 2 * n - 1) else
      || (Quiet(cancelled, 2 * n) && cancelled(2 * n))
      || (n > 0 && Quiet(cancelled, 2 * n - 1) && cancelled(2 * n - 1))
  }

  lemma LookTwice(cancelled: nat -> bool, k: nat)
    requires Quiet(cancelled, 2 * k)
    ensures cancelled(2 * k) ==> CutWhenSeen(cancelled, k, Cancelled)
    ensures !cancelled(2 * k) ==> Quiet(cancelled, 2 * k + 1)
    ensures !cancelled(2 * k) && cancelled(2 * k + 1) ==> CutWhenSeen(cancelled, k + 1, Cancelled)
    ensures !cancelled(2 * k) && !cancelled(2 * k + 1) ==> Quiet(cancelled, 2 * (k + 1))
  {
  }

  /** Asks for the pause before the next attempt. */
  method Pause(delays: seq<int>, base: int, max: int, jitter: nat -> nat) returns (more: seq<int>)
    requires 0 < base && 0 < max && AreDelays(delays, base, max, jitter)
    ensures AreDelays(more, base, max, jitter) && |more| == |delays| + 1 && delays <= more
  {
    var attempt := |delays|;
    more := delays + [Backoff(attempt, base, max, jitter(attempt))];
  }

  /** Answer `n` is the first that settles the matter, or there is none among those allowed. */
  predicate SettledBy(script: nat -> Response, retries: nat, n: nat) {
    && n <= retries
    && (forall i: nat :: i < n ==>
         script(i) == TransportError || (script(i).Status? && (script(i).code == 429 || 500 <= script(i).code)))
    && (n < retries ==>
         script(n) == BadRequest || (script(n).Status? && script(n).code != 429 && script(n).code < 500))
  }

  /** What that answer makes of the delivery. */
  predicate EndsAt(script: nat -> Response, retries: nat, n: nat, attempts: nat, outcome: Outcome) {
    if n >= retries then outcome == GaveUp && attempts == retries else
      && attempts == n + 1
      && outcome == if script(n).Status? && 200 <= script(n).code < 300 then Delivered else Refused
  }

  /** It ends where the answers say, whichever of them that is. */
  ghost predicate AsAnswered(script: nat -> Response, retries: nat, attempts: nat, outcome: Outcome) {
    forall n: nat :: SettledBy(script, retries, n) ==> EndsAt(script, retries, n, attempts, outcome)
  }

  /** Every delivery that is not cut short does. */
  lemma AnswersDecide(script: nat -> Response, tries: seq<Verdict>, retries: nat, outcome: Outcome)
    requires IsDelivery(tries, retries, outcome) && outcome != Cancelled && tries == Verdicts(script, |tries|)
    ensures AsAnswered(script, retries, |tries|, outcome)
  {
  }

  /**
   * The delivery loop. `script` answers the attempts; `cancelled(2*i)` is what the check before
   * attempt i sees, and `cancelled(2*i+1)` says whether the pause after it is cut short.
   */
  method Deliver(script: nat -> Response, cancelled: nat -> bool, jitter: nat -> nat,
                 retries: nat, base: int, max: int)
      returns (tries: seq<Verdict>, delays: seq<int>, outcome: Outcome)
    requires 0 < base && 0 < max
    ensures IsDelivery(tries, retries, outcome)
    ensures tries == Verdicts(script, |tries|)
    ensures (forall i :: !cancelled(i)) ==> |tries| == Needed(script, 0, retries) && outcome != Cancelled
    ensures outcome != Cancelled ==> AsAnswered(script, retries, |tries|, outcome)
    ensures CutWhenSeen(cancelled, |tries|, outcome)
    ensures AreDelays(delays, base, max, jitter)
    ensures forall i :: 0 <= i < |delays| ==> delays[i] == Backoff(i, base, max, jitter(i))
    ensures |delays| == if outcome == Cancelled || tries == [] then |tries| else |tries| - 1
  {
    tries, delays := [], [];
    var attempt := 0;
    while attempt < retries
      invariant Trying(script, retries, tries, attempt)
      invariant attempt == retries ==> retries == 0
      invariant Quiet(cancelled, 2 * attempt)
      invariant |delays| == attempt && AreDelays(delays, base, max, jitter)
    {
      LookTwice(cancelled, attempt);
      if cancelled(2 * attempt) {
        return tries, delays, Cancelled;
      }
      TryOnce(script, retries, tries, attempt);
      var verdict := Classify(script(attempt));
      tries := tries + [verdict];
      if verdict == Success {
        return tries, delays, Delivered;
      }
      if verdict == Permanent {
        return tries, delays, Refused;
      }
      if attempt == retries - 1 {
        return tries, delays, GaveUp;
      }
      delays := Pause(delays, base, max, jitter);
      if cancelled(2 * attempt + 1) {
        return tries, delays, Cancelled;
      }
      attempt := attempt + 1;
    }
    AnswersDecide(script, tries, retries, GaveUp);
    outcome := GaveUp;
  }

  lemma {:induction false} SumBounded(s: seq<int>, max: int)
    requires forall i :: 0 <= i < |s| ==> 0 <= s[i] <= max
    ensures 0 <= Sum(s) <= |s| * max
  {
    if s != [] {
      SumBounded(s[..|s| - 1], max);
      assert |s| * max == (|s| - 1) * max + max;
    }
  }

  /** Together the pauses of one delivery last at most (retries - 1) times the maximum. */
  lemma DelaysBounded(delays: seq<int>, retries: nat, base: int, max: int, jitter: nat -> nat)
    requires 0 < base && 0 < max && |delays| < retries && AreDelays(delays, base, max, jitter)
    ensures 0 <= Sum(delays) <= max * (retries - 1)
  {
    forall i | 0 <= i < |delays| ensures 0 <= delays[i] <= max {
      BackoffInRange(i, base, max, jitter(i));
    }
    SumBounded(delays, max);
    MulMonotone(max, |delays|, retries - 1);
  }
}
