/**
 * What the send worker does with one job: look at the caller and the connection, mark the chat
 * read, show the typing indicator in slices, send, report. `Visit` says how it went; a visit
 * determines every action taken on the client and the one outcome reported.
 */
module SendJob {
  import opened Prelude

  /** Durations are nanoseconds. The indicator is refreshed after each slice. */
  const SLICE: nat := 8_000_000_000

  datatype Reply = Accepted(id: string) | Rejected

  datatype Outcome = Sent(id: string) | CallerGone | NotConnected | SendFailed

  /** Client calls in order, with the sleeps between them. */
  datatype Action =
    | Receipt(target: string)
    | Composing
    | Slept(ns: nat)
    | Paused
    | Deliver(reply: Reply)

  datatype Visit =
    | CancelledInQueue
    | Offline
    | Interrupted(targets: seq<string>, dur: nat, slices: nat, callerGone: bool)  // during slice number `slices`
    | Delivered(targets: seq<string>, dur: nat, reply: Reply)
  {
    predicate Valid() { Interrupted? ==> slices * SLICE < dur }
  }

  function Receipts(targets: seq<string>): (r: seq<Action>)
    ensures |r| == |targets| && forall i :: 0 <= i < |r| ==> r[i] == Receipt(targets[i])
  {
    seq(|targets|, i requires 0 <= i < |targets| => Receipt(targets[i]))
  }

  /** The indicator shown and refreshed through `k` whole slices. */
  function Refreshed(k: nat): seq<Action> {
    if k == 0 then [Composing] else Refreshed(k - 1) + [Slept(SLICE), Composing]
  }

  /** How many slices a duration is cut into. */
  function SliceCount(dur: nat): nat { (dur + SLICE - 1) / SLICE }

  /** An uninterrupted simulation, before the indicator is cleared. */
  function Typed(dur: nat): seq<Action>
    requires 0 < dur
  {
    Refreshed(SliceCount(dur) - 1) + [Slept(dur - (SliceCount(dur) - 1) * SLICE)]
  }

  function Typing(dur: nat): seq<Action> {
    if dur == 0 then [] else Typed(dur) + [Paused]
  }

  function ActionsOf(v: Visit): seq<Action> {
    match v
    case CancelledInQueue => []
    case Offline => []
    case Interrupted(targets, _, slices, _) => Receipts(targets) + Refreshed(slices) + [Paused]
    case Delivered(targets, dur, reply) => Receipts(targets) + Typing(dur) + [Deliver(reply)]
  }

  function OutcomeOf(v: Visit): Outcome {
    match v
    case CancelledInQueue => CallerGone
    case Offline => NotConnected
    case Interrupted(_, _, _, gone) => if gone then CallerGone else NotConnected
    case Delivered(_, _, Accepted(id)) => Sent(id)
    case Delivered(_, _, Rejected) => SendFailed
  }

  // ---- The worker's code --------------------------------------------------------------------

  /** What ends a wait: the timer, the caller's context, or shutdown. */
  datatype Signal = Timer | ContextDone | Stopping

  /** The first of the waits from `k` on that does not end by its timer; `n` when all do. */
  function FirstStop(signals: nat -> Signal, k: nat, n: nat): (i: nat)
    requires k <= n
    ensures k <= i <= n && (i < n ==> signals(i) != Timer)
    ensures forall j :: k <= j < i ==> signals(j) == Timer
    decreases n - k
  {
    if k == n || signals(k) != Timer then k else FirstStop(signals, k + 1, n)
  }

  /** Shows the indicator for `dur`; `signals(k)` is what ends the k-th slice's wait. */
  method SimulateTyping(dur: nat, signals: nat -> Signal) returns (ok: bool, slices: nat, actions: seq<Action>)
    requires 0 < dur
    ensures slices == FirstStop(signals, 0, SliceCount(dur)) && (ok <==> slices == SliceCount(dur))
    ensures actions == (if ok then Typed(dur) else Refreshed(slices)) + [Paused]
  {
    actions := [Composing];
    slices, ok := 0, true;
    ghost var n := SliceCount(dur);
    var remaining := dur;
    while remaining > 0
      invariant ok && 0 <= remaining <= dur && slices <= n
      invariant 0 < remaining ==> remaining == dur - slices * SLICE && actions == Refreshed(slices)
      invariant remaining == 0 ==> slices == n && actions == Typed(dur)
      invariant FirstStop(signals, 0, n) == FirstStop(signals, slices, n)
    {
      var step := if remaining < SLICE then remaining else SLICE;
      SliceWithin(dur, slices);
      if signals(slices) != Timer {
        ok := false;
        break;
      }
      actions := actions + [Slept(step)];
      remaining := remaining - step;
      slices := slices + 1;
      if remaining > 0 {
        actions := actions + [Composing];
      }
    }
    actions := actions + [Paused];
  }

  /** Everything outside the worker that one visit depends on. */
  datatype World = World(
    callerGone: bool,          // the caller's context, before anything is done
    connected: bool,           // status and client, read together
    targets: seq<string>,      // the chat's unread messages
    dur: nat,                  // the typing delay; zero when typing is off
    signals: nat -> Signal,
    goneAfter: bool,           // the caller's context, after an interruption
    reply: Reply)

  /** How the visit goes in a given world. */
  function VisitIn(w: World): (v: Visit)
    ensures v.Valid()
    ensures v.CancelledInQueue? <==> w.callerGone
    ensures v.Offline? <==> !w.callerGone && !w.connected
    ensures v.Delivered? <==>
      !w.callerGone && w.connected && forall k :: 0 <= k < SliceCount(w.dur) ==> w.signals(k) == Timer
    ensures v.Delivered? ==> v.targets == w.targets && v.dur == w.dur && v.reply == w.reply
    ensures v.Interrupted? ==>
      && v.targets == w.targets && v.dur == w.dur && v.callerGone == w.goneAfter
      && w.signals(v.slices) != Timer && forall k :: 0 <= k < v.slices ==> w.signals(k) == Timer
  {
    var n := SliceCount(w.dur);
    var k := FirstStop(w.signals, 0, n);
    if w.callerGone then CancelledInQueue
    else if !w.connected then Offline
    else if k < n then Interrupted(w.targets, w.dur, k, w.goneAfter)
    else Delivered(w.targets, w.dur, w.reply)
  }

  /** Whether the typing simulation, if any, runs its course. */
  predicate Undisturbed(w: World) { forall k :: 0 <= k < SliceCount(w.dur) ==> w.signals(k) == Timer }

  /** What the caller is told, by what happened. */
  lemma OutcomeMeans(w: World)
    ensures
      var o := OutcomeOf(VisitIn(w));
      if w.callerGone then o == CallerGone
      else if !w.connected then o == NotConnected
      else if !Undisturbed(w) then o == (if w.goneAfter then CallerGone else NotConnected)
      else if w.reply == Rejected then o == SendFailed
      else o == Sent(w.reply.id)
  {
  }

  method Process(w: World) returns (actions: seq<Action>, outcome: Outcome)
    ensures actions == ActionsOf(VisitIn(w)) && outcome == OutcomeOf(VisitIn(w))
  {
    if w.callerGone {
      return [], CallerGone;
    }
    if !w.connected {
      return [], NotConnected;
    }
    actions := Receipts(w.targets);
    if w.dur > 0 {
      var ok, slices, typing := SimulateTyping(w.dur, w.signals);
      if !ok {
        Regroup(actions, Refreshed(slices), [Paused]);
        return actions + typing, if w.goneAfter then CallerGone else NotConnected;
      }
      actions := actions + typing;
    }
    actions := actions + [Deliver(w.reply)];
    match w.reply {
      case Rejected => outcome := SendFailed;
      case Accepted(id) => outcome := Sent(id);
    }
  }

  lemma SliceWithin(dur: nat, k: nat)
    requires k * SLICE < dur
    ensures k < SliceCount(dur)
  {
  }

  // ---- Properties ------------------------------------------------------------------------------

  function Count(actions: seq<Action>, a: Action): nat {
    if actions == [] then 0
    else Count(actions[..|actions| - 1], a) + if actions[|actions| - 1] == a then 1 else 0
  }

  function SleptTotal(actions: seq<Action>): nat {
    if actions == [] then 0
    else SleptTotal(actions[..|actions| - 1]) +
         if actions[|actions| - 1].Slept? then actions[|actions| - 1].ns else 0
  }

  lemma {:induction false} RefreshedFacts(k: nat)
    ensures SleptTotal(Refreshed(k)) == k * SLICE
    ensures Count(Refreshed(k), Composing) == k + 1
    ensures forall i :: 0 <= i < |Refreshed(k)| ==> Refreshed(k)[i] == Composing || Refreshed(k)[i] == Slept(SLICE)
  {
    if k == 0 {
      assert [Composing][..0] == [];
    } else {
      RefreshedFacts(k - 1);
      var r := Refreshed(k - 1) + [Slept(SLICE)];
      assert r[..|r| - 1] == Refreshed(k - 1);
      assert Refreshed(k) == r + [Composing] && Refreshed(k)[..|r|] == r;
    }
  }

  /**
   * An uninterrupted simulation sleeps exactly the delay in slices of at most 8 seconds, and shows
   * the indicator once per slice.
   */
  lemma TypedFacts(dur: nat)
    requires 0 < dur
    ensures SleptTotal(Typed(dur)) == dur
    ensures Count(Typed(dur), Composing) == SliceCount(dur)
    ensures (SliceCount(dur) - 1) * 8_000_000_000 < dur <= SliceCount(dur) * 8_000_000_000
    ensures forall i :: 0 <= i < |Typed(dur)| ==>
      Typed(dur)[i] == Composing || (Typed(dur)[i].Slept? && 0 < Typed(dur)[i].ns <= 8_000_000_000)
  {
    var k := SliceCount(dur) - 1;
    RefreshedFacts(k);
    var t := Typed(dur);
    assert t[..|t| - 1] == Refreshed(k);
  }

  predicate IsTyping(a: Action) { a.Composing? || a.Slept? }

  /**
   * The shape of every visit, interrupted or not: receipts, then at most one run of the indicator
   * closed by exactly one `Paused`, then at most one send.
   */
  predicate Shaped(actions: seq<Action>, receipts: nat, pause: nat) {
    && receipts <= pause <= |actions| <= pause + 2
    && (forall i :: 0 <= i < receipts ==> actions[i].Receipt?)
    && (forall i :: receipts <= i < pause ==> IsTyping(actions[i]))
    && (pause > receipts ==> actions[receipts] == Composing && pause < |actions| && actions[pause] == Paused)
    && (|actions| == pause + 1 ==> actions[pause] == Paused || (receipts == pause && actions[pause].Deliver?))
    && (|actions| == pause + 2 ==> receipts < pause && actions[pause + 1].Deliver?)
  }

  lemma InterruptedShaped(v: Visit)
    requires v.Valid() && v.Interrupted?
    ensures Shaped(ActionsOf(v), |v.targets|, |v.targets| + |Refreshed(v.slices)|)
  {
    RefreshedFacts(v.slices);
    FirstShown(v.slices);
  }

  lemma DeliveredShaped(v: Visit)
    requires v.Delivered? && 0 < v.dur
    ensures Shaped(ActionsOf(v), |v.targets|, |v.targets| + |Typed(v.dur)|)
  {
    TypedFacts(v.dur);
    FirstShown(SliceCount(v.dur) - 1);
  }

  lemma VisitShaped(v: Visit) returns (receipts: nat, pause: nat)
    requires v.Valid()
    ensures Shaped(ActionsOf(v), receipts, pause)
  {
    match v
    case CancelledInQueue => receipts, pause := 0, 0;
    case Offline => receipts, pause := 0, 0;
    case Interrupted(targets, _, k, _) =>
      InterruptedShaped(v);
      receipts, pause := |targets|, |targets| + |Refreshed(k)|;
    case Delivered(targets, dur, _) =>
      receipts, pause := |targets|, |targets|;
      if dur > 0 {
        DeliveredShaped(v);
        pause := |targets| + |Typed(dur)|;
      }
  }

  lemma {:induction false} FirstShown(k: nat)
    ensures Refreshed(k) != [] && Refreshed(k)[0] == Composing
  {
    if k > 0 {
      FirstShown(k - 1);
    }
  }

  /** The number of sends a visit makes, and what it says about the outcome. */
  lemma VisitSends(v: Visit)
    requires v.Valid()
    ensures forall i, j :: 0 <= i < j < |ActionsOf(v)| ==> !(ActionsOf(v)[i].Deliver? && ActionsOf(v)[j].Deliver?)
    ensures forall id :: OutcomeOf(v) == Sent(id) <==> Deliver(Accepted(id)) in ActionsOf(v)
    ensures OutcomeOf(v) == SendFailed <==> Deliver(Rejected) in ActionsOf(v)
  {
    var actions := ActionsOf(v);
    var receipts, pause := VisitShaped(v);
    if v.Delivered? {
      assert actions[|actions| - 1] == Deliver(v.reply);
    }
    assert forall i :: 0 <= i < |actions| && actions[i].Deliver? ==> v.Delivered? && i == |actions| - 1 by {
      if v.Interrupted? {
        assert actions[|actions| - 1] == Paused;
      }
    }
  }
}
