/**
 * The webhook dispatcher: callers offer events to a bounded queue without blocking, workers
 * deliver them, and one Close call drains what was accepted. The intake (queue, flag, counters)
 * is a class; callers, workers and Close interleave in a step machine over it.
 */
module Dispatcher {
  import opened Delivery

  /** Settings as given; durations are nanoseconds. */
  datatype Settings = Settings(
    queueSize: int,
    workers: int,
    retries: int,
    timeout: int,
    backoffBase: int,
    backoffMax: int)

  /** Settings after defaults are filled in. */
  datatype Config = Config(
    queueSize: nat,
    workers: nat,
    retries: nat,
    timeout: nat,
    backoffBase: nat,
    backoffMax: nat)
  {
    predicate Valid() {
      0 < queueSize && 0 < workers && 0 < retries && 0 < timeout && 0 < backoffBase && 0 < backoffMax
    }
  }

  const SECOND: nat := 1_000_000_000

  function Positive(setting: int, default: nat): (r: nat)
    requires 0 < default
    ensures 0 < r && (0 < setting ==> r == setting) && (setting <= 0 ==> r == default)
  {
    if setting <= 0 then default else setting
  }

  /** What counts when nothing is set. */
  const DEFAULTS: Config := Config(1024, 1, 5, 10 * SECOND, SECOND / 2, 30 * SECOND)

  /** A setting <= 0 means the default. */
  function WithDefaults(s: Settings): (c: Config)
    ensures c.Valid()
    ensures if 0 < s.queueSize then c.queueSize == s.queueSize else c.queueSize == DEFAULTS.queueSize
    ensures if 0 < s.workers then c.workers == s.workers else c.workers == DEFAULTS.workers
    ensures if 0 < s.retries then c.retries == s.retries else c.retries == DEFAULTS.retries
    ensures if 0 < s.timeout then c.timeout == s.timeout else c.timeout == DEFAULTS.timeout
    ensures if 0 < s.backoffBase then c.backoffBase == s.backoffBase else c.backoffBase == DEFAULTS.backoffBase
    ensures if 0 < s.backoffMax then c.backoffMax == s.backoffMax else c.backoffMax == DEFAULTS.backoffMax
  {
    Config(Positive(s.queueSize, 1024),
           Positive(s.workers, 1),
           Positive(s.retries, 5),
           Positive(s.timeout, 10 * SECOND),
           Positive(s.backoffBase, SECOND / 2),
           Positive(s.backoffMax, 30 * SECOND))
  }

  /** What a caller brings: the session's URL, the global one, and whether the event encodes. */
  datatype Offer = Offer(url: string, globalURL: string, encodes: bool)

  /**
   * What the mutex guards. Accepted jobs are numbered in order of acceptance. `broken` is set by
   * a send on, or a second close of, the closed channel, which in Go would panic.
   */
  datatype Intake = Intake(
    queue: seq<nat>,
    closed: bool,
    channelClosed: bool,
    broken: bool,
    offered: nat,
    disabled: nat,
    unencodable: nat,
    refused: nat,
    dropped: nat,
    accepted: nat)

  const EMPTY: Intake := Intake([], false, false, false, 0, 0, 0, 0, 0, 0)

  function Offered(i: Intake, queueSize: nat, o: Offer): Intake {
    var i := i.(offered := i.offered + 1);
    if o.url == "" && o.globalURL == "" then i.(disabled := i.disabled + 1)
    else if !o.encodes then i.(unencodable := i.unencodable + 1)
    else if i.closed then i.(refused := i.refused + 1)
    else if i.channelClosed then i.(broken := true)
    else if |i.queue| < queueSize then i.(queue := i.queue + [i.accepted], accepted := i.accepted + 1)
    else i.(dropped := i.dropped + 1)
  }

  function Shut(i: Intake): Intake {
    if i.closed then i
    else i.(closed := true, broken := i.broken || i.channelClosed, channelClosed := true)
  }

  class Dispatcher {
    const queueSize: nat
    const globalURL: string
    var jobs: seq<nat>       // the buffered channel
    var jobsClosed: bool     // whether that channel is closed
    var closed: bool
    var dropped: nat
    var accepted: nat        // numbers the jobs, in place of their random delivery ids
    var urls: seq<string>    // where each accepted job is to go
    ghost var tally: Intake  // the same fields, and what became of every offer

    ghost predicate Valid()
      reads this
    {
      && tally.queue == jobs && tally.channelClosed == jobsClosed
      && tally.closed == closed && tally.dropped == dropped && tally.accepted == accepted
      && closed == jobsClosed && !tally.broken
      && |urls| == accepted && forall k :: 0 <= k < |jobs| ==> jobs[k] < accepted
    }

    constructor (queueSize: nat, globalURL: string)
      ensures Valid() && tally == EMPTY
      ensures this.queueSize == queueSize && this.globalURL == globalURL
    {
      this.queueSize, this.globalURL := queueSize, globalURL;
      jobs, jobsClosed, closed, dropped, accepted, urls, tally := [], false, false, 0, 0, [], EMPTY;
    }

    /**
     * `encodes` says whether the event can be marshalled. Never blocks: an event that has somewhere to go,
     * the session's URL before the global one, is queued if there is room and counted as dropped if not.
     */
    method Enqueue(url: string, encodes: bool)
      requires Valid()
      modifies this
      ensures Valid() && tally == Offered(old(tally), queueSize, Offer(url, globalURL, encodes))
      ensures closed == old(closed) && jobsClosed == old(jobsClosed)
      ensures
        if (url == "" && globalURL == "") || !encodes || closed then
          jobs == old(jobs) && accepted == old(accepted) && dropped == old(dropped) && urls == old(urls)
        else if |old(jobs)| >= queueSize then
          jobs == old(jobs) && accepted == old(accepted) && dropped == old(dropped) + 1 && urls == old(urls)
        else
          && jobs == old(jobs) + [old(accepted)] && accepted == old(accepted) + 1 && dropped == old(dropped)
          && urls == old(urls) + [if url == "" then globalURL else url]
    {
      tally := Offered(tally, queueSize, Offer(url, globalURL, encodes));
      var target := url;
      if target == "" {
        target := globalURL;
      }
      if target == "" {
        return;
      }
      if !encodes {
        return;
      }
      if closed {
        return;
      }
      if |jobs| < queueSize {
        jobs, accepted, urls := jobs + [accepted], accepted + 1, urls + [target];
      } else {
        dropped := dropped + 1;
      }
    }

    /** The critical section of Close; `first` tells the call that must wait for the workers. */
    method Close() returns (first: bool)
      requires Valid()
      modifies this
      ensures Valid() && tally == Shut(old(tally)) && first == !old(closed)
      ensures closed && jobsClosed
      ensures jobs == old(jobs) && urls == old(urls) && accepted == old(accepted) && dropped == old(dropped)
    {
      tally := Shut(tally);
      if closed {
        return false;
      }
      closed := true;
      jobsClosed := true;
      return true;
    }

    /** A worker's receive from the channel: the oldest job, or word that there will be no more. */
    method Receive() returns (job: nat, url: string, ok: bool)
      requires Valid() && (jobs != [] || jobsClosed)
      modifies this
      ensures Valid() && ok == (old(jobs) != [])
      ensures ok ==> job == old(jobs)[0] && tally == old(tally).(queue := old(jobs)[1..])
      ensures ok ==> job < |old(urls)| && url == old(urls)[job] && jobs == old(jobs)[1..]
      ensures !ok ==> tally == old(tally)
      ensures urls == old(urls) && closed == old(closed) && accepted == old(accepted) && dropped == old(dropped)
    {
      if jobs == [] {
        return 0, "", false;
      }
      job, url, ok := jobs[0], urls[jobs[0]], true;
      jobs := jobs[1..];
      tally := tally.(queue := jobs);
    }
  }

  // ---- Interleaving ------------------------------------------------------------------------

  /** Where a worker is; `tries` are the attempts made so far for its job. */
  datatype Worker =
    | Idle
    | Checking(job: nat, tries: seq<Verdict>)    // about to look at the cancellation flag
    | Attempting(job: nat, tries: seq<Verdict>)  // request in flight
    | Pausing(job: nat, tries: seq<Verdict>)     // backing off
    | Exited
  {
    predicate Busy() { Checking? || Attempting? || Pausing? }
  }

  datatype Try = Try(job: nat, verdict: Verdict)
  datatype Ended = Ended(job: nat, outcome: Outcome)

  /** The Close call that found the dispatcher open. */
  datatype Closer = NotCalled | Draining | Returned

  datatype State = State(
    intake: Intake,
    workers: seq<Worker>,
    closer: Closer,
    cancelled: bool,
    taken: nat,
    trace: seq<Try>,
    ended: seq<Ended>)

  /** One critical section, channel operation or HTTP attempt. */
  datatype Label =
    | Enqueue(o: Offer)
    | Close
    | DrainTimeout
    | CloseReturns
    | Take(w: nat)
    | Exit(w: nat)
    | Check(w: nat)
    | Attempt(w: nat, r: Response)
    | Wake(w: nat)
    | CutShort(w: nat)

  function Init(cfg: Config): State {
    State(EMPTY, seq(cfg.workers, _ => Idle), NotCalled, false, 0, [], [])
  }

  predicate Enabled(s: State, l: Label) {
    match l
    case Enqueue(_) => true
    case Close => true
    case DrainTimeout => s.closer == Draining
    case CloseReturns => s.closer == Draining && forall w :: 0 <= w < |s.workers| ==> s.workers[w] == Exited
    case Take(w) => w < |s.workers| && s.workers[w] == Idle && s.intake.queue != []
    case Exit(w) => w < |s.workers| && s.workers[w] == Idle && s.intake.queue == [] && s.intake.channelClosed
    case Check(w) => w < |s.workers| && s.workers[w].Checking?
    case Attempt(w, _) => w < |s.workers| && s.workers[w].Attempting?
    case Wake(w) => w < |s.workers| && s.workers[w].Pausing?
    case CutShort(w) => w < |s.workers| && s.workers[w].Pausing? && s.cancelled
  }

  function Move(s: State, w: nat, to: Worker): State
    requires w < |s.workers|
  {
    s.(workers := s.workers[w := to])
  }

  function Finish(s: State, w: nat, outcome: Outcome): State
    requires w < |s.workers| && s.workers[w].Busy()
  {
    Move(s, w, Idle).(ended := s.ended + [Ended(s.workers[w].job, outcome)])
  }

  function Tried(s: State, cfg: Config, w: nat, v: Verdict): State
    requires w < |s.workers| && s.workers[w].Attempting?
  {
    var job, tries := s.workers[w].job, s.workers[w].tries + [v];
    var s := s.(trace := s.trace + [Try(job, v)]);
    if v == Success then Finish(s, w, Delivered)
    else if v == Permanent then Finish(s, w, Refused)
    else if |tries| == cfg.retries then Finish(s, w, GaveUp)
    else Move(s, w, Pausing(job, tries))
  }

  /** A label that is not enabled changes nothing. */
  function Next(s: State, cfg: Config, l: Label): State {
    if !Enabled(s, l) then s else
    match l
    case Enqueue(o) => s.(intake := Offered(s.intake, cfg.queueSize, o))
    case Close => s.(intake := Shut(s.intake), closer := if s.intake.closed then s.closer else Draining)
    case DrainTimeout => s.(cancelled := true)
    case CloseReturns => s.(closer := Returned, cancelled := true)
    case Take(w) =>
      Move(s, w, Checking(s.intake.queue[0], []))
        .(intake := s.intake.(queue := s.intake.queue[1..]), taken := s.taken + 1)
    case Exit(w) => Move(s, w, Exited)
    case Check(w) =>
      if s.cancelled then Finish(s, w, Cancelled)
      else Move(s, w, Attempting(s.workers[w].job, s.workers[w].tries))
    case Attempt(w, r) => Tried(s, cfg, w, Classify(r))
    case Wake(w) => Move(s, w, Checking(s.workers[w].job, s.workers[w].tries))
    case CutShort(w) => Finish(s, w, Cancelled)
  }

  function After(s: State, cfg: Config, ls: seq<Label>): State {
    if ls == [] then s else Next(After(s, cfg, ls[..|ls| - 1]), cfg, ls[|ls| - 1])
  }

  function Run(cfg: Config, ls: seq<Label>): State { After(Init(cfg), cfg, ls) }

  function BusyCount(workers: seq<Worker>): (n: nat)
    ensures n <= |workers|
  {
    if workers == [] then 0
    else BusyCount(workers[..|workers| - 1]) + if workers[|workers| - 1].Busy() then 1 else 0
  }

  lemma {:induction false} BusyUpdate(workers: seq<Worker>, w: nat, to: Worker)
    requires w < |workers|
    ensures BusyCount(workers[w := to]) ==
      BusyCount(workers) - (if workers[w].Busy() then 1 else 0) + (if to.Busy() then 1 else 0)
  {
    var n := |workers| - 1;
    if w < n {
      BusyUpdate(workers[..n], w, to);
      assert workers[w := to][..n] == workers[..n][w := to];
    } else {
      assert workers[w := to][..n] == workers[..n];
    }
  }

  /** Every offer is accounted for, and accepted jobs leave the queue in order of acceptance. */
  predicate Accounted(s: State, cfg: Config) {
    var i := s.intake;
    && i.offered == i.disabled + i.unencodable + i.refused + i.dropped + i.accepted
    && i.accepted == |i.queue| + s.taken
    && (forall k :: 0 <= k < |i.queue| ==> i.queue[k] == s.taken + k)
    && s.taken == BusyCount(s.workers) + |s.ended|
    && |i.queue| <= cfg.queueSize
    && |s.workers| == cfg.workers
  }

  /** Nothing is ever sent on a closed channel, and workers leave only when all work is taken. */
  predicate Orderly(s: State) {
    && s.intake.closed == s.intake.channelClosed
    && !s.intake.broken
    && (s.closer == NotCalled <==> !s.intake.closed)
    && (forall w :: 0 <= w < |s.workers| && s.workers[w] == Exited ==> s.intake.closed && s.intake.queue == [])
    && (s.closer == Returned ==> forall w :: 0 <= w < |s.workers| ==> s.workers[w] == Exited)
  }

  predicate IsIntake(l: Label) { l.Enqueue? || l.Close? || l.DrainTimeout? || l.CloseReturns? }

  lemma AccountedIntake(s: State, cfg: Config, l: Label)
    requires Accounted(s, cfg) && Orderly(s) && IsIntake(l)
    ensures Accounted(Next(s, cfg, l), cfg)
  {
  }

  lemma AccountedTake(s: State, cfg: Config, w: nat)
    requires Accounted(s, cfg) && Enabled(s, Take(w))
    ensures Accounted(Next(s, cfg, Take(w)), cfg)
  {
    BusyUpdate(s.workers, w, Checking(s.intake.queue[0], []));
  }

  /** A worker that moves on keeps the account as long as it stays busy or adds to what has ended. */
  lemma AccountedMove(s: State, t: State, cfg: Config, w: nat, to: Worker)
    requires Accounted(s, cfg) && w < |s.workers| && t.workers == s.workers[w := to]
    requires t.intake == s.intake && t.taken == s.taken
    requires (if s.workers[w].Busy() then 1 else 0) + |s.ended| == (if to.Busy() then 1 else 0) + |t.ended|
    ensures Accounted(t, cfg)
  {
    BusyUpdate(s.workers, w, to);
  }

  lemma AccountedStep(s: State, cfg: Config, l: Label)
    requires Accounted(s, cfg) && Orderly(s)
    ensures Accounted(Next(s, cfg, l), cfg)
  {
    if !Enabled(s, l) {
    } else if IsIntake(l) {
      AccountedIntake(s, cfg, l);
    } else if l.Take? {
      AccountedTake(s, cfg, l.w);
    } else {
      var t := Next(s, cfg, l);
      AccountedMove(s, t, cfg, l.w, t.workers[l.w]);
    }
  }

  lemma {:induction false} OrderlyStep(s: State, cfg: Config, l: Label)
    requires Orderly(s)
    ensures Orderly(Next(s, cfg, l))
  {
  }

  /** The attempts made for one job, in order. */
  function TriesOf(trace: seq<Try>, job: nat): seq<Verdict> {
    if trace == [] then [] else
      TriesOf(trace[..|trace| - 1], job) +
      if trace[|trace| - 1].job == job then [trace[|trace| - 1].verdict] else []
  }

  lemma {:induction false} NoTries(trace: seq<Try>, job: nat)
    requires forall i :: 0 <= i < |trace| ==> trace[i].job != job
    ensures TriesOf(trace, job) == []
  {
    if trace != [] {
      NoTries(trace[..|trace| - 1], job);
    }
  }

  lemma TriesAppend(trace: seq<Try>, t: Try, job: nat)
    ensures TriesOf(trace + [t], job) == TriesOf(trace, job) + if t.job == job then [t.verdict] else []
  {
    assert (trace + [t])[..|trace|] == trace;
  }

  /** A job in a worker's hands: every attempt so far failed in a way worth retrying. */
  predicate InHand(s: State, cfg: Config, w: nat)
    requires w < |s.workers| && s.workers[w].Busy()
  {
    var job, tries := s.workers[w].job, s.workers[w].tries;
    && job < s.taken
    && tries == TriesOf(s.trace, job)
    && |tries| < cfg.retries
    && forall i :: 0 <= i < |tries| ==> tries[i] == Retryable
  }

  predicate IsOver(s: State, cfg: Config, d: nat)
    requires d < |s.ended|
  {
    && s.ended[d].job < s.taken
    && IsDelivery(TriesOf(s.trace, s.ended[d].job), cfg.retries, s.ended[d].outcome)
  }

  predicate BusyAt(s: State, w: nat) { w < |s.workers| && s.workers[w].Busy() }

  /** The attempts of each taken job are those of one delivery, under way or over. */
  predicate Faithful(s: State, cfg: Config) {
    && (forall w :: 0 <= w < |s.workers| && BusyAt(s, w) ==> InHand(s, cfg, w))
    && (forall d :: 0 <= d < |s.ended| ==> IsOver(s, cfg, d))
    && (forall i :: 0 <= i < |s.trace| ==> s.trace[i].job < s.taken)
  }

  /** No job is in two hands, over twice, or both in hand and over. */
  predicate Apart(s: State) {
    && (forall w, x :: 0 <= w < x < |s.workers| && BusyAt(s, w) && BusyAt(s, x) ==>
          s.workers[w].job != s.workers[x].job)
    && (forall d, e :: 0 <= d < e < |s.ended| ==> s.ended[d].job != s.ended[e].job)
    && (forall w, d :: 0 <= w < |s.workers| && BusyAt(s, w) && 0 <= d < |s.ended| ==>
          s.workers[w].job != s.ended[d].job)
  }

  lemma ApartMove(s: State, t: State, w: nat)
    requires Apart(s) && w < |s.workers| == |t.workers| && t.ended == s.ended
    requires forall x :: 0 <= x < |s.workers| && x != w ==> t.workers[x] == s.workers[x]
    requires BusyAt(t, w) ==> BusyAt(s, w) && t.workers[w].job == s.workers[w].job
    ensures Apart(t)
  {
    assert forall x :: 0 <= x < |t.workers| && BusyAt(t, x) ==> BusyAt(s, x) && t.workers[x].job == s.workers[x].job;
  }

  lemma ApartTake(s: State, cfg: Config, w: nat)
    requires Accounted(s, cfg) && Faithful(s, cfg) && Apart(s) && Enabled(s, Take(w))
    ensures Apart(Next(s, cfg, Take(w)))
  {
    var t := Next(s, cfg, Take(w));
    assert t.workers[w].job == s.taken;
    forall x | 0 <= x < |s.workers| && x != w && BusyAt(t, x)
      ensures BusyAt(s, x) && t.workers[x] == s.workers[x] && s.workers[x].job < s.taken
    {
      assert BusyAt(s, x) && InHand(s, cfg, x);
    }
    forall d | 0 <= d < |s.ended| ensures s.ended[d].job < s.taken {
      assert IsOver(s, cfg, d);
    }
  }

  lemma ApartFinish(s: State, t: State, w: nat)
    requires Apart(s) && BusyAt(s, w) && |t.workers| == |s.workers| && !BusyAt(t, w)
    requires forall x :: 0 <= x < |s.workers| && x != w ==> t.workers[x] == s.workers[x]
    requires |t.ended| == |s.ended| + 1 && t.ended[..|s.ended|] == s.ended
    requires t.ended[|s.ended|].job == s.workers[w].job
    ensures Apart(t)
  {
    assert forall x :: 0 <= x < |t.workers| && BusyAt(t, x) ==>
      x != w && BusyAt(s, x) && s.workers[x].job != s.workers[w].job;
    assert forall d :: 0 <= d < |s.ended| ==> t.ended[d] == s.ended[d] && s.ended[d].job != s.workers[w].job;
  }

  lemma ApartStep(s: State, cfg: Config, l: Label)
    requires Accounted(s, cfg) && Faithful(s, cfg) && Apart(s)
    ensures Apart(Next(s, cfg, l))
  {
    if Enabled(s, l) && !IsIntake(l) {
      var t := Next(s, cfg, l);
      if l.Take? {
        ApartTake(s, cfg, l.w);
      } else if t.ended == s.ended {
        ApartMove(s, t, l.w);
      } else {
        ApartFinish(s, t, l.w);
      }
    }
  }

  lemma FaithfulTake(s: State, cfg: Config, w: nat)
    requires cfg.Valid() && Accounted(s, cfg) && Faithful(s, cfg) && Enabled(s, Take(w))
    ensures Faithful(Next(s, cfg, Take(w)), cfg)
  {
    var t := Next(s, cfg, Take(w));
    NoTries(s.trace, s.taken);
    forall x | 0 <= x < |t.workers| && BusyAt(t, x) ensures InHand(t, cfg, x) {
      if x != w { assert BusyAt(s, x) && InHand(s, cfg, x); }
    }
    forall d | 0 <= d < |t.ended| ensures IsOver(t, cfg, d) {
      assert IsOver(s, cfg, d);
    }
  }

  lemma OthersUntouched(s: State, cfg: Config, t: State, try: Try, w: nat)
    requires Faithful(s, cfg) && Apart(s) && BusyAt(s, w) && try.job == s.workers[w].job
    requires t.trace == s.trace + [try] && t.taken == s.taken && |t.workers| == |s.workers|
    requires forall x :: 0 <= x < |s.workers| && x != w ==> t.workers[x] == s.workers[x]
    requires s.ended <= t.ended
    ensures forall x :: 0 <= x < |t.workers| && x != w && BusyAt(t, x) ==> InHand(t, cfg, x)
    ensures forall d :: 0 <= d < |s.ended| ==> IsOver(t, cfg, d)
  {
    forall x | 0 <= x < |t.workers| && x != w && BusyAt(t, x) ensures InHand(t, cfg, x) {
      assert BusyAt(s, x) && InHand(s, cfg, x);
      TriesAppend(s.trace, try, s.workers[x].job);
    }
    forall d | 0 <= d < |s.ended| ensures IsOver(t, cfg, d) {
      assert IsOver(s, cfg, d) && t.ended[d] == s.ended[d];
      TriesAppend(s.trace, try, s.ended[d].job);
    }
  }

  /** The attempt of the worker itself: still in hand, or over. */
  lemma AttemptLands(s: State, cfg: Config, w: nat, r: Response)
    requires Enabled(s, Attempt(w, r)) && InHand(s, cfg, w)
    ensures var t := Next(s, cfg, Attempt(w, r));
      if BusyAt(t, w) then InHand(t, cfg, w) else |t.ended| == |s.ended| + 1 && IsOver(t, cfg, |s.ended|)
  {
    var job, tries := s.workers[w].job, s.workers[w].tries;
    OneMoreTry(tries, Classify(r), cfg.retries);
    TriesAppend(s.trace, Try(job, Classify(r)), job);
  }

  /** What an attempt does to the job, by the answer it got. */
  lemma AnswerTells(s: State, cfg: Config, w: nat, r: Response)
    requires Enabled(s, Attempt(w, r)) && |s.workers[w].tries| < cfg.retries
    ensures
      var t, job, last := Next(s, cfg, Attempt(w, r)), s.workers[w].job, |s.workers[w].tries| + 1 == cfg.retries;
      && t.trace == s.trace + [Try(job, Classify(r))] && t.intake == s.intake
      && if r.Status? && 200 <= r.code < 300 then t.ended == s.ended + [Ended(job, Delivered)] else
         if r == BadRequest || (r.Status? && r.code < 500 && r.code != 429) then
           t.ended == s.ended + [Ended(job, Refused)]
         else if last then t.ended == s.ended + [Ended(job, GaveUp)]
         else t.ended == s.ended && t.workers[w].Pausing? && t.workers[w].job == job
  {
  }

  lemma FaithfulAttempt(s: State, cfg: Config, w: nat, r: Response)
    requires Faithful(s, cfg) && Apart(s) && Enabled(s, Attempt(w, r))
    ensures Faithful(Next(s, cfg, Attempt(w, r)), cfg)
  {
    var t := Next(s, cfg, Attempt(w, r));
    assert BusyAt(s, w) && InHand(s, cfg, w);
    AttemptLands(s, cfg, w, r);
    OthersUntouched(s, cfg, t, Try(s.workers[w].job, Classify(r)), w);
    forall x | 0 <= x < |t.workers| && BusyAt(t, x) ensures InHand(t, cfg, x) {
      assert x == w || x != w;
    }
    forall d | 0 <= d < |t.ended| ensures IsOver(t, cfg, d) {
      assert d < |s.ended| || d == |s.ended|;
    }
  }

  lemma FaithfulStep(s: State, cfg: Config, l: Label)
    requires cfg.Valid() && Accounted(s, cfg) && Faithful(s, cfg) && Apart(s)
    ensures Faithful(Next(s, cfg, l), cfg)
  {
    if !Enabled(s, l) {
    } else if l.Take? {
      FaithfulTake(s, cfg, l.w);
    } else if l.Attempt? {
      FaithfulAttempt(s, cfg, l.w, l.r);
    } else {
      var t := Next(s, cfg, l);
      forall x | 0 <= x < |t.workers| && BusyAt(t, x) ensures InHand(t, cfg, x) {
        assert BusyAt(s, x) && InHand(s, cfg, x);
      }
      forall d | 0 <= d < |t.ended| ensures IsOver(t, cfg, d) {
        if d < |s.ended| {
          assert IsOver(s, cfg, d);
        } else {
          assert BusyAt(s, l.w) && InHand(s, cfg, l.w);
        }
      }
    }
  }

  /** With one worker, attempts for a job come before any attempt for the next. */
  predicate Fifo(s: State) {
    && (forall w :: 0 <= w < |s.workers| && BusyAt(s, w) ==> s.workers[w].job == s.taken - 1)
    && (forall i, j :: 0 <= i < j < |s.trace| ==> s.trace[i].job <= s.trace[j].job)
  }

  lemma {:induction false} FifoStep(s: State, cfg: Config, l: Label)
    requires cfg.workers == 1 && Accounted(s, cfg) && Faithful(s, cfg) && Fifo(s)
    ensures Fifo(Next(s, cfg, l))
  {
    if Enabled(s, l) && !IsIntake(l) {
      assert BusyAt(s, 0) || !BusyAt(s, 0);
    }
  }

  // ---- Results about every run -----------------------------------------------------------------

  lemma InitHolds(cfg: Config)
    ensures Accounted(Init(cfg), cfg) && Orderly(Init(cfg)) && Apart(Init(cfg)) && Fifo(Init(cfg))
    ensures Faithful(Init(cfg), cfg)
  {
    NoneBusy(Init(cfg).workers);
  }

  lemma {:induction false} NoneBusy(workers: seq<Worker>)
    requires forall w :: 0 <= w < |workers| ==> !workers[w].Busy()
    ensures BusyCount(workers) == 0
  {
    if workers != [] {
      NoneBusy(workers[..|workers| - 1]);
    }
  }

  predicate Good(s: State, cfg: Config) {
    && Accounted(s, cfg) && Orderly(s) && Apart(s) && Faithful(s, cfg)
    && (cfg.workers == 1 ==> Fifo(s))
  }

  lemma GoodStep(s: State, cfg: Config, l: Label)
    requires cfg.Valid() && Good(s, cfg)
    ensures Good(Next(s, cfg, l), cfg)
  {
    AccountedStep(s, cfg, l);
    OrderlyStep(s, cfg, l);
    ApartStep(s, cfg, l);
    FaithfulStep(s, cfg, l);
    if cfg.workers == 1 {
      FifoStep(s, cfg, l);
    }
  }

  /** Conservation, order and faithfulness hold in every state every interleaving reaches. */
  lemma {:induction false} Invariants(cfg: Config, ls: seq<Label>)
    requires cfg.Valid()
    ensures Good(Run(cfg, ls), cfg)
  {
    if ls == [] {
      InitHolds(cfg);
    } else {
      Invariants(cfg, ls[..|ls| - 1]);
      GoodStep(Run(cfg, ls[..|ls| - 1]), cfg, ls[|ls| - 1]);
    }
  }

  /** When the Close that closed the dispatcher returns, every accepted job is over. */
  lemma CloseDrains(cfg: Config, ls: seq<Label>)
    requires cfg.Valid() && Run(cfg, ls).closer == Returned
    ensures var s := Run(cfg, ls);
      s.intake.queue == [] && BusyCount(s.workers) == 0 && |s.ended| == s.intake.accepted
  {
    Invariants(cfg, ls);
    NoneBusy(Run(cfg, ls).workers);
    assert Run(cfg, ls).workers[0] == Exited;
  }

  function Elements(xs: seq<nat>): set<nat> {
    if xs == [] then {} else Elements(xs[..|xs| - 1]) + {xs[|xs| - 1]}
  }

  lemma {:induction false} ElementsOf(xs: seq<nat>)
    ensures forall x :: x in Elements(xs) <==> x in xs
  {
    if xs != [] {
      ElementsOf(xs[..|xs| - 1]);
      assert xs == xs[..|xs| - 1] + [xs[|xs| - 1]];
    }
  }

  lemma {:induction false} ElementsSize(xs: seq<nat>)
    requires forall i, j :: 0 <= i < j < |xs| ==> xs[i] != xs[j]
    ensures |Elements(xs)| == |xs|
  {
    if xs != [] {
      var front, last := xs[..|xs| - 1], xs[|xs| - 1];
      ElementsSize(front);
      ElementsOf(front);
      assert last !in front;
    }
  }

  function UpTo(n: nat): (r: set<nat>)
    ensures |r| == n && forall x :: x in r <==> 0 <= x < n
  {
    if n == 0 then {} else UpTo(n - 1) + {n - 1}
  }

  lemma SubsetSize(a: set<nat>, b: set<nat>)
    requires a <= b && |a| == |b|
    ensures a == b
  {
    assert b == a + (b - a);
    assert |b| == |a| + |b - a|;
  }

  /** As many different numbers below `n` as there are leave none out. */
  lemma DistinctCovers(xs: seq<nat>, n: nat, j: nat)
    requires |xs| == n && j < n
    requires forall i :: 0 <= i < n ==> xs[i] < n
    requires forall i, k :: 0 <= i < k < n ==> xs[i] != xs[k]
    ensures j in xs
  {
    ElementsOf(xs);
    ElementsSize(xs);
    SubsetSize(Elements(xs), UpTo(n));
    assert j in Elements(xs);
  }

  /** By then each accepted job has ended exactly once, by a complete series of attempts. */
  lemma EveryJobEnds(cfg: Config, ls: seq<Label>, j: nat) returns (d: nat)
    requires cfg.Valid() && Run(cfg, ls).closer == Returned && j < Run(cfg, ls).intake.accepted
    ensures var s := Run(cfg, ls);
      && d < |s.ended| && s.ended[d].job == j
      && IsDelivery(TriesOf(s.trace, j), cfg.retries, s.ended[d].outcome)
      && forall e :: 0 <= e < |s.ended| && e != d ==> s.ended[e].job != j
  {
    Invariants(cfg, ls);
    CloseDrains(cfg, ls);
    var s := Run(cfg, ls);
    var jobs := seq(|s.ended|, i requires 0 <= i < |s.ended| => s.ended[i].job);
    forall i | 0 <= i < |jobs| ensures jobs[i] < s.taken {
      assert IsOver(s, cfg, i);
    }
    DistinctCovers(jobs, |jobs|, j);
    d :| 0 <= d < |jobs| && jobs[d] == j;
    assert IsOver(s, cfg, d);
  }

  /** Deliveries are cut short only once Close has returned, and none has been. */
  predicate Uncut(s: State) {
    && (s.cancelled ==> s.closer == Returned)
    && forall d :: 0 <= d < |s.ended| ==> s.ended[d].outcome != Cancelled
  }

  lemma UncutStep(s: State, cfg: Config, l: Label)
    requires Orderly(s) && Uncut(s) && l != DrainTimeout
    ensures Uncut(Next(s, cfg, l))
  {
    if Enabled(s, l) && (l.Check? || l.CutShort?) {
      assert s.workers[l.w] != Exited;
    }
  }

  /** Unless the drain timeout fires, no delivery is cancelled. */
  lemma {:induction false} NoTimeoutNoCancel(cfg: Config, ls: seq<Label>)
    requires cfg.Valid() && DrainTimeout !in ls
    ensures Uncut(Run(cfg, ls))
  {
    if ls != [] {
      var prefix := ls[..|ls| - 1];
      NoTimeoutNoCancel(cfg, prefix);
      Invariants(cfg, prefix);
      UncutStep(Run(cfg, prefix), cfg, ls[|ls| - 1]);
    }
  }

  /** So without a timeout, Close returns with every accepted job delivered, refused or out of attempts. */
  lemma EveryJobSettled(cfg: Config, ls: seq<Label>, j: nat) returns (d: nat)
    requires cfg.Valid() && DrainTimeout !in ls
    requires Run(cfg, ls).closer == Returned && j < Run(cfg, ls).intake.accepted
    ensures var s := Run(cfg, ls);
      && d < |s.ended| && s.ended[d].job == j && s.ended[d].outcome != Cancelled
      && IsDelivery(TriesOf(s.trace, j), cfg.retries, s.ended[d].outcome)
  {
    d := EveryJobEnds(cfg, ls, j);
    NoTimeoutNoCancel(cfg, ls);
  }

  // ---- Progress ----------------------------------------------------------------------------------

  predicate IsWork(l: Label) { l.Take? || l.Exit? || l.Check? || l.Attempt? || l.Wake? || l.CutShort? }

  /** How many steps a worker can still take without a new job. */
  function Cost(w: Worker, retries: nat): int {
    match w
    case Idle => 1
    case Checking(_, tries) => 3 * (retries - |tries|) + 2
    case Attempting(_, tries) => 3 * (retries - |tries|) + 1
    case Pausing(_, tries) => 3 * (retries - |tries|) + 3
    case Exited => 0
  }

  function Costs(workers: seq<Worker>, retries: nat): int {
    if workers == [] then 0
    else Costs(workers[..|workers| - 1], retries) + Cost(workers[|workers| - 1], retries)
  }

  lemma {:induction false} CostsUpdate(workers: seq<Worker>, w: nat, to: Worker, retries: nat)
    requires w < |workers|
    ensures Costs(workers[w := to], retries) == Costs(workers, retries) - Cost(workers[w], retries) + Cost(to, retries)
  {
    var n := |workers| - 1;
    if w < n {
      CostsUpdate(workers[..n], w, to, retries);
      assert workers[w := to][..n] == workers[..n][w := to];
    } else {
      assert workers[w := to][..n] == workers[..n];
    }
  }

  /** The work left, counted in worker steps. */
  function Left(s: State, cfg: Config): int {
    |s.intake.queue| * (3 * cfg.retries + 2) + Costs(s.workers, cfg.retries)
  }

  lemma {:induction false} CostsNonNegative(s: State, cfg: Config, k: nat)
    requires Faithful(s, cfg) && k <= |s.workers|
    ensures 0 <= Costs(s.workers[..k], cfg.retries)
  {
    if k > 0 {
      CostsNonNegative(s, cfg, k - 1);
      assert s.workers[..k][..k - 1] == s.workers[..k - 1];
      assert BusyAt(s, k - 1) ==> InHand(s, cfg, k - 1);
    }
  }

  lemma LeftNonNegative(s: State, cfg: Config)
    requires Faithful(s, cfg)
    ensures 0 <= Left(s, cfg)
  {
    CostsNonNegative(s, cfg, |s.workers|);
    assert s.workers[..|s.workers|] == s.workers;
  }

  lemma TakeUsesWork(s: State, cfg: Config, w: nat)
    requires Enabled(s, Take(w))
    ensures Left(Next(s, cfg, Take(w)), cfg) == Left(s, cfg) - 1
  {
    CostsUpdate(s.workers, w, Checking(s.intake.queue[0], []), cfg.retries);
    Distribute(|s.intake.queue| - 1, 3 * cfg.retries + 2);
  }

  lemma Distribute(n: int, k: int)
    ensures (n + 1) * k == n * k + k
  {
  }

  /** Every worker step uses up work; once closed, nothing adds any. */
  lemma WorkStep(s: State, cfg: Config, l: Label)
    requires Faithful(s, cfg) && (IsWork(l) || s.intake.closed || !l.Enqueue?)
    ensures Left(Next(s, cfg, l), cfg) <= Left(s, cfg) - if IsWork(l) && Enabled(s, l) then 1 else 0
  {
    if IsWork(l) && Enabled(s, l) {
      if l.Take? {
        TakeUsesWork(s, cfg, l.w);
      } else {
        var t := Next(s, cfg, l);
        assert BusyAt(s, l.w) ==> InHand(s, cfg, l.w);
        CostsUpdate(s.workers, l.w, t.workers[l.w], cfg.retries);
      }
    }
  }

  /** A closed dispatcher with a worker still running always has a worker step to take. */
  lemma NotStuck(s: State, w: nat) returns (l: Label)
    requires Orderly(s) && s.intake.closed && w < |s.workers| && s.workers[w] != Exited
    ensures IsWork(l) && Enabled(s, l)
  {
    match s.workers[w]
    case Idle => l := if s.intake.queue != [] then Take(w) else Exit(w);
    case Checking(_, _) => l := Check(w);
    case Attempting(_, _) => l := Attempt(w, TransportError);
    case Pausing(_, _) => l := Wake(w);
  }

  /** How many worker steps a run takes. */
  function Work(s: State, cfg: Config, ls: seq<Label>): nat {
    if ls == [] then 0 else
      var prefix, l := ls[..|ls| - 1], ls[|ls| - 1];
      Work(s, cfg, prefix) + if IsWork(l) && Enabled(After(s, cfg, prefix), l) then 1 else 0
  }

  lemma ClosedStays(s: State, cfg: Config, l: Label)
    requires s.intake.closed
    ensures Next(s, cfg, l).intake.closed
  {
  }

  predicate Drains(s: State, cfg: Config) { Good(s, cfg) && s.intake.closed && 0 <= Left(s, cfg) }

  lemma DrainStep(s: State, cfg: Config, l: Label)
    requires cfg.Valid() && Drains(s, cfg)
    ensures Drains(Next(s, cfg, l), cfg)
    ensures Left(Next(s, cfg, l), cfg) <= Left(s, cfg) - if IsWork(l) && Enabled(s, l) then 1 else 0
  {
    GoodStep(s, cfg, l);
    ClosedStays(s, cfg, l);
    WorkStep(s, cfg, l);
    LeftNonNegative(Next(s, cfg, l), cfg);
  }

  /** Draining is bounded: once closed, no run takes more worker steps than there was work left. */
  lemma {:induction false} DrainBound(s: State, cfg: Config, ls: seq<Label>)
    requires cfg.Valid() && Good(s, cfg) && s.intake.closed
    ensures Drains(After(s, cfg, ls), cfg)
    ensures Work(s, cfg, ls) + Left(After(s, cfg, ls), cfg) <= Left(s, cfg)
  {
    if ls == [] {
      LeftNonNegative(s, cfg);
    } else {
      DrainBound(s, cfg, ls[..|ls| - 1]);
      DrainStep(After(s, cfg, ls[..|ls| - 1]), cfg, ls[|ls| - 1]);
    }
  }

  // ---- After the drain timeout -------------------------------------------------------------------

  /** How many workers have a request in flight. */
  function InFlight(workers: seq<Worker>): (n: nat)
    ensures n <= |workers|
  {
    if workers == [] then 0
    else InFlight(workers[..|workers| - 1]) + if workers[|workers| - 1].Attempting? then 1 else 0
  }

  lemma {:induction false} InFlightUpdate(workers: seq<Worker>, w: nat, to: Worker)
    requires w < |workers|
    ensures InFlight(workers[w := to]) ==
      InFlight(workers) - (if workers[w].Attempting? then 1 else 0) + (if to.Attempting? then 1 else 0)
  {
    var n := |workers| - 1;
    if w < n {
      InFlightUpdate(workers[..n], w, to);
      assert workers[w := to][..n] == workers[..n][w := to];
    } else {
      assert workers[w := to][..n] == workers[..n];
    }
  }

  lemma CancelledStep(s: State, cfg: Config, l: Label)
    requires s.cancelled
    ensures var t := Next(s, cfg, l);
      t.cancelled && |t.trace| + InFlight(t.workers) <= |s.trace| + InFlight(s.workers)
  {
    if Enabled(s, l) && !IsIntake(l) {
      InFlightUpdate(s.workers, l.w, Next(s, cfg, l).workers[l.w]);
    }
  }

  lemma {:induction false} CancelledRun(s: State, cfg: Config, ls: seq<Label>)
    requires s.cancelled
    ensures var t := After(s, cfg, ls);
      t.cancelled && |t.trace| + InFlight(t.workers) <= |s.trace| + InFlight(s.workers)
  {
    if ls != [] {
      CancelledRun(s, cfg, ls[..|ls| - 1]);
      CancelledStep(After(s, cfg, ls[..|ls| - 1]), cfg, ls[|ls| - 1]);
    }
  }

  /** Once the drain timeout has fired no new attempt starts: at most those in flight are still made. */
  lemma TimeoutEndsAttempts(s: State, cfg: Config, ls: seq<Label>)
    requires s.closer == Draining
    ensures |After(Next(s, cfg, DrainTimeout), cfg, ls).trace| <= |s.trace| + InFlight(s.workers)
  {
    CancelledRun(Next(s, cfg, DrainTimeout), cfg, ls);
  }
}
