/** What a caller's own steps lead to: checking, submitting, cancelling, stopping; and that sends wait. */
module SendCallers {
  import opened Prelude
  import opened SendJob
  import opened SendPipeline
  import opened SendInvariants
  import opened SendTheorems
  import SendProgress

  // ---- Submitting ------------------------------------------------------------------------------------

  /** A new caller goes on exactly when it found the session connected; otherwise it is refused at once. */
  lemma CheckDecides(cfg: Config, ls: seq<Label>, connected: bool)
    ensures
      var s, t := Run(cfg, ls), Run(cfg, ls + [Check(connected)]);
      && s.nextJob !in s.callers && s.nextJob in t.callers
      && t.callers[s.nextJob] == (if connected then Checked else Returned(RefusedNotConnected))
      && t.accepted == s.accepted && t.queue == s.queue
  {
    Invariants(cfg, ls);
    assert (ls + [Check(connected)])[..|ls|] == ls;
  }

  /** A caller that goes on is accepted exactly when the queue has room, behind all jobs accepted before. */
  lemma SubmitDecides(cfg: Config, ls: seq<Label>, job: nat)
    requires var s := Run(cfg, ls); job in s.callers && s.callers[job] == Checked
    ensures
      var s, t := Run(cfg, ls), Run(cfg, ls + [Submit(job)]);
      && job !in s.accepted
      && if |s.queue| < cfg.depth
         then t.queue == s.queue + [job] && t.accepted == s.accepted + [job] && t.callers[job] == Waiting
         else t.queue == s.queue && t.accepted == s.accepted && t.callers[job] == Returned(RefusedQueueFull)
  {
    Invariants(cfg, ls);
    assert (ls + [Submit(job)])[..|ls|] == ls;
  }

  // ---- Cancelling ------------------------------------------------------------------------------------

  /** Cancelling a job the worker has not begun keeps it from the client for good. */
  lemma CancelInTime(cfg: Config, before: seq<Label>, later: seq<Label>, job: nat)
    requires var s := Run(cfg, before);
      && (s.phase.Serving? && s.phase.job == job ==> s.phase.at == Begun)
      && forall k :: 0 <= k < |s.served| ==> s.served[k].job != job
    ensures ActionsFor(Run(cfg, before + [Cancel(job)] + later).trace, job) == []
  {
    assert (before + [Cancel(job)])[..|before|] == before;
    CancelledNeverSent(cfg, before + [Cancel(job)], later, job);
  }

  // ---- Stopping --------------------------------------------------------------------------------------

  /** In a fair run without further submissions, asking to stop makes the worker leave for good. */
  lemma StopWorks(cfg: Config, f: nat -> State, l: nat -> Label, i: nat) returns (m: nat)
    requires Inv(f(0), cfg) && SendProgress.Schedule(cfg, f, l)
    requires SendProgress.Fair(f, l) && SendProgress.TimePasses(f) && l(i) == Stop
    ensures forall j: nat :: m <= j ==> f(j).phase == Exited && Enabled(f(j), StopReturns)
  {
    assert SendProgress.StepAt(cfg, f, l, i);
    StopAsks(f(i), cfg, f(i + 1));
    m := SendProgress.FairStopReturns(cfg, f, l, i + 1);
  }

  lemma StopAsks(s: State, cfg: Config, t: State)
    requires SendProgress.Steps(s, cfg, Stop, t)
    ensures t.stopping
  {
  }

  // ---- Typing takes its time ---------------------------------------------------------------------------

  /** How long the job in hand has been worked on at least, from its typing so far. */
  predicate Spent(at: Stage, begun: nat, clock: nat) {
    match at
    case Showing(_, dur, k) => begun + k * SLICE <= clock && k * SLICE < dur
    case Typing(_, dur, k, due) => begun + k * SLICE + SliceLength(dur, k) <= due && k * SLICE < dur
    case Clearing(_, dur, _, ok) => ok ==> begun + dur <= clock
    case Sending(_, dur) => begun + dur <= clock
    case Reporting(Delivered(_, dur, _)) => begun + dur <= clock
    case _ => true
  }

  lemma SpentOn(at: Stage, c: Choice, gone: bool, begun: nat, clock: nat)
    requires begun <= clock && Spent(at, begun, clock) && Open(at, c, gone, true, clock)
    ensures Spent(Advance(at, c, gone, clock), begun, clock)
  {
  }

  predicate Timed(x: Served) { x.visit.Delivered? ==> x.begun + x.visit.dur <= x.ended }

  predicate AllTimed(s: State) {
    && (s.phase.Serving? ==> s.begun <= s.clock && Spent(s.phase.at, s.begun, s.clock))
    && (forall k :: 0 <= k < |s.served| ==> Timed(s.served[k]))
  }

  lemma TimedWork(s: State, cfg: Config, c: Choice)
    requires AllTimed(s) && Ready(s, c)
    ensures AllTimed(Step(s, cfg, c))
  {
    if s.phase.Serving? && !s.phase.at.Reporting? {
      SpentOn(s.phase.at, c, s.phase.job in s.gone, s.begun, s.clock);
    }
  }

  lemma TimedStep(s: State, cfg: Config, l: Label)
    requires AllTimed(s)
    ensures AllTimed(Next(s, cfg, l))
  {
    if Enabled(s, l) && l.Work? {
      TimedWork(s, cfg, l.c);
    }
  }

  lemma {:induction false} AlwaysTimed(cfg: Config, ls: seq<Label>)
    ensures AllTimed(Run(cfg, ls))
  {
    if ls != [] {
      AlwaysTimed(cfg, ls[..|ls| - 1]);
      TimedStep(Run(cfg, ls[..|ls| - 1]), cfg, ls[|ls| - 1]);
    }
  }

  /** A send is made only after the whole typing delay has passed. */
  lemma DelayRespected(cfg: Config, ls: seq<Label>)
    ensures
      var s := Run(cfg, ls);
      && (s.phase.Serving? && s.phase.at.Sending? ==> s.begun + s.phase.at.dur <= s.clock)
      && forall k :: 0 <= k < |s.served| && s.served[k].visit.Delivered? ==>
           s.served[k].begun + s.served[k].visit.dur <= s.served[k].ended
  {
    AlwaysTimed(cfg, ls);
    assert forall k :: 0 <= k < |Run(cfg, ls).served| ==> Timed(Run(cfg, ls).served[k]);
  }
}
