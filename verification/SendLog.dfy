/** Each visit is the one that what the worker saw calls for: its calls' answers, its timers, its callers. */
module SendLog {
  import opened Prelude
  import opened SendJob
  import opened SendPipeline
  import opened SendInvariants
  import opened SendTheorems

  /** One step of the worker with a job in hand: what it found, and whether the caller was gone. */
  datatype Glimpse = Glimpse(c: Choice, gone: bool)

  predicate Logged(s: State, l: Label, job: nat) {
    l.Work? && Ready(s, l.c) && s.phase.Serving? && s.phase.job == job && !s.phase.at.Reporting?
  }

  /** All that the worker saw of a job, read off the labels of a run. */
  function Log(cfg: Config, ls: seq<Label>, job: nat): seq<Glimpse> {
    if ls == [] then [] else
      var prefix, l := ls[..|ls| - 1], ls[|ls| - 1];
      LoggedTo(Log(cfg, prefix, job), Run(cfg, prefix), l, job)
  }

  function LoggedTo(log: seq<Glimpse>, s: State, l: Label, job: nat): seq<Glimpse> {
    if Logged(s, l, job) then log + [Glimpse(l.c, job in s.gone)] else log
  }

  // ---- The world a log tells of -------------------------------------------------------------------

  predicate YesIn(log: seq<Glimpse>) {
    log != [] &&
    var c := log[|log| - 1].c;
    if c.Connected? then c.yes else YesIn(log[..|log| - 1])
  }

  function TargetsIn(log: seq<Glimpse>): seq<string> {
    if log == [] then [] else
      var c := log[|log| - 1].c;
      if c.Targets? then c.targets else TargetsIn(log[..|log| - 1])
  }

  function DelayIn(log: seq<Glimpse>): nat {
    if log == [] then 0 else
      var c := log[|log| - 1].c;
      if c.Delay? then c.dur else DelayIn(log[..|log| - 1])
  }

  function ReplyIn(log: seq<Glimpse>): Reply {
    if log == [] then Rejected else
      var c := log[|log| - 1].c;
      if c.Answer? then c.reply else ReplyIn(log[..|log| - 1])
  }

  function SignalsIn(log: seq<Glimpse>): seq<Signal> {
    if log == [] then [] else
      SignalsIn(log[..|log| - 1]) +
      match log[|log| - 1].c
      case Ring => [Timer]
      case Hang => [ContextDone]
      case Quit => [Stopping]
      case _ => []
  }

  function WorldOf(log: seq<Glimpse>): World {
    var signals := SignalsIn(log);
    World(log != [] && log[0].gone,
          YesIn(log),
          TargetsIn(log),
          DelayIn(log),
          (k: nat) => if k < |signals| then signals[k] else Timer,
          log != [] && log[|log| - 1].gone,
          ReplyIn(log))
  }

  lemma LogGrows(log: seq<Glimpse>, g: Glimpse)
    ensures var more := log + [g];
      && (YesIn(more) <==> if g.c.Connected? then g.c.yes else YesIn(log))
      && TargetsIn(more) == (if g.c.Targets? then g.c.targets else TargetsIn(log))
      && DelayIn(more) == (if g.c.Delay? then g.c.dur else DelayIn(log))
      && ReplyIn(more) == (if g.c.Answer? then g.c.reply else ReplyIn(log))
      && SignalsIn(more) == SignalsIn(log) +
           (if g.c.Ring? then [Timer] else if g.c.Hang? then [ContextDone] else if g.c.Quit? then [Stopping] else [])
  {
    assert (log + [g])[..|log|] == log;
  }

  // ---- Stage by stage -------------------------------------------------------------------------------

  predicate AllTimers(signals: seq<Signal>, k: nat) {
    |signals| == k && forall i :: 0 <= i < k ==> signals[i] == Timer
  }

  predicate CutAt(signals: seq<Signal>, k: nat) {
    |signals| == k + 1 && signals[k] != Timer && forall i :: 0 <= i < k ==> signals[i] == Timer
  }

  predicate Began(log: seq<Glimpse>) { log != [] && !log[0].gone }

  predicate Opened(log: seq<Glimpse>, targets: seq<string>) {
    Began(log) && YesIn(log) && TargetsIn(log) == targets
  }

  predicate Showed(log: seq<Glimpse>, targets: seq<string>, dur: nat) {
    Opened(log, targets) && DelayIn(log) == dur
  }

  /** What the log of a job in hand must say for the worker to be where it is. */
  predicate Reads(at: Stage, log: seq<Glimpse>) {
    match at
    case Begun => log == []
    case Looking => Began(log) && SignalsIn(log) == []
    case Opening => Began(log) && YesIn(log) && SignalsIn(log) == []
    case Reading(targets, _) => Opened(log, targets) && SignalsIn(log) == []
    case Choosing(targets) => Opened(log, targets) && SignalsIn(log) == []
    case Showing(targets, dur, k) => Showed(log, targets, dur) && AllTimers(SignalsIn(log), k) && k * SLICE < dur
    case Typing(targets, dur, k, _) => Showed(log, targets, dur) && AllTimers(SignalsIn(log), k) && k * SLICE < dur
    case Clearing(targets, dur, k, ok) =>
      Showed(log, targets, dur) &&
      if ok then AllTimers(SignalsIn(log), SliceCount(dur)) else CutAt(SignalsIn(log), k) && k * SLICE < dur
    case Judging(targets, dur, k) => Showed(log, targets, dur) && CutAt(SignalsIn(log), k) && k * SLICE < dur
    case Sending(targets, dur) => Showed(log, targets, dur) && AllTimers(SignalsIn(log), SliceCount(dur))
    case Reporting(visit) => visit == VisitIn(WorldOf(log))
  }

  lemma ReadsReport(at: Stage, c: Choice, gone: bool, clock: nat, log: seq<Glimpse>)
    requires (at.Begun? && gone) || (at.Looking? && c.Connected? && !c.yes) || at.Judging? || at.Sending?
    requires Reads(at, log) && Open(at, c, gone, true, clock)
    ensures Reads(Advance(at, c, gone, clock), log + [Glimpse(c, gone)])
  {
    var more := log + [Glimpse(c, gone)];
    LogGrows(log, Glimpse(c, gone));
    var w := WorldOf(more);
    var v := VisitIn(w);
    assert more[0] == if log == [] then Glimpse(c, gone) else log[0];
    if at.Judging? {
      SliceWithin(at.dur, at.k);
      assert w.signals(at.k) != Timer;
      assert v.Interrupted?;
      assert forall i :: 0 <= i < at.k ==> w.signals(i) == Timer;
    }
  }

  lemma ReadsOn(at: Stage, c: Choice, gone: bool, clock: nat, log: seq<Glimpse>)
    requires !at.Reporting? && Reads(at, log) && Open(at, c, gone, true, clock)
    ensures Reads(Advance(at, c, gone, clock), log + [Glimpse(c, gone)])
  {
    if (at.Begun? && gone) || (at.Looking? && !c.yes) || at.Judging? || at.Sending? {
      ReadsReport(at, c, gone, clock, log);
    } else {
      LogGrows(log, Glimpse(c, gone));
      var more := log + [Glimpse(c, gone)];
      assert more[0] == if log == [] then Glimpse(c, gone) else log[0];
      if at.Typing? && c.Ring? && (at.k + 1) * SLICE >= at.dur {
        LastSlice(at.dur, at.k);
      }
    }
  }

  // ---- Over every run -------------------------------------------------------------------------------

  predicate InHand(s: State, job: nat) { s.phase.Serving? && s.phase.job == job }

  predicate Served(s: State, job: nat) { exists k :: 0 <= k < |s.served| && s.served[k].job == job }

  predicate AsSeen(cfg: Config, ls: seq<Label>, x: SendPipeline.Served) {
    x.visit == VisitIn(WorldOf(Log(cfg, ls, x.job)))
  }

  /** The job in hand is where its log says, the jobs served went as theirs say, and others have none. */
  ghost predicate LogsAgree(cfg: Config, ls: seq<Label>) {
    var s := Run(cfg, ls);
    && (s.phase.Serving? ==> Reads(s.phase.at, Log(cfg, ls, s.phase.job)))
    && (forall k :: 0 <= k < |s.served| ==> AsSeen(cfg, ls, s.served[k]))
    && (forall job: nat :: InHand(s, job) || Served(s, job) || Log(cfg, ls, job) == [])
  }

  lemma LogSame(cfg: Config, ls: seq<Label>, l: Label, job: nat)
    ensures Log(cfg, ls + [l], job) == LoggedTo(Log(cfg, ls, job), Run(cfg, ls), l, job)
    ensures Run(cfg, ls + [l]) == Next(Run(cfg, ls), cfg, l)
  {
    assert (ls + [l])[..|ls|] == ls;
  }

  /** A job just taken has not been seen before. */
  lemma TakenIsNew(s: State, cfg: Config)
    requires Accounted(s, cfg) && s.queue != [] && s.phase.Selecting?
    ensures !Served(s, s.queue[0])
  {
    PlacesApart(s, cfg);
  }

  lemma HandNotServed(s: State, cfg: Config)
    requires Accounted(s, cfg) && s.phase.Serving?
    ensures !Served(s, s.phase.job)
  {
    PlacesApart(s, cfg);
  }

  /** A step that does not add to the log of the jobs served. */
  lemma ServedKept(cfg: Config, ls: seq<Label>, l: Label, k: nat)
    requires Accounted(Run(cfg, ls), cfg) && LogsAgree(cfg, ls) && k < |Run(cfg, ls).served|
    ensures AsSeen(cfg, ls + [l], Run(cfg, ls).served[k])
  {
    var s := Run(cfg, ls);
    var job := s.served[k].job;
    LogSame(cfg, ls, l, job);
    assert AsSeen(cfg, ls, s.served[k]) && Served(s, job);
    if Logged(s, l, job) {
      HandNotServed(s, cfg);
    }
  }

  lemma LoggedMoves(s: State, cfg: Config, l: Label, job: nat)
    requires Logged(s, l, job)
    ensures Open(s.phase.at, l.c, job in s.gone, true, s.clock)
    ensures Next(s, cfg, l).phase == Serving(job, Advance(s.phase.at, l.c, job in s.gone, s.clock))
  {
  }

  /** Without a logged step the job in hand is where it was, or has just been taken. */
  lemma OthersStay(s: State, cfg: Config, l: Label)
    requires var t := Next(s, cfg, l); t.phase.Serving? && !Logged(s, l, t.phase.job)
    ensures var t := Next(s, cfg, l); t.phase == s.phase || (s.phase.Selecting? && t.phase.at == Begun)
  {
  }

  /** One step, seen from the job that is then in hand. */
  lemma HandStep(s: State, cfg: Config, l: Label, job: nat, before: seq<Glimpse>)
    requires InHand(Next(s, cfg, l), job)
    requires if InHand(s, job) then Reads(s.phase.at, before) else before == []
    ensures Reads(Next(s, cfg, l).phase.at, LoggedTo(before, s, l, job))
  {
    if Logged(s, l, job) {
      LoggedMoves(s, cfg, l, job);
      ReadsOn(s.phase.at, l.c, job in s.gone, s.clock, before);
    } else {
      OthersStay(s, cfg, l);
    }
  }

  lemma HandAgrees(cfg: Config, ls: seq<Label>, l: Label)
    requires Accounted(Run(cfg, ls), cfg) && LogsAgree(cfg, ls) && Run(cfg, ls + [l]).phase.Serving?
    ensures var t := Run(cfg, ls + [l]); Reads(t.phase.at, Log(cfg, ls + [l], t.phase.job))
  {
    var s := Run(cfg, ls);
    LogSame(cfg, ls, l, Run(cfg, ls + [l]).phase.job);
    var job := Next(s, cfg, l).phase.job;
    NewOrInHand(s, cfg, l);
    assert InHand(s, job) || Served(s, job) || Log(cfg, ls, job) == [];
    HandStep(s, cfg, l, job, Log(cfg, ls, job));
  }

  lemma NewOrInHand(s: State, cfg: Config, l: Label)
    requires Accounted(s, cfg) && Next(s, cfg, l).phase.Serving?
    ensures var job := Next(s, cfg, l).phase.job; InHand(s, job) || !Served(s, job)
  {
    if s.phase.Selecting? && s.queue != [] {
      TakenIsNew(s, cfg);
    }
  }

  lemma ServedStays(s: State, cfg: Config, l: Label, job: nat)
    requires InHand(s, job) || Served(s, job)
    ensures InHand(Next(s, cfg, l), job) || Served(Next(s, cfg, l), job)
  {
    var t := Next(s, cfg, l);
    if k :| 0 <= k < |s.served| && s.served[k].job == job {
      assert t.served[k] == s.served[k];
    } else if Enabled(s, l) && l.Work? && Reports(s) {
      assert t.served[|s.served|].job == job;
    }
  }

  lemma Reported(s: State, cfg: Config, l: Label, k: nat)
    requires |s.served| <= k < |Next(s, cfg, l).served|
    ensures Reports(s) && !Logged(s, l, s.phase.job)
    ensures var x := Next(s, cfg, l).served[k]; x.job == s.phase.job && x.visit == s.phase.at.visit
  {
  }

  /** The job a step has just finished reporting on went as its log says. */
  lemma ReportAgrees(cfg: Config, ls: seq<Label>, l: Label, k: nat)
    requires LogsAgree(cfg, ls) && |Run(cfg, ls).served| <= k < |Next(Run(cfg, ls), cfg, l).served|
    ensures AsSeen(cfg, ls + [l], Next(Run(cfg, ls), cfg, l).served[k])
  {
    Reported(Run(cfg, ls), cfg, l, k);
    LogSame(cfg, ls, l, Run(cfg, ls).phase.job);
  }

  lemma OthersUnseen(cfg: Config, ls: seq<Label>, l: Label, job: nat)
    requires LogsAgree(cfg, ls)
    ensures var t := Next(Run(cfg, ls), cfg, l);
      InHand(t, job) || Served(t, job) || Log(cfg, ls + [l], job) == []
  {
    var s := Run(cfg, ls);
    LogSame(cfg, ls, l, job);
    if InHand(s, job) || Served(s, job) {
      ServedStays(s, cfg, l, job);
    }
  }

  lemma StepServes(s: State, cfg: Config, l: Label)
    ensures s.served <= Next(s, cfg, l).served
  {
  }

  lemma LogsAgreeStep(cfg: Config, ls: seq<Label>, l: Label)
    requires Accounted(Run(cfg, ls), cfg) && LogsAgree(cfg, ls)
    ensures LogsAgree(cfg, ls + [l])
  {
    var s, t := Run(cfg, ls), Run(cfg, ls + [l]);
    LogSame(cfg, ls, l, 0);
    StepServes(s, cfg, l);
    if t.phase.Serving? {
      HandAgrees(cfg, ls, l);
    }
    forall k | 0 <= k < |t.served| ensures AsSeen(cfg, ls + [l], t.served[k]) {
      if k < |s.served| {
        ServedKept(cfg, ls, l, k);
      } else {
        ReportAgrees(cfg, ls, l, k);
      }
    }
    forall job: nat ensures InHand(t, job) || Served(t, job) || Log(cfg, ls + [l], job) == [] {
      OthersUnseen(cfg, ls, l, job);
    }
  }

  ghost predicate Holds(cfg: Config, ls: seq<Label>) { Accounted(Run(cfg, ls), cfg) && LogsAgree(cfg, ls) }

  lemma HoldsStep(cfg: Config, ls: seq<Label>, l: Label)
    requires Holds(cfg, ls)
    ensures Holds(cfg, ls + [l])
  {
    Invariants(cfg, ls + [l]);
    LogsAgreeStep(cfg, ls, l);
  }

  lemma {:induction false} LogsAlwaysAgree(cfg: Config, ls: seq<Label>)
    ensures Holds(cfg, ls)
  {
    if ls == [] {
      assert Accounted(INIT, cfg);
    } else {
      LogsAlwaysAgree(cfg, ls[..|ls| - 1]);
      HoldsStep(cfg, ls[..|ls| - 1], ls[|ls| - 1]);
      assert ls[..|ls| - 1] + [ls[|ls| - 1]] == ls;
    }
  }

  /**
   * In every run each served job's visit is the one the labels of its steps dictate: gone at the first,
   * connected or not, the targets, delay and reply its calls returned, the signals its waits ended by.
   */
  lemma VisitAsSeen(cfg: Config, ls: seq<Label>, k: nat)
    requires k < |Run(cfg, ls).served|
    ensures var x := Run(cfg, ls).served[k]; x.visit == VisitIn(WorldOf(Log(cfg, ls, x.job)))
  {
    LogsAlwaysAgree(cfg, ls);
    assert AsSeen(cfg, ls, Run(cfg, ls).served[k]);
  }

  /** So are the client calls made for it, and the outcome its caller gets. */
  lemma OutcomeAsSeen(cfg: Config, ls: seq<Label>, job: nat)
    requires var s := Run(cfg, ls); job in s.callers && IsGot(s.callers[job])
    ensures
      var s, v := Run(cfg, ls), VisitIn(WorldOf(Log(cfg, ls, job)));
      s.callers[job].result.outcome == OutcomeOf(v) && ActionsFor(s.trace, job) == ActionsOf(v)
  {
    var k := OutcomeIsTrue(cfg, ls, job);
    VisitAsSeen(cfg, ls, k);
  }

  // ---- What the connection decides -------------------------------------------------------------------

  /** The worker has read the connection for this job, and found it so. */
  predicate Decided(s: State, job: nat, yes: bool) {
    && (InHand(s, job) || Served(s, job))
    && (InHand(s, job) ==> PastLooking(s.phase.at, yes))
    && (forall k :: 0 <= k < |s.served| && s.served[k].job == job ==> (s.served[k].visit.Offline? <==> !yes))
  }

  predicate PastLooking(at: Stage, yes: bool) {
    if yes then !at.Begun? && !at.Looking? && at != Reporting(Offline) else at == Reporting(Offline)
  }

  lemma PastOn(at: Stage, c: Choice, gone: bool, clock: nat, yes: bool)
    requires PastLooking(at, yes) && !at.Reporting? && Open(at, c, gone, true, clock)
    ensures PastLooking(Advance(at, c, gone, clock), yes)
  {
  }

  lemma DecidedStep(s: State, cfg: Config, l: Label, job: nat, yes: bool)
    requires Accounted(s, cfg) && Decided(s, job, yes)
    ensures Decided(Next(s, cfg, l), job, yes)
  {
    ServedStays(s, cfg, l, job);
    if Next(s, cfg, l).phase.Serving? && InHand(Next(s, cfg, l), job) {
      NewOrInHand(s, cfg, l);
      if Logged(s, l, job) {
        LoggedMoves(s, cfg, l, job);
        PastOn(s.phase.at, l.c, job in s.gone, s.clock, yes);
      } else {
        OthersStay(s, cfg, l);
      }
    }
    DecidedServed(s, cfg, l, job, yes);
  }

  lemma DecidedServed(s: State, cfg: Config, l: Label, job: nat, yes: bool)
    requires Decided(s, job, yes)
    ensures var t := Next(s, cfg, l);
      forall k :: 0 <= k < |t.served| && t.served[k].job == job ==> (t.served[k].visit.Offline? <==> !yes)
  {
    var t := Next(s, cfg, l);
    StepServes(s, cfg, l);
    forall k | 0 <= k < |t.served| && t.served[k].job == job ensures t.served[k].visit.Offline? <==> !yes {
      if k < |s.served| {
        assert t.served[k] == s.served[k];
      } else {
        Reported(s, cfg, l, k);
      }
    }
  }

  lemma {:induction false} DecidedAfter(s: State, cfg: Config, ls: seq<Label>, job: nat, yes: bool)
    requires Inv(s, cfg) && Decided(s, job, yes)
    ensures Decided(After(s, cfg, ls), job, yes)
  {
    if ls != [] {
      DecidedAfter(s, cfg, ls[..|ls| - 1], job, yes);
      InvAfter(s, cfg, ls[..|ls| - 1]);
      DecidedStep(After(s, cfg, ls[..|ls| - 1]), cfg, ls[|ls| - 1], job, yes);
    }
  }

  lemma DecidesNow(s: State, cfg: Config, job: nat, yes: bool)
    requires Accounted(s, cfg) && s.phase == Serving(job, Looking)
    ensures Decided(Next(s, cfg, Work(Connected(yes))), job, yes)
  {
    HandNotServed(s, cfg);
    LoggedMoves(s, cfg, Work(Connected(yes)), job);
    ServedStays(s, cfg, Work(Connected(yes)), job);
    StepServes(s, cfg, Work(Connected(yes)));
  }

  /**
   * What the worker reads of the connection decides for good: not connected, and the job causes no
   * client call and its caller can only be told so; connected, and its visit is not the offline one.
   */
  lemma ConnectionDecides(cfg: Config, before: seq<Label>, yes: bool, later: seq<Label>, job: nat)
    requires Run(cfg, before).phase == Serving(job, Looking)
    ensures
      var s := Run(cfg, before + [Work(Connected(yes))] + later);
      && Decided(s, job, yes)
      && (!yes ==> ActionsFor(s.trace, job) == [])
      && (!yes && job in s.callers && IsGot(s.callers[job]) ==> s.callers[job] == Returned(Got(NotConnected)))
  {
    var now := before + [Work(Connected(yes))];
    assert now[..|before|] == before;
    Invariants(cfg, before);
    DecidesNow(Run(cfg, before), cfg, job, yes);
    Invariants(cfg, now);
    AfterConcat(INIT, cfg, now, later);
    DecidedAfter(Run(cfg, now), cfg, later, job, yes);
    Invariants(cfg, now + later);
    if !yes {
      OfflineIsSilent(Run(cfg, now + later), cfg, job);
    }
  }

  lemma OfflineIsSilent(s: State, cfg: Config, job: nat)
    requires Inv(s, cfg) && Decided(s, job, false)
    ensures ActionsFor(s.trace, job) == []
    ensures job in s.callers && IsGot(s.callers[job]) ==> s.callers[job] == Returned(Got(NotConnected))
  {
    if k :| 0 <= k < |s.served| && s.served[k].job == job {
      ServedActions(s, cfg, k);
      assert Answered(s, s.served[k]);
    } else {
      NoBlock(s.served, job);
      OpenActions(s, job);
      assert Unanswered(s, job);
    }
  }
}
