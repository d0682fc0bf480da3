/** Endless runs: once callers stop submitting, the worker finishes, whatever the environment answers. */
module SendProgress {
  import opened Prelude
  import opened SendJob
  import opened SendPipeline
  import opened SendInvariants
  import opened SendTheorems

  /** A step other than a submission. */
  predicate Steps(s: State, cfg: Config, l: Label, t: State) {
    Enabled(s, l) && !l.Submit? && t == Next(s, cfg, l)
  }

  /** An endless run without submissions: the i-th step takes `f(i)` by `l(i)` to `f(i + 1)`. */
  ghost predicate Schedule(cfg: Config, f: nat -> State, l: nat -> Label) {
    forall i: nat :: StepAt(cfg, f, l, i)
  }

  predicate StepAt(cfg: Config, f: nat -> State, l: nat -> Label, i: nat) { Steps(f(i), cfg, l(i), f(i + 1)) }

  lemma StepKeepsInv(s: State, cfg: Config, l: Label, t: State)
    requires Inv(s, cfg) && Steps(s, cfg, l, t)
    ensures Inv(t, cfg)
  {
    InvStep(s, cfg, l);
  }

  /** What any step but a submission leaves alone or only lets grow. */
  lemma StepFacts(s: State, cfg: Config, l: Label, t: State)
    requires Steps(s, cfg, l, t)
    ensures s.clock <= t.clock && (s.stopping ==> t.stopping) && t.accepted == s.accepted
    ensures !l.Work? ==> t.queue == s.queue && t.phase == s.phase
    ensures !s.stopping && s.phase != Exited ==> t.phase != Exited
  {
    if l.Work? {
      WorkFrame(s, cfg, l.c);
      if !s.stopping && s.phase != Exited {
        StaysIn(s, cfg, l.c);
      }
    }
  }

  lemma StepCloserBy(s: State, cfg: Config, l: Label, t: State)
    requires SoundPhase(s.phase) && Steps(s, cfg, l, t) && l.Work?
    ensures SoundPhase(t.phase) && Closer(t, s)
  {
    StepCloser(s, cfg, l.c);
  }

  lemma InvAfterStep(cfg: Config, f: nat -> State, l: nat -> Label, i: nat)
    requires Schedule(cfg, f, l) && Inv(f(i), cfg)
    ensures Inv(f(i + 1), cfg)
  {
    assert StepAt(cfg, f, l, i);
    StepKeepsInv(f(i), cfg, l(i), f(i + 1));
  }

  ghost predicate Passes(p: nat -> bool, i: nat) { p(i) ==> p(i + 1) }

  lemma {:induction false} Passed(p: nat -> bool, i: nat)
    requires p(0) && forall j: nat :: Passes(p, j)
    ensures p(i)
  {
    if i > 0 {
      Passed(p, i - 1);
      assert Passes(p, i - 1);
    }
  }

  lemma InvAt(cfg: Config, f: nat -> State, l: nat -> Label, i: nat)
    requires Inv(f(0), cfg) && Schedule(cfg, f, l)
    ensures Inv(f(i), cfg)
  {
    var p := (j: nat) => Inv(f(j), cfg);
    forall j: nat ensures Passes(p, j) {
      if p(j) {
        InvAfterStep(cfg, f, l, j);
      }
    }
    Passed(p, i);
  }

  lemma FactsAt(cfg: Config, f: nat -> State, l: nat -> Label, i: nat)
    requires Schedule(cfg, f, l)
    ensures var s, t := f(i), f(i + 1);
      && s.clock <= t.clock && (s.stopping ==> t.stopping) && t.accepted == s.accepted
      && (!l(i).Work? ==> t.queue == s.queue && t.phase == s.phase)
      && (!s.stopping && s.phase != Exited ==> t.phase != Exited)
  {
    assert StepAt(cfg, f, l, i);
    StepFacts(f(i), cfg, l(i), f(i + 1));
  }

  // ---- Finitely many steps -----------------------------------------------------------------------

  /** The worker's measure: queued jobs, stage, work left in the stage; compared in that order. */
  datatype Measure = Measure(queued: nat, rank: nat, left: nat)

  function MeasureOf(s: State): Measure {
    Measure(|s.queue|, Rank(s.phase), if SoundPhase(s.phase) then Remaining(s.phase) else 0)
  }

  predicate Below(m: Measure, n: Measure) {
    || m.queued < n.queued
    || (m.queued == n.queued && m.rank < n.rank)
    || (m.queued == n.queued && m.rank == n.rank && m.left < n.left)
  }

  /** Step `i` lowers the measure if it is work, and leaves it alone otherwise. */
  predicate Lowers(g: nat -> Measure, work: nat -> bool, i: nat) {
    if work(i) then Below(g(i + 1), g(i)) else g(i + 1) == g(i)
  }

  lemma {:induction false} FirstWork(g: nat -> Measure, work: nat -> bool, i: nat, j: nat) returns (n: nat)
    requires i <= j && work(j) && forall x: nat :: Lowers(g, work, x)
    ensures i <= n && work(n) && g(n) == g(i)
    decreases j - i
  {
    if work(i) {
      n := i;
    } else {
      n := FirstWork(g, work, i + 1, j);
      assert Lowers(g, work, i);
    }
  }

  lemma {:induction false} FinitelyOften(g: nat -> Measure, work: nat -> bool, i: nat, now: Measure) returns (m: nat)
    requires now == g(i) && forall x: nat :: Lowers(g, work, x)
    ensures forall j: nat :: m <= j ==> !work(j)
    decreases now.queued, now.rank, now.left
  {
    if j: nat :| i <= j && work(j) {
      var n := FirstWork(g, work, i, j);
      assert Lowers(g, work, n);
      m := FinitelyOften(g, work, n + 1, g(n + 1));
    } else {
      m := i;
    }
  }

  lemma StepLowers(s: State, cfg: Config, l: Label, t: State)
    requires Traced(s) && Steps(s, cfg, l, t)
    ensures if l.Work? then Below(MeasureOf(t), MeasureOf(s)) else MeasureOf(t) == MeasureOf(s)
  {
    if l.Work? {
      StepCloserBy(s, cfg, l, t);
    }
  }

  /** Whatever callers, client and clock do, the worker takes only finitely many steps. */
  lemma Settles(cfg: Config, f: nat -> State, l: nat -> Label) returns (m: nat)
    requires Inv(f(0), cfg) && Schedule(cfg, f, l)
    ensures forall j: nat :: m <= j ==> !l(j).Work?
  {
    var g, work := (i: nat) => MeasureOf(f(i)), (i: nat) => l(i).Work?;
    forall i: nat ensures Lowers(g, work, i) {
      InvAt(cfg, f, l, i);
      assert StepAt(cfg, f, l, i);
      StepLowers(f(i), cfg, l(i), f(i + 1));
    }
    m := FinitelyOften(g, work, 0, g(0));
    assert forall j: nat :: work(j) == l(j).Work?;
  }

  /** No step of the worker from `i` up to `j`. */
  ghost predicate Quiet(l: nat -> Label, i: nat, j: nat) { forall x: nat :: i <= x < j ==> !l(x).Work? }

  lemma {:induction false} QuietKeeps(cfg: Config, f: nat -> State, l: nat -> Label, i: nat, j: nat)
    requires Schedule(cfg, f, l) && i <= j && Quiet(l, i, j)
    ensures f(j).queue == f(i).queue && f(j).phase == f(i).phase
    ensures f(i).clock <= f(j).clock && (f(i).stopping ==> f(j).stopping)
  {
    if i < j {
      QuietKeeps(cfg, f, l, i, j - 1);
      FactsAt(cfg, f, l, j - 1);
    }
  }

  // ---- Fair runs -------------------------------------------------------------------------------

  ghost predicate CanGo(s: State) { exists c :: Ready(s, c) }

  /** A worker that can go on is not passed over for ever. */
  ghost predicate Fair(f: nat -> State, l: nat -> Label) { forall i: nat :: ServedFrom(f, l, i) }

  ghost predicate ServedFrom(f: nat -> State, l: nat -> Label, i: nat) {
    exists j: nat :: i <= j && (l(j).Work? || !CanGo(f(j)))
  }

  ghost predicate TimePasses(f: nat -> State) { forall t: nat :: Reaches(f, t) }

  ghost predicate Reaches(f: nat -> State, t: nat) { exists j: nat :: t <= f(j).clock }

  /** The worker has left, or has nothing to do and no reason to leave. */
  predicate AtRest(s: State) {
    s.phase == Exited || (s.phase == Selecting && s.queue == [] && !s.stopping)
  }

  /** The time the worker is waiting for, if it is waiting for one. */
  function DueAt(p: Phase): nat {
    match p
    case Resting(due) => due
    case Serving(_, Typing(_, _, _, due)) => due
    case _ => 0
  }

  lemma CanGoWhenDue(s: State)
    requires Replied(s) && !AtRest(s) && DueAt(s.phase) <= s.clock
    ensures CanGo(s)
  {
    match s.phase
    case Selecting => assert Ready(s, if s.queue != [] then Take else Quit);
    case Resting(_) => assert Ready(s, Ring);
    case Reported => assert Ready(s, Go);
    case Serving(job, at) =>
      var c := StageOpensNow(at, job in s.gone, s.stopping, s.clock);
      assert Ready(s, c);
  }

  lemma StageOpensNow(at: Stage, gone: bool, stopping: bool, clock: nat) returns (c: Choice)
    requires at.Typing? ==> at.due <= clock
    ensures Open(at, c, gone, stopping, clock)
  {
    match at
    case Looking => c := Connected(true);
    case Opening => c := Targets([]);
    case Choosing(_) => c := Delay(0);
    case Typing(_, _, _, _) => c := Ring;
    case Sending(_, _) => c := Answer(Rejected);
    case _ => c := Go;
  }

  lemma {:induction false} ClockGrows(cfg: Config, f: nat -> State, l: nat -> Label, i: nat, j: nat)
    requires Schedule(cfg, f, l) && i <= j
    ensures f(i).clock <= f(j).clock
  {
    if i < j {
      ClockGrows(cfg, f, l, i, j - 1);
      FactsAt(cfg, f, l, j - 1);
    }
  }

  lemma TimeComes(f: nat -> State, t: nat) returns (d: nat)
    requires TimePasses(f)
    ensures t <= f(d).clock
  {
    assert Reaches(f, t);
    d :| t <= f(d).clock;
  }

  /** Once the worker has taken its last step, it is at rest. */
  lemma SettledIsAtRest(cfg: Config, f: nat -> State, l: nat -> Label, m: nat, j: nat)
    requires Inv(f(0), cfg) && Schedule(cfg, f, l) && Fair(f, l) && TimePasses(f)
    requires m <= j && forall x: nat :: m <= x ==> !l(x).Work?
    ensures AtRest(f(j))
  {
    if !AtRest(f(j)) {
      var d := TimeComes(f, DueAt(f(j).phase));
      var from := if d < j then j else d;
      ClockGrows(cfg, f, l, d, from);
      var i := Waiting(f, l, m, from);
      StillCanGo(cfg, f, l, j, from, i);
    }
  }

  lemma Waiting(f: nat -> State, l: nat -> Label, m: nat, from: nat) returns (i: nat)
    requires Fair(f, l) && m <= from && forall x: nat :: m <= x ==> !l(x).Work?
    ensures from <= i && !CanGo(f(i))
  {
    assert ServedFrom(f, l, from);
    i :| from <= i && (l(i).Work? || !CanGo(f(i)));
  }

  lemma StillCanGo(cfg: Config, f: nat -> State, l: nat -> Label, j: nat, from: nat, i: nat)
    requires Inv(f(0), cfg) && Schedule(cfg, f, l) && j <= from <= i && Quiet(l, j, i)
    requires !AtRest(f(j)) && DueAt(f(j).phase) <= f(from).clock
    ensures CanGo(f(i))
  {
    QuietKeeps(cfg, f, l, j, i);
    ClockGrows(cfg, f, l, from, i);
    InvAt(cfg, f, l, i);
    CanGoWhenDue(f(i));
  }

  /** In a fair run the worker ends at rest for good. */
  lemma FairRunsSettle(cfg: Config, f: nat -> State, l: nat -> Label) returns (m: nat)
    requires Inv(f(0), cfg) && Schedule(cfg, f, l) && Fair(f, l) && TimePasses(f)
    ensures forall j: nat :: m <= j ==> AtRest(f(j))
  {
    m := Settles(cfg, f, l);
    forall j: nat | m <= j ensures AtRest(f(j)) {
      SettledIsAtRest(cfg, f, l, m, j);
    }
  }

  lemma {:induction false} NoStopNoExit(cfg: Config, f: nat -> State, l: nat -> Label, j: nat)
    requires Schedule(cfg, f, l) && f(0).phase != Exited && forall i: nat :: !f(i).stopping
    ensures f(j).phase != Exited && f(j).accepted == f(0).accepted
  {
    if j > 0 {
      NoStopNoExit(cfg, f, l, j - 1);
      assert !f(j - 1).stopping;
      FactsAt(cfg, f, l, j - 1);
    }
  }

  /** Without a stop, every accepted job gets its outcome, whatever the client and the phone answer. */
  lemma FairRunsAnswer(cfg: Config, f: nat -> State, l: nat -> Label) returns (m: nat)
    requires Inv(f(0), cfg) && Schedule(cfg, f, l) && Fair(f, l) && TimePasses(f)
    requires f(0).phase != Exited && forall i: nat :: !f(i).stopping
    ensures forall j: nat, job :: m <= j && job in f(0).accepted ==> HasOutcome(f(j), job)
  {
    m := FairRunsSettle(cfg, f, l);
    forall j: nat, job | m <= j && job in f(0).accepted ensures HasOutcome(f(j), job) {
      assert AtRest(f(j));
      NoStopNoExit(cfg, f, l, j);
      InvAt(cfg, f, l, j);
      assert Hand(f(j).phase) == [] && f(j).queue == [];
      OutcomeIffTaken(f(j), cfg, job);
    }
  }

  lemma {:induction false} StopsForGood(cfg: Config, f: nat -> State, l: nat -> Label, i: nat, j: nat)
    requires Schedule(cfg, f, l) && i <= j && f(i).stopping
    ensures f(j).stopping
  {
    if i < j {
      StopsForGood(cfg, f, l, i, j - 1);
      FactsAt(cfg, f, l, j - 1);
    }
  }

  /** After a stop the worker leaves, and from then on stop can return. */
  lemma FairStopReturns(cfg: Config, f: nat -> State, l: nat -> Label, i: nat) returns (m: nat)
    requires Inv(f(0), cfg) && Schedule(cfg, f, l) && Fair(f, l) && TimePasses(f) && f(i).stopping
    ensures forall j: nat :: m <= j ==> f(j).phase == Exited && Enabled(f(j), StopReturns)
  {
    var settled := FairRunsSettle(cfg, f, l);
    m := if settled < i then i else settled;
    forall j: nat | m <= j ensures f(j).phase == Exited && Enabled(f(j), StopReturns) {
      StopsForGood(cfg, f, l, i, j);
      assert AtRest(f(j));
    }
  }
}
