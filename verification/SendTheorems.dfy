/** What callers and WhatsApp can rely on, whatever the interleaving. */
module SendTheorems {
  import opened Prelude
  import opened SendJob
  import opened SendPipeline
  import opened SendInvariants

  // ---- Order -----------------------------------------------------------------------------------

  /** The length of the first `n` blocks. */
  function Upto(blocks: seq<seq<Entry>>, n: nat): nat
    requires n <= |blocks|
  {
    if n == 0 then 0 else Upto(blocks, n - 1) + |blocks[n - 1]|
  }

  /** Position `i` lies in block `a`, or, when there is no such block, behind them all. */
  predicate InBlock(blocks: seq<seq<Entry>>, a: nat, i: nat) {
    a <= |blocks| && Upto(blocks, a) <= i && (a < |blocks| ==> i < Upto(blocks, a + 1))
  }

  lemma {:induction false} SomeBlock(blocks: seq<seq<Entry>>, n: nat, i: nat) returns (a: nat)
    requires n <= |blocks| && i < Upto(blocks, n)
    ensures a < n && InBlock(blocks, a, i)
  {
    if i < Upto(blocks, n - 1) {
      a := SomeBlock(blocks, n - 1, i);
    } else {
      a := n - 1;
    }
  }

  lemma {:induction false} UptoMonotone(blocks: seq<seq<Entry>>, a: nat, b: nat)
    requires a <= b <= |blocks|
    ensures Upto(blocks, a) <= Upto(blocks, b)
  {
    if a < b {
      UptoMonotone(blocks, a, b - 1);
    }
  }

  /** Later positions lie in the same block or a later one. */
  lemma BlocksOrdered(blocks: seq<seq<Entry>>, a: nat, b: nat, i: nat, j: nat)
    requires i < j && InBlock(blocks, a, i) && InBlock(blocks, b, j)
    ensures a <= b
  {
    if b < a {
      UptoMonotone(blocks, b + 1, a);
    }
  }

  lemma {:induction false} FlattenLength(blocks: seq<seq<Entry>>, n: nat)
    requires n <= |blocks|
    ensures |Flatten(blocks[..n])| == Upto(blocks, n)
  {
    if n > 0 {
      assert blocks[..n][..n - 1] == blocks[..n - 1];
      FlattenLength(blocks, n - 1);
    }
  }

  lemma {:induction false} FlattenAt(blocks: seq<seq<Entry>>, n: nat, a: nat, i: nat)
    requires a < n <= |blocks| && InBlock(blocks, a, i)
    ensures i < |Flatten(blocks[..n])| && Flatten(blocks[..n])[i] == blocks[a][i - Upto(blocks, a)]
  {
    assert blocks[..n][..n - 1] == blocks[..n - 1];
    FlattenLength(blocks, n - 1);
    if a < n - 1 {
      FlattenAt(blocks, n - 1, a, i);
    }
  }

  /** The position, among accepted jobs, of the job an entry of the trace belongs to. */
  predicate Owns(s: State, a: nat, i: nat)
    requires i < |s.trace|
  {
    a < |s.accepted| && s.trace[i].job == s.accepted[a] && InBlock(BlockList(s.served), a, i)
  }

  lemma OwnerOf(s: State, cfg: Config, i: nat) returns (a: nat)
    requires Accounted(s, cfg) && Traced(s) && i < |s.trace|
    ensures Owns(s, a, i)
  {
    var n, blocks := |s.served|, BlockList(s.served);
    FlattenLength(blocks, n);
    assert blocks[..n] == blocks;
    if i < Upto(blocks, n) {
      a := SomeBlock(blocks, n, i);
      ServedOwns(s, cfg, a, i);
    } else {
      a := n;
      OpenOwns(s, cfg, i);
    }
  }

  lemma ServedOwns(s: State, cfg: Config, a: nat, i: nat)
    requires Accounted(s, cfg) && Blocks(s.served) <= s.trace
    requires a < |s.served| && InBlock(BlockList(s.served), a, i)
    ensures i < |s.trace| && Owns(s, a, i)
  {
    assert s.accepted[a] == Jobs(s.served)[a];
    BlockEntry(s.served, a, i);
    assert s.trace[i] == Blocks(s.served)[i];
  }

  lemma BlockEntry(served: seq<Served>, a: nat, i: nat)
    requires a < |served| && InBlock(BlockList(served), a, i)
    ensures i < |Blocks(served)| && Blocks(served)[i].job == served[a].job
  {
    var blocks := BlockList(served);
    assert blocks[..|served|] == blocks;
    FlattenAt(blocks, |served|, a, i);
    assert blocks[a] == Block(served[a]);
  }

  lemma OpenOwns(s: State, cfg: Config, i: nat)
    requires Accounted(s, cfg) && Traced(s) && |Blocks(s.served)| <= i < |s.trace|
    requires InBlock(BlockList(s.served), |s.served|, i)
    ensures Owns(s, |s.served|, i)
  {
    assert s.trace[i] == OpenBlock(s.phase)[i - |Blocks(s.served)|];
    assert s.accepted[|s.served|] == Hand(s.phase)[0];
  }

  /**
   * The client calls for different jobs never interleave, and come in the order in which the jobs
   * were accepted.
   */
  lemma InOrder(cfg: Config, ls: seq<Label>, i: nat, j: nat) returns (a: nat, b: nat)
    requires i < j < |Run(cfg, ls).trace|
    ensures var s := Run(cfg, ls);
      && a <= b < |s.accepted|
      && s.trace[i].job == s.accepted[a] && s.trace[j].job == s.accepted[b]
      && Distinct(s.accepted)
  {
    Invariants(cfg, ls);
    var s := Run(cfg, ls);
    a := OwnerOf(s, cfg, i);
    b := OwnerOf(s, cfg, j);
    BlocksOrdered(BlockList(s.served), a, b, i, j);
  }

  // ---- What one job's client calls look like -----------------------------------------------------

  /** The actions taken for one job, in order. */
  function ActionsFor(trace: seq<Entry>, job: nat): seq<Action> {
    if trace == [] then [] else
      ActionsFor(trace[..|trace| - 1], job) +
      if trace[|trace| - 1].job == job then [trace[|trace| - 1].action] else []
  }

  lemma {:induction false} ActionsForConcat(a: seq<Entry>, b: seq<Entry>, job: nat)
    ensures ActionsFor(a + b, job) == ActionsFor(a, job) + ActionsFor(b, job)
  {
    if b == [] {
      assert a + b == a;
    } else {
      assert (a + b)[..|a + b| - 1] == a + b[..|b| - 1];
      ActionsForConcat(a, b[..|b| - 1], job);
    }
  }

  lemma {:induction false} ActionsForEntries(owner: nat, actions: seq<Action>, job: nat)
    ensures ActionsFor(Entries(owner, actions), job) == if owner == job then actions else []
  {
    if actions != [] {
      var n := |actions| - 1;
      ActionsForEntries(owner, actions[..n], job);
      assert Entries(owner, actions)[..n] == Entries(owner, actions[..n]);
      assert Entries(owner, actions)[n] == Entry(owner, actions[n]);
      assert actions == actions[..n] + [actions[n]];
    }
  }

  /** What a visit contributes to the actions for one job. */
  function Share(x: Served, job: nat): seq<Action> { if x.job == job then ActionsOf(x.visit) else [] }

  function Shares(served: seq<Served>, job: nat): (r: seq<seq<Action>>)
    ensures |r| == |served| && forall i :: 0 <= i < |r| ==> r[i] == Share(served[i], job)
  {
    seq(|served|, i requires 0 <= i < |served| => Share(served[i], job))
  }

  lemma LastBlock(served: seq<Served>, x: Served, job: nat)
    ensures ActionsFor(Blocks(served + [x]), job) == ActionsFor(Blocks(served), job) + Share(x, job)
  {
    BlocksAppend(served, x);
    ActionsForConcat(Blocks(served), Block(x), job);
    ActionsForEntries(x.job, ActionsOf(x.visit), job);
  }

  function Joined(shares: seq<seq<Action>>): seq<Action> {
    if shares == [] then [] else Joined(shares[..|shares| - 1]) + shares[|shares| - 1]
  }

  lemma {:induction false} JoinedNone(shares: seq<seq<Action>>)
    requires forall i :: 0 <= i < |shares| ==> shares[i] == []
    ensures Joined(shares) == []
  {
    if shares != [] {
      JoinedNone(shares[..|shares| - 1]);
    }
  }

  lemma {:induction false} JoinedOne(shares: seq<seq<Action>>, k: nat)
    requires k < |shares| && forall i :: 0 <= i < |shares| && i != k ==> shares[i] == []
    ensures Joined(shares) == shares[k]
  {
    var n := |shares| - 1;
    if k < n {
      JoinedOne(shares[..n], k);
    } else {
      JoinedNone(shares[..n]);
    }
  }

  lemma JoinedAppend(shares: seq<seq<Action>>, x: seq<Action>)
    ensures Joined(shares + [x]) == Joined(shares) + x
  {
    assert (shares + [x])[..|shares|] == shares;
  }

  lemma {:induction false} ActionsAreShares(served: seq<Served>, job: nat)
    ensures ActionsFor(Blocks(served), job) == Joined(Shares(served, job))
  {
    if served == [] {
      assert BlockList(served) == [];
    } else {
      var front, x := served[..|served| - 1], served[|served| - 1];
      ActionsAreShares(front, job);
      assert served == front + [x];
      LastBlock(front, x, job);
      assert Shares(served, job) == Shares(front, job) + [Share(x, job)];
      JoinedAppend(Shares(front, job), Share(x, job));
    }
  }

  lemma NoBlock(served: seq<Served>, job: nat)
    requires forall i :: 0 <= i < |served| ==> served[i].job != job
    ensures ActionsFor(Blocks(served), job) == []
  {
    ActionsAreShares(served, job);
    JoinedNone(Shares(served, job));
  }

  lemma OneBlock(served: seq<Served>, k: nat)
    requires k < |served|
    requires forall i :: 0 <= i < |served| && i != k ==> served[i].job != served[k].job
    ensures ActionsFor(Blocks(served), served[k].job) == ActionsOf(served[k].visit)
  {
    ActionsAreShares(served, served[k].job);
    JoinedOne(Shares(served, served[k].job), k);
  }

  /** The job in hand, if any, adds its own actions and nothing to other jobs. */
  lemma OpenActions(s: State, job: nat)
    requires Traced(s)
    ensures ActionsFor(s.trace, job) == ActionsFor(Blocks(s.served), job) +
      if s.phase.Serving? && s.phase.job == job then SoFar(s.phase.at) else []
  {
    ActionsForConcat(Blocks(s.served), OpenBlock(s.phase), job);
    if s.phase.Serving? {
      ActionsForEntries(s.phase.job, SoFar(s.phase.at), job);
    }
  }

  /** A served job's client calls are those of its visit, no more and no fewer. */
  lemma ServedActions(s: State, cfg: Config, k: nat)
    requires Accounted(s, cfg) && Traced(s) && k < |s.served|
    ensures ActionsFor(s.trace, s.served[k].job) == ActionsOf(s.served[k].visit)
  {
    PlacesApart(s, cfg);
    OneBlock(s.served, k);
    OpenActions(s, s.served[k].job);
  }

  /**
   * In every run each served job, interrupted or not, left receipts first, then at most one run of
   * the indicator closed by exactly one clearing, then at most one send.
   */
  lemma ServedShaped(cfg: Config, ls: seq<Label>, k: nat) returns (receipts: nat, pause: nat)
    requires k < |Run(cfg, ls).served|
    ensures var s := Run(cfg, ls); Shaped(ActionsFor(s.trace, s.served[k].job), receipts, pause)
  {
    Invariants(cfg, ls);
    ServedActions(Run(cfg, ls), cfg, k);
    receipts, pause := VisitShaped(Run(cfg, ls).served[k].visit);
  }

  /** A job neither served nor in hand has caused no client call. */
  lemma UntouchedActions(s: State, job: nat)
    requires Traced(s) && job !in Jobs(s.served) + Hand(s.phase)
    ensures ActionsFor(s.trace, job) == []
  {
    assert forall i :: 0 <= i < |s.served| ==> Jobs(s.served)[i] in Jobs(s.served) + Hand(s.phase);
    assert s.phase.Serving? ==> s.phase.job in Hand(s.phase);
    NoBlock(s.served, job);
    OpenActions(s, job);
  }

  /**
   * A caller that got an outcome got the one of its visit: success exactly when that job's single
   * send succeeded, with the identifier that send returned.
   */
  lemma OutcomeIsTrue(cfg: Config, ls: seq<Label>, job: nat) returns (k: nat)
    requires var s := Run(cfg, ls); job in s.callers && IsGot(s.callers[job])
    ensures var s := Run(cfg, ls); var o, actions := s.callers[job].result.outcome, ActionsFor(s.trace, job);
      && k < |s.served| && s.served[k].job == job
      && actions == ActionsOf(s.served[k].visit) && o == OutcomeOf(s.served[k].visit)
      && (forall id :: o == Sent(id) <==> Deliver(Accepted(id)) in actions)
      && (o == SendFailed <==> Deliver(Rejected) in actions)
      && (forall i, j :: 0 <= i < j < |actions| ==> !(actions[i].Deliver? && actions[j].Deliver?))
  {
    Invariants(cfg, ls);
    var s := Run(cfg, ls);
    k := ServedIndex(s, cfg, job);
    assert Answered(s, s.served[k]);
    ServedActions(s, cfg, k);
    VisitSends(s.served[k].visit);
  }

  /** Only served jobs have outcomes. */
  lemma ServedIndex(s: State, cfg: Config, job: nat) returns (k: nat)
    requires Inv(s, cfg) && job in s.callers && IsGot(s.callers[job])
    ensures k < |s.served| && s.served[k].job == job
  {
    assert job in s.accepted;
    var i :| 0 <= i < |s.accepted| && s.accepted[i] == job;
    forall q | 0 <= q < |s.queue| ensures s.queue[q] != job {
      assert Unanswered(s, s.queue[q]);
    }
    k := i;
  }

  /** Reporting never blocks: the reply channel of the job in hand is always empty. */
  lemma ReportNeverBlocks(cfg: Config, ls: seq<Label>)
    requires Reports(Run(cfg, ls))
    ensures Ready(Run(cfg, ls), Go)
  {
    Invariants(cfg, ls);
  }

  /** Each job starts at least the gap after the previous one ended, however that one ended. */
  lemma GapRespected(cfg: Config, ls: seq<Label>, i: nat)
    requires i + 1 < |Run(cfg, ls).served|
    ensures var s := Run(cfg, ls);
      && s.served[i].begun <= s.served[i].ended
      && s.served[i].ended + cfg.gap <= s.served[i + 1].begun
  {
    Invariants(cfg, ls);
  }

  // ---- Jobs that must not be sent ------------------------------------------------------------------

  lemma {:induction false} AfterConcat(s: State, cfg: Config, a: seq<Label>, b: seq<Label>)
    ensures After(s, cfg, a + b) == After(After(s, cfg, a), cfg, b)
  {
    if b == [] {
      assert a + b == a;
    } else {
      assert (a + b)[..|a + b| - 1] == a + b[..|b| - 1];
      AfterConcat(s, cfg, a, b[..|b| - 1]);
    }
  }

  lemma {:induction false} DoomedAfter(s: State, cfg: Config, ls: seq<Label>, job: nat)
    requires Doomed(s, job)
    ensures Doomed(After(s, cfg, ls), job)
  {
    if ls != [] {
      DoomedAfter(s, cfg, ls[..|ls| - 1], job);
      DoomedStep(After(s, cfg, ls[..|ls| - 1]), cfg, ls[|ls| - 1], job);
    }
  }

  /**
   * A job whose caller's context was done before the worker looked at it causes no client call,
   * then or later.
   */
  lemma CancelledNeverSent(cfg: Config, before: seq<Label>, later: seq<Label>, job: nat)
    requires Doomed(Run(cfg, before), job)
    ensures ActionsFor(Run(cfg, before + later).trace, job) == []
  {
    AfterConcat(INIT, cfg, before, later);
    DoomedAfter(Run(cfg, before), cfg, later, job);
    Invariants(cfg, before + later);
    var s := Run(cfg, before + later);
    if k :| 0 <= k < |s.served| && s.served[k].job == job {
      ServedActions(s, cfg, k);
    } else {
      NoBlock(s.served, job);
      OpenActions(s, job);
    }
  }

  lemma {:induction false} RefusedAfter(s: State, cfg: Config, ls: seq<Label>, job: nat)
    requires Inv(s, cfg) && Refused(s, job)
    ensures Refused(After(s, cfg, ls), job)
  {
    if ls != [] {
      RefusedAfter(s, cfg, ls[..|ls| - 1], job);
      InvAfter(s, cfg, ls[..|ls| - 1]);
      RefusedStep(After(s, cfg, ls[..|ls| - 1]), cfg, ls[|ls| - 1], job);
    }
  }

  /** A refused job is never sent. */
  lemma RefusedNeverSent(cfg: Config, before: seq<Label>, later: seq<Label>, job: nat)
    requires Refused(Run(cfg, before), job)
    ensures ActionsFor(Run(cfg, before + later).trace, job) == []
  {
    Invariants(cfg, before);
    AfterConcat(INIT, cfg, before, later);
    RefusedAfter(Run(cfg, before), cfg, later, job);
    Invariants(cfg, before + later);
    var s := Run(cfg, before + later);
    assert job !in s.accepted;
    assert forall j :: j in Jobs(s.served) + Hand(s.phase) ==> j in s.accepted;
    UntouchedActions(s, job);
  }

  // ---- Shutdown ---------------------------------------------------------------------------------------

  lemma ExitedStep(s: State, cfg: Config, l: Label)
    requires s.phase == Exited
    ensures var t := Next(s, cfg, l);
      t.phase == Exited && t.trace == s.trace && t.served == s.served && s.queue <= t.queue
  {
  }

  lemma {:induction false} ExitedAfter(s: State, cfg: Config, ls: seq<Label>)
    requires s.phase == Exited
    ensures var t := After(s, cfg, ls);
      t.phase == Exited && t.trace == s.trace && t.served == s.served && s.queue <= t.queue
  {
    if ls != [] {
      ExitedAfter(s, cfg, ls[..|ls| - 1]);
      ExitedStep(After(s, cfg, ls[..|ls| - 1]), cfg, ls[|ls| - 1]);
    }
  }

  lemma {:induction false} StoppedMeansExited(cfg: Config, ls: seq<Label>)
    requires Run(cfg, ls).stopped
    ensures Run(cfg, ls).phase == Exited
  {
    if ls != [] && Run(cfg, ls[..|ls| - 1]).stopped {
      StoppedMeansExited(cfg, ls[..|ls| - 1]);
    }
  }

  /** Once stop has returned, the worker makes no client call and reports no outcome. */
  lemma SilentAfterStop(cfg: Config, before: seq<Label>, later: seq<Label>)
    requires Run(cfg, before).stopped
    ensures Run(cfg, before + later).trace == Run(cfg, before).trace
    ensures Run(cfg, before + later).served == Run(cfg, before).served
  {
    AfterConcat(INIT, cfg, before, later);
    StoppedMeansExited(cfg, before);
    ExitedAfter(Run(cfg, before), cfg, later);
  }

  /** A job still queued when the worker leaves never gets an outcome: its caller can only give up. */
  lemma LeftBehind(cfg: Config, before: seq<Label>, later: seq<Label>, job: nat)
    requires Run(cfg, before).phase == Exited && job in Run(cfg, before).queue
    ensures var t := Run(cfg, before + later);
      && job in t.callers && (t.callers[job] == Waiting || t.callers[job] == Returned(GaveUp))
      && job in t.replies && t.replies[job] == []
  {
    AfterConcat(INIT, cfg, before, later);
    ExitedAfter(Run(cfg, before), cfg, later);
    Invariants(cfg, before + later);
    var s, t := Run(cfg, before), Run(cfg, before + later);
    PlacesApart(t, cfg);
    var i :| 0 <= i < |s.queue| && s.queue[i] == job;
    assert t.queue[i] == job && Unanswered(t, t.queue[i]);
  }

  /** The outcome is on the job's reply channel or with its caller. */
  predicate HasOutcome(s: State, job: nat) {
    && job in s.callers && job in s.replies
    && (IsGot(s.callers[job]) || s.replies[job] != [])
  }

  lemma ServedHaveOutcome(s: State, k: nat)
    requires Replied(s) && k < |s.served|
    ensures HasOutcome(s, s.served[k].job)
  {
    assert Answered(s, s.served[k]);
  }

  lemma QueuedHaveNone(s: State, k: nat)
    requires Replied(s) && k < |s.queue|
    ensures !HasOutcome(s, s.queue[k])
  {
    assert Unanswered(s, s.queue[k]);
  }

  /** With no job in hand, the accepted jobs without an outcome are exactly those still queued. */
  lemma OutcomeIffTaken(s: State, cfg: Config, job: nat)
    requires Accounted(s, cfg) && Replied(s) && !s.phase.Serving? && job in s.accepted
    ensures HasOutcome(s, job) <==> job !in s.queue
  {
    if job in s.queue {
      var i :| 0 <= i < |s.queue| && s.queue[i] == job;
      QueuedHaveNone(s, i);
    } else {
      var k := PlaceServed(s, cfg, job);
      ServedHaveOutcome(s, k);
    }
  }

  lemma PlaceServed(s: State, cfg: Config, job: nat) returns (k: nat)
    requires Accounted(s, cfg) && !s.phase.Serving? && job in s.accepted && job !in s.queue
    ensures k < |s.served| && s.served[k].job == job
  {
    var jobs := Jobs(s.served);
    assert s.accepted == jobs + s.queue;
    k :| 0 <= k < |s.accepted| && s.accepted[k] == job;
  }

  /** When the worker has left, an accepted job has its outcome exactly when it is not in the queue. */
  lemma ExitedOutcomeIff(cfg: Config, ls: seq<Label>, job: nat)
    requires Run(cfg, ls).phase == Exited && job in Run(cfg, ls).accepted
    ensures HasOutcome(Run(cfg, ls), job) <==> job !in Run(cfg, ls).queue
  {
    Invariants(cfg, ls);
    OutcomeIffTaken(Run(cfg, ls), cfg, job);
  }

  // ---- Progress -----------------------------------------------------------------------------------------

  /** How far a stage is from its report. */
  function Rank(p: Phase): nat {
    match p
    case Exited => 0
    case Selecting => 1
    case Resting(_) => 2
    case Reported => 3
    case Serving(_, at) =>
      match at
      case Reporting(_) => 4
      case Sending(_, _) => 5
      case Judging(_, _, _) => 6
      case Clearing(_, _, _, _) => 7
      case Typing(_, _, _, _) => 8
      case Showing(_, _, _) => 8
      case Choosing(_) => 9
      case Reading(_, _) => 10
      case Opening => 11
      case Looking => 12
      case Begun => 13
  }

  predicate SoundPhase(p: Phase) { p.Serving? ==> Sound(p.at) }

  /** Receipts or typing time still to go within a stage. */
  function Remaining(p: Phase): nat
    requires SoundPhase(p)
  {
    if !p.Serving? then 0 else
    match p.at
    case Reading(targets, sent) => |targets| - sent
    case Showing(_, dur, k) => 2 * (dur - k * SLICE) + 1
    case Typing(_, dur, k, _) => 2 * (dur - k * SLICE)
    case _ => 0
  }

  /** Lexicographic: fewer queued jobs, or a later phase, or less of it to go. */
  predicate Closer(t: State, s: State)
    requires SoundPhase(s.phase) && SoundPhase(t.phase)
  {
    || |t.queue| < |s.queue|
    || (|t.queue| == |s.queue| && Rank(t.phase) < Rank(s.phase))
    || (|t.queue| == |s.queue| && Rank(t.phase) == Rank(s.phase) && Remaining(t.phase) < Remaining(s.phase))
  }

  lemma AdvanceCloser(at: Stage, c: Choice, gone: bool, clock: nat, job: nat)
    requires Sound(at) && !at.Reporting? && Open(at, c, gone, true, clock)
    ensures Sound(Advance(at, c, gone, clock))
    ensures var next, now := Serving(job, Advance(at, c, gone, clock)), Serving(job, at);
      Rank(next) < Rank(now) || (Rank(next) == Rank(now) && Remaining(next) < Remaining(now))
  {
    StaysSound(at, c, gone, clock);
  }

  lemma StepCloser(s: State, cfg: Config, c: Choice)
    requires SoundPhase(s.phase) && Ready(s, c)
    ensures SoundPhase(Step(s, cfg, c).phase) && Closer(Step(s, cfg, c), s)
  {
    if s.phase.Serving? && !s.phase.at.Reporting? {
      AdvanceCloser(s.phase.at, c, s.phase.job in s.gone, s.clock, s.phase.job);
    }
  }

  /** Every step of the worker brings it closer to having nothing to do, and no other step but a
      submission changes how far it has to go. */
  lemma WorkProgresses(s: State, cfg: Config, l: Label)
    requires Inv(s, cfg) && Enabled(s, l) && !l.Submit?
    ensures SoundPhase(Next(s, cfg, l).phase)
    ensures l.Work? ==> Closer(Next(s, cfg, l), s)
    ensures !l.Work? ==> Next(s, cfg, l).queue == s.queue && Next(s, cfg, l).phase == s.phase
  {
    if l.Work? {
      StepCloser(s, cfg, l.c);
    }
  }

  predicate HasWork(s: State) { s.phase != Exited && !(s.phase.Selecting? && s.queue == []) }

  /** Every stage before the report has a way on, at latest when the slice is due. */
  lemma StageOpens(at: Stage, gone: bool, stopping: bool, clock: nat) returns (d: nat, c: Choice)
    ensures c != Quit && Open(at, c, gone, stopping, clock + d)
  {
    d := 0;
    match at
    case Looking => c := Connected(true);
    case Opening => c := Targets([]);
    case Choosing(_) => c := Delay(0);
    case Typing(_, _, _, due) => c := Ring; d := due;
    case Sending(_, _) => c := Answer(Rejected);
    case _ => c := Go;
  }

  /** With work to do the worker can always go on, at latest when a timer is due. */
  lemma NeverStuck(s: State, cfg: Config) returns (d: nat, c: Choice)
    requires Replied(s) && HasWork(s)
    ensures c != Quit && Ready(Next(s, cfg, Tick(d)), c)
  {
    d := 0;
    match s.phase
    case Selecting => c := Take;
    case Resting(due) => c := Ring; d := due;
    case Reported => c := Go;
    case Serving(job, at) =>
      d, c := StageOpens(at, job in s.gone, s.stopping, s.clock);
  }

  lemma TwoSteps(s: State, cfg: Config, a: Label, b: Label)
    ensures After(s, cfg, [a, b]) == Next(Next(s, cfg, a), cfg, b)
  {
    assert [a, b][..1] == [a] && [a][..0] == [];
    assert After(s, cfg, [a]) == Next(s, cfg, a);
  }

  lemma StaysIn(s: State, cfg: Config, c: Choice)
    requires Ready(s, c) && c != Quit
    ensures Step(s, cfg, c).phase != Exited && Step(s, cfg, c).accepted == s.accepted
  {
  }

  /** One timer and one step of the worker, keeping clear of shutdown. */
  lemma GoOn(s: State, cfg: Config) returns (ls: seq<Label>)
    requires SoundPhase(s.phase) && Replied(s) && HasWork(s)
    ensures var t := After(s, cfg, ls);
      && WorkerOnly(ls) && SoundPhase(t.phase)
      && Closer(t, s) && t.accepted == s.accepted && t.phase != Exited
  {
    var d, c := NeverStuck(s, cfg);
    var s1 := Next(s, cfg, Tick(d));
    StepCloser(s1, cfg, c);
    StaysIn(s1, cfg, c);
    TwoSteps(s, cfg, Tick(d), Work(c));
    ls := [Tick(d), Work(c)];
  }

  predicate WorkerOnly(ls: seq<Label>) {
    forall i :: 0 <= i < |ls| ==> ls[i].Tick? || ls[i].Work?
  }

  /**
   * From every reachable state whose worker has not left, time and the worker alone can bring every
   * accepted job to its outcome.
   */
  lemma CanFinish(s: State, cfg: Config) returns (ls: seq<Label>, t: State)
    requires Inv(s, cfg) && s.phase != Exited
    ensures t == After(s, cfg, ls) && WorkerOnly(ls)
    ensures t.phase == Selecting && t.queue == []
    ensures t.accepted == s.accepted == Jobs(t.served)
    decreases |s.queue|, Rank(s.phase), Remaining(s.phase)
  {
    if HasWork(s) {
      var step := GoOn(s, cfg);
      InvAfter(s, cfg, step);
      var rest;
      rest, t := CanFinish(After(s, cfg, step), cfg);
      ls := step + rest;
      AfterConcat(s, cfg, step, rest);
    } else {
      ls, t := [], s;
      Regroup(Jobs(s.served), [], []);
    }
  }

  /** A run that can go no further has answered every accepted job. */
  lemma RestMeansServed(cfg: Config, ls: seq<Label>, job: nat)
    requires forall d: nat, c: Choice :: !Ready(Next(Run(cfg, ls), cfg, Tick(d)), c)
    requires Run(cfg, ls).phase != Exited && job in Run(cfg, ls).accepted
    ensures var s := Run(cfg, ls); exists k :: 0 <= k < |s.served| && s.served[k].job == job && Answered(s, s.served[k])
  {
    Invariants(cfg, ls);
    var s := Run(cfg, ls);
    if HasWork(s) {
      var d, c := NeverStuck(s, cfg);
    }
    var k :| 0 <= k < |s.accepted| && s.accepted[k] == job;
    assert s.served[k].job == job && Answered(s, s.served[k]);
  }
}
