/** What every step of the send queue keeps, and what that means for every run. */
module SendInvariants {
  import opened Prelude
  import opened SendJob
  import opened SendPipeline

  // ---- Accounting: every accepted job is queued, in hand, or served ---------------------------

  function Hand(p: Phase): seq<nat> { if p.Serving? then [p.job] else [] }

  function Jobs(served: seq<Served>): (r: seq<nat>)
    ensures |r| == |served| && forall i :: 0 <= i < |r| ==> r[i] == served[i].job
  {
    seq(|served|, i requires 0 <= i < |served| => served[i].job)
  }

  /** Jobs leave the queue in the order they were accepted, and none is lost or doubled. */
  predicate Accounted(s: State, cfg: Config) {
    && s.accepted == Jobs(s.served) + Hand(s.phase) + s.queue
    && Distinct(s.accepted)
    && |s.queue| <= cfg.depth
  }

  /** Only accepted jobs have callers that wait or got an answer. */
  predicate Known(s: State) {
    && (forall j :: j in s.callers ==> j < s.nextJob)
    && (forall j :: j in s.accepted ==> j in s.callers)
    && (forall j :: j in s.callers ==> (j in s.accepted <==>
          s.callers[j] == Waiting || s.callers[j] == Returned(GaveUp) || IsGot(s.callers[j])))
  }

  predicate IsGot(c: Caller) { c.Returned? && c.result.Got? }

  lemma JobsAppend(served: seq<Served>, x: Served)
    ensures Jobs(served + [x]) == Jobs(served) + [x.job]
  {
  }

  predicate Reports(s: State) { s.phase.Serving? && s.phase.at.Reporting? }

  /** What a step of the worker leaves alone. */
  lemma WorkFrame(s: State, cfg: Config, c: Choice)
    requires Ready(s, c)
    ensures var t := Step(s, cfg, c);
      && t.callers == s.callers && t.nextJob == s.nextJob && t.accepted == s.accepted
      && t.gone == s.gone && t.clock == s.clock && t.stopping == s.stopping && t.stopped == s.stopped
      && Hand(t.phase) + t.queue == (if Reports(s) then s.queue else Hand(s.phase) + s.queue)
      && t.served == s.served +
           (if Reports(s) then [Served(s.phase.job, s.phase.at.visit, s.begun, s.clock)] else [])
      && |t.queue| <= |s.queue|
  {
    if s.phase.Selecting? && c.Take? {
      assert [s.queue[0]] + s.queue[1..] == s.queue;
    }
  }

  lemma AccountedWork(s: State, cfg: Config, c: Choice)
    requires Accounted(s, cfg) && Ready(s, c)
    ensures Accounted(Step(s, cfg, c), cfg)
  {
    WorkFrame(s, cfg, c);
    var t := Step(s, cfg, c);
    Regroup(Jobs(s.served), Hand(s.phase), s.queue);
    Regroup(Jobs(t.served), Hand(t.phase), t.queue);
    if Reports(s) {
      JobsAppend(s.served, t.served[|s.served|]);
    }
  }

  lemma AccountedSubmit(s: State, cfg: Config, job: nat)
    requires Accounted(s, cfg) && Known(s) && Enabled(s, Submit(job))
    ensures Accounted(Next(s, cfg, Submit(job)), cfg)
  {
    assert job !in s.accepted;
    var t := Next(s, cfg, Submit(job));
    if |s.queue| < cfg.depth {
      assert t.accepted == Jobs(t.served) + Hand(t.phase) + t.queue;
    }
  }

  lemma AccountedStep(s: State, cfg: Config, l: Label)
    requires Accounted(s, cfg) && Known(s)
    ensures Accounted(Next(s, cfg, l), cfg)
  {
    if Enabled(s, l) {
      match l
      case Submit(job) => AccountedSubmit(s, cfg, job);
      case Work(c) => AccountedWork(s, cfg, c);
      case _ =>
    }
  }

  lemma KnownSame(s: State, t: State)
    requires Known(s) && t.callers == s.callers && t.accepted == s.accepted && t.nextJob == s.nextJob
    ensures Known(t)
  {
  }

  /** A caller that was waiting comes back. */
  lemma KnownReturn(s: State, t: State, job: nat, r: Result)
    requires Known(s) && job in s.callers && s.callers[job] == Waiting
    requires t.callers == s.callers[job := Returned(r)] && (r == GaveUp || r.Got?)
    requires t.accepted == s.accepted && t.nextJob == s.nextJob
    ensures Known(t)
  {
  }

  lemma KnownSubmit(s: State, cfg: Config, job: nat)
    requires Known(s) && Enabled(s, Submit(job))
    ensures Known(Next(s, cfg, Submit(job)))
  {
    var t := Next(s, cfg, Submit(job));
    assert job !in s.accepted;
    if |s.queue| < cfg.depth {
      assert forall j :: j in t.accepted <==> j in s.accepted || j == job;
    }
  }

  lemma {:induction false} KnownStep(s: State, cfg: Config, l: Label)
    requires Known(s)
    ensures Known(Next(s, cfg, l))
  {
    if Enabled(s, l) {
      var t := Next(s, cfg, l);
      match l
      case Check(_) => assert s.nextJob !in s.callers && s.nextJob !in s.accepted;
      case Submit(job) => KnownSubmit(s, cfg, job);
      case Receive(job) => KnownReturn(s, t, job, Got(s.replies[job][0]));
      case Abandon(job) => KnownReturn(s, t, job, GaveUp);
      case Work(c) =>
        WorkFrame(s, cfg, c);
        KnownSame(s, t);
      case _ => KnownSame(s, t);
    }
  }

  // ---- The trace: one block of actions per job, in the order served -----------------------------

  /** What the client has seen of the job in hand. */
  function SoFar(at: Stage): seq<Action>
    requires at.Clearing? && at.ok ==> 0 < at.dur
  {
    match at
    case Begun => []
    case Looking => []
    case Opening => []
    case Reading(targets, sent) => if sent <= |targets| then Receipts(targets)[..sent] else []
    case Choosing(targets) => Receipts(targets)
    case Showing(targets, dur, k) =>
      Receipts(targets) + if k == 0 then [] else Refreshed(k - 1) + [Slept(SLICE)]
    case Typing(targets, dur, k, _) => Receipts(targets) + Refreshed(k)
    case Clearing(targets, dur, k, ok) => Receipts(targets) + if ok then Typed(dur) else Refreshed(k)
    case Judging(targets, dur, k) => Receipts(targets) + Refreshed(k) + [Paused]
    case Sending(targets, dur) => Receipts(targets) + SendJob.Typing(dur)
    case Reporting(visit) => ActionsOf(visit)
  }

  predicate Sound(at: Stage) {
    match at
    case Reading(targets, sent) => sent <= |targets|
    case Showing(_, dur, k) => k * SLICE < dur
    case Typing(_, dur, k, _) => k * SLICE < dur
    case Clearing(_, dur, k, ok) => if ok then 0 < dur else k * SLICE < dur
    case Judging(_, dur, k) => k * SLICE < dur
    case Reporting(visit) => visit.Valid()
    case _ => true
  }

  lemma LastSlice(dur: nat, k: nat)
    requires k * SLICE < dur <= (k + 1) * SLICE
    ensures SliceCount(dur) == k + 1
  {
  }

  lemma StaysSound(at: Stage, c: Choice, gone: bool, clock: nat)
    requires Sound(at) && !at.Reporting? && Open(at, c, gone, true, clock)
    ensures Sound(Advance(at, c, gone, clock))
  {
  }

  lemma ReadingGrows(targets: seq<string>, sent: nat)
    requires sent <= |targets|
    ensures Receipts(targets)[..|targets|] == Receipts(targets)
    ensures sent < |targets| ==> Receipts(targets)[..sent + 1] == Receipts(targets)[..sent] + [Receipt(targets[sent])]
  {
  }

  lemma ShowingGrows(targets: seq<string>, k: nat)
    ensures Receipts(targets) + Refreshed(k) ==
      Receipts(targets) + (if k == 0 then [] else Refreshed(k - 1) + [Slept(SLICE)]) + [Composing]
  {
  }

  lemma TypingGrows(targets: seq<string>, dur: nat, k: nat)
    requires k * SLICE < dur
    ensures (k + 1) * SLICE < dur ==>
      Receipts(targets) + (Refreshed(k) + [Slept(SLICE)]) ==
      Receipts(targets) + Refreshed(k) + [Slept(SliceLength(dur, k))]
    ensures (k + 1) * SLICE >= dur ==>
      Receipts(targets) + Typed(dur) == Receipts(targets) + Refreshed(k) + [Slept(SliceLength(dur, k))]
  {
    if (k + 1) * SLICE >= dur {
      LastSlice(dur, k);
    }
  }

  lemma ClearingGrows(targets: seq<string>, dur: nat)
    requires 0 < dur
    ensures Receipts(targets) + SendJob.Typing(dur) == Receipts(targets) + Typed(dur) + [Paused]
  {
    assert Receipts(targets) + (Typed(dur) + [Paused]) == Receipts(targets) + Typed(dur) + [Paused];
  }

  predicate Grows(at: Stage, c: Choice, gone: bool, clock: nat)
    requires Sound(at) && Open(at, c, gone, true, clock)
  {
    && Sound(Advance(at, c, gone, clock))
    && SoFar(Advance(at, c, gone, clock)) == SoFar(at) + Emitted(at, c)
  }

  lemma ReceiptsGrow(at: Stage, c: Choice, gone: bool, clock: nat)
    requires (at.Opening? || at.Reading? || at.Choosing?) && Sound(at) && Open(at, c, gone, true, clock)
    ensures Grows(at, c, gone, clock)
  {
    if at.Reading? {
      ReadingGrows(at.targets, at.sent);
    }
  }

  lemma IndicatorGrows(at: Stage, c: Choice, gone: bool, clock: nat)
    requires (at.Showing? || at.Typing?) && Sound(at) && Open(at, c, gone, true, clock)
    ensures Grows(at, c, gone, clock)
  {
    if at.Showing? {
      ShowingGrows(at.targets, at.k);
    } else if c.Ring? {
      TypingGrows(at.targets, at.dur, at.k);
    }
  }

  lemma ClearedGrows(at: Stage, c: Choice, gone: bool, clock: nat)
    requires (at.Clearing? || at.Judging? || at.Sending?) && Sound(at) && Open(at, c, gone, true, clock)
    ensures Grows(at, c, gone, clock)
  {
    if at.Clearing? && at.ok {
      ClearingGrows(at.targets, at.dur);
    }
  }

  /** Each step of a visit adds to the trace exactly what brings it up to the next stage. */
  lemma SoFarGrows(at: Stage, c: Choice, gone: bool, clock: nat)
    requires Sound(at) && !at.Reporting? && Open(at, c, gone, true, clock)
    ensures Grows(at, c, gone, clock)
  {
    if at.Begun? || at.Looking? {
    } else if at.Opening? || at.Reading? || at.Choosing? {
      ReceiptsGrow(at, c, gone, clock);
    } else if at.Showing? || at.Typing? {
      IndicatorGrows(at, c, gone, clock);
    } else {
      ClearedGrows(at, c, gone, clock);
    }
  }

  function Block(x: Served): seq<Entry> { Entries(x.job, ActionsOf(x.visit)) }

  function Flatten(blocks: seq<seq<Entry>>): seq<Entry> {
    if blocks == [] then [] else Flatten(blocks[..|blocks| - 1]) + blocks[|blocks| - 1]
  }

  function BlockList(served: seq<Served>): (r: seq<seq<Entry>>)
    ensures |r| == |served| && forall i :: 0 <= i < |r| ==> r[i] == Block(served[i])
  {
    seq(|served|, i requires 0 <= i < |served| => Block(served[i]))
  }

  function Blocks(served: seq<Served>): seq<Entry> { Flatten(BlockList(served)) }

  lemma FlattenAppend(blocks: seq<seq<Entry>>, b: seq<Entry>)
    ensures Flatten(blocks + [b]) == Flatten(blocks) + b
  {
    assert (blocks + [b])[..|blocks|] == blocks;
  }

  lemma BlocksAppend(served: seq<Served>, x: Served)
    ensures Blocks(served + [x]) == Blocks(served) + Block(x)
  {
    assert BlockList(served + [x]) == BlockList(served) + [Block(x)];
    FlattenAppend(BlockList(served), Block(x));
  }

  function OpenBlock(p: Phase): seq<Entry>
    requires p.Serving? ==> Sound(p.at)
  {
    if p.Serving? then Entries(p.job, SoFar(p.at)) else []
  }

  /** The client's whole history is the visits one after another, never interleaved. */
  predicate Traced(s: State) {
    && (s.phase.Serving? ==> Sound(s.phase.at))
    && (forall i :: 0 <= i < |s.served| ==> s.served[i].visit.Valid())
    && s.trace == Blocks(s.served) + OpenBlock(s.phase)
  }

  lemma EntriesAppend(job: nat, a: seq<Action>, b: seq<Action>)
    ensures Entries(job, a + b) == Entries(job, a) + Entries(job, b)
  {
  }

  /** The open block grows by what the step emits. */
  lemma TracedServing(s: State, cfg: Config, c: Choice)
    requires Traced(s) && Ready(s, c) && s.phase.Serving? && !s.phase.at.Reporting?
    ensures Traced(Step(s, cfg, c))
  {
    var job, at := s.phase.job, s.phase.at;
    SoFarGrows(at, c, job in s.gone, s.clock);
    EntriesAppend(job, SoFar(at), Emitted(at, c));
    Regroup(Blocks(s.served), Entries(job, SoFar(at)), Entries(job, Emitted(at, c)));
  }

  /** Reporting turns the open block into the last of the blocks. */
  lemma TracedReport(s: State, cfg: Config, c: Choice)
    requires Traced(s) && Ready(s, c) && Reports(s)
    ensures Traced(Step(s, cfg, c))
  {
    BlocksAppend(s.served, Served(s.phase.job, s.phase.at.visit, s.begun, s.clock));
  }

  lemma TracedWork(s: State, cfg: Config, c: Choice)
    requires Traced(s) && Ready(s, c)
    ensures Traced(Step(s, cfg, c))
  {
    if Reports(s) {
      TracedReport(s, cfg, c);
    } else if s.phase.Serving? {
      TracedServing(s, cfg, c);
    }
  }

  lemma TracedStep(s: State, cfg: Config, l: Label)
    requires Traced(s)
    ensures Traced(Next(s, cfg, l))
  {
    if Enabled(s, l) && l.Work? {
      TracedWork(s, cfg, l.c);
    }
  }

  // ---- Replies: one outcome per served job, and room for it ---------------------------------------

  /** The reply channel of a served job holds its outcome until the caller has it. */
  predicate Answered(s: State, x: Served) {
    && x.job in s.replies && x.job in s.callers
    && if IsGot(s.callers[x.job])
       then s.callers[x.job] == Returned(Got(OutcomeOf(x.visit))) && s.replies[x.job] == []
       else s.replies[x.job] == [OutcomeOf(x.visit)]
  }

  predicate Unanswered(s: State, job: nat) {
    job in s.replies && s.replies[job] == [] && job in s.callers && !IsGot(s.callers[job])
  }

  predicate Replied(s: State) {
    && (forall i :: 0 <= i < |s.served| ==> Answered(s, s.served[i]))
    && (forall i :: 0 <= i < |s.queue| ==> Unanswered(s, s.queue[i]))
    && (s.phase.Serving? ==> Unanswered(s, s.phase.job))
  }

  /** Distinctness of the accepted jobs, place by place. */
  lemma PlacesApart(s: State, cfg: Config)
    requires Accounted(s, cfg)
    ensures forall i :: 0 <= i < |s.served| ==> s.served[i].job in s.accepted
    ensures forall i :: 0 <= i < |s.queue| ==> s.queue[i] in s.accepted
    ensures forall i, k :: 0 <= i < |s.served| && 0 <= k < |s.queue| ==> s.served[i].job != s.queue[k]
    ensures forall i, k :: 0 <= i < k < |s.served| ==> s.served[i].job != s.served[k].job
    ensures forall i, k :: 0 <= i < k < |s.queue| ==> s.queue[i] != s.queue[k]
    ensures s.phase.Serving? ==> s.phase.job in s.accepted
    ensures s.phase.Serving? ==> forall i :: 0 <= i < |s.served| ==> s.served[i].job != s.phase.job
    ensures s.phase.Serving? ==> forall i :: 0 <= i < |s.queue| ==> s.queue[i] != s.phase.job
  {
    var n, h := |s.served|, |Hand(s.phase)|;
    assert forall i :: 0 <= i < n ==> s.accepted[i] == s.served[i].job;
    assert s.phase.Serving? ==> s.accepted[n] == s.phase.job;
    assert forall i :: 0 <= i < |s.queue| ==> s.accepted[n + h + i] == s.queue[i];
  }

  lemma RepliedReport(s: State, cfg: Config, c: Choice)
    requires Accounted(s, cfg) && Replied(s) && Ready(s, c) && Reports(s)
    ensures Replied(Step(s, cfg, c))
  {
    PlacesApart(s, cfg);
    var t := Step(s, cfg, c);
    forall i | 0 <= i < |t.served| ensures Answered(t, t.served[i]) {
      if i < |s.served| { assert Answered(s, s.served[i]); }
    }
    forall i | 0 <= i < |t.queue| ensures Unanswered(t, t.queue[i]) {
      assert Unanswered(s, s.queue[i]);
    }
  }

  lemma RepliedWork(s: State, cfg: Config, c: Choice)
    requires Accounted(s, cfg) && Replied(s) && Ready(s, c)
    ensures Replied(Step(s, cfg, c))
  {
    if Reports(s) {
      RepliedReport(s, cfg, c);
    } else {
      var t := Step(s, cfg, c);
      forall i | 0 <= i < |t.served| ensures Answered(t, t.served[i]) {
        assert Answered(s, s.served[i]);
      }
      forall i | 0 <= i < |t.queue| ensures Unanswered(t, t.queue[i]) {
        assert Unanswered(s, s.queue[if s.phase.Selecting? && c.Take? then i + 1 else i]);
      }
    }
  }

  /** Steps of callers touch the reply channel and state of one job only. */
  lemma RepliedOthers(s: State, t: State, job: nat)
    requires Replied(s) && t.phase == s.phase && t.served == s.served && t.queue == s.queue
    requires forall j :: j != job && j in s.callers ==> j in t.callers && t.callers[j] == s.callers[j]
    requires forall j :: j != job && j in s.replies ==> j in t.replies && t.replies[j] == s.replies[j]
    requires forall i :: 0 <= i < |s.served| && s.served[i].job == job ==> Answered(t, s.served[i])
    requires forall i :: 0 <= i < |s.queue| && s.queue[i] == job ==> Unanswered(t, job)
    requires s.phase.Serving? && s.phase.job == job ==> Unanswered(t, job)
    ensures Replied(t)
  {
    forall i | 0 <= i < |t.served| ensures Answered(t, t.served[i]) {
      assert Answered(s, s.served[i]);
    }
    forall i | 0 <= i < |t.queue| ensures Unanswered(t, t.queue[i]) {
      assert Unanswered(s, s.queue[i]);
    }
  }

  lemma RepliedReceive(s: State, cfg: Config, job: nat)
    requires Replied(s) && Enabled(s, Receive(job))
    ensures Replied(Next(s, cfg, Receive(job)))
  {
    var t := Next(s, cfg, Receive(job));
    forall i | 0 <= i < |s.queue| ensures s.queue[i] != job {
      assert Unanswered(s, s.queue[i]);
    }
    forall i | 0 <= i < |s.served| && s.served[i].job == job ensures Answered(t, s.served[i]) {
      assert Answered(s, s.served[i]);
    }
    RepliedOthers(s, t, job);
  }

  lemma RepliedAbandon(s: State, cfg: Config, job: nat)
    requires Replied(s) && Enabled(s, Abandon(job))
    ensures Replied(Next(s, cfg, Abandon(job)))
  {
    assert forall i :: 0 <= i < |s.queue| ==> Unanswered(s, s.queue[i]);
    assert forall i :: 0 <= i < |s.served| ==> Answered(s, s.served[i]);
    RepliedOthers(s, Next(s, cfg, Abandon(job)), job);
  }

  lemma RepliedSubmit(s: State, cfg: Config, job: nat)
    requires Accounted(s, cfg) && Known(s) && Replied(s) && Enabled(s, Submit(job))
    ensures Replied(Next(s, cfg, Submit(job)))
  {
    PlacesApart(s, cfg);
    assert job !in s.accepted;
    var t := Next(s, cfg, Submit(job));
    forall i | 0 <= i < |t.served| ensures Answered(t, t.served[i]) {
      assert Answered(s, s.served[i]);
    }
    forall i | 0 <= i < |t.queue| ensures Unanswered(t, t.queue[i]) {
      if i < |s.queue| { assert Unanswered(s, s.queue[i]); }
    }
  }

  lemma RepliedStep(s: State, cfg: Config, l: Label)
    requires Accounted(s, cfg) && Known(s) && Replied(s)
    ensures Replied(Next(s, cfg, l))
  {
    if Enabled(s, l) {
      match l
      case Check(_) =>
        PlacesApart(s, cfg);
        RepliedOthers(s, Next(s, cfg, l), s.nextJob);
      case Submit(job) => RepliedSubmit(s, cfg, job);
      case Receive(job) => RepliedReceive(s, cfg, job);
      case Abandon(job) => RepliedAbandon(s, cfg, job);
      case Work(c) => RepliedWork(s, cfg, c);
      case _ => RepliedOthers(s, Next(s, cfg, l), s.nextJob);
    }
  }

  // ---- Time: a job starts only after the gap that follows the one before ---------------------------

  /** When the gap after the last job served is over. */
  function RestedAt(served: seq<Served>, gap: nat): nat {
    if served == [] then 0 else served[|served| - 1].ended + gap
  }

  predicate Spaced(served: seq<Served>, gap: nat, clock: nat) {
    && (forall i :: 0 <= i < |served| ==> served[i].begun <= served[i].ended <= clock)
    && (forall i :: 0 <= i < |served| - 1 ==> served[i].ended + gap <= served[i + 1].begun)
  }

  predicate Paced(s: State, cfg: Config) {
    && Spaced(s.served, cfg.gap, s.clock)
    && (s.phase.Selecting? ==> RestedAt(s.served, cfg.gap) <= s.clock)
    && (s.phase.Serving? ==> RestedAt(s.served, cfg.gap) <= s.begun <= s.clock)
    && (s.phase.Resting? ==> RestedAt(s.served, cfg.gap) <= s.phase.due)
  }

  lemma SpacedAppend(served: seq<Served>, gap: nat, clock: nat, x: Served)
    requires Spaced(served, gap, clock) && RestedAt(served, gap) <= x.begun <= x.ended <= clock
    ensures Spaced(served + [x], gap, clock)
  {
    var all := served + [x];
    forall i | 0 <= i < |all| - 1 ensures all[i].ended + gap <= all[i + 1].begun {
      if i + 1 < |served| {
        assert served[i].ended + gap <= served[i + 1].begun;
      }
    }
  }

  lemma PacedWork(s: State, cfg: Config, c: Choice)
    requires Paced(s, cfg) && Ready(s, c)
    ensures Paced(Step(s, cfg, c), cfg)
  {
    if Reports(s) {
      SpacedAppend(s.served, cfg.gap, s.clock, Served(s.phase.job, s.phase.at.visit, s.begun, s.clock));
    }
  }

  lemma PacedStep(s: State, cfg: Config, l: Label)
    requires Paced(s, cfg)
    ensures Paced(Next(s, cfg, l), cfg)
  {
    if Enabled(s, l) && l.Work? {
      PacedWork(s, cfg, l.c);
    }
  }

  // ---- Cancelled and refused jobs --------------------------------------------------------------------

  /** The caller went away before the worker looked at the job, or the worker found it so. */
  predicate Doomed(s: State, job: nat) {
    && job in s.gone
    && (s.phase.Serving? && s.phase.job == job ==> s.phase.at == Begun || s.phase.at == Reporting(CancelledInQueue))
    && forall i :: 0 <= i < |s.served| && s.served[i].job == job ==> s.served[i].visit == CancelledInQueue
  }

  lemma DoomedStep(s: State, cfg: Config, l: Label, job: nat)
    requires Doomed(s, job)
    ensures Doomed(Next(s, cfg, l), job)
  {
  }

  predicate Refused(s: State, job: nat) {
    && job in s.callers
    && (s.callers[job] == Returned(RefusedNotConnected) || s.callers[job] == Returned(RefusedQueueFull))
  }

  lemma RefusedStep(s: State, cfg: Config, l: Label, job: nat)
    requires Known(s) && Refused(s, job)
    ensures Refused(Next(s, cfg, l), job)
  {
  }

  // ---- Every run -------------------------------------------------------------------------------------

  predicate Inv(s: State, cfg: Config) {
    Accounted(s, cfg) && Known(s) && Traced(s) && Replied(s) && Paced(s, cfg)
  }

  lemma InvStep(s: State, cfg: Config, l: Label)
    requires Inv(s, cfg)
    ensures Inv(Next(s, cfg, l), cfg)
  {
    AccountedStep(s, cfg, l);
    KnownStep(s, cfg, l);
    TracedStep(s, cfg, l);
    RepliedStep(s, cfg, l);
    PacedStep(s, cfg, l);
  }

  lemma {:induction false} InvAfter(s: State, cfg: Config, ls: seq<Label>)
    requires Inv(s, cfg)
    ensures Inv(After(s, cfg, ls), cfg)
  {
    if ls != [] {
      InvAfter(s, cfg, ls[..|ls| - 1]);
      InvStep(After(s, cfg, ls[..|ls| - 1]), cfg, ls[|ls| - 1]);
    }
  }

  /** All of it holds in every state any interleaving reaches. */
  lemma Invariants(cfg: Config, ls: seq<Label>)
    ensures Inv(Run(cfg, ls), cfg)
  {
    assert Inv(INIT, cfg);
    InvAfter(INIT, cfg, ls);
  }
}
