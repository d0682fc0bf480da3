/**
 * The per-session send queue: callers submit without blocking and wait for an outcome or give up;
 * one worker serves the queue in order, pacing itself; shutdown races with all of it. One step is
 * one critical section, channel operation, client call or timer.
 */
module SendPipeline {
  import opened SendJob

  /** Queue depth and the pause after each job, both after defaults (depth > 0). */
  datatype Config = Config(depth: nat, gap: nat)

  datatype Result = RefusedNotConnected | RefusedQueueFull | GaveUp | Got(outcome: Outcome)

  datatype Caller = Checked | Waiting | Returned(result: Result)

  /** How far the worker is with the job in hand; the data are its local variables. */
  datatype Stage =
    | Begun                                                // about to look at the caller's context
    | Looking                                              // about to read status and client
    | Opening                                              // about to take the unread targets
    | Reading(targets: seq<string>, sent: nat)             // receipts sent so far
    | Choosing(targets: seq<string>)                       // about to draw the typing delay
    | Showing(targets: seq<string>, dur: nat, k: nat)      // about to show or refresh the indicator
    | Typing(targets: seq<string>, dur: nat, k: nat, due: nat)
    | Clearing(targets: seq<string>, dur: nat, k: nat, ok: bool)
    | Judging(targets: seq<string>, dur: nat, k: nat)      // interrupted; why?
    | Sending(targets: seq<string>, dur: nat)
    | Reporting(visit: Visit)

  datatype Phase =
    | Selecting
    | Serving(job: nat, at: Stage)
    | Reported                                             // about to start the gap timer
    | Resting(due: nat)
    | Exited

  datatype Entry = Entry(job: nat, action: Action)

  /** A job served: when the worker took it and when it reported. */
  datatype Served = Served(job: nat, visit: Visit, begun: nat, ended: nat)

  datatype State = State(
    clock: nat,
    nextJob: nat,
    callers: map<nat, Caller>,
    queue: seq<nat>,
    phase: Phase,
    begun: nat,                     // when the job in hand was taken
    gone: set<nat>,                 // jobs whose caller's context is done
    stopping: bool,                 // the done channel is closed
    stopped: bool,                  // stop has returned
    replies: map<nat, seq<Outcome>>, // each accepted job's reply channel, capacity 1
    trace: seq<Entry>,
    accepted: seq<nat>,
    served: seq<Served>)

  datatype Label =
    | Check(connected: bool)        // a new caller reads the status
    | Submit(job: nat)
    | Receive(job: nat)
    | Abandon(job: nat)
    | Cancel(job: nat)
    | Stop
    | StopReturns
    | Tick(d: nat)
    | Work(c: Choice)

  /** What the worker's step finds: which ready channel is picked, what a call returns. */
  datatype Choice =
    | Go                             // the only way on
    | Take                           // receive a job
    | Quit                           // see the done channel closed
    | Hang                           // see the caller's context done
    | Ring                           // see the timer fire
    | Connected(yes: bool)
    | Targets(targets: seq<string>)
    | Delay(dur: nat)
    | Answer(reply: Reply)

  const INIT: State := State(0, 0, map[], [], Selecting, 0, {}, false, false, map[], [], [], [])

  /** The worker's k-th sleep: what is left, up to a whole slice. */
  function SliceLength(dur: nat, k: nat): nat {
    if dur <= k * SLICE then 0 else if dur - k * SLICE < SLICE then dur - k * SLICE else SLICE
  }

  /** Whether the worker can go on from a stage by `c`, given what it would see. */
  predicate Open(at: Stage, c: Choice, gone: bool, stopping: bool, clock: nat) {
    match at
    case Looking => c.Connected?
    case Opening => c.Targets?
    case Choosing(_) => c.Delay?
    case Typing(_, _, _, due) => (c.Ring? && due <= clock) || (c.Hang? && gone) || (c.Quit? && stopping)
    case Sending(_, _) => c.Answer?
    case _ => c.Go?
  }

  /** The stage that follows, before the outcome is reported. */
  function Advance(at: Stage, c: Choice, gone: bool, clock: nat): Stage
    requires Open(at, c, gone, true, clock)
  {
    match at
    case Begun => if gone then Reporting(CancelledInQueue) else Looking
    case Looking => if c.yes then Opening else Reporting(Offline)
    case Opening => Reading(c.targets, 0)
    case Reading(targets, sent) => if sent < |targets| then Reading(targets, sent + 1) else Choosing(targets)
    case Choosing(targets) => if c.dur == 0 then Sending(targets, 0) else Showing(targets, c.dur, 0)
    case Showing(targets, dur, k) => Typing(targets, dur, k, clock + SliceLength(dur, k))
    case Typing(targets, dur, k, _) =>
      if !c.Ring? then Clearing(targets, dur, k, false)
      else if (k + 1) * SLICE < dur then Showing(targets, dur, k + 1)
      else Clearing(targets, dur, k + 1, true)
    case Clearing(targets, dur, k, ok) => if ok then Sending(targets, dur) else Judging(targets, dur, k)
    case Judging(targets, dur, k) => Reporting(Interrupted(targets, dur, k, gone))
    case Sending(targets, dur) => Reporting(Visit.Delivered(targets, dur, c.reply))
    case Reporting(_) => at
  }

  /** What the client sees of that step. */
  function Emitted(at: Stage, c: Choice): seq<Action>
    requires at.Sending? ==> c.Answer?
  {
    match at
    case Reading(targets, sent) => if sent < |targets| then [Receipt(targets[sent])] else []
    case Showing(_, _, _) => [Composing]
    case Typing(_, dur, k, _) => if c.Ring? then [Slept(SliceLength(dur, k))] else []
    case Clearing(_, _, _, _) => [Paused]
    case Sending(_, _) => [Deliver(c.reply)]
    case _ => []
  }

  predicate Ready(s: State, c: Choice) {
    match s.phase
    case Selecting => (c.Take? && s.queue != []) || (c.Quit? && s.stopping)
    case Serving(job, at) =>
      && Open(at, c, job in s.gone, s.stopping, s.clock)
      && (at.Reporting? ==> job in s.replies && |s.replies[job]| < 1)
    case Reported => c.Go?
    case Resting(due) => (c.Ring? && due <= s.clock) || (c.Quit? && s.stopping)
    case Exited => false
  }

  function Entries(job: nat, actions: seq<Action>): (r: seq<Entry>)
    ensures |r| == |actions| && forall i :: 0 <= i < |r| ==> r[i] == Entry(job, actions[i])
  {
    seq(|actions|, i requires 0 <= i < |actions| => Entry(job, actions[i]))
  }

  function Step(s: State, cfg: Config, c: Choice): State
    requires Ready(s, c)
  {
    match s.phase
    case Selecting =>
      if c.Quit? then s.(phase := Exited)
      else s.(queue := s.queue[1..], phase := Serving(s.queue[0], Begun), begun := s.clock)
    case Serving(job, at) =>
      if at.Reporting? then
        s.(replies := s.replies[job := s.replies[job] + [OutcomeOf(at.visit)]],
           served := s.served + [Served(job, at.visit, s.begun, s.clock)],
           phase := Reported)
      else
        s.(trace := s.trace + Entries(job, Emitted(at, c)),
           phase := Serving(job, Advance(at, c, job in s.gone, s.clock)))
    case Reported => s.(phase := if cfg.gap > 0 then Resting(s.clock + cfg.gap) else Selecting)
    case Resting(_) => s.(phase := if c.Quit? then Exited else Selecting)
    case Exited => s
  }

  predicate Enabled(s: State, l: Label) {
    match l
    case Check(_) => true
    case Submit(job) => job in s.callers && s.callers[job] == Checked
    case Receive(job) =>
      job in s.callers && s.callers[job] == Waiting && job in s.replies && s.replies[job] != []
    case Abandon(job) => job in s.callers && s.callers[job] == Waiting && job in s.gone
    case Cancel(_) => true
    case Stop => true
    case StopReturns => s.stopping && s.phase == Exited
    case Tick(_) => true
    case Work(c) => Ready(s, c)
  }

  /** A label that is not enabled changes nothing. Jobs are numbered as their callers arrive. */
  function Next(s: State, cfg: Config, l: Label): State {
    if !Enabled(s, l) then s else
    match l
    case Check(connected) =>
      s.(callers := s.callers[s.nextJob := if connected then Checked else Returned(RefusedNotConnected)],
         nextJob := s.nextJob + 1)
    case Submit(job) =>
      if |s.queue| < cfg.depth
      then s.(queue := s.queue + [job], accepted := s.accepted + [job],
              replies := s.replies[job := []], callers := s.callers[job := Waiting])
      else s.(callers := s.callers[job := Returned(RefusedQueueFull)])
    case Receive(job) =>
      s.(callers := s.callers[job := Returned(Got(s.replies[job][0]))],
         replies := s.replies[job := s.replies[job][1..]])
    case Abandon(job) => s.(callers := s.callers[job := Returned(GaveUp)])
    case Cancel(job) => s.(gone := s.gone + {job})
    case Stop => s.(stopping := true)
    case StopReturns => s.(stopped := true)
    case Tick(d) => s.(clock := s.clock + d)
    case Work(c) => Step(s, cfg, c)
  }

  function After(s: State, cfg: Config, ls: seq<Label>): State {
    if ls == [] then s else Next(After(s, cfg, ls[..|ls| - 1]), cfg, ls[|ls| - 1])
  }

  function Run(cfg: Config, ls: seq<Label>): State { After(INIT, cfg, ls) }
}
