/**
 * The polling client that tails a session: it fetches the newest messages, prints the ones it has
 * not seen, and remembers only the identifiers of the last fetch.
 */
module Watch {
  import opened Messages
  import opened Prelude
  import RingBuffer
  import opened RingHistory

  datatype Answer = Failed | Fetched(msgs: seq<Message>)

  datatype Watcher = Watcher(seen: set<string>, shown: seq<Message>)

  /** How many messages each poll asks for. */
  const LIMIT: nat := 100

  function IdSet(msgs: seq<Message>): set<string> {
    set i | 0 <= i < |msgs| :: msgs[i].id
  }

  /** The messages of a newest-first answer that are not in `seen`, oldest first. */
  function Unseen(msgs: seq<Message>, seen: set<string>): seq<Message> {
    if msgs == [] then []
    else Unseen(msgs[1..], seen) + if msgs[0].id in seen then [] else [msgs[0]]
  }

  function Polled(w: Watcher, a: Answer): Watcher {
    match a
    case Failed => w
    case Fetched(msgs) => Watcher(IdSet(msgs), w.shown + Unseen(msgs, w.seen))
  }

  function AfterPolls(w: Watcher, answers: seq<Answer>): Watcher {
    if answers == [] then w
    else Polled(AfterPolls(w, answers[..|answers| - 1]), answers[|answers| - 1])
  }

  method SeenIDs(msgs: seq<Message>) returns (seen: set<string>)
    ensures seen == IdSet(msgs)
  {
    seen := {};
    for i := 0 to |msgs|
      invariant seen == IdSet(msgs[..i])
    {
      seen := seen + {msgs[i].id};
    }
    assert msgs[..|msgs|] == msgs;
  }

  /** The ticker loop: `first` seeds the watcher, `answers` are the polls in order. */
  method RunWatch(first: seq<Message>, answers: seq<Answer>) returns (shown: seq<Message>)
    ensures shown == AfterPolls(Watcher(IdSet(first), []), answers).shown
  {
    ghost var w := Watcher(IdSet(first), []);
    var seen := SeenIDs(first);
    shown := [];
    for k := 0 to |answers|
      invariant Watcher(seen, shown) == AfterPolls(w, answers[..k])
    {
      assert answers[..k + 1][..k] == answers[..k];
      match answers[k] {
        case Failed =>
        case Fetched(msgs) =>
          var current := SeenIDs(msgs);
          ghost var before := shown;
          var i := |msgs|;
          while i > 0
            invariant 0 <= i <= |msgs|
            invariant shown == before + Unseen(msgs[i..], seen)
          {
            i := i - 1;
            assert msgs[i..][1..] == msgs[i + 1..];
            if msgs[i].id !in seen {
              shown := shown + [msgs[i]];
            }
          }
          assert msgs[0..] == msgs;
          seen := current;
      }
    }
    assert answers[..|answers|] == answers;
  }

  // ---- Watching a live buffer ----------------------------------------------------------------

  /** Events reach the buffer and polls read it, in any order; a poll may fail. */
  datatype Step = Inbound(e: Event) | Poll(ok: bool)

  function Events(steps: seq<Step>): seq<Event> {
    if steps == [] then [] else
      Events(steps[..|steps| - 1]) +
      match steps[|steps| - 1]
      case Inbound(e) => [e]
      case Poll(_) => []
  }

  /** The buffer's capacity, its filter, and what had arrived before the watcher started. */
  datatype Source = Source(cap: nat, includeFromMe: bool, before: seq<Event>) {
    function Arrived(steps: seq<Step>): seq<Message> {
      History(includeFromMe, before + Events(steps))
    }

    function Answer(steps: seq<Step>): seq<Message>
      requires 0 < cap
    {
      Newest(RingBuffer.Run(cap, includeFromMe, before + Events(steps)).items, LIMIT)
    }

    /** How many messages one poll can show. */
    function Window(): (n: nat)
      ensures n <= cap && n <= 100 && (n == cap || n == 100)
    {
      if cap < LIMIT then cap else LIMIT
    }
  }

  function Watching(src: Source, steps: seq<Step>): Watcher
    requires 0 < src.cap
  {
    if steps == [] then Watcher(IdSet(src.Answer([])), []) else
      var prefix := steps[..|steps| - 1];
      match steps[|steps| - 1]
      case Inbound(_) => Watching(src, prefix)
      case Poll(ok) => Polled(Watching(src, prefix), if ok then Fetched(src.Answer(prefix)) else Failed)
  }

  /** What the polls of a run answer, in order. */
  function Answers(src: Source, steps: seq<Step>): seq<Answer>
    requires 0 < src.cap
  {
    if steps == [] then [] else
      var prefix := steps[..|steps| - 1];
      Answers(src, prefix) +
      match steps[|steps| - 1]
      case Inbound(_) => []
      case Poll(ok) => [if ok then Fetched(src.Answer(prefix)) else Failed]
  }

  /** The run is the ticker loop (`RunWatch`) over the answers the live buffer gives. */
  lemma {:induction false} WatchingIsPolling(src: Source, steps: seq<Step>)
    requires 0 < src.cap
    ensures Watching(src, steps) == AfterPolls(Watcher(IdSet(src.Answer([])), []), Answers(src, steps))
  {
    if steps != [] {
      var prefix := steps[..|steps| - 1];
      WatchingIsPolling(src, prefix);
      var answers := Answers(src, steps);
      if steps[|steps| - 1].Poll? {
        assert answers[..|answers| - 1] == Answers(src, prefix);
      } else {
        assert answers == Answers(src, prefix);
      }
    }
  }

  /** How many messages had arrived at the last successful poll, seeding included. */
  function Base(src: Source, steps: seq<Step>): nat {
    if steps == [] then |src.Arrived([])|
    else if steps[|steps| - 1] == Poll(true) then |src.Arrived(steps[..|steps| - 1])|
    else Base(src, steps[..|steps| - 1])
  }

  /** Arrival number `arrival`, printed as it stood after the first `at` steps. */
  datatype Print = Print(arrival: nat, at: nat)

  /** The oldest message a poll after `steps` prints. */
  function From(src: Source, steps: seq<Step>): nat {
    var c, b := |src.Arrived(steps)|, Base(src, steps);
    if c <= b + src.Window() then b else c - src.Window()
  }

  function Prints(from: nat, to: nat, at: nat): (r: seq<Print>)
    ensures |r| == if from <= to then to - from else 0
    ensures forall i :: 0 <= i < |r| ==> r[i] == Print(from + i, at)
  {
    if to <= from then [] else seq(to - from, i requires 0 <= i < to - from => Print(from + i, at))
  }

  /** What ought to be printed: at each successful poll, what arrived since the one before. */
  function Expected(src: Source, steps: seq<Step>): seq<Print> {
    if steps == [] then [] else
      var prefix := steps[..|steps| - 1];
      if steps[|steps| - 1] == Poll(true)
      then Expected(src, prefix) + Prints(From(src, prefix), |src.Arrived(prefix)|, |prefix|)
      else Expected(src, prefix)
  }

  // ---- Proofs --------------------------------------------------------------------------------

  lemma {:induction false} ArrivedGrows(src: Source, steps: seq<Step>, k: nat)
    requires k <= |steps|
    ensures Ids(src.Arrived(steps[..k])) <= Ids(src.Arrived(steps))
    ensures |src.Arrived(steps[..k])| <= |src.Arrived(steps)|
  {
    EventsGrow(steps, k);
    var all, some := src.before + Events(steps), src.before + Events(steps[..k]);
    HistoryGrows(src.includeFromMe, all, |some|);
    assert all[..|some|] == some;
    assert |Ids(src.Arrived(steps[..k]))| <= |Ids(src.Arrived(steps))|;
  }

  lemma {:induction false} EventsGrow(steps: seq<Step>, k: nat)
    requires k <= |steps|
    ensures Events(steps[..k]) <= Events(steps)
  {
    if k < |steps| {
      assert steps[..|steps| - 1][..k] == steps[..k];
      EventsGrow(steps[..|steps| - 1], k);
    } else {
      assert steps[..k] == steps;
    }
  }

  lemma DistinctArrivals(src: Source, steps: seq<Step>, k: nat)
    requires k <= |steps| && Distinct(Ids(src.Arrived(steps)))
    ensures Distinct(Ids(src.Arrived(steps[..k])))
  {
    ArrivedGrows(src, steps, k);
    DistinctPrefix(Ids(src.Arrived(steps[..k])), Ids(src.Arrived(steps)));
  }

  /** `out` is the last `k` of `h`, or all of it, newest first. */
  predicate IsTail(out: seq<Message>, h: seq<Message>, k: nat) {
    && |out| == (if |h| < k then |h| else k)
    && forall r :: 0 <= r < |out| ==> out[r] == h[|h| - 1 - r]
  }

  lemma NewestIsTail(h: seq<Message>, cap: nat, limit: nat)
    requires 0 < cap && 0 < limit
    ensures IsTail(Newest(LastN(h, cap), limit), h, if cap < limit then cap else limit)
  {
    NewestOfLast(h, cap, limit);
  }

  /** A poll returns the end of the history, newest first. */
  lemma AnswerIsTail(src: Source, steps: seq<Step>)
    requires 0 < src.cap && Distinct(Ids(src.Arrived(steps)))
    ensures IsTail(src.Answer(steps), src.Arrived(steps), src.Window())
  {
    var es := src.before + Events(steps);
    DistinctIsUnambiguous(src.cap, src.includeFromMe, es);
    BufferIsHistory(src.cap, src.includeFromMe, es);
    NewestIsTail(History(src.includeFromMe, es), src.cap, LIMIT);
  }

  /** Of a newest-first answer, what was not seen is what comes after the first `known` messages. */
  lemma {:induction false} UnseenTail(msgs: seq<Message>, seen: set<string>, known: nat)
    requires known <= |msgs|
    requires forall r :: 0 <= r < |msgs| ==> (msgs[r].id in seen <==> |msgs| - known <= r)
    ensures |Unseen(msgs, seen)| == |msgs| - known
    ensures forall i :: 0 <= i < |msgs| - known ==> Unseen(msgs, seen)[i] == msgs[|msgs| - known - 1 - i]
  {
    if msgs != [] {
      UnseenTail(msgs[1..], seen, if known == |msgs| then known - 1 else known);
    }
  }

  /** The watcher remembers exactly the last `window` arrivals before its last successful poll. */
  predicate Remembers(seen: set<string>, ids: seq<string>, base: nat, window: nat) {
    base <= |ids| &&
    seen == set i | 0 <= i < |ids| && base - window <= i < base :: ids[i]
  }

  lemma RemembersIds(seen: set<string>, ids: seq<string>, base: nat, window: nat, i: nat)
    requires Remembers(seen, ids, base, window) && Distinct(ids) && i < |ids|
    ensures ids[i] in seen <==> base - window <= i < base
  {
  }

  lemma RemembersMore(seen: set<string>, ids: seq<string>, more: seq<string>, base: nat, window: nat)
    requires Remembers(seen, ids, base, window) && ids <= more
    ensures Remembers(seen, more, base, window)
  {
    assert forall i :: 0 <= i < |ids| ==> ids[i] == more[i];
  }

  lemma TailIds(msgs: seq<Message>, h: seq<Message>, k: nat)
    requires IsTail(msgs, h, k)
    ensures IdSet(msgs) == set i | 0 <= i < |h| && |h| - k <= i < |h| :: Ids(h)[i]
  {
    forall i | 0 <= i < |h| && |h| - k <= i < |h| ensures Ids(h)[i] in IdSet(msgs) {
      assert msgs[|h| - 1 - i].id == Ids(h)[i];
    }
    forall id | id in IdSet(msgs) ensures exists i :: 0 <= i < |h| && |h| - k <= i < |h| && Ids(h)[i] == id {
      var r :| 0 <= r < |msgs| && msgs[r].id == id;
      assert Ids(h)[|h| - 1 - r] == id;
    }
  }

  lemma PollRemembers(src: Source, steps: seq<Step>)
    requires 0 < src.cap && Distinct(Ids(src.Arrived(steps)))
    ensures Remembers(IdSet(src.Answer(steps)), Ids(src.Arrived(steps)), |src.Arrived(steps)|, src.Window())
  {
    AnswerIsTail(src, steps);
    TailIds(src.Answer(steps), src.Arrived(steps), src.Window());
  }

  lemma PollPrints(src: Source, steps: seq<Step>, seen: set<string>)
    requires 0 < src.cap && Distinct(Ids(src.Arrived(steps)))
    requires Remembers(seen, Ids(src.Arrived(steps)), Base(src, steps), src.Window())
    ensures
      var more := Unseen(src.Answer(steps), seen);
      && |more| == |src.Arrived(steps)| - From(src, steps)
      && forall i :: 0 <= i < |more| ==> more[i] == src.Arrived(steps)[From(src, steps) + i]
  {
    var h, msgs, from := src.Arrived(steps), src.Answer(steps), From(src, steps);
    AnswerIsTail(src, steps);
    var known := |msgs| - (|h| - from);
    forall r | 0 <= r < |msgs|
      ensures msgs[r].id in seen <==> |msgs| - known <= r
    {
      assert msgs[r].id == Ids(h)[|h| - 1 - r];
      RemembersIds(seen, Ids(h), Base(src, steps), src.Window(), |h| - 1 - r);
    }
    UnseenTail(msgs, seen, known);
  }

  lemma {:induction false} BaseBounds(src: Source, steps: seq<Step>)
    ensures Base(src, []) <= Base(src, steps) <= |src.Arrived(steps)|
  {
    if steps != [] {
      var n := |steps| - 1;
      BaseBounds(src, steps[..n]);
      ArrivedGrows(src, steps, n);
    }
  }

  /** `m` is arrival `p.arrival` with the content it had after the first `p.at` steps. */
  predicate IsPrint(src: Source, steps: seq<Step>, m: Message, p: Print) {
    && p.at < |steps|
    && p.arrival < |src.Arrived(steps[..p.at])|
    && m == src.Arrived(steps[..p.at])[p.arrival]
  }

  predicate ArePrints(src: Source, steps: seq<Step>, shown: seq<Message>, x: seq<Print>) {
    |shown| == |x| && forall i :: 0 <= i < |x| ==> IsPrint(src, steps, shown[i], x[i])
  }

  lemma PrintsExtend(src: Source, steps: seq<Step>, shown: seq<Message>, x: seq<Print>)
    requires steps != [] && ArePrints(src, steps[..|steps| - 1], shown, x)
    ensures ArePrints(src, steps, shown, x)
  {
    forall i | 0 <= i < |x| ensures IsPrint(src, steps, shown[i], x[i]) {
      assert IsPrint(src, steps[..|steps| - 1], shown[i], x[i]);
      assert steps[..|steps| - 1][..x[i].at] == steps[..x[i].at];
    }
  }

  /** What holds of the watcher after every run: what it remembers, and what it has printed. */
  predicate Faithful(src: Source, steps: seq<Step>)
    requires 0 < src.cap
  {
    && Remembers(Watching(src, steps).seen, Ids(src.Arrived(steps)), Base(src, steps), src.Window())
    && ArePrints(src, steps, Watching(src, steps).shown, Expected(src, steps))
  }

  lemma PollFaithful(src: Source, steps: seq<Step>)
    requires 0 < src.cap && Distinct(Ids(src.Arrived(steps)))
    requires steps != [] && steps[|steps| - 1] == Poll(true) && Faithful(src, steps[..|steps| - 1])
    ensures Faithful(src, steps)
  {
    var prefix := steps[..|steps| - 1];
    DistinctArrivals(src, steps, |prefix|);
    ArrivedGrows(src, steps, |prefix|);
    var w := Watching(src, prefix);
    PrintsExtend(src, steps, w.shown, Expected(src, prefix));
    PollRemembers(src, prefix);
    PollPrints(src, prefix, w.seen);
    RemembersMore(Watching(src, steps).seen, Ids(src.Arrived(prefix)), Ids(src.Arrived(steps)),
                  |src.Arrived(prefix)|, src.Window());
  }

  lemma OtherFaithful(src: Source, steps: seq<Step>)
    requires 0 < src.cap
    requires steps != [] && steps[|steps| - 1] != Poll(true) && Faithful(src, steps[..|steps| - 1])
    ensures Faithful(src, steps)
  {
    var prefix := steps[..|steps| - 1];
    ArrivedGrows(src, steps, |prefix|);
    var w := Watching(src, prefix);
    PrintsExtend(src, steps, w.shown, Expected(src, prefix));
    RemembersMore(w.seen, Ids(src.Arrived(prefix)), Ids(src.Arrived(steps)), Base(src, prefix), src.Window());
  }

  /**
   * With distinct identifiers, the client prints the expected messages and nothing else, in that
   * order, each with the content it had when it was polled.
   */
  lemma {:induction false} WatchPrintsExpected(src: Source, steps: seq<Step>)
    requires 0 < src.cap && Distinct(Ids(src.Arrived(steps)))
    ensures Remembers(Watching(src, steps).seen, Ids(src.Arrived(steps)), Base(src, steps), src.Window())
    ensures ArePrints(src, steps, Watching(src, steps).shown, Expected(src, steps))
  {
    if steps == [] {
      PollRemembers(src, []);
    } else {
      DistinctArrivals(src, steps, |steps| - 1);
      WatchPrintsExpected(src, steps[..|steps| - 1]);
      if steps[|steps| - 1] == Poll(true) {
        PollFaithful(src, steps);
      } else {
        OtherFaithful(src, steps);
      }
    }
  }

  /** Strictly increasing arrivals, all in [lo, hi). */
  predicate InOrder(x: seq<Print>, lo: nat, hi: nat) {
    && (forall i :: 0 <= i < |x| ==> lo <= x[i].arrival < hi)
    && (forall i, j :: 0 <= i < j < |x| ==> x[i].arrival < x[j].arrival)
  }

  lemma InOrderAppend(x: seq<Print>, y: seq<Print>, lo: nat, mid: nat, hi: nat)
    requires lo <= mid <= hi && InOrder(x, lo, mid) && InOrder(y, mid, hi)
    ensures InOrder(x + y, lo, hi)
  {
    var all := x + y;
    assert forall i :: 0 <= i < |all| ==> all[i] == if i < |x| then x[i] else y[i - |x|];
  }

  /** Printed arrivals are strictly increasing: in arrival order, and never twice. */
  lemma {:induction false} ExpectedIncreasing(src: Source, steps: seq<Step>)
    ensures InOrder(Expected(src, steps), Base(src, []), Base(src, steps))
  {
    BaseBounds(src, steps);
    if steps != [] {
      var prefix := steps[..|steps| - 1];
      ExpectedIncreasing(src, prefix);
      BaseBounds(src, prefix);
      InOrderAppend(Expected(src, prefix), Prints(From(src, prefix), |src.Arrived(prefix)|, |prefix|),
                    Base(src, []), Base(src, prefix), |src.Arrived(prefix)|);
    }
  }

  /** The successful poll at step `p` is the first after arrival `j`, which is still in its window. */
  predicate Caught(src: Source, steps: seq<Step>, j: nat, p: nat) {
    && p < |steps| && steps[p] == Poll(true)
    && Base(src, steps[..p]) <= j < |src.Arrived(steps[..p])|
    && |src.Arrived(steps[..p])| - j <= src.Window()
  }

  lemma CaughtEarlier(src: Source, steps: seq<Step>, j: nat, p: nat)
    requires p < |steps| - 1
    ensures Caught(src, steps, j, p) <==> Caught(src, steps[..|steps| - 1], j, p)
  {
    var prefix := steps[..|steps| - 1];
    assert prefix[..p] == steps[..p] && prefix[p] == steps[p];
  }

  lemma CaughtNow(src: Source, steps: seq<Step>, j: nat)
    requires steps != [] && steps[|steps| - 1] == Poll(true)
    ensures var n := |steps| - 1; var prefix := steps[..n];
      Caught(src, steps, j, n) <==> Print(j, n) in Prints(From(src, prefix), |src.Arrived(prefix)|, n)
  {
    var n := |steps| - 1;
    var prefix := steps[..n];
    var more := Prints(From(src, prefix), |src.Arrived(prefix)|, n);
    BaseBounds(src, prefix);
    if Caught(src, steps, j, n) {
      assert more[j - From(src, prefix)] == Print(j, n);
    }
  }

  /**
   * An arrival is printed exactly when the first successful poll after it finds at most
   * `Window` messages from it on; otherwise it is lost for good.
   */
  lemma {:induction false} PrintedIffCaught(src: Source, steps: seq<Step>, j: nat, p: nat)
    ensures Print(j, p) in Expected(src, steps) <==> Caught(src, steps, j, p)
  {
    if steps != [] {
      var n := |steps| - 1;
      PrintedIffCaught(src, steps[..n], j, p);
      if p < n {
        CaughtEarlier(src, steps, j, p);
      }
      if steps[n] == Poll(true) && p == n {
        CaughtNow(src, steps, j);
      }
    }
  }

  /** At most a window's worth of messages arrives between successful polls. */
  predicate KeepsUp(src: Source, steps: seq<Step>) {
    forall p :: 0 <= p < |steps| && steps[p] == Poll(true) ==>
      |src.Arrived(steps[..p])| - Base(src, steps[..p]) <= src.Window()
  }

  /** A client that keeps up prints every message from seeding to its last poll, exactly once. */
  lemma {:induction false} KeepingUpPrintsAll(src: Source, steps: seq<Step>)
    requires KeepsUp(src, steps)
    ensures var x := Expected(src, steps);
      && |x| == Base(src, steps) - Base(src, [])
      && forall i :: 0 <= i < |x| ==> x[i].arrival == Base(src, []) + i
  {
    BaseBounds(src, steps);
    if steps != [] {
      var n := |steps| - 1;
      var prefix := steps[..n];
      forall p | 0 <= p < n && prefix[p] == Poll(true)
        ensures |src.Arrived(prefix[..p])| - Base(src, prefix[..p]) <= src.Window()
      {
        assert prefix[..p] == steps[..p] && steps[p] == Poll(true);
      }
      KeepingUpPrintsAll(src, prefix);
      BaseBounds(src, prefix);
    }
  }
}
