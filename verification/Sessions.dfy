/**
 * The session map in memory against the table of sessions in the database: any number of operations
 * at once, one critical section at a time, and a restart at any point.
 */
module Sessions {
  import opened Prelude
  import opened Pairing
  import opened OneSession
  import Conflicts

  /** A session loaded on boot. `usable` are the devices that are logged in and can be loaded. */
  function Loaded(row: Row, usable: set<string>): Session {
    NewSession(row.jid, row.webhook, row.created * NANOS).(
      status := if row.jid == "" then Created else if row.jid in usable then Disconnected else LoggedOut)
  }

  function Rebuilt(rows: map<Id, Row>, usable: set<string>): map<Id, Session> {
    map id | id in rows :: Loaded(rows[id], usable)
  }

  // ---- One critical section at a time ------------------------------------------------------------

  datatype Snapshot = Snapshot(rows: map<Id, Row>, sessions: map<Id, Session>, tasks: map<nat, Task>)

  function WithTask(s: Snapshot, k: nat, t: Task): Snapshot { s.(tasks := s.tasks[k := t]) }

  function WithoutTask(s: Snapshot, k: nat): Snapshot { s.(tasks := s.tasks - {k}) }

  /** The session leaves the map: updates that looked it up keep an object no one else sees. */
  function WithoutSession(s: Snapshot, id: Id, k: nat): Snapshot {
    s.(sessions := s.sessions - {id},
       tasks := map j | j in s.tasks && j != k :: if s.tasks[j].id == id then Detached(s.tasks[j]) else s.tasks[j])
  }

  function Continued(s: Snapshot, k: nat): Snapshot
    requires k in s.tasks
  {
    match s.tasks[k]
    case InsertSession(id, webhook, created) =>
      if id in s.sessions then WithoutTask(s, k)
      else WithoutTask(s.(sessions := s.sessions[id := NewSession("", webhook, created)]), k)
    case UpdateRow(id, webhook, live) =>
      if id !in s.rows then WithoutTask(s, k)
      else WithTask(s.(rows := s.rows[id := s.rows[id].(webhook := webhook)]), k, SetWebhook(id, webhook, live))
    case SetWebhook(id, webhook, live) =>
      if id !in s.sessions || !live then WithoutTask(s, k)
      else WithoutTask(s.(sessions := s.sessions[id := s.sessions[id].(webhook := webhook)]), k)
    case DeleteRow(id) => WithTask(s.(rows := s.rows - {id}), k, RemoveSession(id))
    case RemoveSession(id) => WithoutSession(s, id, k)
    case SaveJID(id, jid) =>
      if id !in s.rows then WithoutTask(s, k)
      else WithoutTask(s.(rows := s.rows[id := s.rows[id].(jid := jid)]), k)
  }

  /** A connection learns the device's identity, if it knows one, and then persists a change of it. */
  function Connecting(s: Snapshot, k: nat, id: Id, jid: string): Snapshot
    requires id in s.sessions
  {
    var was := s.sessions[id];
    var learned := was.(jid := if jid != "" then jid else was.jid, status := Connected);
    var t := s.(sessions := s.sessions[id := learned]);
    if learned.jid != was.jid then WithTask(t, k, SaveJID(id, jid)) else t
  }

  function Next(s: Snapshot, l: Label): Snapshot {
    match l
    case BeginCreate(k, id, webhook, now) =>
      if id in s.rows then s
      else WithTask(s.(rows := s.rows[id := Row("", webhook, Seconds(now))]), k, InsertSession(id, webhook, now))
    case BeginUpdate(k, id, webhook) => if id in s.sessions then WithTask(s, k, UpdateRow(id, webhook, true)) else s
    case BeginDelete(k, id) => if id in s.sessions then WithTask(s, k, DeleteRow(id)) else s
    case BeginConnect(k, id, jid) => if id in s.sessions then Connecting(s, k, id, jid) else s
    case SetStatus(id, status) =>
      if id in s.sessions then s.(sessions := s.sessions[id := s.sessions[id].(status := status)]) else s
    case Continue(k) => if k in s.tasks then Continued(s, k) else s
    case Restart(usable) => Snapshot(s.rows, Rebuilt(s.rows, usable), map[])
  }

  function Run(s: Snapshot, ls: seq<Label>): Snapshot {
    if ls == [] then s else Next(Run(s, ls[..|ls| - 1]), ls[|ls| - 1])
  }

  const EMPTY: Snapshot := Snapshot(map[], map[], map[])

  // ---- Id by id --------------------------------------------------------------------------------------

  function TasksAt(tasks: map<nat, Task>, id: Id): map<nat, Task> {
    map k | k in tasks && tasks[k].id == id :: tasks[k]
  }

  /** What the machine holds of one id. */
  function ViewAt(s: Snapshot, id: Id): Local {
    Local(if id in s.rows then Some(s.rows[id]) else None,
          if id in s.sessions then Some(s.sessions[id]) else None,
          TasksAt(s.tasks, id))
  }

  lemma TaskAdded(tasks: map<nat, Task>, k: nat, t: Task, id: Id)
    requires k in tasks ==> tasks[k].id == t.id
    ensures TasksAt(tasks[k := t], id) == if id == t.id then TasksAt(tasks, id)[k := t] else TasksAt(tasks, id)
  {
  }

  lemma TaskGone(tasks: map<nat, Task>, k: nat, id: Id)
    requires k in tasks
    ensures TasksAt(tasks - {k}, id) == if id == tasks[k].id then TasksAt(tasks, id) - {k} else TasksAt(tasks, id)
  {
  }

  lemma SessionGone(s: Snapshot, at: Id, k: nat, id: Id)
    requires k in s.tasks && s.tasks[k].id == at
    ensures
      var was, now := TasksAt(s.tasks, id), TasksAt(WithoutSession(s, at, k).tasks, id);
      now == if id == at then map j | j in was && j != k :: Detached(was[j]) else was
  {
  }

  lemma BeginsAt(s: Snapshot, l: Label, other: Id)
    requires Begins(l) && l.k !in s.tasks
    ensures ViewAt(Next(s, l), l.id) == Begun(ViewAt(s, l.id), l)
    ensures other != l.id ==> ViewAt(Next(s, l), other) == ViewAt(s, other)
  {
    var t := Next(s, l);
    if l.k in t.tasks {
      TaskAdded(s.tasks, l.k, t.tasks[l.k], l.id);
      TaskAdded(s.tasks, l.k, t.tasks[l.k], other);
    }
  }

  lemma ContinuesAt(s: Snapshot, k: nat, other: Id)
    requires k in s.tasks
    ensures var id := s.tasks[k].id;
      && ViewAt(Continued(s, k), id) == OneSession.Continued(ViewAt(s, id), k)
      && (other != id ==> ViewAt(Continued(s, k), other) == ViewAt(s, other))
  {
    ContinuesHere(s, k);
    if other != s.tasks[k].id {
      ContinuesElsewhere(s, k, other);
    }
  }

  lemma ContinuesHere(s: Snapshot, k: nat)
    requires k in s.tasks
    ensures var id := s.tasks[k].id; ViewAt(Continued(s, k), id) == OneSession.Continued(ViewAt(s, id), k)
  {
    var task := s.tasks[k];
    TaskGone(s.tasks, k, task.id);
    match task
    case UpdateRow(id, webhook, live) => TaskAdded(s.tasks, k, SetWebhook(id, webhook, live), id);
    case DeleteRow(id) => TaskAdded(s.tasks, k, RemoveSession(id), id);
    case RemoveSession(id) => SessionGone(s, id, k, id);
    case _ =>
  }

  lemma ContinuesElsewhere(s: Snapshot, k: nat, other: Id)
    requires k in s.tasks && s.tasks[k].id != other
    ensures ViewAt(Continued(s, k), other) == ViewAt(s, other)
  {
    var task := s.tasks[k];
    TaskGone(s.tasks, k, other);
    match task
    case UpdateRow(id, webhook, live) => TaskAdded(s.tasks, k, SetWebhook(id, webhook, live), other);
    case DeleteRow(id) => TaskAdded(s.tasks, k, RemoveSession(id), other);
    case RemoveSession(id) => SessionGone(s, id, k, other);
    case _ =>
  }

  /** The table holds for this id exactly what the map holds. */
  predicate Same(s: Snapshot, id: Id) { OneSession.Same(ViewAt(s, id)) }

  ghost predicate Agree(s: Snapshot) { forall id :: Same(s, id) }

  predicate Busy(s: Snapshot, id: Id) { ViewAt(s, id).tasks != map[] }

  ghost predicate Inv(s: Snapshot) { forall id :: Sound(ViewAt(s, id)) }

  /** An operation starts under a new number. */
  predicate Numbered(s: Snapshot, l: Label) { Begins(l) ==> l.k !in s.tasks }

  /** An operation starts only where it conflicts with none under way on its id. */
  predicate Apart(s: Snapshot, l: Label) { Begins(l) ==> Safe(ViewAt(s, l.id), l) }

  predicate AllApart(s: Snapshot, ls: seq<Label>) {
    ls != [] ==>
      var prefix, l := ls[..|ls| - 1], ls[|ls| - 1];
      AllApart(s, prefix) && Numbered(Run(s, prefix), l) && Apart(Run(s, prefix), l)
  }

  // ---- Agreement over every run --------------------------------------------------------------------

  /** A restart rebuilds the map from the table, so the two agree whatever they were before. */
  lemma RestartAgrees(s: Snapshot, usable: set<string>)
    ensures Agree(Next(s, Restart(usable)))
    ensures Next(s, Restart(usable)).rows == s.rows
  {
    var t := Next(s, Restart(usable));
    forall id ensures Same(t, id) {
      if id in s.rows {
        assert t.sessions[id] == Loaded(s.rows[id], usable);
        WholeSeconds(s.rows[id].created);
      }
    }
  }

  lemma WholeSeconds(n: int)
    ensures Seconds(n * NANOS) == n
  {
  }

  lemma StatusSound(v: Local, status: Status)
    requires Sound(v) && v.session.Some?
    ensures Sound(v.(session := Some(v.session.value.(status := status))))
  {
  }

  lemma StatusAt(s: Snapshot, id: Id, status: Status, other: Id)
    requires id in s.sessions
    ensures var v, t := ViewAt(s, id), Next(s, SetStatus(id, status));
      && ViewAt(t, id) == v.(session := Some(v.session.value.(status := status)))
      && (other != id ==> ViewAt(t, other) == ViewAt(s, other))
  {
  }

  lemma StepInv(s: Snapshot, l: Label)
    requires Inv(s) && Numbered(s, l) && Apart(s, l)
    ensures Inv(Next(s, l))
  {
    forall id ensures Sound(ViewAt(Next(s, l), id)) {
      assert Sound(ViewAt(s, id));
      match l {
        case Continue(k) =>
          if k in s.tasks {
            ContinuesAt(s, k, id);
            ContinuedSound(ViewAt(s, s.tasks[k].id), k);
          }
        case SetStatus(at, status) =>
          if at in s.sessions {
            StatusAt(s, at, status, id);
            StatusSound(ViewAt(s, at), status);
          }
        case Restart(usable) =>
          RestartAgrees(s, usable);
          assert Same(Next(s, l), id);
          SameIsSound(ViewAt(Next(s, l), id));
        case _ =>
          BeginsAt(s, l, id);
          BegunSound(ViewAt(s, l.id), l);
      }
    }
  }

  lemma {:induction false} RunInv(ls: seq<Label>)
    requires AllApart(EMPTY, ls)
    ensures Inv(Run(EMPTY, ls))
  {
    if ls != [] {
      RunInv(ls[..|ls| - 1]);
      StepInv(Run(EMPTY, ls[..|ls| - 1]), ls[|ls| - 1]);
    }
  }

  /** Where no operation is under way, table and map agree. */
  lemma IdleAgrees(s: Snapshot, id: Id)
    requires Inv(s)
    ensures Busy(s, id) || Same(s, id)
  {
    assert Sound(ViewAt(s, id));
    if !Busy(s, id) {
      IdleIsSame(ViewAt(s, id));
    }
  }

  /**
   * However operations interleave that do not conflict, on one id or on many, and wherever restarts
   * fall, map and table agree on every id no operation is under way on; so once all are done they agree.
   */
  lemma AgreeWhenIdle(ls: seq<Label>)
    requires AllApart(EMPTY, ls)
    ensures
      var s := Run(EMPTY, ls);
      && (forall id :: !Busy(s, id) ==> Same(s, id))
      && (s.tasks == map[] ==> Agree(s))
  {
    RunInv(ls);
    var s := Run(EMPTY, ls);
    forall id ensures Busy(s, id) || Same(s, id) {
      IdleAgrees(s, id);
    }
    if s.tasks == map[] {
      assert forall id :: !Busy(s, id);
    }
  }

  // ---- Conflicts ---------------------------------------------------------------------------------------

  function RunOn(s: Snapshot, ls: seq<Label>): Snapshot
    decreases ls
  {
    if ls == [] then s else RunOn(Next(s, ls[0]), ls[1..])
  }

  function Continues(ks: seq<nat>): (r: seq<Label>)
    ensures |r| == |ks| && forall i :: 0 <= i < |r| ==> r[i] == Continue(ks[i])
  {
    seq(|ks|, i requires 0 <= i < |ks| => Continue(ks[i]))
  }

  /** Seen from one id, letting operations go on is letting those on it go on. */
  lemma {:induction false} GoesOnAt(s: Snapshot, ks: seq<nat>, id: Id)
    ensures ViewAt(RunOn(s, Continues(ks)), id) == Conflicts.Going(ViewAt(s, id), ks)
    decreases ks
  {
    if ks != [] {
      var k := ks[0];
      assert Continues(ks)[1..] == Continues(ks[1..]);
      GoesOnAt(Next(s, Continue(k)), ks[1..], id);
      if k in s.tasks {
        ContinuesAt(s, k, id);
      }
    }
  }

  /** Letting operations go on in this order leaves the id idle and table and map at odds over it. */
  predicate EndsApart(s: Snapshot, id: Id, ks: seq<nat>) {
    var t := RunOn(s, Continues(ks));
    !Busy(t, id) && !Same(t, id)
  }

  /**
   * Exactly which operations conflict: one may begin, whatever is under way, if and only if no order of
   * the sections still to come leaves its id idle with table and map at odds.
   */
  lemma ApartIff(s: Snapshot, l: Label)
    requires Inv(s) && Begins(l) && Numbered(s, l)
    ensures Apart(s, l) <==> forall ks :: !EndsApart(Next(s, l), l.id, ks)
  {
    var v, t := ViewAt(s, l.id), Next(s, l);
    assert Sound(v);
    BeginsAt(s, l, l.id);
    Conflicts.SafeIff(v, l);
    forall ks ensures EndsApart(t, l.id, ks) <==> Conflicts.Fails(Begun(v, l), ks) {
      GoesOnAt(t, ks, l.id);
    }
    if Apart(s, l) {
      forall ks ensures !EndsApart(t, l.id, ks) {
        assert !Conflicts.Fails(Begun(v, l), ks);
      }
    } else {
      var ks :| Conflicts.Fails(Begun(v, l), ks);
      assert EndsApart(t, l.id, ks);
    }
  }

  /** What a restart makes of one session: same device and webhook, creation cut to the second, a fresh status. */
  predicate Reloaded(was: Session, now: Session, usable: set<string>) {
    && now.jid == was.jid
    && now.webhook == was.webhook
    && now.created == was.created - was.created % NANOS
    && (now.status == Pairing.Created <==> was.jid == "")
    && (now.status == Pairing.Disconnected <==> was.jid != "" && was.jid in usable)
    && (now.status == Pairing.LoggedOut <==> was.jid != "" && was.jid !in usable)
  }

  /** Restarting when idle gives back the same sessions. */
  lemma RestartRestores(ls: seq<Label>, usable: set<string>)
    requires AllApart(EMPTY, ls) && Run(EMPTY, ls).tasks == map[]
    ensures
      var s, t := Run(EMPTY, ls), Next(Run(EMPTY, ls), Restart(usable));
      && t.sessions.Keys == s.sessions.Keys
      && (forall id :: id in s.sessions ==> Reloaded(s.sessions[id], t.sessions[id], usable))
  {
    AgreeWhenIdle(ls);
    var s, t := Run(EMPTY, ls), Next(Run(EMPTY, ls), Restart(usable));
    forall id ensures id in s.sessions <==> id in t.sessions {
      assert Same(s, id);
    }
    forall id | id in s.sessions ensures Reloaded(s.sessions[id], t.sessions[id], usable) {
      assert Same(s, id);
      assert s.rows[id] == RowOf(s.sessions[id]);
      assert t.sessions[id] == Loaded(s.rows[id], usable);
      CutToSecond(s.sessions[id].created);
    }
  }

  lemma CutToSecond(t: int)
    ensures Seconds(t) * NANOS == t - t % NANOS
  {
  }

  // ---- What overlapping operations on one id can do ------------------------------------------------

  function Existing(id: Id, now: int): seq<Label> { [BeginCreate(0, id, "", now), Continue(0)] }

  function Overlap(id: Id, now: int): seq<Label> {
    [BeginDelete(1, id), Continue(1), BeginCreate(2, id, "", now), Continue(2), Continue(1)]
  }

  lemma {:induction false} RunIsRunOn(s: Snapshot, before: seq<Label>, ls: seq<Label>)
    ensures Run(s, before + ls) == RunOn(Run(s, before), ls)
    decreases ls
  {
    if ls == [] {
      assert before + ls == before;
    } else {
      var next := before + [ls[0]];
      assert next[..|next| - 1] == before;
      assert before + ls == next + ls[1..];
      RunIsRunOn(s, next, ls[1..]);
    }
  }

  /** One session, as Create leaves it. */
  function With(id: Id, now: int): Snapshot {
    Snapshot(map[id := Row("", "", Seconds(now))], map[id := NewSession("", "", now)], map[])
  }

  lemma CreateAlone(id: Id, now: int)
    ensures Run(EMPTY, Existing(id, now)) == With(id, now)
  {
    var s := Next(EMPTY, BeginCreate(0, id, "", now));
    assert Next(s, Continue(0)) == With(id, now);
    assert Existing(id, now)[..1] == [BeginCreate(0, id, "", now)] && Existing(id, now)[..1][..0] == [];
    assert Run(EMPTY, Existing(id, now)[..1]) == s;
  }

  lemma OverlapFrom(id: Id, now: int)
    ensures RunOn(With(id, now), Overlap(id, now)) == With(id, now).(sessions := map[])
  {
    var ls := Overlap(id, now);
    var s1 := Next(With(id, now), BeginDelete(1, id));
    assert s1 == With(id, now).(tasks := map[1 := DeleteRow(id)]);
    var s2 := Next(s1, Continue(1));
    assert s2 == With(id, now).(rows := map[], tasks := map[1 := RemoveSession(id)]);
    var s3 := Next(s2, BeginCreate(2, id, "", now));
    assert s3 == With(id, now).(tasks := map[1 := RemoveSession(id), 2 := InsertSession(id, "", now)]);
    var s4 := Next(s3, Continue(2));
    assert s4 == With(id, now).(tasks := map[1 := RemoveSession(id)]);
    var s5 := Next(s4, Continue(1));
    assert s5 == With(id, now).(sessions := map[]);
    assert ls[1..][1..] == ls[2..] && ls[2..][1..] == ls[3..] && ls[3..][1..] == ls[4..] && ls[4..][1..] == [];
    assert RunOn(s4, ls[4..]) == s5;
    assert RunOn(s3, ls[3..]) == s5;
    assert RunOn(s2, ls[2..]) == s5;
  }

  /**
   * A second Create between Delete's two critical sections is refused for the map entry still there,
   * but its row stays: all operations done, the row has no session, and a restart brings one back.
   */
  lemma OrphanRow(id: Id, now: int)
    ensures
      var s := Run(EMPTY, Existing(id, now) + Overlap(id, now));
      && s.tasks == map[] && !Agree(s)
      && id in s.rows && id !in s.sessions
      && id in Next(s, Restart({})).sessions
  {
    RunIsRunOn(EMPTY, Existing(id, now), Overlap(id, now));
    CreateAlone(id, now);
    OverlapFrom(id, now);
    assert !Same(Run(EMPTY, Existing(id, now) + Overlap(id, now)), id);
  }
}
