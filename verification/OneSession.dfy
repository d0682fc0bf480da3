/**
 * One session id in memory and in the table, with the operations under way on it. Operations on
 * different ids touch nothing in common, so what can go wrong goes wrong here.
 */
module OneSession {
  import opened Prelude
  import opened Pairing

  type Id = string

  const NANOS: int := 1_000_000_000

  /** Creation times are instants in nanoseconds in memory, whole seconds in the table. */
  datatype Row = Row(jid: string, webhook: string, created: int)

  datatype Session = Session(jid: string, webhook: string, created: int, status: Status)

  /** Unix seconds, rounded down. */
  function Seconds(t: int): int { t / NANOS }

  function RowOf(s: Session): Row { Row(s.jid, s.webhook, Seconds(s.created)) }

  function NewSession(jid: string, webhook: string, created: int): Session {
    Session(jid, webhook, created, if jid == "" then Created else Disconnected)
  }

  /**
   * What an operation has still to do: the next critical section is the constructor's name. A webhook
   * update holds on to the session object it looked up; it is `live` while that object is in the map.
   */
  datatype Task =
    | InsertSession(id: Id, webhook: string, created: int)
    | UpdateRow(id: Id, webhook: string, live: bool)
    | SetWebhook(id: Id, webhook: string, live: bool)
    | DeleteRow(id: Id)
    | RemoveSession(id: Id)
    | SaveJID(id: Id, jid: string)

  datatype Label =
    | BeginCreate(k: nat, id: Id, webhook: string, now: int)
    | BeginUpdate(k: nat, id: Id, webhook: string)
    | BeginDelete(k: nat, id: Id)
    | BeginConnect(k: nat, id: Id, jid: string)
    | SetStatus(id: Id, status: Status)
    | Continue(k: nat)
    | Restart(usable: set<string>)

  predicate Begins(l: Label) { l.BeginCreate? || l.BeginUpdate? || l.BeginDelete? || l.BeginConnect? }

  function Detached(t: Task): Task {
    match t
    case UpdateRow(id, webhook, _) => UpdateRow(id, webhook, false)
    case SetWebhook(id, webhook, _) => SetWebhook(id, webhook, false)
    case _ => t
  }

  // ---- The machine for one id ----------------------------------------------------------------------

  datatype Local = Local(row: Option<Row>, session: Option<Session>, tasks: map<nat, Task>)

  function Took(v: Local, k: nat, t: Task): Local { v.(tasks := v.tasks[k := t]) }

  function Done(v: Local, k: nat): Local { v.(tasks := v.tasks - {k}) }

  function Continued(v: Local, k: nat): Local
    requires k in v.tasks
  {
    match v.tasks[k]
    case InsertSession(_, webhook, created) =>
      if v.session.Some? then Done(v, k) else Done(v.(session := Some(NewSession("", webhook, created))), k)
    case UpdateRow(id, webhook, live) =>
      if v.row.None? then Done(v, k)
      else Took(v.(row := Some(v.row.value.(webhook := webhook))), k, SetWebhook(id, webhook, live))
    case SetWebhook(_, webhook, live) =>
      if v.session.None? || !live then Done(v, k)
      else Done(v.(session := Some(v.session.value.(webhook := webhook))), k)
    case DeleteRow(id) => Took(v.(row := None), k, RemoveSession(id))
    case RemoveSession(_) =>
      Local(v.row, None, map j | j in v.tasks && j != k :: Detached(v.tasks[j]))
    case SaveJID(_, jid) =>
      if v.row.None? then Done(v, k) else Done(v.(row := Some(v.row.value.(jid := jid))), k)
  }

  /** A connection learns the device's identity, if it knows one, and then persists a change of it. */
  function Connecting(v: Local, k: nat, id: Id, jid: string): Local
    requires v.session.Some?
  {
    var was := v.session.value;
    var learned := was.(jid := if jid != "" then jid else was.jid, status := Connected);
    var t := v.(session := Some(learned));
    if learned.jid != was.jid then Took(t, k, SaveJID(id, jid)) else t
  }

  function Begun(v: Local, l: Label): Local
    requires Begins(l)
  {
    match l
    case BeginCreate(k, id, webhook, now) =>
      if v.row.Some? then v
      else Took(v.(row := Some(Row("", webhook, Seconds(now)))), k, InsertSession(id, webhook, now))
    case BeginUpdate(k, id, webhook) => if v.session.Some? then Took(v, k, UpdateRow(id, webhook, true)) else v
    case BeginDelete(k, id) => if v.session.Some? then Took(v, k, DeleteRow(id)) else v
    case BeginConnect(k, id, jid) => if v.session.Some? then Connecting(v, k, id, jid) else v
  }

  // ---- Which overlaps conflict -----------------------------------------------------------------------

  predicate IsDelete(t: Task) { t.DeleteRow? || t.RemoveSession? }

  predicate IsUpdate(t: Task) { t.UpdateRow? || t.SetWebhook? }

  /** A webhook update that will still write something. */
  predicate Writes(t: Task) { t.UpdateRow? || (t.SetWebhook? && t.live) }

  /** An operation that leaves row and session apart for the moment. */
  predicate IsHalfway(t: Task) { t.InsertSession? || t.RemoveSession? }

  predicate IsLiveSet(t: Task) { t.SetWebhook? && t.live }

  predicate IsSave(t: Task) { t.SaveJID? }

  predicate Any(tasks: map<nat, Task>, p: Task -> bool) { exists k :: k in tasks && p(tasks[k]) }

  predicate Deleting(v: Local) { Any(v.tasks, IsDelete) }

  /**
   * Whether an operation may begin: a Create only when what is still under way on the id writes nothing
   * else than it does itself; an update unless another webhook is about to be written; a connection that
   * learns a new device unless one is still being saved. Where the session is about to be deleted the
   * last two do not matter, and a Delete may always begin.
   */
  predicate Safe(v: Local, l: Label)
    requires Begins(l)
  {
    match l
    case BeginCreate(_, _, webhook, _) =>
      v.row.Some? ||
      forall j :: j in v.tasks ==>
        IsUpdate(v.tasks[j]) && (Writes(v.tasks[j]) ==> v.tasks[j].webhook == webhook)
    case BeginUpdate(_, _, webhook) =>
      v.session.None? || Deleting(v) || forall j :: j in v.tasks && Writes(v.tasks[j]) ==> v.tasks[j].webhook == webhook
    case BeginDelete(_, _) => true
    case BeginConnect(_, _, jid) =>
      v.session.None? || Deleting(v) || jid == "" || jid == v.session.value.jid ||
      forall j :: j in v.tasks ==> !v.tasks[j].SaveJID?
  }

  // ---- What safe steps keep ----------------------------------------------------------------------------

  /** A row just created, whose session is about to follow. */
  predicate Inserting(v: Local, k: nat)
    requires k in v.tasks && v.tasks[k].InsertSession?
  {
    var t := v.tasks[k];
    && v.row == Some(Row("", t.webhook, Seconds(t.created))) && v.session == None
    && forall j :: j in v.tasks && j != k ==>
         IsUpdate(v.tasks[j]) && (Writes(v.tasks[j]) ==> v.tasks[j].webhook == t.webhook)
  }

  predicate Inserted(v: Local) { forall k :: k in v.tasks && v.tasks[k].InsertSession? ==> Inserting(v, k) }

  predicate Removed(v: Local) { forall k :: k in v.tasks && v.tasks[k].RemoveSession? ==> v.row == None }

  predicate Placed(v: Local) { (v.row.Some? <==> v.session.Some?) || Any(v.tasks, IsHalfway) }

  /** An update outlives its session object only dead. */
  predicate Orphaned(v: Local) {
    v.session.None? ==> forall k :: k in v.tasks && IsUpdate(v.tasks[k]) ==> !v.tasks[k].live
  }

  predicate Named(v: Local) { forall k :: k in v.tasks && v.tasks[k].SaveJID? ==> v.tasks[k].jid != "" }

  predicate OneWebhook(tasks: map<nat, Task>) {
    forall j, k :: j in tasks && k in tasks && Writes(tasks[j]) && Writes(tasks[k]) ==>
      tasks[j].webhook == tasks[k].webhook
  }

  /** Row and session have the same webhook, or an update has still to bring it to the session. */
  predicate Hooked(row: Row, session: Session, tasks: map<nat, Task>) {
    && OneWebhook(tasks)
    && (forall k :: k in tasks && tasks[k].SetWebhook? && tasks[k].live ==> row.webhook == tasks[k].webhook)
    && (forall k :: k in tasks && tasks[k].UpdateRow? && !tasks[k].live ==> session.webhook == tasks[k].webhook)
    && (row.webhook == session.webhook || Any(tasks, IsLiveSet))
  }

  /** Row and session name the same device, or it has still to be saved. */
  predicate Identified(row: Row, session: Session, tasks: map<nat, Task>) {
    && (forall j, k :: j in tasks && k in tasks && tasks[j].SaveJID? && tasks[k].SaveJID? ==> j == k)
    && (forall k :: k in tasks && tasks[k].SaveJID? ==> session.jid == tasks[k].jid)
    && (row.jid == session.jid || Any(tasks, IsSave))
  }

  predicate Matched(v: Local) {
    v.row.Some? && v.session.Some? && !Deleting(v) ==>
      && v.row.value.created == Seconds(v.session.value.created)
      && Hooked(v.row.value, v.session.value, v.tasks)
      && Identified(v.row.value, v.session.value, v.tasks)
  }

  predicate Sound(v: Local) {
    Inserted(v) && Removed(v) && Placed(v) && Orphaned(v) && Named(v) && Matched(v)
  }

  /** The table holds exactly what the map holds. */
  predicate Same(v: Local) {
    (v.row.Some? <==> v.session.Some?) && (v.row.Some? ==> v.row.value == RowOf(v.session.value))
  }

  lemma IdleIsSame(v: Local)
    requires Sound(v) && v.tasks == map[]
    ensures Same(v)
  {
  }

  lemma SameIsSound(v: Local)
    requires Same(v) && v.tasks == map[]
    ensures Sound(v)
  {
  }

  /** One task added. */
  lemma AnyMore(tasks: map<nat, Task>, k: nat, t: Task, p: Task -> bool)
    requires k !in tasks
    ensures Any(tasks[k := t], p) <==> Any(tasks, p) || p(t)
  {
    if j :| j in tasks && p(tasks[j]) {
      assert tasks[k := t][j] == tasks[j];
    }
    if p(t) {
      assert tasks[k := t][k] == t;
    }
  }

  /** One task gone. */
  lemma AnyLess(tasks: map<nat, Task>, k: nat, p: Task -> bool)
    requires k in tasks
    ensures Any(tasks, p) <==> Any(tasks - {k}, p) || p(tasks[k])
  {
    if j :| j in tasks && p(tasks[j]) {
      assert j != k ==> j in tasks - {k};
    }
  }

  /** One task moved on. */
  lemma AnySwap(tasks: map<nat, Task>, k: nat, t: Task, p: Task -> bool)
    requires k in tasks
    ensures Any(tasks[k := t], p) <==> Any(tasks - {k}, p) || p(t)
  {
    AnyMore(tasks - {k}, k, t, p);
    assert (tasks - {k})[k := t] == tasks[k := t];
  }

  lemma CreateSound(v: Local, l: Label)
    requires Sound(v) && l.BeginCreate? && Safe(v, l) && l.k !in v.tasks
    ensures Sound(Begun(v, l))
  {
    var t := Begun(v, l);
    if v.row.None? {
      AnyMore(v.tasks, l.k, t.tasks[l.k], IsHalfway);
      assert !Any(v.tasks, IsHalfway);
      assert Inserting(t, l.k);
    }
  }

  lemma UpdateSound(v: Local, l: Label)
    requires Sound(v) && l.BeginUpdate? && Safe(v, l) && l.k !in v.tasks
    ensures Sound(Begun(v, l))
  {
    var t := Begun(v, l);
    if v.session.Some? {
      AnyMore(v.tasks, l.k, t.tasks[l.k], IsHalfway);
      AnyMore(v.tasks, l.k, t.tasks[l.k], IsDelete);
      AnyMore(v.tasks, l.k, t.tasks[l.k], IsLiveSet);
      AnyMore(v.tasks, l.k, t.tasks[l.k], IsSave);
    }
  }

  lemma DeleteSound(v: Local, l: Label)
    requires Sound(v) && l.BeginDelete? && l.k !in v.tasks
    ensures Sound(Begun(v, l))
  {
    var t := Begun(v, l);
    if v.session.Some? {
      AnyMore(v.tasks, l.k, t.tasks[l.k], IsHalfway);
      AnyMore(v.tasks, l.k, t.tasks[l.k], IsDelete);
    }
  }

  lemma ConnectSound(v: Local, l: Label)
    requires Sound(v) && l.BeginConnect? && Safe(v, l) && l.k !in v.tasks
    ensures Sound(Begun(v, l))
  {
    var t := Begun(v, l);
    if v.session.Some? && l.k in t.tasks {
      AnyMore(v.tasks, l.k, t.tasks[l.k], IsHalfway);
      AnyMore(v.tasks, l.k, t.tasks[l.k], IsDelete);
      AnyMore(v.tasks, l.k, t.tasks[l.k], IsLiveSet);
      AnyMore(v.tasks, l.k, t.tasks[l.k], IsSave);
    }
  }

  lemma InsertContinued(v: Local, k: nat)
    requires Sound(v) && k in v.tasks && v.tasks[k].InsertSession?
    ensures Sound(Continued(v, k))
  {
    AnyLess(v.tasks, k, IsSave);
    assert Inserting(v, k);
    assert !Any(v.tasks - {k}, IsSave);
  }

  lemma RowContinued(v: Local, k: nat)
    requires Sound(v) && k in v.tasks && v.tasks[k].UpdateRow?
    ensures Sound(Continued(v, k))
  {
    if v.row.None? {
      AnyLess(v.tasks, k, IsHalfway);
    } else {
      SwapKeeps(v.tasks, k, Continued(v, k).tasks[k], IsHalfway);
      SwapKeeps(v.tasks, k, Continued(v, k).tasks[k], IsDelete);
      SwapKeeps(v.tasks, k, Continued(v, k).tasks[k], IsSave);
      if v.session.Some? && !Deleting(v) {
        RowMatched(v, k);
      }
    }
  }

  /** A task moves on between two kinds that both are, or both are not, of the sort asked for. */
  lemma SwapKeeps(tasks: map<nat, Task>, k: nat, t: Task, p: Task -> bool)
    requires k in tasks && p(tasks[k]) == p(t)
    ensures Any(tasks[k := t], p) <==> Any(tasks, p)
  {
    AnySwap(tasks, k, t, p);
    AnyLess(tasks, k, p);
  }

  lemma RowMatched(v: Local, k: nat)
    requires k in v.tasks && v.tasks[k].UpdateRow? && v.row.Some? && v.session.Some?
    requires Hooked(v.row.value, v.session.value, v.tasks)
    ensures var t := Continued(v, k); Hooked(t.row.value, t.session.value, t.tasks)
  {
    var t := Continued(v, k);
    AnySwap(v.tasks, k, t.tasks[k], IsLiveSet);
    AnyLess(v.tasks, k, IsLiveSet);
  }

  lemma HookContinued(v: Local, k: nat)
    requires Sound(v) && k in v.tasks && v.tasks[k].SetWebhook?
    ensures Sound(Continued(v, k))
  {
    AnyLess(v.tasks, k, IsHalfway);
    AnyLess(v.tasks, k, IsDelete);
    AnyLess(v.tasks, k, IsLiveSet);
    AnyLess(v.tasks, k, IsSave);
  }

  lemma DeleteContinued(v: Local, k: nat)
    requires Sound(v) && k in v.tasks && v.tasks[k].DeleteRow?
    ensures Sound(Continued(v, k))
  {
    AnySwap(v.tasks, k, RemoveSession(v.tasks[k].id), IsHalfway);
    AnyLess(v.tasks, k, IsDelete);
  }

  lemma RemoveContinued(v: Local, k: nat)
    requires Sound(v) && k in v.tasks && v.tasks[k].RemoveSession?
    ensures Sound(Continued(v, k))
  {
  }

  lemma SaveContinued(v: Local, k: nat)
    requires Sound(v) && k in v.tasks && v.tasks[k].SaveJID?
    ensures Sound(Continued(v, k))
  {
    AnyLess(v.tasks, k, IsHalfway);
    AnyLess(v.tasks, k, IsDelete);
    AnyLess(v.tasks, k, IsLiveSet);
  }

  lemma BegunSound(v: Local, l: Label)
    requires Sound(v) && Begins(l) && Safe(v, l) && l.k !in v.tasks
    ensures Sound(Begun(v, l))
  {
    match l
    case BeginCreate(_, _, _, _) => CreateSound(v, l);
    case BeginUpdate(_, _, _) => UpdateSound(v, l);
    case BeginDelete(_, _) => DeleteSound(v, l);
    case BeginConnect(_, _, _) => ConnectSound(v, l);
  }

  lemma ContinuedSound(v: Local, k: nat)
    requires Sound(v) && k in v.tasks
    ensures Sound(Continued(v, k))
  {
    match v.tasks[k]
    case InsertSession(_, _, _) => InsertContinued(v, k);
    case UpdateRow(_, _, _) => RowContinued(v, k);
    case SetWebhook(_, _, _) => HookContinued(v, k);
    case DeleteRow(_) => DeleteContinued(v, k);
    case RemoveSession(_) => RemoveContinued(v, k);
    case SaveJID(_, _) => SaveContinued(v, k);
  }
}
