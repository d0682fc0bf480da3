/** The registry table and the session manager as objects, each operation run without interruption. */
module Manager {
  import opened OneSession
  import opened Sessions
  import Pairing

  datatype Failure = InvalidId | InvalidWebhook | Taken | NotFound

  datatype Result = Ok | Err(why: Failure)

  class Registry {
    var rows: map<Id, Row>

    constructor ()
      ensures rows == map[]
    {
      rows := map[];
    }

    method Create(id: Id, row: Row) returns (r: Result)
      modifies this
      ensures r == if id in old(rows) then Err(Taken) else Ok
      ensures rows == if id in old(rows) then old(rows) else old(rows)[id := row]
    {
      if id in rows {
        return Err(Taken);
      }
      rows := rows[id := row];
      r := Ok;
    }

    method UpdateJID(id: Id, jid: string) returns (r: Result)
      modifies this
      ensures r == if id in old(rows) then Ok else Err(NotFound)
      ensures rows == if id in old(rows) then old(rows)[id := old(rows)[id].(jid := jid)] else old(rows)
    {
      if id !in rows {
        return Err(NotFound);
      }
      rows := rows[id := rows[id].(jid := jid)];
      r := Ok;
    }

    method UpdateWebhook(id: Id, webhook: string) returns (r: Result)
      modifies this
      ensures r == if id in old(rows) then Ok else Err(NotFound)
      ensures rows == if id in old(rows) then old(rows)[id := old(rows)[id].(webhook := webhook)] else old(rows)
    {
      if id !in rows {
        return Err(NotFound);
      }
      rows := rows[id := rows[id].(webhook := webhook)];
      r := Ok;
    }

    method Delete(id: Id) returns (r: Result)
      modifies this
      ensures r == if id in old(rows) then Ok else Err(NotFound)
      ensures rows == old(rows) - {id}
    {
      r := if id in rows then Ok else Err(NotFound);
      rows := rows - {id};
    }
  }

  /** The labels of one operation run from start to end under number 0. */
  function CreateSteps(id: Id, webhook: string, now: int): seq<Label> {
    [BeginCreate(0, id, webhook, now), Continue(0)]
  }

  function UpdateSteps(id: Id, webhook: string): seq<Label> {
    [BeginUpdate(0, id, webhook), Continue(0), Continue(0)]
  }

  function DeleteSteps(id: Id): seq<Label> {
    [BeginDelete(0, id), Continue(0), Continue(0)]
  }

  function ConnectSteps(id: Id, jid: string): seq<Label> {
    [BeginConnect(0, id, jid), Continue(0)]
  }

  lemma TwoSteps(s: Snapshot, a: Label, b: Label)
    ensures RunOn(s, [a, b]) == Next(Next(s, a), b)
  {
    assert [a, b][1..] == [b] && [b][1..] == [];
    assert RunOn(Next(s, a), [b]) == Next(Next(s, a), b);
  }

  lemma ThreeSteps(s: Snapshot, a: Label, b: Label, c: Label)
    ensures RunOn(s, [a, b, c]) == Next(Next(Next(s, a), b), c)
  {
    assert [a, b, c][1..] == [b, c];
    TwoSteps(Next(s, a), b, c);
  }

  ghost predicate Idle(s: Snapshot) { s.tasks == map[] && Agree(s) }

  lemma IdleInv(s: Snapshot)
    requires Inv(s) && s.tasks == map[]
    ensures Idle(s)
  {
    forall id ensures Sessions.Same(s, id) {
      IdleAgrees(s, id);
      assert !Busy(s, id);
    }
  }

  lemma AgreeingIsInv(s: Snapshot)
    requires Idle(s)
    ensures Inv(s)
  {
    forall id ensures Sound(ViewAt(s, id)) {
      assert Sessions.Same(s, id);
      SameIsSound(ViewAt(s, id));
    }
  }

  /** With nothing under way every operation may begin, and letting it go on needs no leave. */
  lemma BeginsAlone(s: Snapshot, l: Label)
    requires s.tasks == map[]
    ensures Numbered(s, l) && Apart(s, l)
  {
  }

  /** Every whole operation leaves the two stores in agreement. */
  lemma OperationsAgree(s: Snapshot, id: Id, webhook: string, jid: string, now: int)
    requires Idle(s)
    ensures Idle(RunOn(s, CreateSteps(id, webhook, now)))
    ensures Idle(RunOn(s, UpdateSteps(id, webhook)))
    ensures Idle(RunOn(s, DeleteSteps(id)))
    ensures Idle(RunOn(s, ConnectSteps(id, jid)))
  {
    BeginThenContinue(s, BeginCreate(0, id, webhook, now));
    BeginThenContinue(s, BeginConnect(0, id, jid));
    BeginThenContinueTwice(s, BeginUpdate(0, id, webhook));
    BeginThenContinueTwice(s, BeginDelete(0, id));
  }

  lemma BeginThenContinue(s: Snapshot, l: Label)
    requires Idle(s) && (l.BeginCreate? || l.BeginConnect?) && l.k == 0
    ensures Idle(RunOn(s, [l, Continue(0)]))
  {
    TwoSteps(s, l, Continue(0));
    AgreeingIsInv(s);
    BeginsAlone(s, l);
    StepInv(s, l);
    StepInv(Next(s, l), Continue(0));
    IdleInv(Next(Next(s, l), Continue(0)));
  }

  lemma BeginThenContinueTwice(s: Snapshot, l: Label)
    requires Idle(s) && (l.BeginUpdate? || l.BeginDelete?) && l.k == 0
    ensures Idle(RunOn(s, [l, Continue(0), Continue(0)]))
  {
    ThreeSteps(s, l, Continue(0), Continue(0));
    AgreeingIsInv(s);
    BeginsAlone(s, l);
    StepInv(s, l);
    var t := Next(s, l);
    StepInv(t, Continue(0));
    var u := Next(t, Continue(0));
    StepInv(u, Continue(0));
    IdleInv(Next(u, Continue(0)));
  }

  class Manager {
    const reg: Registry
    var sessions: map<Id, Session>

    constructor (reg: Registry)
      ensures this.reg == reg && sessions == map[]
    {
      this.reg := reg;
      sessions := map[];
    }

    /** Both stores with no operation under way. */
    ghost function Stores(): Snapshot
      reads this, reg
    {
      Snapshot(reg.rows, sessions, map[])
    }

    /** `generated` is the identifier made up when none is given. */
    method Create(id: Id, generated: Id, validId: bool, validWebhook: bool, webhook: string, now: int)
      returns (r: Result)
      modifies this, reg
      ensures
        var name, before := if id == "" then generated else id, old(Stores());
        if id != "" && !validId then r == Err(InvalidId) && Stores() == before
        else if !validWebhook then r == Err(InvalidWebhook) && Stores() == before
        else
          && r == (if name in before.rows || name in before.sessions then Err(Taken) else Ok)
          && Stores() == RunOn(before, CreateSteps(name, webhook, now))
      ensures r.Ok? ==>
        var name := if id == "" then generated else id;
        && reg.rows == old(reg.rows)[name := Row("", webhook, now / 1_000_000_000)]
        && sessions == old(sessions)[name := Session("", webhook, now, Pairing.Created)]
      ensures r.Err? ==> sessions == old(sessions)
      ensures r.Err? && old(sessions.Keys == reg.rows.Keys) ==> reg.rows == old(reg.rows)
    {
      var name := id;
      if name == "" {
        name := generated;
      } else if !validId {
        return Err(InvalidId);
      }
      if !validWebhook {
        return Err(InvalidWebhook);
      }
      ghost var before := Stores();
      TwoSteps(before, BeginCreate(0, name, webhook, now), Continue(0));
      r := reg.Create(name, Row("", webhook, Seconds(now)));
      if r.Err? {
        assert Stores() == before;
        return;
      }
      if name in sessions {
        return Err(Taken);
      }
      sessions := sessions[name := NewSession("", webhook, now)];
    }

    method UpdateWebhook(id: Id, webhook: string, validWebhook: bool) returns (r: Result)
      modifies this, reg
      ensures !validWebhook ==> r == Err(InvalidWebhook) && Stores() == old(Stores())
      ensures validWebhook ==>
        && r == (if id in old(sessions) && id in old(reg.rows) then Ok else Err(NotFound))
        && Stores() == RunOn(old(Stores()), UpdateSteps(id, webhook))
      ensures r.Ok? ==>
        && reg.rows == old(reg.rows)[id := old(reg.rows)[id].(webhook := webhook)]
        && sessions == old(sessions)[id := old(sessions)[id].(webhook := webhook)]
      ensures r.Err? ==> reg.rows == old(reg.rows) && sessions == old(sessions)
    {
      if !validWebhook {
        return Err(InvalidWebhook);
      }
      ThreeSteps(Stores(), BeginUpdate(0, id, webhook), Continue(0), Continue(0));
      if id !in sessions {
        return Err(NotFound);
      }
      r := reg.UpdateWebhook(id, webhook);
      if r == Ok {
        sessions := sessions[id := sessions[id].(webhook := webhook)];
      }
    }

    method Delete(id: Id) returns (r: Result)
      modifies this, reg
      ensures r == if id in old(sessions) then Ok else Err(NotFound)
      ensures Stores() == RunOn(old(Stores()), DeleteSteps(id))
      ensures r.Ok? ==> reg.rows == old(reg.rows) - {id} && sessions == old(sessions) - {id}
      ensures r.Err? ==> reg.rows == old(reg.rows) && sessions == old(sessions)
    {
      ThreeSteps(Stores(), BeginDelete(0, id), Continue(0), Continue(0));
      if id !in sessions {
        return Err(NotFound);
      }
      var gone := reg.Delete(id);
      sessions := sessions - {id};
      r := Ok;
    }

    /** A session's connection comes up. */
    method Connected(id: Id, jid: string)
      requires id in sessions
      modifies this, reg
      ensures Stores() == RunOn(old(Stores()), ConnectSteps(id, jid))
      ensures sessions.Keys == old(sessions.Keys) && reg.rows.Keys == old(reg.rows.Keys)
      ensures forall k :: k in sessions && k != id ==> sessions[k] == old(sessions)[k]
      ensures forall k :: k in reg.rows && k != id ==> reg.rows[k] == old(reg.rows)[k]
      ensures
        var was := old(sessions)[id];
        sessions[id] == Session(if jid == "" then was.jid else jid, was.webhook, was.created, Pairing.Connected)
      ensures id in reg.rows ==>
        var was := old(reg.rows)[id];
        reg.rows[id] == if jid == "" || jid == old(sessions)[id].jid then was else Row(jid, was.webhook, was.created)
      ensures id in old(reg.rows) && old(reg.rows[id].jid == sessions[id].jid) ==>
        reg.rows[id].jid == sessions[id].jid
    {
      TwoSteps(Stores(), BeginConnect(0, id, jid), Continue(0));
      var was := sessions[id];
      sessions := sessions[id := was.(jid := if jid != "" then jid else was.jid, status := Pairing.Connected)];
      if jid != "" && jid != was.jid {
        var saved := reg.UpdateJID(id, jid);
      }
    }

    /** What Start does with one row. */
    method Load(row: Row, loggedIn: set<string>, loadable: set<string>) returns (s: Session)
      ensures s == Loaded(row, loggedIn * loadable)
    {
      s := NewSession(row.jid, row.webhook, row.created * NANOS);
      if row.jid == "" {
      } else if row.jid in loggedIn {
        s := s.(status := if row.jid in loadable then Pairing.Disconnected else Pairing.LoggedOut);
      } else {
        s := s.(status := Pairing.LoggedOut);
      }
    }

    /** The loop over the rows, in any order; `rebuilt` is what it must add. */
    method LoadAll(rows: map<Id, Row>, loggedIn: set<string>, loadable: set<string>, ghost rebuilt: map<Id, Session>)
      requires rebuilt.Keys == rows.Keys
      requires forall id :: id in rows ==> rebuilt[id] == Loaded(rows[id], loggedIn * loadable)
      modifies this`sessions
      ensures sessions == old(sessions) + rebuilt
    {
      ghost var was := sessions;
      var todo := rows.Keys;
      NoneLoaded(was, rebuilt);
      while todo != {}
        invariant todo <= rebuilt.Keys
        invariant sessions == was + (rebuilt - todo)
        decreases |todo|
      {
        var id :| id in todo;
        var s := Load(rows[id], loggedIn, loadable);
        LoadOne(was, rebuilt, todo, id);
        sessions := sessions[id := s];
        todo := todo - {id};
      }
      assert rebuilt - {} == rebuilt;
    }

    /** Boot: one session per row. */
    method Start(loggedIn: set<string>, loadable: set<string>)
      modifies this`sessions
      ensures sessions == old(sessions) + Rebuilt(reg.rows, loggedIn * loadable)
      ensures reg.rows.Keys <= sessions.Keys
      ensures forall id :: id in reg.rows ==>
        var row := reg.rows[id];
        sessions[id] == Session(row.jid, row.webhook, row.created * 1_000_000_000,
          if row.jid == "" then Pairing.Created
          else if row.jid in loggedIn && row.jid in loadable then Pairing.Disconnected
          else Pairing.LoggedOut)
      ensures old(sessions) == map[] ==> Stores() == Next(old(Stores()), Restart(loggedIn * loadable))
    {
      ghost var rebuilt := Rebuilt(reg.rows, loggedIn * loadable);
      LoadAll(reg.rows, loggedIn, loadable, rebuilt);
      assert map[] + rebuilt == rebuilt;
    }
  }

  lemma NoneLoaded(was: map<Id, Session>, rebuilt: map<Id, Session>)
    ensures was + (rebuilt - rebuilt.Keys) == was
  {
  }

  lemma LoadOne(was: map<Id, Session>, rebuilt: map<Id, Session>, todo: set<Id>, id: Id)
    requires id in todo && id in rebuilt
    ensures (was + (rebuilt - todo))[id := rebuilt[id]] == was + (rebuilt - (todo - {id}))
  {
  }
}
