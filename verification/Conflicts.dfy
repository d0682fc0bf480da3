/**
 * Every overlap that `OneSession.Safe` excludes really goes wrong: there is an order of the critical
 * sections still to come after which nothing is under way and row and session differ.
 */
module Conflicts {
  import opened Prelude
  import opened OneSession

  function Went(v: Local, k: nat): Local { if k in v.tasks then Continued(v, k) else v }

  /** The operations under way go on, in the order given. */
  function Going(v: Local, ks: seq<nat>): Local
    decreases ks
  {
    if ks == [] then v else Going(Went(v, ks[0]), ks[1..])
  }

  lemma {:induction false} GoingConcat(v: Local, a: seq<nat>, b: seq<nat>)
    ensures Going(v, a + b) == Going(Going(v, a), b)
    decreases a
  {
    if a == [] {
      assert a + b == b;
    } else {
      assert (a + b)[1..] == a[1..] + b;
      GoingConcat(Went(v, a[0]), a[1..], b);
    }
  }

  /** Everything ends, and row and session differ. */
  predicate Fails(v: Local, ks: seq<nat>) {
    Going(v, ks).tasks == map[] && !Same(Going(v, ks))
  }

  lemma FailsLater(v: Local, a: seq<nat>, b: seq<nat>)
    requires Fails(Going(v, a), b)
    ensures Fails(v, a + b)
  {
    GoingConcat(v, a, b);
  }

  // ---- Letting all but a few operations finish -----------------------------------------------------

  /** What stays true while the other operations finish. */
  datatype Kept = Nothing | RowOnly | Both | Differing

  predicate IsWrite(t: Task) { IsUpdate(t) || t.SaveJID? }

  predicate Holds(g: Kept, v: Local, keep: set<nat>) {
    match g
    case Nothing => true
    case RowOnly =>
      v.row.Some? && v.session.None? && forall k :: k in v.tasks && k !in keep ==> IsWrite(v.tasks[k])
    case Both =>
      v.row.Some? && v.session.Some? && forall k :: k in v.tasks && k !in keep ==> IsWrite(v.tasks[k])
    case Differing =>
      && v.row.Some? && v.session.Some? && v.row.value.jid != v.session.value.jid
      && forall k :: k in v.tasks && k !in keep ==> IsUpdate(v.tasks[k])
  }

  /** The operations kept back are as they were, but that their session object may have gone. */
  predicate Waiting(g: Kept, v: Local, w: Local, keep: set<nat>) {
    forall j :: j in keep && j in v.tasks ==>
      j in w.tasks && (w.tasks[j] == v.tasks[j] || (g == Nothing && w.tasks[j] == Detached(v.tasks[j])))
  }

  lemma StepKeeps(g: Kept, v: Local, keep: set<nat>, k: nat)
    requires k in v.tasks && k !in keep && Holds(g, v, keep)
    ensures Holds(g, Continued(v, k), keep) && Waiting(g, v, Continued(v, k), keep)
    ensures v.tasks.Keys - {k} <= Continued(v, k).tasks.Keys <= v.tasks.Keys
  {
  }

  lemma WaitingOn(g: Kept, u: Local, v: Local, w: Local, keep: set<nat>)
    requires Waiting(g, u, v, keep) && Waiting(g, v, w, keep)
    ensures Waiting(g, u, w, keep)
  {
  }

  /** Two sections are enough for any operation. */
  lemma TwoEnd(v: Local, k: nat)
    requires k in v.tasks
    ensures k !in Went(Continued(v, k), k).tasks
  {
  }

  lemma Finish(g: Kept, v: Local, keep: set<nat>, k: nat)
    requires k in v.tasks && k !in keep && Holds(g, v, keep)
    ensures var w := Going(v, [k, k]);
      Holds(g, w, keep) && Waiting(g, v, w, keep) && w.tasks.Keys == v.tasks.Keys - {k}
  {
    var u := Continued(v, k);
    assert [k, k][1..] == [k] && [k][1..] == [];
    assert Going(u, [k]) == Went(u, k);
    StepKeeps(g, v, keep, k);
    TwoEnd(v, k);
    if k in u.tasks {
      StepKeeps(g, u, keep, k);
      WaitingOn(g, v, u, Went(u, k), keep);
    }
  }

  /** All operations not kept back finish. */
  lemma {:induction false} Drain(g: Kept, v: Local, keep: set<nat>) returns (ks: seq<nat>)
    requires Holds(g, v, keep)
    ensures var w := Going(v, ks);
      Holds(g, w, keep) && Waiting(g, v, w, keep) && w.tasks.Keys == v.tasks.Keys * keep
    decreases |v.tasks.Keys - keep|
  {
    if v.tasks.Keys <= keep {
      ks := [];
    } else {
      var k :| k in v.tasks && k !in keep;
      var w := Going(v, [k, k]);
      Finish(g, v, keep, k);
      assert w.tasks.Keys - keep == v.tasks.Keys - keep - {k};
      var rest := Drain(g, w, keep);
      ks := [k, k] + rest;
      GoingConcat(v, [k, k], rest);
      WaitingOn(g, v, w, Going(v, ks), keep);
    }
  }

  // ---- Two operations left ---------------------------------------------------------------------------

  lemma Going2(v: Local, a: nat, b: nat)
    ensures Going(v, [a, b]) == Went(Went(v, a), b)
  {
    assert [a, b][1..] == [b] && [b][1..] == [];
    assert Going(Went(v, a), [b]) == Went(Went(v, a), b);
  }

  lemma Going3(v: Local, a: nat, b: nat, c: nat)
    ensures Going(v, [a, b, c]) == Went(Went(Went(v, a), b), c)
  {
    assert [a, b, c][1..] == [b, c];
    Going2(Went(v, a), b, c);
  }

  lemma Going4(v: Local, a: nat, b: nat, c: nat, d: nat)
    ensures Going(v, [a, b, c, d]) == Went(Went(Went(Went(v, a), b), c), d)
  {
    assert [a, b, c, d][1..] == [b, c, d];
    Going3(Went(v, a), b, c, d);
  }

  predicate Left(v: Local, j: nat, tj: Task, k: nat, tk: Task) {
    j != k && v.tasks == map[j := tj, k := tk]
  }

  /** A Delete and a Create. */
  lemma DeleteAndCreate(v: Local, j: nat, tj: Task, k: nat, tk: Task) returns (ks: seq<nat>)
    requires Left(v, j, tj, k, tk) && IsDelete(tj) && tk.InsertSession?
    ensures Fails(v, ks)
  {
    if tj.DeleteRow? {
      ks := [j, j, k];
      Going3(v, j, j, k);
    } else if v.row.Some? {
      ks := [k, j];
      Going2(v, k, j);
    } else {
      ks := [j, k];
      Going2(v, j, k);
    }
  }

  /** A device still being saved, for a session that is gone, and a Create. */
  lemma SaveAndCreate(v: Local, j: nat, tj: Task, k: nat, tk: Task) returns (ks: seq<nat>)
    requires Left(v, j, tj, k, tk) && tj.SaveJID? && tj.jid != "" && tk.InsertSession?
    requires v.row.Some? && v.session.None?
    ensures Fails(v, ks)
  {
    ks := [j, k];
    Going2(v, j, k);
  }

  /** An update of a session that is gone, and a Create with another webhook. */
  lemma UpdateAndCreate(v: Local, j: nat, tj: Task, k: nat, tk: Task) returns (ks: seq<nat>)
    requires Left(v, j, tj, k, tk) && tj.UpdateRow? && tk.InsertSession? && tj.webhook != tk.webhook
    requires v.row.Some? && v.session.None?
    ensures Fails(v, ks)
  {
    ks := [j, j, k];
    Going3(v, j, j, k);
  }

  /** Two updates with different webhooks. */
  lemma TwoUpdates(v: Local, j: nat, tj: Task, k: nat, tk: Task) returns (ks: seq<nat>)
    requires Left(v, j, tj, k, tk) && Writes(tj) && tk.UpdateRow? && tk.live && tj.webhook != tk.webhook
    requires v.row.Some? && v.session.Some?
    ensures Fails(v, ks)
  {
    if tj.SetWebhook? {
      ks := [k, k, j];
      Going3(v, k, k, j);
    } else if tj.live {
      ks := [j, k, k, j];
      Going4(v, j, k, k, j);
    } else {
      ks := [k, k, j, j];
      Going4(v, k, k, j, j);
    }
  }

  // ---- Every excluded overlap ------------------------------------------------------------------------

  lemma DrainToTwo(g: Kept, v: Local, j: nat, k: nat) returns (ks: seq<nat>)
    requires j in v.tasks && k in v.tasks && j != k && Holds(g, v, {j, k})
    ensures var w := Going(v, ks);
      && Holds(g, w, {j, k}) && Waiting(g, v, w, {j, k})
      && w.tasks.Keys == {j, k} && Left(w, j, w.tasks[j], k, w.tasks[k])
  {
    ks := Drain(g, v, {j, k});
    var w := Going(v, ks);
    assert v.tasks.Keys * {j, k} == {j, k};
    assert w.tasks == map[j := w.tasks[j], k := w.tasks[k]];
  }

  lemma UpdateConflict(v: Local, l: Label) returns (ks: seq<nat>)
    requires Sound(v) && l.BeginUpdate? && !Safe(v, l) && l.k !in v.tasks
    ensures Fails(Begun(v, l), ks)
  {
    var j :| j in v.tasks && Writes(v.tasks[j]) && v.tasks[j].webhook != l.webhook;
    var t := Begun(v, l);
    NoDeletes(v);
    assert v.row.Some?;
    var before := DrainToTwo(Both, t, j, l.k);
    var w := Going(t, before);
    var after := TwoUpdates(w, j, w.tasks[j], l.k, w.tasks[l.k]);
    ks := before + after;
    FailsLater(t, before, after);
  }

  /** With a session and no Delete under way there is a row, and only writes are under way. */
  lemma NoDeletes(v: Local)
    requires Sound(v) && !Deleting(v)
    ensures v.session.Some? ==> v.row.Some? && forall j :: j in v.tasks ==> IsWrite(v.tasks[j])
    ensures v.row.None? ==> v.session.None? && forall j :: j in v.tasks ==> IsWrite(v.tasks[j])
  {
    assert forall j :: j in v.tasks ==> !IsDelete(v.tasks[j]);
    assert forall j :: j in v.tasks && v.tasks[j].InsertSession? ==> Inserting(v, j);
  }

  lemma ConnectConflict(v: Local, l: Label) returns (ks: seq<nat>)
    requires Sound(v) && l.BeginConnect? && !Safe(v, l) && l.k !in v.tasks
    ensures Fails(Begun(v, l), ks)
  {
    var j :| j in v.tasks && v.tasks[j].SaveJID?;
    NoDeletes(v);
    var t := Begun(v, l);
    var w := Going(t, [l.k, j]);
    Going2(t, l.k, j);
    assert w.row.value.jid == v.tasks[j].jid != l.jid == w.session.value.jid;
    assert Holds(Differing, w, {});
    var after := Drain(Differing, w, {});
    assert Going(w, after).tasks.Keys == {};
    ks := [l.k, j] + after;
    FailsLater(t, [l.k, j], after);
  }

  lemma CreateConflict(v: Local, l: Label) returns (ks: seq<nat>)
    requires Sound(v) && l.BeginCreate? && !Safe(v, l) && l.k !in v.tasks
    ensures Fails(Begun(v, l), ks)
  {
    if Deleting(v) {
      ks := CreateOverDelete(v, l);
    } else {
      ks := CreateOverWrite(v, l);
    }
  }

  lemma CreateOverDelete(v: Local, l: Label) returns (ks: seq<nat>)
    requires l.BeginCreate? && v.row.None? && Deleting(v) && l.k !in v.tasks
    ensures Fails(Begun(v, l), ks)
  {
    var j :| j in v.tasks && IsDelete(v.tasks[j]);
    var t := Begun(v, l);
    var before := DrainToTwo(Nothing, t, j, l.k);
    var w := Going(t, before);
    var after := DeleteAndCreate(w, j, w.tasks[j], l.k, w.tasks[l.k]);
    ks := before + after;
    FailsLater(t, before, after);
  }

  lemma CreateOverWrite(v: Local, l: Label) returns (ks: seq<nat>)
    requires Sound(v) && l.BeginCreate? && !Safe(v, l) && !Deleting(v) && l.k !in v.tasks
    ensures Fails(Begun(v, l), ks)
  {
    NoDeletes(v);
    var j :| j in v.tasks && !(IsUpdate(v.tasks[j]) && (Writes(v.tasks[j]) ==> v.tasks[j].webhook == l.webhook));
    var t := Begun(v, l);
    var before := DrainToTwo(RowOnly, t, j, l.k);
    var w := Going(t, before);
    var after;
    if v.tasks[j].SaveJID? {
      after := SaveAndCreate(w, j, w.tasks[j], l.k, w.tasks[l.k]);
    } else {
      after := UpdateAndCreate(w, j, w.tasks[j], l.k, w.tasks[l.k]);
    }
    ks := before + after;
    FailsLater(t, before, after);
  }

  lemma ConflictFails(v: Local, l: Label) returns (ks: seq<nat>)
    requires Sound(v) && Begins(l) && !Safe(v, l) && l.k !in v.tasks
    ensures Fails(Begun(v, l), ks)
  {
    match l
    case BeginCreate(_, _, _, _) => ks := CreateConflict(v, l);
    case BeginUpdate(_, _, _) => ks := UpdateConflict(v, l);
    case BeginConnect(_, _, _) => ks := ConnectConflict(v, l);
  }

  // ---- Safe exactly when nothing can go wrong ----------------------------------------------------------

  lemma {:induction false} GoingSound(v: Local, ks: seq<nat>)
    requires Sound(v)
    ensures Sound(Going(v, ks))
    decreases ks
  {
    if ks != [] {
      if ks[0] in v.tasks {
        ContinuedSound(v, ks[0]);
      }
      GoingSound(Went(v, ks[0]), ks[1..]);
    }
  }

  /** An operation may begin exactly when no order of what is then under way ends in disagreement. */
  lemma SafeIff(v: Local, l: Label)
    requires Sound(v) && Begins(l) && l.k !in v.tasks
    ensures Safe(v, l) <==> forall ks :: !Fails(Begun(v, l), ks)
  {
    if Safe(v, l) {
      BegunSound(v, l);
      forall ks ensures !Fails(Begun(v, l), ks) {
        GoingSound(Begun(v, l), ks);
        if Going(Begun(v, l), ks).tasks == map[] {
          IdleIsSame(Going(Begun(v, l), ks));
        }
      }
    } else {
      var ks := ConflictFails(v, l);
    }
  }
}
