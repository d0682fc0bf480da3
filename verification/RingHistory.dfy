/**
 * The circular buffer against a plain list of everything that ever arrived. The list applies an
 * edit to every message with that id, buffered or not; the buffer sees only what it still holds.
 */
module RingHistory {
  import opened Messages
  import opened Prelude
  import opened RingBuffer

  function EditAll(s: seq<Message>, id: string, body: Body): (r: seq<Message>)
    ensures |r| == |s|
    ensures forall i :: 0 <= i < |s| ==> r[i] == if id != "" && s[i].id == id then s[i].(body := body) else s[i]
  {
    seq(|s|, i requires 0 <= i < |s| => if id != "" && s[i].id == id then s[i].(body := body) else s[i])
  }

  function Recorded(h: seq<Message>, includeFromMe: bool, e: Event): seq<Message> {
    if !Admitted(e, includeFromMe) then h else
    match e
    case Received(m) => h + [m]
    case Edited(m) => EditAll(h, m.editedId, m.body)
    case Revoked(_) => h
  }

  /** Every admitted message, oldest first, each with all the edits that came after it. */
  function History(includeFromMe: bool, es: seq<Event>): seq<Message> {
    if es == [] then []
    else Recorded(History(includeFromMe, es[..|es| - 1]), includeFromMe, es[|es| - 1])
  }

  /** The positions in the run at which messages were admitted. */
  function Arrivals(includeFromMe: bool, es: seq<Event>): (r: seq<nat>)
    ensures forall k :: 0 <= k < |r| ==> r[k] < |es| && es[r[k]].Received? && Admitted(es[r[k]], includeFromMe)
    ensures forall j, k :: 0 <= j < k < |r| ==> r[j] < r[k]
  {
    if es == [] then [] else
      var a := Arrivals(includeFromMe, es[..|es| - 1]);
      if es[|es| - 1].Received? && Admitted(es[|es| - 1], includeFromMe) then a + [|es| - 1] else a
  }

  predicate IsEditOf(e: Event, includeFromMe: bool, id: string) {
    e.Edited? && Admitted(e, includeFromMe) && id != "" && e.m.editedId == id
  }

  /** At most one item carries `id`. */
  predicate Single(items: seq<Message>, id: string) {
    forall i, j :: 0 <= i < j < |items| ==> !(items[i].id == id && items[j].id == id)
  }

  /** Whenever an edit arrives, the buffer holds at most one copy of its target. */
  predicate Unambiguous(cap: nat, includeFromMe: bool, es: seq<Event>)
    requires 0 < cap
  {
    es == [] ||
    var prefix, e := es[..|es| - 1], es[|es| - 1];
    && Unambiguous(cap, includeFromMe, prefix)
    && (e.Edited? && Admitted(e, includeFromMe) ==> Single(Run(cap, includeFromMe, prefix).items, e.m.editedId))
  }

  /**
   * One edit reaches every buffered copy of its target exactly when the copies it does not
   * pick already carry the new content.
   */
  lemma {:induction false} EditReachesAllIff(v: View, cap: nat, id: string, body: Body)
    requires Fits(v, cap)
    ensures Amended(v, cap, id, body).items == EditAll(v.items, id, body) <==>
      forall k :: 0 <= k < |v.items| && id != "" && v.items[k].id == id && k != EditIndex(v, cap, id)
        ==> v.items[k].body == body
  {
    var left, right := Amended(v, cap, id, body).items, EditAll(v.items, id, body);
    if id != "" { EditIndexFinds(v, cap, id); }
    if left == right {
      forall k | 0 <= k < |v.items| && id != "" && v.items[k].id == id && k != EditIndex(v, cap, id)
        ensures v.items[k].body == body
      {
        assert left[k] == v.items[k] && right[k] == v.items[k].(body := body);
      }
    } else {
      var k :| 0 <= k < |v.items| && left[k] != right[k];
      assert right[k] == v.items[k].(body := body) && k != EditIndex(v, cap, id);
    }
  }

  /** While no copy carries the new content, an edit reaches all of them exactly when there is at most one. */
  lemma EditReachesAllIffSingle(v: View, cap: nat, id: string, body: Body)
    requires Fits(v, cap) && id != ""
    requires forall k :: 0 <= k < |v.items| && v.items[k].id == id ==> v.items[k].body != body
    ensures Amended(v, cap, id, body).items == EditAll(v.items, id, body) <==> Single(v.items, id)
  {
    if Single(v.items, id) {
      SingleReached(v, cap, id, body);
    } else {
      var i, j :| 0 <= i < j < |v.items| && v.items[i].id == id && v.items[j].id == id;
      EditReachesAllIff(v, cap, id, body);
      var other := if i == EditIndex(v, cap, id) then j else i;
      assert v.items[other].body != body;
    }
  }

  lemma TwoCopies(m: Message, includeFromMe: bool)
    requires !m.fromMe
    ensures Run(2, includeFromMe, [Received(m), Received(m)]) == View([m, m], 0)
  {
    var es := [Received(m), Received(m)];
    assert es[..1] == [Received(m)] && es[..1][..0] == [];
    assert Run(2, includeFromMe, es[..1]) == View([m], 1);
  }

  /** A redelivered message: the edit lands on the old copy and the newest keeps its old text. */
  lemma DuplicateKeepsOldText(m: Message, edit: Message, includeFromMe: bool)
    requires !m.fromMe && !edit.fromMe && m.id != "" && edit.editedId == m.id
    ensures Run(2, includeFromMe, [Received(m), Received(m), Edited(edit)]).items == [m.(body := edit.body), m]
  {
    var es := [Received(m), Received(m), Edited(edit)];
    TwoCopies(m, includeFromMe);
    assert es[..2] == [Received(m), Received(m)];
    assert Slots(View([m, m], 0), 2) == [m, m];
    assert EditIndex(View([m, m], 0), 2, m.id) == 0;
  }

  lemma LastNOfPush(h: seq<Message>, cap: nat, m: Message)
    requires 0 < cap
    ensures LastN(LastN(h, cap) + [m], cap) == LastN(h + [m], cap)
  {
  }

  lemma LastNOfEdit(h: seq<Message>, cap: nat, id: string, body: Body)
    ensures EditAll(LastN(h, cap), id, body) == LastN(EditAll(h, id, body), cap)
  {
  }

  lemma SingleReached(v: View, cap: nat, id: string, body: Body)
    requires Fits(v, cap) && Single(v.items, id)
    ensures Amended(v, cap, id, body).items == EditAll(v.items, id, body)
  {
    var j := EditIndex(v, cap, id);
    EditReachesAllIff(v, cap, id, body);
    if id != "" { EditIndexFinds(v, cap, id); }
    assert forall k :: 0 <= k < |v.items| && id != "" && v.items[k].id == id ==> k == j;
  }

  /** With unambiguous edits the buffer is the end of the history: aging out loses nothing else. */
  lemma {:induction false} BufferIsHistory(cap: nat, includeFromMe: bool, es: seq<Event>)
    requires 0 < cap && Unambiguous(cap, includeFromMe, es)
    ensures Run(cap, includeFromMe, es).items == LastN(History(includeFromMe, es), cap)
  {
    if es != [] {
      var prefix, m := es[..|es| - 1], es[|es| - 1].m;
      BufferIsHistory(cap, includeFromMe, prefix);
      var v, h := Run(cap, includeFromMe, prefix), History(includeFromMe, prefix);
      if Admitted(es[|es| - 1], includeFromMe) {
        match es[|es| - 1]
        case Received(_) => LastNOfPush(h, cap, m);
        case Edited(_) =>
          SingleReached(v, cap, m.editedId, m.body);
          LastNOfEdit(h, cap, m.editedId, m.body);
        case Revoked(_) =>
      }
    }
  }

  function Ids(s: seq<Message>): (r: seq<string>)
    ensures |r| == |s| && forall i :: 0 <= i < |s| ==> r[i] == s[i].id
  {
    seq(|s|, i requires 0 <= i < |s| => s[i].id)
  }

  /** Later events never renumber or rename what already arrived. */
  lemma {:induction false} HistoryGrows(includeFromMe: bool, es: seq<Event>, k: nat)
    requires k <= |es|
    ensures Ids(History(includeFromMe, es[..k])) <= Ids(History(includeFromMe, es))
  {
    if k < |es| {
      HistoryGrows(includeFromMe, es[..|es| - 1], k);
      assert es[..|es| - 1][..k] == es[..k];
    } else {
      assert es[..k] == es;
    }
  }

  lemma DistinctIsSingle(h: seq<Message>, cap: nat, id: string)
    requires Distinct(Ids(h))
    ensures Single(LastN(h, cap), id)
  {
    var items, ids := LastN(h, cap), Ids(h);
    var off := |h| - |items|;
    forall i, j | 0 <= i < j < |items|
      ensures items[i].id != id || items[j].id != id
    {
      assert ids[off + i] == items[i].id && ids[off + j] == items[j].id;
    }
  }

  lemma DistinctPrefix<T>(s: seq<T>, t: seq<T>)
    requires s <= t && Distinct(t)
    ensures Distinct(s)
  {
    forall i, j | 0 <= i < j < |s| ensures s[i] != s[j] {
      assert s[i] == t[i] && s[j] == t[j];
    }
  }

  /** Distinct message ids are enough for every edit to be unambiguous. */
  lemma {:induction false} DistinctIsUnambiguous(cap: nat, includeFromMe: bool, es: seq<Event>)
    requires 0 < cap && Distinct(Ids(History(includeFromMe, es)))
    ensures Unambiguous(cap, includeFromMe, es)
  {
    if es != [] {
      var prefix := es[..|es| - 1];
      HistoryGrows(includeFromMe, es, |es| - 1);
      DistinctPrefix(Ids(History(includeFromMe, prefix)), Ids(History(includeFromMe, es)));
      DistinctIsSingle(History(includeFromMe, prefix), cap, es[|es| - 1].m.editedId);
      DistinctIsUnambiguous(cap, includeFromMe, prefix);
      BufferIsHistory(cap, includeFromMe, prefix);
    }
  }

  lemma {:induction false} HistoryLength(includeFromMe: bool, es: seq<Event>)
    ensures |History(includeFromMe, es)| == |Arrivals(includeFromMe, es)|
  {
    if es != [] {
      HistoryLength(includeFromMe, es[..|es| - 1]);
    }
  }

  /** The content of the message that arrived at position `i`, after the whole run. */
  function FinalBody(includeFromMe: bool, es: seq<Event>, i: nat): Body
    requires i < |es|
  {
    if |es| == i + 1 then es[i].m.body
    else if IsEditOf(es[|es| - 1], includeFromMe, es[i].m.id) then es[|es| - 1].m.body
    else FinalBody(includeFromMe, es[..|es| - 1], i)
  }

  /** It is the content of the last edit after the arrival, or of the message itself (j == i). */
  lemma {:induction false} LastEditWins(includeFromMe: bool, es: seq<Event>, i: nat, j: nat)
    requires i <= j < |es|
    requires j == i || IsEditOf(es[j], includeFromMe, es[i].m.id)
    requires forall l :: j < l < |es| ==> !IsEditOf(es[l], includeFromMe, es[i].m.id)
    ensures FinalBody(includeFromMe, es, i) == es[j].m.body
  {
    if j < |es| - 1 {
      LastEditWins(includeFromMe, es[..|es| - 1], i, j);
    }
  }

  /** `m` is the message that arrived at position `i`, with its last edit applied. */
  predicate IsArrival(m: Message, includeFromMe: bool, es: seq<Event>, i: nat) {
    i < |es| && m == es[i].m.(body := FinalBody(includeFromMe, es, i))
  }

  /** The k-th entry of the history is the k-th arrival. */
  lemma {:induction false} HistoryEntry(includeFromMe: bool, es: seq<Event>, k: nat)
    requires k < |Arrivals(includeFromMe, es)|
    ensures |History(includeFromMe, es)| == |Arrivals(includeFromMe, es)|
    ensures IsArrival(History(includeFromMe, es)[k], includeFromMe, es, Arrivals(includeFromMe, es)[k])
  {
    var prefix := es[..|es| - 1];
    HistoryLength(includeFromMe, prefix);
    HistoryLength(includeFromMe, es);
    if k < |Arrivals(includeFromMe, prefix)| {
      HistoryEntry(includeFromMe, prefix, k);
    }
  }

  /** A positive limit gives a prefix of what an unlimited request gives. */
  lemma {:induction false} RecentIsPrefix(v: View, limit: nat)
    requires 0 < limit
    ensures Newest(v.items, limit) <= Newest(v.items, 0)
  {
  }

  lemma NewestOfLast(h: seq<Message>, cap: nat, limit: int)
    requires 0 < cap
    ensures
      var out := Newest(LastN(h, cap), limit);
      var held := if |h| < cap then |h| else cap;
      && |out| == (if limit <= 0 || limit > held then held else limit)
      && forall r :: 0 <= r < |out| ==> out[r] == h[|h| - 1 - r]
  {
  }

  /** `out` is the newest `count` of the arrivals, newest first, as edited since. */
  predicate IsRecent(out: seq<Message>, includeFromMe: bool, es: seq<Event>, arrivals: seq<nat>, count: nat) {
    |out| == count <= |arrivals|
    && forall r :: 0 <= r < |out| ==> IsArrival(out[r], includeFromMe, es, arrivals[|arrivals| - 1 - r])
  }

  lemma HistoryIsRecent(out: seq<Message>, includeFromMe: bool, es: seq<Event>)
    requires |out| <= |History(includeFromMe, es)|
    requires forall r :: 0 <= r < |out| ==> out[r] == History(includeFromMe, es)[|History(includeFromMe, es)| - 1 - r]
    ensures IsRecent(out, includeFromMe, es, Arrivals(includeFromMe, es), |out|)
  {
    HistoryLength(includeFromMe, es);
    EachIsArrival(out, includeFromMe, es, Arrivals(includeFromMe, es));
  }

  lemma EachIsArrival(out: seq<Message>, includeFromMe: bool, es: seq<Event>, arrivals: seq<nat>)
    requires arrivals == Arrivals(includeFromMe, es) && |out| <= |arrivals| == |History(includeFromMe, es)|
    requires forall r :: 0 <= r < |out| ==> out[r] == History(includeFromMe, es)[|arrivals| - 1 - r]
    ensures forall r :: 0 <= r < |out| ==> IsArrival(out[r], includeFromMe, es, arrivals[|arrivals| - 1 - r])
  {
    forall r | 0 <= r < |out|
      ensures IsArrival(out[r], includeFromMe, es, arrivals[|arrivals| - 1 - r])
    {
      HistoryEntry(includeFromMe, es, |arrivals| - 1 - r);
    }
  }

  /** How many messages a request is answered with. */
  function Answered(arrivals: nat, cap: nat, limit: int): nat {
    var held := if arrivals < cap then arrivals else cap;
    if limit <= 0 || limit > held then held else limit
  }

  lemma NewestIsRecent(cap: nat, includeFromMe: bool, es: seq<Event>, limit: int)
    requires 0 < cap
    ensures
      var arrivals := Arrivals(includeFromMe, es);
      IsRecent(Newest(LastN(History(includeFromMe, es), cap), limit), includeFromMe, es, arrivals,
               Answered(|arrivals|, cap, limit))
  {
    HistoryLength(includeFromMe, es);
    NewestOfLast(History(includeFromMe, es), cap, limit);
    HistoryIsRecent(Newest(LastN(History(includeFromMe, es), cap), limit), includeFromMe, es);
  }

  /**
   * What `Ring.Recent` returns after any run with unambiguous edits: the newest arrivals in
   * reverse order, at most `cap` of them, each with its last edit applied.
   */
  lemma RecentAfterRun(cap: nat, includeFromMe: bool, es: seq<Event>, limit: int)
    requires 0 < cap && Unambiguous(cap, includeFromMe, es)
    ensures
      var arrivals := Arrivals(includeFromMe, es);
      IsRecent(Newest(Run(cap, includeFromMe, es).items, limit), includeFromMe, es, arrivals,
               Answered(|arrivals|, cap, limit))
  {
    BufferIsHistory(cap, includeFromMe, es);
    NewestIsRecent(cap, includeFromMe, es, limit);
  }
}
