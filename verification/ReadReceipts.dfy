/**
 * The session's inbound side: every admitted event goes to the buffer and the webhooks, and the
 * latest message of each (chat, sender) is remembered until a reply acknowledges it.
 */
module ReadReceipts {
  import opened Messages
  import opened Prelude
  import opened Recipient
  import RingBuffer

  datatype Key = Key(chat: string, sender: string)
  datatype Target = Target(id: string, phone: string)

  type Unread = map<Key, Target>

  /** Critical sections that touch the map: an inbound event, or a reply about to be typed. */
  datatype Act = Inbound(e: Event) | Reply(to: string)

  predicate Tracked(a: Act, includeFromMe: bool) {
    a.Inbound? && a.e.Received? && Admitted(a.e, includeFromMe) && !a.e.m.fromMe && a.e.m.id != ""
  }

  function KeyOf(m: Message): Key { Key(m.chat, m.sender) }

  function TargetOf(m: Message): Target { Target(m.id, m.phone) }

  /**
   * A reply acknowledges a chat by its address, or by the sender's phone number wherever that
   * sender wrote, group chats included. An address without a number matches by chat only.
   */
  predicate Matches(k: Key, t: Target, to: string) {
    k.chat == to || (PhoneFromJID(to) != "" && t.phone == PhoneFromJID(to))
  }

  function AfterReply(u: Unread, to: string): Unread {
    map k | k in u && !Matches(k, u[k], to) :: u[k]
  }

  function After(u: Unread, includeFromMe: bool, a: Act): Unread {
    if Tracked(a, includeFromMe) then u[KeyOf(a.e.m) := TargetOf(a.e.m)]
    else if a.Reply? then AfterReply(u, a.to)
    else u
  }

  function Fold(includeFromMe: bool, acts: seq<Act>): Unread {
    if acts == [] then map[]
    else After(Fold(includeFromMe, acts[..|acts| - 1]), includeFromMe, acts[|acts| - 1])
  }

  // ---- The session fields and the methods that change them ---------------------------------

  datatype Receipt = Receipt(key: Key, id: string)

  class Inbox {
    var unread: Unread
    const ring: RingBuffer.Ring
    const includeFromMe: bool

    ghost predicate Valid()
      reads this, ring, ring.buf
    {
      ring.Valid()
    }

    constructor (ringSize: int, includeFromMe: bool)
      ensures Valid() && fresh(ring) && fresh(ring.buf)
      ensures unread == map[] && ring.Contents() == RingBuffer.EMPTY
      ensures this.includeFromMe == includeFromMe
    {
      ring := new RingBuffer.Ring(ringSize);
      this.includeFromMe := includeFromMe;
      unread := map[];
    }

    /** Applies one event; `delivered` says whether it is handed on to the webhooks. */
    method OnMessage(e: Event) returns (delivered: bool)
      requires Valid()
      modifies this, ring, ring.buf
      ensures Valid()
      ensures delivered == Admitted(e, includeFromMe)
      ensures ring.Contents() == RingBuffer.Apply(old(ring.Contents()), ring.buf.Length, includeFromMe, e)
      ensures unread == After(old(unread), includeFromMe, Inbound(e))
      ensures delivered <==> !e.m.fromMe || includeFromMe
      ensures !delivered || e.Revoked? ==> ring.Contents() == old(ring.Contents())
      ensures unread ==
        if e.Received? && !e.m.fromMe && e.m.id != ""
        then old(unread)[Key(e.m.chat, e.m.sender) := Target(e.m.id, e.m.phone)]
        else old(unread)
    {
      if e.m.fromMe && !includeFromMe {
        return false;
      }
      match e {
        case Received(m) =>
          ring.Append(m);
          if !m.fromMe && m.id != "" {
            TrackUnread(m);
          }
        case Edited(m) =>
          var _ := ring.Update(m.editedId, m.body);
        case Revoked(_) =>
      }
      return true;
    }

    method TrackUnread(m: Message)
      modifies `unread
      ensures unread == old(unread)[KeyOf(m) := TargetOf(m)]
    {
      unread := unread[KeyOf(m) := TargetOf(m)];
    }

    /**
     * Takes every matching entry out of the map, then issues one receipt for each, in no
     * particular order. Whether a receipt call succeeds is only logged, so it plays no part.
     */
    method MarkChatRead(to: string) returns (calls: seq<Receipt>)
      modifies `unread
      ensures unread == AfterReply(old(unread), to)
      ensures forall k, id :: Receipt(k, id) in calls <==>
        k in old(unread) && Matches(k, old(unread)[k], to) && id == old(unread)[k].id
      ensures forall i, j :: 0 <= i < j < |calls| ==> calls[i].key != calls[j].key
      ensures PhoneFromJID(to) == "" ==>
        && (forall k :: k in unread <==> k in old(unread) && k.chat != to)
        && forall k, id :: Receipt(k, id) in calls <==> k in old(unread) && k.chat == to && id == old(unread)[k].id
      ensures PhoneFromJID(to) != "" ==>
        && (forall k :: k in unread <==> k in old(unread) && k.chat != to && old(unread)[k].phone != PhoneFromJID(to))
        && forall k, id :: Receipt(k, id) in calls <==>
             k in old(unread) && (k.chat == to || old(unread)[k].phone == PhoneFromJID(to)) && id == old(unread)[k].id
    {
      var targets: seq<Receipt> := [];
      ghost var u := unread;
      var todo := unread.Keys;
      while todo != {}
        invariant todo <= u.Keys
        invariant unread == map k | k in u && (k in todo || !Matches(k, u[k], to)) :: u[k]
        invariant forall k, id :: Receipt(k, id) in targets <==>
          k in u && k !in todo && Matches(k, u[k], to) && id == u[k].id
        invariant forall i, j :: 0 <= i < j < |targets| ==> targets[i].key != targets[j].key
      {
        var k :| k in todo;
        if Matches(k, unread[k], to) {
          assert forall i :: 0 <= i < |targets| ==> Receipt(targets[i].key, targets[i].id) in targets;
          targets := targets + [Receipt(k, unread[k].id)];
          unread := unread - {k};
        }
        todo := todo - {k};
      }
      calls := [];
      for i := 0 to |targets|
        invariant calls == targets[..i]
      {
        calls := calls + [targets[i]];
      }
    }
  }

  // ---- What the map means --------------------------------------------------------------------

  /** Message `i` is the latest of its chat and sender and no reply since then has matched it. */
  predicate Pending(includeFromMe: bool, acts: seq<Act>, i: nat) {
    && i < |acts|
    && Tracked(acts[i], includeFromMe)
    && forall j :: i < j < |acts| ==> !Clears(includeFromMe, acts[j], acts[i].e.m)
  }

  /** `a` takes the place of `m`, or acknowledges it. */
  predicate Clears(includeFromMe: bool, a: Act, m: Message) {
    || (Tracked(a, includeFromMe) && KeyOf(a.e.m) == KeyOf(m))
    || (a.Reply? && Matches(KeyOf(m), TargetOf(m), a.to))
  }

  lemma PendingStep(includeFromMe: bool, acts: seq<Act>, i: nat)
    requires i < |acts| - 1
    ensures Pending(includeFromMe, acts, i) <==>
      Pending(includeFromMe, acts[..|acts| - 1], i) && !Clears(includeFromMe, acts[|acts| - 1], acts[i].e.m)
  {
    var n := |acts| - 1;
    assert forall j :: 0 <= j < n ==> acts[..n][j] == acts[j];
    if Pending(includeFromMe, acts[..n], i) && !Clears(includeFromMe, acts[n], acts[i].e.m) {
      forall j | i < j < |acts| ensures !Clears(includeFromMe, acts[j], acts[i].e.m) {
        if j < n { assert acts[..n][j] == acts[j]; }
      }
    }
  }

  /** A pending message is what the map holds for its chat and sender. */
  lemma {:induction false} PendingIsHeld(includeFromMe: bool, acts: seq<Act>, i: nat)
    requires Pending(includeFromMe, acts, i)
    ensures
      var u, m := Fold(includeFromMe, acts), acts[i].e.m;
      KeyOf(m) in u && u[KeyOf(m)] == TargetOf(m)
  {
    if i < |acts| - 1 {
      PendingStep(includeFromMe, acts, i);
      PendingIsHeld(includeFromMe, acts[..|acts| - 1], i);
    }
  }

  /** Whatever the map holds is a pending message. */
  lemma {:induction false} HeldIsPending(includeFromMe: bool, acts: seq<Act>, k: Key) returns (i: nat)
    requires k in Fold(includeFromMe, acts)
    ensures Pending(includeFromMe, acts, i) && KeyOf(acts[i].e.m) == k
    ensures Fold(includeFromMe, acts)[k] == TargetOf(acts[i].e.m)
  {
    var n := |acts| - 1;
    if Tracked(acts[n], includeFromMe) && KeyOf(acts[n].e.m) == k {
      i := n;
    } else {
      i := HeldIsPending(includeFromMe, acts[..n], k);
      PendingStep(includeFromMe, acts, i);
    }
  }

  /** The map is exactly the pending messages of the whole history. */
  lemma {:induction false} UnreadIsPending(includeFromMe: bool, acts: seq<Act>, k: Key, t: Target)
    ensures (k in Fold(includeFromMe, acts) && Fold(includeFromMe, acts)[k] == t) <==>
      exists i: nat :: Pending(includeFromMe, acts, i) && KeyOf(acts[i].e.m) == k && TargetOf(acts[i].e.m) == t
  {
    var u := Fold(includeFromMe, acts);
    if k in u && u[k] == t {
      var i := HeldIsPending(includeFromMe, acts, k);
    }
    if i: nat :| Pending(includeFromMe, acts, i) && KeyOf(acts[i].e.m) == k && TargetOf(acts[i].e.m) == t {
      PendingIsHeld(includeFromMe, acts, i);
    }
  }

  /** The reply at position `r` sends the receipt for the message that arrived at position `i`. */
  predicate Acknowledges(includeFromMe: bool, acts: seq<Act>, r: nat, i: nat) {
    && r < |acts| && acts[r].Reply?
    && Pending(includeFromMe, acts[..r], i)
    && Matches(KeyOf(acts[i].e.m), TargetOf(acts[i].e.m), acts[r].to)
  }

  /** The entries a reply takes out are the messages it acknowledges, no others. */
  lemma ReplyTakes(includeFromMe: bool, acts: seq<Act>, r: nat, k: Key)
    requires r < |acts| && acts[r].Reply?
    ensures
      var u := Fold(includeFromMe, acts[..r]);
      (k in u && k !in After(u, includeFromMe, acts[r])) <==>
        exists i: nat :: Acknowledges(includeFromMe, acts, r, i) && KeyOf(acts[i].e.m) == k
  {
    var u := Fold(includeFromMe, acts[..r]);
    if k in u && Matches(k, u[k], acts[r].to) {
      var i := HeldIsPending(includeFromMe, acts[..r], k);
      assert Acknowledges(includeFromMe, acts, r, i);
    }
    if i: nat :| Acknowledges(includeFromMe, acts, r, i) && KeyOf(acts[i].e.m) == k {
      PendingIsHeld(includeFromMe, acts[..r], i);
    }
  }

  lemma NotPendingAgain(includeFromMe: bool, acts: seq<Act>, r: nat, s: nat, i: nat)
    requires Acknowledges(includeFromMe, acts, r, i) && r < s <= |acts|
    ensures !Pending(includeFromMe, acts[..s], i)
  {
    assert acts[..s][r] == acts[r] && acts[..s][i] == acts[..r][i];
    assert Clears(includeFromMe, acts[..s][r], acts[..s][i].e.m);
  }

  /** Over a whole run a message is receipted at most once, whatever became of the receipt. */
  lemma {:induction false} ReceiptedOnce(includeFromMe: bool, acts: seq<Act>, r: nat, s: nat, i: nat)
    requires Acknowledges(includeFromMe, acts, r, i) && Acknowledges(includeFromMe, acts, s, i)
    ensures r == s
  {
    if r < s {
      NotPendingAgain(includeFromMe, acts, r, s, i);
    } else if s < r {
      NotPendingAgain(includeFromMe, acts, s, r, i);
    }
  }

  /**
   * A reply to a phone number, or to a device of that account, leaves exactly the messages of other chats
   * from other numbers: what that person wrote in any group is acknowledged too.
   */
  lemma PhoneReachesGroups(u: Unread, number: string, device: string)
    requires number != "" && '@' !in number && ':' !in number
    requires '@' !in device && (device == "" || device[0] == ':')
    ensures
      var to := number + device + "@" + "s.whatsapp.net";
      forall k :: k in AfterReply(u, to) <==> k in u && k.chat != to && u[k].phone != number
  {
    PhoneOfUser(number, device);
  }

  /**
   * A reply to any other address, such as a group's or one with a hidden number, leaves exactly the
   * messages of other chats, whatever is known or not known of the numbers of those who wrote them.
   */
  lemma OthersReachTheirChat(u: Unread, user: string, server: string)
    requires '@' !in user
    requires server != "s.whatsapp.net" || user == "" || user[0] == ':'
    ensures
      var to := user + "@" + server;
      forall k :: k in AfterReply(u, to) <==> k in u && k.chat != to
  {
    NoPhoneInAddress(user, server);
  }

  /** So does a reply to what is no address at all. */
  lemma NoAddressReachesItsChat(u: Unread, to: string)
    requires '@' !in to
    ensures forall k :: k in AfterReply(u, to) <==> k in u && k.chat != to
  {
    assert IndexOf(to, '@') == |to|;
  }
}
