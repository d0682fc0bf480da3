/**
 * The per-session buffer of recent inbound messages: a circular array edited in place (`Ring`),
 * the value it stands for (`View`), and the history of events that the value must agree with.
 */
module RingBuffer {
  import opened Messages

  /** The buffered messages, oldest first, and the array slot the next one will be written to. */
  datatype View = View(items: seq<Message>, next: nat)

  const EMPTY: View := View([], 0)

  /** Until the array has filled up once, slots are written in order from the first. */
  predicate Fits(v: View, cap: nat) {
    && v.next < cap
    && |v.items| <= cap
    && (|v.items| < cap ==> v.next == |v.items|)
  }

  function Pushed(v: View, cap: nat, m: Message): (r: View)
    requires Fits(v, cap)
    ensures Fits(r, cap)
  {
    View(LastN(v.items + [m], cap), if v.next + 1 == cap then 0 else v.next + 1)
  }

  /** Where `id` first occurs in `s`; |s| when it does not. */
  function FirstIndex(s: seq<Message>, id: string): (r: nat)
    ensures r <= |s|
    ensures r < |s| ==> s[r].id == id
    ensures forall j :: 0 <= j < r ==> s[j].id != id
  {
    if s == [] || s[0].id == id then 0 else 1 + FirstIndex(s[1..], id)
  }

  /** How many items precede, in age, the one in the lowest slot. */
  function Cut(v: View, cap: nat): (c: nat)
    requires Fits(v, cap)
    ensures c <= |v.items|
  {
    if |v.items| < cap then 0 else cap - v.next
  }

  /** The written part of the array, lowest slot first. */
  function Slots(v: View, cap: nat): (s: seq<Message>)
    requires Fits(v, cap)
    ensures |s| == |v.items|
  {
    v.items[Cut(v, cap)..] + v.items[..Cut(v, cap)]
  }

  /** Which item sits in slot `p`. */
  function ItemAt(v: View, cap: nat, p: nat): (j: nat)
    requires Fits(v, cap) && p < |v.items|
    ensures j < |v.items| && v.items[j] == Slots(v, cap)[p]
  {
    if p < |v.items| - Cut(v, cap) then p + Cut(v, cap) else p + Cut(v, cap) - |v.items|
  }

  /** Which slot holds item `j`. */
  function SlotOf(v: View, cap: nat, j: nat): (p: nat)
    requires Fits(v, cap) && j < |v.items|
    ensures p < |v.items| && ItemAt(v, cap, p) == j
  {
    if j < Cut(v, cap) then j + |v.items| - Cut(v, cap) else j - Cut(v, cap)
  }

  /**
   * The item an edit of `id` changes, or |items|. The scan goes by array slot, so with several
   * copies of one id it is the copy in the lowest slot that is changed, not the newest.
   */
  function EditIndex(v: View, cap: nat, id: string): (j: nat)
    requires Fits(v, cap)
    ensures j <= |v.items|
    ensures j < |v.items| ==> id != "" && v.items[j].id == id
  {
    var p := FirstIndex(Slots(v, cap), id);
    if id == "" || p == |v.items| then |v.items| else ItemAt(v, cap, p)
  }

  /** The scan misses nothing: it finds no item only if there is none. */
  lemma EditIndexFinds(v: View, cap: nat, id: string)
    requires Fits(v, cap) && id != ""
    ensures EditIndex(v, cap, id) == |v.items| <==> forall k :: 0 <= k < |v.items| ==> v.items[k].id != id
  {
    if EditIndex(v, cap, id) == |v.items| {
      forall k | 0 <= k < |v.items| ensures v.items[k].id != id {
        assert Slots(v, cap)[SlotOf(v, cap, k)] == v.items[k];
      }
    }
  }

  function Amended(v: View, cap: nat, id: string, body: Body): (r: View)
    requires Fits(v, cap)
    ensures Fits(r, cap)
  {
    var j := EditIndex(v, cap, id);
    if j == |v.items| then v else v.(items := v.items[j := v.items[j].(body := body)])
  }

  /** One inbound event as the session applies it to its buffer. */
  function Apply(v: View, cap: nat, includeFromMe: bool, e: Event): (r: View)
    requires Fits(v, cap)
    ensures Fits(r, cap)
  {
    if !Admitted(e, includeFromMe) then v else
    match e
    case Received(m) => Pushed(v, cap, m)
    case Edited(m) => Amended(v, cap, m.editedId, m.body)
    case Revoked(_) => v
  }

  /** The buffer after a whole run of events. */
  function Run(cap: nat, includeFromMe: bool, es: seq<Event>): (r: View)
    requires 0 < cap
    ensures Fits(r, cap)
  {
    if es == [] then EMPTY
    else Apply(Run(cap, includeFromMe, es[..|es| - 1]), cap, includeFromMe, es[|es| - 1])
  }

  // ---- The circular array ----------------------------------------------------------------

  /** What an array means: `next` and `n` as in `Ring`. */
  function Reading(slots: seq<Message>, next: nat, n: nat): (v: View)
    requires next < |slots| && n <= |slots| && (n < |slots| ==> next == n)
    ensures Fits(v, |slots|) && |v.items| == n
  {
    View(if n < |slots| then slots[..n] else slots[next..] + slots[..next], next)
  }

  lemma SlotsOfReading(slots: seq<Message>, next: nat, n: nat)
    requires next < |slots| && n <= |slots| && (n < |slots| ==> next == n)
    ensures Slots(Reading(slots, next, n), |slots|) == slots[..n]
  {
  }

  lemma ReadingUpdate(slots: seq<Message>, next: nat, n: nat, p: nat, x: Message)
    requires next < |slots| && p < n <= |slots| && (n < |slots| ==> next == n)
    ensures var v := Reading(slots, next, n);
      Reading(slots[p := x], next, n) == v.(items := v.items[ItemAt(v, |slots|, p) := x])
  {
    if n < |slots| {
      assert slots[p := x][..n] == slots[..n][p := x];
    } else {
      Rotated(slots, next, p, x);
    }
  }

  lemma Rotated(s: seq<Message>, next: nat, p: nat, x: Message)
    requires next < |s| && p < |s|
    ensures var t := s[p := x];
      t[next..] + t[..next] == (s[next..] + s[..next])[if p < next then p + |s| - next else p - next := x]
  {
  }

  /** The slot `i` places before the next one to write holds the i-th newest message. */
  lemma ReadingNewest(slots: seq<Message>, next: nat, n: nat, i: nat)
    requires next < |slots| && i < n <= |slots| && (n < |slots| ==> next == n)
    ensures Reading(slots, next, n).items[n - 1 - i] == slots[if i < next then next - 1 - i else next - 1 - i + |slots|]
  {
  }

  lemma AllNewest(slots: seq<Message>, next: nat, n: nat, items: seq<Message>)
    requires next < |slots| && n <= |slots| && (n < |slots| ==> next == n)
    requires items == Reading(slots, next, n).items
    ensures Backwards(slots, next, items)
  {
    forall i | 0 <= i < n ensures items[n - 1 - i] == slots[SlotBack(next, i, |slots|)] {
      ReadingNewest(slots, next, n, i);
    }
  }

  /** Going back from the next slot to write finds the items last first. */
  predicate Backwards(slots: seq<Message>, next: nat, items: seq<Message>)
    requires next < |slots| && |items| <= |slots|
  {
    forall i :: 0 <= i < |items| ==> items[|items| - 1 - i] == slots[SlotBack(next, i, |slots|)]
  }

  lemma BackwardsIsNewest(slots: seq<Message>, next: nat, items: seq<Message>, limit: int, out: seq<Message>)
    requires next < |slots| && |items| <= |slots| && Backwards(slots, next, items)
    requires |out| == if limit <= 0 || limit > |items| then |items| else limit
    requires forall k :: 0 <= k < |out| ==> out[k] == slots[SlotBack(next, k, |slots|)]
    ensures out == Newest(items, limit)
  {
  }

  lemma ScanStops(s: seq<Message>, id: string, i: nat)
    requires i <= |s| && (i < |s| ==> s[i].id == id)
    requires forall j :: 0 <= j < i ==> s[j].id != id
    ensures FirstIndex(s, id) == i
  {
  }

  lemma WrapOnce(x: int, len: nat)
    requires 0 <= x < 2 * len
    ensures x % len == if x < len then x else x - len
  {
  }

  function SlotAfter(p: nat, len: nat): (r: nat)
    requires p < len
    ensures r == if p + 1 == len then 0 else p + 1
  {
    WrapOnce(p + 1, len);
    (p + 1) % len
  }

  /** The slot `i` places before the one just before `p`, going round. */
  function SlotBack(p: nat, i: nat, len: nat): (r: nat)
    requires p < len && i < len
    ensures r == if i < p then p - 1 - i else p - 1 - i + len
  {
    WrapOnce(p - 1 - i + len, len);
    (p - 1 - i + len) % len
  }

  class Ring {
    const buf: array<Message>
    var next: nat  // the slot the next append writes
    var n: nat     // how many slots hold a message

    ghost predicate Valid()
      reads this, buf
    {
      && next < buf.Length
      && n <= buf.Length
      && (n < buf.Length ==> next == n)
      && forall i :: n <= i < buf.Length ==> buf[i] == BLANK
    }

    /** The array read oldest message first. */
    ghost function Contents(): (v: View)
      reads this, buf
      requires Valid()
      ensures Fits(v, buf.Length) && |v.items| == n
    {
      Reading(buf[..], next, n)
    }

    constructor (capacity: int)
      ensures Valid() && fresh(buf) && Contents() == EMPTY
      ensures buf.Length == if capacity <= 0 then 1 else capacity
    {
      var size := if capacity <= 0 then 1 else capacity;
      buf := new Message[size](_ => BLANK);
      next, n := 0, 0;
    }

    method Len() returns (r: nat)
      requires Valid()
      ensures r == |Contents().items|
    {
      r := n;
    }

    method Append(m: Message)
      requires Valid()
      modifies this, buf
      ensures Valid()
      ensures Contents() == Pushed(old(Contents()), buf.Length, m)
    {
      ghost var before, was := Contents().items, next;
      buf[next] := m;
      next := SlotAfter(next, buf.Length);
      if n < buf.Length {
        n := n + 1;
      }
      assert Contents().items == LastN(before + [m], buf.Length) by {
        if n == buf.Length {
          assert next == 0 ==> buf[..next] == [];
          assert buf[next..] + buf[..next] == (before + [m])[|before| + 1 - buf.Length..];
        }
      }
    }

    /** Replaces the body of the first slot holding `id`, in place. */
    method Update(id: string, body: Body) returns (found: bool)
      requires Valid()
      modifies buf
      ensures Valid()
      ensures found <==> EditIndex(old(Contents()), buf.Length, id) < |old(Contents()).items|
      ensures Contents() == Amended(old(Contents()), buf.Length, id, body)
    {
      if id == "" {
        return false;
      }
      ghost var v := Contents();
      ghost var slots := buf[..];
      SlotsOfReading(slots, next, n);
      for i := 0 to buf.Length
        invariant forall j :: 0 <= j < i ==> buf[j].id != id
        invariant buf[..] == slots
      {
        if buf[i].id == id {
          ScanStops(slots[..n], id, i);
          ReadingUpdate(slots, next, n, i, slots[i].(body := body));
          buf[i] := buf[i].(body := body);
          assert buf[..] == slots[i := slots[i].(body := body)];
          return true;
        }
      }
      ScanStops(slots[..n], id, n);
      return false;
    }

    /** Up to `limit` messages, newest first, in a fresh sequence. */
    method Recent(limit: int) returns (out: seq<Message>)
      requires Valid()
      ensures out == Newest(Contents().items, limit)
    {
      var count := if limit <= 0 || limit > n then n else limit;
      out := [];
      for i := 0 to count
        invariant |out| == i
        invariant forall k :: 0 <= k < i ==> out[k] == buf[SlotBack(next, k, buf.Length)]
      {
        out := out + [buf[SlotBack(next, i, buf.Length)]];
      }
      AllNewest(buf[..], next, n, Contents().items);
      BackwardsIsNewest(buf[..], next, Contents().items, limit, out);
    }
  }
}
