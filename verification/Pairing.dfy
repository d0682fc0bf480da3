/**
 * Connection status and pairing codes. Every critical section that touches them is one `Change`;
 * the methods of `Account` are those sections, and `ConsumeQR` is the loop that reads the pairing
 * channel while other sections run in between.
 */
module Pairing {
  import opened Prelude

  datatype Status = Created | InPairing | Connected | Disconnected | LoggedOut

  /** Times are instants in nanoseconds. */
  datatype QR = QR(code: string, expires: int, seconds: int)

  datatype State = State(status: Status, hasClient: bool, code: string, expires: int)

  const NO_TIME: int := 0
  const SECOND: int := 1_000_000_000

  datatype Change =
    | Code(code: string, at: int, timeout: int)  // a pairing code arrives
    | LoginReset                                 // login installs a fresh client
    | Connect                                    // second half of markConnected
    | Disconnect                                 // connection lost
    | LogOut                                     // unlinked from the phone, or logout succeeded
    | FailPairing
    | Attach                                     // a paired device is loaded on boot
    | AttachFailed

  function Cleared(s: State): State { s.(code := "", expires := NO_TIME) }

  function Apply(s: State, c: Change): State {
    match c
    case Code(code, at, timeout) =>
      State(if s.status != Connected then InPairing else Connected, s.hasClient, code, at + timeout)
    case LoginReset => Cleared(s).(status := InPairing, hasClient := true)
    case Connect => Cleared(s).(status := Connected)
    case Disconnect => s.(status := if s.status == Connected then Disconnected else s.status)
    case LogOut => Cleared(s).(status := LoggedOut)
    case FailPairing => Cleared(s).(status := if s.status == InPairing then Created else s.status, hasClient := false)
    case Attach => s.(status := if s.status != Connected then Disconnected else Connected, hasClient := true)
    case AttachFailed => s.(status := LoggedOut)
  }

  function Fold(s: State, cs: seq<Change>): State {
    if cs == [] then s else Apply(Fold(s, cs[..|cs| - 1]), cs[|cs| - 1])
  }

  /** The live code at `now`: there is one and it has not expired. */
  function CurrentQR(s: State, now: int): Option<QR> {
    if s.code == "" || s.expires - now <= 0 then None
    else Some(QR(s.code, s.expires, (s.expires - now) / SECOND))
  }

  // ---- The pairing channel ---------------------------------------------------------------------

  datatype Event = NewCode(code: string, timeout: int) | Success | Failure

  /**
   * One item of the channel. `before` are the sections other goroutines run while waiting for it,
   * `during` those between the two halves of markConnected; `at` and `seen` are the clock readings
   * when a code is stored and when it is looked up for the caller.
   */
  datatype Item = Item(event: Event, at: int, seen: int, before: seq<Change>, during: seq<Change>)

  /** Only a client that is still installed becomes connected. */
  function Connecting(s: State, during: seq<Change>): State {
    if s.hasClient then Apply(Fold(s, during), Connect) else s
  }

  /** What is left of the channel after a terminal item: read and thrown away. */
  function Drained(s: State, items: seq<Item>): State {
    if items == [] then s else Fold(Drained(s, items[..|items| - 1]), items[|items| - 1].before)
  }

  predicate Terminal(i: Item) { !i.event.NewCode? }

  function Taken(s: State, i: Item): State {
    var s := Fold(s, i.before);
    match i.event
    case NewCode(code, timeout) => Apply(s, Code(code, i.at, timeout))
    case Success => Connecting(s, i.during)
    case Failure => Apply(s, FailPairing)
  }

  /** How many items are acted on: up to and including the first terminal one. */
  function Live(items: seq<Item>): (n: nat)
    ensures n <= |items|
    ensures forall i :: 0 <= i < n - 1 ==> !Terminal(items[i])
    ensures n < |items| ==> 0 < n && Terminal(items[n - 1])
  {
    if items == [] then 0 else if Terminal(items[0]) then 1 else 1 + Live(items[1..])
  }

  function TakenAll(s: State, items: seq<Item>): State {
    if items == [] then s else Taken(TakenAll(s, items[..|items| - 1]), items[|items| - 1])
  }

  /** The state after the whole channel: items after the first terminal one leave no mark of their own. */
  function Consumed(s: State, items: seq<Item>): State {
    Drained(TakenAll(s, items[..Live(items)]), items[Live(items)..])
  }

  /** The state when the first `i` items have been read. */
  function Progress(s: State, items: seq<Item>, i: nat): State
    requires i <= |items|
  {
    var live := Live(items);
    if i <= live then TakenAll(s, items[..i]) else Drained(TakenAll(s, items[..live]), items[live..i])
  }

  lemma TakenStep(s: State, items: seq<Item>, i: nat)
    requires i < |items|
    ensures TakenAll(s, items[..i + 1]) == Taken(TakenAll(s, items[..i]), items[i])
  {
    assert items[..i + 1][..i] == items[..i];
  }

  lemma DrainedStep(s: State, items: seq<Item>, from: nat, i: nat)
    requires from <= i < |items|
    ensures Drained(s, items[from..i + 1]) == Fold(Drained(s, items[from..i]), items[i].before)
  {
    assert items[from..i + 1][..i - from] == items[from..i];
    assert items[from..i + 1][i - from] == items[i];
  }

  lemma ProgressStep(s: State, items: seq<Item>, i: nat)
    requires i < |items|
    ensures Progress(s, items, i + 1) ==
      if i < Live(items) then Taken(Progress(s, items, i), items[i]) else Fold(Progress(s, items, i), items[i].before)
  {
    var live := Live(items);
    if i < live {
      TakenStep(s, items, i);
    } else {
      var t := TakenAll(s, items[..live]);
      DrainedStep(t, items, live, i);
      NoneDrained(t, items, live);
      assert Progress(s, items, i) == Drained(t, items[live..i]);
      assert Progress(s, items, i + 1) == Drained(t, items[live..i + 1]);
    }
  }

  lemma NoneDrained(s: State, items: seq<Item>, i: nat)
    requires i <= |items|
    ensures Drained(s, items[i..i]) == s
  {
  }

  lemma ProgressEnd(s: State, items: seq<Item>)
    ensures Progress(s, items, |items|) == Consumed(s, items)
  {
    assert items[Live(items)..|items|] == items[Live(items)..];
    if Live(items) == |items| {
      assert items[Live(items)..] == [];
    }
  }

  /** Whether a terminal item is among the first `i`. */
  predicate Over(items: seq<Item>, i: nat)
    requires i <= |items|
  {
    Live(items) < i || (Live(items) == i && i > 0 && Terminal(items[i - 1]))
  }

  /** What login is told first: the first item's code if it is live, else that there is none. */
  function FirstAnswer(items: seq<Item>): Option<QR> {
    if items == [] || !items[0].event.NewCode? then None
    else CurrentQR(State(InPairing, true, items[0].event.code, items[0].at + items[0].event.timeout), items[0].seen)
  }

  datatype LoginDecision = AlreadyConnected | Offer(qr: QR) | NotAvailable | Proceed

  class Account {
    var status: Status
    var hasClient: bool
    var qrCode: string
    var qrExpires: int

    ghost function View(): State reads this { State(status, hasClient, qrCode, qrExpires) }

    constructor (paired: bool)
      ensures View() == State(if paired then Disconnected else Created, false, "", NO_TIME)
    {
      status := if paired then Disconnected else Created;
      hasClient, qrCode, qrExpires := false, "", NO_TIME;
    }

    method LookupQR(now: int) returns (qr: Option<QR>)
      ensures qr == CurrentQR(View(), now)
      ensures qr == if qrCode == "" || qrExpires <= now then None
        else Some(QR(qrCode, qrExpires, (qrExpires - now) / 1_000_000_000))
    {
      if qrCode == "" {
        return None;
      }
      var remaining := qrExpires - now;
      if remaining <= 0 {
        return None;
      }
      return Some(QR(qrCode, qrExpires, remaining / SECOND));
    }

    /** The first section of login. */
    method LoginCheck(now: int) returns (d: LoginDecision)
      ensures d == AlreadyConnected <==> status == Connected
      ensures d.Offer? ==> status == InPairing && CurrentQR(View(), now) == Some(d.qr)
      ensures d == NotAvailable <==> status == InPairing && CurrentQR(View(), now) == None
      ensures d == Proceed <==> status !in {Connected, InPairing}
    {
      match status {
        case Connected => d := AlreadyConnected;
        case InPairing =>
          var qr := LookupQR(now);
          d := match qr case None => NotAvailable case Some(q) => Offer(q);
        case _ => d := Proceed;
      }
    }

    /** The section of login that installs the new client. */
    method LoginInstall()
      modifies this
      ensures View() == Apply(old(View()), LoginReset)
      ensures status == InPairing && hasClient && qrCode == ""
    {
      hasClient := true;
      status := InPairing;
      qrCode, qrExpires := "", NO_TIME;
    }

    method StoreCode(code: string, timeout: int, at: int, seen: int) returns (qr: Option<QR>)
      modifies this
      ensures View() == Apply(old(View()), Code(code, at, timeout))
      ensures status == (if old(status) == Connected then Connected else InPairing)
      ensures hasClient == old(hasClient) && qrCode == code && qrExpires == at + timeout
      ensures qr == CurrentQR(View(), seen)
    {
      qrCode, qrExpires := code, at + timeout;
      if status != Connected {
        status := InPairing;
      }
      qr := LookupQR(seen);
    }

    /** The second section of markConnected. */
    method RecordConnected()
      modifies this
      ensures View() == Apply(old(View()), Connect)
      ensures status == Connected && hasClient == old(hasClient) && qrCode == ""
    {
      status := Connected;
      qrCode, qrExpires := "", NO_TIME;
    }

    /** Both sections of markConnected, with what runs in between. */
    method MarkConnected(during: seq<Change>)
      modifies this
      ensures View() == Connecting(old(View()), during)
      ensures if old(hasClient) then status == Connected && qrCode == "" else View() == old(View())
    {
      if !hasClient {
        return;
      }
      Interfere(during);
      RecordConnected();
    }

    method OnDisconnected()
      modifies this
      ensures View() == Apply(old(View()), Disconnect)
      ensures status == (if old(status) == Connected then Disconnected else old(status))
      ensures hasClient == old(hasClient) && qrCode == old(qrCode) && qrExpires == old(qrExpires)
    {
      if status == Connected {
        status := Disconnected;
      }
    }

    method OnLoggedOut()
      modifies this
      ensures View() == Apply(old(View()), LogOut)
      ensures status == LoggedOut && hasClient == old(hasClient) && qrCode == ""
    {
      status := LoggedOut;
      qrCode, qrExpires := "", NO_TIME;
    }

    method AbortPairing()
      modifies this
      ensures View() == Apply(old(View()), FailPairing)
      ensures status == (if old(status) == InPairing then Created else old(status)) && !hasClient && qrCode == ""
    {
      if status == InPairing {
        status := Created;
      }
      qrCode, qrExpires := "", NO_TIME;
      hasClient := false;
    }

    /** Loads a paired device on boot; without one the session counts as logged out. */
    method AttachDevice(found: bool)
      modifies this
      ensures View() == Apply(old(View()), if found then Attach else AttachFailed)
      ensures status == (if !found then LoggedOut else if old(status) == Connected then Connected else Disconnected)
      ensures hasClient == (found || old(hasClient)) && qrCode == old(qrCode) && qrExpires == old(qrExpires)
    {
      if !found {
        status := LoggedOut;
        return;
      }
      hasClient := true;
      if status != Connected {
        status := Disconnected;
      }
    }

    method Perform(c: Change)
      modifies this
      ensures View() == Apply(old(View()), c)
    {
      match c {
        case Code(code, at, timeout) => var _ := StoreCode(code, timeout, at, at);
        case LoginReset => LoginInstall();
        case Connect => RecordConnected();
        case Disconnect => OnDisconnected();
        case LogOut => OnLoggedOut();
        case FailPairing => AbortPairing();
        case Attach => AttachDevice(true);
        case AttachFailed => AttachDevice(false);
      }
    }

    /** Other goroutines' sections. */
    method Interfere(cs: seq<Change>)
      modifies this
      ensures View() == Fold(old(View()), cs)
    {
      for i := 0 to |cs|
        invariant View() == Fold(old(View()), cs[..i])
      {
        Perform(cs[i]);
        assert cs[..i + 1][..i] == cs[..i];
      }
      assert cs[..|cs|] == cs;
    }

    /**
     * Reads the pairing channel until it closes. `first` collects what is put on the channel login
     * waits on: exactly one value, so a channel of capacity one never blocks.
     */
    method ConsumeQR(items: seq<Item>) returns (first: seq<Option<QR>>)
      modifies this
      ensures first == [FirstAnswer(items)]
      ensures items == [] || !items[0].event.NewCode? ==> first == [None]
      ensures items != [] && items[0].event.NewCode? ==>
        && first == [CurrentQR(Taken(old(View()), items[0]), items[0].seen)]
        && var code, expires, now := items[0].event.code, items[0].at + items[0].event.timeout, items[0].seen;
           first == [if code == "" || expires <= now then None
                     else Some(QR(code, expires, (expires - now) / 1_000_000_000))]
      ensures View() == Consumed(old(View()), items)
    {
      var sentFirst, terminal := false, false;
      first := [];
      for i := 0 to |items|
        invariant terminal <==> Over(items, i)
        invariant View() == Progress(old(View()), items, i)
        invariant sentFirst <==> i > 0
        invariant first == if i == 0 then [] else [FirstAnswer(items)]
      {
        ProgressStep(old(View()), items, i);
        Interfere(items[i].before);
        if !terminal {
          var answer := None;
          match items[i].event {
            case NewCode(code, timeout) => answer := StoreCode(code, timeout, items[i].at, items[i].seen);
            case Success => MarkConnected(items[i].during); terminal := true;
            case Failure => AbortPairing(); terminal := true;
          }
          if !sentFirst {
            sentFirst, first := true, first + [answer];
          }
        }
      }
      ProgressEnd(old(View()), items);
      if !sentFirst {
        first := first + [None];
      }
    }
  }

  // ---- When a code is on offer, and when the session is connected ---------------------------------

  predicate AffectsQR(c: Change) {
    c.Code? || c.LoginReset? || c.Connect? || c.LogOut? || c.FailPairing?
  }

  /** The last change to the pairing code; |cs| when there was none. */
  function LastQR(cs: seq<Change>): (i: nat)
    ensures i <= |cs| && (i < |cs| ==> AffectsQR(cs[i]))
    ensures forall j :: (if i < |cs| then i + 1 else 0) <= j < |cs| ==> !AffectsQR(cs[j])
  {
    if cs == [] then 0
    else if AffectsQR(cs[|cs| - 1]) then |cs| - 1
    else var i := LastQR(cs[..|cs| - 1]); if i == |cs| - 1 then |cs| else i
  }

  lemma {:induction false} CodeIsLast(s: State, cs: seq<Change>)
    ensures var i, t := LastQR(cs), Fold(s, cs);
      if i == |cs| then t.code == s.code && t.expires == s.expires
      else if cs[i].Code? then t.code == cs[i].code && t.expires == cs[i].at + cs[i].timeout
      else t.code == "" && t.expires == NO_TIME
  {
    if cs != [] {
      CodeIsLast(s, cs[..|cs| - 1]);
    }
  }

  /**
   * After any run from a state without a code, one is on offer exactly when the last change to the
   * code was the arrival of a non-empty one whose time has not run out, and it is that one.
   */
  lemma {:induction false} QROnOffer(s: State, cs: seq<Change>, now: int)
    requires s.code == ""
    ensures var i, qr := LastQR(cs), CurrentQR(Fold(s, cs), now);
      && (qr.Some? <==> i < |cs| && cs[i].Code? && cs[i].code != "" && now < cs[i].at + cs[i].timeout)
      && (qr.Some? ==>
            var ends := cs[i].at + cs[i].timeout;
            qr.value == QR(cs[i].code, ends, (ends - now) / 1_000_000_000))
  {
    CodeIsLast(s, cs);
  }

  /** What ends a connection: logging in anew, losing it, or being logged out or not found. */
  predicate Ends(c: Change) { c.LoginReset? || c.Disconnect? || c.LogOut? || c.AttachFailed? }

  predicate ConnectedSince(cs: seq<Change>, i: nat) {
    i < |cs| && cs[i] == Connect && forall j :: i < j < |cs| ==> !Ends(cs[j])
  }

  ghost predicate StillConnected(cs: seq<Change>) { exists i: nat :: ConnectedSince(cs, i) }

  /**
   * The session counts as connected exactly when some connect has not been ended since; codes,
   * failed pairings and a second attach do not end it.
   */
  lemma {:induction false} ConnectedIff(s: State, cs: seq<Change>)
    requires s.status != Connected
    ensures Fold(s, cs).status == Connected <==> StillConnected(cs)
  {
    if cs != [] {
      var n := |cs| - 1;
      ConnectedIff(s, cs[..n]);
      if cs[n] == Connect {
        assert ConnectedSince(cs, n);
      } else if Ends(cs[n]) {
        assert forall i: nat :: i < n ==> !ConnectedSince(cs, i);
      } else {
        ConnectedStep(cs);
      }
    }
  }

  lemma ConnectedStep(cs: seq<Change>)
    requires cs != [] && !Ends(cs[|cs| - 1]) && cs[|cs| - 1] != Connect
    ensures StillConnected(cs) <==> StillConnected(cs[..|cs| - 1])
  {
    var n := |cs| - 1;
    if i: nat :| ConnectedSince(cs, i) {
      assert ConnectedSince(cs[..n], i);
    }
    if i: nat :| ConnectedSince(cs[..n], i) {
      assert ConnectedSince(cs, i);
    }
  }

  /** The client was installed, or loaded on boot, and no failed pairing has dropped it since. */
  predicate ClientSince(cs: seq<Change>, i: nat) {
    i < |cs| && (cs[i].LoginReset? || cs[i].Attach?) && forall j :: i < j < |cs| ==> !cs[j].FailPairing?
  }

  ghost predicate StillHeld(cs: seq<Change>) { exists i: nat :: ClientSince(cs, i) }

  lemma HeldStep(cs: seq<Change>)
    requires cs != [] && !cs[|cs| - 1].LoginReset? && !cs[|cs| - 1].Attach? && !cs[|cs| - 1].FailPairing?
    ensures StillHeld(cs) <==> StillHeld(cs[..|cs| - 1])
  {
    var n := |cs| - 1;
    if i: nat :| ClientSince(cs, i) {
      assert ClientSince(cs[..n], i);
    }
    if i: nat :| ClientSince(cs[..n], i) {
      assert ClientSince(cs, i);
    }
  }

  /** The session has a client exactly when some login or attach was not followed by a failed pairing. */
  lemma {:induction false} ClientIff(s: State, cs: seq<Change>)
    requires !s.hasClient
    ensures Fold(s, cs).hasClient <==> StillHeld(cs)
  {
    if cs != [] {
      var n := |cs| - 1;
      ClientIff(s, cs[..n]);
      if cs[n].LoginReset? || cs[n].Attach? {
        assert ClientSince(cs, n);
      } else if cs[n].FailPairing? {
        assert forall i: nat :: i < n ==> !ClientSince(cs, i);
      } else {
        HeldStep(cs);
      }
    }
  }

  predicate ConnectedHasClient(s: State) { s.status == Connected ==> s.hasClient }

  /** After a run, connected implies a client exactly when a connect still standing comes with a client still held. */
  lemma ConnectedHasClientIff(s: State, cs: seq<Change>)
    requires s.status != Connected && !s.hasClient
    ensures ConnectedHasClient(Fold(s, cs)) <==> (StillConnected(cs) ==> StillHeld(cs))
  {
    ConnectedIff(s, cs);
    ClientIff(s, cs);
  }

  /**
   * The sections that lose it: the second half of markConnected once the client is gone, and a failed
   * pairing of a session that is connected.
   */
  predicate LosesClient(s: State, c: Change) {
    (c.Connect? && !s.hasClient) || (c.FailPairing? && s.status == Connected)
  }

  predicate NoneLoses(s: State, cs: seq<Change>) {
    cs != [] ==>
      NoneLoses(s, cs[..|cs| - 1]) && !LosesClient(Fold(s, cs[..|cs| - 1]), cs[|cs| - 1])
  }

  /** One section breaks it exactly when it is one of those. */
  lemma LosesClientIff(s: State, c: Change)
    requires ConnectedHasClient(s)
    ensures ConnectedHasClient(Apply(s, c)) <==> !LosesClient(s, c)
  {
  }

  /** It holds all along a run exactly when no section of the run is one of those. */
  lemma {:induction false} AlwaysHasClientIff(s: State, cs: seq<Change>)
    requires ConnectedHasClient(s)
    ensures (forall k :: 0 <= k <= |cs| ==> ConnectedHasClient(Fold(s, cs[..k]))) <==> NoneLoses(s, cs)
  {
    if cs == [] {
      assert cs[..0] == [];
    } else {
      var n := |cs| - 1;
      AlwaysHasClientIff(s, cs[..n]);
      assert forall k :: 0 <= k <= n ==> cs[..n][..k] == cs[..k];
      assert cs[..n + 1] == cs && cs[..n][..n] == cs[..n];
      if ConnectedHasClient(Fold(s, cs[..n])) {
        LosesClientIff(Fold(s, cs[..n]), cs[n]);
      }
    }
  }

  /** Whatever came before, a failed pairing leaves a connected session connected and without a client. */
  lemma ConnectedWithoutClient(s: State, cs: seq<Change>)
    requires Fold(s, cs).status == Connected
    ensures var t := Fold(s, cs + [FailPairing]); t.status == Connected && !t.hasClient
  {
    assert (cs + [FailPairing])[..|cs|] == cs;
  }

  // ---- The pairing loop as a run of changes ------------------------------------------------------

  lemma {:induction false} FoldConcat(s: State, a: seq<Change>, b: seq<Change>)
    ensures Fold(s, a + b) == Fold(Fold(s, a), b)
  {
    if b == [] {
      assert a + b == a;
    } else {
      assert (a + b)[..|a + b| - 1] == a + b[..|b| - 1];
      FoldConcat(s, a, b[..|b| - 1]);
    }
  }

  /** The changes one live item makes, other goroutines' included; `s` is the state it is read in. */
  function ItemChanges(s: State, i: Item): seq<Change> {
    i.before +
    match i.event
    case NewCode(code, timeout) => [Code(code, i.at, timeout)]
    case Success => if Fold(s, i.before).hasClient then i.during + [Connect] else []
    case Failure => [FailPairing]
  }

  function LiveChanges(s: State, items: seq<Item>): seq<Change> {
    if items == [] then [] else
      var front := items[..|items| - 1];
      LiveChanges(s, front) + ItemChanges(TakenAll(s, front), items[|items| - 1])
  }

  function DrainedChanges(items: seq<Item>): seq<Change> {
    if items == [] then [] else DrainedChanges(items[..|items| - 1]) + items[|items| - 1].before
  }

  lemma TakenIsFold(s: State, i: Item)
    ensures Taken(s, i) == Fold(s, ItemChanges(s, i))
  {
    match i.event
    case NewCode(code, timeout) =>
      FoldOne(s, i.before, Code(code, i.at, timeout));
    case Success =>
      var t := Fold(s, i.before);
      if t.hasClient {
        FoldOne(t, i.during, Connect);
        FoldConcat(s, i.before, i.during + [Connect]);
      } else {
        assert i.before + [] == i.before;
      }
    case Failure => FoldOne(s, i.before, FailPairing);
  }

  lemma FoldOne(s: State, cs: seq<Change>, c: Change)
    ensures Fold(s, cs + [c]) == Apply(Fold(s, cs), c)
  {
    assert (cs + [c])[..|cs|] == cs;
  }

  lemma {:induction false} TakenAllIsFold(s: State, items: seq<Item>)
    ensures TakenAll(s, items) == Fold(s, LiveChanges(s, items))
  {
    if items != [] {
      var front, i := items[..|items| - 1], items[|items| - 1];
      TakenAllIsFold(s, front);
      TakenIsFold(TakenAll(s, front), i);
      FoldConcat(s, LiveChanges(s, front), ItemChanges(TakenAll(s, front), i));
    }
  }

  lemma {:induction false} DrainedIsFold(s: State, items: seq<Item>)
    ensures Drained(s, items) == Fold(s, DrainedChanges(items))
  {
    if items != [] {
      var front := items[..|items| - 1];
      DrainedIsFold(s, front);
      FoldConcat(s, DrainedChanges(front), items[|items| - 1].before);
    }
  }

  /** All changes of a whole pairing channel, in order. */
  function AllChanges(s: State, items: seq<Item>): seq<Change> {
    LiveChanges(s, items[..Live(items)]) + DrainedChanges(items[Live(items)..])
  }

  /** What `ConsumeQR` leaves is a run of changes like any other, so all of the above applies to it. */
  lemma ConsumedIsFold(s: State, items: seq<Item>)
    ensures Consumed(s, items) == Fold(s, AllChanges(s, items))
  {
    var live, rest := items[..Live(items)], items[Live(items)..];
    TakenAllIsFold(s, live);
    DrainedIsFold(TakenAll(s, live), rest);
    FoldConcat(s, LiveChanges(s, live), DrainedChanges(rest));
  }

  /** What the last item leaves behind when all before it were codes; `t` is the state it finds. */
  lemma LastItemTells(s: State, items: seq<Item>)
    requires items != [] && forall i :: 0 <= i < |items| - 1 ==> items[i].event.NewCode?
    ensures
      var i := items[|items| - 1];
      var t, u := Fold(Consumed(s, items[..|items| - 1]), i.before), Consumed(s, items);
      match i.event
      case NewCode(code, timeout) =>
        u == State(if t.status == Connected then Connected else InPairing, t.hasClient, code, i.at + timeout)
      case Success => if t.hasClient then u.status == Connected && u.code == "" else u == t
      case Failure => u == State(if t.status == InPairing then Created else t.status, false, "", NO_TIME)
  {
    AllLive(items);
    AllLive(items[..|items| - 1]);
    ProgressEnd(s, items);
    ProgressEnd(s, items[..|items| - 1]);
    TakenStep(s, items, |items| - 1);
    assert items[..|items|] == items && items[..|items| - 1][..|items| - 1] == items[..|items| - 1];
  }

  lemma {:induction false} AllLive(items: seq<Item>)
    requires forall i :: 0 <= i < |items| - 1 ==> items[i].event.NewCode?
    ensures Live(items) == |items|
  {
    if |items| > 1 {
      AllLive(items[1..]);
    }
  }

  /** Items after a terminal one change nothing: only what other goroutines did in between shows. */
  lemma {:induction false} TailLeavesNoMark(s: State, items: seq<Item>, tail: seq<Item>)
    requires Live(items) < |items| || (items != [] && Terminal(items[|items| - 1]))
    requires forall i :: 0 <= i < |tail| ==> tail[i].before == []
    ensures Consumed(s, items + tail) == Consumed(s, items)
  {
    LiveOfPrefix(items, tail);
    var live := Live(items);
    assert (items + tail)[..live] == items[..live];
    assert (items + tail)[live..] == items[live..] + tail;
    DrainedTail(TakenAll(s, items[..live]), items[live..], tail);
  }

  lemma {:induction false} LiveOfPrefix(items: seq<Item>, tail: seq<Item>)
    requires Live(items) < |items| || (items != [] && Terminal(items[|items| - 1]))
    ensures Live(items + tail) == Live(items)
  {
    if !Terminal(items[0]) {
      assert (items + tail)[1..] == items[1..] + tail;
      LiveOfPrefix(items[1..], tail);
    }
  }

  lemma {:induction false} DrainedTail(s: State, items: seq<Item>, tail: seq<Item>)
    requires forall i :: 0 <= i < |tail| ==> tail[i].before == []
    ensures Drained(s, items + tail) == Drained(s, items)
  {
    if tail == [] {
      assert items + tail == items;
    } else {
      var n := |tail| - 1;
      assert (items + tail)[..|items + tail| - 1] == items + tail[..n];
      DrainedTail(s, items, tail[..n]);
    }
  }
}
