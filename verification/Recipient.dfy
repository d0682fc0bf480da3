/** Turning what a caller typed into a WhatsApp address, and reading the phone number back. */
module Recipient {
  import opened Prelude

  datatype Result<+T> = Ok(value: T) | InvalidRecipient

  const USER_SERVER: string := "s.whatsapp.net"

  /** Unicode white space, as `strings.TrimSpace` and `unicode.IsSpace` see it. */
  predicate IsSpace(c: char) {
    || '\t' <= c <= '\r' || c == ' ' || c == '\U{85}' || c == '\U{A0}' || c == '\U{1680}'
    || '\U{2000}' <= c <= '\U{200A}' || c == '\U{2028}' || c == '\U{2029}'
    || c == '\U{202F}' || c == '\U{205F}' || c == '\U{3000}'
  }

  predicate IsBlank(c: char) { c == ' ' || c == '\t' || c == '\r' || c == '\n' }

  predicate IsDigit(c: char) { '0' <= c <= '9' }

  predicate IsSeparator(c: char) {
    c == '+' || c == ' ' || c == '-' || c == '.' || c == '(' || c == ')'
  }

  function TrimLeft(s: string): (r: string)
    ensures r == [] || !IsSpace(r[0])
    ensures |r| <= |s| && r == s[|s| - |r|..]
  {
    if s != [] && IsSpace(s[0]) then TrimLeft(s[1..]) else s
  }

  function TrimRight(s: string): (r: string)
    ensures r == [] || !IsSpace(r[|r| - 1])
    ensures r <= s
  {
    if s != [] && IsSpace(s[|s| - 1]) then TrimRight(s[..|s| - 1]) else s
  }

  function TrimSpace(s: string): string { TrimRight(TrimLeft(s)) }

  /** The digits of `s`, in order. */
  function Digits(s: string): (d: string)
    ensures forall i :: 0 <= i < |d| ==> IsDigit(d[i])
  {
    if s == [] then []
    else Digits(s[..|s| - 1]) + if IsDigit(s[|s| - 1]) then [s[|s| - 1]] else []
  }

  predicate PhoneChars(s: string) {
    forall i :: 0 <= i < |s| ==> IsDigit(s[i]) || IsSeparator(s[i])
  }

  /** International form: a country code, never a leading zero. */
  predicate InternationalDigits(d: string) {
    7 <= |d| <= 15 && d[0] != '0'
  }

  function FromPhone(s: string): Result<string> {
    if PhoneChars(s) && InternationalDigits(Digits(s)) then Ok(Digits(s) + "@" + USER_SERVER) else InvalidRecipient
  }

  method NormalizePhone(s: string) returns (r: Result<string>)
    ensures r == FromPhone(s)
    ensures r.Ok? <==>
      && (forall i :: 0 <= i < |s| ==> '0' <= s[i] <= '9' || s[i] in "+ -.()")
      && 7 <= |Digits(s)| <= 15 && Digits(s)[0] != '0'
    ensures r.Ok? ==> r.value == Digits(s) + "@" + "s.whatsapp.net"
  {
    var digits := "";
    for i := 0 to |s|
      invariant digits == Digits(s[..i])
      invariant PhoneChars(s[..i])
    {
      assert s[..i + 1][..i] == s[..i];
      if IsDigit(s[i]) {
        digits := digits + [s[i]];
      } else if !IsSeparator(s[i]) {
        return InvalidRecipient;
      }
    }
    assert s[..|s|] == s;
    if |digits| < 7 || |digits| > 15 {
      return InvalidRecipient;
    }
    if digits[0] == '0' {
      return InvalidRecipient;
    }
    return Ok(digits + "@" + USER_SERVER);
  }

  predicate KnownServer(server: string) {
    server == USER_SERVER || server == "g.us" || server == "lid"
  }

  function FromJID(s: string): Result<string>
    requires '@' in s
  {
    if exists i :: 0 <= i < |s| && IsBlank(s[i]) then InvalidRecipient else
      var at := IndexOf(s, '@');
      var user, server := s[..at], s[at + 1..];
      if user == "" || server == "" || '@' in server then InvalidRecipient
      else if KnownServer(server) then Ok(s)
      else InvalidRecipient
  }

  function Recipient(input: string): Result<string> {
    var s := TrimSpace(input);
    if s == "" then InvalidRecipient
    else if '@' in s then FromJID(s)
    else FromPhone(s)
  }

  method NormalizeRecipient(input: string) returns (r: Result<string>)
    ensures r == Recipient(input)
  {
    var s := TrimSpace(input);
    if s == "" {
      return InvalidRecipient;
    }
    if '@' in s {
      return FromJID(s);
    }
    r := NormalizePhone(s);
  }

  /** The number in an individual user's address; empty for groups and hidden-number addresses. */
  function PhoneFromJID(jid: string): string {
    var at := IndexOf(jid, '@');
    if at == |jid| || at == 0 || jid[at + 1..] != USER_SERVER then "" else
      var user := jid[..at];
      user[..IndexOf(user, ':')]
  }

  // ---- Properties --------------------------------------------------------------------------

  lemma TrimNothing(s: string)
    requires s != [] && !IsSpace(s[0]) && !IsSpace(s[|s| - 1])
    ensures TrimSpace(s) == s
  {
  }

  lemma TrimEnds(s: string)
    ensures var t := TrimSpace(s); t != [] ==> !IsSpace(t[0]) && !IsSpace(t[|t| - 1])
  {
  }

  lemma SplitAt(user: string, server: string)
    requires '@' !in user
    ensures IndexOf(user + "@" + server, '@') == |user|
    ensures (user + "@" + server)[..|user|] == user && (user + "@" + server)[|user| + 1..] == server
  {
    var s := user + "@" + server;
    assert s[|user|] == '@';
    assert forall j :: 0 <= j < |user| ==> s[j] == user[j];
  }

  /** `user@server` with one `@`, a non-empty user, a known server and no white space. */
  predicate IsAddress(jid: string) {
    var at := IndexOf(jid, '@');
    && 0 < at < |jid|
    && KnownServer(jid[at + 1..])
    && (forall i :: 0 <= i < |jid| ==> !IsBlank(jid[i]))
    && !IsSpace(jid[0]) && !IsSpace(jid[|jid| - 1])
  }

  lemma PhoneAddress(d: string)
    requires d != "" && forall i :: 0 <= i < |d| ==> IsDigit(d[i])
    ensures IsAddress(d + "@" + USER_SERVER)
  {
    var server := USER_SERVER;
    var jid := d + "@" + server;
    SplitAt(d, server);
    forall i | 0 <= i < |jid| ensures !IsBlank(jid[i]) {
      if i < |d| {
        assert jid[i] == d[i];
      } else if i > |d| {
        assert jid[i] == server[i - |d| - 1];
      }
    }
    assert jid[0] == d[0] && jid[|jid| - 1] == server[|server| - 1];
  }

  /** Which texts with an `@` are addresses: those of the three servers, with a user free of white space. */
  lemma AddressIff(user: string, server: string)
    requires '@' !in user
    ensures IsAddress(user + "@" + server) <==>
      && user != "" && !IsSpace(user[0]) && (forall i :: 0 <= i < |user| ==> user[i] !in " \t\r\n")
      && (server == "s.whatsapp.net" || server == "g.us" || server == "lid")
  {
    SplitAt(user, server);
    var jid := user + "@" + server;
    assert forall i :: 0 <= i < |user| ==> jid[i] == user[i];
    if KnownServer(server) && user != "" {
      assert jid[|jid| - 1] == server[|server| - 1];
      forall i | |user| <= i < |jid| ensures !IsBlank(jid[i]) {
        assert jid[i] == if i == |user| then '@' else server[i - |user| - 1];
      }
    }
  }

  /** Whatever is accepted is an address. */
  lemma AcceptedIsAddress(input: string)
    requires Recipient(input).Ok?
    ensures IsAddress(Recipient(input).value)
  {
    TrimEnds(input);
    var s := TrimSpace(input);
    if '@' in s {
      AcceptedJID(s);
    } else {
      PhoneAddress(Digits(s));
    }
  }

  lemma AcceptedJID(s: string)
    requires '@' in s && FromJID(s).Ok? && !IsSpace(s[0]) && !IsSpace(s[|s| - 1])
    ensures FromJID(s) == Ok(s) && IsAddress(s)
  {
  }

  /** Addresses are accepted as they stand. */
  lemma {:induction false} AddressAccepted(jid: string)
    requires IsAddress(jid)
    ensures Recipient(jid) == Ok(jid)
  {
    TrimNothing(jid);
    assert jid[IndexOf(jid, '@')] == '@';
    ServerHasNoAt(jid[IndexOf(jid, '@') + 1..]);
  }

  lemma ServerHasNoAt(server: string)
    requires KnownServer(server)
    ensures '@' !in server && server != ""
  {
  }

  /** Normalising an accepted address again changes nothing. */
  lemma NormalizeIdempotent(input: string)
    requires Recipient(input).Ok?
    ensures Recipient(Recipient(input).value) == Recipient(input)
  {
    AcceptedIsAddress(input);
    AddressAccepted(Recipient(input).value);
  }

  lemma {:induction false} DigitsOfConcat(a: string, b: string)
    ensures Digits(a + b) == Digits(a) + Digits(b)
  {
    if b == [] {
      assert a + b == a;
    } else {
      assert (a + b)[..|a + b| - 1] == a + b[..|b| - 1];
      DigitsOfConcat(a, b[..|b| - 1]);
    }
  }

  /** With `DigitsOfConcat` this fixes the digits of any text. */
  lemma DigitsOfChar(c: char)
    ensures Digits([c]) == if '0' <= c <= '9' then [c] else ""
  {
    assert [c][..0] == [];
  }

  lemma SpaceIsNoDigit(c: char)
    requires IsSpace(c)
    ensures Digits([c]) == ""
  {
    assert [c][..0] == [];
  }

  lemma {:induction false} DigitsOfTrimLeft(s: string)
    ensures Digits(TrimLeft(s)) == Digits(s)
  {
    if s != [] && IsSpace(s[0]) {
      DigitsOfTrimLeft(s[1..]);
      DigitsOfConcat([s[0]], s[1..]);
      SpaceIsNoDigit(s[0]);
      assert s == [s[0]] + s[1..];
    }
  }

  lemma {:induction false} DigitsOfTrimRight(s: string)
    ensures Digits(TrimRight(s)) == Digits(s)
  {
    if s != [] && IsSpace(s[|s| - 1]) {
      DigitsOfTrimRight(s[..|s| - 1]);
    }
  }

  lemma DigitsOfTrim(s: string)
    ensures Digits(TrimSpace(s)) == Digits(s)
  {
    DigitsOfTrimLeft(s);
    DigitsOfTrimRight(TrimLeft(s));
  }

  /** The number of an account's address, with or without a device (`:device`) behind the number. */
  lemma PhoneOfUser(number: string, device: string)
    requires number != "" && '@' !in number && ':' !in number
    requires '@' !in device && (device == "" || device[0] == ':')
    ensures PhoneFromJID(number + device + "@" + "s.whatsapp.net") == number
  {
    var user := number + device;
    SplitAt(user, USER_SERVER);
    assert forall j :: 0 <= j < |number| ==> user[j] == number[j];
    assert device != "" ==> user[|number|] == ':';
    assert IndexOf(user, ':') == |number|;
    assert user[..|number|] == number;
  }

  /** Addresses of groups and hidden numbers have none, nor does a user server address without digits. */
  lemma NoPhoneInAddress(user: string, server: string)
    requires '@' !in user
    requires server != "s.whatsapp.net" || user == "" || user[0] == ':'
    ensures PhoneFromJID(user + "@" + server) == ""
  {
    SplitAt(user, server);
  }

  /**
   * Conversely, a number read from an address is the part before the `@`, up to a colon if there is
   * one, and the address is that of an individual user.
   */
  lemma PhoneTakenFrom(jid: string) returns (device: string)
    requires PhoneFromJID(jid) != ""
    ensures
      var number := PhoneFromJID(jid);
      && '@' !in number && ':' !in number && '@' !in device && (device == "" || device[0] == ':')
      && jid == number + device + "@" + "s.whatsapp.net"
  {
    var at := IndexOf(jid, '@');
    var user := jid[..at];
    device := user[IndexOf(user, ':')..];
    assert jid == user + "@" + jid[at + 1..];
  }

  lemma PhoneRecipient(input: string)
    requires '@' !in TrimSpace(input) && Recipient(input).Ok?
    ensures Recipient(input).value == Digits(input) + "@" + USER_SERVER
    ensures InternationalDigits(Digits(input))
  {
    DigitsOfTrim(input);
  }

  /** A phone number survives the trip into an address and back, separators removed. */
  lemma PhoneRoundTrip(input: string)
    requires '@' !in TrimSpace(input) && Recipient(input).Ok?
    ensures PhoneFromJID(Recipient(input).value) == Digits(input)
  {
    PhoneRecipient(input);
    PhoneOfUser(Digits(input), "");
    assert Digits(input) + "" == Digits(input);
  }

  /** Two spellings reach the same address exactly when they have the same digits. */
  lemma SameAddressIffSameDigits(a: string, b: string)
    requires '@' !in TrimSpace(a) && '@' !in TrimSpace(b)
    requires Recipient(a).Ok? && Recipient(b).Ok?
    ensures Recipient(a) == Recipient(b) <==> Digits(a) == Digits(b)
  {
    PhoneRoundTrip(a);
    PhoneRoundTrip(b);
    PhoneRecipient(a);
    PhoneRecipient(b);
  }
}
