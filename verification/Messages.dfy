/** The inbound message, reduced to the fields the session logic reads or changes. */
module Messages {

  /** What an edit replaces: the kind, the text and the attachment, all three together. */
  datatype Body = Body(kind: string, text: string, media: string)

  /** `phone` is empty when the sender's number is unknown; `editedId` is used by edits only. */
  datatype Message = Message(
    id: string,
    chat: string,
    sender: string,
    phone: string,
    fromMe: bool,
    editedId: string,
    body: Body)

  /** The zero value a freshly allocated buffer slot holds. */
  const BLANK: Message := Message("", "", "", "", false, "", Body("", "", ""))

  datatype Event =
    | Received(m: Message)
    | Edited(m: Message)
    | Revoked(m: Message)

  /** Events authored on the linked phone are ignored unless the session asks for them. */
  predicate Admitted(e: Event, includeFromMe: bool) {
    !e.m.fromMe || includeFromMe
  }

  /** The last `k` elements of `s`, or all of them when there are fewer. */
  function LastN<T>(s: seq<T>, k: nat): seq<T> {
    if |s| <= k then s else s[|s| - k..]
  }

  /** Up to `limit` elements of `s`, last first; a limit <= 0 asks for all of them. */
  function Newest<T>(s: seq<T>, limit: int): (r: seq<T>)
    ensures |r| == if limit <= 0 || limit > |s| then |s| else limit
    ensures forall i :: 0 <= i < |r| ==> r[i] == s[|s| - 1 - i]
  {
    var count := if limit <= 0 || limit > |s| then |s| else limit;
    seq(count, i requires 0 <= i < count => s[|s| - 1 - i])
  }
}
