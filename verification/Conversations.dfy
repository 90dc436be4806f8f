/** Opening, writing to, acknowledging and acting on a conversation. */
module Conversations {
  import opened Rows
  import opened ChatLog

  const MAX_BODY := 4000

  datatype Action = Accept | Decline | Reveal | Mute | Unmute | Archive | Unarchive

  predicate ValidDraft(d: Draft) { 0 < |d.body| <= MAX_BODY }

  /** The part of `access` decided by rows the pair lock protects. */
  predicate Reachable(row: PairRow, origin: Origin) {
    && origin in row.convs
    && row.blocks == {}
    && (origin == Match ==> row.matched.Some?)
    && row.convs[origin].Live()
  }

  // ----- messages -------------------------------------------------------------

  datatype Written = Existing(message: Message) | Stored(conv: Conv, message: Message) | Rejected(problem: Problem)

  predicate SameKey(m: Message, sender: UserId, clientId: Id) {
    m.sender == sender && m.clientId == clientId
  }

  /** The stored message with this sender and client id, if there is one. */
  function Find(ms: seq<Message>, sender: UserId, clientId: Id): (r: Option<Message>)
    ensures r.Some? ==> r.value in ms && SameKey(r.value, sender, clientId)
    ensures r.None? ==> forall m :: m in ms ==> !SameKey(m, sender, clientId)
  {
    if |ms| == 0 then None
    else if SameKey(ms[0], sender, clientId) then Some(ms[0])
    else Find(ms[1..], sender, clientId)
  }

  predicate MayWrite(c: Conv, user: UserId) {
    c.state == Open || (c.state == Pending && c.requester == Some(user) && c.lastSeq == 0)
  }

  predicate ReplyFound(c: Conv, d: Draft) {
    d.replyTo.Some? ==> exists m :: m in c.messages && m.id == d.replyTo.value
  }

  function Unarchived(parts: map<UserId, Participant>): map<UserId, Participant> {
    map u | u in parts :: parts[u].(archived := false)
  }

  /** A retry returns what the first send stored; a new id takes the next position. */
  function Insert(c: Conv, user: UserId, d: Draft, id: Id, now: int): Written {
    if !ValidDraft(d) then Rejected(BadRequest)
    else
      var found := Find(c.messages, user, d.clientId);
      if found.Some? then
        if found.value.body != d.body || found.value.replyTo != d.replyTo then Rejected(BadRequest)
        else Existing(found.value)
      else if !MayWrite(c, user) then Rejected(Forbidden)
      else if !ReplyFound(c, d) then Rejected(BadRequest)
      else
        var m := Message(id, c.lastSeq + 1, user, d.clientId, d.body, d.replyTo);
        Stored(c.(lastSeq := c.lastSeq + 1, activity := now, messages := c.messages + [m],
                  parts := Unarchived(c.parts)), m)
  }

  function Send(row: PairRow, origin: Origin, user: UserId, d: Draft, id: Id, now: int): Outcome {
    if !Reachable(row, origin) then Refused(Unavailable)
    else match Insert(row.convs[origin], user, d, id, now)
      case Rejected(problem) => Refused(problem)
      case Existing(_) => Done(row, [])
      case Stored(c, _) => Done(row.(convs := row.convs[origin := c]), [Note(origin, MessageNew)])
  }

  // ----- opening --------------------------------------------------------------

  function Then(first: (PairRow, seq<Note>), rest: Outcome): Outcome {
    if rest.Refused? then rest else Done(rest.row, first.1 + rest.notes)
  }

  function OpenMatch(p: Pair, row: PairRow, user: UserId, first: Option<Draft>, id: Id, now: int): Outcome {
    if row.blocks != {} then Refused(Unavailable)
    else if row.matched.None? then Refused(Forbidden)
    else
      var made := EnsureMatch(p, row, now);
      if first.None? then Done(made.0, made.1)
      else Then(made, Send(made.0, Match, user, first.value, id, now))
  }

  function OpenRequest(p: Pair, row: PairRow, user: UserId, d: Draft, id: Id, now: int): Outcome {
    if row.blocks != {} then Refused(Unavailable)
    else
      var asked := if Request in row.convs then row
                   else row.(convs := row.convs[Request := NewConv(p, Pending, Some(user), now)]);
      Send(asked, Request, user, d, id, now)
  }

  /** The anonymous pairing, after its recheck under the pair lock. */
  function Meet(p: Pair, row: PairRow, now: int): Outcome {
    if row.blocks != {} then Refused(Unavailable)
    else if Anonymous in row.convs then Refused(Conflict)
    else Done(row.(convs := row.convs[Anonymous := NewConv(p, Open, None, now)]), [Note(Anonymous, ConversationNew)])
  }

  // ----- receipts and actions -------------------------------------------------

  function Max(a: int, b: int): int { if a < b then b else a }

  function Acknowledge(part: Participant, upTo: int, read: bool): Participant {
    if read then part.(read := Max(part.read, upTo), delivered := Max(part.delivered, upTo))
    else part.(delivered := Max(part.delivered, upTo))
  }

  function Receipt(row: PairRow, origin: Origin, user: UserId, upTo: int, read: bool): Outcome {
    if !Reachable(row, origin) then Refused(Unavailable)
    else
      var c := row.convs[origin];
      if upTo < 0 || upTo > c.lastSeq then Refused(BadRequest)
      else if user !in c.parts || (if read then c.parts[user].read else c.parts[user].delivered) >= upTo
      then Done(row, [])
      else
        var part := Acknowledge(c.parts[user], upTo, read);
        Done(row.(convs := row.convs[origin := c.(parts := c.parts[user := part])]),
             [Note(origin, if read then ReceiptRead else ReceiptDelivered)])
  }

  function Adjust(part: Participant, action: Action): Participant {
    match action
    case Mute => part.(muted := true)
    case Unmute => part.(muted := false)
    case Archive => part.(archived := true)
    case Unarchive => part.(archived := false)
    case _ => part
  }

  function Act(row: PairRow, origin: Origin, user: UserId, action: Action): Outcome {
    if !Reachable(row, origin) then Refused(Unavailable)
    else
      var c := row.convs[origin];
      match action
      case Accept =>
        if origin != Request || c.requester == Some(user) then Refused(Forbidden)
        else if c.state != Pending then Done(row, [])
        else Done(row.(convs := row.convs[origin := c.(state := Open)]), [Note(origin, ConversationAccess)])
      case Decline =>
        if origin != Request || c.requester == Some(user) || c.state != Pending then Refused(Forbidden)
        else Done(row.(convs := row.convs[origin := c.(state := Declined)]), [Note(origin, ConversationAccess)])
      case Reveal =>
        if origin != Anonymous || c.state != Open then Refused(Forbidden)
        else if c.revealed then Done(row, [])
        else
          var consents := c.consents + {user};
          var both := |consents| == 2;
          Done(row.(convs := row.convs[origin := c.(consents := consents, revealed := both)]),
               [Note(origin, if both then IdentityRevealed else ConversationAccess)])
      case _ =>
        var parts := if user in c.parts then c.parts[user := Adjust(c.parts[user], action)] else c.parts;
        Done(row.(convs := row.convs[origin := c.(parts := parts)]), [Note(origin, ConversationAccess)])
  }
}
