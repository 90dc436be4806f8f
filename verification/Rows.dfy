/** The rows the chat, matching and safety packages share.
    Everything that belongs to one pair of people (likes, blocks, the match, the
    conversations with their messages, receipts and consents) is one PairRow; the
    event counter and event log of one account are one UserRow. */
module Rows {
  datatype Option<+T> = None | Some(value: T)

  /** UUIDs in canonical form: only equality and the order matter. */
  type UserId = int
  type Id = int

  /** The ordered pair every shared row is keyed by. */
  datatype Pair = Pair(lo: UserId, hi: UserId) {
    predicate Ordered() { lo < hi }
    predicate Has(u: UserId) { u == lo || u == hi }
    function Peer(u: UserId): UserId { if u == lo then hi else lo }
  }

  datatype Origin = Match | Request | Anonymous
  datatype ConvState = Pending | Open | Declined | Closed

  /** (user_a, user_b, origin) is unique and conversation rows are never deleted,
      so the key identifies a conversation as well as its UUID does. */
  datatype ConvId = ConvId(pair: Pair, origin: Origin)

  datatype Draft = Draft(clientId: Id, body: string, replyTo: Option<Id>)
  datatype Message = Message(id: Id, pos: int, sender: UserId, clientId: Id, body: string, replyTo: Option<Id>)
  datatype Participant = Participant(delivered: int, read: int, muted: bool, archived: bool)

  /** `activity` is coalesce(last_message_at, created_at). */
  datatype Conv = Conv(
    state: ConvState,
    requester: Option<UserId>,
    lastSeq: int,
    messages: seq<Message>,
    parts: map<UserId, Participant>,
    consents: set<UserId>,
    revealed: bool,
    activity: int)
  {
    predicate Live() { state == Open || state == Pending }
  }

  /** `likes` holds the senders of the stored likes, `blocks` the people who blocked. */
  datatype PairRow = PairRow(
    likes: set<UserId>,
    blocks: set<UserId>,
    matched: Option<Id>,
    convs: map<Origin, Conv>)

  const EMPTY_PAIR := PairRow({}, {}, None, map[])

  datatype Kind =
    | ConversationNew | ConversationAccess | MessageNew
    | ReceiptDelivered | ReceiptRead | IdentityRevealed
  datatype Event = Event(pos: int, kind: Kind, conv: ConvId)

  /** `rows` are the stored user_events in seq order; pruning shortens it from the front. */
  datatype UserRow = UserRow(active: bool, eventSeq: int, rows: seq<Event>)

  datatype Db = Db(users: map<UserId, UserRow>, pairs: map<Pair, PairRow>) {
    function Row(p: Pair): PairRow { if p in pairs then pairs[p] else EMPTY_PAIR }
    predicate Knows(p: Pair) { p.lo in users && p.hi in users }
    predicate BothActive(p: Pair) { Knows(p) && users[p.lo].active && users[p.hi].active }
  }

  datatype Problem =
    | SelfDirected | NoSuchPerson | NoSuchLike | NoSuchMatch | Blocked
    | NoSuchReport
    | Unavailable | Forbidden | BadRequest | TooMany | Conflict

  /** An event about to be written for both members of a pair. */
  datatype Note = Note(origin: Origin, kind: Kind)

  /** What one transaction does to the pair it has locked. */
  datatype Outcome = Done(row: PairRow, notes: seq<Note>) | Refused(problem: Problem)

  lemma Member<T>(s: set<T>) returns (x: T)
    requires |s| > 0
    ensures x in s
  {
    x :| x in s;
  }
}
