/** Transaction helpers shared by chat, matching and safety: pair order, event
    allocation, the match conversation and closing a pair. */
module ChatLog {
  import opened Rows

  function PairOf(a: UserId, b: UserId): Pair {
    if a > b then Pair(b, a) else Pair(a, b)
  }

  lemma PairIsCanonical(a: UserId, b: UserId)
    requires a != b
    ensures PairOf(a, b) == PairOf(b, a)
    ensures PairOf(a, b).Ordered() && PairOf(a, b).Has(a) && PairOf(a, b).Peer(a) == b
    ensures forall c, d :: PairOf(a, b) == PairOf(c, d) <==> {a, b} == {c, d}
  {
    forall c, d ensures PairOf(a, b) == PairOf(c, d) <==> {a, b} == {c, d} {
      if {a, b} == {c, d} {
        assert a in {c, d} && b in {c, d};
      }
    }
  }

  // ----- events ---------------------------------------------------------------

  /** The rows `notes` become in a log whose counter stands at `from`. */
  function Numbered(from: int, p: Pair, notes: seq<Note>): (rows: seq<Event>)
    ensures |rows| == |notes|
    ensures forall i :: 0 <= i < |rows| ==>
      rows[i] == Event(from + 1 + i, notes[i].kind, ConvId(p, notes[i].origin))
  {
    seq(|notes|, i requires 0 <= i < |notes| => Event(from + 1 + i, notes[i].kind, ConvId(p, notes[i].origin)))
  }

  function Append(u: UserRow, p: Pair, notes: seq<Note>): UserRow {
    u.(eventSeq := u.eventSeq + |notes|, rows := u.rows + Numbered(u.eventSeq, p, notes))
  }

  /** Every note is written once to each member's log. */
  function EmitAll(users: map<UserId, UserRow>, p: Pair, notes: seq<Note>): map<UserId, UserRow>
    requires p.lo in users && p.hi in users
  {
    users[p.lo := Append(users[p.lo], p, notes)][p.hi := Append(users[p.hi], p, notes)]
  }

  lemma AppendOne(u: UserRow, p: Pair, notes: seq<Note>, n: Note)
    ensures Append(u, p, notes + [n])
         == Append(Append(u, p, notes), p, [n])
  {
    var whole := Numbered(u.eventSeq, p, notes + [n]);
    var parts := Numbered(u.eventSeq, p, notes) + Numbered(u.eventSeq + |notes|, p, [n]);
    assert whole == parts;
    assert u.rows + whole == (u.rows + Numbered(u.eventSeq, p, notes)) + Numbered(u.eventSeq + |notes|, p, [n]);
  }

  // ----- conversations --------------------------------------------------------

  const FRESH_PARTICIPANT := Participant(0, 0, false, false)

  function NewConv(p: Pair, state: ConvState, requester: Option<UserId>, now: int): Conv {
    Conv(state, requester, 0, [], map[p.lo := FRESH_PARTICIPANT, p.hi := FRESH_PARTICIPANT], {}, false, now)
  }

  /** Insert the match conversation unless the pair already has one, in whatever state. */
  function EnsureMatch(p: Pair, row: PairRow, now: int): (r: (PairRow, seq<Note>)) {
    if Match in row.convs then (row, [])
    else (row.(convs := row.convs[Match := NewConv(p, Open, None, now)]), [Note(Match, ConversationNew)])
  }

  /** `order` lists each conversation ClosePair selects once. Which id order the
      database returns them in does not matter to anything below. */
  predicate ClosingOrder(row: PairRow, datingOnly: bool, order: seq<Origin>) {
    && (forall i, j :: 0 <= i < j < |order| ==> order[i] != order[j])
    && (forall o :: o in order <==> o in row.convs && row.convs[o].Live() && (datingOnly ==> o == Match))
  }

  function CloseAll(convs: map<Origin, Conv>, order: seq<Origin>): map<Origin, Conv> {
    map o | o in convs :: if o in order then convs[o].(state := Closed) else convs[o]
  }

  function CloseNotes(order: seq<Origin>): (notes: seq<Note>)
    ensures |notes| == |order|
    ensures forall i :: 0 <= i < |order| ==> notes[i] == Note(order[i], ConversationAccess)
  {
    seq(|order|, i requires 0 <= i < |order| => Note(order[i], ConversationAccess))
  }
}
