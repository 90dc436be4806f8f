/** What the inbox shows after a message, a receipt or an answer, and what its flags promise. */
module InboxEffects {
  import opened Rows
  import opened Conversations
  import opened Steps
  import opened Invariants
  import opened Guarantees
  import opened Effects
  import opened ChatEffects
  import opened Inbox

  // ----- order ----------------------------------------------------------------

  /** A conversation just sent to stands above everything last active before. */
  lemma SentIsOnTop(ids: Uuids, db: Db, p: Pair, o: Origin, user: UserId, d: Draft, id: Id, now: int, db': Db, k: Key)
    requires DbInv(db) && Apply(db, OnPair(p, Send(user, o, d, id, now))) == Some(db')
    requires o in db.Row(p).convs ==> Unused(db.Row(p).convs[o], user, d.clientId)
    requires k.at < now
    ensures o in db'.Row(p).convs && Less(ids, k, KeyOf(db', ConvId(p, o))) && !Less(ids, KeyOf(db', ConvId(p, o)), k)
  {
    SendStores(db, p, o, user, d, id, now, db');
  }

  /** So in anybody's listing only conversations active since come before it. */
  lemma OnlyNewerComeBefore(ids: Uuids, db: Db, p: Pair, o: Origin, user: UserId, d: Draft, id: Id, now: int, db': Db,
                            reader: UserId, rows: seq<Key>, i: nat, j: nat)
    requires DbInv(db) && Apply(db, OnPair(p, Send(user, o, d, id, now))) == Some(db')
    requires o in db.Row(p).convs ==> Unused(db.Row(p).convs[o], user, d.clientId)
    requires IsSorted(ids, InboxKeys(db', reader), rows)
    requires i < j < |rows| && rows[j].conv == ConvId(p, o)
    ensures rows[i].at >= now
  {
    assert rows[j] in InboxKeys(db', reader);
    KeyIsListed(db', reader, rows[j]);
    if rows[i].at < now { SentIsOnTop(ids, db, p, o, user, d, id, now, db', rows[i]); }
  }

  // ----- unread counts --------------------------------------------------------

  lemma AppendedUnread(p: Pair, c: Conv, c': Conv, user: UserId, d: Draft, id: Id, now: int, reader: UserId)
    requires Appended(c, c', user, d, id, now) && ReceiptsInOrder(p, c) && GapFree(p, c) && reader in c.parts
    ensures |c.messages| !in UnreadIn(c, reader)
    ensures UnreadIn(c', reader) == UnreadIn(c, reader) + if reader == user then {} else {|c.messages|}
  {
    forall i | 0 <= i < |c.messages| ensures i in UnreadIn(c', reader) <==> i in UnreadIn(c, reader) {
      assert c'.messages[i] == c.messages[i];
    }
    assert c'.messages[|c.messages|].sender == user && c'.messages[|c.messages|].pos > c.parts[reader].read;
  }

  lemma ConvIsSound(db: Db, p: Pair, o: Origin)
    requires DbInv(db) && o in db.Row(p).convs
    ensures var c := db.Row(p).convs[o]; ReceiptsInOrder(p, c) && GapFree(p, c) && ConvInv(p, o, c)
  {
    KnownPair(db, p);
  }

  /** A message is one more unread for the other person, and none for its sender. */
  lemma SentIsOneMoreUnread(db: Db, p: Pair, o: Origin, user: UserId, d: Draft, id: Id, now: int, db': Db,
                            reader: UserId)
    requires DbInv(db) && Apply(db, OnPair(p, Send(user, o, d, id, now))) == Some(db') && p.Has(reader)
    requires o in db.Row(p).convs && Unused(db.Row(p).convs[o], user, d.clientId)
    ensures OnlyConv(db.Row(p), db'.Row(p), o)
    ensures var c, c' := db.Row(p).convs[o], db'.Row(p).convs[o];
            && reader in c.parts && reader in c'.parts && UnreadIn(c, reader) <= UnreadIn(c', reader)
            && |UnreadIn(c', reader)| == |UnreadIn(c, reader)| + if reader == user then 0 else 1
  {
    ConvIsSound(db, p, o);
    SendStores(db, p, o, user, d, id, now, db');
    AppendedUnread(p, db.Row(p).convs[o], db'.Row(p).convs[o], user, d, id, now, reader);
  }

  lemma AckedUnread(c: Conv, c': Conv, reader: UserId, upTo: int, read: bool, i: int)
    requires reader in c.parts && reader in c'.parts && c'.messages == c.messages
    requires Acked(c.parts[reader], c'.parts[reader], upTo, read)
    ensures i in UnreadIn(c', reader) <==> i in UnreadIn(c, reader) && (read ==> c.messages[i].pos > upTo)
  {
  }

  /** Acknowledging a position as read leaves exactly the unread messages past it; acknowledging
      it as delivered leaves them all. */
  lemma ReadIsReadUpTo(db: Db, p: Pair, o: Origin, reader: UserId, upTo: int, read: bool, db': Db, i: int)
    requires Called(db, p, Receipt(reader, o, upTo, read))
    requires Apply(db, OnPair(p, Receipt(reader, o, upTo, read))) == Some(db')
    ensures OnlyParticipant(db.Row(p), db'.Row(p), o, reader)
    ensures var c, c' := db.Row(p).convs[o], db'.Row(p).convs[o];
            i in UnreadIn(c', reader) <==> i in UnreadIn(c, reader) && (read ==> c.messages[i].pos > upTo)
  {
    ReceiptEffect(db, p, o, reader, upTo, read);
    AckedUnread(db.Row(p).convs[o], db'.Row(p).convs[o], reader, upTo, read, i);
  }

  /** So having read everything leaves nothing unread. */
  lemma ReadingAllClears(db: Db, p: Pair, o: Origin, reader: UserId, upTo: int, db': Db)
    requires Called(db, p, Receipt(reader, o, upTo, true))
    requires Apply(db, OnPair(p, Receipt(reader, o, upTo, true))) == Some(db')
    requires o in db.Row(p).convs && upTo == db.Row(p).convs[o].lastSeq
    ensures OnlyParticipant(db.Row(p), db'.Row(p), o, reader)
    ensures UnreadIn(db'.Row(p).convs[o], reader) == {}
  {
    ConvIsSound(db, p, o);
    ReceiptEffect(db, p, o, reader, upTo, true);
    forall i ensures i !in UnreadIn(db'.Row(p).convs[o], reader) {
      AckedUnread(db.Row(p).convs[o], db'.Row(p).convs[o], reader, upTo, true, i);
    }
  }

  // ----- the flags of an inbox row --------------------------------------------

  /** What the listing selects as `can_send` and `can_accept`. */
  predicate CanSend(c: Conv, user: UserId) {
    c.state == ConvState.Open || (c.state == Pending && c.requester == Some(user) && c.lastSeq == 0)
  }

  predicate CanAccept(c: Conv, user: UserId) { c.state == Pending && c.requester != Some(user) }

  lemma ListedStands(db: Db, id: ConvId, user: UserId)
    requires DbInv(db) && user in db.users && db.users[user].active && Listed(db, id, user)
    ensures Standing(db.Row(id.pair), id.origin) && db.BothActive(id.pair) && id.pair.Has(user)
    ensures id.pair.Ordered() && db.Knows(id.pair) && ConvInv(id.pair, id.origin, db.Row(id.pair).convs[id.origin])
  {
    ListedIsMemberAndLive(db, id, user);
    KnownPair(db, id.pair);
  }

  /** The row says the user can send exactly when a valid message under an unused client id
      would be stored. */
  lemma CanSendIsTrue(db: Db, id: ConvId, user: UserId, d: Draft, mid: Id, now: int)
    requires DbInv(db) && user in db.users && db.users[user].active && Listed(db, id, user)
    requires var c := db.Row(id.pair).convs[id.origin];
             Unused(c, user, d.clientId) && GoodText(d) && GoodReply(c.messages, d)
    ensures CanSend(db.Row(id.pair).convs[id.origin], user) <==>
      Apply(db, OnPair(id.pair, Send(user, id.origin, d, mid, now))).Some?
  {
    ListedStands(db, id, user);
    SendStoresIff(db, id.pair, id.origin, user, d, mid, now);
  }

  lemma OpenedIffPending(row: PairRow, row': PairRow, o: Origin)
    requires Standing(row, o) && OnlyState(row, row', o, ConvState.Open)
    ensures row' != row <==> row.convs[o].state == Pending
  {
    if row.convs[o].state == ConvState.Open {
      assert row'.convs[o] == row.convs[o];
      assert row'.convs == row.convs;
    }
  }

  /** And that they can accept exactly when accepting would change anything, and exactly when
      they could decline instead. */
  lemma CanAcceptIsTrue(db: Db, id: ConvId, user: UserId)
    requires DbInv(db) && user in db.users && db.users[user].active && Listed(db, id, user)
    ensures CanAccept(db.Row(id.pair).convs[id.origin], user) <==>
      Apply(db, OnPair(id.pair, Act(user, id.origin, Decline))).Some?
    ensures CanAccept(db.Row(id.pair).convs[id.origin], user) <==>
      var after := Apply(db, OnPair(id.pair, Act(user, id.origin, Accept)));
      after.Some? && after.value.Row(id.pair) != db.Row(id.pair)
  {
    ListedStands(db, id, user);
    var declined := ActEffect(db, id.pair, id.origin, user, Decline);
    var accepted := ActEffect(db, id.pair, id.origin, user, Accept);
    assert db.Row(id.pair).convs[id.origin].state == Pending ==> id.origin == Request;
    if Apply(db, OnPair(id.pair, Act(user, id.origin, Accept))).Some? {
      var db' := Apply(db, OnPair(id.pair, Act(user, id.origin, Accept))).value;
      OpenedIffPending(db.Row(id.pair), db'.Row(id.pair), id.origin);
    }
  }
}
