/** What opening, sending, acknowledging and acting on a conversation do, told by the rows and
    events they leave. */
module ChatEffects {
  import opened Rows
  import opened ChatLog
  import opened Conversations
  import opened Steps
  import opened Invariants
  import opened Guarantees
  import opened Effects

  // ----- messages -------------------------------------------------------------

  predicate Unused(c: Conv, user: UserId, clientId: Id) {
    forall m :: m in c.messages ==> m.sender != user || m.clientId != clientId
  }

  predicate GoodText(d: Draft) { 1 <= |d.body| <= 4000 }

  /** No reply, or a reply to a message stored in this conversation. */
  predicate GoodReply(messages: seq<Message>, d: Draft) {
    d.replyTo.Some? ==> exists m :: m in messages && m.id == d.replyTo.value
  }

  /** The conversation is open, or this is the introduction of the person who asked. */
  predicate HasFloor(c: Conv, user: UserId) {
    c.state == ConvState.Open || (c.state == Pending && c.requester == Some(user) && c.messages == [])
  }

  /** One message more at the next position, the activity moved, everybody's copy out of the
      archive, and all else as it was. */
  predicate Appended(c: Conv, c': Conv, user: UserId, d: Draft, id: Id, now: int) {
    && c'.messages == c.messages + [Message(id, |c.messages| + 1, user, d.clientId, d.body, d.replyTo)]
    && c'.lastSeq == |c.messages| + 1 && c'.activity == now
    && c'.parts.Keys == c.parts.Keys
    && (forall u :: u in c.parts ==>
         && !c'.parts[u].archived && c'.parts[u].muted == c.parts[u].muted
         && c'.parts[u].read == c.parts[u].read && c'.parts[u].delivered == c.parts[u].delivered)
    && c'.state == c.state && c'.requester == c.requester
    && c'.consents == c.consents && c'.revealed == c.revealed
  }

  /** What the insert makes of a conversation in which this client id is unused. */
  lemma InsertEffect(p: Pair, c: Conv, user: UserId, d: Draft, id: Id, now: int)
    requires GapFree(p, c) && Unused(c, user, d.clientId)
    ensures Insert(c, user, d, id, now).Stored? <==> GoodText(d) && HasFloor(c, user) && GoodReply(c.messages, d)
    ensures Insert(c, user, d, id, now).Stored? ==>
      && Appended(c, Insert(c, user, d, id, now).conv, user, d, id, now)
      && Insert(c, user, d, id, now).message == Message(id, |c.messages| + 1, user, d.clientId, d.body, d.replyTo)
    ensures !Insert(c, user, d, id, now).Stored? ==>
      Insert(c, user, d, id, now) == Rejected(if GoodText(d) && !HasFloor(c, user) then Forbidden else BadRequest)
  {
    var found := Find(c.messages, user, d.clientId);
    assert found.None?;
  }

  lemma ConvIsGapFree(db: Db, p: Pair, o: Origin)
    requires DbInv(db) && o in db.Row(p).convs
    ensures GapFree(p, db.Row(p).convs[o]) && PairInv(p, db.Row(p))
  {
    KnownPair(db, p);
    assert ConvInv(p, o, db.Row(p).convs[o]);
  }

  /** A send under an unused client id stores exactly when the conversation stands, the text is
      valid, the sender has the floor, the reply is good and both accounts are active. */
  lemma SendStoresIff(db: Db, p: Pair, o: Origin, user: UserId, d: Draft, id: Id, now: int)
    requires Called(db, p, Send(user, o, d, id, now))
    requires o in db.Row(p).convs ==> Unused(db.Row(p).convs[o], user, d.clientId)
    ensures Apply(db, OnPair(p, Send(user, o, d, id, now))).Some? <==>
      && Standing(db.Row(p), o) && db.BothActive(p)
      && GoodText(d) && HasFloor(db.Row(p).convs[o], user) && GoodReply(db.Row(p).convs[o].messages, d)
  {
    RowIsFine(db, p);
    StandingIsReachable(p, db.Row(p), o);
    if Reachable(db.Row(p), o) {
      ConvIsGapFree(db, p, o);
      InsertEffect(p, db.Row(p).convs[o], user, d, id, now);
      assert Note(o, MessageNew) in [Note(o, MessageNew)];
    }
  }

  /** This conversation was replaced and nothing else on the row. */
  predicate OnlyConv(row: PairRow, row': PairRow, o: Origin) {
    && o in row.convs && row'.convs.Keys == row.convs.Keys
    && (forall q :: q in row.convs && q != o ==> row'.convs[q] == row.convs[q])
    && row'.likes == row.likes && row'.blocks == row.blocks && row'.matched == row.matched
  }

  lemma SendStoresRow(p: Pair, row: PairRow, o: Origin, user: UserId, d: Draft, id: Id, now: int)
    requires PairInv(p, row) && (o in row.convs ==> Unused(row.convs[o], user, d.clientId))
    requires Conversations.Send(row, o, user, d, id, now).Done?
    ensures var row' := Conversations.Send(row, o, user, d, id, now).row;
            OnlyConv(row, row', o) && Appended(row.convs[o], row'.convs[o], user, d, id, now)
    ensures Conversations.Send(row, o, user, d, id, now).notes == [Note(o, MessageNew)]
  {
    assert ConvInv(p, o, row.convs[o]);
    InsertEffect(p, row.convs[o], user, d, id, now);
  }

  /** And what it then leaves. */
  lemma SendStores(db: Db, p: Pair, o: Origin, user: UserId, d: Draft, id: Id, now: int, db': Db)
    requires DbInv(db) && Apply(db, OnPair(p, Send(user, o, d, id, now))) == Some(db')
    requires o in db.Row(p).convs ==> Unused(db.Row(p).convs[o], user, d.clientId)
    ensures OnlyConv(db.Row(p), db'.Row(p), o)
    ensures Appended(db.Row(p).convs[o], db'.Row(p).convs[o], user, d, id, now)
    ensures Did(db, p, db', [Note(o, MessageNew)])
  {
    StepIsLocal(db, p, Send(user, o, d, id, now), db');
    RowIsFine(db, p);
    SendStoresRow(p, db.Row(p), o, user, d, id, now);
  }

  lemma SilentStep(db: Db, p: Pair, op: PairOp, db': Db)
    requires Apply(db, OnPair(p, op)) == Some(db') && Perform(p, db.Row(p), op) == Done(db.Row(p), [])
    ensures db'.Row(p) == db.Row(p) && Did(db, p, db', [])
  {
    StepIsLocal(db, p, op, db');
  }

  lemma SendAgainIsSame(p: Pair, row: PairRow, o: Origin, user: UserId, d: Draft, id: Id, now: int)
    requires PairInv(p, row) && o in row.convs && !Unused(row.convs[o], user, d.clientId)
    requires Conversations.Send(row, o, user, d, id, now).Done?
    ensures Conversations.Send(row, o, user, d, id, now) == Done(row, [])
  {
    var m :| m in row.convs[o].messages && m.sender == user && m.clientId == d.clientId;
    assert ConvInv(p, o, row.convs[o]);
    TakenKeyNeverStores(row, o, m, d, id, now);
  }

  /** A retry changes nothing at all. */
  lemma SendAgainChangesNothing(db: Db, p: Pair, o: Origin, user: UserId, d: Draft, id: Id, now: int, db': Db)
    requires DbInv(db) && Apply(db, OnPair(p, Send(user, o, d, id, now))) == Some(db')
    requires o in db.Row(p).convs && !Unused(db.Row(p).convs[o], user, d.clientId)
    ensures db'.Row(p) == db.Row(p) && Did(db, p, db', [])
  {
    RowIsFine(db, p);
    SendAgainIsSame(p, db.Row(p), o, user, d, id, now);
    SilentStep(db, p, Send(user, o, d, id, now), db');
  }

  // ----- opening --------------------------------------------------------------

  lemma OpenMatchRow(p: Pair, row: PairRow, user: UserId, id: Id, now: int)
    ensures var out := Conversations.OpenMatch(p, row, user, None, id, now);
            && (out == Refused(Unavailable) <==> row.blocks != {})
            && (out == Refused(Forbidden) <==> row.blocks == {} && row.matched == None)
            && (out.Done? <==> row.blocks == {} && row.matched != None)
            && (out.Done? ==>
                 && HasMatchConv(p, row, out.row, now) && out.notes == MatchNews(row)
                 && out.row.likes == row.likes && out.row.blocks == row.blocks && out.row.matched == row.matched)
  {
  }

  lemma NoMessageNews(row: PairRow)
    ensures !Announces(MatchNews(row))
  {
  }

  /** Opening a match without a message: refused by a block and without a match; otherwise the
      conversation is there, and nothing else has changed. */
  lemma OpenMatchEffect(db: Db, p: Pair, user: UserId, id: Id, now: int)
    requires Called(db, p, OpenMatch(user, None, id, now))
    ensures Perform(p, db.Row(p), OpenMatch(user, None, id, now)) == Refused(Unavailable) <==> db.Row(p).blocks != {}
    ensures Perform(p, db.Row(p), OpenMatch(user, None, id, now)) == Refused(Forbidden) <==>
      db.Row(p).blocks == {} && db.Row(p).matched == None
    ensures Apply(db, OnPair(p, OpenMatch(user, None, id, now))).Some? <==>
      db.Row(p).blocks == {} && db.Row(p).matched != None
    ensures Apply(db, OnPair(p, OpenMatch(user, None, id, now))).Some? ==>
      var db' := Apply(db, OnPair(p, OpenMatch(user, None, id, now))).value;
      && HasMatchConv(p, db.Row(p), db'.Row(p), now) && Did(db, p, db', MatchNews(db.Row(p)))
      && db'.Row(p).likes == db.Row(p).likes && db'.Row(p).blocks == db.Row(p).blocks
      && db'.Row(p).matched == db.Row(p).matched
  {
    NoMessageNews(db.Row(p));
    OpenMatchRow(p, db.Row(p), user, id, now);
    TakenIff(db, p, OpenMatch(user, None, id, now));
    if Apply(db, OnPair(p, OpenMatch(user, None, id, now))).Some? {
      StepIsLocal(db, p, OpenMatch(user, None, id, now), Apply(db, OnPair(p, OpenMatch(user, None, id, now))).value);
    }
  }

  /** The conversation the first message goes to: the one there is, or a new one. */
  predicate Receives(p: Pair, row: PairRow, o: Origin, c: Conv, user: UserId, now: int) {
    if o in row.convs then c == row.convs[o]
    else if o == Match then IsNew(c, p, ConvState.Open, None, now)
    else IsNew(c, p, Pending, Some(user), now)
  }

  /** One conversation holds one message more, and the rest of the row is as it was. */
  predicate FirstMessage(p: Pair, row: PairRow, row': PairRow, o: Origin, c: Conv,
                         user: UserId, d: Draft, id: Id, now: int)
  {
    && Receives(p, row, o, c, user, now)
    && row'.convs.Keys == row.convs.Keys + {o} && Appended(c, row'.convs[o], user, d, id, now)
    && (forall q :: q in row.convs && q != o ==> row'.convs[q] == row.convs[q])
    && row'.likes == row.likes && row'.blocks == row.blocks && row'.matched == row.matched
  }

  /** What lets a first message under an unused client id in. */
  predicate MayOpenWith(p: Pair, row: PairRow, o: Origin, user: UserId, d: Draft) {
    && row.blocks == {} && (o == Match ==> row.matched != None) && GoodText(d)
    && if o in row.convs then row.convs[o].state == ConvState.Open && GoodReply(row.convs[o].messages, d)
       else d.replyTo == None
  }

  /** Sending into a conversation that takes messages from this user. */
  lemma SendInto(p: Pair, row: PairRow, o: Origin, user: UserId, d: Draft, id: Id, now: int)
    requires Reachable(row, o) && GapFree(p, row.convs[o]) && Unused(row.convs[o], user, d.clientId)
    ensures var out := Conversations.Send(row, o, user, d, id, now);
            if GoodText(d) && HasFloor(row.convs[o], user) && GoodReply(row.convs[o].messages, d) then
              && out.Done? && out.notes == [Note(o, MessageNew)] && OnlyConv(row, out.row, o)
              && Appended(row.convs[o], out.row.convs[o], user, d, id, now)
            else out.Refused?
  {
    InsertEffect(p, row.convs[o], user, d, id, now);
  }

  /** The message sent into the row that holds the conversation is the first message. */
  lemma SentIsFirst(p: Pair, row: PairRow, base: PairRow, out: PairRow, o: Origin, c: Conv,
                    user: UserId, d: Draft, id: Id, now: int)
    requires Receives(p, row, o, c, user, now) && base == row.(convs := row.convs[o := c])
    requires OnlyConv(base, out, o) && Appended(c, out.convs[o], user, d, id, now)
    ensures FirstMessage(p, row, out, o, c, user, d, id, now)
  {
    forall q | q in row.convs && q != o ensures out.convs[q] == row.convs[q] { assert base.convs[q] == row.convs[q]; }
  }

  lemma ReceiverIsFine(p: Pair, row: PairRow, o: Origin, c: Conv, user: UserId, d: Draft, now: int)
    requires p.Ordered() && PairInv(p, row) && Receives(p, row, o, c, user, now) && (o == Match || o == Request)
    requires o in row.convs ==> Unused(row.convs[o], user, d.clientId)
    ensures GapFree(p, c) && Unused(c, user, d.clientId)
    ensures o in row.convs && c.state == Pending ==> c.messages != []
    ensures o !in row.convs ==> c.messages == [] && (GoodReply(c.messages, d) <==> d.replyTo == None)
  {
    if o in row.convs { assert ConvInv(p, o, c); }
  }

  lemma MatchIsNeverPending(p: Pair, row: PairRow)
    requires PairInv(p, row)
    ensures Match in row.convs ==> row.convs[Match].state != Pending
  {
    if Match in row.convs { assert ConvInv(p, Match, row.convs[Match]); }
  }

  lemma OpenMatchSends(p: Pair, row: PairRow, c: Conv, user: UserId, d: Draft, id: Id, now: int)
    requires p.Ordered() && PairInv(p, row)
    requires Match in row.convs ==> Unused(row.convs[Match], user, d.clientId)
    requires c == if Match in row.convs then row.convs[Match] else NewConv(p, ConvState.Open, None, now)
    ensures Receives(p, row, Match, c, user, now)
    ensures var out := Conversations.OpenMatch(p, row, user, Some(d), id, now);
            && (out.Done? <==> MayOpenWith(p, row, Match, user, d))
            && (out.Done? ==>
                 FirstMessage(p, row, out.row, Match, c, user, d, id, now)
                 && out.notes == MatchNews(row) + [Note(Match, MessageNew)])
  {
    if row.blocks == {} && row.matched.Some? {
      var base := row.(convs := row.convs[Match := c]);
      assert Match in row.convs ==> row.convs[Match := c] == row.convs;
      assert ChatLog.EnsureMatch(p, row, now) == (base, MatchNews(row));
      ReceiverIsFine(p, row, Match, c, user, d, now);
      MatchIsNeverPending(p, row);
      if Reachable(base, Match) {
        SendInto(p, base, Match, user, d, id, now);
        var sent := Conversations.Send(base, Match, user, d, id, now);
        if sent.Done? { SentIsFirst(p, row, base, sent.row, Match, c, user, d, id, now); }
      }
    }
  }

  lemma OpenRequestSends(p: Pair, row: PairRow, c: Conv, user: UserId, d: Draft, id: Id, now: int)
    requires p.Ordered() && PairInv(p, row)
    requires Request in row.convs ==> Unused(row.convs[Request], user, d.clientId)
    requires c == if Request in row.convs then row.convs[Request] else NewConv(p, Pending, Some(user), now)
    ensures Receives(p, row, Request, c, user, now)
    ensures var out := Conversations.OpenRequest(p, row, user, d, id, now);
            && (out.Done? <==> MayOpenWith(p, row, Request, user, d))
            && (out.Done? ==>
                 FirstMessage(p, row, out.row, Request, c, user, d, id, now)
                 && out.notes == [Note(Request, MessageNew)])
  {
    if row.blocks == {} {
      var base := row.(convs := row.convs[Request := c]);
      assert Request in row.convs ==> row.convs[Request := c] == row.convs;
      ReceiverIsFine(p, row, Request, c, user, d, now);
      if Reachable(base, Request) {
        SendInto(p, base, Request, user, d, id, now);
        var sent := Conversations.Send(base, Request, user, d, id, now);
        if sent.Done? { SentIsFirst(p, row, base, sent.row, Request, c, user, d, id, now); }
      }
    }
  }

  /** Opening a match with a first message under an unused client id succeeds exactly when
      nothing stands against it, and stores it in the match conversation. */
  lemma OpenMatchWithMessage(db: Db, p: Pair, user: UserId, d: Draft, id: Id, now: int) returns (c: Conv)
    requires Called(db, p, OpenMatch(user, Some(d), id, now))
    requires Match in db.Row(p).convs ==> Unused(db.Row(p).convs[Match], user, d.clientId)
    ensures Apply(db, OnPair(p, OpenMatch(user, Some(d), id, now))).Some? <==>
      MayOpenWith(p, db.Row(p), Match, user, d) && db.BothActive(p)
    ensures Apply(db, OnPair(p, OpenMatch(user, Some(d), id, now))).Some? ==>
      var db' := Apply(db, OnPair(p, OpenMatch(user, Some(d), id, now))).value;
      && FirstMessage(p, db.Row(p), db'.Row(p), Match, c, user, d, id, now)
      && Did(db, p, db', MatchNews(db.Row(p)) + [Note(Match, MessageNew)])
  {
    var op := OpenMatch(user, Some(d), id, now);
    RowIsFine(db, p);
    c := if Match in db.Row(p).convs then db.Row(p).convs[Match] else NewConv(p, ConvState.Open, None, now);
    OpenMatchSends(p, db.Row(p), c, user, d, id, now);
    assert Note(Match, MessageNew) in MatchNews(db.Row(p)) + [Note(Match, MessageNew)];
    TakenIff(db, p, op);
    if Apply(db, OnPair(p, op)).Some? { StepIsLocal(db, p, op, Apply(db, OnPair(p, op)).value); }
  }

  /** Asking, with an introduction under an unused client id, succeeds exactly when nothing
      stands against it; a new request is then pending on that one message. */
  lemma OpenRequestWithMessage(db: Db, p: Pair, user: UserId, d: Draft, id: Id, now: int) returns (c: Conv)
    requires Called(db, p, OpenRequest(user, d, id, now))
    requires Request in db.Row(p).convs ==> Unused(db.Row(p).convs[Request], user, d.clientId)
    ensures Apply(db, OnPair(p, OpenRequest(user, d, id, now))).Some? <==>
      MayOpenWith(p, db.Row(p), Request, user, d) && db.BothActive(p)
    ensures Apply(db, OnPair(p, OpenRequest(user, d, id, now))).Some? ==>
      var db' := Apply(db, OnPair(p, OpenRequest(user, d, id, now))).value;
      && FirstMessage(p, db.Row(p), db'.Row(p), Request, c, user, d, id, now)
      && Did(db, p, db', [Note(Request, MessageNew)])
  {
    var op := OpenRequest(user, d, id, now);
    RowIsFine(db, p);
    c := if Request in db.Row(p).convs then db.Row(p).convs[Request] else NewConv(p, Pending, Some(user), now);
    OpenRequestSends(p, db.Row(p), c, user, d, id, now);
    assert Note(Request, MessageNew) in [Note(Request, MessageNew)];
    TakenIff(db, p, op);
    if Apply(db, OnPair(p, op)).Some? { StepIsLocal(db, p, op, Apply(db, OnPair(p, op)).value); }
  }

  /** The anonymous pairing: refused by a block and by an earlier one; else a new open
      conversation both are told of. */
  lemma MeetEffect(db: Db, p: Pair, now: int)
    requires Called(db, p, Meet(now))
    ensures Apply(db, OnPair(p, Meet(now))).Some? <==> db.Row(p).blocks == {} && Anonymous !in db.Row(p).convs
    ensures Apply(db, OnPair(p, Meet(now))).Some? ==>
      var row, row' := db.Row(p), Apply(db, OnPair(p, Meet(now))).value.Row(p);
      && row'.convs.Keys == row.convs.Keys + {Anonymous} && IsNew(row'.convs[Anonymous], p, ConvState.Open, None, now)
      && (forall q :: q in row.convs ==> row'.convs[q] == row.convs[q])
      && row'.likes == row.likes && row'.blocks == row.blocks && row'.matched == row.matched
      && Did(db, p, Apply(db, OnPair(p, Meet(now))).value, [Note(Anonymous, ConversationNew)])
  {
    if Apply(db, OnPair(p, Meet(now))).Some? { StepIsLocal(db, p, Meet(now), Apply(db, OnPair(p, Meet(now))).value); }
  }

  // ----- receipts -------------------------------------------------------------

  function AckNote(o: Origin, read: bool): Note { Note(o, if read then ReceiptRead else ReceiptDelivered) }

  function Later(a: int, b: int): int { if a >= b then a else b }

  /** The reader's cursors after acknowledging this position. */
  predicate Acked(was: Participant, now: Participant, upTo: int, read: bool) {
    && now.muted == was.muted && now.archived == was.archived
    && now.delivered == Later(was.delivered, upTo)
    && now.read == if read then Later(was.read, upTo) else was.read
  }

  /** This member's participant row was replaced and nothing else on the row. */
  predicate OnlyParticipant(row: PairRow, row': PairRow, o: Origin, user: UserId) {
    && OnlyConv(row, row', o)
    && row'.convs[o].parts.Keys == row.convs[o].parts.Keys && user in row.convs[o].parts
    && (forall u :: u in row.convs[o].parts && u != user ==> row'.convs[o].parts[u] == row.convs[o].parts[u])
    && row'.convs[o] == row.convs[o].(parts := row'.convs[o].parts)
  }

  lemma PartReplaced(row: PairRow, row': PairRow, o: Origin, user: UserId, part: Participant)
    requires o in row.convs && user in row.convs[o].parts
    requires row' == row.(convs := row.convs[o := row.convs[o].(parts := row.convs[o].parts[user := part])])
    ensures OnlyParticipant(row, row', o, user) && row'.convs[o].parts[user] == part
    ensures row' == row <==> part == row.convs[o].parts[user]
  {
    assert row'.convs[o] == row.convs[o].(parts := row.convs[o].parts[user := part]);
    if part == row.convs[o].parts[user] {
      assert row.convs[o].parts[user := part] == row.convs[o].parts && row.convs[o := row.convs[o]] == row.convs;
    }
  }

  lemma ReceiptTakenIff(row: PairRow, o: Origin, user: UserId, upTo: int, read: bool)
    ensures var out := Conversations.Receipt(row, o, user, upTo, read);
            && (out == Refused(Unavailable) <==> !Reachable(row, o))
            && (out == Refused(BadRequest) <==> Reachable(row, o) && !(0 <= upTo <= row.convs[o].lastSeq))
            && (out.Done? <==> Reachable(row, o) && 0 <= upTo <= row.convs[o].lastSeq)
            && (out.Done? ==> out.notes == [] || out.notes == [AckNote(o, read)])
  {
  }

  lemma ReceiptRow(p: Pair, row: PairRow, o: Origin, user: UserId, upTo: int, read: bool)
    requires PairInv(p, row) && p.Has(user)
    ensures var out := Conversations.Receipt(row, o, user, upTo, read);
            && (out == Refused(Unavailable) <==> !Standing(row, o))
            && (out == Refused(BadRequest) <==> Standing(row, o) && !(0 <= upTo <= row.convs[o].lastSeq))
            && (out.Done? <==> Standing(row, o) && 0 <= upTo <= row.convs[o].lastSeq)
            && (out.Done? ==>
                 && OnlyParticipant(row, out.row, o, user)
                 && Acked(row.convs[o].parts[user], out.row.convs[o].parts[user], upTo, read)
                 && out.notes == if out.row == row then [] else [AckNote(o, read)])
  {
    var out := Conversations.Receipt(row, o, user, upTo, read);
    StandingIsReachable(p, row, o);
    ReceiptTakenIff(row, o, user, upTo, read);
    if out.Done? {
      PairParts(p, row, o);
      ReceiptIsRecorded(p, row, o, user, upTo, read);
      var was := row.convs[o].parts[user];
      PartReplaced(row, out.row, o, user,
                   was.(read := if read then Max(was.read, upTo) else was.read, delivered := Max(was.delivered, upTo)));
    }
  }

  /** An acknowledgement is taken exactly inside the history of a conversation that stands, moves
      only the caller's cursors, and tells both members only if it moved one. */
  lemma ReceiptEffect(db: Db, p: Pair, o: Origin, user: UserId, upTo: int, read: bool)
    requires Called(db, p, Receipt(user, o, upTo, read))
    ensures Apply(db, OnPair(p, Receipt(user, o, upTo, read))).Some? <==>
      Standing(db.Row(p), o) && 0 <= upTo <= db.Row(p).convs[o].lastSeq
    ensures Apply(db, OnPair(p, Receipt(user, o, upTo, read))).Some? ==>
      var row, db' := db.Row(p), Apply(db, OnPair(p, Receipt(user, o, upTo, read))).value;
      && OnlyParticipant(row, db'.Row(p), o, user)
      && Acked(row.convs[o].parts[user], db'.Row(p).convs[o].parts[user], upTo, read)
      && Did(db, p, db', if db'.Row(p) == row then [] else [AckNote(o, read)])
  {
    var op := Receipt(user, o, upTo, read);
    RowIsFine(db, p);
    ReceiptRow(p, db.Row(p), o, user, upTo, read);
    TakenIff(db, p, op);
    if Apply(db, OnPair(p, op)).Some? { StepIsLocal(db, p, op, Apply(db, OnPair(p, op)).value); }
  }

  // ----- actions --------------------------------------------------------------

  /** This conversation differs only in its state. */
  predicate OnlyState(row: PairRow, row': PairRow, o: Origin, state: ConvState) {
    OnlyConv(row, row', o) && row'.convs[o] == row.convs[o].(state := state)
  }

  /** Only the other person's answer to a request counts. */
  predicate MayAnswer(row: PairRow, o: Origin, user: UserId) {
    o == Request && o in row.convs && row.convs[o].requester != Some(user)
  }

  lemma AcceptRow(p: Pair, row: PairRow, o: Origin, user: UserId)
    requires PairInv(p, row)
    ensures var out := Conversations.Act(row, o, user, Accept);
            && (out == Refused(Unavailable) <==> !Standing(row, o))
            && (out == Refused(Forbidden) <==> Standing(row, o) && !MayAnswer(row, o, user))
            && (out.Done? <==> Standing(row, o) && MayAnswer(row, o, user))
            && (out.Done? ==> OnlyState(row, out.row, o, ConvState.Open))
            && (out.Done? ==> out.notes == if row.convs[o].state == Pending then [Note(o, ConversationAccess)] else [])
  {
    StandingIsReachable(p, row, o);
  }

  lemma DeclineRow(p: Pair, row: PairRow, o: Origin, user: UserId)
    requires PairInv(p, row)
    ensures var out := Conversations.Act(row, o, user, Decline);
            && (out == Refused(Unavailable) <==> !Standing(row, o))
            && (out.Done? <==> Standing(row, o) && MayAnswer(row, o, user) && row.convs[o].state == Pending)
            && (out.Refused? ==> out == Refused(Unavailable) || out == Refused(Forbidden))
            && (out.Done? ==> OnlyState(row, out.row, o, Declined) && out.notes == [Note(o, ConversationAccess)])
  {
    StandingIsReachable(p, row, o);
  }

  /** The caller's consent is there, the other's exactly if it was, and the mask is off exactly
      when both are. */
  ghost predicate Consented(p: Pair, row: PairRow, row': PairRow, user: UserId) {
    && OnlyConv(row, row', Anonymous)
    && (var c, c' := row.convs[Anonymous], row'.convs[Anonymous];
        && user in c'.consents && (forall u :: u != user ==> (u in c'.consents <==> u in c.consents))
        && (c'.revealed <==> p.lo in c'.consents && p.hi in c'.consents)
        && c' == c.(consents := c'.consents, revealed := c'.revealed))
  }

  lemma ConsentRow(p: Pair, row: PairRow, user: UserId)
    requires p.Ordered() && p.Has(user) && Anonymous in row.convs && row.convs[Anonymous].consents <= {p.lo, p.hi}
    ensures var c := row.convs[Anonymous];
            var both := |c.consents + {user}| == 2;
            var c' := c.(consents := c.consents + {user}, revealed := both);
            Consented(p, row, row.(convs := row.convs[Anonymous := c']), user)
  {
    var all := row.convs[Anonymous].consents + {user};
    TwoConsents(p, all);
    assert p.lo in all && p.hi in all ==> all == {p.lo, p.hi};
  }

  lemma RevealTakenIff(row: PairRow, o: Origin, user: UserId)
    requires o in row.convs && row.convs[o].state == Pending ==> o != Anonymous
    ensures var out := Conversations.Act(row, o, user, Reveal);
            && (out == Refused(Unavailable) <==> !Reachable(row, o))
            && (out == Refused(Forbidden) <==> Reachable(row, o) && o != Anonymous)
            && (out.Done? <==> Reachable(row, o) && o == Anonymous)
  {
  }

  lemma RevealRow(p: Pair, row: PairRow, o: Origin, user: UserId)
    requires p.Ordered() && PairInv(p, row) && p.Has(user)
    ensures var out := Conversations.Act(row, o, user, Reveal);
            && (out == Refused(Unavailable) <==> !Standing(row, o))
            && (out == Refused(Forbidden) <==> Standing(row, o) && o != Anonymous)
            && (out.Done? <==> Standing(row, o) && o == Anonymous)
            && (out.Done? && row.convs[o].revealed ==> out == Done(row, []))
            && (out.Done? && !row.convs[o].revealed ==>
                 Consented(p, row, out.row, user)
                 && out.notes == [Note(o, if out.row.convs[o].revealed then IdentityRevealed else ConversationAccess)])
  {
    StandingIsReachable(p, row, o);
    assert o in row.convs ==> ConvInv(p, o, row.convs[o]);
    RevealTakenIff(row, o, user);
    if Standing(row, o) && o == Anonymous { ConsentRow(p, row, user); }
  }

  /** The caller's muted or archived flag is set as asked, and nothing else changes. */
  predicate Flagged(row: PairRow, row': PairRow, o: Origin, user: UserId, action: Action) {
    && OnlyParticipant(row, row', o, user)
    && (var was, now := row.convs[o].parts[user], row'.convs[o].parts[user];
        && now.read == was.read && now.delivered == was.delivered
        && now.muted == (if action == Mute then true else if action == Unmute then false else was.muted)
        && now.archived == if action == Archive then true else if action == Unarchive then false else was.archived)
  }

  lemma FlagRow(p: Pair, row: PairRow, o: Origin, user: UserId, action: Action)
    requires PairInv(p, row) && p.Has(user) && action in {Mute, Unmute, Archive, Unarchive}
    ensures var out := Conversations.Act(row, o, user, action);
            && (out.Done? <==> Standing(row, o)) && (out.Refused? ==> out == Refused(Unavailable))
            && (out.Done? ==> Flagged(row, out.row, o, user, action) && out.notes == [Note(o, ConversationAccess)])
  {
    StandingIsReachable(p, row, o);
    if Standing(row, o) {
      PairParts(p, row, o);
      FlagsOnly(row, o, user, action);
      PartReplaced(row, Conversations.Act(row, o, user, action).row, o, user, Adjust(row.convs[o].parts[user], action));
    }
  }

  /** What each action does to the row, and what both members are told. */
  ghost predicate ActedAs(p: Pair, row: PairRow, row': PairRow, o: Origin, user: UserId, action: Action,
                          told: seq<Note>)
    requires Standing(row, o)
  {
    match action
    case Accept =>
      && OnlyState(row, row', o, ConvState.Open)
      && told == if row.convs[o].state == Pending then [Note(o, ConversationAccess)] else []
    case Decline => OnlyState(row, row', o, Declined) && told == [Note(o, ConversationAccess)]
    case Reveal =>
      if row.convs[o].revealed then row' == row && told == []
      else
        && o == Anonymous && Consented(p, row, row', user)
        && told == [Note(o, if row'.convs[o].revealed then IdentityRevealed else ConversationAccess)]
    case _ => Flagged(row, row', o, user, action) && told == [Note(o, ConversationAccess)]
  }

  /** Who may take the action, on a conversation that stands. */
  predicate MayAct(row: PairRow, o: Origin, user: UserId, action: Action) {
    Standing(row, o) &&
    match action
    case Accept => MayAnswer(row, o, user)
    case Decline => MayAnswer(row, o, user) && row.convs[o].state == Pending
    case Reveal => o == Anonymous
    case _ => true
  }

  lemma OnlyForbidden(row: PairRow, o: Origin, user: UserId, action: Action)
    ensures var out := Conversations.Act(row, o, user, action);
            Reachable(row, o) && out.Refused? ==> out == Refused(Forbidden)
  {
  }

  lemma ActRow(p: Pair, row: PairRow, o: Origin, user: UserId, action: Action)
    requires p.Ordered() && PairInv(p, row) && p.Has(user)
    ensures var out := Conversations.Act(row, o, user, action);
            && (out.Done? <==> MayAct(row, o, user, action))
            && (out.Done? ==> ActedAs(p, row, out.row, o, user, action, out.notes))
  {
    match action {
      case Accept => AcceptRow(p, row, o, user);
      case Decline => DeclineRow(p, row, o, user);
      case Reveal => RevealRow(p, row, o, user);
      case _ => FlagRow(p, row, o, user, action);
    }
  }

  lemma ActAnswers(p: Pair, row: PairRow, o: Origin, user: UserId, action: Action)
    requires p.Ordered() && PairInv(p, row) && p.Has(user) && o in row.convs
    requires row.convs[o].state != Closed && row.convs[o].state != Declined
    ensures Standing(row, o)
    ensures var out := Conversations.Act(row, o, user, action);
            if MayAct(row, o, user, action) then out.Done? else out == Refused(Forbidden)
  {
    ActRow(p, row, o, user, action);
    OnlyForbidden(row, o, user, action);
    StandingIsReachable(p, row, o);
  }

  lemma ActsAreNoMessages(row: PairRow, o: Origin, user: UserId, action: Action)
    ensures Conversations.Act(row, o, user, action).Done? ==> !Announces(Conversations.Act(row, o, user, action).notes)
  {
  }

  /** Accepting opens a pending request, declining ends it, revealing adds the caller's consent,
      and muting and archiving set the caller's flag: exactly for those who may, and no more. */
  lemma ActEffect(db: Db, p: Pair, o: Origin, user: UserId, action: Action) returns (told: seq<Note>)
    requires Called(db, p, Act(user, o, action))
    ensures Apply(db, OnPair(p, Act(user, o, action))).Some? <==> MayAct(db.Row(p), o, user, action)
    ensures MayAct(db.Row(p), o, user, action) ==>
      var db' := Apply(db, OnPair(p, Act(user, o, action))).value;
      ActedAs(p, db.Row(p), db'.Row(p), o, user, action, told) && Did(db, p, db', told)
  {
    var op := Act(user, o, action);
    RowIsFine(db, p);
    ActRow(p, db.Row(p), o, user, action);
    ActsAreNoMessages(db.Row(p), o, user, action);
    TakenIff(db, p, op);
    told := if Perform(p, db.Row(p), op).Done? then Perform(p, db.Row(p), op).notes else [];
    if Apply(db, OnPair(p, op)).Some? { StepIsLocal(db, p, op, Apply(db, OnPair(p, op)).value); }
  }
}
