/** The invariant of the step level, and what a pair's rows never undo. */
module Invariants {
  import opened Rows
  import opened ChatLog
  import opened Conversations
  import opened Steps
  import Social
  import Safety

  // ----- one conversation -----------------------------------------------------

  /** Receipts stay ordered inside the thread. */
  predicate ReceiptsInOrder(p: Pair, c: Conv) {
    && c.parts.Keys == {p.lo, p.hi}
    && forall u :: u in c.parts ==> 0 <= c.parts[u].read <= c.parts[u].delivered <= c.lastSeq
  }

  /** Stored positions are exactly 1..last_seq, each from a member. */
  predicate GapFree(p: Pair, c: Conv) {
    && |c.messages| == c.lastSeq
    && forall i :: 0 <= i < |c.messages| ==> c.messages[i].pos == i + 1 && p.Has(c.messages[i].sender)
  }

  predicate OneMessagePerKey(ms: seq<Message>) {
    forall i, j :: 0 <= i < j < |ms| ==> !SameKey(ms[i], ms[j].sender, ms[j].clientId)
  }

  /** A conversation's origin fixes who may have asked for it and who may unmask it. */
  predicate OriginRules(p: Pair, origin: Origin, c: Conv) {
    && (origin == Request <==> c.requester.Some?)
    && (c.requester.Some? ==> p.Has(c.requester.value))
    && (c.state == Declined ==> origin == Request)
    && c.consents <= {p.lo, p.hi}
    && (c.consents != {} ==> origin == Anonymous)
    && (c.revealed <==> c.consents == {p.lo, p.hi})
  }

  /** A pending conversation is one message, from whoever asked. */
  predicate PendingIsOneIntroduction(origin: Origin, c: Conv) {
    c.state == Pending ==>
      origin == Request && |c.messages| == 1 && c.requester == Some(c.messages[0].sender)
  }

  predicate ConvCore(p: Pair, origin: Origin, c: Conv) {
    && ReceiptsInOrder(p, c)
    && GapFree(p, c)
    && OneMessagePerKey(c.messages)
    && OriginRules(p, origin, c)
  }

  predicate ConvInv(p: Pair, origin: Origin, c: Conv) {
    ConvCore(p, origin, c) && PendingIsOneIntroduction(origin, c)
  }

  // ----- one pair -------------------------------------------------------------

  /** A block in either direction leaves nothing behind it. */
  predicate BlockWall(row: PairRow) {
    row.blocks != {} ==>
      && row.matched == None
      && row.likes == {}
      && forall o :: o in row.convs ==> !row.convs[o].Live()
  }

  predicate LikesNeverMutual(p: Pair, row: PairRow) {
    row.likes <= {p.lo, p.hi} && row.likes != {p.lo, p.hi}
  }

  predicate PairInv(p: Pair, row: PairRow) {
    && LikesNeverMutual(p, row)
    && row.blocks <= {p.lo, p.hi}
    && BlockWall(row)
    && (Match in row.convs && row.convs[Match].Live() ==> row.matched.Some?)
    && forall o :: o in row.convs ==> ConvInv(p, o, row.convs[o])
  }

  // ----- one account's event log ----------------------------------------------

  predicate LogInv(u: UserId, row: UserRow) {
    && |row.rows| <= row.eventSeq
    && forall i :: 0 <= i < |row.rows| ==>
         row.rows[i].pos == row.eventSeq - |row.rows| + 1 + i && row.rows[i].conv.pair.Has(u)
  }

  predicate DbInv(db: Db) {
    && (forall p :: p in db.pairs ==> p.Ordered() && db.Knows(p) && PairInv(p, db.pairs[p]))
    && (forall u :: u in db.users ==> LogInv(u, db.users[u]))
  }

  // ----- what is never undone -------------------------------------------------

  predicate PartGrows(a: Participant, b: Participant) {
    a.read <= b.read && a.delivered <= b.delivered
  }

  predicate ConvGrows(c: Conv, c': Conv) {
    && c.messages <= c'.messages
    && c.lastSeq <= c'.lastSeq
    && c.requester == c'.requester
    && c.consents <= c'.consents
    && (c.revealed ==> c'.revealed)
    && (c.state != Pending ==> c'.state != Pending)
    && (c.state == Closed ==> c'.state == Closed)
    && (c.state == Declined ==> c'.state == Declined)
    && (forall u :: u in c.parts ==> u in c'.parts && PartGrows(c.parts[u], c'.parts[u]))
  }

  predicate PairGrows(row: PairRow, row': PairRow) {
    forall o :: o in row.convs ==> o in row'.convs && ConvGrows(row.convs[o], row'.convs[o])
  }

  predicate SameConv(row: PairRow, row': PairRow, o: Origin) {
    (o in row.convs <==> o in row'.convs) && (o in row.convs ==> row.convs[o] == row'.convs[o])
  }

  predicate Names(notes: seq<Note>, o: Origin) { exists n :: n in notes && n.origin == o }

  /** Every conversation a transaction touches is named in an event it writes. */
  predicate Named(row: PairRow, row': PairRow, notes: seq<Note>) {
    forall o :: Names(notes, o) || SameConv(row, row', o)
  }

  predicate Sound(p: Pair, row: PairRow, out: Outcome)
    requires out.Done?
  {
    PairInv(p, out.row) && PairGrows(row, out.row) && Named(row, out.row, out.notes)
  }

  // ----- each operation -------------------------------------------------------

  lemma NewConvIsCore(p: Pair, origin: Origin, state: ConvState, requester: Option<UserId>, now: int)
    requires p.Ordered()
    requires origin == Request <==> requester.Some?
    requires requester.Some? ==> p.Has(requester.value)
    requires state == Open || state == Pending
    ensures ConvCore(p, origin, NewConv(p, state, requester, now))
  {
    assert {p.lo, p.hi} != {} by { assert p.lo in {p.lo, p.hi}; }
  }

  lemma GrowsSelf(c: Conv)
    ensures ConvGrows(c, c)
  {
  }

  lemma PutGrows(row: PairRow, o: Origin, c: Conv)
    requires o in row.convs ==> ConvGrows(row.convs[o], c)
    ensures PairGrows(row, row.(convs := row.convs[o := c]))
  {
    forall q | q in row.convs ensures ConvGrows(row.convs[q], row.convs[o := c][q]) {
      if q != o { GrowsSelf(row.convs[q]); }
    }
  }

  lemma PutIsNamed(row: PairRow, o: Origin, c: Conv, kind: Kind)
    ensures Named(row, row.(convs := row.convs[o := c]), [Note(o, kind)])
  {
    var notes := [Note(o, kind)];
    assert notes[0] in notes;
  }

  /** One conversation written back under its own event. */
  lemma PutIsSound(p: Pair, row: PairRow, o: Origin, c: Conv, kind: Kind)
    requires PairInv(p, row) && row.blocks == {}
    requires ConvInv(p, o, c)
    requires o in row.convs ==> ConvGrows(row.convs[o], c)
    requires o == Match ==> row.matched.Some?
    ensures Sound(p, row, Done(row.(convs := row.convs[o := c]), [Note(o, kind)]))
  {
    var row' := row.(convs := row.convs[o := c]);
    PutGrows(row, o, c);
    PutIsNamed(row, o, c, kind);
    forall q | q in row'.convs ensures ConvInv(p, q, row'.convs[q]) {
      if q != o { assert row'.convs[q] == row.convs[q]; }
    }
  }

  lemma NewKeyStaysUnique(ms: seq<Message>, m: Message)
    requires OneMessagePerKey(ms) && forall q :: q in ms ==> !SameKey(q, m.sender, m.clientId)
    ensures OneMessagePerKey(ms + [m])
  {
    forall i, j | 0 <= i < j < |ms + [m]|
      ensures !SameKey((ms + [m])[i], (ms + [m])[j].sender, (ms + [m])[j].clientId)
    {
      if j == |ms| { assert ms[i] in ms; }
    }
  }

  lemma UnarchivedReceipts(p: Pair, c: Conv)
    requires ReceiptsInOrder(p, c)
    ensures Unarchived(c.parts).Keys == c.parts.Keys
    ensures forall u :: u in c.parts ==> Unarchived(c.parts)[u] == c.parts[u].(archived := false)
  {
  }

  lemma InsertIsSound(p: Pair, origin: Origin, c: Conv, user: UserId, d: Draft, id: Id, now: int)
    requires ConvCore(p, origin, c) && p.Has(user)
    requires c.state == Pending ==> origin == Request && (c.lastSeq == 0 || PendingIsOneIntroduction(origin, c))
    requires Insert(c, user, d, id, now).Stored?
    ensures ConvInv(p, origin, Insert(c, user, d, id, now).conv)
    ensures ConvGrows(c, Insert(c, user, d, id, now).conv)
  {
    var c' := Insert(c, user, d, id, now).conv;
    assert c'.messages[..|c.messages|] == c.messages;
    NewKeyStaysUnique(c.messages, c'.messages[|c.messages|]);
    UnarchivedReceipts(p, c);
    assert ReceiptsInOrder(p, c') && GapFree(p, c') && OriginRules(p, origin, c');
  }

  lemma EnsureMatchIsSound(p: Pair, row: PairRow, now: int)
    requires p.Ordered() && PairInv(p, row) && row.matched.Some?
    ensures var (made, notes) := EnsureMatch(p, row, now);
            && PairInv(p, made) && PairGrows(row, made) && Named(row, made, notes)
            && made == row.(convs := made.convs) && !Announces(notes)
  {
    if Match !in row.convs {
      NewConvIsCore(p, Match, Open, None, now);
      PutIsSound(p, row, Match, NewConv(p, Open, None, now), ConversationNew);
    }
  }

  lemma MatchIsSound(p: Pair, row: PairRow, from: UserId, matchId: Id, now: int)
    requires p.Ordered() && PairInv(p, row) && row.blocks == {}
    ensures Sound(p, row, Social.Like(p, row, from, true, matchId, now))
  {
    var id := if row.matched.Some? then row.matched.value else matchId;
    EnsureMatchIsSound(p, row.(matched := Some(id)), now);
    assert p.lo !in row.likes - {p.lo, p.hi};
  }

  lemma SameConvsGrow(row: PairRow, row': PairRow)
    requires row'.convs == row.convs
    ensures PairGrows(row, row')
  {
    forall o | o in row.convs ensures ConvGrows(row.convs[o], row.convs[o]) { GrowsSelf(row.convs[o]); }
  }

  lemma WaitingLikeIsSound(p: Pair, row: PairRow, from: UserId, matchId: Id, now: int)
    requires p.Ordered() && PairInv(p, row) && p.Has(from) && row.blocks == {} && p.Peer(from) !in row.likes
    ensures Sound(p, row, Social.Like(p, row, from, false, matchId, now))
  {
    assert p.Peer(from) !in row.likes + {from} && p.Peer(from) in {p.lo, p.hi};
    SameConvsGrow(row, row.(likes := row.likes + {from}));
  }

  lemma LikeIsSound(p: Pair, row: PairRow, from: UserId, seen: bool, matchId: Id, now: int)
    requires p.Ordered() && PairInv(p, row)
    requires Admissible(p, row, Like(from, seen, matchId, now))
    requires Social.Like(p, row, from, seen, matchId, now).Done?
    ensures Sound(p, row, Social.Like(p, row, from, seen, matchId, now))
  {
    if seen { MatchIsSound(p, row, from, matchId, now); } else { WaitingLikeIsSound(p, row, from, matchId, now); }
  }

  lemma ClosedConv(p: Pair, o: Origin, c: Conv)
    requires ConvInv(p, o, c) && c.Live()
    ensures ConvInv(p, o, c.(state := Closed)) && ConvGrows(c, c.(state := Closed))
  {
  }

  lemma ClosingKeepsConv(p: Pair, row: PairRow, order: seq<Origin>, o: Origin)
    requires o in row.convs && ConvInv(p, o, row.convs[o])
    requires o in order ==> row.convs[o].Live()
    ensures ConvInv(p, o, CloseAll(row.convs, order)[o]) && ConvGrows(row.convs[o], CloseAll(row.convs, order)[o])
  {
    if o in order { ClosedConv(p, o, row.convs[o]); }
  }

  lemma ClosingIsNamed(row: PairRow, order: seq<Origin>)
    ensures Named(row, row.(convs := CloseAll(row.convs, order)), CloseNotes(order))
  {
    forall o ensures Names(CloseNotes(order), o) || SameConv(row, row.(convs := CloseAll(row.convs, order)), o) {
      if o in order {
        var i :| 0 <= i < |order| && order[i] == o;
        assert CloseNotes(order)[i] in CloseNotes(order);
      }
    }
  }

  lemma ClosingIsSound(p: Pair, row: PairRow, datingOnly: bool, order: seq<Origin>)
    requires PairInv(p, row) && ClosingOrder(row, datingOnly, order)
    ensures forall o :: o in row.convs ==> ConvInv(p, o, CloseAll(row.convs, order)[o])
    ensures PairGrows(row, row.(convs := CloseAll(row.convs, order)))
    ensures forall o :: o in row.convs && (datingOnly ==> o == Match) ==> !CloseAll(row.convs, order)[o].Live()
    ensures Named(row, row.(convs := CloseAll(row.convs, order)), CloseNotes(order))
  {
    forall o | o in row.convs
      ensures ConvInv(p, o, CloseAll(row.convs, order)[o]) && ConvGrows(row.convs[o], CloseAll(row.convs, order)[o])
    {
      ClosingKeepsConv(p, row, order, o);
    }
    ClosingIsNamed(row, order);
  }

  lemma BlockIsSound(p: Pair, row: PairRow, user: UserId, order: seq<Origin>)
    requires PairInv(p, row) && p.Has(user) && ClosingOrder(row, false, order) && p.Ordered()
    ensures Sound(p, row, Safety.Block(p, row, user, order))
    ensures var after := Safety.Block(p, row, user, order).row;
            user in after.blocks && forall o :: o in after.convs ==> !after.convs[o].Live()
  {
    ClosingIsSound(p, row, false, order);
    assert p.lo !in row.likes - {p.lo, p.hi};
  }

  lemma UnmatchIsSound(p: Pair, row: PairRow, matchId: Id, order: seq<Origin>)
    requires PairInv(p, row) && ClosingOrder(row, true, order) && p.Ordered()
    ensures Sound(p, row, Safety.Unmatch(p, row, matchId, order))
    ensures var after := Safety.Unmatch(p, row, matchId, order).row;
            Match in after.convs ==> !after.convs[Match].Live()
  {
    ClosingIsSound(p, row, true, order);
    assert p.lo !in row.likes - {p.lo, p.hi};
  }

  lemma SendIsSound(p: Pair, row: PairRow, origin: Origin, user: UserId, d: Draft, id: Id, now: int)
    requires PairInv(p, row) && p.Has(user)
    requires Conversations.Send(row, origin, user, d, id, now).Done?
    ensures Sound(p, row, Conversations.Send(row, origin, user, d, id, now))
  {
    var out := Conversations.Send(row, origin, user, d, id, now);
    if Insert(row.convs[origin], user, d, id, now).Stored? {
      var c := Insert(row.convs[origin], user, d, id, now).conv;
      InsertIsSound(p, origin, row.convs[origin], user, d, id, now);
      PutIsSound(p, row, origin, c, MessageNew);
    }
  }

  lemma NamedOnward(a: PairRow, b: PairRow, c: PairRow, first: seq<Note>, rest: seq<Note>)
    requires Named(a, b, first) && Named(b, c, rest)
    ensures Named(a, c, first + rest)
  {
    forall o ensures Names(first + rest, o) || SameConv(a, c, o) {
      if Names(first, o) {
        var n :| n in first && n.origin == o;
        assert n in first + rest;
      } else if Names(rest, o) {
        var n :| n in rest && n.origin == o;
        assert n in first + rest;
      }
    }
  }

  lemma GrowsOnward(a: PairRow, b: PairRow, c: PairRow)
    requires PairGrows(a, b) && PairGrows(b, c)
    ensures PairGrows(a, c)
  {
    forall o | o in a.convs ensures o in c.convs && ConvGrows(a.convs[o], c.convs[o]) {
      var x, y, z := a.convs[o].messages, b.convs[o].messages, c.convs[o].messages;
      assert z[..|y|] == y && y[..|x|] == x;
      assert x == z[..|x|];
    }
  }

  lemma OpenMatchIsSound(p: Pair, row: PairRow, user: UserId, first: Option<Draft>, id: Id, now: int)
    requires p.Ordered() && PairInv(p, row) && p.Has(user)
    requires Conversations.OpenMatch(p, row, user, first, id, now).Done?
    ensures Sound(p, row, Conversations.OpenMatch(p, row, user, first, id, now))
  {
    EnsureMatchIsSound(p, row, now);
    var (made, notes) := EnsureMatch(p, row, now);
    if first.Some? {
      SendIsSound(p, made, Match, user, first.value, id, now);
      var sent := Conversations.Send(made, Match, user, first.value, id, now);
      GrowsOnward(row, made, sent.row);
      NamedOnward(row, made, sent.row, notes, sent.notes);
    }
  }

  lemma OpenRequestIsSound(p: Pair, row: PairRow, user: UserId, d: Draft, id: Id, now: int)
    requires p.Ordered() && PairInv(p, row) && p.Has(user)
    requires Conversations.OpenRequest(p, row, user, d, id, now).Done?
    ensures Sound(p, row, Conversations.OpenRequest(p, row, user, d, id, now))
  {
    if Request in row.convs {
      SendIsSound(p, row, Request, user, d, id, now);
    } else {
      var asked := NewConv(p, Pending, Some(user), now);
      NewConvIsCore(p, Request, Pending, Some(user), now);
      InsertIsSound(p, Request, asked, user, d, id, now);
      var c := Insert(asked, user, d, id, now).conv;
      assert row.convs[Request := asked][Request := c] == row.convs[Request := c];
      PutIsSound(p, row, Request, c, MessageNew);
    }
  }

  lemma MeetIsSound(p: Pair, row: PairRow, now: int)
    requires p.Ordered() && PairInv(p, row)
    requires Conversations.Meet(p, row, now).Done?
    ensures Sound(p, row, Conversations.Meet(p, row, now))
  {
    NewConvIsCore(p, Anonymous, Open, None, now);
    PutIsSound(p, row, Anonymous, NewConv(p, Open, None, now), ConversationNew);
  }

  lemma PartsMove(p: Pair, origin: Origin, c: Conv, user: UserId, part: Participant)
    requires ConvInv(p, origin, c) && user in c.parts
    requires PartGrows(c.parts[user], part) && part.read <= part.delivered <= c.lastSeq
    ensures ConvInv(p, origin, c.(parts := c.parts[user := part]))
    ensures ConvGrows(c, c.(parts := c.parts[user := part]))
  {
    assert c.parts[user := part].Keys == c.parts.Keys;
  }

  lemma ReceiptIsSound(p: Pair, row: PairRow, origin: Origin, user: UserId, upTo: int, read: bool)
    requires PairInv(p, row)
    requires Conversations.Receipt(row, origin, user, upTo, read).Done?
    ensures Sound(p, row, Conversations.Receipt(row, origin, user, upTo, read))
  {
    var out := Conversations.Receipt(row, origin, user, upTo, read);
    if out.notes != [] {
      var c, c' := row.convs[origin], out.row.convs[origin];
      PartsMove(p, origin, c, user, Acknowledge(c.parts[user], upTo, read));
      PutIsSound(p, row, origin, c', out.notes[0].kind);
    }
  }

  lemma AcceptIsSound(p: Pair, c: Conv, state: ConvState)
    requires ConvInv(p, Request, c) && c.state == Pending && (state == Open || state == Declined)
    ensures ConvInv(p, Request, c.(state := state)) && ConvGrows(c, c.(state := state))
  {
  }

  lemma TwoConsents(p: Pair, consents: set<UserId>)
    requires p.Ordered() && consents <= {p.lo, p.hi}
    ensures |consents| == 2 <==> consents == {p.lo, p.hi}
  {
    assert |{p.lo, p.hi}| == 2;
    if consents != {p.lo, p.hi} {
      assert consents <= {p.lo} || consents <= {p.hi};
      var one := if consents <= {p.lo} then {p.lo} else {p.hi};
      assert |one - consents| == |one| - |consents * one| && consents * one == consents;
    }
  }

  lemma RevealIsSound(p: Pair, c: Conv, user: UserId)
    requires p.Ordered() && p.Has(user) && ConvInv(p, Anonymous, c) && c.state == Open && !c.revealed
    ensures var consents := c.consents + {user};
            var c' := c.(consents := consents, revealed := |consents| == 2);
            ConvInv(p, Anonymous, c') && ConvGrows(c, c')
  {
    TwoConsents(p, c.consents + {user});
  }

  /** The conversation an announced action leaves. */
  function Acted(c: Conv, user: UserId, action: Action): Conv {
    match action
    case Accept => c.(state := Open)
    case Decline => c.(state := Declined)
    case Reveal => c.(consents := c.consents + {user}, revealed := |c.consents + {user}| == 2)
    case _ => if user in c.parts then c.(parts := c.parts[user := Adjust(c.parts[user], action)]) else c
  }

  predicate Allows(c: Conv, origin: Origin, user: UserId, action: Action) {
    match action
    case Accept => origin == Request && c.state == Pending
    case Decline => origin == Request && c.state == Pending
    case Reveal => origin == Anonymous && c.state == Open && !c.revealed
    case _ => true
  }

  lemma ActIsActed(row: PairRow, origin: Origin, user: UserId, action: Action)
    requires Conversations.Act(row, origin, user, action).Done?
    ensures Reachable(row, origin)
    ensures var out := Conversations.Act(row, origin, user, action);
            out == Done(row, []) || (Allows(row.convs[origin], origin, user, action) && |out.notes| == 1
              && out == Done(row.(convs := row.convs[origin := Acted(row.convs[origin], user, action)]),
                             [Note(origin, out.notes[0].kind)]))
  {
  }

  lemma ActedIsSound(p: Pair, origin: Origin, c: Conv, user: UserId, action: Action)
    requires p.Ordered() && p.Has(user) && ConvInv(p, origin, c) && Allows(c, origin, user, action)
    ensures ConvInv(p, origin, Acted(c, user, action)) && ConvGrows(c, Acted(c, user, action))
  {
    match action
    case Accept => AcceptIsSound(p, c, Open);
    case Decline => AcceptIsSound(p, c, Declined);
    case Reveal => RevealIsSound(p, c, user);
    case _ => PartsMove(p, origin, c, user, Adjust(c.parts[user], action));
  }

  lemma ActIsSound(p: Pair, row: PairRow, origin: Origin, user: UserId, action: Action)
    requires p.Ordered() && PairInv(p, row) && p.Has(user)
    requires Conversations.Act(row, origin, user, action).Done?
    ensures Sound(p, row, Conversations.Act(row, origin, user, action))
  {
    ActIsActed(row, origin, user, action);
    var out := Conversations.Act(row, origin, user, action);
    if out.notes == [] {
      SameConvsGrow(row, row);
    } else {
      ActedIsSound(p, origin, row.convs[origin], user, action);
      PutIsSound(p, row, origin, Acted(row.convs[origin], user, action), out.notes[0].kind);
    }
  }

  /** Whatever one committed transaction does to its pair keeps the pair's invariant,
      undoes nothing, and announces every conversation it changes. */
  lemma PerformIsSound(p: Pair, row: PairRow, op: PairOp)
    requires p.Ordered() && PairInv(p, row) && Admissible(p, row, op)
    requires Perform(p, row, op).Done?
    ensures Sound(p, row, Perform(p, row, op))
  {
    match op
    case Like(from, seen, matchId, now) => LikeIsSound(p, row, from, seen, matchId, now);
    case RemoveLike(sender) => SameConvsGrow(row, Perform(p, row, op).row);
    case Block(user, order) => BlockIsSound(p, row, user, order);
    case Unblock(user) => SameConvsGrow(row, Perform(p, row, op).row);
    case Unmatch(matchId, order) => UnmatchIsSound(p, row, matchId, order);
    case OpenMatch(user, first, id, now) => OpenMatchIsSound(p, row, user, first, id, now);
    case OpenRequest(user, draft, id, now) => OpenRequestIsSound(p, row, user, draft, id, now);
    case Meet(now) => MeetIsSound(p, row, now);
    case Send(user, origin, draft, id, now) => SendIsSound(p, row, origin, user, draft, id, now);
    case Receipt(user, origin, upTo, read) => ReceiptIsSound(p, row, origin, user, upTo, read);
    case Act(user, origin, action) => ActIsSound(p, row, origin, user, action);
  }

  // ----- every reachable database ---------------------------------------------

  lemma EmptyPairIsFine(p: Pair)
    requires p.Ordered()
    ensures PairInv(p, EMPTY_PAIR)
  {
    assert p.lo !in EMPTY_PAIR.likes && p.lo in {p.lo, p.hi};
  }

  lemma AppendKeepsLog(u: UserId, row: UserRow, p: Pair, notes: seq<Note>)
    requires LogInv(u, row) && p.Has(u)
    ensures LogInv(u, Append(row, p, notes))
  {
  }

  lemma EmitKeepsLogs(users: map<UserId, UserRow>, p: Pair, notes: seq<Note>, u: UserId)
    requires p.Ordered() && p.lo in users && p.hi in users && u in users && LogInv(u, users[u])
    ensures LogInv(u, EmitAll(users, p, notes)[u])
  {
    if p.Has(u) { AppendKeepsLog(u, users[u], p, notes); }
  }

  lemma RowIsFine(db: Db, p: Pair)
    requires DbInv(db) && p.Ordered()
    ensures PairInv(p, db.Row(p))
  {
    EmptyPairIsFine(p);
  }

  lemma StepKeepsInv(db: Db, step: Step)
    requires DbInv(db) && Apply(db, step).Some?
    ensures DbInv(Apply(db, step).value)
  {
    if step.OnPair? {
      RowIsFine(db, step.pair);
      PerformIsSound(step.pair, db.Row(step.pair), step.op);
      forall u | u in db.users
        ensures LogInv(u, EmitAll(db.users, step.pair, Perform(step.pair, db.Row(step.pair), step.op).notes)[u])
      {
        EmitKeepsLogs(db.users, step.pair, Perform(step.pair, db.Row(step.pair), step.op).notes, u);
      }
    }
  }

  /** The invariant holds after every run of committed transactions. */
  lemma {:induction false} RunKeepsInv(steps: seq<Step>)
    requires Run(EMPTY_DB, steps).Some?
    ensures DbInv(Run(EMPTY_DB, steps).value)
    decreases |steps|
  {
    if |steps| > 0 {
      RunKeepsInv(steps[..|steps| - 1]);
      StepKeepsInv(Run(EMPTY_DB, steps[..|steps| - 1]).value, steps[|steps| - 1]);
    }
  }
}
