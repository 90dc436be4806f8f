/** What the services promise, over every run of committed transactions. */
module Guarantees {
  import opened Rows
  import opened ChatLog
  import opened Conversations
  import opened Steps
  import opened Invariants
  import Social

  // ----- runs compose ---------------------------------------------------------

  lemma RunLast(db: Db, steps: seq<Step>, last: Step)
    ensures Run(db, steps + [last]) == if Run(db, steps).None? then None else Apply(Run(db, steps).value, last)
  {
    assert (steps + [last])[..|steps|] == steps;
  }

  lemma {:induction false} RunSplits(db: Db, first: seq<Step>, rest: seq<Step>)
    requires Run(db, first + rest).Some?
    ensures Run(db, first).Some?
    ensures Run(Run(db, first).value, rest) == Run(db, first + rest)
    decreases |rest|
  {
    if |rest| == 0 {
      assert first + rest == first;
    } else {
      var all := first + rest;
      assert all[..|all| - 1] == first + rest[..|rest| - 1];
      RunSplits(db, first, rest[..|rest| - 1]);
    }
  }

  lemma RunAfter(db: Db, step: Step, rest: seq<Step>)
    requires Run(db, [step] + rest).Some?
    ensures Apply(db, step).Some? && Run(Apply(db, step).value, rest) == Run(db, [step] + rest)
  {
    RunSplits(db, [step], rest);
    assert [step][..0] == [];
    assert Run(db, [step]) == Apply(db, step);
  }

  lemma {:induction false} RunFromInv(db: Db, steps: seq<Step>)
    requires DbInv(db) && Run(db, steps).Some?
    ensures DbInv(Run(db, steps).value)
    decreases |steps|
  {
    if |steps| > 0 {
      RunFromInv(db, steps[..|steps| - 1]);
      StepKeepsInv(Run(db, steps[..|steps| - 1]).value, steps[|steps| - 1]);
    }
  }

  lemma StepGrows(db: Db, step: Step, p: Pair)
    requires DbInv(db) && Apply(db, step).Some?
    ensures PairGrows(db.Row(p), Apply(db, step).value.Row(p))
  {
    if step.OnPair? && step.pair == p {
      EmptyPairIsFine(p);
      PerformIsSound(p, db.Row(p), step.op);
    } else {
      forall o | o in db.Row(p).convs ensures ConvGrows(db.Row(p).convs[o], db.Row(p).convs[o]) {
        GrowsSelf(db.Row(p).convs[o]);
      }
    }
  }

  /** Messages are only appended, receipts and consents only advance, and closed or
      declined conversations stay so through any later unblock, like or match. */
  lemma {:induction false} NothingIsUndone(db: Db, steps: seq<Step>, p: Pair)
    requires DbInv(db) && Run(db, steps).Some?
    ensures PairGrows(db.Row(p), Run(db, steps).value.Row(p))
    decreases |steps|
  {
    if |steps| == 0 {
      forall o | o in db.Row(p).convs ensures ConvGrows(db.Row(p).convs[o], db.Row(p).convs[o]) {
        GrowsSelf(db.Row(p).convs[o]);
      }
    } else {
      var init := steps[..|steps| - 1];
      NothingIsUndone(db, init, p);
      RunFromInv(db, init);
      var before := Run(db, init).value;
      StepGrows(before, steps[|steps| - 1], p);
      GrowsOnward(db.Row(p), before.Row(p), Run(db, steps).value.Row(p));
    }
  }

  // ----- access and the inbox -------------------------------------------------

  /** What `access` answers for `user` and this conversation. */
  predicate Access(db: Db, id: ConvId, user: UserId) {
    var row := db.Row(id.pair);
    && id.origin in row.convs && id.pair.Has(user)
    && db.BothActive(id.pair)
    && row.blocks == {}
    && (id.origin == Match ==> row.matched.Some?)
    && row.convs[id.origin].state != Closed && row.convs[id.origin].state != Declined
  }

  /** The rows Bootstrap selects: `user` and one other person take part, the other
      account is active, and the conversation is open or pending past the wall. */
  predicate Listed(db: Db, id: ConvId, user: UserId) {
    var row := db.Row(id.pair);
    && id.origin in row.convs
    && (var c := row.convs[id.origin];
       && user in c.parts
       && (exists peer :: peer in c.parts && peer != user && peer in db.users && db.users[peer].active)
       && (c.state == Open || c.state == Pending)
       && row.blocks == {}
       && (id.origin == Match ==> row.matched.Some?))
  }

  lemma KnownPair(db: Db, p: Pair)
    requires DbInv(db) && db.Row(p).convs != map[]
    ensures p.Ordered() && db.Knows(p) && PairInv(p, db.Row(p))
  {
  }

  /** In every reachable database the wall is already in the conversation's state:
      blocks and missing matches never have to be looked up to know the answer. */
  lemma AccessIsStateAndStatus(db: Db, id: ConvId, user: UserId)
    requires DbInv(db)
    ensures Access(db, id, user) <==>
      (id.origin in db.Row(id.pair).convs && id.pair.Has(user)
       && db.Row(id.pair).convs[id.origin].Live() && db.BothActive(id.pair))
  {
    if id.origin in db.Row(id.pair).convs {
      KnownPair(db, id.pair);
    }
  }

  lemma PartsAreMembers(db: Db, id: ConvId)
    requires DbInv(db) && id.origin in db.Row(id.pair).convs
    ensures id.pair.Ordered() && db.Knows(id.pair)
    ensures db.Row(id.pair).convs[id.origin].parts.Keys == {id.pair.lo, id.pair.hi}
  {
    KnownPair(db, id.pair);
    assert ReceiptsInOrder(id.pair, db.Row(id.pair).convs[id.origin]);
  }

  /** The other participant's row is the peer's. */
  lemma OtherIsPeer(db: Db, id: ConvId, user: UserId)
    requires DbInv(db) && id.origin in db.Row(id.pair).convs && id.pair.Has(user)
    ensures var parts := db.Row(id.pair).convs[id.origin].parts;
            user in parts && forall peer :: peer in parts && peer != user <==> peer == id.pair.Peer(user)
  {
    PartsAreMembers(db, id);
  }

  /** For an active account the conditions of the inbox query come down to membership,
      a live conversation and the other account. */
  lemma ListedIsMemberAndLive(db: Db, id: ConvId, user: UserId)
    requires DbInv(db) && user in db.users && db.users[user].active
    requires id.origin in db.Row(id.pair).convs
    ensures Listed(db, id, user) <==>
      id.pair.Has(user) && db.BothActive(id.pair) && db.Row(id.pair).convs[id.origin].Live()
  {
    PartsAreMembers(db, id);
    if id.pair.Has(user) { OtherIsPeer(db, id, user); }
    KnownPair(db, id.pair);
  }

  /** The inbox of an active account lists exactly what `access` would let it open. */
  lemma InboxListsWhatAccessAllows(db: Db, id: ConvId, user: UserId)
    requires DbInv(db) && user in db.users && db.users[user].active
    ensures Listed(db, id, user) <==> Access(db, id, user)
  {
    AccessIsStateAndStatus(db, id, user);
    if id.origin in db.Row(id.pair).convs { ListedIsMemberAndLive(db, id, user); }
  }

  /** A block in either direction, at any reachable moment. */
  lemma BlockIsAWall(steps: seq<Step>, p: Pair, user: UserId)
    requires Run(EMPTY_DB, steps).Some?
    ensures var row := Run(EMPTY_DB, steps).value.Row(p);
            row.blocks != {} ==>
              && row.matched == None && row.likes == {}
              && forall o :: o in row.convs ==> !Access(Run(EMPTY_DB, steps).value, ConvId(p, o), user)
  {
    RunKeepsInv(steps);
  }

  /** Once a conversation was closed or declined no later run reopens it to anyone. */
  lemma ClosedStaysClosed(db: Db, steps: seq<Step>, id: ConvId, user: UserId)
    requires DbInv(db) && Run(db, steps).Some?
    requires id.origin in db.Row(id.pair).convs && !db.Row(id.pair).convs[id.origin].Live()
    ensures !Access(Run(db, steps).value, id, user)
  {
    NothingIsUndone(db, steps, id.pair);
  }

  // ----- likes ----------------------------------------------------------------

  /** A committed like leaves its row or the pair's match. */
  lemma LikeLeavesATrace(p: Pair, row: PairRow, from: UserId, seen: bool, matchId: Id, now: int)
    requires p.Ordered() && p.Has(from)
    requires Social.Like(p, row, from, seen, matchId, now).Done?
    ensures var after := Social.Like(p, row, from, seen, matchId, now).row;
            from in after.likes || after.matched.Some?
  {
  }

  /** Steps that take back a like or end what it led to. */
  predicate Retracts(step: Step, p: Pair) {
    step.OnPair? && step.pair == p && (step.op.RemoveLike? || step.op.Block? || step.op.Unmatch?)
  }

  lemma TraceSurvives(p: Pair, row: PairRow, op: PairOp, from: UserId)
    requires Perform(p, row, op).Done?
    requires !op.RemoveLike? && !op.Block? && !op.Unmatch?
    requires from in row.likes || row.matched.Some?
    ensures from in Perform(p, row, op).row.likes || Perform(p, row, op).row.matched.Some?
  {
  }

  lemma {:induction false} TraceStays(db: Db, steps: seq<Step>, p: Pair, from: UserId)
    requires p.Has(from) && p.Ordered() && Run(db, steps).Some?
    requires from in db.Row(p).likes || db.Row(p).matched.Some?
    requires forall i :: 0 <= i < |steps| ==> !Retracts(steps[i], p)
    ensures from in Run(db, steps).value.Row(p).likes || Run(db, steps).value.Row(p).matched.Some?
    decreases |steps|
  {
    if |steps| > 0 {
      var init, last := steps[..|steps| - 1], steps[|steps| - 1];
      TraceStays(db, init, p, from);
      var before := Run(db, init).value;
      if last.OnPair? && last.pair == p {
        TraceSurvives(p, before.Row(p), last.op, from);
      }
    }
  }

  /** Two people who liked each other, with nothing taken back in between, are matched
      from the moment the second like commits. */
  lemma MutualLikesMatch(db: Db, one: Step, between: seq<Step>, other: Step, p: Pair)
    requires DbInv(db) && p.Ordered() && db.Knows(p)
    requires one.OnPair? && one.pair == p && one.op.Like?
    requires other.OnPair? && other.pair == p && other.op.Like? && other.op.from == p.Peer(one.op.from)
    requires forall i :: 0 <= i < |between| ==> !Retracts(between[i], p)
    requires Run(db, [one] + between + [other]).Some?
    ensures Run(db, [one] + between + [other]).value.Row(p).matched.Some?
  {
    var all := [one] + between + [other];
    assert all[..|all| - 1] == [one] + between;
    RunAfter(db, one, between);
    var db1 := Apply(db, one).value;
    LikeLeavesATrace(p, db.Row(p), one.op.from, one.op.seen, one.op.matchId, one.op.now);
    TraceStays(db1, between, p, one.op.from);
    var before := Run(db, [one] + between).value;
    if before.Row(p).matched.Some? {
      TraceSurvives(p, before.Row(p), other.op, one.op.from);
    }
  }

  // ----- exactly-once sends ---------------------------------------------------

  /** The message a successful send answers with. */
  function Answer(row: PairRow, origin: Origin, user: UserId, d: Draft, id: Id, now: int): Option<Message> {
    if !Reachable(row, origin) then None
    else match Insert(row.convs[origin], user, d, id, now)
      case Rejected(_) => None
      case Existing(m) => Some(m)
      case Stored(_, m) => Some(m)
  }

  lemma AnswerIsStored(row: PairRow, origin: Origin, user: UserId, d: Draft, id: Id, now: int)
    requires Answer(row, origin, user, d, id, now).Some?
    ensures var m := Answer(row, origin, user, d, id, now).value;
            var out := Conversations.Send(row, origin, user, d, id, now);
            && out.Done? && m in out.row.convs[origin].messages
            && m.sender == user && m.clientId == d.clientId && m.body == d.body && m.replyTo == d.replyTo
  {
    match Insert(row.convs[origin], user, d, id, now)
    case Stored(c, m) => assert c.messages[|c.messages| - 1] == m;
    case _ =>
  }

  lemma TakenKeyIsFound(c: Conv, m: Message)
    requires OneMessagePerKey(c.messages) && m in c.messages
    ensures Find(c.messages, m.sender, m.clientId) == Some(m)
  {
    var found := Find(c.messages, m.sender, m.clientId);
    var i :| 0 <= i < |c.messages| && c.messages[i] == m;
    var j :| 0 <= j < |c.messages| && c.messages[j] == found.value;
    assert SameKey(c.messages[i], c.messages[j].sender, c.messages[j].clientId);
    assert SameKey(c.messages[j], c.messages[i].sender, c.messages[i].clientId);
  }

  /** How m's conversation takes a later send by m's sender under m's client id: it succeeds
      exactly when it repeats m's text and reply, answers m itself, and never stores anything. */
  predicate AnswersRetry(row: PairRow, origin: Origin, m: Message, d: Draft, id: Id, now: int) {
    var again := Answer(row, origin, m.sender, d, id, now);
    && (again.Some? <==> Reachable(row, origin) && ValidDraft(d) && d.body == m.body && d.replyTo == m.replyTo)
    && (again.Some? ==> again.value == m)
    && Conversations.Send(row, origin, m.sender, d, id, now)
       in {Done(row, []), Refused(Unavailable), Refused(BadRequest)}
  }

  lemma TakenKeyNeverStores(row: PairRow, origin: Origin, m: Message, d: Draft, id: Id, now: int)
    requires origin in row.convs && OneMessagePerKey(row.convs[origin].messages)
    requires m in row.convs[origin].messages && d.clientId == m.clientId
    ensures AnswersRetry(row, origin, m, d, id, now)
  {
    TakenKeyIsFound(row.convs[origin], m);
  }

  lemma StillThere(before: seq<Message>, after: seq<Message>, m: Message)
    requires m in before && before <= after
    ensures m in after
  {
    var i :| 0 <= i < |before| && before[i] == m;
    assert after[i] == m;
  }

  lemma StoredMessageStays(db: Db, steps: seq<Step>, p: Pair, origin: Origin, m: Message)
    requires DbInv(db) && Run(db, steps).Some? && p.Ordered()
    requires origin in db.Row(p).convs && m in db.Row(p).convs[origin].messages
    ensures var row := Run(db, steps).value.Row(p);
            origin in row.convs && OneMessagePerKey(row.convs[origin].messages) && m in row.convs[origin].messages
  {
    NothingIsUndone(db, steps, p);
    RunFromInv(db, steps);
    var row := Run(db, steps).value.Row(p);
    assert ConvGrows(db.Row(p).convs[origin], row.convs[origin]);
    assert OneMessagePerKey(row.convs[origin].messages) by {
      KnownPair(Run(db, steps).value, p);
      assert ConvInv(p, origin, row.convs[origin]);
    }
    StillThere(db.Row(p).convs[origin].messages, row.convs[origin].messages, m);
  }

  lemma SentIsAnswered(db: Db, p: Pair, origin: Origin, user: UserId, d: Draft, id: Id, now: int)
    requires Apply(db, OnPair(p, Steps.Send(user, origin, d, id, now))).Some?
    ensures Answer(db.Row(p), origin, user, d, id, now).Some?
    ensures Apply(db, OnPair(p, Steps.Send(user, origin, d, id, now))).value.Row(p)
         == Conversations.Send(db.Row(p), origin, user, d, id, now).row
  {
  }

  lemma RetryAfter(db: Db, later: seq<Step>, p: Pair, origin: Origin, m: Message, d: Draft, id: Id, now: int)
    requires DbInv(db) && Run(db, later).Some? && p.Ordered()
    requires origin in db.Row(p).convs && m in db.Row(p).convs[origin].messages && d.clientId == m.clientId
    ensures AnswersRetry(Run(db, later).value.Row(p), origin, m, d, id, now)
  {
    StoredMessageStays(db, later, p, origin, m);
    TakenKeyNeverStores(Run(db, later).value.Row(p), origin, m, d, id, now);
  }

  /** After a send answered with a message, however much happens next, every later send
      under its client id is taken as a retry of that message. */
  lemma SendIsExactlyOnce(db: Db, p: Pair, origin: Origin, user: UserId, d: Draft, id: Id, now: int,
                          sent: Db, later: seq<Step>, d': Draft, id': Id, now': int)
    requires DbInv(db) && p.Ordered() && p.Has(user) && d'.clientId == d.clientId
    requires Apply(db, OnPair(p, Steps.Send(user, origin, d, id, now))) == Some(sent)
    requires Run(sent, later).Some?
    ensures Answer(db.Row(p), origin, user, d, id, now).Some?
    ensures var m := Answer(db.Row(p), origin, user, d, id, now).value;
            && m.sender == user && m.body == d.body && m.replyTo == d.replyTo
            && AnswersRetry(Run(sent, later).value.Row(p), origin, m, d', id', now')
  {
    StepKeepsInv(db, OnPair(p, Steps.Send(user, origin, d, id, now)));
    SentIsAnswered(db, p, origin, user, d, id, now);
    AnswerIsStored(db.Row(p), origin, user, d, id, now);
    RetryAfter(sent, later, p, origin, Answer(db.Row(p), origin, user, d, id, now).value, d', id', now');
  }

  /** The opening call that carries a first message in this kind of conversation. */
  function Opening(p: Pair, row: PairRow, origin: Origin, user: UserId, d: Draft, id: Id, now: int): Outcome {
    if origin == Match then Conversations.OpenMatch(p, row, user, Some(d), id, now)
    else Conversations.OpenRequest(p, row, user, d, id, now)
  }

  /** An opening under a client id its sender has used stores nothing, and succeeds exactly when it
      repeats the message in a pair that may still be opened. */
  lemma OpenNeverStoresAgain(p: Pair, row: PairRow, origin: Origin, m: Message, d: Draft, id: Id, now: int)
    requires origin == Match || origin == Request
    requires origin in row.convs && OneMessagePerKey(row.convs[origin].messages)
    requires m in row.convs[origin].messages && d.clientId == m.clientId
    ensures Opening(p, row, origin, m.sender, d, id, now)
      in {Done(row, []), Refused(Unavailable), Refused(Forbidden), Refused(BadRequest)}
    ensures Opening(p, row, origin, m.sender, d, id, now).Done? <==>
      Reachable(row, origin) && ValidDraft(d) && d.body == m.body && d.replyTo == m.replyTo
  {
    TakenKeyIsFound(row.convs[origin], m);
    var none: seq<Note> := [];
    assert none + none == none;
  }

  /** After an opening or a send stored or answered with m, however much commits, opening again
      under m's client id never stores a message. */
  lemma OpenIsExactlyOnce(db: Db, later: seq<Step>, p: Pair, origin: Origin, m: Message, d: Draft, id: Id, now: int)
    requires DbInv(db) && Run(db, later).Some? && p.Ordered() && (origin == Match || origin == Request)
    requires origin in db.Row(p).convs && m in db.Row(p).convs[origin].messages && d.clientId == m.clientId
    ensures var row := Run(db, later).value.Row(p);
            && Opening(p, row, origin, m.sender, d, id, now)
               in {Done(row, []), Refused(Unavailable), Refused(Forbidden), Refused(BadRequest)}
            && (Opening(p, row, origin, m.sender, d, id, now).Done? <==>
                 Reachable(row, origin) && ValidDraft(d) && d.body == m.body && d.replyTo == m.replyTo)
  {
    StoredMessageStays(db, later, p, origin, m);
    OpenNeverStoresAgain(p, Run(db, later).value.Row(p), origin, m, d, id, now);
  }

  /** Two stored messages never share a sender and a client id, and positions are 1..last_seq. */
  lemma MessagesAreDenseAndUnique(steps: seq<Step>, p: Pair, origin: Origin)
    requires Run(EMPTY_DB, steps).Some?
    requires origin in Run(EMPTY_DB, steps).value.Row(p).convs
    ensures var c := Run(EMPTY_DB, steps).value.Row(p).convs[origin];
            && |c.messages| == c.lastSeq
            && (forall i :: 0 <= i < c.lastSeq ==> c.messages[i].pos == i + 1)
            && (forall i, j :: 0 <= i < |c.messages| && 0 <= j < |c.messages| ==>
                 SameKey(c.messages[i], c.messages[j].sender, c.messages[j].clientId) ==> i == j)
  {
    RunKeepsInv(steps);
    var c := Run(EMPTY_DB, steps).value.Row(p).convs[origin];
    assert GapFree(p, c) && OneMessagePerKey(c.messages);
  }

  // ----- suspension, requests, masks ------------------------------------------

  function Messages(row: PairRow, o: Origin): seq<Message> {
    if o in row.convs then row.convs[o].messages else []
  }

  /** The messages stored in a conversation. */
  function Thread(db: Db, id: ConvId): seq<Message> {
    Messages(db.Row(id.pair), id.origin)
  }

  lemma MatchHasNoNewMessage(p: Pair, row: PairRow, o: Origin, now: int)
    ensures Messages(EnsureMatch(p, row, now).0, o) == Messages(row, o)
  {
  }

  lemma OthersStoreNothing(p: Pair, row: PairRow, op: PairOp, o: Origin)
    requires Perform(p, row, op).Done? && !op.Send? && !op.OpenMatch? && !op.OpenRequest?
    ensures Messages(Perform(p, row, op).row, o) == Messages(row, o)
  {
    if op.Like? && op.seen { MatchHasNoNewMessage(p, row, o, op.now); }
  }

  lemma NewMessageIsAnnounced(p: Pair, row: PairRow, op: PairOp, o: Origin)
    requires Perform(p, row, op).Done?
    requires Messages(Perform(p, row, op).row, o) != Messages(row, o)
    ensures Announces(Perform(p, row, op).notes)
  {
    var notes := Perform(p, row, op).notes;
    if op.Send? || op.OpenMatch? || op.OpenRequest? {
      if op.OpenMatch? { MatchHasNoNewMessage(p, row, o, op.now); }
      assert |notes| > 0 && notes[|notes| - 1].kind == MessageNew;
      assert notes[|notes| - 1] in notes;
    } else {
      OthersStoreNothing(p, row, op, o);
    }
  }

  /** A step that stores a message finds both accounts active. */
  lemma MessagesNeedActiveAccounts(db: Db, step: Step, id: ConvId)
    requires DbInv(db) && Apply(db, step).Some?
    requires Thread(Apply(db, step).value, id) != Thread(db, id)
    ensures db.BothActive(id.pair)
  {
    assert step.OnPair? && step.pair == id.pair;
    NewMessageIsAnnounced(id.pair, db.Row(id.pair), step.op, id.origin);
  }

  lemma PendingIsRequest(p: Pair, row: PairRow, o: Origin)
    requires PairInv(p, row) && o in row.convs && row.convs[o].state == Pending
    ensures o == Request && row.convs[o].requester.Some? && p.Has(row.convs[o].requester.value)
  {
    assert ConvInv(p, o, row.convs[o]);
  }

  lemma AnswersEndPending(row: PairRow, origin: Origin, user: UserId, action: Action, o: Origin)
    requires Conversations.Act(row, origin, user, action).Done?
    requires o in row.convs && row.convs[o].state == Pending
    ensures o in Conversations.Act(row, origin, user, action).row.convs
    ensures Conversations.Act(row, origin, user, action).row.convs[o].state != Pending ==>
      origin == Request == o && row.convs[o].requester != Some(user) && (action == Accept || action == Decline)
  {
  }

  lemma OthersLeavePendingAlone(p: Pair, row: PairRow, op: PairOp, o: Origin)
    requires Perform(p, row, op).Done? && !op.Block? && !op.Act?
    requires o in row.convs && row.convs[o].state == Pending && o != Match
    requires op.Unmatch? ==> ClosingOrder(row, true, op.order)
    ensures o in Perform(p, row, op).row.convs && Perform(p, row, op).row.convs[o].state == Pending
  {
  }

  /** A request leaves pending only when the other person answers it, or by a block. */
  lemma PendingIsLeftOnlyByAnswer(p: Pair, row: PairRow, op: PairOp, o: Origin)
    requires p.Ordered() && PairInv(p, row) && Admissible(p, row, op) && Perform(p, row, op).Done?
    requires o in row.convs && row.convs[o].state == Pending
    ensures o in Perform(p, row, op).row.convs
    ensures Perform(p, row, op).row.convs[o].state != Pending ==>
      || op.Block?
      || (op.Act? && op.origin == Request == o && op.user == p.Peer(row.convs[o].requester.value)
          && (op.action == Accept || op.action == Decline))
  {
    PendingIsRequest(p, row, o);
    if op.Act? { AnswersEndPending(row, op.origin, op.user, op.action, o); }
    else if !op.Block? { OthersLeavePendingAlone(p, row, op, o); }
  }

  lemma MaskRule(db: Db, p: Pair)
    requires DbInv(db) && Anonymous in db.Row(p).convs
    ensures var c := db.Row(p).convs[Anonymous]; c.revealed <==> p.lo in c.consents && p.hi in c.consents
  {
    KnownPair(db, p);
    assert OriginRules(p, Anonymous, db.Row(p).convs[Anonymous]);
  }

  /** A mask comes off exactly when both members agreed, and never goes back on. */
  lemma RevealedIffBothConsent(db: Db, steps: seq<Step>, p: Pair)
    requires DbInv(db) && Run(db, steps).Some?
    requires Anonymous in db.Row(p).convs
    ensures Anonymous in Run(db, steps).value.Row(p).convs
    ensures var c, c' := db.Row(p).convs[Anonymous], Run(db, steps).value.Row(p).convs[Anonymous];
            && (c'.revealed <==> p.lo in c'.consents && p.hi in c'.consents)
            && (c.revealed ==> c'.revealed)
  {
    RunFromInv(db, steps);
    NothingIsUndone(db, steps, p);
    MaskRule(Run(db, steps).value, p);
    assert ConvGrows(db.Row(p).convs[Anonymous], Run(db, steps).value.Row(p).convs[Anonymous]);
  }

  /** 0 <= read <= delivered <= last_seq at every moment, and neither cursor goes back. */
  lemma ReceiptsAdvance(db: Db, steps: seq<Step>, p: Pair, o: Origin, user: UserId)
    requires DbInv(db) && Run(db, steps).Some?
    requires o in db.Row(p).convs && p.Has(user)
    ensures o in Run(db, steps).value.Row(p).convs
    ensures user in db.Row(p).convs[o].parts && user in Run(db, steps).value.Row(p).convs[o].parts
    ensures var c, c' := db.Row(p).convs[o], Run(db, steps).value.Row(p).convs[o];
            && 0 <= c.parts[user].read <= c'.parts[user].read <= c'.parts[user].delivered <= c'.lastSeq
            && c.parts[user].delivered <= c'.parts[user].delivered
  {
    RunFromInv(db, steps);
    NothingIsUndone(db, steps, p);
    KnownPair(db, p);
    var c, c' := db.Row(p).convs[o], Run(db, steps).value.Row(p).convs[o];
    assert ReceiptsInOrder(p, c) && ReceiptsInOrder(p, c') && ConvGrows(c, c');
  }

  /** An acknowledgement moves the caller's cursors up to the position and nothing else,
      and is announced exactly when something moved. */
  lemma ReceiptIsRecorded(p: Pair, row: PairRow, o: Origin, user: UserId, upTo: int, read: bool)
    requires p.Has(user) && PairInv(p, row) && Conversations.Receipt(row, o, user, upTo, read).Done?
    ensures var out := Conversations.Receipt(row, o, user, upTo, read);
            var was := row.convs[o].parts[user];
            var now := was.(read := if read then Max(was.read, upTo) else was.read,
                            delivered := Max(was.delivered, upTo));
            && 0 <= upTo <= row.convs[o].lastSeq
            && out.row == row.(convs := row.convs[o := row.convs[o].(parts := row.convs[o].parts[user := now])])
            && (out.notes == [] <==> now == was)
  {
    var c := row.convs[o];
    assert ReceiptsInOrder(p, c) by { assert ConvInv(p, o, c); }
    assert c.parts[user := c.parts[user]] == c.parts && row.convs[o := c] == row.convs;
  }

  lemma PairParts(p: Pair, row: PairRow, o: Origin)
    requires PairInv(p, row) && o in row.convs
    ensures row.convs[o].parts.Keys == {p.lo, p.hi}
  {
    assert ConvInv(p, o, row.convs[o]);
  }

  /** The caller's cursor stands at or past the position it acknowledged. */
  lemma AckIsReached(db: Db, p: Pair, o: Origin, user: UserId, upTo: int, read: bool)
    requires DbInv(db) && p.Has(user) && Apply(db, OnPair(p, Steps.Receipt(user, o, upTo, read))).Some?
    ensures var row := Apply(db, OnPair(p, Steps.Receipt(user, o, upTo, read))).value.Row(p);
            && o in row.convs && user in row.convs[o].parts && upTo <= row.convs[o].lastSeq
            && upTo <= if read then row.convs[o].parts[user].read else row.convs[o].parts[user].delivered
  {
    RowIsFine(db, p);
    ReceiptIsRecorded(p, db.Row(p), o, user, upTo, read);
    PairParts(p, db.Row(p), o);
  }

  lemma ReachedIsSilent(row: PairRow, o: Origin, user: UserId, upTo: int, read: bool)
    requires o in row.convs && user in row.convs[o].parts && upTo <= row.convs[o].lastSeq
    requires upTo <= if read then row.convs[o].parts[user].read else row.convs[o].parts[user].delivered
    ensures Conversations.Receipt(row, o, user, upTo, read)
      in {Done(row, []), Refused(Unavailable), Refused(BadRequest)}
    ensures Reachable(row, o) && 0 <= upTo ==> Conversations.Receipt(row, o, user, upTo, read) == Done(row, [])
  {
  }

  /** Once a position is acknowledged, however much happens next, acknowledging it or an
      earlier one again changes nothing and announces nothing. */
  lemma ReceiptIsExactlyOnce(db: Db, p: Pair, o: Origin, user: UserId, upTo: int, read: bool,
                             acked: Db, later: seq<Step>, upTo': int)
    requires DbInv(db) && p.Has(user) && 0 <= upTo' <= upTo
    requires Apply(db, OnPair(p, Steps.Receipt(user, o, upTo, read))) == Some(acked)
    requires Run(acked, later).Some?
    ensures var row := Run(acked, later).value.Row(p);
            Conversations.Receipt(row, o, user, upTo', read)
            == if Reachable(row, o) then Done(row, []) else Refused(Unavailable)
  {
    AckIsReached(db, p, o, user, upTo, read);
    StepKeepsInv(db, OnPair(p, Steps.Receipt(user, o, upTo, read)));
    ReceiptsAdvance(acked, later, p, o, user);
    ReachedIsSilent(Run(acked, later).value.Row(p), o, user, upTo', read);
  }

  /** While a request waits for its answer nobody can write to it: neither a second
      introduction, through Send or through Open, nor a reply before accepting. */
  lemma NoSecondIntroduction(p: Pair, row: PairRow, o: Origin, user: UserId, d: Draft, id: Id, now: int)
    requires PairInv(p, row) && o in row.convs && row.convs[o].state == Pending
    requires ValidDraft(d) && Find(row.convs[o].messages, user, d.clientId).None?
    ensures Conversations.Send(row, o, user, d, id, now) == Refused(Forbidden)
    ensures o == Request && Conversations.OpenRequest(p, row, user, d, id, now) == Refused(Forbidden)
  {
    assert ConvInv(p, o, row.convs[o]);
  }

  /** Once a request was declined or closed, no later run lets either side ask it again. */
  lemma AnsweredRequestIsFinal(db: Db, steps: seq<Step>, p: Pair, user: UserId, d: Draft, id: Id, now: int)
    requires DbInv(db) && Run(db, steps).Some?
    requires Request in db.Row(p).convs && !db.Row(p).convs[Request].Live()
    ensures Conversations.OpenRequest(p, Run(db, steps).value.Row(p), user, d, id, now) == Refused(Unavailable)
  {
    NothingIsUndone(db, steps, p);
    assert ConvGrows(db.Row(p).convs[Request], Run(db, steps).value.Row(p).convs[Request]);
  }

  predicate Lifts(step: Step, p: Pair, user: UserId) {
    step.OnPair? && step.pair == p && step.op == Unblock(user)
  }

  lemma BlockSurvives(p: Pair, row: PairRow, op: PairOp, user: UserId)
    requires Perform(p, row, op).Done? && op != Unblock(user) && user in row.blocks
    ensures user in Perform(p, row, op).row.blocks
  {
  }

  /** A block stands until the person who made it lifts it, whatever else either side does. */
  lemma {:induction false} BlockStays(db: Db, steps: seq<Step>, p: Pair, user: UserId)
    requires Run(db, steps).Some? && user in db.Row(p).blocks
    requires forall i :: 0 <= i < |steps| ==> !Lifts(steps[i], p, user)
    ensures user in Run(db, steps).value.Row(p).blocks
    decreases |steps|
  {
    if |steps| > 0 {
      var init, last := steps[..|steps| - 1], steps[|steps| - 1];
      BlockStays(db, init, p, user);
      if last.OnPair? && last.pair == p {
        BlockSurvives(p, Run(db, init).value.Row(p), last.op, user);
      }
    }
  }

  lemma FlagsOnly(row: PairRow, o: Origin, user: UserId, action: Action)
    requires Reachable(row, o) && user in row.convs[o].parts
    requires action in {Mute, Unmute, Archive, Unarchive}
    ensures var c := row.convs[o];
            var parts := c.parts[user := Adjust(c.parts[user], action)];
            Conversations.Act(row, o, user, action).Done?
            && Conversations.Act(row, o, user, action).row == row.(convs := row.convs[o := c.(parts := parts)])
  {
  }

  /** Muting and archiving are the caller's own, and each is undone by its opposite. */
  lemma FlagsAreYourOwn(p: Pair, row: PairRow, o: Origin, user: UserId, action: Action)
    requires p.Has(user) && PairInv(p, row) && Reachable(row, o)
    requires action in {Mute, Unmute, Archive, Unarchive}
    ensures Conversations.Act(row, o, user, action).Done?
    ensures var was, c := row.convs[o], Conversations.Act(row, o, user, action).row.convs[o];
            && c == was.(parts := c.parts) && c.parts.Keys == was.parts.Keys
            && (forall u :: u in was.parts && u != user ==> c.parts[u] == was.parts[u])
            && (action == Mute || action == Unmute ==> c.parts[user] == was.parts[user].(muted := action == Mute))
            && (action == Archive || action == Unarchive ==>
                 c.parts[user] == was.parts[user].(archived := action == Archive))
  {
    PairParts(p, row, o);
    FlagsOnly(row, o, user, action);
  }
}
