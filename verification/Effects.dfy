/** What each committed transaction does, told by the rows and events it leaves: when it is
    refused, what it changes, and that nothing else changes. */
module Effects {
  import opened Rows
  import opened ChatLog
  import opened Conversations
  import opened Steps
  import opened Invariants
  import opened Guarantees
  import Social

  // ----- around the pair ------------------------------------------------------

  /** Other pairs, other accounts and everybody's status are as they were. */
  ghost predicate OnlyThisPair(db: Db, db': Db, p: Pair) {
    && db'.users.Keys == db.users.Keys
    && (forall q :: q != p ==> db'.Row(q) == db.Row(q))
    && (forall u :: u in db.users ==> db'.users[u].active == db.users[u].active)
    && (forall u :: u in db.users && !p.Has(u) ==> db'.users[u] == db.users[u])
  }

  /** The log has grown by one event for each note, at the next positions. */
  predicate LogGrew(u: UserRow, u': UserRow, p: Pair, told: seq<Note>) {
    && u'.eventSeq == u.eventSeq + |told| && |u'.rows| == |u.rows| + |told| && u.rows <= u'.rows
    && forall i :: 0 <= i < |told| ==>
         u'.rows[|u.rows| + i] == Event(u.eventSeq + 1 + i, told[i].kind, ConvId(p, told[i].origin))
  }

  /** Both members were told this, and nothing else in their logs changed. */
  predicate Told(db: Db, db': Db, p: Pair, told: seq<Note>)
    requires db.Knows(p) && db'.Knows(p)
  {
    LogGrew(db.users[p.lo], db'.users[p.lo], p, told) && LogGrew(db.users[p.hi], db'.users[p.hi], p, told)
  }

  ghost predicate Did(db: Db, p: Pair, db': Db, told: seq<Note>) {
    OnlyThisPair(db, db', p) && db.Knows(p) && db'.Knows(p) && Told(db, db', p, told)
  }

  lemma EmitIsTold(users: map<UserId, UserRow>, p: Pair, told: seq<Note>, u: UserId)
    requires p.lo in users && p.hi in users && p.Ordered() && u in users
    ensures p.Has(u) ==> LogGrew(users[u], EmitAll(users, p, told)[u], p, told)
    ensures !p.Has(u) ==> EmitAll(users, p, told)[u] == users[u]
    ensures EmitAll(users, p, told)[u].active == users[u].active
  {
    if p.Has(u) { assert EmitAll(users, p, told)[u] == Append(users[u], p, told); }
  }

  lemma StepIsLocal(db: Db, p: Pair, op: PairOp, db': Db)
    requires Apply(db, OnPair(p, op)) == Some(db')
    ensures Perform(p, db.Row(p), op).Done? && db'.Row(p) == Perform(p, db.Row(p), op).row
    ensures Did(db, p, db', Perform(p, db.Row(p), op).notes)
  {
    forall u | u in db.users
      ensures db'.users[u].active == db.users[u].active && (!p.Has(u) ==> db'.users[u] == db.users[u])
      ensures p.Has(u) ==> LogGrew(db.users[u], db'.users[u], p, Perform(p, db.Row(p), op).notes)
    {
      EmitIsTold(db.users, p, Perform(p, db.Row(p), op).notes, u);
    }
  }

  /** The calls the step level takes: a known pair, the caller a member. */
  predicate Called(db: Db, p: Pair, op: PairOp) {
    DbInv(db) && p.Ordered() && db.Knows(p) && Admissible(p, db.Row(p), op)
  }

  lemma TakenIff(db: Db, p: Pair, op: PairOp)
    requires Called(db, p, op)
    ensures Apply(db, OnPair(p, op)).Some? <==>
      Perform(p, db.Row(p), op).Done? && (Announces(Perform(p, db.Row(p), op).notes) ==> db.BothActive(p))
  {
  }

  /** A conversation somebody can still be let into. */
  predicate Standing(row: PairRow, o: Origin) {
    o in row.convs && (row.convs[o].state == ConvState.Open || row.convs[o].state == Pending)
  }

  lemma StandingIsReachable(p: Pair, row: PairRow, o: Origin)
    requires PairInv(p, row)
    ensures Standing(row, o) <==> Reachable(row, o)
  {
  }

  /** A conversation as it is created: empty, unread by both members, unmuted and unarchived. */
  predicate IsNew(c: Conv, p: Pair, state: ConvState, requester: Option<UserId>, now: int) {
    && c.state == state && c.requester == requester && c.lastSeq == 0 && c.messages == []
    && c.consents == {} && !c.revealed && c.activity == now
    && c.parts.Keys == {p.lo, p.hi}
    && forall u :: u in c.parts ==>
         c.parts[u].read == 0 && c.parts[u].delivered == 0 && !c.parts[u].muted && !c.parts[u].archived
  }

  // ----- likes ----------------------------------------------------------------

  lemma LikeRefused(db: Db, p: Pair, from: UserId, seen: bool, matchId: Id, now: int)
    requires Called(db, p, Like(from, seen, matchId, now))
    ensures Apply(db, OnPair(p, Like(from, seen, matchId, now))).None? <==> db.Row(p).blocks != {}
    ensures Perform(p, db.Row(p), Like(from, seen, matchId, now)).Refused? ==>
      Perform(p, db.Row(p), Like(from, seen, matchId, now)) == Refused(Blocked)
  {
    assert Note(Match, ConversationNew).kind != MessageNew;
  }

  /** A like that did not see the other one is stored and tells nobody. */
  lemma LikeWaits(db: Db, p: Pair, from: UserId, matchId: Id, now: int, db': Db)
    requires DbInv(db) && Apply(db, OnPair(p, Like(from, false, matchId, now))) == Some(db')
    ensures Did(db, p, db', [])
    ensures var row, row' := db.Row(p), db'.Row(p);
            && from in row'.likes && (forall u :: u != from ==> (u in row'.likes <==> u in row.likes))
            && row'.blocks == row.blocks && row'.matched == row.matched && row'.convs == row.convs
  {
    StepIsLocal(db, p, Like(from, false, matchId, now), db');
  }

  /** Nothing but the match conversation may be new, and it is if it was missing. */
  predicate HasMatchConv(p: Pair, row: PairRow, row': PairRow, now: int) {
    if Match in row.convs then row'.convs == row.convs
    else
      && row'.convs.Keys == row.convs.Keys + {Match}
      && (forall o :: o in row.convs ==> row'.convs[o] == row.convs[o])
      && IsNew(row'.convs[Match], p, ConvState.Open, None, now)
  }

  /** A match made on this row: both likes consumed, the blocks and every other conversation as
      they were, and a match conversation, new unless the pair had one already. */
  predicate MatchMade(p: Pair, row: PairRow, row': PairRow, matchId: Id, now: int) {
    && row'.matched == Some(if row.matched.Some? then row.matched.value else matchId)
    && p.lo !in row'.likes && p.hi !in row'.likes && row'.blocks == row.blocks
    && HasMatchConv(p, row, row', now)
  }

  /** What both members are told of it. */
  function MatchNews(row: PairRow): seq<Note> {
    if Match in row.convs then [] else [Note(Match, ConversationNew)]
  }

  lemma LikeMatchesRow(p: Pair, row: PairRow, from: UserId, matchId: Id, now: int)
    requires row.blocks == {}
    ensures Social.Like(p, row, from, true, matchId, now).Done?
    ensures MatchMade(p, row, Social.Like(p, row, from, true, matchId, now).row, matchId, now)
    ensures Social.Like(p, row, from, true, matchId, now).notes == MatchNews(row)
  {
  }

  /** A like that saw the other one: the pair is matched, both likes are consumed, and there is
      a match conversation, a new open one unless the pair had one already. */
  lemma LikeMatches(db: Db, p: Pair, from: UserId, matchId: Id, now: int, db': Db)
    requires DbInv(db) && Apply(db, OnPair(p, Like(from, true, matchId, now))) == Some(db')
    ensures MatchMade(p, db.Row(p), db'.Row(p), matchId, now)
    ensures Did(db, p, db', MatchNews(db.Row(p)))
  {
    StepIsLocal(db, p, Like(from, true, matchId, now), db');
    LikeMatchesRow(p, db.Row(p), from, matchId, now);
  }

  /** And when both accounts are active both members can use a conversation it made. */
  lemma NewMatchIsOpenToBoth(db: Db, p: Pair, from: UserId, matchId: Id, now: int, db': Db, user: UserId)
    requires DbInv(db) && Apply(db, OnPair(p, Like(from, true, matchId, now))) == Some(db')
    requires Match !in db.Row(p).convs && db.BothActive(p) && p.Has(user)
    ensures Access(db', ConvId(p, Match), user)
  {
    LikeMatches(db, p, from, matchId, now, db');
  }

  lemma RemoveLikeEffect(db: Db, p: Pair, sender: UserId)
    requires Called(db, p, RemoveLike(sender))
    ensures Apply(db, OnPair(p, RemoveLike(sender))).Some? <==> sender in db.Row(p).likes
    ensures sender in db.Row(p).likes ==>
      var db' := Apply(db, OnPair(p, RemoveLike(sender))).value;
      var row, row' := db.Row(p), db'.Row(p);
      && sender !in row'.likes && (forall u :: u != sender ==> (u in row'.likes <==> u in row.likes))
      && row'.blocks == row.blocks && row'.matched == row.matched && row'.convs == row.convs
      && Did(db, p, db', [])
  {
    if sender in db.Row(p).likes {
      StepIsLocal(db, p, RemoveLike(sender), Apply(db, OnPair(p, RemoveLike(sender))).value);
    }
  }

  // ----- blocks and unmatches -------------------------------------------------

  /** Each of these conversations is named once, by a closing event, and no other. */
  predicate ClosingsTold(told: seq<Note>, closed: set<Origin>) {
    && (forall i :: 0 <= i < |told| ==> told[i].kind == ConversationAccess && told[i].origin in closed)
    && (forall o :: o in closed ==> exists i :: 0 <= i < |told| && told[i].origin == o)
    && (forall i, j :: 0 <= i < j < |told| ==> told[i].origin != told[j].origin)
  }

  function LiveOnes(row: PairRow): set<Origin> { set o | o in row.convs && Standing(row, o) }

  /** These conversations are closed and otherwise as they were; the rest are untouched. */
  predicate Ended(row: PairRow, row': PairRow, closed: set<Origin>) {
    && row'.convs.Keys == row.convs.Keys
    && forall o :: o in row.convs ==>
         row'.convs[o] == if o in closed then row.convs[o].(state := Closed) else row.convs[o]
  }

  lemma ClosedOnce(row: PairRow, order: seq<Origin>, told: seq<Note>, closed: set<Origin>)
    requires |told| == |order| && forall i :: 0 <= i < |told| ==> told[i] == Note(order[i], ConversationAccess)
    requires forall i, j :: 0 <= i < j < |order| ==> order[i] != order[j]
    requires forall o :: o in order <==> o in closed
    ensures ClosingsTold(told, closed)
  {
    forall i | 0 <= i < |told| ensures told[i].origin in closed { assert order[i] in order; }
    forall o | o in closed ensures exists i :: 0 <= i < |told| && told[i].origin == o {
      var i :| 0 <= i < |order| && order[i] == o;
      assert told[i].origin == o;
    }
  }

  lemma NothingSaid(told: seq<Note>)
    requires forall i :: 0 <= i < |told| ==> told[i].kind == ConversationAccess
    ensures !Announces(told)
  {
  }

  /** A block is never refused. It stands, nothing else the pair had does, and every open or
      pending conversation is closed with its event. */
  lemma BlockEffect(db: Db, p: Pair, user: UserId, order: seq<Origin>) returns (db': Db, told: seq<Note>)
    requires Called(db, p, Block(user, order))
    ensures Apply(db, OnPair(p, Block(user, order))) == Some(db') && Did(db, p, db', told)
    ensures var row, row' := db.Row(p), db'.Row(p);
            && user in row'.blocks && (forall u :: u != user ==> (u in row'.blocks <==> u in row.blocks))
            && row'.matched == None && p.lo !in row'.likes && p.hi !in row'.likes
            && Ended(row, row', LiveOnes(row)) && ClosingsTold(told, LiveOnes(row))
  {
    var op := Block(user, order);
    told := Perform(p, db.Row(p), op).notes;
    ClosedOnce(db.Row(p), order, told, LiveOnes(db.Row(p)));
    NothingSaid(told);
    db' := Apply(db, OnPair(p, op)).value;
    StepIsLocal(db, p, op, db');
  }

  /** Unmatching ends the match with this id, takes both likes, and closes only the match conversation. */
  lemma UnmatchEffect(db: Db, p: Pair, matchId: Id, order: seq<Origin>) returns (db': Db, told: seq<Note>)
    requires Called(db, p, Unmatch(matchId, order))
    ensures Apply(db, OnPair(p, Unmatch(matchId, order))) == Some(db') && Did(db, p, db', told)
    ensures var row, row' := db.Row(p), db'.Row(p);
            && row'.blocks == row.blocks && p.lo !in row'.likes && p.hi !in row'.likes
            && (row.matched == Some(matchId) ==> row'.matched == None)
            && (row.matched != Some(matchId) ==> row'.matched == row.matched)
            && Ended(row, row', LiveOnes(row) * {Match}) && ClosingsTold(told, LiveOnes(row) * {Match})
  {
    var op := Unmatch(matchId, order);
    told := Perform(p, db.Row(p), op).notes;
    ClosedOnce(db.Row(p), order, told, LiveOnes(db.Row(p)) * {Match});
    NothingSaid(told);
    db' := Apply(db, OnPair(p, op)).value;
    StepIsLocal(db, p, op, db');
  }

  /** Lifting a block is never refused, lifts the caller's and nothing else. */
  lemma UnblockEffect(db: Db, p: Pair, user: UserId) returns (db': Db)
    requires Called(db, p, Unblock(user))
    ensures Apply(db, OnPair(p, Unblock(user))) == Some(db') && Did(db, p, db', [])
    ensures var row, row' := db.Row(p), db'.Row(p);
            && user !in row'.blocks && (forall u :: u != user ==> (u in row'.blocks <==> u in row.blocks))
            && row'.likes == row.likes && row'.matched == row.matched && row'.convs == row.convs
  {
    db' := Apply(db, OnPair(p, Unblock(user))).value;
    StepIsLocal(db, p, Unblock(user), db');
  }

  predicate Blocks(step: Step, p: Pair, user: UserId) {
    step.OnPair? && step.pair == p && step.op.Block? && step.op.user == user
  }

  /** Some block of this person's was not followed by an unblock of theirs. */
  predicate BlockedLast(steps: seq<Step>, p: Pair, user: UserId)
    decreases |steps|
  {
    |steps| > 0 &&
    (var init, last := steps[..|steps| - 1], steps[|steps| - 1];
     Blocks(last, p, user) || (BlockedLast(init, p, user) && !Lifts(last, p, user)))
  }

  predicate NoLift(steps: seq<Step>, p: Pair, user: UserId) {
    forall i :: 0 <= i < |steps| ==> !Lifts(steps[i], p, user)
  }

  /** The i-th step is a block of theirs, with no unblock of theirs after it. */
  predicate StandsSince(steps: seq<Step>, i: nat, p: Pair, user: UserId)
    requires i < |steps|
  {
    Blocks(steps[i], p, user) && NoLift(steps[i + 1..], p, user)
  }

  lemma NoLiftAppends(steps: seq<Step>, last: Step, p: Pair, user: UserId)
    ensures NoLift(steps + [last], p, user) <==> NoLift(steps, p, user) && !Lifts(last, p, user)
  {
    if NoLift(steps + [last], p, user) {
      assert (steps + [last])[|steps|] == last;
      forall i | 0 <= i < |steps| ensures !Lifts(steps[i], p, user) { assert (steps + [last])[i] == steps[i]; }
    }
  }

  lemma {:induction false} BlockedLastMeans(steps: seq<Step>, p: Pair, user: UserId)
    ensures BlockedLast(steps, p, user) <==>
      exists i :: 0 <= i < |steps| && StandsSince(steps, i, p, user)
    decreases |steps|
  {
    if |steps| > 0 {
      var init, last := steps[..|steps| - 1], steps[|steps| - 1];
      BlockedLastMeans(init, p, user);
      if Blocks(last, p, user) {
        assert steps[|steps| - 1 + 1..] == [];
        assert StandsSince(steps, |steps| - 1, p, user);
      }
      forall i | 0 <= i < |init|
        ensures StandsSince(steps, i, p, user) <==> StandsSince(init, i, p, user) && !Lifts(last, p, user)
      {
        assert steps[i + 1..] == init[i + 1..] + [last];
        NoLiftAppends(init[i + 1..], last, p, user);
        assert init[i] == steps[i];
      }
    }
  }

  lemma OnlyBlockBlocks(p: Pair, row: PairRow, op: PairOp, user: UserId)
    requires Perform(p, row, op).Done?
    ensures user in Perform(p, row, op).row.blocks <==>
      (op.Block? && op.user == user) || (user in row.blocks && op != Unblock(user))
  {
  }

  /** At the end of any run a person's block stands exactly when some block of theirs has no
      later unblock of theirs. */
  lemma {:induction false} BlockStandsIff(steps: seq<Step>, p: Pair, user: UserId)
    requires Run(EMPTY_DB, steps).Some?
    ensures user in Run(EMPTY_DB, steps).value.Row(p).blocks <==>
      exists i :: 0 <= i < |steps| && StandsSince(steps, i, p, user)
    ensures user in Run(EMPTY_DB, steps).value.Row(p).blocks <==> BlockedLast(steps, p, user)
    decreases |steps|
  {
    BlockedLastMeans(steps, p, user);
    if |steps| > 0 {
      var init, last := steps[..|steps| - 1], steps[|steps| - 1];
      BlockStandsIff(init, p, user);
      if last.OnPair? && last.pair == p {
        OnlyBlockBlocks(p, Run(EMPTY_DB, init).value.Row(p), last.op, user);
      }
    }
  }

  // ----- accounts -------------------------------------------------------------

  /** Every other account and every pair are as they were. */
  predicate OnlyThisAccount(db: Db, db': Db, user: UserId) {
    db'.pairs == db.pairs && forall u :: u in db.users && u != user ==> u in db'.users && db'.users[u] == db.users[u]
  }

  /** A suspension leaves the account inactive and its log as it was. */
  lemma SuspendEffect(db: Db, user: UserId)
    ensures Apply(db, Suspend(user)).Some? <==> user in db.users
    ensures user in db.users ==>
      var db' := Apply(db, Suspend(user)).value;
      && db'.users.Keys == db.users.Keys && OnlyThisAccount(db, db', user)
      && !db'.users[user].active
      && db'.users[user].eventSeq == db.users[user].eventSeq && db'.users[user].rows == db.users[user].rows
  {
  }

  lemma NobodyIsReinstated(db: Db, step: Step, user: UserId)
    requires Apply(db, step).Some? && user in db.users
    ensures user in Apply(db, step).value.users
    ensures Apply(db, step).value.users[user].active <==> db.users[user].active && step != Suspend(user)
  {
  }

  /** Over any run an account is active at the end exactly when it was and nobody suspended it. */
  lemma {:induction false} ActiveUntilSuspended(db: Db, steps: seq<Step>, user: UserId)
    requires Run(db, steps).Some? && user in db.users
    ensures user in Run(db, steps).value.users
    ensures Run(db, steps).value.users[user].active <==> db.users[user].active && Suspend(user) !in steps
    decreases |steps|
  {
    if |steps| > 0 {
      var init, last := steps[..|steps| - 1], steps[|steps| - 1];
      assert steps == init + [last];
      ActiveUntilSuspended(db, init, user);
      NobodyIsReinstated(Run(db, init).value, last, user);
    }
  }

  /** So from its suspension on, through any run, nobody stores a message with it. */
  lemma SuspendedGetsNoMessage(db: Db, steps: seq<Step>, next: Step, id: ConvId, user: UserId)
    requires DbInv(db) && user in db.users && !db.users[user].active && id.pair.Has(user)
    requires Run(db, steps).Some? && Apply(Run(db, steps).value, next).Some?
    ensures Thread(Apply(Run(db, steps).value, next).value, id) == Thread(Run(db, steps).value, id)
  {
    ActiveUntilSuspended(db, steps, user);
    RunFromInv(db, steps);
    var now := Run(db, steps).value;
    if Thread(Apply(now, next).value, id) != Thread(now, id) { MessagesNeedActiveAccounts(now, next, id); }
  }

  /** Pruning takes exactly the oldest stored events of one account. */
  lemma PruneEffect(db: Db, user: UserId, count: nat)
    ensures Apply(db, Prune(user, count)).Some? <==> user in db.users && count <= |db.users[user].rows|
    ensures Apply(db, Prune(user, count)).Some? ==>
      var db' := Apply(db, Prune(user, count)).value;
      && db'.users.Keys == db.users.Keys && OnlyThisAccount(db, db', user)
      && db'.users[user].active == db.users[user].active && db'.users[user].eventSeq == db.users[user].eventSeq
      && |db'.users[user].rows| == |db.users[user].rows| - count
      && forall i :: 0 <= i < |db'.users[user].rows| ==> db'.users[user].rows[i] == db.users[user].rows[count + i]
  {
  }

  /** A new account is active and has nothing to catch up with. */
  lemma JoinEffect(db: Db, user: UserId)
    ensures Apply(db, Join(user)).Some? <==> user !in db.users
    ensures user !in db.users ==>
      var db' := Apply(db, Join(user)).value;
      && db'.users.Keys == db.users.Keys + {user} && OnlyThisAccount(db, db', user)
      && db'.users[user].active && db'.users[user].eventSeq == 0 && db'.users[user].rows == []
  {
  }
}
