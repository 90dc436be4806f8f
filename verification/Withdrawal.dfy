/** A like that was read and then withdrawn before the match it makes commits: when that
    can happen, and a run in which it does. */
module Withdrawal {
  import opened Rows
  import opened Steps
  import opened Interleaving
  import opened Isolation
  import opened Concurrency
  import opened Commits

  // ----- which matches are made from two standing likes -----------------------

  /** A Like that has read the other person's like and is on its way to the match. */
  predicate Matching(t: Txn) {
    t.PairTxn? && t.op.Like? && t.op.seen && t.pc in {Mutual, Matched, Ensured, Ready}
  }

  function Other(t: Txn): UserId
    requires t.PairTxn? && t.op.Like?
  {
    t.pair.Peer(t.op.from)
  }

  function Withdrawing(p: Pair, u: UserId): Tick { Alone(OnPair(p, RemoveLike(u))) }

  predicate Undecided(ticks: seq<Tick>, id: Id) { Commit(id) !in ticks && Abort(id) !in ticks }

  /** What the transaction holds on to, and what it may lose. */
  predicate StillMatching(s: Sys, s': Sys, id: Id, withdrawn: bool)
    requires id in s.txns && Matching(s.txns[id])
  {
    var t := s.txns[id];
    && id in s'.txns && Matching(s'.txns[id]) && s'.txns[id].pair == t.pair && s'.txns[id].op == t.op
    && (Other(t) in s'.db.Row(t.pair).likes <==> Other(t) in s.db.Row(t.pair).likes && !withdrawn)
  }

  /** Past its read a Like runs every statement, and keeps what it read. */
  lemma MatchingMoves(db: Db, t: Txn, choice: seq<Origin>)
    requires TxnInv(db, t) && Matching(t) && !t.Finished()
    ensures Statement(db, t, choice).Go?
    ensures Matching(Statement(db, t, choice).txn)
    ensures Statement(db, t, choice).txn.pair == t.pair && Statement(db, t, choice).txn.op == t.op
  {
  }

  lemma OtherCommitsElsewhere(key: KeyOf, s: Sys, id: Id, j: Id)
    requires SysInv(key, s) && id in s.txns && j in s.txns && id != j && s.txns[j].Finished()
    requires s.txns[id].HoldsPair()
    ensures Publish(s.db, s.txns[j]).Row(s.txns[id].pair) == s.db.Row(s.txns[id].pair)
  {
    PublishTouches(s.db, s.txns[j]);
    if s.txns[j].PairTxn? {
      assert Held(key, s.txns[j]) !! Held(key, s.txns[id]);
      Apart(key, s.txns[j], s.txns[id]);
    }
  }

  lemma AloneLikes(db: Db, step: Step, p: Pair)
    requires RunsAlone(step) && Apply(db, step).Some?
    ensures Apply(db, step).value.Row(p).likes
         == db.Row(p).likes - if step.OnPair? && step.pair == p && step.op.RemoveLike? then {step.op.sender} else {}
  {
  }

  /** While the transaction is open, only the withdrawal itself takes the like away. */
  lemma OnlyWithdrawalRemoves(key: KeyOf, s: Sys, tick: Tick, id: Id)
    requires SysInv(key, s) && Tock(key, s, tick).Some? && tick != Commit(id) && tick != Abort(id)
    requires id in s.txns && Matching(s.txns[id])
    ensures StillMatching(s, Tock(key, s, tick).value, id, tick == Withdrawing(s.txns[id].pair, Other(s.txns[id])))
  {
    var t := s.txns[id];
    match tick
    case Advance(j, choice) => if j == id { MatchingMoves(s.db, t, choice); }
    case Commit(j) => OtherCommitsElsewhere(key, s, id, j);
    case Alone(step) => AloneLikes(s.db, step, t.pair);
    case _ =>
  }

  lemma {:induction false} LikeStandsUnlessWithdrawn(key: KeyOf, s: Sys, ticks: seq<Tick>, id: Id)
    requires SysInv(key, s) && RunSys(key, s, ticks).Some? && Undecided(ticks, id)
    requires id in s.txns && Matching(s.txns[id])
    ensures SysInv(key, RunSys(key, s, ticks).value)
    ensures StillMatching(s, RunSys(key, s, ticks).value, id, Withdrawing(s.txns[id].pair, Other(s.txns[id])) in ticks)
    decreases |ticks|
  {
    if |ticks| > 0 {
      var init, last := ticks[..|ticks| - 1], ticks[|ticks| - 1];
      assert ticks == init + [last];
      LikeStandsUnlessWithdrawn(key, s, init, id);
      OnlyWithdrawalRemoves(key, RunSys(key, s, init).value, last, id);
      TockKeepsInv(key, RunSys(key, s, init).value, last);
    }
  }

  /** The read itself: a Like past its insert goes on to the match exactly when the other
      like is committed at that moment. */
  lemma ReadSeesCommittedLike(db: Db, t: Txn, choice: seq<Origin>)
    requires TxnInv(db, t) && t.PairTxn? && t.op.Like? && t.pc == Liked
    ensures Statement(db, t, choice).Go?
    ensures Matching(Statement(db, t, choice).txn) && Statement(db, t, choice).txn.pc == Mutual
      <==> Other(t) in db.Row(t.pair).likes
  {
    assert Other(t) != t.op.from;
  }

  /** A Like that has just read the other like makes the match whatever happens before it
      commits; and the other like still stands behind the match exactly when nobody withdrew
      it in between. */
  lemma MatchIsFromStandingLikesIff(key: KeyOf, s: Sys, ticks: seq<Tick>, id: Id)
    requires SysInv(key, s) && id in s.txns && Matching(s.txns[id]) && s.txns[id].pc == Mutual
    requires Other(s.txns[id]) in s.db.Row(s.txns[id].pair).likes
    requires RunSys(key, s, ticks).Some? && Undecided(ticks, id)
    requires Tock(key, RunSys(key, s, ticks).value, Commit(id)).Some?
    ensures var p, before := s.txns[id].pair, RunSys(key, s, ticks).value;
            && Tock(key, before, Commit(id)).value.db.Row(p).matched.Some?
            && (Other(s.txns[id]) in before.db.Row(p).likes <==> Withdrawing(p, Other(s.txns[id])) !in ticks)
  {
    LikeStandsUnlessWithdrawn(key, s, ticks, id);
    LikeMatchesIffItSaw(key, RunSys(key, s, ticks).value, id);
  }

  // ----- a run that makes a match from a withdrawn like -----------------------

  const ONE_TWO := Pair(1, 2)
  const FRESH_USER := UserRow(true, 0, [])
  const BOTH_USERS := Db(map[1 := FRESH_USER, 2 := FRESH_USER], map[])

  function LikedBy(likes: set<UserId>): Db { Db(BOTH_USERS.users, map[ONE_TWO := PairRow(likes, {}, None, map[])]) }

  /** Before its insert, and after it. */
  function Starting(from: UserId, pc: Pc): Txn {
    PairTxn(ONE_TWO, Like(from, false, 7, 0), pc, NO_WRITES, [], 0, 0, None, None)
  }

  function Inserted(from: UserId, seen: bool, pc: Pc): Txn {
    PairTxn(ONE_TWO, Like(from, seen, 7, 0), pc, NO_WRITES.(likes := map[from := true]), [], 0, 0, None, None)
  }

  ghost predicate Reached(key: KeyOf, ticks: seq<Tick>, s: Sys) { RunSys(key, EMPTY_SYS, ticks) == Some(s) }

  lemma Then(key: KeyOf, ticks: seq<Tick>, s: Sys, tick: Tick, s': Sys)
    requires Reached(key, ticks, s) && Tock(key, s, tick) == Some(s')
    ensures Reached(key, ticks + [tick], s')
  {
    assert (ticks + [tick])[..|ticks|] == ticks;
  }

  /** The only transaction there is never waits. */
  lemma RunsNext(key: KeyOf, ticks: seq<Tick>, db: Db, id: Id, t: Txn, t': Txn)
    requires Reached(key, ticks, Sys(db, map[id := t])) && !t.Finished() && Statement(db, t, []) == Go(t')
    ensures Reached(key, ticks + [Advance(id, [])], Sys(db, map[id := t']))
  {
    var s := Sys(db, map[id := t]);
    assert map[id := t][id := t'] == map[id := t'];
    Then(key, ticks, s, Advance(id, []), Sys(db, map[id := t']));
  }

  lemma StartingMoves(db: Db, from: UserId)
    requires from in {1, 2} && db.Knows(ONE_TWO) && db.Row(ONE_TWO).blocks == {}
    ensures Statement(db, Starting(from, Start), []) == Go(Starting(from, Locked))
    ensures Statement(db, Starting(from, Locked), []) == Go(Starting(from, Checked))
    ensures Statement(db, Starting(from, Checked), []) == Go(Inserted(from, false, Liked))
  {
  }

  lemma Begins(key: KeyOf, ticks: seq<Tick>, db: Db, id: Id, from: UserId)
    requires Reached(key, ticks, Sys(db, map[])) && from in {1, 2} && db.Knows(ONE_TWO)
    ensures Reached(key, ticks + [Begin(id, ONE_TWO, Starting(from, Start).op)],
                    Sys(db, map[id := Starting(from, Start)]))
  {
    var begin := Begin(id, ONE_TWO, Starting(from, Start).op);
    Then(key, ticks, Sys(db, map[]), begin, Sys(db, map[id := Starting(from, Start)]));
  }

  /** A like from its start to its insert, when nothing is in the way. */
  lemma LikeIsInserted(key: KeyOf, ticks: seq<Tick>, db: Db, id: Id, from: UserId) returns (more: seq<Tick>)
    requires Reached(key, ticks, Sys(db, map[])) && from in {1, 2}
    requires db.Knows(ONE_TWO) && db.Row(ONE_TWO).blocks == {}
    ensures Reached(key, more, Sys(db, map[id := Inserted(from, false, Liked)]))
  {
    Begins(key, ticks, db, id, from);
    StartingMoves(db, from);
    var a := ticks + [Begin(id, ONE_TWO, Starting(from, Start).op)];
    RunsNext(key, a, db, id, Starting(from, Start), Starting(from, Locked));
    var b := a + [Advance(id, [])];
    RunsNext(key, b, db, id, Starting(from, Locked), Starting(from, Checked));
    var c := b + [Advance(id, [])];
    RunsNext(key, c, db, id, Starting(from, Checked), Inserted(from, false, Liked));
    more := c + [Advance(id, [])];
  }

  lemma TwoUsers(key: KeyOf) returns (ticks: seq<Tick>)
    ensures Reached(key, ticks, Sys(BOTH_USERS, map[]))
  {
    var one := Sys(Db(map[1 := FRESH_USER], map[]), map[]);
    assert Reached(key, [], EMPTY_SYS);
    Then(key, [], EMPTY_SYS, Alone(Join(1)), one);
    Then(key, [] + [Alone(Join(1))], one, Alone(Join(2)), Sys(BOTH_USERS, map[]));
    ticks := [] + [Alone(Join(1))] + [Alone(Join(2))];
  }

  lemma OneLikePublished()
    ensures Publish(BOTH_USERS, Inserted(1, false, Ready)) == LikedBy({1})
  {
    var t := Inserted(1, false, Ready);
    assert Patched({}, map[1 := true]) == {1} && Patched({}, map[]) == {};
    assert View(EMPTY_PAIR, t.ov) == PairRow({1}, {}, None, map[]);
    assert BOTH_USERS.pairs[ONE_TWO := PairRow({1}, {}, None, map[])] == LikedBy({1}).pairs;
  }

  lemma FirstLike(key: KeyOf) returns (ticks: seq<Tick>)
    ensures Reached(key, ticks, Sys(LikedBy({1}), map[]))
  {
    ticks := TwoUsers(key);
    ticks := LikeIsInserted(key, ticks, BOTH_USERS, 10, 1);
    var done := Inserted(1, false, Ready);
    RunsNext(key, ticks, BOTH_USERS, 10, Inserted(1, false, Liked), done);
    ticks := ticks + [Advance(10, [])];
    OneLikePublished();
    Then(key, ticks, Sys(BOTH_USERS, map[10 := done]), Commit(10), Sys(LikedBy({1}), map[]));
    ticks := ticks + [Commit(10)];
  }

  /** Where a Like that makes a new conversation is after i statements past its read. */
  predicate Along(t: Txn, i: int)
    requires Matching(t)
  {
    if i == 0 then t.pc == Mutual && t.notes == [] && t.doneLo == t.doneHi == 0
    else if i == 1 then t.pc == Matched && t.notes == [] && t.doneLo == t.doneHi == 0
    else if i == 5 then t.Finished()
    else
      && t.pc == Ensured && |t.notes| == 1
      && t.doneLo == (if i == 2 then 0 else 1) && t.doneHi == if i == 4 then 1 else 0
  }

  lemma NextAlong(db: Db, t: Txn, i: int)
    requires 0 <= i < 5 && Matching(t) && TxnInv(db, t) && Along(t, i) && Match !in db.Row(t.pair).convs
    requires Statement(db, t, []).Go? && Matching(Statement(db, t, []).txn)
    ensures Along(Statement(db, t, []).txn, i + 1)
  {
  }

  /** From its read to its last statement, with nobody else around. */
  lemma MatchingFinishes(key: KeyOf, ticks: seq<Tick>, db: Db, id: Id, t: Txn) returns (more: seq<Tick>, t': Txn)
    requires Reached(key, ticks, Sys(db, map[id := t])) && Matching(t) && t.pc == Mutual
    requires TxnInv(db, t) && Match !in db.Row(t.pair).convs
    ensures Reached(key, more, Sys(db, map[id := t'])) && t'.Finished() && Matching(t')
    ensures t'.pair == t.pair && t'.op == t.op && ticks <= more
  {
    more, t' := ticks, t;
    for i := 0 to 5
      invariant Reached(key, more, Sys(db, map[id := t'])) && Matching(t') && TxnInv(db, t')
      invariant t'.pair == t.pair && t'.op == t.op && ticks <= more
      invariant Along(t', i)
    {
      MatchingMoves(db, t', []);
      StatementKeeps(db, t', []);
      NextAlong(db, t', i);
      RunsNext(key, more, db, id, t', Statement(db, t', []).txn);
      more, t' := more + [Advance(id, [])], Statement(db, t', []).txn;
    }
  }

  lemma WithdrawnIsGone()
    ensures Apply(LikedBy({1}), OnPair(ONE_TWO, RemoveLike(1))) == Some(LikedBy({}))
  {
    var one, none := PairRow({1}, {}, None, map[]), PairRow({}, {}, None, map[]);
    NoNotes(LikedBy({1}), ONE_TWO);
    assert {1} - {1} == {};
    assert Perform(ONE_TWO, one, RemoveLike(1)) == Done(none, []);
    assert LikedBy({1}).pairs[ONE_TWO := none] == LikedBy({}).pairs;
  }

  lemma ReadSees()
    ensures Statement(LikedBy({1}), Inserted(2, false, Liked), []) == Go(Inserted(2, true, Mutual))
  {
    assert 1 in Patched({1}, map[2 := true]);
  }

  /** Account 1 likes account 2. Account 2 likes back and reads that like, and account 1
      takes it away. */
  lemma ReadThenWithdrawn(key: KeyOf) returns (ticks: seq<Tick>)
    ensures Reached(key, ticks, Sys(LikedBy({}), map[11 := Inserted(2, true, Mutual)]))
    ensures Withdrawing(ONE_TWO, 1) in ticks
  {
    ticks := FirstLike(key);
    ticks := LikeIsInserted(key, ticks, LikedBy({1}), 11, 2);
    var t := Inserted(2, true, Mutual);
    ReadSees();
    RunsNext(key, ticks, LikedBy({1}), 11, Inserted(2, false, Liked), t);
    ticks := ticks + [Advance(11, [])];
    WithdrawnIsGone();
    Then(key, ticks, Sys(LikedBy({1}), map[11 := t]), Withdrawing(ONE_TWO, 1), Sys(LikedBy({}), map[11 := t]));
    ticks := ticks + [Withdrawing(ONE_TWO, 1)];
    assert ticks[|ticks| - 1] == Withdrawing(ONE_TWO, 1);
  }

  /** Account 2's like commits all the same, and the two are matched although account 1's
      like was gone from the committed rows before the commit. */
  lemma WithdrawnLikeStillMatches(key: KeyOf) returns (ticks: seq<Tick>, before: Sys)
    ensures Reached(key, ticks, before) && Withdrawing(ONE_TWO, 1) in ticks
    ensures before.db.Row(ONE_TWO) == PairRow({}, {}, None, map[])
    ensures Tock(key, before, Commit(11)).Some?
    ensures Tock(key, before, Commit(11)).value.db.Row(ONE_TWO).matched.Some?
    ensures Tock(key, before, Commit(11)).value.txns == map[]
  {
    var start := ReadThenWithdrawn(key);
    var s := Sys(LikedBy({}), map[11 := Inserted(2, true, Mutual)]);
    EveryInterleavingKeepsInv(key, start);
    assert TxnInv(s.db, s.txns[11]);
    var t;
    ticks, t := MatchingFinishes(key, start, s.db, 11, s.txns[11]);
    before := Sys(s.db, map[11 := t]);
    assert Withdrawing(ONE_TWO, 1) in ticks[..|start|];
    EveryInterleavingKeepsInv(key, ticks);
    LikeMatchesIffItSaw(key, before, 11);
    assert map[11 := t] - {11} == map[];
  }
}
