/** What holds in every interleaving. */
module Concurrency {
  import opened Rows
  import opened Steps
  import opened Invariants
  import opened Interleaving
  import opened Isolation
  import opened Guarantees
  import opened Replay

  // ----- linearization --------------------------------------------------------

  lemma {:induction false} RunJoins(db: Db, first: seq<Step>, rest: seq<Step>)
    requires Run(db, first).Some?
    ensures Run(db, first + rest) == Run(Run(db, first).value, rest)
    decreases |rest|
  {
    if |rest| == 0 {
      assert first + rest == first;
    } else {
      var init, last := rest[..|rest| - 1], rest[|rest| - 1];
      RunJoins(db, first, init);
      assert first + rest == (first + init) + [last];
      assert init + [last] == rest;
      RunLast(db, first + init, last);
      RunLast(Run(db, first).value, init, last);
    }
  }

  /** The committed rows of any interleaving are those of its transactions performed one
      at a time in commit order: for any key function, collisions included. */
  lemma {:induction false} InterleavingIsASequence(key: KeyOf, s: Sys, ticks: seq<Tick>)
    requires SysInv(key, s) && RunSys(key, s, ticks).Some?
    ensures SysInv(key, RunSys(key, s, ticks).value)
    ensures Run(s.db, Linearized(key, s, ticks)) == Some(RunSys(key, s, ticks).value.db)
    decreases |ticks|
  {
    if |ticks| > 0 {
      var init, last := ticks[..|ticks| - 1], ticks[|ticks| - 1];
      InterleavingIsASequence(key, s, init);
      var before := RunSys(key, s, init).value;
      TockKeepsInv(key, before, last);
      TockIsLinear(key, before, last);
      RunJoins(s.db, Linearized(key, s, init), Linear(before, last));
    }
  }

  /** So the invariant of the step level holds in every interleaving, at every moment. */
  lemma EveryInterleavingKeepsInv(key: KeyOf, ticks: seq<Tick>)
    requires RunSys(key, EMPTY_SYS, ticks).Some?
    ensures SysInv(key, RunSys(key, EMPTY_SYS, ticks).value)
    ensures DbInv(RunSys(key, EMPTY_SYS, ticks).value.db)
  {
    InterleavingIsASequence(key, EMPTY_SYS, ticks);
    RunKeepsInv(Linearized(key, EMPTY_SYS, ticks));
  }

  // ----- cursor order is commit order -----------------------------------------

  /** At every moment of every interleaving an account's committed events are those its
      committed transactions wrote, in commit order, numbered 1..event_seq. */
  lemma EventsAreDense(key: KeyOf, ticks: seq<Tick>, u: UserId)
    requires RunSys(key, EMPTY_SYS, ticks).Some?
    requires u in RunSys(key, EMPTY_SYS, ticks).value.db.users
    ensures var row := RunSys(key, EMPTY_SYS, ticks).value.db.users[u];
            var log := Log(Linearized(key, EMPTY_SYS, ticks), u);
            && Shows(row, log) && row.eventSeq == |log|
  {
    InterleavingIsASequence(key, EMPTY_SYS, ticks);
    LogIsDense(Linearized(key, EMPTY_SYS, ticks), u);
  }

  lemma {:induction false} LinearizedExtends(key: KeyOf, s: Sys, ticks: seq<Tick>, more: seq<Tick>)
    requires RunSys(key, s, ticks + more).Some?
    ensures RunSys(key, s, ticks).Some?
    ensures Linearized(key, s, ticks) <= Linearized(key, s, ticks + more)
    decreases |more|
  {
    if |more| == 0 {
      assert ticks + more == ticks;
    } else {
      var all, init := ticks + more, ticks + more[..|more| - 1];
      assert all[..|all| - 1] == init;
      LinearizedExtends(key, s, ticks, more[..|more| - 1]);
      Longer(Linearized(key, s, ticks), Linearized(key, s, init), Linearized(key, s, all));
    }
  }

  lemma SeenInTime(first: seq<Step>, all: seq<Step>, u: UserId, e: Event, db: Db, db': Db)
    requires first <= all && Run(EMPTY_DB, first) == Some(db) && Run(EMPTY_DB, all) == Some(db')
    requires u in db.users && u in db'.users && e in db'.users[u].rows && e.pos <= db.users[u].eventSeq
    ensures e in Log(first, u)
  {
    assert first + all[|first|..] == all;
    NoLateEvent(first, all[|first|..], u, e);
  }

  /** A reader that has seen n never finds, at any later moment, a row at or below n that
      was not committed when it looked. */
  lemma NoEventCommitsLate(key: KeyOf, ticks: seq<Tick>, more: seq<Tick>, u: UserId, e: Event)
    requires RunSys(key, EMPTY_SYS, ticks + more).Some? && RunSys(key, EMPTY_SYS, ticks).Some?
    requires u in RunSys(key, EMPTY_SYS, ticks).value.db.users
    requires u in RunSys(key, EMPTY_SYS, ticks + more).value.db.users
    requires e in RunSys(key, EMPTY_SYS, ticks + more).value.db.users[u].rows
    requires e.pos <= RunSys(key, EMPTY_SYS, ticks).value.db.users[u].eventSeq
    ensures e in Log(Linearized(key, EMPTY_SYS, ticks), u)
  {
    InterleavingIsASequence(key, EMPTY_SYS, ticks);
    InterleavingIsASequence(key, EMPTY_SYS, ticks + more);
    LinearizedExtends(key, EMPTY_SYS, ticks, more);
    SeenInTime(Linearized(key, EMPTY_SYS, ticks), Linearized(key, EMPTY_SYS, ticks + more), u, e,
               RunSys(key, EMPTY_SYS, ticks).value.db, RunSys(key, EMPTY_SYS, ticks + more).value.db);
  }

  // ----- likes ----------------------------------------------------------------

  /** The two likes of a pair are never both committed, and a pair with a block has none. */
  lemma LikesAreNeverBothCommitted(key: KeyOf, ticks: seq<Tick>, p: Pair)
    requires RunSys(key, EMPTY_SYS, ticks).Some?
    ensures var row := RunSys(key, EMPTY_SYS, ticks).value.db.Row(p);
            && !(p.lo in row.likes && p.hi in row.likes)
            && (row.blocks != {} ==>
                 row.likes == {} && row.matched == None && forall o :: o in row.convs ==> !row.convs[o].Live())
  {
    EveryInterleavingKeepsInv(key, ticks);
    var row := RunSys(key, EMPTY_SYS, ticks).value.db.Row(p);
    assert row == EMPTY_PAIR || PairInv(p, row);
    assert p.lo in row.likes && p.hi in row.likes && row.likes <= {p.lo, p.hi} ==> row.likes == {p.lo, p.hi};
  }

  /** At its commit a like leaves its row or the pair's match. */
  lemma CommittedLikeLeavesATrace(key: KeyOf, s: Sys, id: Id)
    requires SysInv(key, s) && Tock(key, s, Commit(id)).Some?
    requires s.txns[id].PairTxn? && s.txns[id].op.Like?
    ensures var t := s.txns[id];
            var row := Tock(key, s, Commit(id)).value.db.Row(t.pair);
            t.op.from in row.likes || row.matched.Some?
  {
    var t := s.txns[id];
    CommitIsAStep(s.db, t);
    LikeLeavesATrace(t.pair, s.db.Row(t.pair), t.op.from, t.op.seen, t.op.matchId, t.op.now);
  }

  /** No mutual like is lost: when one person's like commits, then the other's, and no
      withdrawal, block or unmatch of the pair commits in between, they are matched. */
  lemma NoMutualLikeIsLost(key: KeyOf, ticks: seq<Tick>, pre: seq<Step>, one: Step, between: seq<Step>,
                           other: Step, p: Pair)
    requires RunSys(key, EMPTY_SYS, ticks).Some?
    requires Linearized(key, EMPTY_SYS, ticks) == pre + ([one] + between + [other])
    requires one.OnPair? && one.pair == p && one.op.Like?
    requires other.OnPair? && other.pair == p && other.op.Like? && other.op.from == p.Peer(one.op.from)
    requires forall i :: 0 <= i < |between| ==> !Retracts(between[i], p)
    ensures RunSys(key, EMPTY_SYS, ticks).value.db.Row(p).matched.Some?
  {
    InterleavingIsASequence(key, EMPTY_SYS, ticks);
    RunSplits(EMPTY_DB, pre, [one] + between + [other]);
    RunKeepsInv(pre);
    var db := Run(EMPTY_DB, pre).value;
    assert [one] + between + [other] == [one] + (between + [other]);
    RunAfter(db, one, between + [other]);
    MutualLikesMatch(db, one, between, other, p);
  }

  /** A committed like leaves the pair matched exactly if it read the other like, or the
      pair was matched before. */
  lemma LikeMatchesIffItSaw(key: KeyOf, s: Sys, id: Id)
    requires SysInv(key, s) && Tock(key, s, Commit(id)).Some?
    requires s.txns[id].PairTxn? && s.txns[id].op.Like?
    ensures var t := s.txns[id];
            Tock(key, s, Commit(id)).value.db.Row(t.pair).matched.Some? <==> t.op.seen || s.db.Row(t.pair).matched.Some?
  {
    CommitIsAStep(s.db, s.txns[id]);
  }

  lemma NotHeldNotWritten(key: KeyOf, s: Sys, id: Id, j: Id)
    requires SysInv(key, s) && id in s.txns && j in s.txns && id != j
    requires s.txns[id].HoldsPair() && s.txns[j].PairTxn? && s.txns[j].pair == s.txns[id].pair
    ensures s.txns[j].ov == NO_WRITES
  {
    assert Advisory(key(s.txns[id].pair)) in Held(key, s.txns[id]);
    assert Held(key, s.txns[id]) !! Held(key, s.txns[j]);
    assert TxnInv(s.db, s.txns[j]);
  }

  /** The read is not protected until the commit: RemoveLike takes no pair lock, so between
      the two the other person can still withdraw the like, and is told it is gone. */
  lemma WithdrawalComesTooLate(key: KeyOf, s: Sys, id: Id)
    requires SysInv(key, s) && id in s.txns
    requires s.txns[id].PairTxn? && s.txns[id].op.Like? && s.txns[id].pc == Mutual
    requires s.txns[id].pair.Peer(s.txns[id].op.from) in s.db.Row(s.txns[id].pair).likes
    ensures var p := s.txns[id].pair;
            var other := p.Peer(s.txns[id].op.from);
            var gone := Tock(key, s, Alone(OnPair(p, RemoveLike(other))));
            && gone.Some? && gone.value.txns == s.txns && s.txns[id].op.seen
            && other !in gone.value.db.Row(p).likes
  {
    var t := s.txns[id];
    var step := OnPair(t.pair, RemoveLike(t.pair.Peer(t.op.from)));
    forall j | j in s.txns ensures !WritesRow(s.txns[j], t.pair, step.op) {
      if j != id && s.txns[j].PairTxn? && s.txns[j].pair == t.pair { NotHeldNotWritten(key, s, id, j); }
    }
  }

  // ----- suspension -----------------------------------------------------------

  lemma StoringStep(db: Db, step: Step, id: ConvId)
    requires DbInv(db) && Apply(db, step).Some?
    requires Thread(Apply(db, step).value, id) != Thread(db, id)
    ensures db.BothActive(id.pair) && Apply(db, step).value.BothActive(id.pair)
  {
    StepGrows(db, step, id.pair);
    MessagesNeedActiveAccounts(db, step, id);
    assert step.OnPair? && step.pair == id.pair;
  }

  /** No tick of any interleaving commits a message while either account is suspended:
      both are active just before the commit and still are just after it. */
  lemma NoMessageWhileSuspended(key: KeyOf, s: Sys, tick: Tick, id: ConvId)
    requires SysInv(key, s) && DbInv(s.db) && Tock(key, s, tick).Some?
    requires Thread(Tock(key, s, tick).value.db, id) != Thread(s.db, id)
    ensures s.db.BothActive(id.pair) && Tock(key, s, tick).value.db.BothActive(id.pair)
  {
    if tick.Commit? {
      CommitIsAStep(s.db, s.txns[tick.id]);
      var t := s.txns[tick.id];
      StoringStep(s.db, if t.PairTxn? then OnPair(t.pair, t.op) else Suspend(t.user), id);
    } else if tick.Alone? {
      StoringStep(s.db, tick.step, id);
    }
  }
}
