/** Whether the people a match brings together can talk. The pair's match conversation is made
    once; ending the match closes it, and a later match finds it closed. */
module Rematch {
  import opened Rows
  import opened ChatLog
  import opened Steps
  import opened Invariants
  import opened Guarantees
  import opened Effects
  import Social

  /** A like that made a match, or met one that was there. */
  predicate Matches(step: Step, p: Pair) { step.OnPair? && step.pair == p && step.op.Like? && step.op.seen }

  predicate Ends(step: Step, p: Pair) { step.OnPair? && step.pair == p && (step.op.Block? || step.op.Unmatch?) }

  predicate EverMatched(steps: seq<Step>, p: Pair) { exists i :: 0 <= i < |steps| && Matches(steps[i], p) }

  /** Some block or unmatch of the pair came after a match. */
  predicate EndedAfterMatch(steps: seq<Step>, p: Pair) {
    exists j :: 0 <= j < |steps| && Ends(steps[j], p) && EverMatched(steps[..j], p)
  }

  lemma EverMatchedAppends(steps: seq<Step>, last: Step, p: Pair)
    ensures EverMatched(steps + [last], p) <==> EverMatched(steps, p) || Matches(last, p)
  {
    var all := steps + [last];
    if EverMatched(steps, p) {
      var i :| 0 <= i < |steps| && Matches(steps[i], p);
      assert all[i] == steps[i];
    }
    if Matches(last, p) { assert all[|steps|] == last; }
    if EverMatched(all, p) {
      var i :| 0 <= i < |all| && Matches(all[i], p);
      assert i < |steps| ==> steps[i] == all[i];
    }
  }

  lemma EndedAppends(steps: seq<Step>, last: Step, p: Pair)
    ensures EndedAfterMatch(steps + [last], p) <==>
      EndedAfterMatch(steps, p) || (Ends(last, p) && EverMatched(steps, p))
  {
    var all := steps + [last];
    assert all[..|steps|] == steps;
    if EndedAfterMatch(steps, p) {
      var j :| 0 <= j < |steps| && Ends(steps[j], p) && EverMatched(steps[..j], p);
      assert all[j] == steps[j] && all[..j] == steps[..j];
    }
    if Ends(last, p) && EverMatched(steps, p) { assert all[|steps|] == last; }
    if EndedAfterMatch(all, p) {
      var j :| 0 <= j < |all| && Ends(all[j], p) && EverMatched(all[..j], p);
      if j < |steps| { assert all[j] == steps[j] && all[..j] == steps[..j]; }
    }
  }

  /** What a row says of the pair's past. */
  predicate Tells(row: PairRow, ever: bool, ended: bool) {
    && (Match in row.convs <==> ever) && (row.matched.Some? ==> ever)
    && (Match in row.convs ==> row.convs[Match].state == if ended then Closed else ConvState.Open)
  }

  lemma LikeTells(p: Pair, row: PairRow, from: UserId, seen: bool, matchId: Id, now: int, ever: bool, ended: bool)
    requires Tells(row, ever, ended) && (ended ==> ever) && Social.Like(p, row, from, seen, matchId, now).Done?
    ensures Tells(Social.Like(p, row, from, seen, matchId, now).row, ever || seen, ended)
  {
  }

  lemma ClosingTells(p: Pair, row: PairRow, op: PairOp, ever: bool, ended: bool)
    requires Admissible(p, row, op) && (op.Block? || op.Unmatch?) && Tells(row, ever, ended) && (ended ==> ever)
    ensures Tells(Perform(p, row, op).row, ever, ended || ever)
  {
  }

  /** The match, and the state of its conversation, are as they were. */
  predicate SameMatch(row: PairRow, row': PairRow) {
    && row'.matched == row.matched && (Match in row'.convs <==> Match in row.convs)
    && (Match in row.convs ==> row'.convs[Match].state == row.convs[Match].state)
  }

  lemma OpeningLeavesMatch(p: Pair, row: PairRow, op: PairOp)
    requires op.OpenMatch? || op.OpenRequest? || op.Meet? || op.Send?
    requires (row.matched.Some? ==> Match in row.convs) && Perform(p, row, op).Done?
    ensures SameMatch(row, Perform(p, row, op).row)
  {
  }

  lemma ChatLeavesMatch(p: Pair, row: PairRow, op: PairOp)
    requires op.RemoveLike? || op.Unblock? || op.Receipt? || op.Act?
    requires Perform(p, row, op).Done?
    ensures SameMatch(row, Perform(p, row, op).row)
  {
  }

  lemma StepTells(p: Pair, row: PairRow, op: PairOp, ever: bool, ended: bool)
    requires Admissible(p, row, op) && Perform(p, row, op).Done? && Tells(row, ever, ended) && (ended ==> ever)
    ensures Tells(Perform(p, row, op).row, ever || (op.Like? && op.seen), ended || (ever && (op.Block? || op.Unmatch?)))
  {
    match op
    case Like(from, seen, matchId, now) => LikeTells(p, row, from, seen, matchId, now, ever, ended);
    case Block(_, _) | Unmatch(_, _) => ClosingTells(p, row, op, ever, ended);
    case OpenMatch(_, _, _, _) | OpenRequest(_, _, _, _) | Meet(_) | Send(_, _, _, _, _) =>
      OpeningLeavesMatch(p, row, op);
    case _ => ChatLeavesMatch(p, row, op);
  }

  /** The pair has a match conversation exactly if it was ever matched, and it is closed exactly
      if a block or an unmatch came after that. */
  lemma {:induction false} RowTellsThePast(steps: seq<Step>, p: Pair)
    requires Run(EMPTY_DB, steps).Some?
    ensures Tells(Run(EMPTY_DB, steps).value.Row(p), EverMatched(steps, p), EndedAfterMatch(steps, p))
    ensures EndedAfterMatch(steps, p) ==> EverMatched(steps, p)
    decreases |steps|
  {
    if |steps| > 0 {
      var init, last := steps[..|steps| - 1], steps[|steps| - 1];
      assert steps == init + [last];
      RowTellsThePast(init, p);
      EverMatchedAppends(init, last, p);
      EndedAppends(init, last, p);
      var db := Run(EMPTY_DB, init).value;
      if last.OnPair? && last.pair == p {
        StepTells(p, db.Row(p), last.op, EverMatched(init, p), EndedAfterMatch(init, p));
      }
    }
  }

  /** Two people with a match, both active, can use its conversation exactly if no block or
      unmatch has come after a match of theirs. */
  lemma MatchIsUsableIff(steps: seq<Step>, p: Pair, user: UserId)
    requires Run(EMPTY_DB, steps).Some? && p.Has(user)
    requires Run(EMPTY_DB, steps).value.Row(p).matched.Some? && Run(EMPTY_DB, steps).value.BothActive(p)
    ensures Access(Run(EMPTY_DB, steps).value, ConvId(p, Match), user) <==> !EndedAfterMatch(steps, p)
  {
    RowTellsThePast(steps, p);
    RunFromInv(EMPTY_DB, steps);
    AccessIsStateAndStatus(Run(EMPTY_DB, steps).value, ConvId(p, Match), user);
  }

  /** Seen from the like that makes the match: both can use the conversation exactly if the pair
      had none, or one that is still open. */
  lemma NewMatchIsUsableIff(db: Db, p: Pair, from: UserId, matchId: Id, now: int, db': Db, user: UserId)
    requires DbInv(db) && Apply(db, OnPair(p, PairOp.Like(from, true, matchId, now))) == Some(db')
    requires db.BothActive(p) && p.Has(user)
    ensures Access(db', ConvId(p, Match), user) <==>
      Match !in db.Row(p).convs || db.Row(p).convs[Match].state == ConvState.Open
  {
    LikeMatches(db, p, from, matchId, now, db');
    RowIsFine(db, p);
    assert Match in db.Row(p).convs ==> ConvInv(p, Match, db.Row(p).convs[Match]);
  }

  // ----- a run that ends matched and silent -----------------------------------

  const COUPLE := Pair(1, 2)

  lemma Taken(steps: seq<Step>, db: Db, step: Step, db': Db) returns (all: seq<Step>)
    requires Run(EMPTY_DB, steps) == Some(db) && Apply(db, step) == Some(db')
    ensures all == steps + [step] && Run(EMPTY_DB, all) == Some(db')
  {
    all := steps + [step];
    RunLast(EMPTY_DB, steps, step);
  }

  /** Neither blocks, likes or is matched with the other. */
  predicate Strangers(db: Db, p: Pair) {
    var row := db.Row(p);
    row.blocks == {} && p.lo !in row.likes && p.hi !in row.likes && row.matched == None
  }

  function MutualLikes(matchId: Id): seq<Step> {
    [OnPair(COUPLE, PairOp.Like(1, false, matchId, 0)), OnPair(COUPLE, PairOp.Like(2, true, matchId, 0))]
  }

  lemma FirstLike(steps: seq<Step>, db: Db, matchId: Id) returns (all: seq<Step>, liked: Db)
    requires Run(EMPTY_DB, steps) == Some(db) && db.BothActive(COUPLE) && Strangers(db, COUPLE)
    ensures all == steps + [OnPair(COUPLE, PairOp.Like(1, false, matchId, 0))] && Run(EMPTY_DB, all) == Some(liked)
    ensures liked.BothActive(COUPLE) && liked.Row(COUPLE).blocks == {} && liked.Row(COUPLE).matched == None
    ensures liked.Row(COUPLE).convs == db.Row(COUPLE).convs
  {
    RunFromInv(EMPTY_DB, steps);
    LikeRefused(db, COUPLE, 1, false, matchId, 0);
    liked := Apply(db, OnPair(COUPLE, PairOp.Like(1, false, matchId, 0))).value;
    LikeWaits(db, COUPLE, 1, matchId, 0, liked);
    all := Taken(steps, db, OnPair(COUPLE, PairOp.Like(1, false, matchId, 0)), liked);
  }

  lemma SecondLike(steps: seq<Step>, liked: Db, matchId: Id) returns (all: seq<Step>, db': Db)
    requires Run(EMPTY_DB, steps) == Some(liked) && liked.BothActive(COUPLE)
    requires liked.Row(COUPLE).blocks == {} && liked.Row(COUPLE).matched == None
    ensures all == steps + [OnPair(COUPLE, PairOp.Like(2, true, matchId, 0))] && Run(EMPTY_DB, all) == Some(db')
    ensures db'.BothActive(COUPLE) && db'.Row(COUPLE).matched == Some(matchId) && db'.Row(COUPLE).blocks == {}
    ensures HasMatchConv(COUPLE, liked.Row(COUPLE), db'.Row(COUPLE), 0)
  {
    RunFromInv(EMPTY_DB, steps);
    LikeRefused(liked, COUPLE, 2, true, matchId, 0);
    db' := Apply(liked, OnPair(COUPLE, PairOp.Like(2, true, matchId, 0))).value;
    LikeMatches(liked, COUPLE, 2, matchId, 0, db');
    all := Taken(steps, liked, OnPair(COUPLE, PairOp.Like(2, true, matchId, 0)), db');
  }

  lemma TwoLikesMatch(steps: seq<Step>, db: Db, matchId: Id) returns (all: seq<Step>, db': Db)
    requires Run(EMPTY_DB, steps) == Some(db) && db.BothActive(COUPLE) && Strangers(db, COUPLE)
    ensures all == steps + MutualLikes(matchId) && Run(EMPTY_DB, all) == Some(db') && db'.BothActive(COUPLE)
    ensures db'.Row(COUPLE).matched == Some(matchId) && db'.Row(COUPLE).blocks == {}
    ensures HasMatchConv(COUPLE, db.Row(COUPLE), db'.Row(COUPLE), 0)
  {
    var liked;
    all, liked := FirstLike(steps, db, matchId);
    all, db' := SecondLike(all, liked, matchId);
  }

  lemma TwoStrangers() returns (steps: seq<Step>, db: Db)
    ensures steps == [Join(1), Join(2)] && Run(EMPTY_DB, steps) == Some(db)
    ensures db.BothActive(COUPLE) && Strangers(db, COUPLE) && db.pairs == map[]
  {
    var one := Apply(EMPTY_DB, Join(1)).value;
    steps := Taken([], EMPTY_DB, Join(1), one);
    db := Apply(one, Join(2)).value;
    steps := Taken(steps, one, Join(2), db);
  }

  /** Account 2 takes the match back. */
  lemma TakenBack(steps: seq<Step>, db: Db, matchId: Id) returns (all: seq<Step>, db': Db)
    requires Run(EMPTY_DB, steps) == Some(db) && db.BothActive(COUPLE)
    requires db.Row(COUPLE).matched == Some(matchId) && db.Row(COUPLE).blocks == {}
    requires Match in db.Row(COUPLE).convs && db.Row(COUPLE).convs[Match].state == ConvState.Open
    ensures all == steps + [OnPair(COUPLE, Unmatch(matchId, [Match]))] && Run(EMPTY_DB, all) == Some(db')
    ensures db'.BothActive(COUPLE) && Strangers(db', COUPLE)
  {
    RunFromInv(EMPTY_DB, steps);
    assert ClosingOrder(db.Row(COUPLE), true, [Match]);
    ghost var told;
    db', told := UnmatchEffect(db, COUPLE, matchId, [Match]);
    all := Taken(steps, db, OnPair(COUPLE, Unmatch(matchId, [Match])), db');
  }

  /** Two people match, one takes it back, they like each other again: they are matched, and
      neither can use the match conversation. */
  lemma MatchedInSilence() returns (steps: seq<Step>, db: Db)
    ensures steps == [Join(1), Join(2)] + MutualLikes(7) + [OnPair(COUPLE, Unmatch(7, [Match]))] + MutualLikes(8)
    ensures Run(EMPTY_DB, steps) == Some(db) && db.BothActive(COUPLE) && db.Row(COUPLE).matched == Some(8)
    ensures !Access(db, ConvId(COUPLE, Match), 1) && !Access(db, ConvId(COUPLE, Match), 2)
  {
    steps, db := TwoStrangers();
    steps, db := TwoLikesMatch(steps, db, 7);
    steps, db := TakenBack(steps, db, 7);
    steps, db := TwoLikesMatch(steps, db, 8);
    assert Matches(steps[3], COUPLE) && Ends(steps[4], COUPLE);
    assert steps[..4][3] == steps[3];
    MatchIsUsableIff(steps, COUPLE, 1);
    MatchIsUsableIff(steps, COUPLE, 2);
  }

  /** And whatever they do from there, it stays so. */
  lemma SilentForGood(steps: seq<Step>, later: seq<Step>, p: Pair, user: UserId)
    requires Run(EMPTY_DB, steps).Some? && EndedAfterMatch(steps, p)
    requires Run(Run(EMPTY_DB, steps).value, later).Some?
    ensures !Access(Run(Run(EMPTY_DB, steps).value, later).value, ConvId(p, Match), user)
  {
    RowTellsThePast(steps, p);
    RunFromInv(EMPTY_DB, steps);
    ClosedStaysClosed(Run(EMPTY_DB, steps).value, later, ConvId(p, Match), user);
  }
}
