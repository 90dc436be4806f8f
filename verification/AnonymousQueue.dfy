/** The anonymous queue: who waits, who is paired, and that nobody is in two masked
    conversations at once. A join holds the queue lock from its first read to its commit,
    so joins are one after another; anything else may commit in between. */
module AnonymousQueue {
  import opened Rows
  import opened ChatLog
  import opened Steps
  import opened Invariants
  import opened Commits

  const PATIENCE := 30

  /** An anonymous conversation `user` is in, still open and unrevealed. */
  predicate Masked(db: Db, p: Pair, user: UserId) {
    && p in db.pairs && p.Has(user) && db.pairs[p].blocks == {}
    && Anonymous in db.pairs[p].convs
    && db.pairs[p].convs[Anonymous].state == ConvState.Open && !db.pairs[p].convs[Anonymous].revealed
  }

  predicate IsMasked(db: Db, user: UserId) { exists p :: p in db.pairs && Masked(db, p, user) }

  /** `waiting` maps an account to when its queue entry expires. */
  datatype Hall = Hall(db: Db, waiting: map<UserId, int>)

  /** Expired entries go, and the caller's is renewed. */
  function Queued(waiting: map<UserId, int>, user: UserId, now: int): map<UserId, int> {
    (map u | u in waiting && waiting[u] >= now :: waiting[u])[user := now + PATIENCE]
  }

  predicate Eligible(db: Db, user: UserId, visible: bool) { user in db.users && db.users[user].active && visible }

  /** Whom the queue can offer: someone else whose entry has not expired. The query's other
      conditions were read before the pair lock and may be out of date. */
  predicate Offered(h: Hall, user: UserId, peer: Option<UserId>, now: int) {
    peer.Some? ==>
      var queued := Queued(h.waiting, user, now);
      && peer.value != user && peer.value in h.db.users
      && peer.value in queued && queued[peer.value] > now
  }

  /** Joining: refused, answered with the conversation already there, left waiting, or paired. */
  function Enter(h: Hall, user: UserId, visible: bool, peer: Option<UserId>, now: int): Hall {
    if !Eligible(h.db, user, visible) || IsMasked(h.db, user) then h
    else if peer.None? then h.(waiting := Queued(h.waiting, user, now))
    else
      match Apply(h.db, OnPair(PairOf(user, peer.value), Meet(now)))
      case None => h
      case Some(db) => Hall(db, Queued(h.waiting, user, now) - {user, peer.value})
  }

  lemma RefusedIsNoStep(db: Db, p: Pair, now: int)
    ensures Refusal(db, p, Meet(now)).Some? ==> Apply(db, OnPair(p, Meet(now))).None?
  {
  }

  /** What joining comes to, in terms of the pairing's own answer. */
  lemma EntersAs(h: Hall, user: UserId, visible: bool, peer: Option<UserId>, now: int)
    requires Eligible(h.db, user, visible) && !IsMasked(h.db, user) && Offered(h, user, peer, now)
    ensures peer.None? ==> Enter(h, user, visible, peer, now) == Hall(h.db, Queued(h.waiting, user, now))
    ensures peer.Some? ==>
      forall db, problem :: Committed(h.db, PairOf(user, peer.value), Meet(now), db, problem) ==>
        (Enter(h, user, visible, peer, now)
         == if problem.Some? then h else Hall(db, Queued(h.waiting, user, now) - {user, peer.value}))
  {
    if peer.Some? {
      forall db, problem | Committed(h.db, PairOf(user, peer.value), Meet(now), db, problem)
        ensures Enter(h, user, visible, peer, now)
             == if problem.Some? then h else Hall(db, Queued(h.waiting, user, now) - {user, peer.value})
      {
        RefusedIsNoStep(h.db, PairOf(user, peer.value), now);
      }
    }
  }

  // ----- one mask at a time ---------------------------------------------------

  ghost predicate OneMaskAtMost(db: Db) {
    forall u, p, q :: Masked(db, p, u) && Masked(db, q, u) ==> p == q
  }

  predicate WaitersAreFree(h: Hall) { forall u :: u in h.waiting ==> !IsMasked(h.db, u) }

  ghost predicate HallInv(h: Hall) { DbInv(h.db) && OneMaskAtMost(h.db) && WaitersAreFree(h) }

  predicate OpenMask(row: PairRow) {
    row.blocks == {} && Anonymous in row.convs
    && row.convs[Anonymous].state == ConvState.Open && !row.convs[Anonymous].revealed
  }

  lemma OnlyMeetMakesAnonymous(p: Pair, row: PairRow, op: PairOp)
    requires Perform(p, row, op).Done? && !op.Meet?
    ensures Anonymous in Perform(p, row, op).row.convs ==> Anonymous in row.convs
  {
  }

  /** Nothing but Meet makes a masked conversation, or masks one again. */
  lemma NoNewMask(p: Pair, row: PairRow, op: PairOp)
    requires p.Ordered() && PairInv(p, row) && Admissible(p, row, op) && !op.Meet?
    requires Perform(p, row, op).Done? && OpenMask(Perform(p, row, op).row)
    ensures OpenMask(row)
  {
    PerformIsSound(p, row, op);
    OnlyMeetMakesAnonymous(p, row, op);
    assert ConvGrows(row.convs[Anonymous], Perform(p, row, op).row.convs[Anonymous]);
    assert ConvInv(p, Anonymous, row.convs[Anonymous]);
  }

  lemma MasksOnlyEnd(db: Db, step: Step, p: Pair, u: UserId)
    requires DbInv(db) && Apply(db, step).Some? && !(step.OnPair? && step.op.Meet?)
    requires Masked(Apply(db, step).value, p, u)
    ensures Masked(db, p, u)
  {
    if step.OnPair? && step.pair == p {
      RowIsFine(db, p);
      NoNewMask(p, db.Row(p), step.op);
    }
  }

  /** A pairing masks exactly the two it pairs. */
  lemma MeetMasksTwo(db: Db, p: Pair, now: int, q: Pair, u: UserId)
    requires Apply(db, OnPair(p, Meet(now))).Some? && Masked(Apply(db, OnPair(p, Meet(now))).value, q, u)
    ensures if q == p then p.Has(u) else Masked(db, q, u)
  {
  }

  /** A Meet of two unmasked people leaves them out of the queue and everyone in one mask at most. */
  lemma PairingKeeps(h: Hall, user: UserId, peer: UserId, now: int)
    requires HallInv(h) && user != peer && !IsMasked(h.db, user) && !IsMasked(h.db, peer)
    requires Apply(h.db, OnPair(PairOf(user, peer), Meet(now))).Some?
    ensures HallInv(Hall(Apply(h.db, OnPair(PairOf(user, peer), Meet(now))).value,
                         Queued(h.waiting, user, now) - {user, peer}))
  {
    var p := PairOf(user, peer);
    var db := Apply(h.db, OnPair(p, Meet(now))).value;
    StepKeepsInv(h.db, OnPair(p, Meet(now)));
    forall u, q | Masked(db, q, u) ensures if q == p then u == user || u == peer else Masked(h.db, q, u) {
      MeetMasksTwo(h.db, p, now, q, u);
    }
  }

  lemma LeaveKeeps(h: Hall, user: UserId)
    requires HallInv(h)
    ensures HallInv(h.(waiting := h.waiting - {user}))
  {
  }

  lemma EnterKeeps(h: Hall, user: UserId, visible: bool, peer: Option<UserId>, now: int)
    requires HallInv(h) && Offered(h, user, peer, now)
    ensures HallInv(Enter(h, user, visible, peer, now))
  {
    if peer.Some? && Enter(h, user, visible, peer, now) != h { PairingKeeps(h, user, peer.value, now); }
  }

  lemma LeaveIsHarmless(h: Hall, user: UserId)
    ensures HallInv(h) ==> HallInv(h.(waiting := h.waiting - {user}))
  {
    if HallInv(h) { LeaveKeeps(h, user); }
  }

  lemma EnterIsHarmless(h: Hall, user: UserId, visible: bool, peer: Option<UserId>, now: int)
    requires Offered(h, user, peer, now)
    ensures HallInv(h) ==> HallInv(Enter(h, user, visible, peer, now))
  {
    if HallInv(h) { EnterKeeps(h, user, visible, peer, now); }
  }

  /** An eligible caller the queue has somebody for is paired, unless a block or an
      anonymous conversation came between them, and then nothing changes. */
  lemma OfferedIsPaired(h: Hall, user: UserId, visible: bool, peer: UserId, now: int)
    requires Eligible(h.db, user, visible) && !IsMasked(h.db, user) && Offered(h, user, Some(peer), now)
    ensures var after, row := Enter(h, user, visible, Some(peer), now), h.db.Row(PairOf(user, peer));
            if row.blocks == {} && Anonymous !in row.convs then
              && Masked(after.db, PairOf(user, peer), user) && Masked(after.db, PairOf(user, peer), peer)
              && user !in after.waiting && peer !in after.waiting
            else after == h
  {
  }

  /** What a join does to the queue: nothing for a caller who may not join or is in a masked
      conversation already; otherwise a caller with no peer waits thirty seconds from now, and
      everybody else's entry stands exactly unless it has run out. */
  lemma QueueAfterJoin(h: Hall, user: UserId, visible: bool, peer: Option<UserId>, now: int, u: UserId)
    requires Offered(h, user, peer, now)
    ensures var after := Enter(h, user, visible, peer, now);
            && (!Eligible(h.db, user, visible) || IsMasked(h.db, user) ==> after == h)
            && (Eligible(h.db, user, visible) && !IsMasked(h.db, user) && peer == None ==>
                 after.db == h.db && user in after.waiting && after.waiting[user] == now + 30)
            && (after != h && u != user && peer != Some(u) ==>
                 && (u in after.waiting <==> u in h.waiting && h.waiting[u] >= now)
                 && (u in after.waiting ==> after.waiting[u] == h.waiting[u]))
  {
  }

  // ----- a join with its look and its commit apart ----------------------------

  /** What a join found when it looked. */
  datatype Joining = Joining(user: UserId, peer: Option<UserId>, now: int)

  /** The queue lock admits one join at a time. */
  datatype Lobby = Lobby(hall: Hall, joining: Option<Joining>)

  datatype Move =
    | Look(user: UserId, visible: bool, peer: Option<UserId>, now: int)
    | Commit
    | Abort
    | Leave(user: UserId)
    | Elsewhere(step: Step)

  /** The join's writes over what is committed now; the Meet rechecks the pair. */
  function Finish(h: Hall, j: Joining): Hall {
    if j.peer.None? then h.(waiting := Queued(h.waiting, j.user, j.now))
    else
      match Apply(h.db, OnPair(PairOf(j.user, j.peer.value), Meet(j.now)))
      case None => h
      case Some(db) => Hall(db, Queued(h.waiting, j.user, j.now) - {j.user, j.peer.value})
  }

  /** A queue entry the running join has deleted or renewed; leaving waits for it. */
  predicate EntryWritten(l: Lobby, user: UserId) {
    l.joining.Some? && user in l.hall.waiting
    && (user == l.joining.value.user || l.hall.waiting[user] < l.joining.value.now)
  }

  /** One move. Only a join makes an anonymous conversation; every other transaction of the
      step level is one `Elsewhere`, and may fall between a join's look and its commit. */
  function Next(l: Lobby, move: Move): Option<Lobby> {
    match move
    case Look(user, visible, peer, now) =>
      if l.joining.Some? || !Offered(l.hall, user, peer, now) then None
      else if !Eligible(l.hall.db, user, visible) || IsMasked(l.hall.db, user) then Some(l)
      else Some(l.(joining := Some(Joining(user, peer, now))))
    case Commit =>
      if l.joining.None? then None else Some(Lobby(Finish(l.hall, l.joining.value), None))
    case Abort =>
      if l.joining.None? then None else Some(l.(joining := None))
    case Leave(user) =>
      if EntryWritten(l, user) then None else Some(l.(hall := l.hall.(waiting := l.hall.waiting - {user})))
    case Elsewhere(step) =>
      if (step.OnPair? && step.op.Meet?) || Apply(l.hall.db, step).None? then None
      else Some(l.(hall := l.hall.(db := Apply(l.hall.db, step).value)))
  }

  function Play(l: Lobby, moves: seq<Move>): Option<Lobby>
    decreases |moves|
  {
    if |moves| == 0 then Some(l)
    else
      var before := Play(l, moves[..|moves| - 1]);
      if before.None? then None else Next(before.value, moves[|moves| - 1])
  }

  const EMPTY_LOBBY := Lobby(Hall(EMPTY_DB, map[]), None)

  /** With nothing in between, look and commit are the whole join. */
  lemma EnterIsLookAndCommit(h: Hall, user: UserId, visible: bool, peer: Option<UserId>, now: int)
    requires Offered(h, user, peer, now)
    ensures var looked := Next(Lobby(h, None), Look(user, visible, peer, now));
            && looked.Some?
            && Enter(h, user, visible, peer, now)
               == if looked.value.joining.None? then looked.value.hall else Next(looked.value, Commit).value.hall
  {
  }

  /** Whoever is joining, and whoever it was offered, is in no masked conversation. */
  predicate JoinersAreFree(l: Lobby) {
    l.joining.Some? ==>
      var j := l.joining.value;
      && !IsMasked(l.hall.db, j.user)
      && (j.peer.Some? ==> j.peer.value != j.user && !IsMasked(l.hall.db, j.peer.value))
  }

  ghost predicate LobbyInv(l: Lobby) { HallInv(l.hall) && JoinersAreFree(l) }

  lemma ElsewhereKeeps(l: Lobby, step: Step)
    requires LobbyInv(l) && Apply(l.hall.db, step).Some? && !(step.OnPair? && step.op.Meet?)
    ensures LobbyInv(l.(hall := l.hall.(db := Apply(l.hall.db, step).value)))
  {
    var db := Apply(l.hall.db, step).value;
    StepKeepsInv(l.hall.db, step);
    forall u, p | Masked(db, p, u) ensures Masked(l.hall.db, p, u) { MasksOnlyEnd(l.hall.db, step, p, u); }
    forall u | IsMasked(db, u) ensures IsMasked(l.hall.db, u) {
      var p :| p in db.pairs && Masked(db, p, u);
      assert p in l.hall.db.pairs && Masked(l.hall.db, p, u);
    }
  }

  lemma FinishKeeps(h: Hall, j: Joining)
    requires LobbyInv(Lobby(h, Some(j)))
    ensures HallInv(Finish(h, j))
  {
    if j.peer.Some? && Finish(h, j) != h { PairingKeeps(h, j.user, j.peer.value, j.now); }
  }

  lemma NextKeeps(l: Lobby, move: Move)
    requires LobbyInv(l) && Next(l, move).Some?
    ensures LobbyInv(Next(l, move).value)
  {
    match move
    case Look(user, visible, peer, now) =>
    case Commit => FinishKeeps(l.hall, l.joining.value);
    case Abort =>
    case Leave(user) => LeaveKeeps(l.hall, user);
    case Elsewhere(step) => ElsewhereKeeps(l, step);
  }

  /** Over every run of looks, commits, leaves and everything else, in any order: nobody is in
      two open, unrevealed anonymous conversations, and whoever waits is in none. */
  lemma {:induction false} NobodyWearsTwoMasks(moves: seq<Move>)
    requires Play(EMPTY_LOBBY, moves).Some?
    ensures LobbyInv(Play(EMPTY_LOBBY, moves).value)
    ensures var h := Play(EMPTY_LOBBY, moves).value.hall;
            && (forall u, p, q :: Masked(h.db, p, u) && Masked(h.db, q, u) ==> p == q)
            && (forall u :: u in h.waiting ==> !IsMasked(h.db, u))
    decreases |moves|
  {
    if |moves| > 0 {
      NobodyWearsTwoMasks(moves[..|moves| - 1]);
      NextKeeps(Play(EMPTY_LOBBY, moves[..|moves| - 1]).value, moves[|moves| - 1]);
    }
  }

  // ----- leaving while being paired -------------------------------------------

  predicate Undecided(moves: seq<Move>) { Commit !in moves && Abort !in moves }

  /** While a join is running, the account it was offered leaves the queue only by its own call. */
  lemma {:induction false} OnlyLeaverLeaves(l: Lobby, moves: seq<Move>)
    requires l.joining.Some? && l.joining.value.peer.Some? && Play(l, moves).Some? && Undecided(moves)
    ensures Play(l, moves).value.joining == l.joining
    ensures var peer := l.joining.value.peer.value;
            peer in Play(l, moves).value.hall.waiting <==> peer in l.hall.waiting && Leave(peer) !in moves
    decreases |moves|
  {
    if |moves| > 0 {
      var init, last := moves[..|moves| - 1], moves[|moves| - 1];
      assert moves == init + [last];
      OnlyLeaverLeaves(l, init);
    }
  }

  /** LeaveQueue takes no queue lock, and the pairing does not look at the entry again: the
      offered account is paired whether it is still waiting or not, and it is not waiting any
      more exactly when its leave committed between the offer and the pairing. */
  lemma LeaverIsPairedAllTheSame(l: Lobby, moves: seq<Move>)
    requires l.joining.Some? && l.joining.value.peer.Some? && l.joining.value.peer.value in l.hall.waiting
    requires Play(l, moves).Some? && Undecided(moves)
    requires var j, h := l.joining.value, Play(l, moves).value.hall;
             Apply(h.db, OnPair(PairOf(j.user, j.peer.value), Meet(j.now))).Some?
    ensures var j, before := l.joining.value, Play(l, moves).value;
            && Next(before, Commit).Some?
            && Masked(Next(before, Commit).value.hall.db, PairOf(j.user, j.peer.value), j.peer.value)
            && (j.peer.value !in before.hall.waiting <==> Leave(j.peer.value) in moves)
  {
    OnlyLeaverLeaves(l, moves);
  }

  lemma Played(moves: seq<Move>, l: Lobby, move: Move, l': Lobby) returns (more: seq<Move>)
    requires Play(EMPTY_LOBBY, moves) == Some(l) && Next(l, move) == Some(l')
    ensures more == moves + [move] && Play(EMPTY_LOBBY, more) == Some(l')
  {
    more := moves + [move];
    assert more[..|moves|] == moves;
  }

  const NEWCOMER := UserRow(true, 0, [])
  const TWO_PEOPLE := Db(map[1 := NEWCOMER, 2 := NEWCOMER], map[])

  /** Accounts 1 and 2 exist, and account 1 waits. */
  lemma OneWaits()
    ensures Play(EMPTY_LOBBY, [Elsewhere(Join(1)), Elsewhere(Join(2)), Look(1, true, None, 0), Commit])
         == Some(Lobby(Hall(TWO_PEOPLE, map[1 := PATIENCE]), None))
  {
    var one := Lobby(Hall(Db(map[1 := NEWCOMER], map[]), map[]), None);
    var two := Lobby(Hall(TWO_PEOPLE, map[]), None);
    var looked := two.(joining := Some(Joining(1, None, 0)));
    var a := Played([], EMPTY_LOBBY, Elsewhere(Join(1)), one);
    var b := Played(a, one, Elsewhere(Join(2)), two);
    var c := Played(b, two, Look(1, true, None, 0), looked);
    var d := Played(c, looked, Commit, Lobby(Hall(TWO_PEOPLE, map[1 := PATIENCE]), None));
    assert d == [Elsewhere(Join(1)), Elsewhere(Join(2)), Look(1, true, None, 0), Commit];
  }

  lemma TwoArePaired()
    ensures Apply(TWO_PEOPLE, OnPair(PairOf(2, 1), Meet(1))).Some?
    ensures Masked(Apply(TWO_PEOPLE, OnPair(PairOf(2, 1), Meet(1))).value, PairOf(2, 1), 1)
  {
    assert PairOf(2, 1) == Pair(1, 2) && TWO_PEOPLE.Knows(Pair(1, 2));
  }

  /** Account 1 waits; account 2 is offered it; account 1 leaves and is told so; the two are paired. */
  lemma LeftAndPaired() returns (moves: seq<Move>)
    ensures moves == [Elsewhere(Join(1)), Elsewhere(Join(2)), Look(1, true, None, 0), Commit]
                   + [Look(2, true, Some(1), 1)] + [Leave(1)]
    ensures Play(EMPTY_LOBBY, moves).Some? && Play(EMPTY_LOBBY, moves).value.hall.waiting == map[]
    ensures Next(Play(EMPTY_LOBBY, moves).value, Commit).Some?
    ensures Masked(Next(Play(EMPTY_LOBBY, moves).value, Commit).value.hall.db, PairOf(2, 1), 1)
  {
    var waits := Lobby(Hall(TWO_PEOPLE, map[1 := PATIENCE]), None);
    var offered := waits.(joining := Some(Joining(2, Some(1), 1)));
    OneWaits();
    moves := Played([Elsewhere(Join(1)), Elsewhere(Join(2)), Look(1, true, None, 0), Commit], waits,
                    Look(2, true, Some(1), 1), offered);
    moves := Played(moves, offered, Leave(1), Lobby(Hall(TWO_PEOPLE, map[]), offered.joining));
    TwoArePaired();
  }
}
