/** The services as the code runs them: a transaction changes one row after another
    under its pair lock and then commits, or puts everything back. Each method is
    proved to be the atomic step that the other modules reason about. */
module Store {
  import opened Rows
  import opened ChatLog
  import opened Conversations
  import opened Steps
  import opened Invariants
  import opened Commits
  import opened AnonymousQueue
  import Guarantees
  import Effects
  import ChatEffects
  import Safety

  /** An account's row once the events due are gone. */
  function Kept(u: UserRow, expired: map<UserId, nat>, id: UserId): UserRow {
    if id in expired && expired[id] <= |u.rows| then u.(rows := u.rows[expired[id]..]) else u
  }

  /** The accounts' rows once every account not in `rest` has been swept. */
  function Swept(users: map<UserId, UserRow>, expired: map<UserId, nat>, rest: set<UserId>): map<UserId, UserRow> {
    map u | u in users :: if u in rest then users[u] else Kept(users[u], expired, u)
  }

  lemma SweptNext(users: map<UserId, UserRow>, expired: map<UserId, nat>, rest: set<UserId>, u: UserId)
    requires u in rest && u in users && u in expired && expired[u] <= |users[u].rows|
    ensures Swept(users, expired, rest)[u] == users[u]
    ensures Swept(users, expired, rest - {u})
         == Swept(users, expired, rest)[u := users[u].(rows := users[u].rows[expired[u]..])]
  {
  }

  class Database {
    var users: map<UserId, UserRow>
    var pairs: map<Pair, PairRow>
    /** The anonymous queue: when each entry expires. */
    var waiting: map<UserId, int>

    function Contents(): Db
      reads this
    {
      Db(users, pairs)
    }

    ghost predicate Valid()
      reads this
    {
      DbInv(Contents())
    }

    constructor ()
      ensures Valid() && Contents() == EMPTY_DB && waiting == map[]
    {
      users, pairs, waiting := map[], map[], map[];
    }

    // ----- chatlog ------------------------------------------------------------

    /** Allocate the next position in each member's log, lower id first. */
    method Emit(a: UserId, b: UserId, origin: Origin, kind: Kind)
      requires a != b && a in users && b in users
      modifies this`users, this`pairs
      ensures pairs == old(pairs)
      ensures users == EmitAll(old(users), PairOf(a, b), [Note(origin, kind)])
    {
      var p := PairOf(a, b);
      var ids := [p.lo, p.hi];
      for i := 0 to 2
        invariant pairs == old(pairs) && users.Keys == old(users).Keys
        invariant i == 0 ==> users == old(users)
        invariant i == 1 ==> users == old(users)[p.lo := Append(old(users)[p.lo], p, [Note(origin, kind)])]
        invariant i == 2 ==> users == EmitAll(old(users), p, [Note(origin, kind)])
      {
        var u := ids[i];
        AppendSingle(users[u], p, Note(origin, kind));
        var pos := users[u].eventSeq + 1;
        users := users[u := users[u].(eventSeq := pos)];
        users := users[u := users[u].(rows := users[u].rows + [Event(pos, kind, ConvId(p, origin))])];
      }
    }

    method SetRow(p: Pair, row: PairRow)
      modifies this`users, this`pairs
      ensures Contents() == WithRow(old(Contents()), p, row)
    {
      pairs := pairs[p := row];
    }

    method SetConv(p: Pair, origin: Origin, c: Conv)
      modifies this`users, this`pairs
      ensures users == old(users)
      ensures var row := old(Contents()).Row(p); pairs == old(pairs)[p := row.(convs := row.convs[origin := c])]
    {
      var row := Contents().Row(p);
      pairs := pairs[p := row.(convs := row.convs[origin := c])];
    }

    /** The conversation row, then a participant row for each member. */
    method CreateConv(p: Pair, origin: Origin, state: ConvState, requester: Option<UserId>, now: int)
      modifies this`users, this`pairs
      ensures users == old(users)
      ensures var row := old(Contents()).Row(p);
              pairs == old(pairs)[p := row.(convs := row.convs[origin := NewConv(p, state, requester, now)])]
    {
      var c := Conv(state, requester, 0, [], map[], {}, false, now);
      c := c.(parts := c.parts[p.lo := FRESH_PARTICIPANT]);
      c := c.(parts := c.parts[p.hi := FRESH_PARTICIPANT]);
      SetConv(p, origin, c);
    }

    method EnsureMatch(p: Pair, now: int)
      requires p.Ordered() && Contents().Knows(p)
      modifies this`users, this`pairs
      ensures Contents() == WithMatchConv(old(Contents()), p, now)
      ensures Effects.HasMatchConv(p, old(Contents()).Row(p), Contents().Row(p), now)
    {
      if Match in Contents().Row(p).convs {
        NoNotes(Contents(), p);
        return;
      }
      CreateConv(p, Match, ConvState.Open, None, now);
      Emit(p.lo, p.hi, Match, ConversationNew);
    }

    method SelectLive(p: Pair, datingOnly: bool) returns (ids: seq<Origin>)
      ensures ClosingOrder(Contents().Row(p), datingOnly, ids)
    {
      var convs := Contents().Row(p).convs;
      var rest := set o | o in convs && convs[o].Live() && (datingOnly ==> o == Match);
      ghost var all := rest;
      ids := [];
      while rest != {}
        invariant forall o :: o in all <==> o in ids || o in rest
        invariant forall o :: o in ids ==> o !in rest
        invariant forall i, j :: 0 <= i < j < |ids| ==> ids[i] != ids[j]
        decreases rest
      {
        var o :| o in rest;
        ids, rest := ids + [o], rest - {o};
      }
    }

    method CloseConv(p: Pair, o: Origin)
      requires p.Ordered() && Contents().Knows(p) && o in Contents().Row(p).convs
      modifies this`users, this`pairs
      ensures var c := old(Contents()).Row(p).convs[o];
              Contents() == WithConv(old(Contents()), ConvId(p, o), c.(state := Closed), ConversationAccess)
    {
      var c := pairs[p].convs[o];
      SetConv(p, o, c.(state := Closed));
      Emit(p.lo, p.hi, o, ConversationAccess);
    }

    /** The selected conversations, one after another. */
    method CloseEach(p: Pair, ids: seq<Origin>)
      requires p.Ordered() && Contents().Knows(p) && Closable(Contents().Row(p).convs, ids) && p in pairs
      modifies this`users, this`pairs
      ensures Contents() == WithClosed(old(Contents()), p, ids)
    {
      ghost var db := Contents();
      NothingClosed(db, p);
      for i := 0 to |ids|
        invariant Contents() == WithClosed(db, p, ids[..i])
      {
        CloseOneMore(db, p, ids, i);
        CloseConv(p, ids[i]);
      }
      assert ids[..|ids|] == ids;
    }

    /** The caller holds the pair lock. */
    method ClosePair(p: Pair, datingOnly: bool) returns (ids: seq<Origin>)
      requires p.Ordered() && Contents().Knows(p)
      modifies this`users, this`pairs
      ensures ClosingOrder(old(Contents()).Row(p), datingOnly, ids)
      ensures Contents() == WithClosed(old(Contents()), p, ids)
    {
      ids := SelectLive(p, datingOnly);
      SelectedIsClosable(Contents().Row(p), datingOnly, ids);
      SameClosed(Contents(), p, ids);
      pairs := pairs[p := Contents().Row(p)];
      CloseEach(p, ids);
    }

    // ----- matching -----------------------------------------------------------

    method CreateMatch(p: Pair, matchId: Id, now: int) returns (id: Id)
      requires p.Ordered() && Contents().Knows(p)
      modifies this`users, this`pairs
      ensures Contents() == WithMatch(old(Contents()), p, matchId, now)
      ensures Contents().Row(p).matched == Some(id)
    {
      var row := Contents().Row(p);
      id := if row.matched.Some? then row.matched.value else matchId;
      MatchWritten(Contents(), p, matchId, now);
      SetRow(p, row.(matched := Some(id)));
      EnsureMatch(p, now);
      row := pairs[p];
      SetRow(p, row.(likes := row.likes - {p.lo, p.hi}));
    }

    method Like(user: UserId, target: UserId, limited: bool, matchId: Id, now: int) returns (r: Reply<Option<Id>>)
      requires Valid()
      modifies this`users, this`pairs
      ensures Valid()
      ensures user == target ==> r == Err(SelfDirected) && Contents() == old(Contents())
      ensures user != target && limited ==> r == Err(TooMany) && Contents() == old(Contents())
      ensures user != target && !limited ==>
        var p := PairOf(user, target);
        var op := Steps.Like(user, target in old(Contents()).Row(p).likes, matchId, now);
        && Committed(old(Contents()), p, op, Contents(), r.Failure())
        && Admissible(p, old(Contents()).Row(p), op)
        && (r.Ok? ==> r.value == Contents().Row(p).matched || (r.value.None? && !op.seen))
        && (r.Ok? ==> (r.value.Some? <==> op.seen))
        && (r == Err(Blocked) <==> old(Contents()).Row(p).blocks != {})
        && (r == Err(NoSuchPerson) <==> old(Contents()).Row(p).blocks == {} && !old(Contents()).Knows(p))
    {
      if user == target { return Err(SelfDirected); }
      if limited { return Err(TooMany); }
      var p := PairOf(user, target);
      if Contents().Row(p).blocks != {} { return Err(Blocked); }
      if !Contents().Knows(p) { return Err(NoSuchPerson); }
      ghost var db := Contents();
      var row := Contents().Row(p);
      SetRow(p, row.(likes := row.likes + {user}));
      if target !in pairs[p].likes {
        LikeCommits(db, p, user, matchId, now, Contents());
        return Ok(None);
      }
      var id := CreateMatch(p, matchId, now);
      LikeCommits(db, p, user, matchId, now, Contents());
      return Ok(Some(id));
    }

    /** The sender withdrawing a like, or its recipient clearing it. */
    method RemoveLike(user: UserId, sender: UserId, recipient: UserId) returns (r: Reply<()>)
      requires Valid()
      modifies this`users, this`pairs
      ensures Valid()
      ensures var p := PairOf(sender, recipient);
              if (user == sender || user == recipient) && sender in old(Contents()).Row(p).likes
              then r.Ok? && Committed(old(Contents()), p, Steps.RemoveLike(sender), Contents(), None)
              else r == Err(NoSuchLike) && Contents() == old(Contents())
    {
      var p := PairOf(sender, recipient);
      ghost var db := Contents();
      var row := Contents().Row(p);
      if (user != sender && user != recipient) || sender !in row.likes { return Err(NoSuchLike); }
      SetRow(p, row.(likes := row.likes - {sender}));
      NoNotes(db, p);
      CommitsAs(db, p, Steps.RemoveLike(sender), Contents());
      return Ok(());
    }

    // ----- safety -------------------------------------------------------------

    /** Close what is open, block, and drop the match and the likes. */
    method Sever(p: Pair, user: UserId) returns (ids: seq<Origin>)
      requires p.Ordered() && Contents().Knows(p)
      modifies this`users, this`pairs
      ensures ClosingOrder(old(Contents()).Row(p), false, ids)
      ensures var after := Safety.Block(p, old(Contents()).Row(p), user, ids).row;
              Contents() == WithEvents(old(Contents()), p, after, CloseNotes(ids))
    {
      ghost var db := Contents();
      ids := ClosePair(p, false);
      BlockWritten(db, p, user, ids);
      SetRow(p, pairs[p].(blocks := pairs[p].blocks + {user}));
      SetRow(p, pairs[p].(matched := None));
      SetRow(p, pairs[p].(likes := pairs[p].likes - {p.lo, p.hi}));
    }

    method Block(user: UserId, target: UserId, limited: bool) returns (r: Reply<()>, ids: seq<Origin>)
      requires Valid()
      modifies this`users, this`pairs
      ensures Valid()
      ensures user == target ==> r == Err(SelfDirected) && Contents() == old(Contents())
      ensures user != target && limited ==> r == Err(TooMany) && Contents() == old(Contents())
      ensures user != target && !limited ==>
        var p := PairOf(user, target);
        && Committed(old(Contents()), p, Steps.Block(user, ids), Contents(), r.Failure())
        && (r.Ok? ==> Admissible(p, old(Contents()).Row(p), Steps.Block(user, ids)))
    {
      ids := [];
      if user == target { return Err(SelfDirected), ids; }
      if limited { return Err(TooMany), ids; }
      var p := PairOf(user, target);
      if !Contents().Knows(p) { return Err(NoSuchPerson), ids; }
      ghost var db := Contents();
      ids := Sever(p, user);
      CommitsAs(db, p, Steps.Block(user, ids), Contents());
      return Ok(()), ids;
    }

    /** Deleting a block that is not there changes nothing and is no error. */
    method Unblock(user: UserId, target: UserId)
      requires Valid()
      modifies this`users, this`pairs
      ensures Valid()
      ensures var p := PairOf(user, target);
              if p in old(pairs) then Committed(old(Contents()), p, Steps.Unblock(user), Contents(), None)
              else Contents() == old(Contents())
      ensures users == old(users)
      ensures forall q :: q != PairOf(user, target) ==> Contents().Row(q) == old(Contents()).Row(q)
      ensures var was, row := old(Contents()).Row(PairOf(user, target)), Contents().Row(PairOf(user, target));
              && user !in row.blocks && (forall u :: u != user ==> (u in row.blocks <==> u in was.blocks))
              && row.likes == was.likes && row.matched == was.matched && row.convs == was.convs
    {
      var p := PairOf(user, target);
      if p !in pairs { return; }
      ghost var db := Contents();
      SetRow(p, pairs[p].(blocks := pairs[p].blocks - {user}));
      NoNotes(db, p);
      CommitsAs(db, p, Steps.Unblock(user), Contents());
    }

    method FindMatch(user: UserId, matchId: Id) returns (found: Option<Pair>)
      ensures found.Some? ==>  MatchOf(Contents(), found.value, user, matchId)
      ensures found.None? ==> forall p :: !MatchOf(Contents(), p, user, matchId)
    {
      if exists p :: p in pairs && MatchOf(Contents(), p, user, matchId) {
        var p :| p in pairs && MatchOf(Contents(), p, user, matchId);
        found := Some(p);
      } else {
        found := None;
      }
    }

    method EndMatch(p: Pair, matchId: Id) returns (ids: seq<Origin>)
      requires p.Ordered() && Contents().Knows(p)
      modifies this`users, this`pairs
      ensures ClosingOrder(old(Contents()).Row(p), true, ids)
      ensures var after := Safety.Unmatch(p, old(Contents()).Row(p), matchId, ids).row;
              Contents() == WithEvents(old(Contents()), p, after, CloseNotes(ids))
    {
      ids := ClosePair(p, true);
      var row := pairs[p];
      SetRow(p, row.(matched := if row.matched == Some(matchId) then None else row.matched));
      SetRow(p, pairs[p].(likes := pairs[p].likes - {p.lo, p.hi}));
    }

    method Unmatch(user: UserId, matchId: Id) returns (r: Reply<Pair>, ids: seq<Origin>)
      requires Valid()
      modifies this`users, this`pairs
      ensures Valid()
      ensures r.Err? ==> r == Err(NoSuchMatch) && Contents() == old(Contents())
      ensures r.Err? ==> forall p :: !MatchOf(old(Contents()), p, user, matchId)
      ensures r.Ok? ==>
        && MatchOf(old(Contents()), r.value, user, matchId)
        && Committed(old(Contents()), r.value, Steps.Unmatch(matchId, ids), Contents(), None)
        && !MatchOf(Contents(), r.value, user, matchId)
    {
      ids := [];
      var found := FindMatch(user, matchId);
      if found.None? { return Err(NoSuchMatch), ids; }
      var p := found.value;
      ghost var db := Contents();
      ids := EndMatch(p, matchId);
      CommitsAs(db, p, Steps.Unmatch(matchId, ids), Contents());
      return Ok(p), ids;
    }

    // ----- chat ---------------------------------------------------------------

    /** Inside a transaction: on an error the caller puts everything back. */
    method Insert(id: ConvId, user: UserId, d: Draft, mid: Id, limited: bool, now: int) returns (r: Reply<Message>)
      requires id.pair.Ordered() && Contents().Knows(id.pair)
      requires id.origin in Contents().Row(id.pair).convs
      modifies this`users, this`pairs
      ensures users.Keys == old(users).Keys
      ensures var c := old(Contents()).Row(id.pair).convs[id.origin];
              if limited && Stores(c, user, d) then r == Err(TooMany)
              else match Conversations.Insert(c, user, d, mid, now)
                case Rejected(problem) => r == Err(problem)
                case Existing(m) => r == Ok(m) && Contents() == old(Contents())
                case Stored(c', m) =>
                  if old(Contents()).BothActive(id.pair)
                  then r == Ok(m) && Contents() == WithConv(old(Contents()), id, c', MessageNew)
                  else r == Err(Forbidden)
      ensures var was, row := old(Contents()).Row(id.pair), Contents().Row(id.pair);
              var c := was.convs[id.origin];
              r.Ok? && ChatEffects.Unused(c, user, d.clientId) && |c.messages| == c.lastSeq ==>
                ChatEffects.OnlyConv(was, row, id.origin)
                && ChatEffects.Appended(c, row.convs[id.origin], user, d, mid, now)
    {
      if !ValidDraft(d) { return Err(BadRequest); }
      var c := pairs[id.pair].convs[id.origin];
      var existing := Find(c.messages, user, d.clientId);
      if existing.Some? {
        if existing.value.body != d.body || existing.value.replyTo != d.replyTo { return Err(BadRequest); }
        return Ok(existing.value);
      }
      if c.state != ConvState.Open && (c.state != Pending || c.requester != Some(user) || c.lastSeq != 0) {
        return Err(Forbidden);
      }
      if limited { return Err(TooMany); }
      if d.replyTo.Some? && !exists m :: m in c.messages && m.id == d.replyTo.value { return Err(BadRequest); }
      c := c.(lastSeq := c.lastSeq + 1, activity := now);
      var m := Message(mid, c.lastSeq, user, d.clientId, d.body, d.replyTo);
      c := c.(messages := c.messages + [m]);
      c := c.(parts := Unarchived(c.parts));
      SetConv(id.pair, id.origin, c);
      Emit(id.pair.lo, id.pair.hi, id.origin, MessageNew);
      if !Contents().BothActive(id.pair) { return Err(Forbidden); }
      return Ok(m);
    }

    /** `access`, then the insert: the rest of a send once the pair is locked. */
    method Write(id: ConvId, user: UserId, d: Draft, mid: Id, limited: bool, now: int) returns (r: Reply<Message>)
      requires id.origin in Contents().Row(id.pair).convs ==> id.pair.Ordered()
      requires id.pair.Has(user)
      modifies this`users, this`pairs
      ensures users.Keys == old(users).Keys
      ensures MeteredSendResult(old(Contents()), id, user, d, limited, mid, now, Contents(), r)
    {
      if !Guarantees.Access(Contents(), id, user) { return Err(Unavailable); }
      r := Insert(id, user, d, mid, limited, now);
    }

    method Send(id: ConvId, user: UserId, d: Draft, mid: Id, limited: bool, now: int) returns (r: Reply<Message>)
      requires Valid()
      modifies this`users, this`pairs
      ensures Valid()
      ensures !id.pair.Has(user) ==> r == Err(Unavailable) && Contents() == old(Contents())
      ensures limited && Metered(old(Contents()), id, user, d) ==> r == Err(TooMany) && Contents() == old(Contents())
      ensures id.pair.Has(user) && !(limited && Metered(old(Contents()), id, user, d)) ==>
        && Committed(old(Contents()), id.pair, Steps.Send(user, id.origin, d, mid, now), Contents(), r.Failure())
        && (r.Ok? ==> Guarantees.Answer(old(Contents()).Row(id.pair), id.origin, user, d, mid, now) == Some(r.value))
      ensures !Guarantees.Access(old(Contents()), id, user) ==> r == Err(Unavailable)
    {
      if !id.pair.Has(user) { return Err(Unavailable); }
      var db := Contents();
      r := Write(id, user, d, mid, limited, now);
      if r.Err? {
        users, pairs := db.users, db.pairs;
      } else {
        SendCommits(db, id, user, d, mid, now, Contents(), r);
      }
    }

    method OpenMatch(p: Pair, user: UserId, first: Option<Draft>, sendLimited: bool, mid: Id, now: int)
      returns (problem: Option<Problem>)
      requires Valid() && p.Ordered() && p.Has(user)
      requires Contents().BothActive(p) && Contents().Row(p).blocks == {}
      modifies this`users, this`pairs
      ensures if OpenMetered(old(Contents()), p, user, Match, first, false, sendLimited, now)
              then problem == Some(TooMany)
              else OpenResult(old(Contents()), p, Steps.OpenMatch(user, first, mid, now), Contents(), problem)
    {
      ghost var db := Contents();
      if Contents().Row(p).matched.None? { return Some(Forbidden); }
      EnsureMatch(p, now);
      if first.None? {
        CommitsAs(db, p, Steps.OpenMatch(user, first, mid, now), Contents());
        return None;
      }
      var r := Write(ConvId(p, Match), user, first.value, mid, sendLimited, now);
      OpenMatchAnswers(db, p, user, first.value, sendLimited, mid, now, Contents(), r);
      return r.Failure();
    }

    method OpenRequest(p: Pair, user: UserId, d: Draft, askLimited: bool, sendLimited: bool, mid: Id, now: int)
      returns (problem: Option<Problem>)
      requires Valid() && p.Ordered() && p.Has(user)
      requires Contents().BothActive(p) && Contents().Row(p).blocks == {}
      modifies this`users, this`pairs
      ensures if OpenMetered(old(Contents()), p, user, Request, Some(d), askLimited, sendLimited, now)
              then problem == Some(TooMany)
              else OpenResult(old(Contents()), p, Steps.OpenRequest(user, d, mid, now), Contents(), problem)
    {
      ghost var db := Contents();
      if Request !in Contents().Row(p).convs {
        if askLimited { return Some(TooMany); }
        CreateConv(p, Request, Pending, Some(user), now);
      }
      NoNotes(db, p);
      var r := Write(ConvId(p, Request), user, d, mid, sendLimited, now);
      OpenRequestAnswers(db, p, user, d, sendLimited, mid, now, Contents(), r);
      return r.Failure();
    }

    /** `visible`: neither profile is hidden. `askLimited` and `sendLimited` are the limiters' answers. */
    method Open(user: UserId, peer: UserId, origin: Origin, first: Option<Draft>, visible: bool,
                askLimited: bool, sendLimited: bool, mid: Id, now: int) returns (r: Reply<ConvId>)
      requires Valid()
      modifies this`users, this`pairs
      ensures Valid()
      ensures user == peer || origin == Anonymous ==> r == Err(BadRequest) && Contents() == old(Contents())
      ensures user != peer && origin != Anonymous && !visible ==> r == Err(Unavailable) && Contents() == old(Contents())
      ensures user != peer && origin != Anonymous && visible ==>
        if OpenMetered(old(Contents()), PairOf(user, peer), user, origin, first, askLimited, sendLimited, now)
        then r == Err(TooMany) && Contents() == old(Contents())
        else Committed(old(Contents()), PairOf(user, peer), OpenOp(user, origin, first, mid, now),
                       Contents(), r.Failure())
      ensures r.Ok? ==> r.value == ConvId(PairOf(user, peer), origin)
    {
      if user == peer || origin == Anonymous { return Err(BadRequest); }
      var p := PairOf(user, peer);
      if !visible || !Contents().BothActive(p) || Contents().Row(p).blocks != {} { return Err(Unavailable); }
      var db := Contents();
      var problem: Option<Problem>;
      if origin == Match {
        problem := OpenMatch(p, user, first, sendLimited, mid, now);
      } else {
        problem := OpenRequest(p, user, Introduction(first), askLimited, sendLimited, mid, now);
      }
      if problem.Some? {
        users, pairs := db.users, db.pairs;
        return Err(problem.value);
      }
      return Ok(ConvId(p, origin));
    }

    /** The receipt update: only a row still behind `upTo` is changed. */
    method MoveReceipt(id: ConvId, user: UserId, upTo: int, read: bool) returns (affected: nat)
      requires id.origin in Contents().Row(id.pair).convs
      modifies this`users, this`pairs
      ensures users == old(users)
      ensures var row := old(Contents()).Row(id.pair);
              var c := row.convs[id.origin];
              var behind := user in c.parts && (if read then c.parts[user].read else c.parts[user].delivered) < upTo;
              && affected == (if behind then 1 else 0)
              && pairs == if behind
                 then old(pairs)[id.pair := row.(convs := row.convs[id.origin :=
                   c.(parts := c.parts[user := Acknowledge(c.parts[user], upTo, read)])])]
                 else old(pairs)
    {
      var c := pairs[id.pair].convs[id.origin];
      if user !in c.parts { return 0; }
      var part := c.parts[user];
      if read {
        if part.read >= upTo { return 0; }
        part := part.(read := Max(part.read, upTo), delivered := Max(part.delivered, upTo));
      } else {
        if part.delivered >= upTo { return 0; }
        part := part.(delivered := Max(part.delivered, upTo));
      }
      SetConv(id.pair, id.origin, c.(parts := c.parts[user := part]));
      return 1;
    }

    method Receipt(id: ConvId, user: UserId, upTo: int, read: bool) returns (r: Reply<()>)
      requires Valid()
      modifies this`users, this`pairs
      ensures Valid()
      ensures !id.pair.Has(user) ==> r == Err(Unavailable) && Contents() == old(Contents())
      ensures id.pair.Has(user) ==>
        Committed(old(Contents()), id.pair, Steps.Receipt(user, id.origin, upTo, read), Contents(), r.Failure())
      ensures r == Err(Unavailable) <==> !Guarantees.Access(old(Contents()), id, user)
      ensures r == Err(BadRequest) <==>
        && Guarantees.Access(old(Contents()), id, user)
        && !(0 <= upTo <= old(Contents()).Row(id.pair).convs[id.origin].lastSeq)
    {
      if !Guarantees.Access(Contents(), id, user) { return Err(Unavailable); }
      ghost var db := Contents();
      ghost var op := Steps.Receipt(user, id.origin, upTo, read);
      var c := pairs[id.pair].convs[id.origin];
      if upTo < 0 || upTo > c.lastSeq {
        QuietStepCommits(db, id.pair, op, Contents(), Some(BadRequest));
        return Err(BadRequest);
      }
      var affected := MoveReceipt(id, user, upTo, read);
      if affected > 0 { Emit(id.pair.lo, id.pair.hi, id.origin, if read then ReceiptRead else ReceiptDelivered); }
      ReceiptResult(db, id, user, upTo, read, Contents());
      QuietStepCommits(db, id.pair, op, Contents(), None);
      return Ok(());
    }

    /** The action's own updates, and the event they call for, if any. */
    method Change(id: ConvId, user: UserId, action: Conversations.Action) returns (r: Reply<Option<Kind>>)
      requires Valid() && Reachable(Contents().Row(id.pair), id.origin)
      modifies this`users, this`pairs
      ensures var out := Conversations.Act(old(Contents()).Row(id.pair), id.origin, user, action);
        match r
        case Err(problem) => out == Refused(problem) && Contents() == old(Contents())
        case Ok(None) => out == Done(old(Contents()).Row(id.pair), []) && Contents() == old(Contents())
        case Ok(Some(kind)) =>
          out.Done? && out.notes == [Note(id.origin, kind)] && Contents() == WithRow(old(Contents()), id.pair, out.row)
    {
      var c := pairs[id.pair].convs[id.origin];
      var kind := ConversationAccess;
      match action {
        case Accept | Decline =>
          if id.origin != Request || c.requester == Some(user) { return Err(Forbidden); }
          if c.state != Pending {
            if c.state == ConvState.Open && action == Accept { return Ok(None); }
            return Err(Forbidden);
          }
          c := c.(state := if action == Decline then Declined else ConvState.Open);
        case Reveal =>
          if id.origin != Anonymous || c.state != ConvState.Open { return Err(Forbidden); }
          if c.revealed { return Ok(None); }
          c := c.(consents := c.consents + {user});
          if |c.consents| == 2 {
            c := c.(revealed := true);
            kind := IdentityRevealed;
          }
        case Mute | Unmute | Archive | Unarchive =>
          if user in c.parts {
            var part := c.parts[user];
            if action == Mute || action == Unmute { part := part.(muted := action == Mute); }
            else { part := part.(archived := action == Archive); }
            c := c.(parts := c.parts[user := part]);
          }
      }
      SetConv(id.pair, id.origin, c);
      return Ok(Some(kind));
    }

    method Action(id: ConvId, user: UserId, action: Conversations.Action) returns (r: Reply<()>)
      requires Valid()
      modifies this`users, this`pairs
      ensures Valid()
      ensures !id.pair.Has(user) ==> r == Err(Unavailable) && Contents() == old(Contents())
      ensures id.pair.Has(user) ==>
        Committed(old(Contents()), id.pair, Steps.Act(user, id.origin, action), Contents(), r.Failure())
      ensures r == if !Guarantees.Access(old(Contents()), id, user) then Err(Unavailable)
                   else if ChatEffects.MayAct(old(Contents()).Row(id.pair), id.origin, user, action) then Ok(())
                   else Err(Forbidden)
    {
      if !Guarantees.Access(Contents(), id, user) { return Err(Unavailable); }
      ghost var db := Contents();
      ghost var op := Steps.Act(user, id.origin, action);
      RowIsFine(db, id.pair);
      ChatEffects.ActAnswers(id.pair, db.Row(id.pair), id.origin, user, action);
      var changed := Change(id, user, action);
      if changed.Ok? && changed.value.Some? {
        Emit(id.pair.lo, id.pair.hi, id.origin, changed.value.value);
      }
      ActResult(db, id, user, action, Contents(), changed.Failure());
      QuietStepCommits(db, id.pair, op, Contents(), changed.Failure());
      return if changed.Ok? then Ok(()) else Err(changed.problem);
    }

    // ----- anonymous chat -----------------------------------------------------

    method FindMasked(user: UserId) returns (found: Option<Pair>)
      ensures found.Some? ==> Masked(Contents(), found.value, user)
      ensures found.None? ==> !IsMasked(Contents(), user)
    {
      if exists p :: p in pairs && Masked(Contents(), p, user) {
        var p :| p in pairs && Masked(Contents(), p, user);
        found := Some(p);
      } else {
        found := None;
      }
    }

    /** The recheck under the pair lock, and the conversation. */
    method PairUp(user: UserId, peer: UserId, now: int) returns (r: Reply<ConvId>)
      requires Valid() && user != peer && user in users && peer in users
      modifies this`users, this`pairs
      ensures Valid()
      ensures Committed(old(Contents()), PairOf(user, peer), Steps.Meet(now), Contents(), r.Failure())
      ensures r.Ok? ==> r.value == ConvId(PairOf(user, peer), Anonymous)
    {
      var p := PairOf(user, peer);
      if Contents().Row(p).blocks != {} { return Err(Unavailable); }
      if Anonymous in Contents().Row(p).convs { return Err(Conflict); }
      ghost var db := Contents();
      CreateConv(p, Anonymous, ConvState.Open, None, now);
      Emit(p.lo, p.hi, Anonymous, ConversationNew);
      CommitsAs(db, p, Steps.Meet(now), Contents());
      return Ok(ConvId(p, Anonymous));
    }

    /** `visible`: whether the caller's profile may join. `peer`: whom the queue offered. */
    method JoinAnonymous(user: UserId, visible: bool, peer: Option<UserId>, now: int) returns (r: Reply<Option<ConvId>>)
      requires Valid() && Offered(Hall(Contents(), waiting), user, peer, now)
      modifies this
      ensures Valid()
      ensures Hall(Contents(), waiting) == Enter(old(Hall(Contents(), waiting)), user, visible, peer, now)
      ensures HallInv(old(Hall(Contents(), waiting))) ==> HallInv(Hall(Contents(), waiting))
      ensures var db := old(Contents());
        if !Eligible(db, user, visible) then
          r == Err(Forbidden)
        else if IsMasked(db, user) then
          r.Ok? && r.value.Some? && r.value.value.origin == Anonymous && Masked(db, r.value.value.pair, user)
        else if peer.None? then
          r == Ok(None)
        else
          && Committed(db, PairOf(user, peer.value), Steps.Meet(now), Contents(), r.Failure())
          && (r.Ok? ==> r.value == Some(ConvId(PairOf(user, peer.value), Anonymous)))
    {
      EnterIsHarmless(Hall(Contents(), waiting), user, visible, peer, now);
      if !(user in users && users[user].active && visible) { return Err(Forbidden); }
      var masked := FindMasked(user);
      if masked.Some? { return Ok(Some(ConvId(masked.value, Anonymous))); }
      EntersAs(Hall(Contents(), waiting), user, visible, peer, now);
      var before := waiting;
      waiting := map u | u in waiting && waiting[u] >= now :: waiting[u];
      waiting := waiting[user := now + PATIENCE];
      if peer.None? { return Ok(None); }
      var met := PairUp(user, peer.value, now);
      if met.Err? {
        waiting := before;
        return Err(met.problem);
      }
      waiting := waiting - {user, peer.value};
      return Ok(Some(met.value));
    }

    /** The caller waits no more, and nobody else is affected. */
    method LeaveQueue(user: UserId)
      modifies this`waiting
      ensures user !in waiting
      ensures forall u :: u != user ==> (u in waiting <==> u in old(waiting))
      ensures forall u :: u in waiting ==> waiting[u] == old(waiting)[u]
      ensures HallInv(old(Hall(Contents(), waiting))) ==> HallInv(Hall(Contents(), waiting))
    {
      ghost var hall := Hall(Contents(), waiting);
      waiting := waiting - {user};
      LeaveIsHarmless(hall, user);
    }

    // ----- accounts -----------------------------------------------------------

    method Register(user: UserId) returns (r: Reply<()>)
      requires Valid()
      modifies this`users, this`pairs
      ensures Valid()
      ensures r.Ok? ==> Apply(old(Contents()), Join(user)) == Some(Contents())
      ensures r.Err? ==> r == Err(Conflict) && user in users && Contents() == old(Contents())
    {
      if user in users { return Err(Conflict); }
      StepKeepsInv(Contents(), Join(user));
      users := users[user := UserRow(true, 0, [])];
      return Ok(());
    }

    /** Closing a report, with or without suspending the account it names. */
    method Resolve(subject: Option<UserId>, suspend: bool) returns (r: Reply<()>)
      requires Valid()
      requires subject.Some? ==> subject.value in users
      modifies this`users, this`pairs
      ensures Valid()
      ensures r == (if subject.Some? then Ok(()) else Err(NoSuchReport))
      ensures if subject.Some? && suspend then Apply(old(Contents()), Suspend(subject.value)) == Some(Contents())
              else Contents() == old(Contents())
      ensures pairs == old(pairs) && users.Keys == old(users).Keys
      ensures subject.Some? && suspend ==> !users[subject.value].active
      ensures forall u :: u in users && !(suspend && subject == Some(u)) ==> users[u] == old(users)[u]
    {
      if subject.None? { return Err(NoSuchReport); }
      if suspend {
        StepKeepsInv(Contents(), Suspend(subject.value));
        users := users[subject.value := users[subject.value].(active := false)];
      }
      return Ok(());
    }

    method PruneOne(u: UserId, count: nat)
      requires Valid() && u in users && count <= |users[u].rows|
      modifies this`users
      ensures Valid() && Apply(old(Contents()), Prune(u, count)) == Some(Contents())
      ensures users == old(users)[u := old(users)[u].(rows := old(users)[u].rows[count..])]
    {
      StepKeepsInv(Contents(), Prune(u, count));
      users := users[u := users[u].(rows := users[u].rows[count..])];
    }

    /** The retention sweep: `expired` says how many of an account's oldest events are due. */
    method PruneEvents(expired: map<UserId, nat>) returns (ghost steps: seq<Step>)
      requires Valid()
      requires forall u :: u in expired && u in users ==> expired[u] <= |users[u].rows|
      modifies this`users, this`pairs
      ensures Valid()
      ensures forall i :: 0 <= i < |steps| ==> steps[i].Prune?
      ensures Run(old(Contents()), steps) == Some(Contents())
      ensures pairs == old(pairs) && users == Swept(old(users), expired, {})
    {
      steps := [];
      var rest := expired.Keys * users.Keys;
      assert users == Swept(users, expired, rest);
      while |rest| > 0
        invariant Valid() && pairs == old(pairs) && users == Swept(old(users), expired, rest)
        invariant rest <= expired.Keys * old(users).Keys
        invariant forall i :: 0 <= i < |steps| ==> steps[i].Prune?
        invariant Run(old(Contents()), steps) == Some(Contents())
        decreases rest
      {
        ghost var some := Member(rest);
        var u :| u in rest;
        SweptNext(old(users), expired, rest, u);
        Guarantees.RunLast(old(Contents()), steps, Prune(u, expired[u]));
        PruneOne(u, expired[u]);
        steps, rest := steps + [Prune(u, expired[u])], rest - {u};
      }
      assert rest == {};
    }
  }
}
