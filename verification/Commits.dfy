/** What a call on one pair does to the database, all or nothing, and what the
    steps inside its transaction add up to. */
module Commits {
  import opened Rows
  import opened ChatLog
  import opened Conversations
  import opened Steps
  import opened Invariants
  import Guarantees
  import Social
  import Safety

  datatype Reply<+T> = Ok(value: T) | Err(problem: Problem) {
    function Failure(): Option<Problem> { if Ok? then None else Some(problem) }
  }

  /** Calls that first check both accounts. */
  predicate ChecksAccounts(op: PairOp) {
    op.OpenMatch? || op.OpenRequest? || op.Send? || op.Receipt? || op.Act?
  }

  /** Why a call on this pair fails, if it does. */
  function Refusal(db: Db, p: Pair, op: PairOp): Option<Problem> {
    if ChecksAccounts(op) && !db.BothActive(p) then Some(Unavailable)
    else if !db.Knows(p) then Some(NoSuchPerson)
    else
      var out := Perform(p, db.Row(p), op);
      if out.Refused? then Some(out.problem)
      else if Announces(out.notes) && !db.BothActive(p) then Some(Forbidden)
      else None
  }

  /** One call, all or nothing. */
  predicate Committed(db: Db, p: Pair, op: PairOp, db': Db, problem: Option<Problem>) {
    && problem == Refusal(db, p, op)
    && (problem.None? ==> Apply(db, OnPair(p, op)) == Some(db'))
    && (problem.Some? ==> db' == db)
  }

  predicate MatchOf(db: Db, p: Pair, user: UserId, matchId: Id) {
    p in db.pairs && p.Has(user) && db.pairs[p].matched == Some(matchId)
  }

  // ----- writing a pair and its events ----------------------------------------

  function WithEvents(db: Db, p: Pair, row: PairRow, notes: seq<Note>): Db
    requires db.Knows(p)
  {
    Db(EmitAll(db.users, p, notes), db.pairs[p := row])
  }

  function WithRow(db: Db, p: Pair, row: PairRow): Db { db.(pairs := db.pairs[p := row]) }

  function WithConv(db: Db, id: ConvId, c: Conv, kind: Kind): Db
    requires db.Knows(id.pair)
  {
    var row := db.Row(id.pair);
    WithEvents(db, id.pair, row.(convs := row.convs[id.origin := c]), [Note(id.origin, kind)])
  }

  /** The database once these conversations of the pair are closed and announced. */
  function WithClosed(db: Db, p: Pair, ids: seq<Origin>): Db
    requires db.Knows(p)
  {
    var row := db.Row(p);
    WithEvents(db, p, row.(convs := CloseAll(row.convs, ids)), CloseNotes(ids))
  }

  /** The database once the match conversation is there. */
  function WithMatchConv(db: Db, p: Pair, now: int): Db
    requires db.Knows(p)
  {
    var made := ChatLog.EnsureMatch(p, db.Row(p), now);
    WithEvents(db, p, made.0, made.1)
  }

  /** The database once the request conversation is there. */
  function WithRequestConv(db: Db, p: Pair, user: UserId, now: int): Db {
    var row := db.Row(p);
    if Request in row.convs then db
    else db.(pairs := db.pairs[p := row.(convs := row.convs[Request := NewConv(p, Pending, Some(user), now)])])
  }

  /** What creating the match writes: its row, its conversation, and no more likes. */
  function WithMatch(db: Db, p: Pair, matchId: Id, now: int): Db
    requires db.Knows(p)
  {
    var row := db.Row(p);
    var id := if row.matched.Some? then row.matched.value else matchId;
    var made := ChatLog.EnsureMatch(p, row.(matched := Some(id)), now);
    WithEvents(db, p, made.0.(likes := row.likes - {p.lo, p.hi}), made.1)
  }

  lemma NoNotes(db: Db, p: Pair)
    requires db.Knows(p)
    ensures EmitAll(db.users, p, []) == db.users
  {
    assert forall u: UserRow :: Append(u, p, []) == u by {
      forall u: UserRow ensures Append(u, p, []) == u { assert u.rows + Numbered(u.eventSeq, p, []) == u.rows; }
    }
  }

  lemma OneMoreEvent(db: Db, p: Pair, row: PairRow, notes: seq<Note>, row': PairRow, n: Note)
    requires db.Knows(p) && p.Ordered()
    ensures WithEvents(WithEvents(db, p, row, notes), p, row', [n]) == WithEvents(db, p, row', notes + [n])
  {
    AppendOne(db.users[p.lo], p, notes, n);
    AppendOne(db.users[p.hi], p, notes, n);
  }

  /** Writing what the operation does to its pair, with its events, is the step. */
  lemma CommitsAs(db: Db, p: Pair, op: PairOp, db': Db)
    requires DbInv(db) && p.Ordered() && db.Knows(p) && Admissible(p, db.Row(p), op)
    requires var out := Perform(p, db.Row(p), op);
             out.Done? && (ChecksAccounts(op) || Announces(out.notes) ==> db.BothActive(p))
             && db' == WithEvents(db, p, out.row, out.notes)
    ensures Committed(db, p, op, db', None) && DbInv(db')
  {
    StepKeepsInv(db, OnPair(p, op));
  }

  lemma AppendSingle(u: UserRow, p: Pair, n: Note)
    ensures Append(u, p, [n])
         == u.(eventSeq := u.eventSeq + 1, rows := u.rows + [Event(u.eventSeq + 1, n.kind, ConvId(p, n.origin))])
  {
    assert Numbered(u.eventSeq, p, [n]) == [Event(u.eventSeq + 1, n.kind, ConvId(p, n.origin))];
  }

  /** The like is written first and consumed with the other one. */
  lemma LikeThenMatch(p: Pair, row: PairRow, user: UserId, matchId: Id, now: int)
    requires p.Has(user) && row.blocks == {}
    ensures var liked := row.(likes := row.likes + {user});
            var id := if row.matched.Some? then row.matched.value else matchId;
            var made := ChatLog.EnsureMatch(p, liked.(matched := Some(id)), now);
            Social.Like(p, row, user, true, matchId, now) == Done(made.0.(likes := liked.likes - {p.lo, p.hi}), made.1)
  {
    assert (row.likes + {user}) - {p.lo, p.hi} == row.likes - {p.lo, p.hi};
  }

  lemma LikeWrites(db: Db, p: Pair, user: UserId, matchId: Id, now: int)
    requires p.Ordered() && db.Knows(p) && p.Has(user) && db.Row(p).blocks == {}
    ensures var liked := db.Row(p).(likes := db.Row(p).likes + {user});
            var yes := Social.Like(p, db.Row(p), user, true, matchId, now);
            var no := Social.Like(p, db.Row(p), user, false, matchId, now);
            && yes.Done? && WithMatch(WithRow(db, p, liked), p, matchId, now) == WithEvents(db, p, yes.row, yes.notes)
            && no.Done? && WithRow(db, p, liked) == WithEvents(db, p, no.row, no.notes)
            && (p.Peer(user) in liked.likes <==> p.Peer(user) in db.Row(p).likes)
  {
    NoNotes(db, p);
    LikeThenMatch(p, db.Row(p), user, matchId, now);
    var liked := db.Row(p).(likes := db.Row(p).likes + {user});
    var yes := Social.Like(p, db.Row(p), user, true, matchId, now);
    assert WithRow(db, p, liked).pairs[p := yes.row] == db.pairs[p := yes.row];
  }

  /** A like written, and turned into a match if the other one was there. */
  lemma LikeCommits(db: Db, p: Pair, user: UserId, matchId: Id, now: int, db': Db)
    requires DbInv(db) && p.Ordered() && db.Knows(p) && p.Has(user) && db.Row(p).blocks == {}
    requires var liked := db.Row(p).(likes := db.Row(p).likes + {user});
             if p.Peer(user) in liked.likes then db' == WithMatch(WithRow(db, p, liked), p, matchId, now)
             else db' == WithRow(db, p, liked)
    ensures Committed(db, p, Steps.Like(user, p.Peer(user) in db.Row(p).likes, matchId, now), db', None) && DbInv(db')
  {
    LikeWrites(db, p, user, matchId, now);
    CommitsAs(db, p, Steps.Like(user, p.Peer(user) in db.Row(p).likes, matchId, now), db');
  }

  /** An operation that writes its pair back as it was, without an event, changes nothing. */
  lemma SameAgain(db: Db, p: Pair, op: PairOp)
    requires DbInv(db) && p in db.pairs && Admissible(p, db.Row(p), op)
    requires Perform(p, db.Row(p), op) == Done(db.Row(p), [])
    requires ChecksAccounts(op) ==> db.BothActive(p)
    ensures Committed(db, p, op, db, None)
  {
    NoNotes(db, p);
    assert db.pairs[p := db.Row(p)] == db.pairs;
    CommitsAs(db, p, op, db);
  }

  /** Blocking, dropping the match and dropping the likes, one after another. */
  lemma BlockWritten(db: Db, p: Pair, user: UserId, ids: seq<Origin>)
    requires db.Knows(p)
    ensures var closed := WithClosed(db, p, ids);
            var blocked := WithRow(closed, p, closed.Row(p).(blocks := closed.Row(p).blocks + {user}));
            var apart := WithRow(blocked, p, blocked.Row(p).(matched := None));
            var done := WithRow(apart, p, apart.Row(p).(likes := apart.Row(p).likes - {p.lo, p.hi}));
            done == WithEvents(db, p, Safety.Block(p, db.Row(p), user, ids).row, CloseNotes(ids))
  {
  }

  /** Writing the match, ensuring its conversation and then deleting the likes. */
  lemma MatchWritten(db: Db, p: Pair, matchId: Id, now: int)
    requires db.Knows(p)
    ensures var id := if db.Row(p).matched.Some? then db.Row(p).matched.value else matchId;
            var made := WithMatchConv(WithRow(db, p, db.Row(p).(matched := Some(id))), p, now);
            WithRow(made, p, made.Row(p).(likes := made.Row(p).likes - {p.lo, p.hi})) == WithMatch(db, p, matchId, now)
  {
  }

  // ----- sending --------------------------------------------------------------

  /** A send the limiter is asked about: allowed, valid and not a retry. */
  predicate Stores(c: Conv, user: UserId, d: Draft) {
    ValidDraft(d) && Find(c.messages, user, d.clientId).None? && MayWrite(c, user)
  }

  predicate Metered(db: Db, id: ConvId, user: UserId, d: Draft) {
    Guarantees.Access(db, id, user) && Stores(db.Row(id.pair).convs[id.origin], user, d)
  }

  /** A send, seen from inside its transaction. */
  predicate SendResult(db: Db, id: ConvId, user: UserId, d: Draft, mid: Id, now: int, db': Db, r: Reply<Message>) {
    if !db.BothActive(id.pair) then r == Err(Unavailable)
    else match Conversations.Send(db.Row(id.pair), id.origin, user, d, mid, now)
      case Refused(problem) => r == Err(problem)
      case Done(row, notes) =>
        && r.Ok?
        && Guarantees.Answer(db.Row(id.pair), id.origin, user, d, mid, now) == Some(r.value)
        && db' == if notes == [] then db else WithEvents(db, id.pair, row, notes)
  }

  /** The same, with the limiter's say. */
  predicate MeteredSendResult(db: Db, id: ConvId, user: UserId, d: Draft, limited: bool, mid: Id, now: int,
                              db': Db, r: Reply<Message>)
  {
    if limited && Metered(db, id, user, d) then r == Err(TooMany) else SendResult(db, id, user, d, mid, now, db', r)
  }

  /** With or without an event, the pair's row is the only one rewritten. */
  lemma SendWritesRow(db: Db, id: ConvId, user: UserId, d: Draft, mid: Id, now: int, db': Db, r: Reply<Message>)
    requires SendResult(db, id, user, d, mid, now, db', r) && r.Ok?
    ensures db.BothActive(id.pair)
    ensures var sent := Conversations.Send(db.Row(id.pair), id.origin, user, d, mid, now);
            sent.Done? && db' == WithEvents(db, id.pair, sent.row, sent.notes)
  {
    NoNotes(db, id.pair);
    var sent := Conversations.Send(db.Row(id.pair), id.origin, user, d, mid, now);
    if sent.notes == [] {
      assert sent.row == db.Row(id.pair) && id.pair in db.pairs;
      assert db.pairs[id.pair := db.pairs[id.pair]] == db.pairs;
    }
  }

  lemma SendCommits(db: Db, id: ConvId, user: UserId, d: Draft, mid: Id, now: int, db': Db, r: Reply<Message>)
    requires DbInv(db) && id.pair.Has(user)
    requires SendResult(db, id, user, d, mid, now, db', r) && r.Ok?
    ensures Committed(db, id.pair, Steps.Send(user, id.origin, d, mid, now), db', None) && DbInv(db')
  {
    SendWritesRow(db, id, user, d, mid, now, db', r);
    CommitsAs(db, id.pair, Steps.Send(user, id.origin, d, mid, now), db');
  }

  // ----- opening --------------------------------------------------------------

  const NO_INTRODUCTION := Draft(0, "", None)

  /** A request without a message is sent as an empty one, and refused as one. */
  function Introduction(first: Option<Draft>): Draft { if first.Some? then first.value else NO_INTRODUCTION }

  function OpenOp(user: UserId, origin: Origin, first: Option<Draft>, mid: Id, now: int): PairOp {
    if origin == Match then Steps.OpenMatch(user, first, mid, now)
    else Steps.OpenRequest(user, Introduction(first), mid, now)
  }

  /** An opening that asks a limiter and is refused by it: the daily one for a new
      request, the sending one for a first message that would be stored. */
  predicate OpenMetered(db: Db, p: Pair, user: UserId, origin: Origin, first: Option<Draft>,
                        askLimited: bool, sendLimited: bool, now: int) {
    && db.BothActive(p) && db.Row(p).blocks == {}
    && if origin == Match then
         && sendLimited && first.Some? && db.Row(p).matched.Some?
         && var row := ChatLog.EnsureMatch(p, db.Row(p), now).0;
            row.convs[Match].Live() && Stores(row.convs[Match], user, first.value)
       else
         || (askLimited && Request !in db.Row(p).convs)
         || (sendLimited && Metered(WithRequestConv(db, p, user, now), ConvId(p, Request), user, Introduction(first)))
  }

  /** Like `Committed`, before anything is put back. */
  predicate OpenResult(db: Db, p: Pair, op: PairOp, db': Db, problem: Option<Problem>) {
    if problem.Some? then problem == Refusal(db, p, op) else Committed(db, p, op, db', None) && DbInv(db')
  }

  /** Past its own checks an opening is refused exactly as the send inside it. */
  lemma OpenMatchRefuses(db: Db, p: Pair, user: UserId, d: Draft, mid: Id, now: int)
    requires db.BothActive(p) && db.Row(p).blocks == {} && db.Row(p).matched.Some?
    ensures var sent := Conversations.Send(ChatLog.EnsureMatch(p, db.Row(p), now).0, Match, user, d, mid, now);
            Refusal(db, p, Steps.OpenMatch(user, Some(d), mid, now))
            == if sent.Refused? then Some(sent.problem) else None
  {
  }

  lemma OpenMatchIsMetered(db: Db, p: Pair, user: UserId, d: Draft, limited: bool, now: int)
    requires p.Ordered() && p.Has(user) && db.BothActive(p) && db.Row(p).blocks == {} && db.Row(p).matched.Some?
    ensures OpenMetered(db, p, user, Match, Some(d), false, limited, now)
      <==> limited && Metered(WithMatchConv(db, p, now), ConvId(p, Match), user, d)
  {
  }

  lemma OpenMatchWrites(db: Db, p: Pair, user: UserId, d: Draft, mid: Id, now: int, db': Db, r: Reply<Message>)
    requires p.Ordered() && db.BothActive(p) && db.Row(p).blocks == {} && db.Row(p).matched.Some? && r.Ok?
    requires SendResult(WithMatchConv(db, p, now), ConvId(p, Match), user, d, mid, now, db', r)
    ensures var out := Conversations.OpenMatch(p, db.Row(p), user, Some(d), mid, now);
            out.Done? && db' == WithEvents(db, p, out.row, out.notes)
  {
    var made := ChatLog.EnsureMatch(p, db.Row(p), now);
    var sent := Conversations.Send(made.0, Match, user, d, mid, now);
    if sent.notes != [] { OneMoreEvent(db, p, made.0, made.1, sent.row, Note(Match, MessageNew)); }
  }

  lemma OpenMatchCommits(db: Db, p: Pair, user: UserId, d: Draft, mid: Id, now: int, db': Db, r: Reply<Message>)
    requires DbInv(db) && p.Ordered() && p.Has(user) && db.BothActive(p)
    requires db.Row(p).blocks == {} && db.Row(p).matched.Some? && r.Ok?
    requires SendResult(WithMatchConv(db, p, now), ConvId(p, Match), user, d, mid, now, db', r)
    ensures OpenResult(db, p, Steps.OpenMatch(user, Some(d), mid, now), db', None)
  {
    OpenMatchWrites(db, p, user, d, mid, now, db', r);
    CommitsAs(db, p, Steps.OpenMatch(user, Some(d), mid, now), db');
  }

  lemma OpenMatchAnswers(db: Db, p: Pair, user: UserId, d: Draft, limited: bool, mid: Id, now: int,
                         db': Db, r: Reply<Message>)
    requires DbInv(db) && p.Ordered() && p.Has(user) && db.BothActive(p)
    requires db.Row(p).blocks == {} && db.Row(p).matched.Some?
    requires MeteredSendResult(WithMatchConv(db, p, now), ConvId(p, Match), user, d, limited, mid, now, db', r)
    ensures if OpenMetered(db, p, user, Match, Some(d), false, limited, now) then r == Err(TooMany)
            else OpenResult(db, p, Steps.OpenMatch(user, Some(d), mid, now), db', r.Failure())
  {
    OpenMatchIsMetered(db, p, user, d, limited, now);
    OpenMatchRefuses(db, p, user, d, mid, now);
    if r.Ok? { OpenMatchCommits(db, p, user, d, mid, now, db', r); }
  }

  lemma OpenRequestRefuses(db: Db, p: Pair, user: UserId, d: Draft, mid: Id, now: int)
    requires db.BothActive(p) && db.Row(p).blocks == {}
    ensures var sent := Conversations.Send(WithRequestConv(db, p, user, now).Row(p), Request, user, d, mid, now);
            Refusal(db, p, Steps.OpenRequest(user, d, mid, now)) == if sent.Refused? then Some(sent.problem) else None
  {
  }

  lemma OpenRequestWrites(db: Db, p: Pair, user: UserId, d: Draft, mid: Id, now: int, db': Db, r: Reply<Message>)
    requires db.BothActive(p) && db.Row(p).blocks == {} && r.Ok?
    requires SendResult(WithRequestConv(db, p, user, now), ConvId(p, Request), user, d, mid, now, db', r)
    ensures var out := Conversations.OpenRequest(p, db.Row(p), user, d, mid, now);
            out.Done? && db' == WithEvents(db, p, out.row, out.notes)
  {
    var asked := WithRequestConv(db, p, user, now);
    SendWritesRow(asked, ConvId(p, Request), user, d, mid, now, db', r);
    var sent := Conversations.Send(asked.Row(p), Request, user, d, mid, now);
    assert asked.pairs[p := sent.row] == db.pairs[p := sent.row];
  }

  lemma OpenRequestCommits(db: Db, p: Pair, user: UserId, d: Draft, mid: Id, now: int, db': Db, r: Reply<Message>)
    requires DbInv(db) && p.Ordered() && p.Has(user) && db.BothActive(p)
    requires db.Row(p).blocks == {} && r.Ok?
    requires SendResult(WithRequestConv(db, p, user, now), ConvId(p, Request), user, d, mid, now, db', r)
    ensures OpenResult(db, p, Steps.OpenRequest(user, d, mid, now), db', None)
  {
    OpenRequestWrites(db, p, user, d, mid, now, db', r);
    CommitsAs(db, p, Steps.OpenRequest(user, d, mid, now), db');
  }

  lemma OpenRequestAnswers(db: Db, p: Pair, user: UserId, d: Draft, limited: bool, mid: Id, now: int,
                           db': Db, r: Reply<Message>)
    requires DbInv(db) && p.Ordered() && p.Has(user) && db.BothActive(p) && db.Row(p).blocks == {}
    requires MeteredSendResult(WithRequestConv(db, p, user, now), ConvId(p, Request), user, d, limited, mid, now,
                               db', r)
    ensures if OpenMetered(db, p, user, Request, Some(d), false, limited, now) then r == Err(TooMany)
            else OpenResult(db, p, Steps.OpenRequest(user, d, mid, now), db', r.Failure())
  {
    OpenRequestRefuses(db, p, user, d, mid, now);
    if r.Ok? { OpenRequestCommits(db, p, user, d, mid, now, db', r); }
  }

  // ----- receipts and actions -------------------------------------------------

  /** An operation on a reachable conversation, seen from inside its transaction. */
  predicate StepResult(db: Db, p: Pair, op: PairOp, db': Db, problem: Option<Problem>) {
    match Perform(p, db.Row(p), op)
    case Refused(x) => problem == Some(x) && db' == db
    case Done(row, notes) =>
      problem == None && db.Knows(p) && db' == if notes == [] then db else WithEvents(db, p, row, notes)
  }

  lemma ReceiptResult(db: Db, id: ConvId, user: UserId, upTo: int, read: bool, db': Db)
    requires Guarantees.Access(db, id, user) && 0 <= upTo <= db.Row(id.pair).convs[id.origin].lastSeq
    requires var row := db.Row(id.pair);
             var c := row.convs[id.origin];
             if user in c.parts && (if read then c.parts[user].read else c.parts[user].delivered) < upTo then
               db' == WithConv(db, id, c.(parts := c.parts[user := Acknowledge(c.parts[user], upTo, read)]),
                               if read then ReceiptRead else ReceiptDelivered)
             else db' == db
    ensures StepResult(db, id.pair, Steps.Receipt(user, id.origin, upTo, read), db', None)
  {
  }

  lemma ActResult(db: Db, id: ConvId, user: UserId, action: Action, db': Db, problem: Option<Problem>)
    requires db.Knows(id.pair)
    requires match Conversations.Act(db.Row(id.pair), id.origin, user, action)
             case Refused(x) => problem == Some(x) && db' == db
             case Done(row, notes) =>
               problem == None && db' == if notes == [] then db else WithEvents(db, id.pair, row, notes)
    ensures StepResult(db, id.pair, Steps.Act(user, id.origin, action), db', problem)
  {
  }

  lemma NoMessageIsAnnounced(p: Pair, row: PairRow, op: PairOp)
    requires op.Receipt? || op.Act?
    requires Perform(p, row, op).Done?
    ensures !Announces(Perform(p, row, op).notes)
    ensures Perform(p, row, op).notes == [] ==> Perform(p, row, op).row == row
  {
  }

  /** A receipt or an action that emits writes what the step does; one that does not has
      changed nothing. */
  lemma QuietStepCommits(db: Db, p: Pair, op: PairOp, db': Db, problem: Option<Problem>)
    requires DbInv(db) && p in db.pairs && db.BothActive(p) && p.Has(op.Caller(p))
    requires op.Receipt? || op.Act?
    requires StepResult(db, p, op, db', problem)
    ensures Committed(db, p, op, db', problem) && DbInv(db')
  {
    var out := Perform(p, db.Row(p), op);
    if out.Done? {
      NoMessageIsAnnounced(p, db.Row(p), op);
      if out.notes == [] { SameAgain(db, p, op); } else { CommitsAs(db, p, op, db'); }
    }
  }

  // ----- closing --------------------------------------------------------------

  lemma NothingClosed(db: Db, p: Pair)
    requires db.Knows(p)
    ensures WithClosed(db, p, []) == WithRow(db, p, db.Row(p))
  {
    NoNotes(db, p);
    assert CloseAll(db.Row(p).convs, []) == db.Row(p).convs;
  }

  lemma CloseAllNext(convs: map<Origin, Conv>, ids: seq<Origin>, o: Origin)
    requires o in convs && o !in ids
    ensures CloseAll(convs, ids)[o] == convs[o]
    ensures CloseAll(convs, ids + [o]) == CloseAll(convs, ids)[o := convs[o].(state := Closed)]
    ensures CloseNotes(ids + [o]) == CloseNotes(ids) + [Note(o, ConversationAccess)]
  {
  }

  /** Distinct conversations of the pair. */
  predicate Closable(convs: map<Origin, Conv>, ids: seq<Origin>) {
    forall i :: 0 <= i < |ids| ==> ids[i] in convs && ids[i] !in ids[..i]
  }

  lemma SelectedIsClosable(row: PairRow, datingOnly: bool, ids: seq<Origin>)
    requires ClosingOrder(row, datingOnly, ids)
    ensures Closable(row.convs, ids)
  {
    forall i | 0 <= i < |ids| ensures ids[i] in row.convs && ids[i] !in ids[..i] {
      assert ids[i] in ids;
    }
  }

  /** Storing the pair's row as it is makes no difference to what closing leaves. */
  lemma SameClosed(db: Db, p: Pair, ids: seq<Origin>)
    requires db.Knows(p)
    ensures WithClosed(WithRow(db, p, db.Row(p)), p, ids) == WithClosed(db, p, ids)
  {
  }

  lemma CloseOneMore(db: Db, p: Pair, ids: seq<Origin>, i: nat)
    requires db.Knows(p) && p.Ordered() && i < |ids| && ids[i] in db.Row(p).convs && ids[i] !in ids[..i]
    ensures ids[i] in WithClosed(db, p, ids[..i]).Row(p).convs
    ensures WithClosed(db, p, ids[..i + 1])
         == WithConv(WithClosed(db, p, ids[..i]), ConvId(p, ids[i]),
                     WithClosed(db, p, ids[..i]).Row(p).convs[ids[i]].(state := Closed), ConversationAccess)
  {
    var row, o := db.Row(p), ids[i];
    assert ids[..i + 1] == ids[..i] + [o];
    CloseAllNext(row.convs, ids[..i], o);
    OneMoreEvent(db, p, row.(convs := CloseAll(row.convs, ids[..i])), CloseNotes(ids[..i]),
                 row.(convs := CloseAll(row.convs, ids[..i + 1])), Note(o, ConversationAccess));
  }
}
