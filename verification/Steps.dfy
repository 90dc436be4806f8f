/** The step level: each committed transaction is one atomic step of the database. */
module Steps {
  import opened Rows
  import opened ChatLog
  import opened Conversations
  import Social
  import Safety

  datatype PairOp =
    | Like(from: UserId, seen: bool, matchId: Id, now: int)
    | RemoveLike(sender: UserId)
    | Block(user: UserId, order: seq<Origin>)
    | Unblock(user: UserId)
    | Unmatch(matchId: Id, order: seq<Origin>)
    | OpenMatch(user: UserId, first: Option<Draft>, id: Id, now: int)
    | OpenRequest(user: UserId, draft: Draft, id: Id, now: int)
    | Meet(now: int)
    | Send(user: UserId, origin: Origin, draft: Draft, id: Id, now: int)
    | Receipt(user: UserId, origin: Origin, upTo: int, read: bool)
    | Act(user: UserId, origin: Origin, action: Action)
  {
    /** The member of the pair the call is made for. */
    function Caller(p: Pair): UserId {
      match this
      case Like(from, _, _, _) => from
      case RemoveLike(sender) => sender
      case Block(user, _) => user
      case Unblock(user) => user
      case Unmatch(_, _) => p.lo
      case OpenMatch(user, _, _, _) => user
      case OpenRequest(user, _, _, _) => user
      case Meet(_) => p.lo
      case Send(user, _, _, _, _) => user
      case Receipt(user, _, _, _) => user
      case Act(user, _, _) => user
    }
  }

  function Perform(p: Pair, row: PairRow, op: PairOp): Outcome {
    match op
    case Like(from, seen, matchId, now) => Social.Like(p, row, from, seen, matchId, now)
    case RemoveLike(sender) => Social.RemoveLike(row, sender)
    case Block(user, order) => Safety.Block(p, row, user, order)
    case Unblock(user) => Safety.Unblock(row, user)
    case Unmatch(matchId, order) => Safety.Unmatch(p, row, matchId, order)
    case OpenMatch(user, first, id, now) => Conversations.OpenMatch(p, row, user, first, id, now)
    case OpenRequest(user, draft, id, now) => Conversations.OpenRequest(p, row, user, draft, id, now)
    case Meet(now) => Conversations.Meet(p, row, now)
    case Send(user, origin, draft, id, now) => Conversations.Send(row, origin, user, draft, id, now)
    case Receipt(user, origin, upTo, read) => Conversations.Receipt(row, origin, user, upTo, read)
    case Act(user, origin, action) => Conversations.Act(row, origin, user, action)
  }

  /** What the transaction's own reads, made under its locks, guarantee. A present
      reciprocal like is always seen; an absent one may have been seen before it went. */
  predicate Admissible(p: Pair, row: PairRow, op: PairOp) {
    && p.Has(op.Caller(p))
    && (op.Like? && p.Peer(op.from) in row.likes ==> op.seen)
    && (op.Block? ==> ClosingOrder(row, false, op.order))
    && (op.Unmatch? ==> ClosingOrder(row, true, op.order))
  }

  predicate Announces(notes: seq<Note>) { exists n :: n in notes && n.kind == MessageNew }

  datatype Step =
    | OnPair(pair: Pair, op: PairOp)
    | Suspend(user: UserId)
    | Prune(user: UserId, count: nat)
    | Join(user: UserId)

  function Apply(db: Db, step: Step): Option<Db> {
    match step
    case OnPair(p, op) =>
      if !p.Ordered() || !db.Knows(p) || !Admissible(p, db.Row(p), op) then None
      else
        var out := Perform(p, db.Row(p), op);
        if out.Refused? || (Announces(out.notes) && !db.BothActive(p)) then None
        else Some(Db(EmitAll(db.users, p, out.notes), db.pairs[p := out.row]))
    case Suspend(u) =>
      if u !in db.users then None
      else Some(db.(users := db.users[u := db.users[u].(active := false)]))
    case Prune(u, n) =>
      if u !in db.users || n > |db.users[u].rows| then None
      else Some(db.(users := db.users[u := db.users[u].(rows := db.users[u].rows[n..])]))
    case Join(u) =>
      if u in db.users then None
      else Some(db.(users := db.users[u := UserRow(true, 0, [])]))
  }

  const EMPTY_DB := Db(map[], map[])

  /** The database after `steps`, when every one of them can be taken. */
  function Run(db: Db, steps: seq<Step>): Option<Db>
    decreases |steps|
  {
    if |steps| == 0 then Some(db)
    else
      var before := Run(db, steps[..|steps| - 1]);
      if before.None? then None else Apply(before.value, steps[|steps| - 1])
  }
}
