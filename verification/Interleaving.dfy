/** The interleaving level. Transactions run statement by statement at read committed:
    each statement sees the committed rows plus the transaction's own writes, private
    writes are published at commit, and advisory and row locks are held until then.
    RemoveLike, Unblock and pruning are single statements that take no advisory lock. */
module Interleaving {
  import opened Rows
  import opened ChatLog
  import opened Steps

  /** How pairs map to advisory keys; distinct pairs may share one. */
  type KeyOf = Pair -> int

  const QUEUE_KEY := 8716354201

  datatype Lock = Advisory(key: int) | Account(user: UserId)

  // ----- private writes -------------------------------------------------------

  /** The rows a transaction has written: false deletes, true inserts or updates. */
  datatype Overlay = Overlay(
    likes: map<UserId, bool>,
    blocks: map<UserId, bool>,
    matched: Option<Option<Id>>,
    convs: map<Origin, Conv>)

  const NO_WRITES := Overlay(map[], map[], None, map[])

  function Patched(base: set<UserId>, writes: map<UserId, bool>): set<UserId> {
    base - writes.Keys + set u | u in writes && writes[u]
  }

  /** Committed rows as the transaction sees them, and what commit leaves behind. */
  function View(row: PairRow, ov: Overlay): PairRow {
    PairRow(Patched(row.likes, ov.likes), Patched(row.blocks, ov.blocks),
            if ov.matched.Some? then ov.matched.value else row.matched, row.convs + ov.convs)
  }

  /** A written users row (its new counter) and the event rows inserted with it. */
  datatype UserWrite = UserWrite(eventSeq: int, rows: seq<Event>)

  // ----- transactions ---------------------------------------------------------

  datatype Pc =
    | Start | Queued | Locked | Checked
    | Liked | Mutual | Matched | Ensured
    | Closing(next: nat) | Walled | Severed
    | Written | Ready

  datatype Txn =
    | PairTxn(pair: Pair, op: PairOp, pc: Pc, ov: Overlay, notes: seq<Note>,
              doneLo: nat, doneHi: nat, lo: Option<UserWrite>, hi: Option<UserWrite>)
    | SuspendTxn(user: UserId, marked: bool)
  {
    predicate HoldsPair() { PairTxn? && pc != Start && pc != Queued }
    predicate EmitsLo() requires PairTxn? { doneLo == doneHi && doneLo < |notes| }
    predicate EmitsHi() requires PairTxn? { doneHi < doneLo }
    predicate Finished() { if PairTxn? then pc == Ready && !EmitsLo() && !EmitsHi() else marked }
  }

  datatype Sys = Sys(db: Db, txns: map<Id, Txn>)

  function Held(key: KeyOf, t: Txn): set<Lock> {
    match t
    case PairTxn(p, op, pc, _, _, _, _, lo, hi) =>
      (if t.HoldsPair() then {Advisory(key(p))} else {}) +
      (if op.Meet? && pc != Start then {Advisory(QUEUE_KEY)} else {}) +
      (if lo.Some? then {Account(p.lo)} else {}) +
      (if hi.Some? then {Account(p.hi)} else {})
    case SuspendTxn(u, marked) => if marked then {Account(u)} else {}
  }

  /** The lock the next statement takes, if it takes one. */
  function Wants(key: KeyOf, t: Txn): Option<Lock> {
    match t
    case PairTxn(p, op, pc, _, _, _, _, _, _) =>
      if t.EmitsLo() then Some(Account(p.lo))
      else if t.EmitsHi() then Some(Account(p.hi))
      else if pc == Start then Some(Advisory(if op.Meet? then QUEUE_KEY else key(p)))
      else if pc == Queued then Some(Advisory(key(p)))
      else None
    case SuspendTxn(u, marked) => if marked then None else Some(Account(u))
  }

  predicate Free(key: KeyOf, s: Sys, id: Id, lock: Lock) {
    forall j :: j in s.txns && j != id ==> lock !in Held(key, s.txns[j])
  }

  predicate Waiting(key: KeyOf, s: Sys, id: Id)
    requires id in s.txns
  {
    Wants(key, s.txns[id]).Some? && !Free(key, s, id, Wants(key, s.txns[id]).value)
  }

  // ----- statements -----------------------------------------------------------

  datatype Next = Go(txn: Txn) | Fail

  /** Allocate the next event of one account: the updated counter and the new row. */
  function Allocate(u: UserRow, mine: Option<UserWrite>, p: Pair, n: Note): UserWrite {
    var seen := if mine.Some? then mine.value else UserWrite(u.eventSeq, []);
    UserWrite(seen.eventSeq + 1, seen.rows + [Event(seen.eventSeq + 1, n.kind, ConvId(p, n.origin))])
  }

  /** The conversations `after` changes. */
  function Changed(before: map<Origin, Conv>, after: map<Origin, Conv>): map<Origin, Conv> {
    map o | o in after && (o !in before || before[o] != after[o]) :: after[o]
  }

  /** The permission read of the chat calls, over rows no lock protects as well. */
  predicate Allowed(db: Db, t: Txn, row: PairRow)
    requires t.PairTxn?
  {
    && row.blocks == {}
    && (!t.op.Meet? ==> db.BothActive(t.pair))
  }

  function Body(db: Db, t: Txn, choice: seq<Origin>): Next
    requires t.PairTxn?
  {
    var PairTxn(p, op, pc, ov, notes, _, _, _, _) := t;
    var row := View(db.Row(p), ov);
    match pc
    case Start => Go(t.(pc := if op.Meet? then Queued else Locked))
    case Queued => Go(t.(pc := Locked))
    case Locked =>
      if op.Like? then (if row.blocks != {} then Fail else Go(t.(pc := Checked)))
      else if op.Block? then
        (if ClosingOrder(row, false, choice) then Go(t.(op := Block(op.user, choice), pc := Closing(0))) else Fail)
      else if op.Unmatch? then
        (if ClosingOrder(row, true, choice) then Go(t.(op := Unmatch(op.matchId, choice), pc := Closing(0))) else Fail)
      else if Allowed(db, t, row) then Go(t.(pc := Checked)) else Fail
    case Checked =>
      if op.Like? then Go(t.(ov := ov.(likes := ov.likes[op.from := true]), pc := Liked))
      else
        var out := Perform(p, row, op);
        if out.Refused? then Fail
        else Go(t.(ov := ov.(convs := Changed(row.convs, out.row.convs)), notes := out.notes, pc := Written))
    case Liked =>
      if !op.Like? then Fail else
      var seen := p.Peer(op.from) in row.likes;
      Go(t.(op := op.(seen := seen), pc := if seen then Mutual else Ready))
    case Mutual =>
      if !op.Like? then Fail else
      var id := if row.matched.Some? then row.matched.value else op.matchId;
      Go(t.(ov := ov.(matched := Some(Some(id))), pc := Matched))
    case Matched =>
      if !op.Like? then Fail else
      var (made, news) := EnsureMatch(p, row, op.now);
      Go(t.(ov := ov.(convs := Changed(row.convs, made.convs)), notes := news, pc := Ensured))
    case Ensured => Go(t.(ov := ov.(likes := ov.likes[p.lo := false][p.hi := false]), pc := Ready))
    case Closing(i) =>
      if !op.Block? && !op.Unmatch? then Fail
      else if i < |op.order| then
        if op.order[i] !in row.convs then Fail
        else Go(t.(ov := ov.(convs := ov.convs[op.order[i] := row.convs[op.order[i]].(state := Closed)]),
                   notes := notes + [Note(op.order[i], ConversationAccess)], pc := Closing(i + 1)))
      else if op.Block? then Go(t.(ov := ov.(blocks := ov.blocks[op.user := true]), pc := Walled))
      else Go(t.(ov := if row.matched == Some(op.matchId) then ov.(matched := Some(None)) else ov, pc := Severed))
    case Walled => Go(t.(ov := ov.(matched := Some(None)), pc := Severed))
    case Severed => Go(t.(ov := ov.(likes := ov.likes[p.lo := false][p.hi := false]), pc := Ready))
    case Written => if Announces(notes) && !db.BothActive(p) then Fail else Go(t.(pc := Ready))
    case Ready => Fail
  }

  /** One statement of one transaction. Emit's two statements per note run before the body goes on. */
  function Statement(db: Db, t: Txn, choice: seq<Origin>): Next {
    match t
    case SuspendTxn(u, marked) => if u in db.users then Go(t.(marked := true)) else Fail
    case PairTxn(p, _, _, _, notes, doneLo, doneHi, lo, hi) =>
      if !db.Knows(p) then Fail
      else if t.EmitsLo() then
        Go(t.(lo := Some(Allocate(db.users[p.lo], lo, p, notes[doneLo])), doneLo := doneLo + 1))
      else if t.EmitsHi() && doneHi < |notes| then
        Go(t.(hi := Some(Allocate(db.users[p.hi], hi, p, notes[doneHi])), doneHi := doneHi + 1))
      else Body(db, t, choice)
  }

  function Flush(users: map<UserId, UserRow>, u: UserId, w: Option<UserWrite>): map<UserId, UserRow> {
    if w.None? || u !in users then users
    else users[u := users[u].(eventSeq := w.value.eventSeq, rows := users[u].rows + w.value.rows)]
  }

  function Publish(db: Db, t: Txn): Db {
    match t
    case PairTxn(p, _, _, ov, _, _, _, lo, hi) =>
      Db(Flush(Flush(db.users, p.lo, lo), p.hi, hi), db.pairs[p := View(db.Row(p), ov)])
    case SuspendTxn(u, _) =>
      if u in db.users then db.(users := db.users[u := db.users[u].(active := false)]) else db
  }

  // ----- the machine ----------------------------------------------------------

  datatype Tick =
    | Begin(id: Id, pair: Pair, op: PairOp)
    | BeginSuspend(id: Id, user: UserId)
    | Advance(id: Id, choice: seq<Origin>)
    | Commit(id: Id)
    | Abort(id: Id)
    | Alone(step: Step)

  predicate WritesRow(t: Txn, p: Pair, op: PairOp) {
    && t.PairTxn? && t.pair == p
    && ((op.RemoveLike? && op.sender in t.ov.likes) || (op.Unblock? && op.user in t.ov.blocks))
  }

  /** Whether another transaction has an uncommitted write on the row this statement deletes. */
  predicate RowWritten(s: Sys, step: Step) {
    step.OnPair? && exists j :: j in s.txns && WritesRow(s.txns[j], step.pair, step.op)
  }

  /** Statements that commit on their own, without an advisory lock. */
  predicate RunsAlone(step: Step) {
    step.Prune? || step.Join? || (step.OnPair? && (step.op.RemoveLike? || step.op.Unblock?))
  }

  /** What the call reads before it locks the pair: the match it ends, or the thread it names. */
  predicate Found(db: Db, p: Pair, op: PairOp) {
    && p.Ordered() && db.Knows(p) && p.Has(op.Caller(p))
    && !op.RemoveLike? && !op.Unblock?
    && (op.Unmatch? ==> db.Row(p).matched == Some(op.matchId))
    && (op.Send? || op.Receipt? || op.Act? ==> op.origin in db.Row(p).convs)
  }

  function Tock(key: KeyOf, s: Sys, tick: Tick): Option<Sys> {
    match tick
    case Begin(id, p, op) =>
      if id in s.txns || !Found(s.db, p, op) then None
      else Some(s.(txns := s.txns[id := PairTxn(p, op, Start, NO_WRITES, [], 0, 0, None, None)]))
    case BeginSuspend(id, u) =>
      if id in s.txns || u !in s.db.users then None
      else Some(s.(txns := s.txns[id := SuspendTxn(u, false)]))
    case Advance(id, choice) =>
      if id !in s.txns || Waiting(key, s, id) || s.txns[id].Finished() then None
      else
        (match Statement(s.db, s.txns[id], choice)
         case Go(t) => Some(s.(txns := s.txns[id := t]))
         case Fail => Some(s.(txns := s.txns - {id})))
    case Commit(id) =>
      if id !in s.txns || !s.txns[id].Finished() then None
      else Some(Sys(Publish(s.db, s.txns[id]), s.txns - {id}))
    case Abort(id) =>
      if id !in s.txns then None else Some(s.(txns := s.txns - {id}))
    case Alone(step) =>
      if !RunsAlone(step) || RowWritten(s, step) || Apply(s.db, step).None? then None
      else Some(s.(db := Apply(s.db, step).value))
  }

  const EMPTY_SYS := Sys(EMPTY_DB, map[])

  function RunSys(key: KeyOf, s: Sys, ticks: seq<Tick>): Option<Sys>
    decreases |ticks|
  {
    if |ticks| == 0 then Some(s)
    else
      var before := RunSys(key, s, ticks[..|ticks| - 1]);
      if before.None? then None else Tock(key, before.value, ticks[|ticks| - 1])
  }

  /** The atomic steps a tick amounts to: one at a commit or a lone statement, else none. */
  function Linear(s: Sys, tick: Tick): seq<Step> {
    match tick
    case Commit(id) =>
      if id !in s.txns then []
      else if s.txns[id].PairTxn? then [OnPair(s.txns[id].pair, s.txns[id].op)]
      else [Suspend(s.txns[id].user)]
    case Alone(step) => [step]
    case _ => []
  }

  /** The committed transactions of an interleaving, in commit order. */
  function Linearized(key: KeyOf, s: Sys, ticks: seq<Tick>): seq<Step>
    decreases |ticks|
  {
    if |ticks| == 0 then []
    else
      var init := ticks[..|ticks| - 1];
      var before := RunSys(key, s, init);
      Linearized(key, s, init) + (if before.None? then [] else Linear(before.value, ticks[|ticks| - 1]))
  }
}
