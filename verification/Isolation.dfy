/** Every interleaving is some sequence of atomic steps, in commit order. */
module Isolation {
  import opened Rows
  import opened ChatLog
  import opened Conversations
  import opened Steps
  import opened Interleaving

  // ----- what a running transaction knows -------------------------------------

  /** The private event rows are what an atomic emit would append to the committed log. */
  predicate Emitting(db: Db, u: UserId, p: Pair, notes: seq<Note>, done: nat, w: Option<UserWrite>) {
    && done <= |notes| && u in db.users
    && (w.Some? <==> done > 0)
    && (w.Some? ==> w.value == UserWrite(db.users[u].eventSeq + done, Numbered(db.users[u].eventSeq, p, notes[..done])))
  }

  function ClosedOf(convs: map<Origin, Conv>, order: seq<Origin>): map<Origin, Conv> {
    map o | o in convs && o in order :: convs[o].(state := Closed)
  }

  predicate LikeKnows(p: Pair, row: PairRow, t: Txn)
    requires t.PairTxn? && t.op.Like?
  {
    var PairTxn(_, op, pc, ov, notes, _, _, _, _) := t;
    var liked := map[op.from := true];
    var id := if row.matched.Some? then row.matched.value else op.matchId;
    var made := EnsureMatch(p, row, op.now);
    match pc
    case Start => ov == NO_WRITES && notes == []
    case Locked => ov == NO_WRITES && notes == []
    case Checked => row.blocks == {} && ov == NO_WRITES && notes == []
    case Liked => row.blocks == {} && ov == NO_WRITES.(likes := liked) && notes == []
    case Mutual => row.blocks == {} && op.seen && ov == NO_WRITES.(likes := liked) && notes == []
    case Matched =>
      row.blocks == {} && op.seen && ov == NO_WRITES.(likes := liked, matched := Some(Some(id))) && notes == []
    case Ensured =>
      && row.blocks == {} && op.seen && notes == made.1
      && ov == Overlay(liked, map[], Some(Some(id)), Changed(row.convs, made.0.convs))
    case Ready =>
      && row.blocks == {}
      && (if op.seen then
            && notes == made.1
            && ov == Overlay(liked[p.lo := false][p.hi := false], map[], Some(Some(id)),
                             Changed(row.convs, made.0.convs))
          else p.Peer(op.from) !in row.likes && notes == [] && ov == NO_WRITES.(likes := liked))
    case _ => false
  }

  /** What Block and Unmatch have written by each point. */
  predicate EndKnows(p: Pair, row: PairRow, t: Txn)
    requires t.PairTxn? && (t.op.Block? || t.op.Unmatch?)
  {
    var PairTxn(_, op, pc, ov, notes, _, _, _, _) := t;
    var closed := ClosedOf(row.convs, op.order);
    var walls := if op.Block? then map[op.user := true] else map[];
    var ended := if op.Block? || row.matched == Some(op.matchId) then Some(None) else None;
    match pc
    case Start => ov == NO_WRITES && notes == []
    case Locked => ov == NO_WRITES && notes == []
    case Closing(i) =>
      && ClosingOrder(row, op.Unmatch?, op.order) && i <= |op.order|
      && ov == NO_WRITES.(convs := ClosedOf(row.convs, op.order[..i])) && notes == CloseNotes(op.order[..i])
    case Walled =>
      && ClosingOrder(row, op.Unmatch?, op.order) && op.Block?
      && ov == Overlay(map[], walls, None, closed) && notes == CloseNotes(op.order)
    case Severed =>
      && ClosingOrder(row, op.Unmatch?, op.order)
      && ov == Overlay(map[], walls, ended, closed) && notes == CloseNotes(op.order)
    case Ready =>
      && ClosingOrder(row, op.Unmatch?, op.order)
      && ov == Overlay(map[p.lo := false, p.hi := false], walls, ended, closed) && notes == CloseNotes(op.order)
    case _ => false
  }

  predicate ChatOp(op: PairOp) {
    op.OpenMatch? || op.OpenRequest? || op.Meet? || op.Send? || op.Receipt? || op.Act?
  }

  predicate ChatKnows(p: Pair, row: PairRow, t: Txn)
    requires t.PairTxn?
  {
    var PairTxn(_, op, pc, ov, notes, _, _, _, _) := t;
    match pc
    case Start => ov == NO_WRITES && notes == []
    case Queued => op.Meet? && ov == NO_WRITES && notes == []
    case Locked => ov == NO_WRITES && notes == []
    case Checked => row.blocks == {} && ov == NO_WRITES && notes == []
    case Written =>
      row.blocks == {} && ov == NO_WRITES.(convs := ov.convs) && Perform(p, row, op) == Done(View(row, ov), notes)
    case Ready =>
      row.blocks == {} && ov == NO_WRITES.(convs := ov.convs) && Perform(p, row, op) == Done(View(row, ov), notes)
    case _ => false
  }

  predicate Knows(p: Pair, row: PairRow, t: Txn)
    requires t.PairTxn?
  {
    if t.op.Like? then LikeKnows(p, row, t)
    else if t.op.Block? || t.op.Unmatch? then EndKnows(p, row, t)
    else ChatOp(t.op) && ChatKnows(p, row, t)
  }

  predicate TxnInv(db: Db, t: Txn) {
    match t
    case SuspendTxn(u, _) => u in db.users
    case PairTxn(p, op, pc, _, notes, doneLo, doneHi, lo, hi) =>
      && p.Ordered() && p.Has(op.Caller(p))
      && Emitting(db, p.lo, p, notes, doneLo, lo)
      && Emitting(db, p.hi, p, notes, doneHi, hi)
      && doneHi <= doneLo <= doneHi + 1
      && Knows(p, db.Row(p), t)
      && (pc == Ready && Announces(notes) ==> db.BothActive(p) && lo.Some? && hi.Some?)
  }

  predicate Exclusive(key: KeyOf, s: Sys) {
    forall i, j :: i in s.txns && j in s.txns && i != j ==> Held(key, s.txns[i]) !! Held(key, s.txns[j])
  }

  predicate SysInv(key: KeyOf, s: Sys) {
    Exclusive(key, s) && forall id :: id in s.txns ==> TxnInv(s.db, s.txns[id])
  }

  // ----- other transactions cannot disturb it ---------------------------------

  predicate SameAccount(a: UserRow, b: UserRow) { a.eventSeq == b.eventSeq && a.active == b.active }

  /** How the rows a transaction relies on may still move: likes and blocks may go. */
  predicate Undisturbed(db: Db, db': Db, t: Txn) {
    && (forall u :: u in db.users ==> u in db'.users)
    && (t.PairTxn? ==>
         && (t.HoldsPair() ==> var row, row' := db.Row(t.pair), db'.Row(t.pair);
              row'.likes <= row.likes && row'.blocks <= row.blocks
              && row' == row.(likes := row'.likes, blocks := row'.blocks))
         && (t.lo.Some? ==> t.pair.lo in db.users && SameAccount(db.users[t.pair.lo], db'.users[t.pair.lo]))
         && (t.hi.Some? ==> t.pair.hi in db.users && SameAccount(db.users[t.pair.hi], db'.users[t.pair.hi])))
  }

  function WithLikes(out: Outcome, likes: set<UserId>): Outcome {
    if out.Done? then Done(out.row.(likes := likes), out.notes) else out
  }

  lemma SendIgnoresLikes(row: PairRow, likes: set<UserId>, origin: Origin, user: UserId, d: Draft, id: Id, now: int)
    ensures Conversations.Send(row.(likes := likes), origin, user, d, id, now)
         == WithLikes(Conversations.Send(row, origin, user, d, id, now), likes)
  {
  }

  /** No chat call reads or writes a like. */
  lemma ChatIgnoresLikes(p: Pair, row: PairRow, likes: set<UserId>, op: PairOp)
    requires ChatOp(op)
    ensures Perform(p, row.(likes := likes), op) == WithLikes(Perform(p, row, op), likes)
  {
    var row' := row.(likes := likes);
    match op
    case OpenMatch(user, first, id, now) =>
      var made := EnsureMatch(p, row, now).0;
      assert EnsureMatch(p, row', now).0 == made.(likes := likes);
      if first.Some? { SendIgnoresLikes(made, likes, Match, user, first.value, id, now); }
    case OpenRequest(user, d, id, now) =>
      var asked := if Request in row.convs then row
                   else row.(convs := row.convs[Request := NewConv(p, Pending, Some(user), now)]);
      SendIgnoresLikes(asked, likes, Request, user, d, id, now);
    case Send(user, origin, d, id, now) => SendIgnoresLikes(row, likes, origin, user, d, id, now);
    case _ =>
  }

  lemma ChatView(row: PairRow, ov: Overlay)
    requires ov == NO_WRITES.(convs := ov.convs)
    ensures View(row, ov) == row.(convs := row.convs + ov.convs)
  {
    assert Patched(row.likes, map[]) == row.likes;
    assert Patched(row.blocks, map[]) == row.blocks;
  }

  lemma KnowledgeStays(p: Pair, row: PairRow, row': PairRow, t: Txn)
    requires t.PairTxn? && Knows(p, row, t)
    requires row'.likes <= row.likes && row'.blocks <= row.blocks
    requires row' == row.(likes := row'.likes, blocks := row'.blocks)
    ensures Knows(p, row', t)
  {
    if t.op.Like? {
      assert EnsureMatch(p, row', t.op.now).1 == EnsureMatch(p, row, t.op.now).1;
    } else if ChatOp(t.op) && (t.pc == Written || t.pc == Ready) {
      ChatIgnoresLikes(p, row, row'.likes, t.op);
      assert row'.blocks == {};
      assert row' == row.(likes := row'.likes);
      ChatView(row, t.ov);
      ChatView(row', t.ov);
    }
  }

  lemma StaysTrue(db: Db, db': Db, t: Txn)
    requires TxnInv(db, t) && Undisturbed(db, db', t)
    ensures TxnInv(db', t)
  {
    if t.PairTxn? {
      if t.HoldsPair() {
        KnowledgeStays(t.pair, db.Row(t.pair), db'.Row(t.pair), t);
      }
    }
  }

  // ----- its own statements ---------------------------------------------------

  lemma NoWritesView(row: PairRow)
    ensures View(row, NO_WRITES) == row
  {
    assert Patched(row.likes, map[]) == row.likes;
    assert Patched(row.blocks, map[]) == row.blocks;
    assert row.convs + map[] == row.convs;
  }

  lemma ChangedCompletes(before: map<Origin, Conv>, after: map<Origin, Conv>)
    requires before.Keys <= after.Keys
    ensures before + Changed(before, after) == after
  {
  }

  lemma BothDeleted(p: Pair, base: set<UserId>, from: UserId)
    requires p.Has(from)
    ensures map[from := true][p.lo := false][p.hi := false] == map[p.lo := false, p.hi := false]
    ensures Patched(base, map[p.lo := false, p.hi := false]) == base - {p.lo, p.hi}
  {
    assert map[p.lo := false, p.hi := false].Keys == {p.lo, p.hi};
  }

  lemma AllocateNext(db: Db, u: UserId, p: Pair, notes: seq<Note>, done: nat, w: Option<UserWrite>)
    requires Emitting(db, u, p, notes, done, w) && done < |notes|
    ensures Emitting(db, u, p, notes, done + 1, Some(Allocate(db.users[u], w, p, notes[done])))
  {
    var base := db.users[u].eventSeq;
    var rows := if w.Some? then w.value.rows else [];
    assert rows == Numbered(base, p, notes[..done]);
    assert rows + [Event(base + done + 1, notes[done].kind, ConvId(p, notes[done].origin))]
        == Numbered(base, p, notes[..done + 1]);
  }

  lemma EmittingMore(db: Db, u: UserId, p: Pair, notes: seq<Note>, longer: seq<Note>, done: nat, w: Option<UserWrite>)
    requires Emitting(db, u, p, notes, done, w) && notes <= longer
    ensures Emitting(db, u, p, longer, done, w)
  {
    assert longer[..done] == notes[..done];
  }

  lemma LikeBody(db: Db, t: Txn, choice: seq<Origin>)
    requires t.PairTxn? && t.op.Like? && LikeKnows(t.pair, db.Row(t.pair), t)
    requires t.pair.Has(t.op.from) && t.pair.Ordered()
    requires Body(db, t, choice).Go?
    ensures var t' := Body(db, t, choice).txn;
            t'.op.Like? && t'.op.from == t.op.from && LikeKnows(t.pair, db.Row(t.pair), t')
  {
    var row := db.Row(t.pair);
    NoWritesView(row);
    match t.pc
    case Liked =>
      assert t.pair.Peer(t.op.from) != t.op.from;
    case Matched =>
      assert View(row, t.ov).convs == row.convs;
    case _ =>
  }

  lemma CloseOneMore(row: PairRow, order: seq<Origin>, i: nat, datingOnly: bool)
    requires ClosingOrder(row, datingOnly, order) && i < |order|
    ensures order[i] in row.convs && order[i] !in ClosedOf(row.convs, order[..i])
    ensures ClosedOf(row.convs, order[..i + 1])
         == ClosedOf(row.convs, order[..i])[order[i] := row.convs[order[i]].(state := Closed)]
    ensures CloseNotes(order[..i + 1]) == CloseNotes(order[..i]) + [Note(order[i], ConversationAccess)]
  {
    assert order[i] in order;
    assert order[..i + 1] == order[..i] + [order[i]];
  }

  lemma EndBody(db: Db, t: Txn, choice: seq<Origin>)
    requires t.PairTxn? && (t.op.Block? || t.op.Unmatch?) && EndKnows(t.pair, db.Row(t.pair), t)
    requires Body(db, t, choice).Go?
    ensures var t' := Body(db, t, choice).txn;
            && t'.op.Block? == t.op.Block? && t'.op.Unmatch? == t.op.Unmatch?
            && t'.op.Caller(t.pair) == t.op.Caller(t.pair)
            && EndKnows(t.pair, db.Row(t.pair), t')
  {
    var row := db.Row(t.pair);
    NoWritesView(row);
    match t.pc
    case Locked =>
      assert ClosedOf(row.convs, choice[..0]) == map[];
    case Closing(i) =>
      if i < |t.op.order| {
        CloseOneMore(row, t.op.order, i, t.op.Unmatch?);
      } else {
        assert t.op.order[..i] == t.op.order;
      }
    case _ =>
  }

  lemma ChatWritesConvs(p: Pair, row: PairRow, op: PairOp)
    requires ChatOp(op) && Perform(p, row, op).Done?
    ensures var after := Perform(p, row, op).row;
            after == row.(convs := after.convs) && row.convs.Keys <= after.convs.Keys
  {
  }

  lemma ChatBody(db: Db, t: Txn, choice: seq<Origin>)
    requires t.PairTxn? && ChatOp(t.op) && ChatKnows(t.pair, db.Row(t.pair), t)
    requires Body(db, t, choice).Go?
    ensures var t' := Body(db, t, choice).txn;
            t'.op == t.op && ChatKnows(t.pair, db.Row(t.pair), t')
  {
    var row := db.Row(t.pair);
    NoWritesView(row);
    if t.pc == Checked {
      var out := Perform(t.pair, row, t.op);
      ChatWritesConvs(t.pair, row, t.op);
      ChangedCompletes(row.convs, out.row.convs);
      ChatView(row, NO_WRITES.(convs := Changed(row.convs, out.row.convs)));
    }
  }

  lemma KnowsButEmits(p: Pair, row: PairRow, t: Txn, t': Txn)
    requires t.PairTxn? && Knows(p, row, t) && t'.PairTxn?
    requires t' == t.(doneLo := t'.doneLo, doneHi := t'.doneHi, lo := t'.lo, hi := t'.hi)
    ensures Knows(p, row, t')
  {
  }

  lemma BodyKnows(db: Db, t: Txn, choice: seq<Origin>)
    requires t.PairTxn? && Knows(t.pair, db.Row(t.pair), t) && t.pair.Ordered() && t.pair.Has(t.op.Caller(t.pair))
    requires Body(db, t, choice).Go?
    ensures Body(db, t, choice).txn.PairTxn? && Knows(t.pair, db.Row(t.pair), Body(db, t, choice).txn)
  {
    if t.op.Like? { LikeBody(db, t, choice); }
    else if t.op.Block? || t.op.Unmatch? { EndBody(db, t, choice); }
    else { ChatBody(db, t, choice); }
  }

  /** What no statement of the body touches. */
  predicate SameButOwn(t: Txn, t': Txn)
    requires t.PairTxn?
  {
    && t'.PairTxn? && t'.pair == t.pair && t.notes <= t'.notes
    && t'.doneLo == t.doneLo && t'.doneHi == t.doneHi && t'.lo == t.lo && t'.hi == t.hi
    && t'.op.Caller(t.pair) == t.op.Caller(t.pair)
  }

  lemma LikeNotes(db: Db, t: Txn, choice: seq<Origin>)
    requires t.PairTxn? && t.op.Like? && LikeKnows(t.pair, db.Row(t.pair), t) && Body(db, t, choice).Go?
    ensures SameButOwn(t, Body(db, t, choice).txn)
  {
  }

  lemma EndNotes(db: Db, t: Txn, choice: seq<Origin>)
    requires t.PairTxn? && (t.op.Block? || t.op.Unmatch?) && EndKnows(t.pair, db.Row(t.pair), t)
    requires Body(db, t, choice).Go?
    ensures SameButOwn(t, Body(db, t, choice).txn)
  {
  }

  lemma ChatNotes(db: Db, t: Txn, choice: seq<Origin>)
    requires t.PairTxn? && ChatOp(t.op) && ChatKnows(t.pair, db.Row(t.pair), t) && Body(db, t, choice).Go?
    ensures SameButOwn(t, Body(db, t, choice).txn)
  {
  }

  lemma NotesGrow(db: Db, t: Txn, choice: seq<Origin>)
    requires TxnInv(db, t) && t.PairTxn? && Body(db, t, choice).Go?
    ensures SameButOwn(t, Body(db, t, choice).txn)
  {
    if t.op.Like? { LikeNotes(db, t, choice); }
    else if t.op.Block? || t.op.Unmatch? { EndNotes(db, t, choice); }
    else { ChatNotes(db, t, choice); }
  }

  /** Only chat calls store messages. */
  lemma QuietNotes(p: Pair, row: PairRow, t: Txn)
    requires t.PairTxn? && Knows(p, row, t) && !ChatOp(t.op)
    ensures !Announces(t.notes)
  {
  }

  /** A transaction with a message to announce gets ready only past its second account check. */
  lemma ReadyIsActive(db: Db, t: Txn, choice: seq<Origin>)
    requires TxnInv(db, t) && t.PairTxn? && !t.EmitsLo() && !t.EmitsHi() && t.pc != Ready
    requires Body(db, t, choice).Go? && Body(db, t, choice).txn.pc == Ready
    requires Announces(Body(db, t, choice).txn.notes)
    ensures db.BothActive(t.pair) && Body(db, t, choice).txn.lo.Some? && Body(db, t, choice).txn.hi.Some?
  {
    BodyKnows(db, t, choice);
    if !ChatOp(t.op) {
      NotesGrow(db, t, choice);
      QuietNotes(t.pair, db.Row(t.pair), Body(db, t, choice).txn);
    }
  }

  lemma BodyKeeps(db: Db, t: Txn, choice: seq<Origin>)
    requires TxnInv(db, t) && t.PairTxn? && !t.EmitsLo() && !t.EmitsHi() && t.pc != Ready
    requires Body(db, t, choice).Go?
    ensures TxnInv(db, Body(db, t, choice).txn)
  {
    var t' := Body(db, t, choice).txn;
    BodyKnows(db, t, choice);
    NotesGrow(db, t, choice);
    EmittingMore(db, t.pair.lo, t.pair, t.notes, t'.notes, t.doneLo, t.lo);
    EmittingMore(db, t.pair.hi, t.pair, t.notes, t'.notes, t.doneHi, t.hi);
    if t'.pc == Ready && Announces(t'.notes) { ReadyIsActive(db, t, choice); }
  }

  /** A statement keeps what its transaction relies on. */
  lemma StatementKeeps(db: Db, t: Txn, choice: seq<Origin>)
    requires TxnInv(db, t) && !t.Finished()
    requires Statement(db, t, choice).Go?
    ensures TxnInv(db, Statement(db, t, choice).txn)
  {
    if t.PairTxn? {
      var t' := Statement(db, t, choice).txn;
      var p := t.pair;
      if t.EmitsLo() {
        AllocateNext(db, p.lo, p, t.notes, t.doneLo, t.lo);
        KnowsButEmits(p, db.Row(p), t, t');
      } else if t.EmitsHi() {
        AllocateNext(db, p.hi, p, t.notes, t.doneHi, t.hi);
        KnowsButEmits(p, db.Row(p), t, t');
      } else {
        BodyKeeps(db, t, choice);
      }
    }
  }

  // ----- commit ---------------------------------------------------------------

  lemma FlushIsAppend(db: Db, u: UserId, p: Pair, notes: seq<Note>, w: Option<UserWrite>)
    requires Emitting(db, u, p, notes, |notes|, w)
    ensures Flush(db.users, u, w) == db.users[u := Append(db.users[u], p, notes)]
  {
    assert notes[..|notes|] == notes;
    assert Append(db.users[u], p, []) == db.users[u] by {
      assert db.users[u].rows + Numbered(db.users[u].eventSeq, p, []) == db.users[u].rows;
    }
  }

  lemma FlushBoth(db: Db, t: Txn)
    requires TxnInv(db, t) && t.PairTxn? && t.Finished()
    ensures db.Knows(t.pair)
    ensures Flush(Flush(db.users, t.pair.lo, t.lo), t.pair.hi, t.hi) == EmitAll(db.users, t.pair, t.notes)
  {
    var p := t.pair;
    FlushIsAppend(db, p.lo, p, t.notes, t.lo);
    FlushIsAppend(db.(users := Flush(db.users, p.lo, t.lo)), p.hi, p, t.notes, t.hi);
  }

  lemma LikeRow(p: Pair, row: PairRow, t: Txn)
    requires p.Ordered() && t.PairTxn? && t.op.Like? && p.Has(t.op.from) && LikeKnows(p, row, t) && t.pc == Ready
    ensures Admissible(p, row, t.op) && Perform(p, row, t.op) == Done(View(row, t.ov), t.notes)
  {
    assert Patched(row.blocks, map[]) == row.blocks;
    if t.op.seen {
      var made := EnsureMatch(p, row, t.op.now).0;
      BothDeleted(p, row.likes, t.op.from);
      ChangedCompletes(row.convs, made.convs);
    } else {
      assert Patched(row.likes, map[t.op.from := true]) == row.likes + {t.op.from};
      assert row.convs + map[] == row.convs;
    }
  }

  lemma EndRow(p: Pair, row: PairRow, t: Txn)
    requires p.Ordered() && t.PairTxn? && (t.op.Block? || t.op.Unmatch?) && p.Has(t.op.Caller(p))
    requires EndKnows(p, row, t) && t.pc == Ready
    ensures Admissible(p, row, t.op) && Perform(p, row, t.op) == Done(View(row, t.ov), t.notes)
  {
    BothDeleted(p, row.likes, p.lo);
    assert row.convs + ClosedOf(row.convs, t.op.order) == CloseAll(row.convs, t.op.order);
    if t.op.Block? {
      assert Patched(row.blocks, map[t.op.user := true]) == row.blocks + {t.op.user};
    } else {
      assert Patched(row.blocks, map[]) == row.blocks;
    }
  }

  /** A commit is the transaction performed at that instant. */
  lemma CommitIsAStep(db: Db, t: Txn)
    requires TxnInv(db, t) && t.Finished()
    ensures Apply(db, if t.PairTxn? then OnPair(t.pair, t.op) else Suspend(t.user)) == Some(Publish(db, t))
  {
    if t.PairTxn? {
      var p, row := t.pair, db.Row(t.pair);
      FlushBoth(db, t);
      if t.op.Like? { LikeRow(p, row, t); }
      else if t.op.Block? || t.op.Unmatch? { EndRow(p, row, t); }
    }
  }

  // ----- the machine ----------------------------------------------------------

  lemma HeldGrows(key: KeyOf, db: Db, t: Txn, choice: seq<Origin>)
    requires TxnInv(db, t) && !t.Finished() && Statement(db, t, choice).Go?
    ensures Held(key, Statement(db, t, choice).txn)
         <= Held(key, t) + if Wants(key, t).Some? then {Wants(key, t).value} else {}
  {
    if t.PairTxn? && !t.EmitsLo() && !t.EmitsHi() && t.pc != Ready && Body(db, t, choice).Go? {
      NotesGrow(db, t, choice);
    }
  }

  /** The accounts whose rows this transaction has written. */
  function Writes(t: Txn): set<UserId> {
    match t
    case PairTxn(p, _, _, _, _, _, _, lo, hi) => (if lo.Some? then {p.lo} else {}) + (if hi.Some? then {p.hi} else {})
    case SuspendTxn(u, marked) => if marked then {u} else {}
  }

  lemma Apart(key: KeyOf, t: Txn, other: Txn)
    requires Held(key, t) !! Held(key, other) && t.PairTxn? && other.PairTxn? && t.pc == Ready
    ensures other.HoldsPair() ==> other.pair != t.pair
    ensures forall u :: u in Writes(t) ==>
      !(other.lo.Some? && other.pair.lo == u) && !(other.hi.Some? && other.pair.hi == u)
  {
    assert Advisory(key(t.pair)) in Held(key, t);
    if other.HoldsPair() { assert Advisory(key(other.pair)) in Held(key, other); }
    forall u | u in Writes(t)
      ensures !(other.lo.Some? && other.pair.lo == u) && !(other.hi.Some? && other.pair.hi == u)
    {
      assert Account(u) in Held(key, t);
      assert Account(u) !in Held(key, other);
    }
  }

  lemma PublishTouches(db: Db, t: Txn)
    requires TxnInv(db, t) && t.Finished()
    ensures var db' := Publish(db, t);
            && db'.users.Keys == db.users.Keys
            && (forall u :: u in db.users && u !in Writes(t) ==> db'.users[u] == db.users[u])
            && (forall p :: (t.PairTxn? ==> p != t.pair) ==> db'.Row(p) == db.Row(p))
  {
  }

  lemma CommitUndisturbed(key: KeyOf, s: Sys, id: Id, j: Id)
    requires SysInv(key, s) && id in s.txns && j in s.txns && id != j && s.txns[id].Finished()
    ensures Undisturbed(s.db, Publish(s.db, s.txns[id]), s.txns[j])
  {
    var t, other := s.txns[id], s.txns[j];
    assert Held(key, t) !! Held(key, other);
    PublishTouches(s.db, t);
    if other.PairTxn? {
      if t.PairTxn? { Apart(key, t, other); }
      else {
        assert Account(t.user) in Held(key, t);
        if other.lo.Some? { assert Account(other.pair.lo) in Held(key, other); }
        if other.hi.Some? { assert Account(other.pair.hi) in Held(key, other); }
      }
    }
  }

  lemma AloneUndisturbed(db: Db, step: Step, t: Txn)
    requires RunsAlone(step) && Apply(db, step).Some? && TxnInv(db, t)
    ensures Undisturbed(db, Apply(db, step).value, t)
  {
    if step.OnPair? {
      var p := step.pair;
      assert Numbered(db.users[p.lo].eventSeq, p, []) == [];
    }
  }

  lemma AdvanceKeepsInv(key: KeyOf, s: Sys, id: Id, choice: seq<Origin>)
    requires SysInv(key, s) && Tock(key, s, Advance(id, choice)).Some?
    ensures SysInv(key, Tock(key, s, Advance(id, choice)).value)
  {
    if Statement(s.db, s.txns[id], choice).Go? {
      StatementKeeps(s.db, s.txns[id], choice);
      HeldGrows(key, s.db, s.txns[id], choice);
    }
  }

  lemma CommitKeepsInv(key: KeyOf, s: Sys, id: Id)
    requires SysInv(key, s) && Tock(key, s, Commit(id)).Some?
    ensures SysInv(key, Tock(key, s, Commit(id)).value)
  {
    var s' := Tock(key, s, Commit(id)).value;
    forall j | j in s'.txns ensures TxnInv(s'.db, s'.txns[j]) {
      CommitUndisturbed(key, s, id, j);
      StaysTrue(s.db, s'.db, s.txns[j]);
    }
  }

  lemma AloneKeepsInv(key: KeyOf, s: Sys, step: Step)
    requires SysInv(key, s) && Tock(key, s, Alone(step)).Some?
    ensures SysInv(key, Tock(key, s, Alone(step)).value)
  {
    var s' := Tock(key, s, Alone(step)).value;
    forall j | j in s'.txns ensures TxnInv(s'.db, s'.txns[j]) {
      AloneUndisturbed(s.db, step, s.txns[j]);
      StaysTrue(s.db, s'.db, s.txns[j]);
    }
  }

  lemma BeginKeepsInv(key: KeyOf, s: Sys, tick: Tick)
    requires SysInv(key, s) && Tock(key, s, tick).Some? && (tick.Begin? || tick.BeginSuspend?)
    ensures SysInv(key, Tock(key, s, tick).value)
  {
    assert Held(key, Tock(key, s, tick).value.txns[tick.id]) == {};
  }

  lemma TockKeepsInv(key: KeyOf, s: Sys, tick: Tick)
    requires SysInv(key, s) && Tock(key, s, tick).Some?
    ensures SysInv(key, Tock(key, s, tick).value)
  {
    match tick
    case Begin(_, _, _) => BeginKeepsInv(key, s, tick);
    case BeginSuspend(_, _) => BeginKeepsInv(key, s, tick);
    case Advance(id, choice) => AdvanceKeepsInv(key, s, id, choice);
    case Commit(id) => CommitKeepsInv(key, s, id);
    case Abort(id) =>
    case Alone(step) => AloneKeepsInv(key, s, step);
  }

  lemma TockIsLinear(key: KeyOf, s: Sys, tick: Tick)
    requires SysInv(key, s) && Tock(key, s, tick).Some?
    ensures Run(s.db, Linear(s, tick)) == Some(Tock(key, s, tick).value.db)
  {
    if tick.Commit? {
      CommitIsAStep(s.db, s.txns[tick.id]);
    }
    var steps := Linear(s, tick);
    if steps != [] {
      assert steps[..0] == [];
    }
  }
}
