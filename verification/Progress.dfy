/** The lock order: queue key, then one pair key, then accounts in id order. */
module Progress {
  import opened Rows
  import opened ChatLog
  import opened Steps
  import opened Interleaving
  import opened Isolation

  /** hashtext returns an int4. */
  ghost predicate Int4(key: KeyOf) { forall p: Pair :: -0x8000_0000 <= key(p) < 0x8000_0000 }

  /** The queue key is out of reach of every pair key. */
  lemma QueueKeyIsNoPairKey(key: KeyOf, p: Pair)
    requires Int4(key)
    ensures Advisory(key(p)) != Advisory(QUEUE_KEY)
  {
    assert key(p) < 0x8000_0000;
  }

  /** Locks are taken in lexicographic order of (class, id). */
  function Class(lock: Lock): int {
    match lock
    case Advisory(k) => if k == QUEUE_KEY then 0 else 1
    case Account(_) => 2
  }

  function Number(lock: Lock): int {
    match lock
    case Advisory(_) => 0
    case Account(u) => u
  }

  predicate Below(a: Lock, b: Lock) {
    Class(a) < Class(b) || (Class(a) == Class(b) && Number(a) < Number(b))
  }

  /** A statement only ever takes a lock above all those its transaction holds. */
  lemma LocksAscend(key: KeyOf, db: Db, t: Txn, held: Lock)
    requires Int4(key) && TxnInv(db, t) && Wants(key, t).Some?
    requires held in Held(key, t)
    ensures Wants(key, t).value in Held(key, t) || Below(held, Wants(key, t).value)
  {
    if t.PairTxn? {
      QueueKeyIsNoPairKey(key, t.pair);
    }
  }

  /** Among transactions that all want a lock, one wants a lock no other's lies above. */
  lemma {:induction false} SomeHighest(key: KeyOf, s: Sys, ids: set<Id>) returns (top: Id)
    requires |ids| > 0
    requires forall i :: i in ids ==> i in s.txns && Wants(key, s.txns[i]).Some?
    ensures top in ids
    ensures forall i :: i in ids ==> !Below(Wants(key, s.txns[top]).value, Wants(key, s.txns[i]).value)
    decreases |ids|
  {
    var one := Member(ids);
    if ids == {one} {
      top := one;
    } else {
      var rest := ids - {one};
      assert |rest| < |ids|;
      assert rest != {};
      var best := SomeHighest(key, s, rest);
      var a, b := Wants(key, s.txns[one]).value, Wants(key, s.txns[best]).value;
      top := if Below(b, a) then one else best;
      forall i | i in ids ensures !Below(Wants(key, s.txns[top]).value, Wants(key, s.txns[i]).value) {
        if i != one { assert i in rest; }
      }
    }
  }

  /** The queue lock is held from a join's first read to its commit, so joins are one after another. */
  lemma JoinsAreSerial(key: KeyOf, s: Sys, i: Id, j: Id)
    requires SysInv(key, s) && i in s.txns && j in s.txns && i != j
    requires s.txns[i].PairTxn? && s.txns[i].op.Meet? && s.txns[j].PairTxn? && s.txns[j].op.Meet?
    ensures s.txns[i].pc == Start || s.txns[j].pc == Start
  {
    assert Held(key, s.txns[i]) !! Held(key, s.txns[j]);
    assert s.txns[i].pc != Start ==> Advisory(QUEUE_KEY) in Held(key, s.txns[i]);
  }

  // ----- conversation rows ----------------------------------------------------

  /** Statements that lock conversation rows without writing them: ClosePair's selection and
      the second read of `access`, both `for update`. */
  predicate SelectsForUpdate(t: Txn) {
    t.PairTxn? && t.pc == Locked && !t.op.Like? && !t.op.Meet?
  }

  /** The next statement locks or writes this conversation's row. */
  predicate Touches(db: Db, t: Txn, choice: seq<Origin>, id: ConvId) {
    && t.PairTxn? && id.pair == t.pair
    && (|| SelectsForUpdate(t)
        || match Statement(db, t, choice)
           case Fail => false
           case Go(t') => t'.PairTxn? && id.origin in Changed(t.ov.convs, t'.ov.convs))
  }

  /** A transaction has this conversation's row: it wrote it, or may have locked it. */
  predicate HasRow(t: Txn, id: ConvId) {
    t.PairTxn? && id.pair == t.pair && (id.origin in t.ov.convs || t.HoldsPair())
  }

  /** Every statement that locks or writes a conversation row runs under the pair's lock. */
  lemma TouchingNeedsThePair(db: Db, t: Txn, choice: seq<Origin>, id: ConvId)
    requires Touches(db, t, choice, id)
    ensures t.HoldsPair()
  {
  }

  /** And nothing that runs without it changes a conversation. */
  lemma LoneStatementsChangeNoConversation(db: Db, step: Step, p: Pair)
    requires RunsAlone(step) && Apply(db, step).Some?
    ensures Apply(db, step).value.Row(p).convs == db.Row(p).convs
  {
  }

  /** So nobody waits for a conversation row: no other transaction has it. */
  lemma ConversationRowsAreFree(key: KeyOf, s: Sys, i: Id, j: Id, choice: seq<Origin>, id: ConvId)
    requires SysInv(key, s) && i in s.txns && j in s.txns && i != j
    requires Touches(s.db, s.txns[i], choice, id)
    ensures !HasRow(s.txns[j], id)
  {
    TouchingNeedsThePair(s.db, s.txns[i], choice, id);
    assert Advisory(key(s.txns[i].pair)) in Held(key, s.txns[i]);
    assert Held(key, s.txns[i]) !! Held(key, s.txns[j]);
    assert TxnInv(s.db, s.txns[j]);
  }

  // ----- progress -------------------------------------------------------------

  lemma HeldIsFree(key: KeyOf, s: Sys, id: Id, lock: Lock)
    requires Exclusive(key, s) && id in s.txns && lock in Held(key, s.txns[id])
    ensures Free(key, s, id, lock)
  {
    forall j | j in s.txns && j != id ensures lock !in Held(key, s.txns[j]) {
      assert Held(key, s.txns[id]) !! Held(key, s.txns[j]);
    }
  }

  /** Whoever holds the highest lock wanted wants nothing held, so it is not waiting. */
  lemma HighestIsFree(key: KeyOf, s: Sys, top: Id)
    requires Int4(key) && SysInv(key, s) && top in s.txns && Waiting(key, s, top)
    requires forall i :: i in s.txns ==> Wants(key, s.txns[i]).Some?
    requires forall i :: i in s.txns ==> !Below(Wants(key, s.txns[top]).value, Wants(key, s.txns[i]).value)
    ensures exists id :: id in s.txns && !Waiting(key, s, id)
  {
    var wanted := Wants(key, s.txns[top]).value;
    var holder :| holder in s.txns && holder != top && wanted in Held(key, s.txns[holder]);
    LocksAscend(key, s.db, s.txns[holder], wanted);
    HeldIsFree(key, s, holder, Wants(key, s.txns[holder]).value);
  }

  lemma SomeoneIsNotWaiting(key: KeyOf, s: Sys)
    requires Int4(key) && SysInv(key, s) && s.txns != map[]
    ensures exists id :: id in s.txns && !Waiting(key, s, id)
  {
    if forall id :: id in s.txns ==> Waiting(key, s, id) {
      assert s.txns.Keys != {};
      var top := SomeHighest(key, s, s.txns.Keys);
      HighestIsFree(key, s, top);
      assert false;
    }
  }

  predicate Ends(t: Txn) { t.PairTxn? && (t.op.Block? || t.op.Unmatch?) && t.pc == Locked }

  function Only(o: Origin, keep: bool): seq<Origin> { if keep then [o] else [] }

  /** An order in which ClosePair can find the pair's conversations. */
  function AnOrder(row: PairRow, datingOnly: bool): seq<Origin> {
    Only(Match, Match in row.convs && row.convs[Match].Live())
    + Only(Request, !datingOnly && Request in row.convs && row.convs[Request].Live())
    + Only(Anonymous, !datingOnly && Anonymous in row.convs && row.convs[Anonymous].Live())
  }

  lemma AnOrderCloses(row: PairRow, datingOnly: bool)
    ensures ClosingOrder(row, datingOnly, AnOrder(row, datingOnly))
  {
    var order := AnOrder(row, datingOnly);
    forall o: Origin
      ensures o in order <==> o in row.convs && row.convs[o].Live() && (datingOnly ==> o == Match)
    {
      match o
      case Match =>
      case Request =>
      case Anonymous =>
    }
  }

  function Choice(db: Db, t: Txn): seq<Origin> {
    if Ends(t) then AnOrder(db.Row(t.pair), t.op.Unmatch?) else []
  }

  lemma SelectionSucceeds(db: Db, t: Txn)
    requires TxnInv(db, t) && Ends(t)
    ensures Statement(db, t, Choice(db, t)).Go?
  {
    NoWritesView(db.Row(t.pair));
    AnOrderCloses(db.Row(t.pair), t.op.Unmatch?);
  }

  /** A transaction that is not waiting moves: it commits or runs its next statement, and
      ClosePair's selection always succeeds. */
  lemma NotWaitingMoves(key: KeyOf, s: Sys, id: Id)
    requires SysInv(key, s) && id in s.txns && !Waiting(key, s, id)
    ensures Tock(key, s, Commit(id)).Some? || Tock(key, s, Advance(id, Choice(s.db, s.txns[id]))).Some?
    ensures Ends(s.txns[id]) ==> Statement(s.db, s.txns[id], Choice(s.db, s.txns[id])).Go?
  {
    if Ends(s.txns[id]) { SelectionSucceeds(s.db, s.txns[id]); }
  }

  /** The transaction's next move, with no conversation row it may need in anyone else's hands. */
  ghost predicate CanStep(key: KeyOf, s: Sys, id: Id)
    requires id in s.txns
  {
    && (Tock(key, s, Commit(id)).Some? || Tock(key, s, Advance(id, Choice(s.db, s.txns[id]))).Some?)
    && (Ends(s.txns[id]) ==> Statement(s.db, s.txns[id], Choice(s.db, s.txns[id])).Go?)
    && forall j, row :: j in s.txns && j != id && Touches(s.db, s.txns[id], Choice(s.db, s.txns[id]), row) ==>
         !HasRow(s.txns[j], row)
  }

  /** In every reachable state with unfinished transactions, some transaction commits or
      runs its next statement, and no other transaction has a conversation row it may need:
      there is no deadlock. */
  lemma SomeoneCanStep(key: KeyOf, s: Sys)
    requires Int4(key) && SysInv(key, s) && s.txns != map[]
    ensures exists id :: id in s.txns && CanStep(key, s, id)
  {
    SomeoneIsNotWaiting(key, s);
    var id :| id in s.txns && !Waiting(key, s, id);
    NotWaitingMoves(key, s, id);
    forall j, row | j in s.txns && j != id && Touches(s.db, s.txns[id], Choice(s.db, s.txns[id]), row)
      ensures !HasRow(s.txns[j], row)
    {
      ConversationRowsAreFree(key, s, id, j, Choice(s.db, s.txns[id]), row);
    }
    assert CanStep(key, s, id);
  }
}
