/** The inbox: keyset pages, and the badge over all of them. */
module Inbox {
  import opened Rows
  import opened Invariants
  import opened Guarantees

  const PAGE := 100

  /** A row's place in the inbox: last activity, then id. */
  datatype Key = Key(at: int, conv: ConvId)

  /** The UUID behind each conversation; only its order is used. */
  type Uuids = ConvId -> int

  ghost predicate Distinct(ids: Uuids) { forall a, b :: ids(a) == ids(b) ==> a == b }

  predicate Less(ids: Uuids, a: Key, b: Key) {
    a.at < b.at || (a.at == b.at && ids(a.conv) < ids(b.conv))
  }

  predicate Under(ids: Uuids, k: Key, before: Option<Key>) { before.Some? ==> Less(ids, k, before.value) }

  predicate Descends(ids: Uuids, rows: seq<Key>) {
    forall i, j :: 0 <= i < j < |rows| ==> Less(ids, rows[j], rows[i])
  }

  /** Sorting `keys` newest first. */
  ghost predicate IsSorted(ids: Uuids, keys: set<Key>, rows: seq<Key>) {
    Descends(ids, rows) && forall k :: k in rows <==> k in keys
  }

  function Rest(ids: Uuids, keys: set<Key>, before: Option<Key>): set<Key> {
    set k | k in keys && Under(ids, k, before)
  }

  /** What the page query returns: at most one row more than a page, in inbox order. */
  ghost predicate IsQuery(ids: Uuids, keys: set<Key>, before: Option<Key>, found: seq<Key>) {
    exists rows :: IsSorted(ids, Rest(ids, keys, before), rows)
      && found == if |rows| > PAGE + 1 then rows[..PAGE + 1] else rows
  }

  /** The collected rows, cut to a page, and where the next page resumes. */
  function Cut(found: seq<Key>): (seq<Key>, Option<Key>) {
    if |found| > PAGE then (found[..PAGE], Some(found[PAGE - 1])) else (found, None)
  }

  /** A page holds exactly the visible rows between its two cursors. */
  lemma PageIsARange(ids: Uuids, keys: set<Key>, before: Option<Key>, found: seq<Key>, k: Key)
    requires Distinct(ids) && IsQuery(ids, keys, before, found)
    ensures var (page, next) := Cut(found);
            && (k in page <==> k in keys && Under(ids, k, before) && (next.Some? ==> !Less(ids, k, next.value)))
            && Descends(ids, page)
            && (next.Some? ==> next.value in page)
  {
    var rows :| IsSorted(ids, Rest(ids, keys, before), rows)
      && found == if |rows| > PAGE + 1 then rows[..PAGE + 1] else rows;
    var (page, next) := Cut(found);
    if next.Some? {
      assert page == rows[..PAGE] && next.value == rows[PAGE - 1];
      if k in page {
        var i :| 0 <= i < PAGE && rows[i] == k;
      }
      if k in rows && !Less(ids, k, next.value) {
        var i :| 0 <= i < |rows| && rows[i] == k;
        assert i < PAGE;
        assert page[i] == k;
      }
      assert page[PAGE - 1] == next.value;
    } else {
      assert page == rows;
    }
  }

  /** A page with a cursor has a visible row behind it. */
  lemma MoreBelow(ids: Uuids, keys: set<Key>, before: Option<Key>, found: seq<Key>)
    requires IsQuery(ids, keys, before, found) && |found| > PAGE
    ensures found[PAGE] in keys && Less(ids, found[PAGE], found[PAGE - 1])
  {
    var rows :| IsSorted(ids, Rest(ids, keys, before), rows)
      && found == if |rows| > PAGE + 1 then rows[..PAGE + 1] else rows;
    assert rows[PAGE] in rows && rows[PAGE] == found[PAGE] && rows[PAGE - 1] == found[PAGE - 1];
  }

  /** Collect the query's rows, cut them to a page and say where the next one resumes:
      the page holds exactly the visible rows between its two cursors, in order. */
  method CollectPage(found: seq<Key>, ghost ids: Uuids, ghost keys: set<Key>, ghost before: Option<Key>)
    returns (page: seq<Key>, next: Option<Key>)
    requires Distinct(ids) && IsQuery(ids, keys, before, found)
    ensures (page, next) == Cut(found)
    ensures forall k :: k in page <==>
      k in keys && Under(ids, k, before) && (next.Some? ==> !Less(ids, k, next.value))
    ensures Descends(ids, page) && |page| <= PAGE
    ensures next.Some? ==> |page| == PAGE && next.value == page[PAGE - 1]
    ensures next.Some? ==> exists k :: k in keys && Less(ids, k, next.value)
  {
    page := [];
    for i := 0 to |found|
      invariant page == found[..i]
    {
      page := page + [found[i]];
    }
    assert page == found;
    next := None;
    if |page| > PAGE {
      page := page[..PAGE];
      next := Some(page[PAGE - 1]);
      MoreBelow(ids, keys, before, found);
    }
    forall k { PageIsARange(ids, keys, before, found, k); }
  }

  // ----- a walk ---------------------------------------------------------------

  datatype Walk = Walk(rows: seq<Key>, next: Option<Key>, done: bool)

  function Onward(before: Walk, found: seq<Key>): Walk {
    var (page, next) := Cut(found);
    Walk(before.rows + page, next, next.None?)
  }

  /** The rows received when `found[i]` is what page i's query returned. */
  function Pages(found: seq<seq<Key>>): Walk
    decreases |found|
  {
    if |found| == 0 then Walk([], None, false)
    else Onward(Pages(found[..|found| - 1]), found[|found| - 1])
  }

  /** Each page was read from what was visible at that moment, resuming at the last cursor. */
  ghost predicate Walked(ids: Uuids, visible: seq<set<Key>>, found: seq<seq<Key>>)
    requires |visible| == |found|
    decreases |found|
  {
    |found| > 0 ==>
      var n := |found| - 1;
      && Walked(ids, visible[..n], found[..n])
      && !Pages(found[..n]).done
      && IsQuery(ids, visible[n], Pages(found[..n]).next, found[n])
  }

  ghost predicate Always(visible: seq<set<Key>>, k: Key) { forall i :: 0 <= i < |visible| ==> k in visible[i] }

  /** The rows descend, so none repeats; the cursor is at or below all of them; a row
      visible at every read and not below the cursor is among them. */
  ghost predicate Lossless(ids: Uuids, visible: seq<set<Key>>, w: Walk, k: Key) {
    && Descends(ids, w.rows)
    && (|visible| == 0 ==> w.rows == [] && w.next == None)
    && (w.next.Some? ==> forall q :: q in w.rows ==> !Less(ids, q, w.next.value))
    && (|visible| > 0 && Always(visible, k) && !Under(ids, k, w.next) ==> k in w.rows)
    && (|visible| > 0 && Always(visible, k) && w.next == None ==> k in w.rows)
    && (k in w.rows ==> exists i :: 0 <= i < |visible| && k in visible[i])
  }

  lemma JoinDescends(ids: Uuids, a: seq<Key>, b: seq<Key>, between: Key)
    requires Descends(ids, a) && Descends(ids, b)
    requires forall k :: k in a ==> !Less(ids, k, between)
    requires forall k :: k in b ==> Less(ids, k, between)
    requires Distinct(ids)
    ensures Descends(ids, a + b)
  {
    forall i, j | 0 <= i < j < |a + b| ensures Less(ids, (a + b)[j], (a + b)[i]) {
      if i < |a| <= j {
        assert (a + b)[i] in a && (a + b)[j] in b;
      }
    }
  }

  lemma NextPage(ids: Uuids, visible: seq<set<Key>>, before: Walk, found: seq<Key>, k: Key)
    requires Distinct(ids) && |visible| > 0
    requires Lossless(ids, visible[..|visible| - 1], before, k)
    requires |visible| > 1 ==> before.next.Some?
    requires IsQuery(ids, visible[|visible| - 1], before.next, found)
    ensures Lossless(ids, visible, Onward(before, found), k)
  {
    var n := |visible| - 1;
    var (page, next) := Cut(found);
    PageIsARange(ids, visible[n], before.next, found, k);
    forall q | q in page ensures Under(ids, q, before.next) && (next.Some? ==> !Less(ids, q, next.value)) {
      PageIsARange(ids, visible[n], before.next, found, q);
    }
    if before.next.Some? {
      JoinDescends(ids, before.rows, page, before.next.value);
    } else {
      assert before.rows + page == page;
    }
    if next.Some? {
      PageIsARange(ids, visible[n], before.next, found, next.value);
    }
    if Always(visible, k) {
      assert Always(visible[..n], k);
    }
    if k in before.rows {
      var i :| 0 <= i < n && k in visible[..n][i];
      assert k in visible[i];
    }
  }

  /** However the inbox moves between the reads of a walk, nothing is sent twice and
      nothing that stayed put is skipped. */
  lemma {:induction false} WalkIsLossless(ids: Uuids, visible: seq<set<Key>>, found: seq<seq<Key>>, k: Key)
    requires Distinct(ids) && |visible| == |found| && Walked(ids, visible, found)
    ensures Lossless(ids, visible, Pages(found), k)
    decreases |found|
  {
    if |found| > 0 {
      var n := |found| - 1;
      WalkIsLossless(ids, visible[..n], found[..n], k);
      NextPage(ids, visible, Pages(found[..n]), found[n], k);
    }
  }

  lemma {:induction false} Place(ids: Uuids, rows: seq<Key>, k: Key) returns (out: seq<Key>)
    requires Distinct(ids) && Descends(ids, rows) && k !in rows
    ensures Descends(ids, out) && forall q :: q in out <==> q in rows || q == k
    decreases |rows|
  {
    if |rows| == 0 || Less(ids, rows[0], k) {
      out := [k] + rows;
    } else {
      assert k != rows[0];
      var tail := Place(ids, rows[1..], k);
      out := [rows[0]] + tail;
      forall q | q in tail ensures Less(ids, q, rows[0]) {
        if q != k {
          assert q in rows[1..];
        }
      }
    }
  }

  lemma {:induction false} SortExists(ids: Uuids, keys: set<Key>) returns (rows: seq<Key>)
    requires Distinct(ids)
    ensures IsSorted(ids, keys, rows)
    decreases |keys|
  {
    if keys == {} {
      rows := [];
    } else {
      var k :| k in keys;
      var rest := SortExists(ids, keys - {k});
      rows := Place(ids, rest, k);
      forall q ensures q in rows <==> q in keys {
        assert q in rows <==> q in rest || q == k;
      }
    }
  }

  /** The page query has an answer from any cursor, so a walk can always go on until it is done. */
  lemma QueryHasAnswer(ids: Uuids, keys: set<Key>, before: Option<Key>)
    requires Distinct(ids)
    ensures exists found :: IsQuery(ids, keys, before, found)
  {
    var rows := SortExists(ids, Rest(ids, keys, before));
    assert IsQuery(ids, keys, before, if |rows| > PAGE + 1 then rows[..PAGE + 1] else rows);
  }

  // ----- the walk over databases ----------------------------------------------

  function KeyOf(db: Db, id: ConvId): Key
    requires id.origin in db.Row(id.pair).convs
  {
    Key(db.Row(id.pair).convs[id.origin].activity, id)
  }

  function ListedIds(db: Db, user: UserId): set<ConvId> {
    set p, o | p in db.pairs && o in db.pairs[p].convs && Listed(db, ConvId(p, o), user) :: ConvId(p, o)
  }

  /** The keys of everything Bootstrap may list for `user`. */
  function InboxKeys(db: Db, user: UserId): set<Key> {
    set id | id in ListedIds(db, user) :: KeyOf(db, id)
  }

  function Moments(dbs: seq<Db>, user: UserId): seq<set<Key>> {
    seq(|dbs|, i requires 0 <= i < |dbs| => InboxKeys(dbs[i], user))
  }

  lemma ListedHasKey(db: Db, user: UserId, id: ConvId)
    requires Listed(db, id, user)
    ensures KeyOf(db, id) in InboxKeys(db, user)
  {
    assert id == ConvId(id.pair, id.origin);
    assert id in ListedIds(db, user);
  }

  lemma ReceivedWasVisible(ids: Uuids, visible: seq<set<Key>>, found: seq<seq<Key>>, row: Key)
    requires Distinct(ids) && |visible| == |found| && Walked(ids, visible, found)
    requires row in Pages(found).rows
    ensures exists m :: 0 <= m < |visible| && row in visible[m]
  {
    WalkIsLossless(ids, visible, found, row);
  }

  lemma KeyIsListed(db: Db, user: UserId, k: Key)
    requires k in InboxKeys(db, user)
    ensures Listed(db, k.conv, user) && k == KeyOf(db, k.conv)
  {
  }

  lemma SettledKey(ids: Uuids, dbs: seq<Db>, found: seq<seq<Key>>, user: UserId, id: ConvId, k: Key, row: Key)
    requires Distinct(ids) && |dbs| == |found| && Walked(ids, Moments(dbs, user), found)
    requires forall i :: 0 <= i < |dbs| ==> Listed(dbs[i], id, user) && KeyOf(dbs[i], id) == k
    requires row in Pages(found).rows && row.conv == id
    ensures row == k
  {
    var visible := Moments(dbs, user);
    ReceivedWasVisible(ids, visible, found, row);
    var m :| 0 <= m < |visible| && row in visible[m];
    KeyIsListed(dbs[m], user, row);
  }

  /** Whatever else happens between the page reads, a conversation that is visible with
      the same activity at each of them is on exactly one page of a completed walk, once. */
  lemma SettledConversationIsSentOnce(ids: Uuids, dbs: seq<Db>, found: seq<seq<Key>>, user: UserId, id: ConvId, at: int)
    requires Distinct(ids) && |dbs| == |found| > 0
    requires Walked(ids, Moments(dbs, user), found) && Pages(found).done
    requires forall i :: 0 <= i < |dbs| ==> Listed(dbs[i], id, user) && KeyOf(dbs[i], id) == Key(at, id)
    ensures var rows := Pages(found).rows;
            exists j :: 0 <= j < |rows| && rows[j].conv == id
              && forall i :: 0 <= i < |rows| && rows[i].conv == id ==> i == j
  {
    var k, rows, visible := Key(at, id), Pages(found).rows, Moments(dbs, user);
    forall i | 0 <= i < |visible| ensures k in visible[i] {
      ListedHasKey(dbs[i], user, id);
    }
    assert Always(visible, k) && k in rows by { WalkIsLossless(ids, visible, found, k); }
    var j :| 0 <= j < |rows| && rows[j] == k;
    forall i | 0 <= i < |rows| && rows[i].conv == id ensures i == j {
      SettledKey(ids, dbs, found, user, id, k, rows[i]);
      assert Descends(ids, rows) by { WalkIsLossless(ids, visible, found, k); }
    }
  }

  // ----- the badge ------------------------------------------------------------

  function UnreadIn(c: Conv, user: UserId): set<int>
    requires user in c.parts
  {
    set i | 0 <= i < |c.messages| && c.messages[i].pos > c.parts[user].read && c.messages[i].sender != user
  }

  /** The unread count a conversation's row shows counts these positions. */
  function Unread(db: Db, user: UserId, id: ConvId): set<int>
    requires id.origin in db.Row(id.pair).convs && user in db.Row(id.pair).convs[id.origin].parts
  {
    UnreadIn(db.Row(id.pair).convs[id.origin], user)
  }

  /** The badge query's own conditions on one stored message. */
  predicate Counted(db: Db, user: UserId, id: ConvId, i: int)
    requires id.origin in db.Row(id.pair).convs
  {
    var row := db.Row(id.pair);
    var c := row.convs[id.origin];
    && 0 <= i < |c.messages|
    && user in c.parts
    && (var m := c.messages[i];
       && m.sender in db.users && db.users[m.sender].active
       && m.sender != user && m.pos > c.parts[user].read)
    && (c.state == Open || c.state == Pending)
    && row.blocks == {}
    && (id.origin == Match ==> row.matched.Some?)
  }

  function BadgeRows(db: Db, user: UserId): set<(ConvId, int)> {
    set p, o, i | p in db.pairs && o in db.pairs[p].convs && 0 <= i < |db.pairs[p].convs[o].messages|
               && Counted(db, user, ConvId(p, o), i) :: (ConvId(p, o), i)
  }

  function Badge(db: Db, user: UserId): int { |BadgeRows(db, user)| }

  predicate AllListed(db: Db, user: UserId, rows: seq<Key>) {
    forall i :: 0 <= i < |rows| ==> Listed(db, rows[i].conv, user)
  }

  /** The unread counts of these inbox rows, added up. */
  function Total(db: Db, user: UserId, rows: seq<Key>): int
    requires AllListed(db, user, rows)
  {
    if |rows| == 0 then 0 else |Unread(db, user, rows[0].conv)| + Total(db, user, rows[1..])
  }

  function Tagged<T>(id: ConvId, s: set<T>): set<(ConvId, T)> { set i | i in s :: (id, i) }

  lemma {:induction false} TaggedSize<T>(id: ConvId, s: set<T>)
    ensures |Tagged(id, s)| == |s|
    decreases |s|
  {
    if s == {} {
      assert Tagged(id, s) == {};
    } else {
      var i :| i in s;
      TaggedSize(id, s - {i});
      assert Tagged(id, s) == Tagged(id, s - {i}) + {(id, i)};
    }
  }

  function All(db: Db, user: UserId, rows: seq<Key>): set<(ConvId, int)>
    requires AllListed(db, user, rows)
  {
    if |rows| == 0 then {} else Tagged(rows[0].conv, Unread(db, user, rows[0].conv)) + All(db, user, rows[1..])
  }

  lemma {:induction false} AllMembers(db: Db, user: UserId, rows: seq<Key>, id: ConvId, i: int)
    requires AllListed(db, user, rows)
    ensures (id, i) in All(db, user, rows) <==>
      (exists k :: k in rows && k.conv == id) && i in Unread(db, user, id)
    decreases |rows|
  {
    if |rows| > 0 {
      AllMembers(db, user, rows[1..], id, i);
      if rows[0].conv == id { assert rows[0] in rows; }
      if k :| k in rows && k.conv == id {
        assert k == rows[0] || k in rows[1..];
      }
    }
  }

  lemma {:induction false} AllSize(db: Db, user: UserId, rows: seq<Key>)
    requires AllListed(db, user, rows)
    requires forall i, j :: 0 <= i < j < |rows| ==> rows[i].conv != rows[j].conv
    ensures |All(db, user, rows)| == Total(db, user, rows)
    decreases |rows|
  {
    if |rows| > 0 {
      AllSize(db, user, rows[1..]);
      var id := rows[0].conv;
      TaggedSize(id, Unread(db, user, id));
      forall x | x in Tagged(id, Unread(db, user, id)) ensures x !in All(db, user, rows[1..]) {
        AllMembers(db, user, rows[1..], x.0, x.1);
      }
    }
  }

  lemma SendersAreMembers(db: Db, id: ConvId, i: int)
    requires DbInv(db) && id.origin in db.Row(id.pair).convs
    ensures var ms := db.Row(id.pair).convs[id.origin].messages;
            0 <= i < |ms| ==> id.pair.Has(ms[i].sender)
  {
    KnownPair(db, id.pair);
    assert GapFree(id.pair, db.Row(id.pair).convs[id.origin]);
  }

  lemma CountedIffListedAndUnread(db: Db, user: UserId, id: ConvId, i: int)
    requires DbInv(db) && user in db.users && db.users[user].active
    requires id.origin in db.Row(id.pair).convs
    ensures Counted(db, user, id, i) <==> Listed(db, id, user) && i in Unread(db, user, id)
  {
    ListedIsMemberAndLive(db, id, user);
    SendersAreMembers(db, id, i);
  }

  lemma ListedRow(db: Db, user: UserId, rows: seq<Key>, id: ConvId)
    requires AllListed(db, user, rows) && forall k :: k in rows <==> k in InboxKeys(db, user)
    ensures (exists k :: k in rows && k.conv == id) <==> Listed(db, id, user)
  {
    if Listed(db, id, user) {
      ListedHasKey(db, user, id);
      assert KeyOf(db, id) in rows && KeyOf(db, id).conv == id;
    }
  }

  lemma BadgeCountsTheInbox(db: Db, user: UserId, rows: seq<Key>)
    requires DbInv(db) && user in db.users && db.users[user].active
    requires AllListed(db, user, rows) && forall k :: k in rows <==> k in InboxKeys(db, user)
    ensures All(db, user, rows) == BadgeRows(db, user)
  {
    forall x ensures x in All(db, user, rows) <==> x in BadgeRows(db, user) {
      var (id, i) := x;
      AllMembers(db, user, rows, id, i);
      ListedRow(db, user, rows, id);
      if id.origin in db.Row(id.pair).convs {
        CountedIffListedAndUnread(db, user, id, i);
        assert id == ConvId(id.pair, id.origin);
      }
    }
  }

  lemma WalkedRowsAreTheInbox(ids: Uuids, db: Db, found: seq<seq<Key>>, user: UserId)
    requires Distinct(ids) && |found| > 0 && Pages(found).done
    requires Walked(ids, Moments(seq(|found|, _ => db), user), found)
    ensures var rows := Pages(found).rows;
            && (forall i, j :: 0 <= i < j < |rows| ==> rows[i].conv != rows[j].conv)
            && (forall k :: k in rows <==> k in InboxKeys(db, user))
            && AllListed(db, user, rows)
            && (forall i :: 0 <= i < |rows| ==> rows[i] == KeyOf(db, rows[i].conv))
  {
    var rows, visible := Pages(found).rows, Moments(seq(|found|, _ => db), user);
    forall k ensures k in rows <==> k in InboxKeys(db, user) {
      WalkIsLossless(ids, visible, found, k);
      if k in InboxKeys(db, user) { assert Always(visible, k); }
    }
    forall i | 0 <= i < |rows| ensures Listed(db, rows[i].conv, user) && rows[i] == KeyOf(db, rows[i].conv) {
      assert rows[i] in InboxKeys(db, user);
    }
    WalkIsLossless(ids, visible, found, Key(0, ConvId(Pair(0, 0), Match)));
  }

  /** The badge is the sum of the unread counts over all pages of the inbox. */
  lemma BadgeIsTheSumOverPages(ids: Uuids, db: Db, found: seq<seq<Key>>, user: UserId)
    requires DbInv(db) && user in db.users && db.users[user].active
    requires Distinct(ids) && |found| > 0 && Pages(found).done
    requires Walked(ids, Moments(seq(|found|, _ => db), user), found)
    ensures AllListed(db, user, Pages(found).rows)
    ensures Total(db, user, Pages(found).rows) == Badge(db, user)
  {
    var rows := Pages(found).rows;
    WalkedRowsAreTheInbox(ids, db, found, user);
    AllSize(db, user, rows);
    BadgeCountsTheInbox(db, user, rows);
  }
}
