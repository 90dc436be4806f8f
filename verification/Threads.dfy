/** Paging through one conversation's messages. */
module Threads {
  import opened Rows
  import opened Steps
  import opened Invariants
  import opened Guarantees

  datatype History = History(messages: seq<Message>, hasMore: bool)

  function Reversed<T>(s: seq<T>): (r: seq<T>)
    ensures |r| == |s| && forall i :: 0 <= i < |s| ==> r[i] == s[|s| - 1 - i]
  {
    seq(|s|, i requires 0 <= i < |s| => s[|s| - 1 - i])
  }

  predicate Wanted(m: Message, after: int, before: int) {
    (after < 0 || m.pos > after) && (before == 0 || m.pos < before)
  }

  /** The messages between the two positions, oldest first. */
  function Between(ms: seq<Message>, after: int, before: int): seq<Message> {
    if |ms| == 0 then []
    else (if Wanted(ms[0], after, before) then [ms[0]] else []) + Between(ms[1..], after, before)
  }

  /** The query: newest first unless a lower bound is given, one row more than the limit. */
  function Query(ms: seq<Message>, after: int, before: int, limit: nat): seq<Message> {
    var rows := if after >= 0 then Between(ms, after, before) else Reversed(Between(ms, after, before));
    if |rows| > limit + 1 then rows[..limit + 1] else rows
  }

  /** What the call makes of the query's rows. */
  function Shape(found: seq<Message>, after: int, limit: nat): History {
    var page := if |found| > limit then found[..limit] else found;
    History(if after < 0 then Reversed(page) else page, |found| > limit)
  }

  function Read(ms: seq<Message>, after: int, before: int, limit: nat): History {
    Shape(Query(ms, after, before, limit), after, limit)
  }

  method ReverseInPlace(a: array<Message>)
    modifies a
    ensures a[..] == Reversed(old(a[..]))
  {
    var i, j := 0, a.Length - 1;
    while i < j
      invariant 0 <= i <= a.Length && j == a.Length - 1 - i
      invariant forall k :: 0 <= k < i ==> a[k] == old(a[a.Length - 1 - k]) && a[a.Length - 1 - k] == old(a[k])
      invariant forall k :: i <= k < a.Length - i ==> a[k] == old(a[k])
    {
      a[i], a[j] := a[j], a[i];
      i, j := i + 1, j - 1;
    }
  }

  method CollectHistory(found: seq<Message>, after: int, limit: nat) returns (h: History)
    ensures h == Shape(found, after, limit)
  {
    var out := found;
    var hasMore := false;
    if |out| > limit {
      out := out[..limit];
      hasMore := true;
    }
    if after < 0 {
      var a := new Message[|out|](i requires 0 <= i < |out| => out[i]);
      assert a[..] == out;
      ReverseInPlace(a);
      out := a[..];
    }
    h := History(out, hasMore);
  }

  // ----- what a page holds ----------------------------------------------------

  predicate Dense(ms: seq<Message>) { forall i :: 0 <= i < |ms| ==> ms[i].pos == i + 1 }

  function From(n: nat, first: int, after: int): nat {
    if after < first then 0 else if after - first + 1 > n then n else after - first + 1
  }

  function To(n: nat, first: int, before: int): nat {
    if before == 0 || before - first > n then n else if before < first then 0 else before - first
  }

  /** The positions from lo up to, not including, hi. */
  function Slice<T>(s: seq<T>, lo: nat, hi: nat): seq<T>
    requires lo <= |s| && hi <= |s|
  {
    if lo <= hi then s[lo..hi] else []
  }

  function Less(n: nat): nat { if n == 0 then 0 else n - 1 }

  lemma SameElements<T>(a: seq<T>, b: seq<T>)
    requires |a| == |b| && forall k :: 0 <= k < |a| ==> a[k] == b[k]
    ensures a == b
  {
  }

  lemma SliceOfRest<T>(s: seq<T>, lo: nat, hi: nat)
    requires |s| > 0 && lo <= |s| && hi <= |s|
    ensures Slice(s, lo, hi) == (if lo == 0 && hi > 0 then [s[0]] else []) + Slice(s[1..], Less(lo), Less(hi))
  {
    if 0 < lo <= hi {
      SameElements(Slice(s, lo, hi), Slice(s[1..], lo - 1, hi - 1));
    } else if lo == 0 < hi {
      SameElements(Slice(s, lo, hi), [s[0]] + Slice(s[1..], 0, hi - 1));
    }
  }

  lemma BoundsOfRest(n: nat, first: int, after: int, before: int)
    requires n > 0 && first > 0
    ensures From(n - 1, first + 1, after) == Less(From(n, first, after))
    ensures To(n - 1, first + 1, before) == Less(To(n, first, before))
    ensures (after < 0 || first > after) && (before == 0 || first < before)
      <==> From(n, first, after) == 0 && To(n, first, before) > 0
  {
  }

  lemma {:induction false} BetweenIsASlice(ms: seq<Message>, first: int, after: int, before: int)
    requires first > 0 && forall i :: 0 <= i < |ms| ==> ms[i].pos == first + i
    ensures Between(ms, after, before) == Slice(ms, From(|ms|, first, after), To(|ms|, first, before))
    decreases |ms|
  {
    if |ms| > 0 {
      BoundsOfRest(|ms|, first, after, before);
      BetweenIsASlice(ms[1..], first + 1, after, before);
      SliceOfRest(ms, From(|ms|, first, after), To(|ms|, first, before));
    }
  }

  function Top(n: nat, before: int): int {
    if before == 0 || before > n then n else if before < 1 then 0 else before - 1
  }

  /** Cutting the reversed rows and reversing again keeps the newest, in order. */
  lemma Newest(ms: seq<Message>, top: nat, limit: nat)
    requires top <= |ms|
    ensures var rows := Reversed(ms[..top]);
            var low := if top > limit then top - limit else 0;
            Shape(if |rows| > limit + 1 then rows[..limit + 1] else rows, -1, limit) == History(ms[low..top], low > 0)
  {
    var rows := Reversed(ms[..top]);
    var low := if top > limit then top - limit else 0;
    assert Reversed(rows[..top - low]) == ms[low..top];
    assert limit + 1 <= top ==> rows[..limit + 1][..limit] == rows[..limit];
    assert rows[..top] == rows;
  }

  /** Backward: the newest `limit` messages under the bound, oldest of them first. */
  lemma BackwardPage(ms: seq<Message>, before: int, limit: nat)
    requires Dense(ms) && before >= 0
    ensures var top := Top(|ms|, before);
            var low := if top > limit then top - limit else 0;
            Read(ms, -1, before, limit) == History(ms[low..top], low > 0)
  {
    BetweenIsASlice(ms, 1, -1, before);
    assert Between(ms, -1, before) == ms[..Top(|ms|, before)];
    Newest(ms, Top(|ms|, before), limit);
  }

  /** Forward: the next `limit` messages after the bound. */
  lemma ForwardPage(ms: seq<Message>, after: int, limit: nat)
    requires Dense(ms) && 0 <= after
    ensures var from := if after < |ms| then after else |ms|;
            var to := if from + limit < |ms| then from + limit else |ms|;
            Read(ms, after, 0, limit) == History(ms[from..to], to < |ms|)
  {
    BetweenIsASlice(ms, 1, after, 0);
    var from := if after < |ms| then after else |ms|;
    assert Between(ms, after, 0) == ms[from..];
  }

  // ----- reading back to the beginning ----------------------------------------

  datatype Walk = Walk(messages: seq<Message>, before: int, more: bool)

  function Onward(w: Walk, thread: seq<Message>, limit: nat): Walk {
    var page := Read(thread, -1, w.before, limit);
    Walk(page.messages + w.messages, if |page.messages| > 0 then page.messages[0].pos else w.before, page.hasMore)
  }

  /** Page i is read when the thread is threads[i]; each page resumes before the oldest message received. */
  function Back(threads: seq<seq<Message>>, limit: nat): Walk
    decreases |threads|
  {
    if |threads| == 0 then Walk([], 0, true)
    else Onward(Back(threads[..|threads| - 1], limit), threads[|threads| - 1], limit)
  }

  /** The messages received are the end of `thread`, down to the cursor. */
  predicate JoinsUp(thread: seq<Message>, w: Walk) {
    && |w.messages| <= |thread|
    && w.messages == thread[|thread| - |w.messages|..]
    && (w.more <==> |w.messages| < |thread|)
    && (w.more ==> w.before == |thread| - |w.messages| + 1)
  }

  /** The page from low up to top joins what was already read from top on. */
  lemma PageJoins(thread: seq<Message>, tail: seq<Message>, low: nat, top: nat, before: int)
    requires Dense(thread) && low <= top <= |thread| && tail == thread[top..]
    requires low < top || low == 0
    ensures var cursor := if low < top then thread[low..top][0].pos else before;
            JoinsUp(thread, Walk(thread[low..top] + tail, cursor, low > 0))
  {
    assert thread[low..top] + thread[top..] == thread[low..];
  }

  lemma OnePageMore(thread: seq<Message>, now: seq<Message>, w: Walk, limit: nat)
    requires limit > 0 && Dense(now) && thread <= now && JoinsUp(thread, w) && w.more
    ensures JoinsUp(thread, Onward(w, now, limit))
  {
    var top := w.before - 1;
    var low := if top > limit then top - limit else 0;
    BackwardPage(now, w.before, limit);
    assert now[low..top] == thread[low..top];
    PageJoins(thread, w.messages, low, top, w.before);
  }

  /** Every read but the last said there was more. */
  predicate StillMore(threads: seq<seq<Message>>, limit: nat)
    decreases |threads|
  {
    |threads| > 1 ==>
      StillMore(threads[..|threads| - 1], limit) && Back(threads[..|threads| - 1], limit).more
  }

  /** At each read the thread is whole and begins with what was there at first. */
  predicate Growing(first: seq<Message>, threads: seq<seq<Message>>) {
    forall i :: 0 <= i < |threads| ==> Dense(threads[i]) && first <= threads[i]
  }

  lemma BackOnce(threads: seq<seq<Message>>, limit: nat)
    requires |threads| == 1
    ensures Back(threads, limit) == Onward(Walk([], 0, true), threads[0], limit)
  {
    assert threads[..|threads| - 1] == [];
  }

  lemma Whole(thread: seq<Message>, w: Walk)
    requires JoinsUp(thread, w)
    ensures !w.more ==> w.messages == thread
  {
  }

  lemma FirstPage(thread: seq<Message>, limit: nat)
    requires limit > 0 && Dense(thread)
    ensures JoinsUp(thread, Onward(Walk([], 0, true), thread, limit))
  {
    var low := if |thread| > limit then |thread| - limit else 0;
    BackwardPage(thread, 0, limit);
    PageJoins(thread, [], low, |thread|, 0);
  }

  /** While messages keep arriving, the pages read so far join up, without gap or repeat,
      into the end of the thread as it stood at the first read; when there is no more they
      are that whole thread. */
  lemma {:induction false} BackwardWalkRebuildsTheThread(first: seq<Message>, threads: seq<seq<Message>>, limit: nat)
    requires limit > 0 && |threads| > 0 && threads[0] == first
    requires Growing(first, threads) && StillMore(threads, limit)
    ensures JoinsUp(first, Back(threads, limit))
    ensures !Back(threads, limit).more ==> Back(threads, limit).messages == first
    decreases |threads|
  {
    if |threads| == 1 {
      FirstPage(first, limit);
      BackOnce(threads, limit);
    } else {
      var init, last := threads[..|threads| - 1], threads[|threads| - 1];
      BackwardWalkRebuildsTheThread(first, init, limit);
      OnePageMore(first, last, Back(init, limit), limit);
    }
    Whole(first, Back(threads, limit));
  }

  // ----- the walk over databases ----------------------------------------------

  /** The thread at each read, when runs[i] is what has committed since `db` by then. */
  function ThreadsAt(db: Db, runs: seq<seq<Step>>, id: ConvId): seq<seq<Message>>
    requires forall i :: 0 <= i < |runs| ==> Run(db, runs[i]).Some?
  {
    seq(|runs|, i requires 0 <= i < |runs| => Thread(Run(db, runs[i]).value, id))
  }

  lemma ThreadIsDense(db: Db, id: ConvId)
    requires DbInv(db) && id.origin in db.Row(id.pair).convs
    ensures Dense(Thread(db, id)) && |Thread(db, id)| == db.Row(id.pair).convs[id.origin].lastSeq
  {
    KnownPair(db, id.pair);
    assert GapFree(id.pair, db.Row(id.pair).convs[id.origin]);
  }

  lemma ThreadGrows(db: Db, steps: seq<Step>, id: ConvId)
    requires DbInv(db) && Run(db, steps).Some? && id.origin in db.Row(id.pair).convs
    ensures Dense(Thread(Run(db, steps).value, id)) && Thread(db, id) <= Thread(Run(db, steps).value, id)
  {
    RunFromInv(db, steps);
    NothingIsUndone(db, steps, id.pair);
    ThreadIsDense(Run(db, steps).value, id);
    assert ConvGrows(db.Row(id.pair).convs[id.origin], Run(db, steps).value.Row(id.pair).convs[id.origin]);
  }

  /** In any reachable database, whatever commits between the pages, a backward walk that
      reaches its end has read the conversation as it stood at the first page: positions
      1..last_seq, each once, in order. */
  lemma WalkOverARun(db: Db, runs: seq<seq<Step>>, id: ConvId, limit: nat)
    requires DbInv(db) && id.origin in db.Row(id.pair).convs && limit > 0
    requires |runs| > 0 && runs[0] == [] && forall i :: 0 <= i < |runs| ==> Run(db, runs[i]).Some?
    requires StillMore(ThreadsAt(db, runs, id), limit) && !Back(ThreadsAt(db, runs, id), limit).more
    ensures var read := Back(ThreadsAt(db, runs, id), limit).messages;
            && read == Thread(db, id)
            && |read| == db.Row(id.pair).convs[id.origin].lastSeq
            && forall i :: 0 <= i < |read| ==> read[i].pos == i + 1
  {
    var threads := ThreadsAt(db, runs, id);
    forall i | 0 <= i < |threads| ensures Dense(threads[i]) && Thread(db, id) <= threads[i] {
      ThreadGrows(db, runs[i], id);
    }
    BackwardWalkRebuildsTheThread(Thread(db, id), threads, limit);
    ThreadIsDense(db, id);
  }
}
