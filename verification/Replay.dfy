/** Event replay with retention: what a client that follows its cursor receives. */
module Replay {
  import opened Rows
  import opened ChatLog
  import opened Steps

  const PAGE := 100

  datatype Page = Page(events: seq<Event>, cursor: int, hasMore: bool)
  datatype Answer = SignedOut | Ahead | Gone | Delivered(page: Page)

  /** The stored rows past `after`, in order: what the query returns without its limit. */
  function Past(rows: seq<Event>, after: int): seq<Event> {
    if |rows| == 0 then []
    else (if rows[0].pos > after then [rows[0]] else []) + Past(rows[1..], after)
  }

  predicate Stale(u: UserRow, after: int) {
    if |u.rows| == 0 then after < u.eventSeq else after + 1 < u.rows[0].pos
  }

  function Cut(found: seq<Event>, after: int): Page {
    var events := if |found| > PAGE then found[..PAGE] else found;
    Page(events, if |events| > 0 then events[|events| - 1].pos else after, |found| > PAGE)
  }

  function Events(u: UserRow, after: int): Answer {
    if !u.active then SignedOut
    else if after > u.eventSeq then Ahead
    else if Stale(u, after) then Gone
    else
      var past := Past(u.rows, after);
      Delivered(Cut(if |past| > PAGE + 1 then past[..PAGE + 1] else past, after))
  }

  /** The call itself: the limited query's rows are collected one by one, then cut. */
  method ReadEvents(u: UserRow, after: int) returns (answer: Answer)
    ensures answer == Events(u, after)
  {
    if !u.active { return SignedOut; }
    if after > u.eventSeq { return Ahead; }
    if (|u.rows| == 0 && after < u.eventSeq) || (|u.rows| > 0 && after + 1 < u.rows[0].pos) { return Gone; }
    var out: seq<Event> := [];
    var i := 0;
    while i < |u.rows| && |out| < PAGE + 1
      invariant 0 <= i <= |u.rows| && |out| <= PAGE + 1
      invariant Past(u.rows, after) == out + Past(u.rows[i..], after)
    {
      assert u.rows[i..][1..] == u.rows[i + 1..];
      ghost var tail := Past(u.rows[i + 1..], after);
      if u.rows[i].pos > after {
        assert out + ([u.rows[i]] + tail) == (out + [u.rows[i]]) + tail;
        out := out + [u.rows[i]];
      } else {
        assert [] + tail == tail;
      }
      i := i + 1;
    }
    ghost var past := Past(u.rows, after);
    if i == |u.rows| {
      assert u.rows[i..] == [] && out + [] == out;
    }
    assert out == if |past| > PAGE + 1 then past[..PAGE + 1] else past;
    var hasMore := false;
    if |out| > PAGE {
      out := out[..PAGE];
      hasMore := true;
    }
    var cursor := after;
    if |out| > 0 { cursor := out[|out| - 1].pos; }
    answer := Delivered(Page(out, cursor, hasMore));
  }

  // ----- a log whose front may be pruned --------------------------------------

  /** Positions 1, 2, 3 and so on. */
  predicate DenseLog(history: seq<Event>) { forall i :: 0 <= i < |history| ==> history[i].pos == i + 1 }

  /** `history` is every event ever committed for the account; the row stores its counter
      and whatever suffix pruning has left. */
  predicate Shows(u: UserRow, history: seq<Event>) {
    && DenseLog(history)
    && |u.rows| <= u.eventSeq <= |history|
    && u.rows == history[u.eventSeq - |u.rows|..u.eventSeq]
  }

  lemma {:induction false} AllPast(rows: seq<Event>, after: int)
    requires forall i :: 0 <= i < |rows| ==> rows[i].pos > after
    ensures Past(rows, after) == rows
    decreases |rows|
  {
    if |rows| > 0 {
      AllPast(rows[1..], after);
    }
  }

  /** The rows past a position are what follows it in the log. */
  lemma {:induction false} PastOfSlice(history: seq<Event>, from: int, to: int, after: int)
    requires DenseLog(history) && 0 <= from <= after <= to <= |history|
    ensures Past(history[from..to], after) == history[after..to]
    decreases after - from
  {
    if from == after {
      AllPast(history[from..to], after);
    } else {
      assert history[from..to][1..] == history[from + 1..to];
      assert history[from..to][0].pos == from + 1;
      PastOfSlice(history, from + 1, to, after);
    }
  }

  lemma StaleIffPruned(u: UserRow, history: seq<Event>, after: int)
    requires Shows(u, history)
    ensures Stale(u, after) <==> after < u.eventSeq - |u.rows|
  {
    if |u.rows| > 0 {
      assert u.rows[0] == history[u.eventSeq - |u.rows|];
    }
  }

  lemma PastShown(u: UserRow, history: seq<Event>, after: int)
    requires Shows(u, history) && u.eventSeq - |u.rows| <= after <= u.eventSeq
    ensures Past(u.rows, after) == history[after..u.eventSeq]
  {
    PastOfSlice(history, u.eventSeq - |u.rows|, u.eventSeq, after);
  }

  lemma CutIsAPage(history: seq<Event>, after: int, last: int)
    requires DenseLog(history)
    requires 0 <= after <= last <= |history|
    ensures var past := history[after..last];
            var upTo := if after + PAGE < last then after + PAGE else last;
            var found := if |past| > PAGE + 1 then past[..PAGE + 1] else past;
            Cut(found, after) == Page(history[after..upTo], upTo, upTo < last)
  {
    var past := history[after..last];
    var upTo := if after + PAGE < last then after + PAGE else last;
    var found := if |past| > PAGE + 1 then past[..PAGE + 1] else past;
    var page := Cut(found, after);
    if |past| > PAGE {
      assert found[..PAGE] == past[..PAGE] == history[after..after + PAGE];
    }
    assert page.events == history[after..upTo];
    if upTo > after {
      assert page.events[|page.events| - 1] == history[upTo - 1];
    }
  }

  /** Exactly what one call answers: refused to an inactive account and ahead of the counter,
      Gone exactly when the next event was pruned, and otherwise the next events, a hundred at
      most. */
  lemma EventsAnswer(u: UserRow, history: seq<Event>, after: int)
    requires Shows(u, history) && 0 <= after
    ensures Events(u, after).SignedOut? <==> !u.active
    ensures Events(u, after).Ahead? <==> u.active && after > u.eventSeq
    ensures Events(u, after).Gone? <==> u.active && after < u.eventSeq - |u.rows|
    ensures Events(u, after).Delivered? ==>
      var upTo := if after + PAGE < u.eventSeq then after + PAGE else u.eventSeq;
      Events(u, after).page == Page(history[after..upTo], upTo, upTo < u.eventSeq)
  {
    StaleIffPruned(u, history, after);
    if u.eventSeq - |u.rows| <= after <= u.eventSeq {
      PastShown(u, history, after);
      CutIsAPage(history, after, u.eventSeq);
    }
  }

  // ----- following the cursor -------------------------------------------------

  datatype Walk = Stopped | Got(events: seq<Event>, cursor: int, hasMore: bool)

  function OnePage(before: Walk, row: UserRow): Walk
    requires before.Got?
  {
    match Events(row, before.cursor)
    case Delivered(page) => Got(before.events + page.events, page.cursor, page.hasMore)
    case _ => Stopped
  }

  /** The client's walk: page i is read when the account's row is rows[i]. */
  function Follow(rows: seq<UserRow>, after: int): Walk
    decreases |rows|
  {
    if |rows| == 0 then Got([], after, true)
    else
      var before := Follow(rows[..|rows| - 1], after);
      if before.Stopped? then Stopped else OnePage(before, rows[|rows| - 1])
  }

  /** The walk has received each event from after + 1 up to its cursor once, in order. */
  predicate Received(w: Walk, history: seq<Event>, after: int)
    requires 0 <= after
  {
    w.Got? && after <= w.cursor <= |history| && w.events == history[after..w.cursor]
  }

  lemma SlicesJoin(history: seq<Event>, a: int, b: int, c: int)
    requires 0 <= a <= b <= c <= |history|
    ensures history[a..b] + history[b..c] == history[a..c]
  {
  }

  lemma PageIsReceived(w: Walk, row: UserRow, history: seq<Event>, after: int)
    requires 0 <= after && Received(w, history, after) && Shows(row, history) && OnePage(w, row).Got?
    ensures Received(OnePage(w, row), history, after)
    ensures OnePage(w, row).hasMore <==> OnePage(w, row).cursor < row.eventSeq
  {
    EventsAnswer(row, history, w.cursor);
    var to := OnePage(w, row).cursor;
    SlicesJoin(history, after, w.cursor, to);
  }

  /** Whatever is appended or pruned between the calls, a walk that is never refused has
      received each event from after + 1 up to its cursor exactly once, in order; and it
      is told there is no more exactly when it has caught up with the counter. */
  lemma {:induction false} FollowMissesNothing(rows: seq<UserRow>, history: seq<Event>, after: int)
    requires forall i :: 0 <= i < |rows| ==> Shows(rows[i], history)
    requires 0 <= after <= |history|
    requires Follow(rows, after).Got?
    ensures Received(Follow(rows, after), history, after)
    ensures forall i :: 0 <= i < |Follow(rows, after).events| ==> Follow(rows, after).events[i].pos == after + 1 + i
    ensures |rows| > 0 ==> (Follow(rows, after).hasMore <==> Follow(rows, after).cursor < rows[|rows| - 1].eventSeq)
    decreases |rows|
  {
    if |rows| > 0 {
      var init, last := rows[..|rows| - 1], rows[|rows| - 1];
      FollowMissesNothing(init, history, after);
      PageIsReceived(Follow(init, after), last, history, after);
      assert Shows(last, history);
    }
  }

  /** The catch-up loop over a log that does not change: it ends, with the cursor at the
      counter, having delivered everything after where it began, or is told Gone. */
  method CatchUp(u: UserRow, after: int, ghost history: seq<Event>) returns (events: seq<Event>, cursor: int, ok: bool)
    requires Shows(u, history) && u.active && 0 <= after <= u.eventSeq
    ensures ok <==> u.eventSeq - |u.rows| <= after
    ensures ok ==> cursor == u.eventSeq && events == history[after..u.eventSeq]
  {
    events, cursor, ok := [], after, true;
    while true
      invariant after <= cursor <= u.eventSeq && ok
      invariant events == history[after..cursor]
      invariant cursor > after ==> u.eventSeq - |u.rows| <= after
      decreases u.eventSeq - cursor
    {
      EventsAnswer(u, history, cursor);
      var answer := ReadEvents(u, cursor);
      if !answer.Delivered? {
        ok := false;
        return;
      }
      SlicesJoin(history, after, cursor, answer.page.cursor);
      events := events + answer.page.events;
      cursor := answer.page.cursor;
      if !answer.page.hasMore { break; }
    }
  }

  // ----- the log of a run -----------------------------------------------------

  /** The event rows one step adds for this account. */
  function Added(db: Db, step: Step, u: UserId): seq<Event> {
    if step.OnPair? && Apply(db, step).Some? && step.pair.Has(u) && u in db.users then
      Numbered(db.users[u].eventSeq, step.pair, Perform(step.pair, db.Row(step.pair), step.op).notes)
    else []
  }

  /** Every event a run has committed for this account, pruned or not. */
  function Log(steps: seq<Step>, u: UserId): seq<Event>
    decreases |steps|
  {
    if |steps| == 0 then []
    else
      var init := steps[..|steps| - 1];
      var before := Run(EMPTY_DB, init);
      Log(init, u) + (if before.None? then [] else Added(before.value, steps[|steps| - 1], u))
  }

  lemma LogOfInit(steps: seq<Step>, u: UserId)
    requires |steps| > 0
    ensures Log(steps[..|steps| - 1], u) <= Log(steps, u)
  {
  }

  lemma Longer<T>(a: seq<T>, b: seq<T>, c: seq<T>)
    requires a <= b <= c
    ensures a <= c
  {
    assert c[..|a|] == b[..|a|];
  }

  lemma {:induction false} LogExtends(first: seq<Step>, rest: seq<Step>, u: UserId)
    ensures Log(first, u) <= Log(first + rest, u)
    decreases |rest|
  {
    if |rest| == 0 {
      assert first + rest == first;
    } else {
      LogOfInit(first + rest, u);
      var init := first + rest[..|rest| - 1];
      assert (first + rest)[..|first + rest| - 1] == init;
      LogExtends(first, rest[..|rest| - 1], u);
      Longer(Log(first, u), Log(init, u), Log(first + rest, u));
    }
  }

  lemma AppendShows(row: UserRow, log: seq<Event>, p: Pair, notes: seq<Note>)
    requires Shows(row, log) && row.eventSeq == |log|
    ensures var more := Numbered(row.eventSeq, p, notes);
            Shows(Append(row, p, notes), log + more) && Append(row, p, notes).eventSeq == |log + more|
  {
  }

  lemma PrunedShows(db: Db, step: Step, u: UserId, log: seq<Event>)
    requires u in db.users && Shows(db.users[u], log) && Apply(db, step).Some?
    requires !(step.OnPair? && step.pair.Has(u))
    ensures u in Apply(db, step).value.users
    ensures var row := Apply(db, step).value.users[u]; Shows(row, log) && row.eventSeq == db.users[u].eventSeq
  {
  }

  lemma StepShows(db: Db, step: Step, u: UserId, log: seq<Event>)
    requires Apply(db, step).Some?
    requires if u in db.users then Shows(db.users[u], log) && db.users[u].eventSeq == |log| else log == []
    ensures var db' := Apply(db, step).value;
            var log' := log + Added(db, step, u);
            if u in db'.users then Shows(db'.users[u], log') && db'.users[u].eventSeq == |log'| else log' == []
  {
    if u in db.users {
      if step.OnPair? && step.pair.Has(u) {
        AppendShows(db.users[u], log, step.pair, Perform(step.pair, db.Row(step.pair), step.op).notes);
      } else {
        PrunedShows(db, step, u, log);
        assert log + [] == log;
      }
    }
  }

  /** At every moment of every run, an account's counter is the number of events ever
      committed for it, their positions are exactly 1..event_seq, and the stored rows are
      the last of them. */
  lemma {:induction false} LogIsDense(steps: seq<Step>, u: UserId)
    requires Run(EMPTY_DB, steps).Some?
    ensures var db := Run(EMPTY_DB, steps).value;
            if u in db.users then Shows(db.users[u], Log(steps, u)) && db.users[u].eventSeq == |Log(steps, u)|
            else Log(steps, u) == []
    decreases |steps|
  {
    if |steps| > 0 {
      var init, last := steps[..|steps| - 1], steps[|steps| - 1];
      LogIsDense(init, u);
      var db := Run(EMPTY_DB, init).value;
      StepShows(db, last, u, Log(init, u));
      assert Run(EMPTY_DB, steps) == Apply(db, last);
      assert Log(steps, u) == Log(init, u) + Added(db, last, u);
    }
  }

  lemma SeenBefore(row: UserRow, log: seq<Event>, seen: seq<Event>, e: Event)
    requires Shows(row, log) && row.eventSeq == |log| && seen <= log
    requires e in row.rows && e.pos <= |seen|
    ensures 0 < e.pos && e == seen[e.pos - 1]
  {
    var i :| 0 <= i < |row.rows| && row.rows[i] == e;
    assert e == log[|log| - |row.rows| + i];
  }

  /** A reader that has seen everything up to n never later finds a row at or below n
      that it had not seen. */
  lemma NoLateEvent(steps: seq<Step>, more: seq<Step>, u: UserId, e: Event)
    requires Run(EMPTY_DB, steps).Some? && Run(EMPTY_DB, steps + more).Some?
    requires u in Run(EMPTY_DB, steps).value.users && u in Run(EMPTY_DB, steps + more).value.users
    requires e in Run(EMPTY_DB, steps + more).value.users[u].rows
    requires e.pos <= Run(EMPTY_DB, steps).value.users[u].eventSeq
    ensures 0 < e.pos <= |Log(steps, u)| && e == Log(steps, u)[e.pos - 1]
  {
    LogIsDense(steps, u);
    LogIsDense(steps + more, u);
    LogExtends(steps, more, u);
    SeenBefore(Run(EMPTY_DB, steps + more).value.users[u], Log(steps + more, u), Log(steps, u), e);
  }
}
