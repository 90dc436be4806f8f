/** A snapshot followed by event replay hides no change. */
module Snapshot {
  import opened Rows
  import opened Steps
  import opened Invariants
  import opened Replay

  predicate Mentions(events: seq<Event>, id: ConvId) { exists e :: e in events && e.conv == id }

  lemma NoteIsAdded(db: Db, step: Step, u: UserId, o: Origin)
    requires step.OnPair? && Apply(db, step).Some? && step.pair.Has(u)
    requires Names(Perform(step.pair, db.Row(step.pair), step.op).notes, o)
    ensures Mentions(Added(db, step, u), ConvId(step.pair, o))
  {
    var notes := Perform(step.pair, db.Row(step.pair), step.op).notes;
    var n :| n in notes && n.origin == o;
    var i :| 0 <= i < |notes| && notes[i] == n;
    assert Added(db, step, u)[i].conv == ConvId(step.pair, o);
  }

  lemma StepIsLogged(db: Db, step: Step, u: UserId, p: Pair, o: Origin)
    requires DbInv(db) && Apply(db, step).Some? && p.Has(u)
    ensures Mentions(Added(db, step, u), ConvId(p, o)) || SameConv(db.Row(p), Apply(db, step).value.Row(p), o)
  {
    if step.OnPair? && step.pair == p {
      EmptyPairIsFine(p);
      PerformIsSound(p, db.Row(p), step.op);
      var out := Perform(p, db.Row(p), step.op);
      if Names(out.notes, o) { NoteIsAdded(db, step, u, o); }
    }
  }

  /** What one more step commits for the account. */
  function Next(steps: seq<Step>, last: Step, u: UserId): seq<Event> {
    var before := Run(EMPTY_DB, steps);
    if before.None? then [] else Added(before.value, last, u)
  }

  /** What the run `steps + more` committed for the account beyond `steps`. */
  function News(steps: seq<Step>, more: seq<Step>, u: UserId): seq<Event>
    decreases |more|
  {
    if |more| == 0 then []
    else
      var init := more[..|more| - 1];
      News(steps, init, u) + Next(steps + init, more[|more| - 1], u)
  }

  lemma Onto(a: seq<Event>, b: seq<Event>, c: seq<Event>)
    ensures (a + b) + c == a + (b + c)
  {
  }

  lemma LogOfNext(steps: seq<Step>, last: Step, u: UserId)
    ensures Log(steps + [last], u) == Log(steps, u) + Next(steps, last, u)
  {
    assert (steps + [last])[..|steps|] == steps;
  }

  lemma {:induction false} LogIsNews(steps: seq<Step>, more: seq<Step>, u: UserId)
    ensures Log(steps + more, u) == Log(steps, u) + News(steps, more, u)
    decreases |more|
  {
    if |more| == 0 {
      assert steps + more == steps;
    } else {
      var init, last := more[..|more| - 1], more[|more| - 1];
      assert steps + more == (steps + init) + [last];
      LogIsNews(steps, init, u);
      LogOfNext(steps + init, last, u);
      Onto(Log(steps, u), News(steps, init, u), Next(steps + init, last, u));
    }
  }

  lemma MentionsEither(a: seq<Event>, b: seq<Event>, id: ConvId)
    ensures Mentions(a, id) || Mentions(b, id) ==> Mentions(a + b, id)
  {
    if Mentions(a, id) {
      var e :| e in a && e.conv == id;
      assert e in a + b;
    } else if Mentions(b, id) {
      var e :| e in b && e.conv == id;
      assert e in a + b;
    }
  }

  lemma OneMoreChange(news: seq<Event>, was: PairRow, db: Db, last: Step, u: UserId, p: Pair, o: Origin)
    requires DbInv(db) && Apply(db, last).Some? && p.Has(u)
    requires Mentions(news, ConvId(p, o)) || SameConv(was, db.Row(p), o)
    ensures Mentions(news + Added(db, last, u), ConvId(p, o)) || SameConv(was, Apply(db, last).value.Row(p), o)
  {
    StepIsLogged(db, last, u, p, o);
    MentionsEither(news, Added(db, last, u), ConvId(p, o));
  }

  lemma LastStep(steps: seq<Step>, last: Step)
    requires Run(EMPTY_DB, steps + [last]).Some?
    ensures Run(EMPTY_DB, steps).Some?
    ensures Run(EMPTY_DB, steps + [last]) == Apply(Run(EMPTY_DB, steps).value, last)
  {
    assert (steps + [last])[..|steps|] == steps;
  }

  /** Any change to a conversation row, its messages, participants or consents that
      commits after `steps` is named by an event in both members' logs past that point. */
  lemma {:induction false} ChangesAreLogged(steps: seq<Step>, more: seq<Step>, u: UserId, p: Pair, o: Origin)
    requires Run(EMPTY_DB, steps + more).Some? && p.Has(u)
    ensures Run(EMPTY_DB, steps).Some?
    ensures Mentions(News(steps, more, u), ConvId(p, o))
         || SameConv(Run(EMPTY_DB, steps).value.Row(p), Run(EMPTY_DB, steps + more).value.Row(p), o)
    decreases |more|
  {
    if |more| == 0 {
      assert steps + more == steps;
    } else {
      var init, last := more[..|more| - 1], more[|more| - 1];
      assert steps + more == (steps + init) + [last];
      LastStep(steps + init, last);
      ChangesAreLogged(steps, init, u, p, o);
      RunKeepsInv(steps + init);
      OneMoreChange(News(steps, init, u), Run(EMPTY_DB, steps).value.Row(p), Run(EMPTY_DB, steps + init).value,
                    last, u, p, o);
    }
  }

  /** The account's row at each moment the client read a page. */
  function RowsAt(runs: seq<seq<Step>>, u: UserId): seq<UserRow>
    requires forall i :: 0 <= i < |runs| ==> Run(EMPTY_DB, runs[i]).Some? && u in Run(EMPTY_DB, runs[i]).value.users
  {
    seq(|runs|, i requires 0 <= i < |runs| => Run(EMPTY_DB, runs[i]).value.users[u])
  }

  lemma CounterIsLength(steps: seq<Step>, u: UserId)
    requires Run(EMPTY_DB, steps).Some? && u in Run(EMPTY_DB, steps).value.users
    ensures Run(EMPTY_DB, steps).value.users[u].eventSeq == |Log(steps, u)|
  {
    LogIsDense(steps, u);
  }

  lemma FinalRow(runs: seq<seq<Step>>, whole: seq<Step>, u: UserId)
    requires |runs| > 0 && runs[|runs| - 1] == whole
    requires forall i :: 0 <= i < |runs| ==> Run(EMPTY_DB, runs[i]).Some? && u in Run(EMPTY_DB, runs[i]).value.users
    ensures RowsAt(runs, u)[|runs| - 1].eventSeq == |Log(whole, u)|
  {
    assert RowsAt(runs, u)[|runs| - 1] == Run(EMPTY_DB, whole).value.users[u];
    CounterIsLength(whole, u);
  }

  lemma CaughtUp(rows: seq<UserRow>, seen: seq<Event>, news: seq<Event>)
    requires forall i :: 0 <= i < |rows| ==> Shows(rows[i], seen + news)
    requires |rows| > 0 && rows[|rows| - 1].eventSeq == |seen + news|
    requires Follow(rows, |seen|).Got? && !Follow(rows, |seen|).hasMore
    ensures Follow(rows, |seen|).events == news
  {
    FollowMissesNothing(rows, seen + news, |seen|);
    assert (seen + news)[|seen|..|seen + news|] == news;
  }

  lemma ShowsMore(row: UserRow, log: seq<Event>, longer: seq<Event>, last: UserRow)
    requires Shows(row, log) && log <= longer && Shows(last, longer)
    ensures Shows(row, longer)
  {
    assert longer[..|log|] == log;
  }

  lemma PageMoment(run: seq<Step>, whole: seq<Step>, u: UserId)
    requires run <= whole && Run(EMPTY_DB, run).Some? && u in Run(EMPTY_DB, run).value.users
    requires Run(EMPTY_DB, whole).Some? && u in Run(EMPTY_DB, whole).value.users
    ensures Shows(Run(EMPTY_DB, run).value.users[u], Log(whole, u))
  {
    LogIsDense(run, u);
    LogIsDense(whole, u);
    LogExtends(run, whole[|run|..], u);
    assert run + whole[|run|..] == whole;
    ShowsMore(Run(EMPTY_DB, run).value.users[u], Log(run, u), Log(whole, u), Run(EMPTY_DB, whole).value.users[u]);
  }

  /** A client takes a snapshot after `steps`, then follows its cursor while anything at
      all commits, and is never told to start again. Once a page says there is no more,
      every conversation that changed between the snapshot and that page has been named
      to it. `runs[i]` is the whole run at the moment page i was read. */
  lemma SnapshotThenReplayMissesNothing(steps: seq<Step>, runs: seq<seq<Step>>, more: seq<Step>,
                                        u: UserId, p: Pair, o: Origin)
    requires Run(EMPTY_DB, steps + more).Some? && p.Has(u)
    requires Run(EMPTY_DB, steps).Some? && u in Run(EMPTY_DB, steps).value.users
    requires |runs| > 0 && runs[|runs| - 1] == steps + more
    requires forall i :: 0 <= i < |runs| ==>
      runs[i] <= steps + more && Run(EMPTY_DB, runs[i]).Some? && u in Run(EMPTY_DB, runs[i]).value.users
    requires var w := Follow(RowsAt(runs, u), Run(EMPTY_DB, steps).value.users[u].eventSeq); w.Got? && !w.hasMore
    ensures var w := Follow(RowsAt(runs, u), Run(EMPTY_DB, steps).value.users[u].eventSeq);
            && w.events == News(steps, more, u)
            && (Mentions(w.events, ConvId(p, o))
                || SameConv(Run(EMPTY_DB, steps).value.Row(p), Run(EMPTY_DB, steps + more).value.Row(p), o))
  {
    forall i | 0 <= i < |runs| ensures Shows(RowsAt(runs, u)[i], Log(steps + more, u)) {
      PageMoment(runs[i], steps + more, u);
    }
    FinalRow(runs, steps + more, u);
    CounterIsLength(steps, u);
    LogIsNews(steps, more, u);
    CaughtUp(RowsAt(runs, u), Log(steps, u), News(steps, more, u));
    ChangesAreLogged(steps, more, u, p, o);
  }
}
