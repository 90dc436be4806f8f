/** Any number of Refresh calls on one token, interleaved statement by statement. */
module RefreshRace {
  import opened Rows

  /** Queued for the row; reading it under `for update`; its private mark written; finished. */
  datatype Phase = Queued | Reading(used: bool, revoked: bool) | Marked | Won | Lost

  datatype Race = Race(used: bool, revoked: bool, holder: Option<Id>, calls: map<Id, Phase>)

  datatype Move = Begin(id: Id) | LockRow(id: Id) | Decide(id: Id) | Commit(id: Id) | Abort(id: Id) | RevokeElsewhere

  function Step(r: Race, m: Move): Option<Race> {
    match m
    case Begin(id) =>
      if id in r.calls then None else Some(r.(calls := r.calls[id := Queued]))
    case LockRow(id) =>
      if id !in r.calls || r.calls[id] != Queued || r.holder.Some? then None
      else Some(r.(holder := Some(id), calls := r.calls[id := Reading(r.used, r.revoked)]))
    case Decide(id) =>
      if id !in r.calls || !r.calls[id].Reading? then None
      else if r.calls[id].used then
        Some(r.(revoked := true, holder := None, calls := r.calls[id := Lost]))
      else if r.calls[id].revoked then
        Some(r.(holder := None, calls := r.calls[id := Lost]))
      else Some(r.(calls := r.calls[id := Marked]))
    case Commit(id) =>
      if id !in r.calls || r.calls[id] != Marked then None
      else Some(r.(used := true, holder := None, calls := r.calls[id := Won]))
    case Abort(id) =>
      if id !in r.calls || r.calls[id].Won? || r.calls[id].Lost? then None
      else Some(r.(holder := if r.holder == Some(id) then None else r.holder, calls := r.calls[id := Lost]))
    case RevokeElsewhere =>
      if r.holder.Some? then None else Some(r.(revoked := true))
  }

  predicate Inv(r: Race) {
    && (forall i :: i in r.calls && (r.calls[i].Reading? || r.calls[i].Marked?) ==> r.holder == Some(i))
    && (forall i :: i in r.calls && r.calls[i].Reading? ==>
         r.calls[i].used == r.used && r.calls[i].revoked == r.revoked)
    && (forall i :: i in r.calls && r.calls[i].Marked? ==> !r.used && !r.revoked)
    && (forall i :: i in r.calls && r.calls[i].Won? ==> r.used)
    && (forall i, j :: i in r.calls && j in r.calls && r.calls[i].Won? && r.calls[j].Won? ==> i == j)
  }

  function Run(r: Race, moves: seq<Move>): Option<Race>
    decreases |moves|
  {
    if |moves| == 0 then Some(r)
    else
      var before := Run(r, moves[..|moves| - 1]);
      if before.None? then None else Step(before.value, moves[|moves| - 1])
  }

  lemma StepKeepsInv(r: Race, m: Move)
    requires Inv(r) && Step(r, m).Some?
    ensures Inv(Step(r, m).value)
    ensures (r.used ==> Step(r, m).value.used) && (r.revoked ==> Step(r, m).value.revoked)
  {
  }

  predicate Finished(r: Race, i: Id) { i in r.calls && (r.calls[i].Won? || r.calls[i].Lost?) }

  ghost predicate SomeoneWon(r: Race) { exists i :: i in r.calls && r.calls[i].Won? }

  predicate Undisturbed(moves: seq<Move>) {
    forall i :: 0 <= i < |moves| ==> !moves[i].Abort? && !moves[i].RevokeElsewhere?
  }

  /** Nobody has lost yet, nor was anything revoked, unless somebody has won. */
  ghost predicate FirstWins(r: Race) {
    && Inv(r)
    && (r.used || r.revoked ==> SomeoneWon(r))
    && forall i :: i in r.calls && r.calls[i].Lost? ==> SomeoneWon(r)
  }

  lemma WinnersStay(r: Race, m: Move)
    requires Step(r, m).Some? && SomeoneWon(r)
    ensures SomeoneWon(Step(r, m).value)
  {
    var i :| i in r.calls && r.calls[i].Won?;
    assert i in Step(r, m).value.calls && Step(r, m).value.calls[i].Won?;
  }

  lemma StepKeepsFirstWins(r: Race, m: Move)
    requires FirstWins(r) && Step(r, m).Some? && !m.Abort? && !m.RevokeElsewhere?
    ensures FirstWins(Step(r, m).value)
  {
    StepKeepsInv(r, m);
    var r' := Step(r, m).value;
    if SomeoneWon(r) { WinnersStay(r, m); }
    if m.Commit? { assert m.id in r'.calls && r'.calls[m.id].Won?; }
  }

  lemma {:induction false} UndisturbedFirstWins(moves: seq<Move>)
    requires Run(Race(false, false, None, map[]), moves).Some? && Undisturbed(moves)
    ensures FirstWins(Run(Race(false, false, None, map[]), moves).value)
    decreases |moves|
  {
    if |moves| > 0 {
      var init, last := moves[..|moves| - 1], moves[|moves| - 1];
      forall i | 0 <= i < |init| ensures !init[i].Abort? && !init[i].RevokeElsewhere? { assert init[i] == moves[i]; }
      UndisturbedFirstWins(init);
      StepKeepsFirstWins(Run(Race(false, false, None, map[]), init).value, last);
    }
  }

  lemma LateWinner(r: Race, m: Move, i: Id)
    requires Inv(r) && Step(r, m).Some?
    requires i in Step(r, m).value.calls && Step(r, m).value.calls[i].Won?
    ensures (i in r.calls && r.calls[i].Won?) || (!r.used && !r.revoked)
  {
  }

  /** At most one of the calls is given a session, and none once the token was revoked. */
  lemma {:induction false} OneRefreshWins(moves: seq<Move>, used: bool, revoked: bool, i: Id, j: Id)
    requires Run(Race(used, revoked, None, map[]), moves).Some?
    ensures var r := Run(Race(used, revoked, None, map[]), moves).value;
            && Inv(r)
            && (i in r.calls && j in r.calls && r.calls[i].Won? && r.calls[j].Won? ==> i == j)
            && (i in r.calls && r.calls[i].Won? ==> !used && !revoked)
            && (used ==> r.used) && (revoked ==> r.revoked)
    decreases |moves|
  {
    if |moves| > 0 {
      var init, last := moves[..|moves| - 1], moves[|moves| - 1];
      OneRefreshWins(init, used, revoked, i, j);
      var r := Run(Race(used, revoked, None, map[]), init).value;
      StepKeepsInv(r, last);
      if i in Step(r, last).value.calls && Step(r, last).value.calls[i].Won? { LateWinner(r, last, i); }
    }
  }

  /** Of any number of refreshes of a live token that nothing else disturbs, the first to finish
      wins: once some call has finished exactly one has a session. */
  lemma ExactlyOneWins(moves: seq<Move>, i: Id)
    requires Run(Race(false, false, None, map[]), moves).Some? && Undisturbed(moves)
    requires Finished(Run(Race(false, false, None, map[]), moves).value, i)
    ensures var r := Run(Race(false, false, None, map[]), moves).value;
            exists w :: w in r.calls && r.calls[w].Won? && forall j :: j in r.calls && r.calls[j].Won? ==> j == w
  {
    UndisturbedFirstWins(moves);
    var r := Run(Race(false, false, None, map[]), moves).value;
    assert SomeoneWon(r);
    var w :| w in r.calls && r.calls[w].Won?;
    forall j | j in r.calls && r.calls[j].Won? ensures j == w { OneRefreshWins(moves, false, false, j, w); }
  }
}
