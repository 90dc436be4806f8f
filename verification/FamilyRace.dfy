/** Ending a token family while its tokens are being rotated. The update that revokes a
    family changes the rows its snapshot saw and waits for those another transaction holds;
    a token inserted by a rotation it had to wait for is not among them. */
module FamilyRace {
  import opened Rows
  import opened Auth
  import opened Tokens

  /** Revoke the rows of the family that were there in `seen`, in what is committed now. */
  function RevokeSeen(seen: AuthDb, db: AuthDb, f: Family): AuthDb {
    db.(tokens := map h | h in db.tokens ::
      if h in InFamily(seen, f) then db.tokens[h].(revoked := true) else db.tokens[h])
  }

  predicate EndsFamily(googleOnly: bool, db: AuthDb, call: Call) {
    && (call.SignOut? || call.Refresh?) && call.presented in db.tokens
    && (call.Refresh? ==> Apply(googleOnly, db, call).1 == Fail(TokenReuse))
  }

  /** With nothing in between it is the completed sign-out or reuse report. */
  lemma RevokeSeenIsApply(googleOnly: bool, db: AuthDb, call: Call)
    requires EndsFamily(googleOnly, db, call)
    ensures Apply(googleOnly, db, call).0 == RevokeSeen(db, db, db.tokens[call.presented].family)
  {
    var f := db.tokens[call.presented].family;
    assert RevokeFamily(db.tokens, f) == RevokeSeen(db, db, f).tokens;
  }

  // ----- a family is revoked as a whole ---------------------------------------

  /** Tokens of one family belong to one account and are revoked together. */
  predicate Uniform(db: AuthDb) {
    forall g, h :: g in db.tokens && h in db.tokens && db.tokens[g].family == db.tokens[h].family ==>
      db.tokens[g].user == db.tokens[h].user && (db.tokens[g].revoked <==> db.tokens[h].revoked)
  }

  lemma NewFamilyIsUniform(db: AuthDb, user: UserId, family: Family, via: Via, hash: Hash, expires: int)
    requires Uniform(db) && !KnownFamily(db, family)
    ensures Uniform(Issue(db, user, family, via, hash, expires))
  {
  }

  lemma RevokedIsUniform(db: AuthDb, f: Family, u: UserId)
    requires Uniform(db)
    ensures Uniform(db.(tokens := RevokeFamily(db.tokens, f))) && Uniform(db.(tokens := RevokeUser(db.tokens, u)))
  {
  }

  lemma SameTokensAreUniform(db: AuthDb, db': AuthDb)
    requires Uniform(db) && db'.tokens == db.tokens
    ensures Uniform(db')
  {
  }

  lemma GoogleIsUniform(googleOnly: bool, db: AuthDb, call: Call)
    requires Uniform(db) && Drawn(db, call) && call.SignInGoogle?
    ensures Uniform(Apply(googleOnly, db, call).0)
  {
    var g := call.identity;
    if g.subject in db.subjects {
      NewFamilyIsUniform(db, db.subjects[g.subject], call.family, Google, call.hash, call.expires);
    } else {
      var (attached, u, problem) := Attach(googleOnly, db, g, call.user);
      if attached.Some? {
        RevokedIsUniform(db, call.family, u);
        assert attached.value.tokens == db.tokens || attached.value.tokens == RevokeUser(db.tokens, u);
        assert Uniform(attached.value);
        NewFamilyIsUniform(attached.value, u, call.family, Google, call.hash, call.expires);
      }
    }
  }

  lemma RefreshIsUniform(googleOnly: bool, db: AuthDb, call: Call)
    requires Uniform(db) && Drawn(db, call) && call.Refresh?
    ensures Uniform(Apply(googleOnly, db, call).0)
  {
    if call.presented in db.tokens { RevokedIsUniform(db, db.tokens[call.presented].family, 0); }
  }

  lemma CallIsUniform(googleOnly: bool, db: AuthDb, call: Call)
    requires Uniform(db) && Drawn(db, call)
    ensures Uniform(Apply(googleOnly, db, call).0)
  {
    match call
    case Register(email, user, hash, family, expires) =>
      if email !in db.emails {
        var made := db.(accounts := db.accounts[user := Active],
                        emails := db.emails[email := EmailIdentity(user, true)]);
        NewFamilyIsUniform(made, user, family, Email, hash, expires);
      }
    case Login(email, _, hash, family, expires) =>
      if Apply(googleOnly, db, call).1.Session? {
        NewFamilyIsUniform(db, db.emails[email].user, family, Email, hash, expires);
      }
    case SignInGoogle(_, _, _, _, _) => GoogleIsUniform(googleOnly, db, call);
    case Refresh(_, _, _, _) => RefreshIsUniform(googleOnly, db, call);
    case SignOut(presented) =>
      if presented in db.tokens { RevokedIsUniform(db, db.tokens[presented].family, 0); }
    case Suspend(user) => SameTokensAreUniform(db, Apply(googleOnly, db, call).0);
  }

  // ----- what rotations leave -------------------------------------------------

  /** One of these calls rotated a token of the family. */
  predicate RotatedIn(googleOnly: bool, db: AuthDb, calls: seq<Call>, f: Family)
    decreases |calls|
  {
    |calls| > 0 &&
    (var init := calls[..|calls| - 1];
     || RotatedIn(googleOnly, db, init, f)
     || (Run(googleOnly, db, init).Some?
          && Rotates(googleOnly, Run(googleOnly, db, init).value, calls[|calls| - 1], f)))
  }

  /** The family's tokens of `seen` are all there; after a rotation they are all spent and
      there are others, and without one there are no others. */
  predicate Since(seen: AuthDb, db: AuthDb, f: Family, rotated: bool) {
    && InFamily(seen, f) <= InFamily(db, f)
    && (!rotated ==> InFamily(db, f) == InFamily(seen, f))
    && (rotated ==> forall h :: h in InFamily(seen, f) ==> db.tokens[h].used)
  }

  lemma UsedStays(googleOnly: bool, db: AuthDb, call: Call, h: Hash)
    requires Drawn(db, call) && h in db.tokens && db.tokens[h].used
    ensures h in Apply(googleOnly, db, call).0.tokens && Apply(googleOnly, db, call).0.tokens[h].used
  {
  }

  /** A rotation spends the one token of the family that was not spent. */
  lemma RotationSpends(googleOnly: bool, db: AuthDb, call: Call, f: Family, h: Hash)
    requires FamilyInv(db) && Drawn(db, call) && Rotates(googleOnly, db, call, f) && h in InFamily(db, f)
    ensures h in Apply(googleOnly, db, call).0.tokens && Apply(googleOnly, db, call).0.tokens[h].used
  {
    assert OneUnusedAtMost(db, f) && Unused(db, call.presented, f);
    if h != call.presented { assert !Unused(db, h, f); }
  }

  lemma SinceNext(googleOnly: bool, seen: AuthDb, db: AuthDb, call: Call, f: Family, rotated: bool)
    requires FamilyInv(db) && Drawn(db, call) && KnownFamily(db, f) && Since(seen, db, f, rotated)
    ensures Since(seen, Apply(googleOnly, db, call).0, f, rotated || Rotates(googleOnly, db, call, f))
  {
    FamilyGrows(googleOnly, db, call, f);
    forall h | h in InFamily(seen, f) && (rotated || Rotates(googleOnly, db, call, f))
      ensures h in Apply(googleOnly, db, call).0.tokens && Apply(googleOnly, db, call).0.tokens[h].used
    {
      if rotated { UsedStays(googleOnly, db, call, h); } else { RotationSpends(googleOnly, db, call, f, h); }
    }
  }

  lemma {:induction false} SinceThen(googleOnly: bool, seen: AuthDb, calls: seq<Call>, f: Family)
    requires FamilyInv(seen) && Uniform(seen) && KnownFamily(seen, f) && Run(googleOnly, seen, calls).Some?
    ensures var db := Run(googleOnly, seen, calls).value;
            && FamilyInv(db) && Uniform(db) && KnownFamily(db, f)
            && Since(seen, db, f, RotatedIn(googleOnly, seen, calls, f))
    decreases |calls|
  {
    if |calls| > 0 {
      var init, last := calls[..|calls| - 1], calls[|calls| - 1];
      SinceThen(googleOnly, seen, init, f);
      var before := Run(googleOnly, seen, init).value;
      CallKeepsFamilies(googleOnly, before, last);
      CallIsUniform(googleOnly, before, last);
      SinceNext(googleOnly, seen, before, last, f, RotatedIn(googleOnly, seen, init, f));
      FamilySize(seen, f);
      FamilySize(Apply(googleOnly, before, last).0, f);
    }
  }

  // ----- when the family ends -------------------------------------------------

  ghost predicate HasLive(db: AuthDb, f: Family) {
    exists h :: h in db.tokens && db.tokens[h].family == f && db.tokens[h].Live()
  }

  lemma NoneIsNew(seen: AuthDb, db: AuthDb, f: Family)
    requires KnownFamily(db, f) && InFamily(db, f) == InFamily(seen, f)
    ensures Dead(RevokeSeen(seen, db, f), f)
  {
    var after := RevokeSeen(seen, db, f);
    FamilySize(db, f);
    assert InFamily(after, f) == InFamily(db, f);
    FamilySize(after, f);
    forall h | h in after.tokens && after.tokens[h].family == f ensures after.tokens[h].revoked {
      assert h in InFamily(db, f);
    }
  }

  lemma DeadStays(seen: AuthDb, db: AuthDb, f: Family)
    requires Dead(db, f)
    ensures Dead(RevokeSeen(seen, db, f), f)
  {
    FamilySize(db, f);
    assert InFamily(RevokeSeen(seen, db, f), f) == InFamily(db, f);
    FamilySize(RevokeSeen(seen, db, f), f);
  }

  lemma NewOneLives(seen: AuthDb, db: AuthDb, f: Family)
    requires FamilyInv(db) && Uniform(db) && KnownFamily(db, f) && !Dead(db, f)
    requires forall h :: h in InFamily(seen, f) ==> h in db.tokens && db.tokens[h].used
    ensures HasLive(RevokeSeen(seen, db, f), f)
  {
    var h :| Unused(db, h, f);
    assert h !in InFamily(seen, f);
    assert !db.tokens[h].revoked;
    assert RevokeSeen(seen, db, f).tokens[h] == db.tokens[h];
  }

  /** A reuse report or sign-out with other calls between its snapshot and its end: it ends
      the family exactly unless a token of the family was rotated in between and nobody else
      ended it; and then the family goes on with a live token. */
  lemma FamilyEndsIff(googleOnly: bool, seen: AuthDb, calls: seq<Call>, db: AuthDb, f: Family)
    requires FamilyInv(seen) && Uniform(seen) && KnownFamily(seen, f) && Run(googleOnly, seen, calls) == Some(db)
    ensures Dead(RevokeSeen(seen, db, f), f) <==> !RotatedIn(googleOnly, seen, calls, f) || Dead(db, f)
    ensures !Dead(RevokeSeen(seen, db, f), f) ==> HasLive(RevokeSeen(seen, db, f), f)
  {
    SinceThen(googleOnly, seen, calls, f);
    if Dead(db, f) {
      DeadStays(seen, db, f);
    } else if !RotatedIn(googleOnly, seen, calls, f) {
      NoneIsNew(seen, db, f);
    } else {
      NewOneLives(seen, db, f);
    }
  }

  /** `seen` can be any state completed calls lead to. */
  lemma {:induction false} RunIsUniform(googleOnly: bool, calls: seq<Call>)
    requires Run(googleOnly, EMPTY, calls).Some?
    ensures FamilyInv(Run(googleOnly, EMPTY, calls).value) && Uniform(Run(googleOnly, EMPTY, calls).value)
    decreases |calls|
  {
    RunKeepsFamilies(googleOnly, calls);
    if |calls| > 0 {
      RunIsUniform(googleOnly, calls[..|calls| - 1]);
      CallIsUniform(googleOnly, Run(googleOnly, EMPTY, calls[..|calls| - 1]).value, calls[|calls| - 1]);
    }
  }

  // ----- a report that misses a rotation --------------------------------------

  function T(used: bool, revoked: bool): Token { Token(1, 0, used, revoked, 10, Email) }

  function Holding(email: string, tokens: map<Hash, Token>): AuthDb {
    AuthDb(map[1 := Active], map[email := EmailIdentity(1, true)], map[], tokens)
  }

  /** The first token is spent, the second is the live one. */
  const TWO_TOKENS := map[Hash(1) := T(true, false), Hash(2) := T(false, false)]
  const THREE_TOKENS := map[Hash(1) := T(true, false), Hash(2) := T(true, false), Hash(3) := T(false, false)]

  lemma OneCall(db: AuthDb, calls: seq<Call>, before: AuthDb, call: Call)
    requires Run(false, db, calls) == Some(before) && Drawn(before, call)
    ensures Run(false, db, calls + [call]) == Some(Apply(false, before, call).0)
  {
    assert (calls + [call])[..|calls|] == calls;
  }

  lemma FirstIsSpent(email: string)
    ensures Run(false, EMPTY, [Register(email, 1, Hash(1), 0, 10)] + [Refresh(Hash(1), 0, Hash(2), 10)])
         == Some(Holding(email, TWO_TOKENS))
  {
    var register := Register(email, 1, Hash(1), 0, 10);
    var one := Holding(email, map[Hash(1) := T(false, false)]);
    assert Run(false, EMPTY, []) == Some(EMPTY) && Apply(false, EMPTY, register).0 == one;
    OneCall(EMPTY, [], EMPTY, register);
    assert [] + [register] == [register];
    assert Apply(false, one, Refresh(Hash(1), 0, Hash(2), 10)).0.tokens == TWO_TOKENS;
    OneCall(EMPTY, [register], one, Refresh(Hash(1), 0, Hash(2), 10));
  }

  lemma SecondIsSpent(email: string)
    ensures Run(false, Holding(email, TWO_TOKENS), [Refresh(Hash(2), 0, Hash(3), 10)])
         == Some(Holding(email, THREE_TOKENS))
  {
    var seen := Holding(email, TWO_TOKENS);
    assert Run(false, seen, []) == Some(seen);
    assert Apply(false, seen, Refresh(Hash(2), 0, Hash(3), 10)).0.tokens == THREE_TOKENS;
    OneCall(seen, [], seen, Refresh(Hash(2), 0, Hash(3), 10));
    assert [] + [Refresh(Hash(2), 0, Hash(3), 10)] == [Refresh(Hash(2), 0, Hash(3), 10)];
  }

  /** Account 1 registers and rotates its token once. Somebody presents the spent first token;
      while the report waits for the second token's row, that one is rotated to a third; the
      report revokes the first two, and the third lives. */
  lemma ReportMissesRotation(email: string) returns (seen: AuthDb, db: AuthDb)
    ensures Run(false, EMPTY, [Register(email, 1, Hash(1), 0, 10)] + [Refresh(Hash(1), 0, Hash(2), 10)]) == Some(seen)
    ensures EndsFamily(false, seen, Refresh(Hash(1), 0, Hash(4), 10))
    ensures Run(false, seen, [Refresh(Hash(2), 0, Hash(3), 10)]) == Some(db)
    ensures RevokeSeen(seen, db, 0).tokens
         == map[Hash(1) := T(true, true), Hash(2) := T(true, true), Hash(3) := T(false, false)]
  {
    seen, db := Holding(email, TWO_TOKENS), Holding(email, THREE_TOKENS);
    FirstIsSpent(email);
    SecondIsSpent(email);
    assert InFamily(seen, 0) == {Hash(1), Hash(2)};
  }
}
