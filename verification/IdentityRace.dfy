/** A Google sign-in whose identity lookups and writes are apart. It holds the advisory
    locks of its subject and its address, but Register, Login and the rest take none, so
    they may commit between the two. */
module IdentityRace {
  import opened Rows
  import opened Auth
  import opened Tokens

  /** The other Google sign-ins that wait for this one. */
  predicate Excluded(call: Call, g: GoogleIdentity) {
    call.SignInGoogle? && (call.identity.subject == g.subject || call.identity.email == g.email)
  }

  predicate Beside(calls: seq<Call>, g: GoogleIdentity) { forall i :: 0 <= i < |calls| ==> !Excluded(calls[i], g) }

  predicate Registers(calls: seq<Call>, email: string) {
    exists i :: 0 <= i < |calls| && calls[i].Register? && calls[i].email == email
  }

  /** `insert ... on conflict do update`: an address that is there keeps its owner and loses its password. */
  function Upsert(emails: map<string, EmailIdentity>, email: string, user: UserId): map<string, EmailIdentity> {
    emails[email := EmailIdentity(if email in emails then emails[email].user else user, false)]
  }

  predicate Refuses(db: AuthDb, u: UserId) { u !in db.accounts || db.accounts[u] != Active }

  /** What the sign-in decided when it looked, in `seen`, written over what is committed now. */
  function Finish(googleOnly: bool, seen: AuthDb, db: AuthDb, g: GoogleIdentity, newUser: UserId): Option<AuthDb> {
    if g.subject in seen.subjects then
      if Refuses(seen, seen.subjects[g.subject]) then None else Some(db)
    else if g.email !in seen.emails then
      Some(db.(accounts := db.accounts[newUser := Active],
               subjects := db.subjects[g.subject := newUser],
               emails := Upsert(db.emails, g.email, newUser)))
    else
      var u := seen.emails[g.email].user;
      if Refuses(seen, u) || !googleOnly || !g.authoritative || HasGoogle(seen, u) then None
      else Some(db.(tokens := RevokeUser(db.tokens, u),
                    subjects := db.subjects[g.subject := u],
                    emails := Upsert(db.emails, g.email, u)))
  }

  /** With nothing in between it is the completed call, up to the token it issues. */
  lemma FinishIsApply(googleOnly: bool, db: AuthDb, call: Call)
    requires IdentityInv(db) && call.SignInGoogle? && Drawn(db, call)
    ensures var (after, reply) := Apply(googleOnly, db, call);
            var done := Finish(googleOnly, db, db, call.identity, call.user);
            && (reply.Session? <==> done.Some?)
            && (done.Some? ==> done.value == after.(tokens := done.value.tokens))
  {
  }

  // ----- what the locks protect -----------------------------------------------

  /** Subjects and addresses keep their accounts, and the account behind this sign-in's
      address does not get a subject from anyone else. */
  predicate Kept(db: AuthDb, db': AuthDb, g: GoogleIdentity) {
    && db.accounts.Keys <= db'.accounts.Keys
    && (forall s :: s in db.subjects ==> s in db'.subjects && db'.subjects[s] == db.subjects[s])
    && (forall e :: e in db.emails ==> e in db'.emails && db'.emails[e].user == db.emails[e].user)
    && (g.subject !in db.subjects ==> g.subject !in db'.subjects)
    && (g.email in db.emails && !HasGoogle(db, db.emails[g.email].user) ==>
         !HasGoogle(db', db.emails[g.email].user))
  }

  lemma SameIsKept(db: AuthDb, db': AuthDb, g: GoogleIdentity)
    requires db'.accounts.Keys == db.accounts.Keys && db'.emails == db.emails && db'.subjects == db.subjects
    ensures Kept(db, db', g)
  {
  }

  lemma RegisterKeeps(googleOnly: bool, db: AuthDb, call: Call, g: GoogleIdentity)
    requires Drawn(db, call) && call.Register?
    ensures Kept(db, Apply(googleOnly, db, call).0, g)
  {
  }

  lemma OneMoreSubject(db: AuthDb, db': AuthDb, other: GoogleIdentity, u: UserId, g: GoogleIdentity)
    requires IdentityInv(db) && other.subject !in db.subjects
    requires other.subject != g.subject && other.email != g.email
    requires u !in db.accounts || (other.email in db.emails && u == db.emails[other.email].user)
    requires other.email in db.emails ==> u == db.emails[other.email].user
    requires db.accounts.Keys <= db'.accounts.Keys
    requires db'.subjects == db.subjects[other.subject := u]
    requires db'.emails == db.emails[other.email := EmailIdentity(u, false)]
    ensures Kept(db, db', g)
  {
    if g.email in db.emails {
      assert db.emails[g.email].user != u;
    }
  }

  /** Another sign-in gives its own account a subject, if any, and that is not the address's. */
  lemma GoogleKeeps(googleOnly: bool, db: AuthDb, call: Call, g: GoogleIdentity)
    requires IdentityInv(db) && Drawn(db, call) && call.SignInGoogle? && !Excluded(call, g)
    ensures Kept(db, Apply(googleOnly, db, call).0, g)
  {
    var db', other := Apply(googleOnly, db, call).0, call.identity;
    if db'.subjects == db.subjects {
      SameIsKept(db, db', g);
    } else {
      var u := db'.subjects[other.subject];
      assert db'.subjects == db.subjects[other.subject := u];
      assert db'.emails == db.emails[other.email := EmailIdentity(u, false)];
      assert u == call.user || (other.email in db.emails && u == db.emails[other.email].user);
      OneMoreSubject(db, db', other, u, g);
    }
  }

  lemma OthersChangeNoIdentity(googleOnly: bool, db: AuthDb, call: Call)
    requires !call.Register? && !call.SignInGoogle?
    ensures var after := Apply(googleOnly, db, call).0;
            after.accounts.Keys == db.accounts.Keys && after.emails == db.emails && after.subjects == db.subjects
  {
  }

  lemma CallKeeps(googleOnly: bool, db: AuthDb, call: Call, g: GoogleIdentity)
    requires IdentityInv(db) && Drawn(db, call) && !Excluded(call, g)
    ensures Kept(db, Apply(googleOnly, db, call).0, g)
  {
    match call
    case Register(_, _, _, _, _) => RegisterKeeps(googleOnly, db, call, g);
    case SignInGoogle(_, _, _, _, _) => GoogleKeeps(googleOnly, db, call, g);
    case _ =>
      OthersChangeNoIdentity(googleOnly, db, call);
      SameIsKept(db, Apply(googleOnly, db, call).0, g);
  }

  lemma OnlyRegisterAdds(googleOnly: bool, db: AuthDb, call: Call, g: GoogleIdentity)
    requires Drawn(db, call) && !Excluded(call, g) && g.email !in db.emails
    ensures g.email in Apply(googleOnly, db, call).0.emails <==> call.Register? && call.email == g.email
  {
  }

  lemma KeptOnward(a: AuthDb, b: AuthDb, c: AuthDb, g: GoogleIdentity)
    requires Kept(a, b, g) && Kept(b, c, g)
    ensures Kept(a, c, g)
  {
  }

  lemma LastRegisters(calls: seq<Call>, email: string)
    requires |calls| > 0
    ensures var last := calls[|calls| - 1];
            Registers(calls, email) <==>
              Registers(calls[..|calls| - 1], email) || (last.Register? && last.email == email)
  {
    var init, last := calls[..|calls| - 1], calls[|calls| - 1];
    if Registers(init, email) {
      var i :| 0 <= i < |init| && init[i].Register? && init[i].email == email;
      assert calls[i] == init[i];
    }
    if Registers(calls, email) {
      var i :| 0 <= i < |calls| && calls[i].Register? && calls[i].email == email;
      assert i < |init| ==> init[i] == calls[i];
    }
  }

  lemma {:induction false} BesideKeeps(googleOnly: bool, db: AuthDb, calls: seq<Call>, g: GoogleIdentity)
    requires IdentityInv(db) && Run(googleOnly, db, calls).Some? && Beside(calls, g)
    ensures IdentityInv(Run(googleOnly, db, calls).value) && Kept(db, Run(googleOnly, db, calls).value, g)
    ensures g.email !in db.emails ==>
      (g.email in Run(googleOnly, db, calls).value.emails <==> Registers(calls, g.email))
    decreases |calls|
  {
    if |calls| > 0 {
      var init, last := calls[..|calls| - 1], calls[|calls| - 1];
      BesideKeeps(googleOnly, db, init, g);
      var before := Run(googleOnly, db, init).value;
      CallKeeps(googleOnly, before, last, g);
      if g.email !in before.emails { OnlyRegisterAdds(googleOnly, before, last, g); }
      CallKeepsIdentities(googleOnly, before, last);
      KeptOnward(db, before, Apply(googleOnly, before, last).0, g);
      LastRegisters(calls, g.email);
    }
  }

  // ----- when the identities survive ------------------------------------------

  ghost predicate Survives(googleOnly: bool, seen: AuthDb, db: AuthDb, g: GoogleIdentity, newUser: UserId) {
    var done := Finish(googleOnly, seen, db, g, newUser);
    done.Some? && IdentityInv(done.value)
  }

  lemma NewSurvives(googleOnly: bool, seen: AuthDb, db: AuthDb, g: GoogleIdentity, newUser: UserId)
    requires IdentityInv(db) && g.subject !in seen.subjects && g.email !in seen.emails
    requires newUser !in db.accounts && g.subject !in db.subjects && g.email !in db.emails
    ensures Survives(googleOnly, seen, db, g, newUser)
  {
    NewGoogleAccount(db, newUser, g.subject, g.email);
    SameIdentities(WithSubject(WithAccount(db, newUser, g.email, false), g.subject, g.email),
                   Finish(googleOnly, seen, db, g, newUser).value);
  }

  lemma LinkSurvives(googleOnly: bool, seen: AuthDb, db: AuthDb, g: GoogleIdentity, newUser: UserId)
    requires IdentityInv(db) && Kept(seen, db, g) && g.subject !in seen.subjects && g.email in seen.emails
    requires Finish(googleOnly, seen, db, g, newUser).Some?
    ensures Survives(googleOnly, seen, db, g, newUser)
  {
    NotGoogle(db, db.emails[g.email].user);
    LinkSubject(db, g.subject, g.email);
    SameIdentities(WithSubject(db, g.subject, g.email), Finish(googleOnly, seen, db, g, newUser).value);
  }

  /** The new account is left without an email identity, and the other one without its password. */
  lemma AddressIsTaken(googleOnly: bool, seen: AuthDb, db: AuthDb, g: GoogleIdentity, newUser: UserId)
    requires IdentityInv(db) && newUser !in db.accounts && g.email in db.emails
    requires g.subject !in seen.subjects && g.email !in seen.emails
    ensures var after := Finish(googleOnly, seen, db, g, newUser).value;
            && newUser in after.accounts && !HasEmail(after, newUser) && !IdentityInv(after)
            && after.emails[g.email] == EmailIdentity(db.emails[g.email].user, false)
  {
    var after := Finish(googleOnly, seen, db, g, newUser).value;
    forall e | e in after.emails ensures after.emails[e].user != newUser {
      assert after.emails[e].user == db.emails[e].user;
    }
  }

  /** The sign-in keeps the identity rules exactly unless it found neither its subject nor
      its address and somebody registered the address before it wrote. */
  lemma IdentitiesSurviveIff(googleOnly: bool, seen: AuthDb, calls: seq<Call>, db: AuthDb,
                             g: GoogleIdentity, newUser: UserId)
    requires IdentityInv(seen) && Run(googleOnly, seen, calls) == Some(db) && Beside(calls, g)
    requires newUser !in db.accounts && Finish(googleOnly, seen, db, g, newUser).Some?
    ensures Survives(googleOnly, seen, db, g, newUser) <==>
      g.subject in seen.subjects || g.email in seen.emails || !Registers(calls, g.email)
  {
    BesideKeeps(googleOnly, seen, calls, g);
    if g.subject !in seen.subjects {
      if g.email in seen.emails {
        LinkSurvives(googleOnly, seen, db, g, newUser);
      } else if g.email !in db.emails {
        NewSurvives(googleOnly, seen, db, g, newUser);
      } else {
        AddressIsTaken(googleOnly, seen, db, g, newUser);
      }
    }
  }

  /** It happens: account 1 registers the address between the lookups and the writes of the
      sign-in that makes account 2. */
  lemma RegisteredInBetween(googleOnly: bool, email: string, subject: string, hash: Hash, expires: int)
    ensures var g := GoogleIdentity(subject, email, true);
            var calls := [Register(email, 1, hash, 0, expires)];
            && Run(googleOnly, EMPTY, calls).Some? && Beside(calls, g)
            && (var db := Run(googleOnly, EMPTY, calls).value;
                && db.emails[email] == EmailIdentity(1, true)
                && Finish(googleOnly, EMPTY, db, g, 2).Some?
                && (var after := Finish(googleOnly, EMPTY, db, g, 2).value;
                    && after.subjects[subject] == 2 && !HasEmail(after, 2)
                    && after.emails[email] == EmailIdentity(1, false)))
  {
    var calls := [Register(email, 1, hash, 0, expires)];
    assert calls[..0] == [];
    assert Run(googleOnly, EMPTY, calls[..0]) == Some(EMPTY);
  }
}
