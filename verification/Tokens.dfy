/** What rotation and linking keep over every sequence of completed calls. */
module Tokens {
  import opened Rows
  import opened Auth

  // ----- token families -------------------------------------------------------

  predicate Unused(db: AuthDb, h: Hash, f: Family) {
    h in db.tokens && db.tokens[h].family == f && !db.tokens[h].used
  }

  ghost predicate HasUnused(db: AuthDb, f: Family) { exists h :: Unused(db, h, f) }

  ghost predicate OneUnusedAtMost(db: AuthDb, f: Family) {
    forall g, h :: Unused(db, g, f) && Unused(db, h, f) ==> g == h
  }

  /** Every family that exists has exactly one token that was never spent. */
  ghost predicate FamilyInv(db: AuthDb) {
    forall f :: OneUnusedAtMost(db, f) && (KnownFamily(db, f) ==> HasUnused(db, f))
  }

  lemma SameInFamily(db: AuthDb, db': AuthDb, f: Family)
    requires FamilyInv(db)
    requires forall h ::
      (h in db.tokens && db.tokens[h].family == f) <==> (h in db'.tokens && db'.tokens[h].family == f)
    requires forall h :: h in db.tokens && db.tokens[h].family == f ==> db'.tokens[h].used == db.tokens[h].used
    ensures OneUnusedAtMost(db', f) && (KnownFamily(db', f) ==> HasUnused(db', f))
  {
    assert forall h :: Unused(db', h, f) <==> Unused(db, h, f);
    if KnownFamily(db', f) {
      var g :| g in db'.tokens && db'.tokens[g].family == f;
      assert KnownFamily(db, f) && HasUnused(db, f);
      var h :| Unused(db, h, f);
      assert Unused(db', h, f);
    }
  }

  lemma IssueNewFamily(db: AuthDb, user: UserId, family: Family, via: Via, hash: Hash, expires: int)
    requires FamilyInv(db) && hash !in db.tokens && !KnownFamily(db, family)
    ensures FamilyInv(Issue(db, user, family, via, hash, expires))
  {
    var db' := Issue(db, user, family, via, hash, expires);
    forall f ensures OneUnusedAtMost(db', f) && (KnownFamily(db', f) ==> HasUnused(db', f)) {
      assert forall h :: h in db.tokens ==> db'.tokens[h] == db.tokens[h];
      if f == family {
        assert Unused(db', hash, f);
      } else {
        SameInFamily(db, db', f);
      }
    }
  }

  lemma RevokedKeepsFamilies(db: AuthDb, db': AuthDb)
    requires FamilyInv(db) && db'.tokens.Keys == db.tokens.Keys
    requires forall h :: h in db.tokens ==> db'.tokens[h] == db.tokens[h].(revoked := db'.tokens[h].revoked)
    ensures FamilyInv(db')
  {
    forall f ensures OneUnusedAtMost(db', f) && (KnownFamily(db', f) ==> HasUnused(db', f)) {
      SameInFamily(db, db', f);
    }
  }

  lemma RotationKeepsFamilies(googleOnly: bool, db: AuthDb, presented: Hash, now: int, hash: Hash, expires: int)
    requires FamilyInv(db) && hash !in db.tokens
    requires RefreshCall(googleOnly, db, presented, now, hash, expires).1.Session?
    ensures FamilyInv(RefreshCall(googleOnly, db, presented, now, hash, expires).0)
  {
    var db' := RefreshCall(googleOnly, db, presented, now, hash, expires).0;
    var family := db.tokens[presented].family;
    assert Unused(db, presented, family) && OneUnusedAtMost(db, family);
    forall f ensures OneUnusedAtMost(db', f) && (KnownFamily(db', f) ==> HasUnused(db', f)) {
      if f == family {
        assert Unused(db', hash, f);
        assert forall h :: Unused(db', h, f) && h != hash ==> Unused(db, h, f) && h != presented;
      } else {
        SameInFamily(db, db', f);
      }
    }
  }

  lemma CallKeepsFamilies(googleOnly: bool, db: AuthDb, call: Call)
    requires FamilyInv(db) && Drawn(db, call)
    ensures FamilyInv(Apply(googleOnly, db, call).0)
  {
    var db' := Apply(googleOnly, db, call).0;
    match call
    case Register(email, user, hash, family, expires) =>
      if email !in db.emails {
        var made := db.(accounts := db.accounts[user := Active],
                        emails := db.emails[email := EmailIdentity(user, true)]);
        RevokedKeepsFamilies(db, made);
        IssueNewFamily(made, user, family, Email, hash, expires);
      }
    case Login(email, _, hash, family, expires) =>
      if db' != db { IssueNewFamily(db, db.emails[email].user, family, Email, hash, expires); }
    case SignInGoogle(g, user, hash, family, expires) =>
      if g.subject in db.subjects {
        if db' != db { IssueNewFamily(db, db.subjects[g.subject], family, Google, hash, expires); }
      } else {
        var (attached, u, problem) := Attach(googleOnly, db, g, user);
        if attached.Some? {
          RevokedKeepsFamilies(db, attached.value);
          assert !KnownFamily(attached.value, family);
          IssueNewFamily(attached.value, u, family, Google, hash, expires);
        }
      }
    case Refresh(presented, now, hash, expires) =>
      if Apply(googleOnly, db, call).1.Session? {
        RotationKeepsFamilies(googleOnly, db, presented, now, hash, expires);
      } else if db' != db {
        RevokedKeepsFamilies(db, db');
      }
    case SignOut(presented) => if db' != db { RevokedKeepsFamilies(db, db'); }
    case Suspend(user) => RevokedKeepsFamilies(db, db');
  }

  lemma {:induction false} RunKeepsFamilies(googleOnly: bool, calls: seq<Call>)
    requires Run(googleOnly, EMPTY, calls).Some?
    ensures FamilyInv(Run(googleOnly, EMPTY, calls).value)
    decreases |calls|
  {
    if |calls| > 0 {
      RunKeepsFamilies(googleOnly, calls[..|calls| - 1]);
      CallKeepsFamilies(googleOnly, Run(googleOnly, EMPTY, calls[..|calls| - 1]).value, calls[|calls| - 1]);
    }
  }

  /** After any sequence of calls a family never has two live tokens. */
  lemma AtMostOneLiveToken(googleOnly: bool, calls: seq<Call>, g: Hash, h: Hash)
    requires Run(googleOnly, EMPTY, calls).Some?
    requires var db := Run(googleOnly, EMPTY, calls).value;
             && g in db.tokens && h in db.tokens && db.tokens[g].family == db.tokens[h].family
             && db.tokens[g].Live() && db.tokens[h].Live()
    ensures g == h
  {
    RunKeepsFamilies(googleOnly, calls);
    var db := Run(googleOnly, EMPTY, calls).value;
    var f := db.tokens[g].family;
    assert OneUnusedAtMost(db, f) && Unused(db, g, f) && Unused(db, h, f);
  }

  // ----- how many tokens ------------------------------------------------------

  function InFamily(db: AuthDb, f: Family): set<Hash> { set h | h in db.tokens && db.tokens[h].family == f }

  /** Whether this call is a refresh that succeeded on a token of the family. */
  predicate Rotates(googleOnly: bool, db: AuthDb, call: Call, f: Family) {
    call.Refresh? && Apply(googleOnly, db, call).1.Session?
    && call.presented in db.tokens && db.tokens[call.presented].family == f
  }

  function Rotations(googleOnly: bool, calls: seq<Call>, f: Family): nat
    decreases |calls|
  {
    if |calls| == 0 then 0
    else
      var init := calls[..|calls| - 1];
      var before := Run(googleOnly, EMPTY, init);
      Rotations(googleOnly, init, f) +
        (if before.Some? && Rotates(googleOnly, before.value, calls[|calls| - 1], f) then 1 else 0)
  }

  predicate Opens(call: Call) { call.Register? || call.Login? || call.SignInGoogle? }

  /** The family a successful call puts its new token in. */
  function TargetFamily(db: AuthDb, call: Call): Family
    requires Opens(call) || (call.Refresh? && call.presented in db.tokens)
  {
    if call.Refresh? then db.tokens[call.presented].family else call.family
  }

  /** No token changes family or goes; a session is one new token in its target family. */
  predicate Grown(db: AuthDb, call: Call, db': AuthDb, reply: Reply) {
    && (forall h :: h in db.tokens ==> h in db'.tokens && db'.tokens[h].family == db.tokens[h].family)
    && (reply.Session? ==>
         && (Opens(call) || (call.Refresh? && call.presented in db.tokens))
         && reply.token == call.hash && call.hash !in db.tokens
         && db'.tokens.Keys == db.tokens.Keys + {call.hash}
         && db'.tokens[call.hash].family == TargetFamily(db, call))
    && (!reply.Session? ==> db'.tokens.Keys == db.tokens.Keys)
  }

  lemma GoogleTokensGrow(googleOnly: bool, db: AuthDb, call: Call)
    requires Drawn(db, call) && call.SignInGoogle?
    ensures var (db', reply) := Apply(googleOnly, db, call); Grown(db, call, db', reply)
  {
  }

  lemma TokensGrow(googleOnly: bool, db: AuthDb, call: Call)
    requires Drawn(db, call)
    ensures var (db', reply) := Apply(googleOnly, db, call); Grown(db, call, db', reply)
  {
    if call.SignInGoogle? { GoogleTokensGrow(googleOnly, db, call); }
  }

  lemma GrownFamily(db: AuthDb, call: Call, db': AuthDb, reply: Reply, f: Family)
    requires Grown(db, call, db', reply)
    ensures InFamily(db', f)
         == InFamily(db, f) + if reply.Session? && TargetFamily(db, call) == f then {call.hash} else {}
  {
  }

  lemma FamilySize(db: AuthDb, f: Family)
    ensures KnownFamily(db, f) <==> InFamily(db, f) != {}
  {
    if KnownFamily(db, f) {
      var h :| h in db.tokens && db.tokens[h].family == f;
      assert h in InFamily(db, f);
    } else {
      assert InFamily(db, f) == {};
    }
  }

  /** A call adds one token to a family: by opening it or by rotating one of its tokens. */
  lemma FamilyGrows(googleOnly: bool, db: AuthDb, call: Call, f: Family)
    requires Drawn(db, call)
    ensures var db' := Apply(googleOnly, db, call).0;
            if Rotates(googleOnly, db, call, f) then
              KnownFamily(db, f) && call.hash !in InFamily(db, f) && InFamily(db', f) == InFamily(db, f) + {call.hash}
            else if KnownFamily(db, f) then InFamily(db', f) == InFamily(db, f)
            else InFamily(db', f) == {} || (Opens(call) && InFamily(db', f) == {call.hash})
  {
    TokensGrow(googleOnly, db, call);
    GrownFamily(db, call, Apply(googleOnly, db, call).0, Apply(googleOnly, db, call).1, f);
    FamilySize(db, f);
  }

  /** A family that exists holds exactly one token more than its successful refreshes. */
  lemma {:induction false} TokensAreOnePlusRotations(googleOnly: bool, calls: seq<Call>, f: Family)
    requires Run(googleOnly, EMPTY, calls).Some?
    ensures var family := InFamily(Run(googleOnly, EMPTY, calls).value, f);
            if family == {} then Rotations(googleOnly, calls, f) == 0
            else |family| == 1 + Rotations(googleOnly, calls, f)
    decreases |calls|
  {
    if |calls| == 0 {
      assert InFamily(EMPTY, f) == {};
    } else {
      var init := calls[..|calls| - 1];
      TokensAreOnePlusRotations(googleOnly, init, f);
      var db := Run(googleOnly, EMPTY, init).value;
      FamilyGrows(googleOnly, db, calls[|calls| - 1], f);
      FamilySize(db, f);
    }
  }

  // ----- revocation is final --------------------------------------------------

  predicate Dead(db: AuthDb, f: Family) {
    KnownFamily(db, f) && forall h :: h in db.tokens && db.tokens[h].family == f ==> db.tokens[h].revoked
  }

  /** A reuse report and a sign-out each end the whole family. */
  lemma ReuseAndSignOutEndTheFamily(googleOnly: bool, db: AuthDb, call: Call)
    requires || (call.Refresh? && Apply(googleOnly, db, call).1 == Fail(TokenReuse))
             || (call.SignOut? && call.presented in db.tokens)
    ensures call.presented in db.tokens && Dead(Apply(googleOnly, db, call).0, db.tokens[call.presented].family)
  {
    var db' := Apply(googleOnly, db, call).0;
    assert db'.tokens[call.presented].family == db.tokens[call.presented].family;
  }

  lemma DeadStaysDead(googleOnly: bool, db: AuthDb, call: Call, f: Family)
    requires Dead(db, f) && Drawn(db, call)
    ensures Dead(Apply(googleOnly, db, call).0, f)
    ensures call.Refresh? && call.presented in db.tokens && db.tokens[call.presented].family == f ==>
      !Apply(googleOnly, db, call).1.Session?
  {
    var h :| h in db.tokens && db.tokens[h].family == f;
    assert Apply(googleOnly, db, call).0.tokens[h].family == f;
  }

  /** No later sequence of calls gives an ended family a live token or a session. */
  lemma {:induction false} EndedFamilyNeverReturns(googleOnly: bool, db: AuthDb, calls: seq<Call>, f: Family)
    requires Dead(db, f) && Run(googleOnly, db, calls).Some?
    ensures Dead(Run(googleOnly, db, calls).value, f)
    ensures var tokens := Run(googleOnly, db, calls).value.tokens;
            forall h :: h in tokens && tokens[h].family == f ==> !tokens[h].Live()
    decreases |calls|
  {
    if |calls| > 0 {
      var init := calls[..|calls| - 1];
      EndedFamilyNeverReturns(googleOnly, db, init, f);
      DeadStaysDead(googleOnly, Run(googleOnly, db, init).value, calls[|calls| - 1], f);
    }
  }

  // ----- identities -----------------------------------------------------------

  ghost predicate HasEmail(db: AuthDb, u: UserId) { exists e :: e in db.emails && db.emails[e].user == u }

  /** One email identity an account. */
  ghost predicate EmailsInv(db: AuthDb) {
    && (forall u :: u in db.accounts ==> HasEmail(db, u))
    && (forall d, e :: d in db.emails && e in db.emails && db.emails[d].user == db.emails[e].user ==> d == e)
    && (forall e :: e in db.emails ==> db.emails[e].user in db.accounts)
  }

  /** At most one Google subject an account, and no password beside it. */
  predicate SubjectsInv(db: AuthDb) {
    && (forall r, s :: r in db.subjects && s in db.subjects && db.subjects[r] == db.subjects[s] ==> r == s)
    && (forall s :: s in db.subjects ==> db.subjects[s] in db.accounts)
    && (forall s, e :: s in db.subjects && e in db.emails && db.emails[e].user == db.subjects[s] ==>
         !db.emails[e].hasPassword)
  }

  ghost predicate IdentityInv(db: AuthDb) { EmailsInv(db) && SubjectsInv(db) }

  lemma EmailsMove(db: AuthDb, db': AuthDb, u: UserId)
    requires HasEmail(db, u)
    requires forall e :: e in db.emails ==> e in db'.emails && db'.emails[e].user == db.emails[e].user
    ensures HasEmail(db', u)
  {
    var e :| e in db.emails && db.emails[e].user == u;
    assert e in db'.emails && db'.emails[e].user == u;
  }

  function WithAccount(db: AuthDb, user: UserId, email: string, hasPassword: bool): AuthDb {
    db.(accounts := db.accounts[user := Active], emails := db.emails[email := EmailIdentity(user, hasPassword)])
  }

  lemma NewAccount(db: AuthDb, user: UserId, email: string, hasPassword: bool)
    requires IdentityInv(db) && user !in db.accounts && email !in db.emails
    ensures IdentityInv(WithAccount(db, user, email, hasPassword))
  {
    var db' := WithAccount(db, user, email, hasPassword);
    forall u | u in db'.accounts ensures HasEmail(db', u) {
      if u == user {
        assert email in db'.emails && db'.emails[email].user == u;
      } else {
        EmailsMove(db, db', u);
      }
    }
  }

  /** Linking a subject to the one account its email belongs to, dropping the password. */
  function WithSubject(db: AuthDb, subject: string, email: string): AuthDb
    requires email in db.emails
  {
    var u := db.emails[email].user;
    db.(subjects := db.subjects[subject := u], emails := db.emails[email := EmailIdentity(u, false)])
  }

  lemma LinkedSubjects(db: AuthDb, subject: string, email: string)
    requires IdentityInv(db) && subject !in db.subjects && email in db.emails
    requires forall s :: s in db.subjects ==> db.subjects[s] != db.emails[email].user
    ensures SubjectsInv(WithSubject(db, subject, email))
  {
  }

  lemma LinkSubject(db: AuthDb, subject: string, email: string)
    requires IdentityInv(db) && subject !in db.subjects && email in db.emails
    requires forall s :: s in db.subjects ==> db.subjects[s] != db.emails[email].user
    ensures IdentityInv(WithSubject(db, subject, email))
  {
    var db' := WithSubject(db, subject, email);
    forall v | v in db'.accounts ensures HasEmail(db', v) {
      EmailsMove(db, db', v);
    }
    LinkedSubjects(db, subject, email);
  }

  lemma SameIdentities(db: AuthDb, db': AuthDb)
    requires IdentityInv(db) && db'.accounts.Keys == db.accounts.Keys
    requires db'.emails == db.emails && db'.subjects == db.subjects
    ensures IdentityInv(db')
  {
    forall u | u in db'.accounts ensures HasEmail(db', u) {
      EmailsMove(db, db', u);
    }
  }

  lemma NewGoogleAccount(db: AuthDb, user: UserId, subject: string, email: string)
    requires IdentityInv(db) && user !in db.accounts && email !in db.emails && subject !in db.subjects
    ensures IdentityInv(WithSubject(WithAccount(db, user, email, false), subject, email))
  {
    NewAccount(db, user, email, false);
    LinkSubject(WithAccount(db, user, email, false), subject, email);
  }

  lemma GoogleCreates(googleOnly: bool, db: AuthDb, call: Call)
    requires IdentityInv(db) && Drawn(db, call) && call.SignInGoogle?
    requires call.identity.subject !in db.subjects && call.identity.email !in db.emails
    ensures IdentityInv(Apply(googleOnly, db, call).0)
  {
    var g, user := call.identity, call.user;
    NewGoogleAccount(db, user, g.subject, g.email);
    SameIdentities(WithSubject(WithAccount(db, user, g.email, false), g.subject, g.email),
                   Apply(googleOnly, db, call).0);
  }

  lemma NotGoogle(db: AuthDb, u: UserId)
    requires !HasGoogle(db, u)
    ensures forall s :: s in db.subjects ==> db.subjects[s] != u
  {
  }

  lemma GoogleLinks(googleOnly: bool, db: AuthDb, call: Call)
    requires IdentityInv(db) && Drawn(db, call) && call.SignInGoogle?
    requires call.identity.subject !in db.subjects && call.identity.email in db.emails
    ensures IdentityInv(Apply(googleOnly, db, call).0)
  {
    var db', g := Apply(googleOnly, db, call).0, call.identity;
    if Attach(googleOnly, db, g, call.user).0.Some? {
      NotGoogle(db, db.emails[g.email].user);
      LinkSubject(db, g.subject, g.email);
      SameIdentities(WithSubject(db, g.subject, g.email), db');
    }
  }

  lemma GoogleKeepsIdentities(googleOnly: bool, db: AuthDb, call: Call)
    requires IdentityInv(db) && Drawn(db, call) && call.SignInGoogle?
    ensures IdentityInv(Apply(googleOnly, db, call).0)
  {
    if call.identity.subject in db.subjects {
      SameIdentities(db, Apply(googleOnly, db, call).0);
    } else if call.identity.email !in db.emails {
      GoogleCreates(googleOnly, db, call);
    } else {
      GoogleLinks(googleOnly, db, call);
    }
  }

  lemma CallKeepsIdentities(googleOnly: bool, db: AuthDb, call: Call)
    requires IdentityInv(db) && Drawn(db, call)
    ensures IdentityInv(Apply(googleOnly, db, call).0)
  {
    var db' := Apply(googleOnly, db, call).0;
    match call
    case Register(email, user, _, _, _) =>
      if email !in db.emails {
        NewAccount(db, user, email, true);
        SameIdentities(WithAccount(db, user, email, true), db');
      }
    case SignInGoogle(_, _, _, _, _) => GoogleKeepsIdentities(googleOnly, db, call);
    case _ => SameIdentities(db, db');
  }

  /** After any sequence of calls: one email identity an account, at most one Google
      subject, and no password beside a Google identity. */
  lemma {:induction false} RunKeepsIdentities(googleOnly: bool, calls: seq<Call>)
    requires Run(googleOnly, EMPTY, calls).Some?
    ensures IdentityInv(Run(googleOnly, EMPTY, calls).value)
    decreases |calls|
  {
    if |calls| > 0 {
      RunKeepsIdentities(googleOnly, calls[..|calls| - 1]);
      CallKeepsIdentities(googleOnly, Run(googleOnly, EMPTY, calls[..|calls| - 1]).value, calls[|calls| - 1]);
    }
  }

  predicate Inactive(db: AuthDb, u: UserId) { u in db.accounts && db.accounts[u] != Active }

  lemma GoogleInactive(googleOnly: bool, db: AuthDb, call: Call, u: UserId)
    requires Inactive(db, u) && Drawn(db, call) && call.SignInGoogle?
    ensures var (db', reply) := Apply(googleOnly, db, call);
            Inactive(db', u) && (reply.Session? ==> reply.token in db'.tokens && db'.tokens[reply.token].user != u)
  {
  }

  /** No call activates an inactive account or gives it a token. */
  lemma InactiveGetsNothing(googleOnly: bool, db: AuthDb, call: Call, u: UserId)
    requires Inactive(db, u) && Drawn(db, call)
    ensures var (db', reply) := Apply(googleOnly, db, call);
            Inactive(db', u) && (reply.Session? ==> reply.token in db'.tokens && db'.tokens[reply.token].user != u)
  {
    if call.SignInGoogle? { GoogleInactive(googleOnly, db, call, u); }
  }

  lemma SuspendedIsInactive(googleOnly: bool, db: AuthDb, u: UserId)
    requires u in db.accounts
    ensures var db' := Apply(googleOnly, db, Suspend(u)).0;
            && Inactive(db', u) && db'.emails == db.emails && db'.subjects == db.subjects && db'.tokens == db.tokens
            && db'.accounts.Keys == db.accounts.Keys
            && forall v :: v in db.accounts && v != u ==> db'.accounts[v] == db.accounts[v]
  {
  }

  /** From its suspension on, through any sequence of calls, no call gives an account a session:
      not a password, not Google, not a refresh token it still holds. */
  lemma {:induction false} SuspendedStaysOut(googleOnly: bool, db: AuthDb, later: seq<Call>, call: Call, u: UserId)
    requires u in db.accounts && Run(googleOnly, Apply(googleOnly, db, Suspend(u)).0, later).Some?
    requires Drawn(Run(googleOnly, Apply(googleOnly, db, Suspend(u)).0, later).value, call)
    ensures var now := Run(googleOnly, Apply(googleOnly, db, Suspend(u)).0, later).value;
            var (db', reply) := Apply(googleOnly, now, call);
            Inactive(now, u) && (reply.Session? ==> reply.token in db'.tokens && db'.tokens[reply.token].user != u)
    decreases |later|
  {
    SuspendedIsInactive(googleOnly, db, u);
    if |later| > 0 {
      var init, last := later[..|later| - 1], later[|later| - 1];
      SuspendedStaysOut(googleOnly, db, init, last, u);
      InactiveGetsNothing(googleOnly, Run(googleOnly, Apply(googleOnly, db, Suspend(u)).0, init).value, last, u);
    }
    InactiveGetsNothing(googleOnly, Run(googleOnly, Apply(googleOnly, db, Suspend(u)).0, later).value, call, u);
  }

  lemma StaysRevoked(googleOnly: bool, db: AuthDb, call: Call, h: Hash)
    requires h in db.tokens && db.tokens[h].revoked && Drawn(db, call)
    ensures h in Apply(googleOnly, db, call).0.tokens && Apply(googleOnly, db, call).0.tokens[h].revoked
  {
  }

  lemma {:induction false} RevocationIsFinal(googleOnly: bool, db: AuthDb, later: seq<Call>, h: Hash)
    requires h in db.tokens && db.tokens[h].revoked && Run(googleOnly, db, later).Some?
    ensures h in Run(googleOnly, db, later).value.tokens && Run(googleOnly, db, later).value.tokens[h].revoked
    decreases |later|
  {
    if |later| > 0 {
      var init := later[..|later| - 1];
      RevocationIsFinal(googleOnly, db, init, h);
      StaysRevoked(googleOnly, Run(googleOnly, db, init).value, later[|later| - 1], h);
    }
  }

  lemma LinkRevokes(googleOnly: bool, db: AuthDb, link: Call, h: Hash)
    requires link.SignInGoogle? && Drawn(db, link)
    requires link.identity.subject !in db.subjects && link.identity.email in db.emails
    requires Apply(googleOnly, db, link).1.Session?
    requires h in db.tokens && db.tokens[h].user == db.emails[link.identity.email].user
    ensures h in Apply(googleOnly, db, link).0.tokens && Apply(googleOnly, db, link).0.tokens[h].revoked
  {
  }

  /** A link revokes every token the account had, for good. */
  lemma LinkEndsEarlierSessions(googleOnly: bool, db: AuthDb, link: Call, later: seq<Call>, h: Hash)
    requires link.SignInGoogle? && Drawn(db, link)
    requires link.identity.subject !in db.subjects && link.identity.email in db.emails
    requires Apply(googleOnly, db, link).1.Session?
    requires h in db.tokens && db.tokens[h].user == db.emails[link.identity.email].user
    requires Run(googleOnly, Apply(googleOnly, db, link).0, later).Some?
    ensures var after := Run(googleOnly, Apply(googleOnly, db, link).0, later).value;
            h in after.tokens && after.tokens[h].revoked
  {
    LinkRevokes(googleOnly, db, link, h);
    RevocationIsFinal(googleOnly, Apply(googleOnly, db, link).0, later, h);
  }

  /** When a new Google subject is let into an existing account: exactly in Google-only
      mode, with an authoritative address, an active account and no other subject. */
  lemma LinkIff(googleOnly: bool, db: AuthDb, link: Call)
    requires IdentityInv(db) && link.SignInGoogle? && Drawn(db, link)
    requires link.identity.subject !in db.subjects && link.identity.email in db.emails
    ensures var u := db.emails[link.identity.email].user;
            Apply(googleOnly, db, link).1.Session? <==>
              googleOnly && link.identity.authoritative && db.accounts[u] == Active
              && forall s :: s in db.subjects ==> db.subjects[s] != u
  {
  }
}
