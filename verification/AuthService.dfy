/** The sign-in service as the code runs it, in its callers' terms. */
module AuthService {
  import opened Rows
  import opened Auth
  import opened Tokens

  /** `hash` is the one live token of its family, for this user and until this moment. */
  ghost predicate Holds(db: AuthDb, hash: Hash, user: UserId, family: Family, via: Via, expires: int) {
    && hash in db.tokens && db.tokens[hash] == Token(user, family, false, false, expires, via)
    && forall h :: h in db.tokens && db.tokens[h].family == family && db.tokens[h].Live() ==> h == hash
  }

  /** A session in a family of its own, and no other new token. */
  ghost predicate NewSession(db: AuthDb, db': AuthDb, hash: Hash, user: UserId, family: Family, via: Via,
                             expires: int)
  {
    && Holds(db', hash, user, family, via, expires)
    && (forall h :: h in db'.tokens && db'.tokens[h].family == family ==> h == hash)
    && db'.tokens.Keys == db.tokens.Keys + {hash}
  }

  predicate SameTokens(db: AuthDb, db': AuthDb) {
    forall h :: h in db.tokens ==> h in db'.tokens && db'.tokens[h] == db.tokens[h]
  }

  predicate SameAccounts(db: AuthDb, db': AuthDb) {
    db'.accounts == db.accounts && db'.emails == db.emails && db'.subjects == db.subjects
  }

  /** Nothing is added, taken or changed but the entry of `k`. */
  ghost predicate OnlyEntry<K(!new), V(!new)>(m: map<K, V>, m': map<K, V>, k: K) {
    forall x :: x != k ==> (x in m' <==> x in m) && (x in m ==> m'[x] == m[x])
  }

  predicate IsActive(db: AuthDb, u: UserId) { u in db.accounts && db.accounts[u] == Active }

  /** A stored token this deployment accepts. */
  predicate Accepted(googleOnly: bool, db: AuthDb, presented: Hash) {
    presented in db.tokens && (googleOnly ==> db.tokens[presented].via == Google)
  }

  /** And of an account that may sign in. */
  predicate Presentable(googleOnly: bool, db: AuthDb, presented: Hash) {
    Accepted(googleOnly, db, presented) && IsActive(db, db.tokens[presented].user)
  }

  ghost predicate Sound(db: AuthDb) { FamilyInv(db) && IdentityInv(db) }

  lemma CallIsSound(googleOnly: bool, db: AuthDb, call: Call)
    requires Sound(db) && Drawn(db, call)
    ensures Sound(Apply(googleOnly, db, call).0)
  {
    CallKeepsFamilies(googleOnly, db, call);
    CallKeepsIdentities(googleOnly, db, call);
  }

  /** In a sound database a live token is the only one of its family. */
  lemma LiveIsHeld(db: AuthDb, hash: Hash)
    requires FamilyInv(db) && hash in db.tokens && db.tokens[hash].Live()
    ensures var t := db.tokens[hash]; Holds(db, hash, t.user, t.family, t.via, t.expires)
  {
    var family := db.tokens[hash].family;
    assert OneUnusedAtMost(db, family) && Unused(db, hash, family);
    forall h | h in db.tokens && db.tokens[h].family == family && db.tokens[h].Live() ensures h == hash {
      assert Unused(db, h, family);
    }
  }

  /** Every token of the family is revoked, and nothing else about any token has changed. */
  predicate Ended(db: AuthDb, db': AuthDb, family: Family) {
    && Dead(db', family) && db'.tokens.Keys == db.tokens.Keys
    && forall h :: h in db.tokens ==>
         db'.tokens[h] == if db.tokens[h].family == family then db.tokens[h].(revoked := true) else db.tokens[h]
  }

  lemma RevokedIsEnded(db: AuthDb, presented: Hash)
    requires presented in db.tokens
    ensures var family := db.tokens[presented].family;
            Ended(db, db.(tokens := RevokeFamily(db.tokens, family)), family)
  {
    var tokens := RevokeFamily(db.tokens, db.tokens[presented].family);
    assert presented in tokens && tokens[presented].family == db.tokens[presented].family;
  }

  lemma NewHasNoGoogle(db: AuthDb, db': AuthDb, user: UserId)
    requires IdentityInv(db) && user !in db.accounts && db'.subjects == db.subjects
    ensures !HasGoogle(db', user)
  {
  }

  lemma PasswordMeansNoGoogle(db: AuthDb, email: string)
    requires IdentityInv(db) && email in db.emails && db.emails[email].hasPassword
    ensures !HasGoogle(db, db.emails[email].user)
  {
  }

  lemma NothingIsSound()
    ensures Sound(EMPTY)
  {
  }

  /** Whom a Google identity lets in: an active account it already belongs to, a new
      address, or in Google-only mode the active owner of an authoritative address who has
      no other subject. */
  predicate Admitted(googleOnly: bool, db: AuthDb, g: GoogleIdentity) {
    if g.subject in db.subjects then IsActive(db, db.subjects[g.subject])
    else g.email in db.emails ==>
      googleOnly && g.authoritative && IsActive(db, db.emails[g.email].user) && !HasGoogle(db, db.emails[g.email].user)
  }

  /** The account an identity that is known by its subject or its address belongs to. */
  function Owner(db: AuthDb, g: GoogleIdentity): UserId {
    if g.subject in db.subjects then db.subjects[g.subject]
    else if g.email in db.emails then db.emails[g.email].user else 0
  }

  /** A first sign-in under a new address: a new active account with both identities. */
  ghost predicate Created(db: AuthDb, db': AuthDb, g: GoogleIdentity, user: UserId) {
    && user !in db.accounts && IsActive(db', user) && OnlyEntry(db.accounts, db'.accounts, user)
    && g.subject in db'.subjects && db'.subjects[g.subject] == user && OnlyEntry(db.subjects, db'.subjects, g.subject)
    && g.email in db'.emails && db'.emails[g.email] == EmailIdentity(user, false)
    && OnlyEntry(db.emails, db'.emails, g.email)
  }

  /** A first sign-in under a known address: its account gains the subject, loses the password
      and has all its earlier tokens revoked; nobody else's change. */
  ghost predicate Linked(db: AuthDb, db': AuthDb, g: GoogleIdentity)
    requires g.email in db.emails
  {
    var user := db.emails[g.email].user;
    && db'.accounts == db.accounts
    && g.subject in db'.subjects && db'.subjects[g.subject] == user && OnlyEntry(db.subjects, db'.subjects, g.subject)
    && g.email in db'.emails && db'.emails[g.email] == EmailIdentity(user, false)
    && OnlyEntry(db.emails, db'.emails, g.email)
    && forall h :: h in db.tokens ==>
         && h in db'.tokens
         && db'.tokens[h] == if db.tokens[h].user == user then db.tokens[h].(revoked := true) else db.tokens[h]
  }

  /** What a Google sign-in leaves: the subject's account holds the session, and the subject is
      one it had, one of a new account, or one linked to its address's account. */
  ghost predicate SignedIn(db: AuthDb, db': AuthDb, g: GoogleIdentity, newUser: UserId, hash: Hash, family: Family,
                           expires: int)
  {
    && g.subject in db'.subjects && IsActive(db', db'.subjects[g.subject])
    && NewSession(db, db', hash, db'.subjects[g.subject], family, Google, expires)
    && if g.subject in db.subjects then SameAccounts(db, db') && SameTokens(db, db')
       else if g.email in db.emails then Linked(db, db', g)
       else Created(db, db', g, newUser) && SameTokens(db, db')
  }

  lemma GoogleAdmits(googleOnly: bool, db: AuthDb, call: Call)
    requires Sound(db) && Drawn(db, call) && call.SignInGoogle?
    ensures Apply(googleOnly, db, call).1.Session? <==> Admitted(googleOnly, db, call.identity)
    ensures Apply(googleOnly, db, call).1.Session? ==>
      var db', g := Apply(googleOnly, db, call).0, call.identity;
      && g.subject in db'.subjects && IsActive(db', db'.subjects[g.subject])
      && call.hash in db'.tokens
      && db'.tokens[call.hash] == Token(db'.subjects[g.subject], call.family, false, false, call.expires, Google)
  {
  }

  lemma GoogleIdentities(googleOnly: bool, db: AuthDb, call: Call)
    requires Sound(db) && Drawn(db, call) && call.SignInGoogle? && Apply(googleOnly, db, call).1.Session?
    ensures var db', g := Apply(googleOnly, db, call).0, call.identity;
            if g.subject in db.subjects then SameAccounts(db, db') && SameTokens(db, db')
            else if g.email in db.emails then Linked(db, db', g)
            else Created(db, db', g, call.user) && SameTokens(db, db')
  {
  }

  lemma GoogleSession(googleOnly: bool, db: AuthDb, call: Call)
    requires Sound(db) && Drawn(db, call) && call.SignInGoogle?
    ensures Apply(googleOnly, db, call).1.Session? <==> Admitted(googleOnly, db, call.identity)
    ensures Apply(googleOnly, db, call).1.Session? ==>
      SignedIn(db, Apply(googleOnly, db, call).0, call.identity, call.user, call.hash, call.family, call.expires)
  {
    GoogleAdmits(googleOnly, db, call);
    if Apply(googleOnly, db, call).1.Session? {
      GoogleTokensGrow(googleOnly, db, call);
      GoogleIdentities(googleOnly, db, call);
      CallKeepsFamilies(googleOnly, db, call);
      LiveIsHeld(Apply(googleOnly, db, call).0, call.hash);
    }
  }

  /** A new active account with its address, its first session and no Google identity. */
  ghost predicate Registered(db: AuthDb, db': AuthDb, email: string, user: UserId, hash: Hash, family: Family,
                             expires: int)
  {
    && user !in db.accounts && IsActive(db', user) && OnlyEntry(db.accounts, db'.accounts, user)
    && email in db'.emails && db'.emails[email] == EmailIdentity(user, true) && OnlyEntry(db.emails, db'.emails, email)
    && !HasGoogle(db', user) && db'.subjects == db.subjects
    && NewSession(db, db', hash, user, family, Email, expires) && SameTokens(db, db')
  }

  lemma RegisterSession(googleOnly: bool, db: AuthDb, call: Call)
    requires Sound(db) && Drawn(db, call) && call.Register?
    ensures Apply(googleOnly, db, call).1.Session? ==>
      Registered(db, Apply(googleOnly, db, call).0, call.email, call.user, call.hash, call.family, call.expires)
  {
    var db' := Apply(googleOnly, db, call).0;
    if Apply(googleOnly, db, call).1.Session? {
      CallKeepsFamilies(googleOnly, db, call);
      LiveIsHeld(db', call.hash);
      NewHasNoGoogle(db, db', call.user);
    }
  }

  lemma LoginSession(googleOnly: bool, db: AuthDb, call: Call)
    requires Sound(db) && Drawn(db, call) && call.Login?
    ensures SameAccounts(db, Apply(googleOnly, db, call).0) && SameTokens(db, Apply(googleOnly, db, call).0)
    ensures Apply(googleOnly, db, call).1.Session? ==>
      && !HasGoogle(db, db.emails[call.email].user)
      && NewSession(db, Apply(googleOnly, db, call).0, call.hash, db.emails[call.email].user, call.family, Email,
                    call.expires)
  {
    var db' := Apply(googleOnly, db, call).0;
    if Apply(googleOnly, db, call).1.Session? {
      CallKeepsFamilies(googleOnly, db, call);
      LiveIsHeld(db', call.hash);
      PasswordMeansNoGoogle(db, call.email);
    }
  }

  /** The presented token is spent, the new one is its family's only live token, and every
      other token is as it was. */
  ghost predicate Rotated(db: AuthDb, db': AuthDb, presented: Hash, hash: Hash, expires: int)
    requires presented in db.tokens
  {
    var t := db.tokens[presented];
    && db'.tokens.Keys == db.tokens.Keys + {hash}
    && db'.tokens[presented] == t.(used := true) && Holds(db', hash, t.user, t.family, t.via, expires)
    && forall h :: h in db.tokens && h != presented ==> db'.tokens[h] == db.tokens[h]
  }

  lemma RefreshSession(googleOnly: bool, db: AuthDb, call: Call)
    requires Sound(db) && Drawn(db, call) && call.Refresh?
    ensures SameAccounts(db, Apply(googleOnly, db, call).0)
    ensures Apply(googleOnly, db, call).1.Session? ==>
      call.presented in db.tokens && Rotated(db, Apply(googleOnly, db, call).0, call.presented, call.hash, call.expires)
    ensures Apply(googleOnly, db, call).1 == Fail(TokenReuse) ==>
      call.presented in db.tokens && Ended(db, Apply(googleOnly, db, call).0, db.tokens[call.presented].family)
  {
    var db' := Apply(googleOnly, db, call).0;
    if Apply(googleOnly, db, call).1.Session? {
      CallKeepsFamilies(googleOnly, db, call);
      LiveIsHeld(db', call.hash);
    } else if Apply(googleOnly, db, call).1 == Fail(TokenReuse) {
      RevokedIsEnded(db, call.presented);
    }
  }

  /** A session exactly for a live, unexpired token; a reuse report exactly for a spent one. */
  lemma RefreshAnswers(googleOnly: bool, db: AuthDb, call: Call)
    requires call.Refresh?
    ensures var reply := Apply(googleOnly, db, call).1;
            var ok := Presentable(googleOnly, db, call.presented);
            && (reply.Session? <==>
                 ok && db.tokens[call.presented].Live() && call.now <= db.tokens[call.presented].expires)
            && (reply == Fail(TokenReuse) <==> ok && db.tokens[call.presented].used)
            && (reply == Fail(UserSuspended) <==>
                 Accepted(googleOnly, db, call.presented) && !IsActive(db, db.tokens[call.presented].user))
            && (!reply.Session? && reply != Fail(TokenReuse) && reply != Fail(UserSuspended) ==>
                 reply == Fail(InvalidToken))
            && (!reply.Session? && reply != Fail(TokenReuse) ==> Apply(googleOnly, db, call).0 == db)
  {
  }

  class Service {
    const googleOnly: bool
    var accounts: map<UserId, Status>
    var emails: map<string, EmailIdentity>
    var subjects: map<string, UserId>
    var tokens: map<Hash, Token>

    function Contents(): AuthDb
      reads this
    {
      AuthDb(accounts, emails, subjects, tokens)
    }

    /** One unspent token a family, one email identity an account, no password beside Google. */
    ghost predicate Valid()
      reads this
    {
      Sound(Contents())
    }

    constructor (googleOnly: bool)
      ensures this.googleOnly == googleOnly && Contents() == EMPTY && Valid()
    {
      this.googleOnly := googleOnly;
      accounts, emails, subjects, tokens := map[], map[], map[], map[];
      new;
      NothingIsSound();
    }

    method IssueToken(user: UserId, family: Family, via: Via, hash: Hash, expires: int)
      modifies this`tokens
      ensures Contents() == Issue(old(Contents()), user, family, via, hash, expires)
    {
      tokens := tokens[hash := Token(user, family, false, false, expires, via)];
    }

    /** Refused exactly when the address is taken, whether by a password or by Google. */
    method RegisterEmail(email: string, user: UserId, hash: Hash, family: Family, expires: int) returns (reply: Reply)
      requires Valid() && Drawn(Contents(), Register(email, user, hash, family, expires))
      modifies this
      ensures Valid()
      ensures (Contents(), reply) == Apply(googleOnly, old(Contents()), Register(email, user, hash, family, expires))
      ensures email in old(emails) <==> reply == Fail(EmailTaken)
      ensures reply.Fail? ==> Contents() == old(Contents())
      ensures !reply.Fail? ==>
        && reply == Session(hash) && user !in old(accounts)
        && Registered(old(Contents()), Contents(), email, user, hash, family, expires)
    {
      ghost var db, call := Contents(), Register(email, user, hash, family, expires);
      CallIsSound(googleOnly, db, call);
      RegisterSession(googleOnly, db, call);
      if email in emails { return Fail(EmailTaken); }
      accounts := accounts[user := Active];
      emails := emails[email := EmailIdentity(user, true)];
      IssueToken(user, family, Email, hash, expires);
      reply := Session(hash);
    }

    /** A session exactly for the right password of an active account. */
    method LoginEmail(email: string, passwordMatches: bool, hash: Hash, family: Family, expires: int)
      returns (reply: Reply)
      requires Valid() && Drawn(Contents(), Login(email, passwordMatches, hash, family, expires))
      modifies this
      ensures Valid()
      ensures (Contents(), reply)
        == Apply(googleOnly, old(Contents()), Login(email, passwordMatches, hash, family, expires))
      ensures reply == Fail(BadCredentials) <==>
        !(email in old(emails) && old(emails)[email].hasPassword && passwordMatches)
      ensures reply.Session? <==>
        email in old(emails) && old(emails)[email].hasPassword && passwordMatches
        && IsActive(old(Contents()), old(emails)[email].user)
      ensures SameAccounts(old(Contents()), Contents()) && SameTokens(old(Contents()), Contents())
      ensures reply.Session? ==>
        && reply.token == hash && !HasGoogle(Contents(), emails[email].user)
        && NewSession(old(Contents()), Contents(), hash, emails[email].user, family, Email, expires)
      ensures !reply.Session? ==> Contents() == old(Contents()) && reply in {Fail(BadCredentials), Fail(UserSuspended)}
    {
      ghost var db, call := Contents(), Login(email, passwordMatches, hash, family, expires);
      CallIsSound(googleOnly, db, call);
      LoginSession(googleOnly, db, call);
      if email !in emails || !emails[email].hasPassword || !passwordMatches { return Fail(BadCredentials); }
      var user := emails[email].user;
      if user !in accounts || accounts[user] != Active { return Fail(UserSuspended); }
      IssueToken(user, family, Email, hash, expires);
      reply := Session(hash);
    }

    /** A subject seen for the first time: a new account, or the address's own. */
    method AttachSubject(g: GoogleIdentity, newUser: UserId) returns (user: UserId, refused: Option<Auth.Problem>)
      requires g.subject !in subjects && newUser !in accounts
      modifies this
      ensures var (attached, u, problem) := Attach(googleOnly, old(Contents()), g, newUser);
              user == u && if attached.Some? then refused == None && Contents() == attached.value
                           else refused == Some(problem) && Contents() == old(Contents())
    {
      refused := None;
      if g.email !in emails {
        user := newUser;
        accounts := accounts[user := Active];
      } else {
        user := emails[g.email].user;
        if user !in accounts || accounts[user] != Active { return user, Some(UserSuspended); }
        var hasGoogle := exists s :: s in subjects && subjects[s] == user;
        if !googleOnly || !g.authoritative || hasGoogle { return user, Some(LinkRequired); }
        tokens := RevokeUser(tokens, user);
      }
      subjects := subjects[g.subject := user];
      emails := emails[g.email := EmailIdentity(user, false)];
    }

    /** Signs in by subject; otherwise creates an account for a new address, or links to the
        address's account and ends all its earlier sessions. */
    method SignInWithGoogle(g: GoogleIdentity, newUser: UserId, hash: Hash, family: Family, expires: int)
      returns (reply: Reply)
      requires Valid() && Drawn(Contents(), SignInGoogle(g, newUser, hash, family, expires))
      modifies this
      ensures Valid()
      ensures (Contents(), reply)
        == Apply(googleOnly, old(Contents()), SignInGoogle(g, newUser, hash, family, expires))
      ensures reply.Session? <==> Admitted(googleOnly, old(Contents()), g)
      ensures !reply.Session? ==> Contents() == old(Contents())
      ensures reply.Session? ==>
        reply.token == hash && SignedIn(old(Contents()), Contents(), g, newUser, hash, family, expires)
      ensures !reply.Session? ==>
        reply == Fail(if IsActive(old(Contents()), Owner(old(Contents()), g)) then LinkRequired else UserSuspended)
    {
      ghost var db, call := Contents(), SignInGoogle(g, newUser, hash, family, expires);
      CallIsSound(googleOnly, db, call);
      GoogleSession(googleOnly, db, call);
      var user;
      if g.subject in subjects {
        user := subjects[g.subject];
        if user !in accounts || accounts[user] != Active { return Fail(UserSuspended); }
      } else {
        var refused;
        user, refused := AttachSubject(g, newUser);
        if refused.Some? { return Fail(refused.value); }
      }
      IssueToken(user, family, Google, hash, expires);
      reply := Session(hash);
    }

    /** A session exactly for a live, unexpired token: it is spent and its family's one live
        token is the new one. Presenting a spent token ends the family. */
    method RefreshToken(presented: Hash, now: int, hash: Hash, expires: int) returns (reply: Reply)
      requires Valid() && Drawn(Contents(), Refresh(presented, now, hash, expires))
      modifies this
      ensures Valid() && SameAccounts(old(Contents()), Contents())
      ensures (Contents(), reply) == Apply(googleOnly, old(Contents()), Refresh(presented, now, hash, expires))
      ensures reply.Session? <==>
        && Presentable(googleOnly, old(Contents()), presented)
        && old(tokens)[presented].Live() && now <= old(tokens)[presented].expires
      ensures reply == Fail(TokenReuse) <==>
        Presentable(googleOnly, old(Contents()), presented) && old(tokens)[presented].used
      ensures reply.Session? ==>
        reply.token == hash && Rotated(old(Contents()), Contents(), presented, hash, expires)
      ensures reply == Fail(TokenReuse) ==> Ended(old(Contents()), Contents(), old(tokens)[presented].family)
      ensures reply == Fail(UserSuspended) <==>
        Accepted(googleOnly, old(Contents()), presented) && !IsActive(old(Contents()), old(tokens)[presented].user)
      ensures reply.Session? || reply in {Fail(TokenReuse), Fail(UserSuspended), Fail(InvalidToken)}
      ensures !reply.Session? && reply != Fail(TokenReuse) ==> Contents() == old(Contents())
    {
      ghost var db, call := Contents(), Refresh(presented, now, hash, expires);
      CallIsSound(googleOnly, db, call);
      RefreshSession(googleOnly, db, call);
      RefreshAnswers(googleOnly, db, call);
      if presented !in tokens { return Fail(InvalidToken); }
      var t := tokens[presented];
      if googleOnly && t.via != Google { return Fail(InvalidToken); }
      if t.user !in accounts || accounts[t.user] != Active { return Fail(UserSuspended); }
      if t.used {
        tokens := RevokeFamily(tokens, t.family);
        return Fail(TokenReuse);
      }
      if t.revoked || now > t.expires { return Fail(InvalidToken); }
      tokens := tokens[presented := t.(used := true)];
      IssueToken(t.user, t.family, t.via, hash, expires);
      reply := Session(hash);
    }

    /** Ends the presented token's family and touches nothing else. */
    method SignOutToken(presented: Hash)
      requires Valid()
      modifies this
      ensures Valid() && SameAccounts(old(Contents()), Contents())
      ensures Contents() == Apply(googleOnly, old(Contents()), SignOut(presented)).0
      ensures presented in old(tokens) ==> Ended(old(Contents()), Contents(), old(tokens)[presented].family)
      ensures presented !in old(tokens) ==> Contents() == old(Contents())
    {
      CallIsSound(googleOnly, Contents(), SignOut(presented));
      if presented in tokens {
        RevokedIsEnded(Contents(), presented);
        tokens := RevokeFamily(tokens, tokens[presented].family);
      }
    }
  }
}
