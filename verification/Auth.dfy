/** Sign-in, refresh-token rotation and Google linking. */
module Auth {
  import opened Rows

  /** The stored SHA-256 of a refresh token. */
  datatype Hash = Hash(digest: int)
  type Family = int

  datatype Status = Active | Suspended | Deleted
  datatype Via = Email | Google
  datatype Token = Token(user: UserId, family: Family, used: bool, revoked: bool, expires: int, via: Via) {
    predicate Live() { !used && !revoked }
  }
  datatype EmailIdentity = EmailIdentity(user: UserId, hasPassword: bool)

  datatype AuthDb = AuthDb(
    accounts: map<UserId, Status>,
    emails: map<string, EmailIdentity>,
    subjects: map<string, UserId>,
    tokens: map<Hash, Token>)

  datatype Problem =
    | EmailTaken | BadCredentials | UserSuspended | LinkRequired | InvalidToken | TokenReuse
  datatype Reply = Session(token: Hash) | Ok | Fail(problem: Problem)

  datatype GoogleIdentity = GoogleIdentity(subject: string, email: string, authoritative: bool)

  /** A call with the random values it would draw: a token hash, a family, a user id. */
  datatype Call =
    | Register(email: string, user: UserId, hash: Hash, family: Family, expires: int)
    | Login(email: string, passwordMatches: bool, hash: Hash, family: Family, expires: int)
    | SignInGoogle(identity: GoogleIdentity, user: UserId, hash: Hash, family: Family, expires: int)
    | Refresh(presented: Hash, now: int, hash: Hash, expires: int)
    | SignOut(presented: Hash)
    | Suspend(user: UserId)

  predicate KnownFamily(db: AuthDb, f: Family) { exists h :: h in db.tokens && db.tokens[h].family == f }

  /** Random values are new. */
  predicate Drawn(db: AuthDb, call: Call) {
    match call
    case Register(_, user, hash, family, _) => user !in db.accounts && hash !in db.tokens && !KnownFamily(db, family)
    case Login(_, _, hash, family, _) => hash !in db.tokens && !KnownFamily(db, family)
    case SignInGoogle(_, user, hash, family, _) =>
      user !in db.accounts && hash !in db.tokens && !KnownFamily(db, family)
    case Refresh(_, _, hash, _) => hash !in db.tokens
    case _ => true
  }

  // ----- the calls ------------------------------------------------------------

  function Issue(db: AuthDb, user: UserId, family: Family, via: Via, hash: Hash, expires: int): AuthDb {
    db.(tokens := db.tokens[hash := Token(user, family, false, false, expires, via)])
  }

  function RevokeFamily(tokens: map<Hash, Token>, f: Family): map<Hash, Token> {
    map h | h in tokens :: if tokens[h].family == f then tokens[h].(revoked := true) else tokens[h]
  }

  function RevokeUser(tokens: map<Hash, Token>, u: UserId): map<Hash, Token> {
    map h | h in tokens :: if tokens[h].user == u then tokens[h].(revoked := true) else tokens[h]
  }

  function HasGoogle(db: AuthDb, u: UserId): bool { exists s :: s in db.subjects && db.subjects[s] == u }

  /** The account a new Google subject signs in to, after the identities it writes. */
  function Attach(googleOnly: bool, db: AuthDb, g: GoogleIdentity, newUser: UserId): (Option<AuthDb>, UserId, Problem) {
    if g.email !in db.emails then
      var made := db.(accounts := db.accounts[newUser := Active],
                      subjects := db.subjects[g.subject := newUser],
                      emails := db.emails[g.email := EmailIdentity(newUser, false)]);
      (Some(made), newUser, LinkRequired)
    else
      var u := db.emails[g.email].user;
      if u !in db.accounts || db.accounts[u] != Active then (None, u, UserSuspended)
      else if !googleOnly || !g.authoritative || HasGoogle(db, u) then (None, u, LinkRequired)
      else
        var linked := db.(tokens := RevokeUser(db.tokens, u),
                          subjects := db.subjects[g.subject := u],
                          emails := db.emails[g.email := EmailIdentity(u, false)]);
        (Some(linked), u, LinkRequired)
  }

  function RefreshCall(googleOnly: bool, db: AuthDb, presented: Hash, now: int, hash: Hash, expires: int)
    : (AuthDb, Reply)
  {
    if presented !in db.tokens then (db, Fail(InvalidToken))
    else
      var t := db.tokens[presented];
      if googleOnly && t.via != Google then (db, Fail(InvalidToken))
      else if t.user !in db.accounts || db.accounts[t.user] != Active then (db, Fail(UserSuspended))
      else if t.used then (db.(tokens := RevokeFamily(db.tokens, t.family)), Fail(TokenReuse))
      else if t.revoked || now > t.expires then (db, Fail(InvalidToken))
      else
        var spent := db.(tokens := db.tokens[presented := t.(used := true)]);
        (Issue(spent, t.user, t.family, t.via, hash, expires), Session(hash))
  }

  function Apply(googleOnly: bool, db: AuthDb, call: Call): (AuthDb, Reply) {
    match call
    case Register(email, user, hash, family, expires) =>
      if email in db.emails then (db, Fail(EmailTaken))
      else
        var made := db.(accounts := db.accounts[user := Active],
                        emails := db.emails[email := EmailIdentity(user, true)]);
        (Issue(made, user, family, Email, hash, expires), Session(hash))
    case Login(email, passwordMatches, hash, family, expires) =>
      if email !in db.emails || !db.emails[email].hasPassword || !passwordMatches then (db, Fail(BadCredentials))
      else
        var u := db.emails[email].user;
        if u !in db.accounts || db.accounts[u] != Active then (db, Fail(UserSuspended))
        else (Issue(db, u, family, Email, hash, expires), Session(hash))
    case SignInGoogle(g, user, hash, family, expires) =>
      if g.subject in db.subjects then
        var u := db.subjects[g.subject];
        if u !in db.accounts || db.accounts[u] != Active then (db, Fail(UserSuspended))
        else (Issue(db, u, family, Google, hash, expires), Session(hash))
      else
        var (attached, u, problem) := Attach(googleOnly, db, g, user);
        if attached.None? then (db, Fail(problem))
        else (Issue(attached.value, u, family, Google, hash, expires), Session(hash))
    case Refresh(presented, now, hash, expires) => RefreshCall(googleOnly, db, presented, now, hash, expires)
    case SignOut(presented) =>
      if presented !in db.tokens then (db, Ok)
      else (db.(tokens := RevokeFamily(db.tokens, db.tokens[presented].family)), Ok)
    case Suspend(user) =>
      if user !in db.accounts then (db, Ok)
      else (db.(accounts := db.accounts[user := Suspended]), Ok)
  }

  const EMPTY := AuthDb(map[], map[], map[], map[])

  function Run(googleOnly: bool, db: AuthDb, calls: seq<Call>): Option<AuthDb>
    decreases |calls|
  {
    if |calls| == 0 then Some(db)
    else
      var before := Run(googleOnly, db, calls[..|calls| - 1]);
      if before.None? || !Drawn(before.value, calls[|calls| - 1]) then None
      else Some(Apply(googleOnly, before.value, calls[|calls| - 1]).0)
  }
}
