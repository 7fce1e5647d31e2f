/** Accounts and the session-token lifecycle: registration, login, refresh-token
    issue and rotation, logout, profile read, update and deletion. */
module UserService {
  import opened Core
  import opened Store

  /** `30 * 24 * 60 * 60 * 1000` milliseconds: a refresh token lives 30 days. */
  const RefreshTokenTtlMs: int := 30 * 24 * 60 * 60 * 1000

  /** What registration and login answer. The user is the full row, hash included. */
  datatype Session = Session(user: User, accessToken: AccessToken, refreshToken: string)

  /** What a refresh answers; the owner's row, if it is still there. */
  datatype Renewal = Renewal(user: Option<User>, accessToken: AccessToken, refreshToken: string)

  /** A field of an update body: absent (`undefined`) or given a value. */
  datatype Patch<+T> = Keep | Assign(value: T)

  /** The body of `updateUser`; `avatarUrl` may be assigned `null` (None). */
  datatype UserPatch = UserPatch(
    email: Option<string>,
    password: Option<string>,
    name: Option<string>,
    avatarUrl: Patch<Option<string>>)

  predicate EmailTaken(users: map<Id, User>, email: string) {
    exists id :: id in users && users[id].email == email
  }

  /** Tables `t2` differs from `t` at most in its refresh tokens. */
  predicate OnlyTokensDiffer(t: Tables, t2: Tables) {
    t2.(tokens := t.tokens) == t
  }

  /** `prisma.user.findUnique({ where: { email } })`. */
  ghost function FindByEmail(users: map<Id, User>, email: string): (r: Option<User>)
    ensures r.Some? <==> EmailTaken(users, email)
    ensures r.Some? ==> r.value.email == email && exists id :: id in users && users[id] == r.value
  {
    if EmailTaken(users, email) then
      var id :| id in users && users[id].email == email;
      Some(users[id])
    else None
  }

  /** Under the unique index, the lookup finds the one user with that email. */
  lemma FindByEmailUnique(users: map<Id, User>, email: string, id: Id)
    requires UniqueEmails(users)
    requires id in users && users[id].email == email
    ensures FindByEmail(users, email) == Some(users[id])
  {
  }

  // ---------------------------------------------------------------------------
  // Specification functions

  /** `createRefreshToken`: stores `token` (the random hex string drawn by the
      caller) for `userId`, expiring 30 days after `now`. */
  function IssueRefreshToken(t: Tables, userId: Id, token: string, now: Time): (s: Step<string>)
    ensures s.result.Ok? <==> token !in t.tokens
    ensures s.result.Err? ==> s == Step(t, Err(UniqueConstraintFailed))
    ensures s.result.Ok? ==>
      && s.result.value == token
      && token in s.after.tokens
      && s.after.tokens[token] == RefreshToken(token, userId, now + 2592000000)
      && s.after.tokens.Keys == t.tokens.Keys + {token}
      && (forall k :: k in t.tokens ==> s.after.tokens[k] == t.tokens[k])
      && OnlyTokensDiffer(t, s.after)
  {
    if token in t.tokens then Step(t, Err(UniqueConstraintFailed))
    else
      var record := RefreshToken(token, userId, now + RefreshTokenTtlMs);
      Step(t.(tokens := t.tokens[token := record]), Ok(token))
  }

  /** `registerUser`. `salt` is bcrypt's randomness, `newId` the id the
      database generates, `token` the refresh token drawn for the session. */
  function Register(t: Tables, bcrypt: Bcrypt, email: string, password: string, name: string,
                    avatarUrl: Option<string>, salt: Salt, newId: Id, token: string, now: Time): (s: Step<Session>)
    ensures EmailTaken(t.users, email) ==> s == Step(t, Err(EmailExists))
    ensures s.result.Ok? <==> !EmailTaken(t.users, email) && newId !in t.users && token !in t.tokens
    ensures s.result.Ok? ==>
      var session := s.result.value;
      && session.user == User(newId, email, bcrypt.hash(password, salt), name, avatarUrl)
      && s.after.users == t.users[newId := session.user]
      && session.accessToken.userId == newId
      && session.accessToken == Sign(newId)
      && session.refreshToken == token
      && s.after.tokens == t.tokens[token := RefreshToken(token, newId, now + 2592000000)]
      && s.after.posts == t.posts && s.after.comments == t.comments && s.after.categories == t.categories
    ensures !EmailTaken(t.users, email) && newId in t.users ==> s == Step(t, Err(UniqueConstraintFailed))
    // The user row and the token row are two writes: a failing second write keeps the first.
    ensures !EmailTaken(t.users, email) && newId !in t.users && token in t.tokens ==>
      s == Step(t.(users := t.users[newId := User(newId, email, bcrypt.hash(password, salt), name, avatarUrl)]),
                Err(UniqueConstraintFailed))
  {
    if EmailTaken(t.users, email) then Step(t, Err(EmailExists))
    else if newId in t.users then Step(t, Err(UniqueConstraintFailed))
    else
      var user := User(newId, email, bcrypt.hash(password, salt), name, avatarUrl);
      var created := t.(users := t.users[newId := user]);
      var accessToken := Sign(newId);
      var issued := IssueRefreshToken(created, newId, token, now);
      match issued.result
      case Err(e) => Step(issued.after, Err(e))
      case Ok(refresh) => Step(issued.after, Ok(Session(user, accessToken, refresh)))
  }

  /** `loginUser`: an unknown email and a wrong password fail alike. */
  ghost function Login(t: Tables, bcrypt: Bcrypt, email: string, password: string, token: string, now: Time): (s: Step<Session>)
    ensures var found := FindByEmail(t.users, email);
      found.None? || !bcrypt.compare(password, found.value.passwordHash) ==>
      s == Step(t, Err(InvalidCredentials))
    ensures s.result.Ok? ==>
      var user := s.result.value.user;
      && FindByEmail(t.users, email) == Some(user)
      && bcrypt.compare(password, user.passwordHash)
      && s.result.value.accessToken.userId == user.id
      && s.result.value.accessToken == Sign(user.id)
      && s.result.value.refreshToken == token
      && token !in t.tokens
      && s.after.tokens == t.tokens[token := RefreshToken(token, user.id, now + 2592000000)]
      && OnlyTokensDiffer(t, s.after)
    ensures s.result.Err? ==> s.after == t
    ensures var found := FindByEmail(t.users, email);
      found.Some? && bcrypt.compare(password, found.value.passwordHash) && token !in t.tokens ==> s.result.Ok?
  {
    var found := FindByEmail(t.users, email);
    if found.None? || !bcrypt.compare(password, found.value.passwordHash) then
      Step(t, Err(InvalidCredentials))
    else
      var user := found.value;
      var accessToken := Sign(user.id);
      var issued := IssueRefreshToken(t, user.id, token, now);
      match issued.result
      case Err(e) => Step(issued.after, Err(e))
      case Ok(refresh) => Step(issued.after, Ok(Session(user, accessToken, refresh)))
  }

  /** `refreshToken`: redeems `presented` and rotates it into `token`. */
  function Redeem(t: Tables, presented: string, token: string, now: Time): (s: Step<Renewal>)
    ensures presented !in t.tokens || t.tokens[presented].expiresAt < now ==>
      s == Step(t, Err(InvalidRefreshToken))
    ensures s.result.Ok? <==>
      presented in t.tokens && now <= t.tokens[presented].expiresAt && token !in t.tokens
    ensures s.result.Err? ==> s.after == t
    ensures s.result.Ok? ==>
      var owner := t.tokens[presented].userId;
      && s.result.value.user == (if owner in t.users then Some(t.users[owner]) else None)
      && s.result.value.accessToken.userId == owner
      && s.result.value.accessToken == Sign(owner)
      && s.result.value.refreshToken == token
      && presented !in s.after.tokens
      && token in s.after.tokens
      && s.after.tokens[token] == RefreshToken(token, owner, now + 2592000000)
      && (forall k :: k in t.tokens && k != presented ==> k in s.after.tokens && s.after.tokens[k] == t.tokens[k])
      && (forall k :: k in s.after.tokens ==> k == token || k in t.tokens)
      && OnlyTokensDiffer(t, s.after)
  {
    if presented !in t.tokens || t.tokens[presented].expiresAt < now then
      Step(t, Err(InvalidRefreshToken))
    else
      var record := t.tokens[presented];
      var owner := if record.userId in t.users then Some(t.users[record.userId]) else None;
      var accessToken := Sign(record.userId);
      var issued := IssueRefreshToken(t, record.userId, token, now);
      match issued.result
      case Err(e) => Step(issued.after, Err(e))
      case Ok(refresh) =>
        var consumed := issued.after.(tokens := issued.after.tokens - {presented});
        Step(consumed, Ok(Renewal(owner, accessToken, refresh)))
  }

  /** `logoutUser`: deletes every refresh token `userId` owns. Never fails. */
  function RevokeAll(t: Tables, userId: Id): (t2: Tables)
    ensures forall k :: k in t2.tokens ==> t2.tokens[k].userId != userId
    ensures forall k :: k in t.tokens && t.tokens[k].userId != userId ==> k in t2.tokens
    ensures forall k :: k in t2.tokens ==> k in t.tokens && t2.tokens[k] == t.tokens[k]
    ensures OnlyTokensDiffer(t, t2)
  {
    t.(tokens := map k | k in t.tokens && t.tokens[k].userId != userId :: t.tokens[k])
  }

  /** `getUserById`: the row without its password hash. */
  function GetUserById(t: Tables, id: Id): (r: Result<PublicUser>)
    ensures r.Err? <==> id !in t.users
    ensures r.Err? ==> r.error == UserNotFound
    ensures r.Ok? ==> r.value == Public(t.users[id])
  {
    if id !in t.users then Err(UserNotFound) else Ok(Public(t.users[id]))
  }

  /** The row `updateUser` writes: each truthy field replaces the stored one
      (the password re-hashed), and `avatarUrl` whenever it is given, even as null. */
  function Patched(u: User, patch: UserPatch, bcrypt: Bcrypt, salt: Salt): (r: User)
    ensures r.id == u.id
    ensures patch == UserPatch(None, None, None, Keep) ==> r == u
    ensures !Truthy(patch.password) ==> r.passwordHash == u.passwordHash
    ensures Truthy(patch.password) ==> r.passwordHash == bcrypt.hash(patch.password.value, salt)
  {
    User(
      u.id,
      if Truthy(patch.email) then patch.email.value else u.email,
      if Truthy(patch.password) then bcrypt.hash(patch.password.value, salt) else u.passwordHash,
      if Truthy(patch.name) then patch.name.value else u.name,
      if patch.avatarUrl.Assign? then patch.avatarUrl.value else u.avatarUrl)
  }

  predicate EmailTakenByOther(users: map<Id, User>, id: Id, email: string) {
    exists other :: other in users && other != id && users[other].email == email
  }

  /** `updateUser`. The update fails on a missing row, and on an email
      another user already has (the unique index). */
  function Update(t: Tables, id: Id, patch: UserPatch, bcrypt: Bcrypt, salt: Salt): (s: Step<PublicUser>)
    ensures id !in t.users ==> s == Step(t, Err(RecordNotFound))
    ensures s.result.Ok? <==>
      id in t.users && !EmailTakenByOther(t.users, id, Patched(t.users[id], patch, bcrypt, salt).email)
    ensures s.result.Err? ==> s.after == t
    ensures s.result.Ok? ==>
      && id in t.users
      && id in s.after.users
      && s.after == t.(users := t.users[id := s.after.users[id]])
      && s.result.value == Public(s.after.users[id])
    ensures s.result.Ok? ==>
      var before, now := t.users[id], s.after.users[id];
      && now.id == before.id
      && (if Truthy(patch.email) then now.email == patch.email.value else now.email == before.email)
      && (if Truthy(patch.password) then now.passwordHash == bcrypt.hash(patch.password.value, salt)
          else now.passwordHash == before.passwordHash)
      && (if Truthy(patch.name) then now.name == patch.name.value else now.name == before.name)
      && (if patch.avatarUrl.Assign? then now.avatarUrl == patch.avatarUrl.value else now.avatarUrl == before.avatarUrl)
  {
    if id !in t.users then Step(t, Err(RecordNotFound))
    else
      var updated := Patched(t.users[id], patch, bcrypt, salt);
      if EmailTakenByOther(t.users, id, updated.email) then Step(t, Err(UniqueConstraintFailed))
      else Step(t.(users := t.users[id := updated]), Ok(Public(updated)))
  }

  /** `deleteUser`: removes the row; the schema's referential actions are not modelled. */
  function Delete(t: Tables, id: Id): (s: Step<()>)
    ensures s.result.Ok? <==> id in t.users
    ensures s.result.Err? ==> s == Step(t, Err(RecordNotFound))
    ensures s.result.Ok? ==> s.after.users.Keys == t.users.Keys - {id} && s.after == t.(users := s.after.users)
    ensures forall k :: k in s.after.users ==> s.after.users[k] == t.users[k]
  {
    if id !in t.users then Step(t, Err(RecordNotFound))
    else Step(t.(users := t.users - {id}), Ok(()))
  }

  // ---------------------------------------------------------------------------
  // Properties relating several calls

  /** A token that has just been redeemed is spent: presenting it again fails,
      whatever the clock says and whatever token would be drawn. */
  lemma RedeemedTokenIsSpent(t: Tables, presented: string, token: string, now: Time, token2: string, later: Time)
    requires Redeem(t, presented, token, now).result.Ok?
    ensures Redeem(Redeem(t, presented, token, now).after, presented, token2, later) ==
            Step(Redeem(t, presented, token, now).after, Err(InvalidRefreshToken))
  {
  }

  /** The expiry check is strict: a token is still accepted at its expiry instant. */
  lemma RedeemAcceptedAtExpiryInstant(t: Tables, presented: string, token: string)
    requires presented in t.tokens && token !in t.tokens
    ensures Redeem(t, presented, token, t.tokens[presented].expiresAt).result.Ok?
    ensures Redeem(t, presented, token, t.tokens[presented].expiresAt + 1).result == Err(InvalidRefreshToken)
  {
  }

  /** The token a refresh hands out is itself redeemable until it expires, and
      yields a session for the same user. */
  lemma {:induction false} RotationChains(t: Tables, presented: string, token: string, now: Time, token2: string, later: Time)
    requires Redeem(t, presented, token, now).result.Ok?
    requires now <= later <= now + RefreshTokenTtlMs
    requires token2 !in Redeem(t, presented, token, now).after.tokens
    ensures var s := Redeem(t, presented, token, now);
      var s2 := Redeem(s.after, token, token2, later);
      s2.result.Ok? && s2.result.value.accessToken.userId == t.tokens[presented].userId
  {
  }

  /** Logging out twice leaves the same tables as logging out once. */
  lemma {:induction false} RevokeAllIdempotent(t: Tables, userId: Id)
    ensures RevokeAll(RevokeAll(t, userId), userId) == RevokeAll(t, userId)
  {
  }

  /** Logging out leaves other users able to refresh exactly as before. */
  lemma RevokeAllSparesOthers(t: Tables, userId: Id, presented: string, token: string, now: Time)
    requires presented in t.tokens && t.tokens[presented].userId != userId
    requires token !in t.tokens
    ensures Redeem(RevokeAll(t, userId), presented, token, now).result ==
            Redeem(t, presented, token, now).result
  {
  }

  /** A user registered with a password can log in with it; the login finds
      the registered row and opens a session for it. */
  lemma LoginAfterRegister(t: Tables, bcrypt: Bcrypt, email: string, password: string, name: string,
                           avatarUrl: Option<string>, salt: Salt, newId: Id, token: string, now: Time,
                           token2: string, later: Time)
    requires Wellformed(t) && Sound(bcrypt)
    requires Register(t, bcrypt, email, password, name, avatarUrl, salt, newId, token, now).result.Ok?
    requires token2 !in Register(t, bcrypt, email, password, name, avatarUrl, salt, newId, token, now).after.tokens
    ensures var reg := Register(t, bcrypt, email, password, name, avatarUrl, salt, newId, token, now);
      var login := Login(reg.after, bcrypt, email, password, token2, later);
      login.result.Ok? && login.result.value.user == reg.result.value.user
  {
    var reg := Register(t, bcrypt, email, password, name, avatarUrl, salt, newId, token, now);
    var user := reg.result.value.user;
    assert UniqueEmails(reg.after.users) by {
      forall a, b | a in reg.after.users && b in reg.after.users && reg.after.users[a].email == reg.after.users[b].email
        ensures a == b
      {
        if a != newId && b != newId {
          assert t.users[a].email == t.users[b].email;
        }
      }
    }
    FindByEmailUnique(reg.after.users, email, newId);
    assert bcrypt.compare(password, bcrypt.hash(password, salt));
  }

  /** After a successful update the profile read shows the new values. */
  lemma ReadAfterUpdate(t: Tables, id: Id, patch: UserPatch, bcrypt: Bcrypt, salt: Salt)
    requires Update(t, id, patch, bcrypt, salt).result.Ok?
    ensures GetUserById(Update(t, id, patch, bcrypt, salt).after, id) ==
            Update(t, id, patch, bcrypt, salt).result
  {
  }

  // ---------------------------------------------------------------------------
  // The constraints survive every operation

  lemma {:induction false} IssueKeepsWellformed(t: Tables, userId: Id, token: string, now: Time)
    requires Wellformed(t)
    ensures Wellformed(IssueRefreshToken(t, userId, token, now).after)
  {
  }

  lemma {:induction false} RegisterKeepsWellformed(t: Tables, bcrypt: Bcrypt, email: string, password: string, name: string,
                                                   avatarUrl: Option<string>, salt: Salt, newId: Id, token: string, now: Time)
    requires Wellformed(t)
    ensures Wellformed(Register(t, bcrypt, email, password, name, avatarUrl, salt, newId, token, now).after)
  {
    if !EmailTaken(t.users, email) && newId !in t.users {
      var user := User(newId, email, bcrypt.hash(password, salt), name, avatarUrl);
      AddUserKeepsWellformed(t, user);
      IssueKeepsWellformed(t.(users := t.users[newId := user]), newId, token, now);
    }
  }

  lemma {:induction false} AddUserKeepsWellformed(t: Tables, user: User)
    requires Wellformed(t)
    requires !EmailTaken(t.users, user.email) && user.id !in t.users
    ensures Wellformed(t.(users := t.users[user.id := user]))
  {
  }

  lemma {:induction false} RedeemKeepsWellformed(t: Tables, presented: string, token: string, now: Time)
    requires Wellformed(t)
    ensures Wellformed(Redeem(t, presented, token, now).after)
  {
  }

  lemma {:induction false} UpdateKeepsWellformed(t: Tables, id: Id, patch: UserPatch, bcrypt: Bcrypt, salt: Salt)
    requires Wellformed(t)
    ensures Wellformed(Update(t, id, patch, bcrypt, salt).after)
  {
  }

  // ---------------------------------------------------------------------------
  // The service, over the shared database handle

  method CreateRefreshToken(db: Db, userId: Id, token: string, now: Time) returns (r: Result<string>)
    requires db.Valid()
    modifies db
    ensures db.Valid()
    ensures Step(db.Contents(), r) == IssueRefreshToken(old(db.Contents()), userId, token, now)
  {
    IssueKeepsWellformed(db.Contents(), userId, token, now);
    if token in db.tokens {
      return Err(UniqueConstraintFailed);
    }
    var expiresAt := now + RefreshTokenTtlMs;
    db.tokens := db.tokens[token := RefreshToken(token, userId, expiresAt)];
    r := Ok(token);
  }

  method RegisterUser(db: Db, bcrypt: Bcrypt, email: string, password: string, name: string,
                      avatarUrl: Option<string>, salt: Salt, newId: Id, token: string, now: Time)
    returns (r: Result<Session>)
    requires db.Valid()
    modifies db
    ensures db.Valid()
    ensures Step(db.Contents(), r) ==
            Register(old(db.Contents()), bcrypt, email, password, name, avatarUrl, salt, newId, token, now)
  {
    if EmailTaken(db.users, email) {
      return Err(EmailExists);
    }
    var hashedPassword := bcrypt.hash(password, salt);
    if newId in db.users {
      return Err(UniqueConstraintFailed);
    }
    var user := User(newId, email, hashedPassword, name, avatarUrl);
    AddUserKeepsWellformed(db.Contents(), user);
    db.users := db.users[newId := user];
    var accessToken := Sign(newId);
    var refresh := CreateRefreshToken(db, newId, token, now);
    if refresh.Err? {
      return Err(refresh.error);
    }
    r := Ok(Session(user, accessToken, refresh.value));
  }

  method LoginUser(db: Db, bcrypt: Bcrypt, email: string, password: string, token: string, now: Time)
    returns (r: Result<Session>)
    requires db.Valid()
    modifies db
    ensures db.Valid()
    ensures Step(db.Contents(), r) == Login(old(db.Contents()), bcrypt, email, password, token, now)
  {
    if !EmailTaken(db.users, email) {
      return Err(InvalidCredentials);
    }
    var id :| id in db.users && db.users[id].email == email;
    var user := db.users[id];
    FindByEmailUnique(db.users, email, id);
    if !bcrypt.compare(password, user.passwordHash) {
      return Err(InvalidCredentials);
    }
    var accessToken := Sign(user.id);
    var refresh := CreateRefreshToken(db, user.id, token, now);
    if refresh.Err? {
      return Err(refresh.error);
    }
    r := Ok(Session(user, accessToken, refresh.value));
  }

  method RefreshSession(db: Db, presented: string, token: string, now: Time) returns (r: Result<Renewal>)
    requires db.Valid()
    modifies db
    ensures db.Valid()
    ensures Step(db.Contents(), r) == Redeem(old(db.Contents()), presented, token, now)
  {
    RedeemKeepsWellformed(db.Contents(), presented, token, now);
    if presented !in db.tokens || db.tokens[presented].expiresAt < now {
      return Err(InvalidRefreshToken);
    }
    var record := db.tokens[presented];
    var owner := if record.userId in db.users then Some(db.users[record.userId]) else None;
    var accessToken := Sign(record.userId);
    var refresh := CreateRefreshToken(db, record.userId, token, now);
    if refresh.Err? {
      return Err(refresh.error);
    }
    db.tokens := db.tokens - {presented};
    r := Ok(Renewal(owner, accessToken, refresh.value));
  }

  method LogoutUser(db: Db, userId: Id)
    requires db.Valid()
    modifies db
    ensures db.Valid()
    ensures db.Contents() == RevokeAll(old(db.Contents()), userId)
  {
    db.tokens := map k | k in db.tokens && db.tokens[k].userId != userId :: db.tokens[k];
  }

  method UpdateUser(db: Db, id: Id, patch: UserPatch, bcrypt: Bcrypt, salt: Salt) returns (r: Result<PublicUser>)
    requires db.Valid()
    modifies db
    ensures db.Valid()
    ensures Step(db.Contents(), r) == Update(old(db.Contents()), id, patch, bcrypt, salt)
  {
    UpdateKeepsWellformed(db.Contents(), id, patch, bcrypt, salt);
    if id !in db.users {
      return Err(RecordNotFound);
    }
    var user := db.users[id];
    var email := if Truthy(patch.email) then patch.email.value else user.email;
    var passwordHash := if Truthy(patch.password) then bcrypt.hash(patch.password.value, salt) else user.passwordHash;
    var name := if Truthy(patch.name) then patch.name.value else user.name;
    var avatarUrl := if patch.avatarUrl.Assign? then patch.avatarUrl.value else user.avatarUrl;
    var updated := User(id, email, passwordHash, name, avatarUrl);
    if EmailTakenByOther(db.users, id, email) {
      return Err(UniqueConstraintFailed);
    }
    db.users := db.users[id := updated];
    r := Ok(Public(updated));
  }

  method DeleteUser(db: Db, id: Id) returns (r: Result<()>)
    requires db.Valid()
    modifies db
    ensures db.Valid()
    ensures Step(db.Contents(), r) == Delete(old(db.Contents()), id)
  {
    if id !in db.users {
      return Err(RecordNotFound);
    }
    db.users := db.users - {id};
    r := Ok(());
  }
}
