/** The database adapter the sign-in library calls: user, account, session
    and verification-token operations over the store. The library's user
    record has a non-null email, so a stored null email is handed out as "". */
module AuthAdapter {
  import opened Results
  import opened Tables
  import opened Store

  /** A user as the sign-in library sees it. */
  datatype AdapterUser = AdapterUser(
    id: Id,
    email: string,
    name: Option<string>,
    role: Role,
    emailVerified: Option<Instant>,
    image: Option<string>)

  /** The fields of a user to create; the id is minted by the store. */
  datatype NewUser = NewUser(
    email: string,
    name: Option<string>,
    role: Role,
    emailVerified: Option<Instant>,
    image: Option<string>)

  /** A session with its user, as `getSessionAndUser` returns it. */
  datatype SessionAndUser = SessionAndUser(session: DbSession, user: AdapterUser)

  /** The fields of a user update; absent fields are left alone. */
  datatype UserChanges = UserChanges(
    id: Id,
    email: Option<string>,
    name: Option<Option<string>>,
    role: Option<Role>,
    emailVerified: Option<Option<Instant>>,
    image: Option<Option<string>>)

  /** The fields of a session update besides the token that selects it. */
  datatype SessionChanges = SessionChanges(sessionToken: string, userId: Option<Id>, expires: Option<Instant>)

  /** The conversion of a stored user: none stays none, a null email becomes
      the empty string, every other field is carried over. */
  function ToAdapterUser(u: Option<User>): (r: Option<AdapterUser>)
    ensures r.None? <==> u.None?
    ensures r.Some? ==>
      && r.value.email == (if u.value.email.Some? then u.value.email.value else "")
      && r.value.id == u.value.id && r.value.name == u.value.name && r.value.role == u.value.role
      && r.value.emailVerified == u.value.emailVerified && r.value.image == u.value.image
  {
    match u
    case None => None
    case Some(x) => Some(AdapterUser(x.id, x.email.GetOr(""), x.name, x.role, x.emailVerified, x.image))
  }

  /** The conversion forgets the difference between a null and an empty
      email, and nothing else. */
  lemma EmailConversionForgetsNull(u: User, v: User)
    ensures ToAdapterUser(Some(u)) == ToAdapterUser(Some(v)) <==>
      && u.(email := None) == v.(email := None)
      && u.email.GetOr("") == v.email.GetOr("")
  {
  }

  function FindByEmail(s: Store, email: string): Option<User> {
    Find(s.users, UserEmail, Some(email))
  }

  /** `createUser`: whatever role the data carries, the user is stored as a
      CLIENT. The email column is unique. */
  function CreateUser(s: Store, data: NewUser): (r: Result<Done<AdapterUser>>)
    ensures r.Ok? <==> FindByEmail(s, data.email).None?
    ensures r.Err? ==> r.error == DatabaseError
    ensures r.Ok? ==>
      var u := User(s.nextId, Some(data.email), data.name, CLIENT, data.emailVerified, data.image);
      && r.value.store == s.(users := [u] + s.users, nextId := s.nextId + 1)
      && r.value.out.role == CLIENT
      && Some(r.value.out) == ToAdapterUser(Some(u))
  {
    if FindByEmail(s, data.email).Some? then Err(DatabaseError)
    else
      var u := User(s.nextId, Some(data.email), data.name, CLIENT, data.emailVerified, data.image);
      Ok(Done(s.(users := [u] + s.users, nextId := s.nextId + 1), ToAdapterUser(Some(u)).value))
  }

  /** `getUser`. */
  function GetUser(s: Store, id: Id): (r: Option<AdapterUser>)
    ensures r.Some? <==> FindUser(s, id).Some?
    ensures r.Some? ==> r.value.id == id && r == ToAdapterUser(FindUser(s, id))
  {
    ToAdapterUser(FindUser(s, id))
  }

  /** `getUserByEmail`: the stored user whose email column equals `email`. */
  function GetUserByEmail(s: Store, email: string): (r: Option<AdapterUser>)
    ensures r.Some? <==> exists i :: 0 <= i < |s.users| && s.users[i].email == Some(email)
    ensures r.Some? ==> r.value.email == email
    ensures r.Some? ==> exists u :: u in s.users && u.email == Some(email) && r == ToAdapterUser(Some(u))
  {
    ToAdapterUser(FindByEmail(s, email))
  }

  /** A user just created is found by its email, as a CLIENT. */
  lemma CreatedUserFoundByEmail(s: Store, data: NewUser)
    requires CreateUser(s, data).Ok?
    ensures GetUserByEmail(CreateUser(s, data).value.store, data.email) == Some(CreateUser(s, data).value.out)
  {
  }

  /** `getUserByAccount`: the user of the account linked under
      (provider, providerAccountId), or none if there is no such account. */
  function GetUserByAccount(s: Store, provider: string, providerAccountId: string): (r: Option<AdapterUser>)
    ensures Find(s.accounts, AccountKey, (provider, providerAccountId)).None? ==> r.None?
    ensures r.Some? ==>
      var a := Find(s.accounts, AccountKey, (provider, providerAccountId)).value;
      a in s.accounts && a.provider == provider && a.providerAccountId == providerAccountId
      && FindUser(s, a.userId).Some? && r == ToAdapterUser(FindUser(s, a.userId))
    ensures var a := Find(s.accounts, AccountKey, (provider, providerAccountId));
      a.Some? && FindUser(s, a.value.userId).Some? ==> r == ToAdapterUser(FindUser(s, a.value.userId))
  {
    match Find(s.accounts, AccountKey, (provider, providerAccountId))
    case None => None
    case Some(a) => ToAdapterUser(FindUser(s, a.userId))
  }

  /** Another user already has the email an update would write (the email
      column is unique). */
  predicate EmailTakenByOther(s: Store, id: Id, email: Option<string>) {
    email.Some? && exists u :: u in s.users && u.id != id && u.email == email
  }

  /** `updateUser`: the fields supplied change; an unknown id fails, and so
      does an email another user already has. */
  function UpdateUser(s: Store, data: UserChanges): (r: Result<Done<AdapterUser>>)
    ensures r.Ok? <==> FindUser(s, data.id).Some? && !EmailTakenByOther(s, data.id, data.email)
    ensures FindUser(s, data.id).None? ==> r == Err(NotFound)
    ensures FindUser(s, data.id).Some? && r.Err? ==> r.error == DatabaseError
    ensures r.Ok? ==>
      && r.value.store == s.(users := r.value.store.users)
      && |r.value.store.users| == |s.users|
      && forall i :: 0 <= i < |s.users| && s.users[i].id != data.id ==> r.value.store.users[i] == s.users[i]
    ensures r.Ok? ==>
      var prev := FindUser(s, data.id).value;
      var out := r.value.out;
      && out.id == data.id
      && out.email == (if data.email.Some? then data.email.value else prev.email.GetOr(""))
      && out.name == data.name.GetOr(prev.name)
      && out.role == data.role.GetOr(prev.role)
      && out.emailVerified == data.emailVerified.GetOr(prev.emailVerified)
      && out.image == data.image.GetOr(prev.image)
      && GetUser(r.value.store, data.id) == Some(out)
  {
    match FindUser(s, data.id)
    case None => Err(NotFound)
    case Some(prev) =>
      if EmailTakenByOther(s, data.id, data.email) then Err(DatabaseError) else
      var change := (u: User) => u.(email := if data.email.Some? then data.email else u.email,
                                    name := data.name.GetOr(u.name),
                                    role := data.role.GetOr(u.role),
                                    emailVerified := data.emailVerified.GetOr(u.emailVerified),
                                    image := data.image.GetOr(u.image));
      FindUpdateWhere(s.users, UserId, data.id, change);
      var s' := s.(users := UpdateWhere(s.users, UserId, data.id, change));
      Ok(Done(s', ToAdapterUser(Some(change(prev))).value))
  }

  /** `deleteUser`: the user row goes; an unknown id fails. */
  function DeleteUser(s: Store, id: Id): (r: Result<Store>)
    ensures r.Ok? <==> FindUser(s, id).Some?
    ensures r.Err? ==> r.error == NotFound
    ensures r.Ok? ==>
      && (forall u :: u in r.value.users <==> u in s.users && u.id != id)
      && r.value == s.(users := r.value.users)
  {
    if FindUser(s, id).None? then Err(NotFound)
    else Ok(s.(users := Without(s.users, UserId, id)))
  }

  /** `linkAccount`: the account is stored; its user must exist and its
      (provider, providerAccountId) must be new. */
  function LinkAccount(s: Store, a: Account): (r: Result<Store>)
    ensures r.Ok? <==> FindUser(s, a.userId).Some? && Find(s.accounts, AccountKey, AccountKey(a)).None?
    ensures r.Err? ==> r.error == DatabaseError
    ensures r.Ok? ==> r.value == s.(accounts := [a] + s.accounts)
  {
    if FindUser(s, a.userId).None? || Find(s.accounts, AccountKey, AccountKey(a)).Some? then Err(DatabaseError)
    else Ok(s.(accounts := [a] + s.accounts))
  }

  /** A linked account leads back to its user. */
  lemma LinkedAccountFindsUser(s: Store, a: Account)
    requires LinkAccount(s, a).Ok?
    ensures GetUserByAccount(LinkAccount(s, a).value, a.provider, a.providerAccountId) == GetUser(s, a.userId)
    ensures GetUserByAccount(LinkAccount(s, a).value, a.provider, a.providerAccountId).Some?
  {
  }

  /** `unlinkAccount`: the account goes; an unknown key fails. */
  function UnlinkAccount(s: Store, provider: string, providerAccountId: string): (r: Result<Store>)
    ensures r.Ok? <==> Find(s.accounts, AccountKey, (provider, providerAccountId)).Some?
    ensures r.Err? ==> r.error == NotFound
    ensures r.Ok? ==>
      && GetUserByAccount(r.value, provider, providerAccountId).None?
      && (forall a :: a in r.value.accounts <==> a in s.accounts && AccountKey(a) != (provider, providerAccountId))
      && r.value == s.(accounts := r.value.accounts)
  {
    if Find(s.accounts, AccountKey, (provider, providerAccountId)).None? then Err(NotFound)
    else Ok(s.(accounts := Without(s.accounts, AccountKey, (provider, providerAccountId))))
  }

  /** `createSession`: the session token is unique and its user must exist. */
  function CreateSession(s: Store, x: DbSession): (r: Result<Done<DbSession>>)
    ensures r.Ok? <==> FindUser(s, x.userId).Some? && Find(s.sessions, SessionKey, x.sessionToken).None?
    ensures r.Err? ==> r.error == DatabaseError
    ensures r.Ok? ==> r.value == Done(s.(sessions := [x] + s.sessions), x)
  {
    if FindUser(s, x.userId).None? || Find(s.sessions, SessionKey, x.sessionToken).Some? then Err(DatabaseError)
    else Ok(Done(s.(sessions := [x] + s.sessions), x))
  }

  /** `getSessionAndUser`: none for an unknown token or a session whose user
      is gone; otherwise the session's fields and its converted user. */
  function GetSessionAndUser(s: Store, sessionToken: string): (r: Option<SessionAndUser>)
    ensures Find(s.sessions, SessionKey, sessionToken).None? ==> r.None?
    ensures r.Some? ==>
      && r.value.session in s.sessions
      && r.value.session.sessionToken == sessionToken
      && Some(r.value.user) == ToAdapterUser(FindUser(s, r.value.session.userId))
    ensures Find(s.sessions, SessionKey, sessionToken).Some? ==>
      (r.Some? <==> FindUser(s, Find(s.sessions, SessionKey, sessionToken).value.userId).Some?)
  {
    match Find(s.sessions, SessionKey, sessionToken)
    case None => None
    case Some(x) =>
      match ToAdapterUser(FindUser(s, x.userId))
      case None => None
      case Some(u) => Some(SessionAndUser(DbSession(x.sessionToken, x.userId, x.expires), u))
  }

  /** A session just created is found by its token, with its user. */
  lemma CreatedSessionFound(s: Store, x: DbSession)
    requires CreateSession(s, x).Ok?
    ensures GetSessionAndUser(CreateSession(s, x).value.store, x.sessionToken) ==
      Some(SessionAndUser(x, ToAdapterUser(FindUser(s, x.userId)).value))
  {
  }

  /** `updateSession`: the session with the given token takes the supplied
      fields; an unknown token fails, and so does a user id naming no user
      (foreign key). */
  function UpdateSession(s: Store, data: SessionChanges): (r: Result<Done<DbSession>>)
    ensures r.Ok? <==>
      Find(s.sessions, SessionKey, data.sessionToken).Some? && (data.userId.Some? ==> FindUser(s, data.userId.value).Some?)
    ensures Find(s.sessions, SessionKey, data.sessionToken).None? ==> r == Err(NotFound)
    ensures Find(s.sessions, SessionKey, data.sessionToken).Some? && r.Err? ==> r.error == DatabaseError
    ensures r.Ok? ==>
      && |r.value.store.sessions| == |s.sessions|
      && forall i :: 0 <= i < |s.sessions| && s.sessions[i].sessionToken != data.sessionToken ==>
           r.value.store.sessions[i] == s.sessions[i]
    ensures r.Ok? ==>
      var prev := Find(s.sessions, SessionKey, data.sessionToken).value;
      && r.value.out == DbSession(data.sessionToken, data.userId.GetOr(prev.userId), data.expires.GetOr(prev.expires))
      && Find(r.value.store.sessions, SessionKey, data.sessionToken) == Some(r.value.out)
      && r.value.store == s.(sessions := r.value.store.sessions)
  {
    match Find(s.sessions, SessionKey, data.sessionToken)
    case None => Err(NotFound)
    case Some(prev) =>
      if data.userId.Some? && FindUser(s, data.userId.value).None? then Err(DatabaseError) else
      var change := (x: DbSession) => x.(userId := data.userId.GetOr(x.userId), expires := data.expires.GetOr(x.expires));
      FindUpdateWhere(s.sessions, SessionKey, data.sessionToken, change);
      Ok(Done(s.(sessions := UpdateWhere(s.sessions, SessionKey, data.sessionToken, change)), change(prev)))
  }

  /** `deleteSession`: the session goes and is returned; an unknown token fails. */
  function DeleteSession(s: Store, sessionToken: string): (r: Result<Done<DbSession>>)
    ensures r.Ok? <==> Find(s.sessions, SessionKey, sessionToken).Some?
    ensures r.Err? ==> r.error == NotFound
    ensures r.Ok? ==>
      && r.value.out.sessionToken == sessionToken && r.value.out in s.sessions
      && GetSessionAndUser(r.value.store, sessionToken).None?
      && r.value.store == s.(sessions := Without(s.sessions, SessionKey, sessionToken))
  {
    match Find(s.sessions, SessionKey, sessionToken)
    case None => Err(NotFound)
    case Some(x) => Ok(Done(s.(sessions := Without(s.sessions, SessionKey, sessionToken)), x))
  }

  /** `createVerificationToken`: (identifier, token) is unique. */
  function CreateVerificationToken(s: Store, t: VerificationToken): (r: Result<Done<VerificationToken>>)
    ensures r.Ok? <==> Find(s.verificationTokens, TokenKey, TokenKey(t)).None?
    ensures r.Err? ==> r.error == DatabaseError
    ensures r.Ok? ==> r.value == Done(s.(verificationTokens := [t] + s.verificationTokens), t)
  {
    if Find(s.verificationTokens, TokenKey, TokenKey(t)).Some? then Err(DatabaseError)
    else Ok(Done(s.(verificationTokens := [t] + s.verificationTokens), t))
  }

  /** `useVerificationToken`: deletes the token with this (identifier, token)
      and returns it; when there is none, the failed delete is swallowed and
      the answer is none, with the store unchanged. */
  function UseVerificationToken(s: Store, identifier: string, token: string): (r: (Store, Option<VerificationToken>))
    ensures r.1.None? <==> Find(s.verificationTokens, TokenKey, (identifier, token)).None?
    ensures r.1.None? ==> r.0 == s
    ensures r.1.Some? ==>
      && r.1.value in s.verificationTokens
      && r.1.value.identifier == identifier && r.1.value.token == token
      && (forall t :: t in r.0.verificationTokens <==> t in s.verificationTokens && TokenKey(t) != (identifier, token))
      && r.0 == s.(verificationTokens := r.0.verificationTokens)
  {
    match Find(s.verificationTokens, TokenKey, (identifier, token))
    case None => (s, None)
    case Some(t) => (s.(verificationTokens := Without(s.verificationTokens, TokenKey, (identifier, token))), Some(t))
  }

  /** A token is good for one sign-in: using it a second time yields none. */
  lemma TokenUsableOnce(s: Store, identifier: string, token: string)
    ensures var (s1, _) := UseVerificationToken(s, identifier, token);
      UseVerificationToken(s1, identifier, token) == (s1, None)
  {
  }

  /** Creating a token and then using it hands back that token and leaves the
      token table as it was. */
  lemma {:induction false} CreatedTokenRedeems(s: Store, t: VerificationToken)
    requires CreateVerificationToken(s, t).Ok?
    ensures UseVerificationToken(CreateVerificationToken(s, t).value.store, t.identifier, t.token) == (s, Some(t))
  {
    var rows := s.verificationTokens;
    forall i | 0 <= i < |rows|
      ensures TokenKey(rows[i]) != TokenKey(t)
    {
    }
    WithoutAbsent(rows, TokenKey, TokenKey(t));
    assert ([t] + rows)[1..] == rows;
  }
}
