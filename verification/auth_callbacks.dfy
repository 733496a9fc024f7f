/** The sign-in callbacks that put the user's id and role into the token and
    the session claim that the procedure gates later read. */
module AuthCallbacks {
  import opened Results
  import opened Store
  import opened Gates

  /** The claims of a signed token: the subject id and, once recorded, the
      role. */
  datatype Token = Token(sub: Id, role: Option<Role>)

  /** The role recorded at sign-in: the stored role, or CLIENT when the user
      row is missing. */
  function SignInRole(s: Store, id: Id): (r: Role)
    ensures FindUser(s, id).Some? ==> r == FindUser(s, id).value.role
    ensures FindUser(s, id).None? ==> r == CLIENT
  {
    StoredRole(s, id).GetOr(CLIENT)
  }

  /** The `jwt` callback: with a signing-in user, the token records that
      user's sign-in role; on later refreshes (no user) the token is returned
      as it came. */
  function Jwt(s: Store, token: Token, user: Option<Id>): (r: Token)
    ensures r.sub == token.sub
    ensures user.None? ==> r == token
    ensures user.Some? ==> r.role == Some(SignInRole(s, user.value))
  {
    match user
    case None => token
    case Some(id) => token.(role := Some(SignInRole(s, id)))
  }

  /** The `session` callback: a session object with a user gets its id and
      role from the token when there is one (role CLIENT if the token records
      none), or else from the database user; a session without a user is
      returned as it came. */
  function SessionCallback(s: Store, session: Session, token: Option<Token>, user: Option<Id>): (r: Session)
    ensures r.expires == session.expires
    ensures SignedIn(Some(r)) <==> SignedIn(Some(session))
    ensures session.user.Some? && token.Some? ==>
      r.user == Some(SessionUser(token.value.sub, token.value.role.GetOr(CLIENT)))
    ensures session.user.Some? && token.None? && user.Some? ==>
      r.user == Some(SessionUser(user.value, SignInRole(s, user.value)))
    ensures session.user.None? || (token.None? && user.None?) ==> r == session
  {
    if session.user.None? then session
    else match token
      case Some(t) => session.(user := Some(SessionUser(t.sub, t.role.GetOr(CLIENT))))
      case None =>
        match user
        case Some(id) => session.(user := Some(SessionUser(id, SignInRole(s, id))))
        case None => session
  }

  /** At sign-in both strategies give the same claim: the token path, fed by
      the `jwt` callback, agrees with the database path. */
  lemma StrategiesAgreeAtSignIn(s: Store, session: Session, token: Token, id: Id)
    requires session.user.Some? && token.sub == id
    ensures SessionCallback(s, session, Some(Jwt(s, token, Some(id))), None)
         == SessionCallback(s, session, None, Some(id))
  {
  }

  /** Once issued, a token's claim survives any change to the store: refreshes
      carry no user, so the role is never read again. */
  lemma ClaimIgnoresLaterStore(s: Store, later: Store, session: Session, token: Token, id: Id)
    requires session.user.Some? && token.sub == id
    ensures var issued := Jwt(s, token, Some(id));
      SessionCallback(later, session, Some(Jwt(later, issued, None)), None).user
        == Some(SessionUser(id, SignInRole(s, id)))
  {
  }
}
