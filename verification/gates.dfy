/** The procedure gates of the API: `isAuthed` (protected procedures),
    `isAdmin` (admin procedures) and `isDistributor` (distributor procedures,
    which admins pass too). A gate either fails the request or hands the
    procedure a context whose session user is known to be present. */
module Gates {
  import opened Results
  import opened Store

  /** The user part of a session claim: the id, and the role recorded when the
      claim was issued (which may since have changed in the store). */
  datatype SessionUser = SessionUser(id: Id, role: Role)

  /** The session a request carries; `user` is absent for an anonymous
      session object. */
  datatype Session = Session(user: Option<SessionUser>, expires: Instant)

  /** The context a gated procedure runs with. */
  datatype Caller = Caller(session: Session, user: SessionUser)

  /** The request has a session and the session has a user. */
  predicate SignedIn(ctx: Option<Session>) {
    ctx.Some? && ctx.value.user.Some?
  }

  /** The id of the signed-in user. */
  function SessionUserId(ctx: Option<Session>): Id
    requires SignedIn(ctx)
  {
    ctx.value.user.value.id
  }

  /** Whether the role claimed by the session is ADMIN. */
  predicate ClaimsAdmin(c: Caller) {
    c.user.role == ADMIN
  }

  /** `isAuthed`: a session with a user is required. */
  function IsAuthed(ctx: Option<Session>): (r: Result<Caller>)
    ensures r.Ok? <==> SignedIn(ctx)
    ensures r.Err? ==> r.error == Unauthorized
    ensures r.Ok? ==> r.value.session == ctx.value && ctx.value.user == Some(r.value.user)
  {
    match ctx
    case None => Err(Unauthorized)
    case Some(session) =>
      match session.user
      case None => Err(Unauthorized)
      case Some(u) => Ok(Caller(session, u))
  }

  /** `isAdmin`: besides a signed-in user, the role STORED for that user's id
      must be ADMIN; the role the session claims is not consulted. */
  function IsAdmin(s: Store, ctx: Option<Session>): (r: Result<Caller>)
    ensures !SignedIn(ctx) ==> r == Err(Unauthorized)
    ensures SignedIn(ctx) ==> (r.Ok? <==> StoredRole(s, SessionUserId(ctx)) == Some(ADMIN))
    ensures SignedIn(ctx) && r.Err? ==> r.error == Forbidden
    ensures r.Ok? ==> r == IsAuthed(ctx)
  {
    var caller :- IsAuthed(ctx);
    if StoredRole(s, caller.user.id) == Some(ADMIN) then Ok(caller) else Err(Forbidden)
  }

  /** `isDistributor`: the stored role must be DISTRIBUTOR or ADMIN; a missing
      user row is refused like a CLIENT. */
  function IsDistributor(s: Store, ctx: Option<Session>): (r: Result<Caller>)
    ensures !SignedIn(ctx) ==> r == Err(Unauthorized)
    ensures SignedIn(ctx) ==>
      (r.Ok? <==> StoredRole(s, SessionUserId(ctx)) in {Some(DISTRIBUTOR), Some(ADMIN)})
    ensures SignedIn(ctx) && r.Err? ==> r.error == Forbidden
    ensures r.Ok? ==> r == IsAuthed(ctx)
  {
    var caller :- IsAuthed(ctx);
    match StoredRole(s, caller.user.id)
    case Some(DISTRIBUTOR) => Ok(caller)
    case Some(ADMIN) => Ok(caller)
    case _ => Err(Forbidden)
  }

  /** Each gate admits a subset of what the next weaker gate admits, and all
      three hand the procedure the same context. */
  lemma GatesNest(s: Store, ctx: Option<Session>)
    ensures IsAdmin(s, ctx).Ok? ==> IsDistributor(s, ctx) == IsAdmin(s, ctx)
    ensures IsDistributor(s, ctx).Ok? ==> IsAuthed(ctx) == IsDistributor(s, ctx)
  {
  }

  /** The elevated gates decide on the stored role alone: rewriting the role
      the session claims never changes their verdict. */
  lemma ElevatedGatesIgnoreClaim(s: Store, session: Session, claimed: Role)
    requires session.user.Some?
    ensures var forged := Some(session.(user := Some(session.user.value.(role := claimed))));
      && IsAdmin(s, forged).Ok? == IsAdmin(s, Some(session)).Ok?
      && IsDistributor(s, forged).Ok? == IsDistributor(s, Some(session)).Ok?
  {
  }
}
