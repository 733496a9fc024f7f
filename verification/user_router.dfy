/** The user procedures: the admin listing and update, profile lookup, the
    caller's own profile, and the client directory for distributors. */
module UserRouter {
  import opened Results
  import opened Tables
  import opened Pagination
  import opened Text
  import opened Store
  import opened Gates

  datatype UserQuery = UserQuery(limit: Option<int>, cursor: Option<Id>, role: Option<Role>, searchQuery: Option<string>)

  datatype ClientQuery = ClientQuery(limit: Option<int>, cursor: Option<Id>, searchQuery: Option<string>)

  /** The fields an admin may change; the id is given separately. */
  datatype UserPatch = UserPatch(name: Option<string>, role: Option<Role>)

  /** Name or email contains the search string, ignoring case. */
  predicate UserSearchMatches(u: User, q: string) {
    FieldContains(u.name, q) || FieldContains(u.email, q)
  }

  predicate UserMatches(u: User, role: Option<Role>, search: Option<string>) {
    && (role.None? || u.role == role.value)
    && (ActiveSearch(search).None? || UserSearchMatches(u, ActiveSearch(search).value))
  }

  function UserFilter(role: Option<Role>, search: Option<string>): User -> bool {
    (u: User) => UserMatches(u, role, search)
  }

  /** `user.getAll`: one page of the users, newest first, for admins. */
  function GetAll(s: Store, ctx: Option<Session>, query: UserQuery): (r: Result<Page<User, Id>>)
    ensures IsAdmin(s, ctx).Err? ==> r == Err(IsAdmin(s, ctx).error)
    ensures IsAdmin(s, ctx).Ok? ==> (r.Err? <==> ParseLimit(query.limit).Err?)
    ensures IsAdmin(s, ctx).Ok? && r.Err? ==> r.error == Validation
    ensures r.Ok? ==>
      var limit := ParseLimit(query.limit).value;
      var m := Matched(s.users, UserId, UserFilter(query.role, query.searchQuery), query.cursor);
      && |r.value.items| <= limit
      && r.value.items == m[..Min(limit, |m|)]
      && (r.value.nextCursor.Some? <==> |m| > limit)
      && (r.value.nextCursor.Some? ==> r.value.nextCursor.value == m[limit].id)
    ensures r.Ok? ==> forall u :: u in r.value.items ==>
      && u in s.users
      && (query.role.Some? ==> u.role == query.role.value)
      && (ActiveSearch(query.searchQuery).Some? ==> UserSearchMatches(u, ActiveSearch(query.searchQuery).value))
  {
    var _ :- IsAdmin(s, ctx);
    var limit :- ParseLimit(query.limit);
    Ok(Listing(s.users, UserId, UserFilter(query.role, query.searchQuery), query.cursor, limit))
  }

  /** Anyone may open their own profile; an ADMIN claim may open any. */
  predicate MayViewUser(c: Caller, id: Id) {
    ClaimsAdmin(c) || id == c.user.id
  }

  /** `user.getById`: permission is checked before existence, so a non-admin
      learns nothing about other ids. */
  function GetById(s: Store, ctx: Option<Session>, id: Id): (r: Result<User>)
    ensures !SignedIn(ctx) ==> r == Err(Unauthorized)
    ensures SignedIn(ctx) && !MayViewUser(IsAuthed(ctx).value, id) ==> r == Err(Forbidden)
    ensures r.Ok? <==> SignedIn(ctx) && MayViewUser(IsAuthed(ctx).value, id) && FindUser(s, id).Some?
    ensures SignedIn(ctx) && MayViewUser(IsAuthed(ctx).value, id) && r.Err? ==> r.error == NotFound
    ensures r.Ok? ==> r.value in s.users && r.value.id == id
  {
    var c :- IsAuthed(ctx);
    if !MayViewUser(c, id) then Err(Forbidden)
    else match FindUser(s, id)
      case None => Err(NotFound)
      case Some(u) => Ok(u)
  }

  /** `user.me`: the stored row of the signed-in user. */
  function Me(s: Store, ctx: Option<Session>): (r: Result<User>)
    ensures !SignedIn(ctx) ==> r == Err(Unauthorized)
    ensures r.Ok? <==> SignedIn(ctx) && FindUser(s, SessionUserId(ctx)).Some?
    ensures SignedIn(ctx) && r.Err? ==> r.error == NotFound
    ensures r.Ok? ==> r.value in s.users && r.value.id == SessionUserId(ctx)
  {
    var c :- IsAuthed(ctx);
    match FindUser(s, c.user.id)
    case None => Err(NotFound)
    case Some(u) => Ok(u)
  }

  /** Looking oneself up by id is the same as asking for one's own profile. */
  lemma OwnProfileAgrees(s: Store, ctx: Option<Session>)
    requires SignedIn(ctx)
    ensures GetById(s, ctx, SessionUserId(ctx)) == Me(s, ctx)
  {
  }

  function ApplyPatch(u: User, d: UserPatch): (r: User)
    ensures r.id == u.id && r.email == u.email && r.emailVerified == u.emailVerified && r.image == u.image
    ensures r.name == (if d.name.Some? then d.name else u.name)
    ensures r.role == d.role.GetOr(u.role)
  {
    u.(name := if d.name.Some? then d.name else u.name, role := d.role.GetOr(u.role))
  }

  /** `user.update`: admins change a user's name or role, nothing else. */
  function Update(s: Store, ctx: Option<Session>, id: Id, d: UserPatch): (r: Result<Done<User>>)
    ensures IsAdmin(s, ctx).Err? ==> r == Err(IsAdmin(s, ctx).error)
    ensures r.Ok? <==> IsAdmin(s, ctx).Ok? && FindUser(s, id).Some?
    ensures IsAdmin(s, ctx).Ok? && r.Err? ==> r.error == NotFound
    ensures r.Ok? ==>
      && r.value.out == ApplyPatch(FindUser(s, id).value, d)
      && r.value.store == s.(users := UpdateWhere(s.users, UserId, id, (u: User) => ApplyPatch(u, d)))
      && FindUser(r.value.store, id) == Some(r.value.out)
  {
    var _ :- IsAdmin(s, ctx);
    match FindUser(s, id)
    case None => Err(NotFound)
    case Some(prev) =>
      var patch := (u: User) => ApplyPatch(u, d);
      FindUpdateWhere(s.users, UserId, id, patch);
      Ok(Done(s.(users := UpdateWhere(s.users, UserId, id, patch)), ApplyPatch(prev, d)))
  }

  /** A role written by `user.update` is the role the elevated gates see next. */
  lemma UpdatedRoleIsStored(s: Store, ctx: Option<Session>, id: Id, role: Role)
    requires Update(s, ctx, id, UserPatch(None, Some(role))).Ok?
    ensures StoredRole(Update(s, ctx, id, UserPatch(None, Some(role))).value.store, id) == Some(role)
  {
  }

  /** The session claims a role that may browse clients. */
  predicate MayListClients(c: Caller) {
    c.user.role == ADMIN || c.user.role == DISTRIBUTOR
  }

  /** `user.getClients`: one page of the CLIENT users. The input is validated
      before the role check. */
  function GetClients(s: Store, ctx: Option<Session>, query: ClientQuery): (r: Result<Page<User, Id>>)
    ensures !SignedIn(ctx) ==> r == Err(Unauthorized)
    ensures SignedIn(ctx) && ParseLimit(query.limit).Err? ==> r == Err(Validation)
    ensures r.Ok? <==>
      SignedIn(ctx) && ParseLimit(query.limit).Ok? && MayListClients(IsAuthed(ctx).value)
    ensures SignedIn(ctx) && ParseLimit(query.limit).Ok? && r.Err? ==> r.error == Forbidden
    ensures r.Ok? ==>
      var limit := ParseLimit(query.limit).value;
      var m := Matched(s.users, UserId, UserFilter(Some(CLIENT), query.searchQuery), query.cursor);
      && |r.value.items| <= limit
      && r.value.items == m[..Min(limit, |m|)]
      && (r.value.nextCursor.Some? <==> |m| > limit)
      && (r.value.nextCursor.Some? ==> r.value.nextCursor.value == m[limit].id)
    ensures r.Ok? ==> forall u :: u in r.value.items ==>
      && u in s.users && u.role == CLIENT
      && (ActiveSearch(query.searchQuery).Some? ==> UserSearchMatches(u, ActiveSearch(query.searchQuery).value))
  {
    var c :- IsAuthed(ctx);
    var limit :- ParseLimit(query.limit);
    if !MayListClients(c) then Err(Forbidden)
    else Ok(Listing(s.users, UserId, UserFilter(Some(CLIENT), query.searchQuery), query.cursor, limit))
  }

  /** For a caller who is an ADMIN both in the store and in the claim, the
      client directory is the user listing filtered to the CLIENT role. */
  lemma ClientsAreClientListing(s: Store, ctx: Option<Session>, query: ClientQuery)
    requires IsAdmin(s, ctx).Ok? && ClaimsAdmin(IsAuthed(ctx).value)
    ensures GetClients(s, ctx, query) == GetAll(s, ctx, UserQuery(query.limit, query.cursor, Some(CLIENT), query.searchQuery))
  {
  }
}
