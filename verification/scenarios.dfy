/** End-to-end consequences of the rules, stated over all stores: paging,
    product search, who may see or change what, and how a role claim ages. */
module Scenarios {
  import opened Results
  import opened Pagination
  import opened Store
  import opened Gates
  import opened Tables
  import opened Text
  import AuthCallbacks
  import ProductRouter
  import QuotationRouter
  import UserRouter

  /** Over-fetch by one: with one more matching product than the limit, the
      page is full and the cursor names the first product left out; with
      exactly `limit` matches, the page is full and there is no cursor. */
  lemma FullPageCursor(s: Store, query: ProductRouter.ProductQuery)
    requires ParseLimit(query.limit).Ok?
    ensures
      var limit := ParseLimit(query.limit).value;
      var m := Matched(s.products, ProductId, ProductRouter.ProductFilter(query), query.cursor);
      var page := ProductRouter.GetAll(s, query).value;
      && (|m| == limit + 1 ==> |page.items| == limit && page.nextCursor == Some(m[limit].id))
      && (|m| == limit ==> page.items == m && page.nextCursor.None?)
  {
    var limit := ParseLimit(query.limit).value;
    var m := Matched(s.products, ProductId, ProductRouter.ProductFilter(query), query.cursor);
    assert m[..|m|] == m;
  }

  /** A caller whose session claims CLIENT lists only the quotations
      addressed to it, however many others the store holds. */
  lemma ClientSeesOwnQuotations(s: Store, ctx: Option<Session>, query: QuotationRouter.QuotationQuery)
    requires SignedIn(ctx) && ctx.value.user.value.role == CLIENT
    requires QuotationRouter.GetAll(s, ctx, query).Ok?
    ensures forall q :: q in QuotationRouter.GetAll(s, ctx, query).value.items ==> q.clientId == SessionUserId(ctx)
  {
  }

  /** A CLIENT claim is refused creation, but a malformed payload is reported
      as such first: input parsing precedes the role check. */
  lemma ClientCannotCreate(s: Store, ctx: Option<Session>, input: QuotationRouter.QuotationInput)
    requires SignedIn(ctx) && ctx.value.user.value.role == CLIENT
    ensures QuotationRouter.Create(s, ctx, input) ==
      Err(if QuotationRouter.ValidInput(input) then Forbidden else Validation)
  {
  }

  /** Items of a quotation that has left DRAFT are frozen for every role,
      ADMIN included. */
  lemma SentItemsFrozen(s: Store, ctx: Option<Session>, id: Id, edits: seq<QuotationRouter.ItemEdit>)
    requires SignedIn(ctx) && QuotationRouter.ValidItems(QuotationRouter.Inputs(edits))
    requires FindQuotation(s, id).Some? && FindQuotation(s, id).value.status != DRAFT
    ensures QuotationRouter.UpdateItems(s, ctx, id, edits) == Err(Forbidden)
    ensures QuotationRouter.UpdateItemsRecomputed(s, ctx, id, edits) == Err(Forbidden)
  {
  }

  /** The product search ignores the case of the search string: searching for
      its lower-case form lists exactly the same page. */
  lemma ProductSearchIgnoresCase(s: Store, query: ProductRouter.ProductQuery)
    requires query.searchQuery.Some?
    ensures var lowered := query.(searchQuery := Some(LowerString(query.searchQuery.value)));
      ProductRouter.GetAll(s, query) == ProductRouter.GetAll(s, lowered)
  {
    var q := query.searchQuery.value;
    var lowered := query.(searchQuery := Some(LowerString(q)));
    var rows := FromCursor(s.products, ProductId, query.cursor);
    forall i | 0 <= i < |rows|
      ensures ProductRouter.ProductFilter(query)(rows[i]) == ProductRouter.ProductFilter(lowered)(rows[i])
    {
      LoweredSearchAgrees(rows[i], query.categoryId, q);
    }
    FilterAgree(rows, ProductRouter.ProductFilter(query), ProductRouter.ProductFilter(lowered));
    assert Matched(s.products, ProductId, ProductRouter.ProductFilter(query), query.cursor)
        == Matched(s.products, ProductId, ProductRouter.ProductFilter(lowered), query.cursor);
  }

  lemma LoweredSearchAgrees(p: Product, categoryId: Option<Id>, q: string)
    ensures ProductRouter.ProductMatches(p, categoryId, Some(q))
        == ProductRouter.ProductMatches(p, categoryId, Some(LowerString(q)))
  {
    SearchCaseIrrelevant(p.name, q);
    if p.description.Some? {
      SearchCaseIrrelevant(p.description.value, q);
    }
    if p.sku.Some? {
      SearchCaseIrrelevant(p.sku.value, q);
    }
  }

  /** A product whose name contains the search string verbatim passes the
      search filter. */
  lemma VerbatimNameMatches(p: Product, query: ProductRouter.ProductQuery, i: int)
    requires query.categoryId.None? && query.searchQuery.Some? && query.searchQuery.value != ""
    requires OccursAt(p.name, query.searchQuery.value, i)
    ensures ProductRouter.ProductFilter(query)(p)
  {
    ExactMatchIsInsensitive(p.name, query.searchQuery.value, i);
  }

  /** A distributor who does not own a product cannot change it; an admin can,
      whoever owns it. */
  lemma ProductOwnership(s: Store, ctx: Option<Session>, id: Id, d: ProductRouter.ProductPatch)
    requires IsDistributor(s, ctx).Ok? && ProductRouter.ValidPatch(d)
    requires FindProduct(s, id).Some?
    ensures ctx.value.user.value.role == DISTRIBUTOR && FindProduct(s, id).value.userId != SessionUserId(ctx) ==>
      ProductRouter.Update(s, ctx, id, d) == Err(Forbidden)
    ensures ctx.value.user.value.role == ADMIN && ProductRouter.CategoryResolves(s, d.categoryId) ==>
      ProductRouter.Update(s, ctx, id, d).Ok?
  {
  }

  /** The role claim is fixed when the token is issued. After an admin
      demotes a signed-in ADMIN to CLIENT, that user's claim still reads ADMIN,
      so the claim-based checks (here, quotation creation) still let it
      through, while the elevated gates, which read the store, now refuse it. */
  lemma DemotionLeavesClaimStale(s: Store, adminCtx: Option<Session>, session: Session,
                                 token: AuthCallbacks.Token, id: Id)
    requires FindUser(s, id).Some? && FindUser(s, id).value.role == ADMIN
    requires session.user.Some? && token.sub == id
    requires UserRouter.Update(s, adminCtx, id, UserRouter.UserPatch(None, Some(CLIENT))).Ok?
    ensures
      var later := UserRouter.Update(s, adminCtx, id, UserRouter.UserPatch(None, Some(CLIENT))).value.store;
      var issued := AuthCallbacks.Jwt(s, token, Some(id));
      var claim := AuthCallbacks.SessionCallback(later, session, Some(AuthCallbacks.Jwt(later, issued, None)), None);
      && claim.user == Some(SessionUser(id, ADMIN))
      && IsAdmin(later, Some(claim)) == Err(Forbidden)
      && IsDistributor(later, Some(claim)) == Err(Forbidden)
      && QuotationRouter.MayCreate(IsAuthed(Some(claim)).value)
  {
    UserRouter.UpdatedRoleIsStored(s, adminCtx, id, CLIENT);
    AuthCallbacks.ClaimIgnoresLaterStore(s, UserRouter.Update(s, adminCtx, id, UserRouter.UserPatch(None, Some(CLIENT))).value.store, session, token, id);
  }
}
