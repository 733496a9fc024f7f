/** The product procedures: a public listing and lookup, and create, update
    and delete behind the distributor gate with an ownership check. */
module ProductRouter {
  import opened Results
  import opened Tables
  import opened Pagination
  import opened Text
  import opened Store
  import opened Gates

  datatype ProductQuery = ProductQuery(
    limit: Option<int>,
    cursor: Option<Id>,
    categoryId: Option<Id>,
    searchQuery: Option<string>)

  /** The fields of a new product. `inStock` defaults to true. */
  datatype ProductInput = ProductInput(
    name: string,
    description: Option<string>,
    price: real,
    imageUrl: Option<string>,
    sku: Option<string>,
    brand: Option<string>,
    inStock: Option<bool>,
    categoryId: Option<Id>)

  /** A partial update: every field optional, `imageUrl` may be set to null,
      and neither `id` nor the owner `userId` can be part of it. */
  datatype ProductPatch = ProductPatch(
    name: Option<string>,
    description: Option<string>,
    price: Option<real>,
    imageUrl: Option<Option<string>>,
    sku: Option<string>,
    brand: Option<string>,
    inStock: Option<bool>,
    categoryId: Option<Id>)

  const EmptyPatch := ProductPatch(None, None, None, None, None, None, None, None)

  // Filters of the listing.

  /** Name, description or SKU contains the search string, ignoring case. */
  predicate SearchMatches(p: Product, q: string) {
    ContainsInsensitive(p.name, q) || FieldContains(p.description, q) || FieldContains(p.sku, q)
  }

  predicate ProductMatches(p: Product, categoryId: Option<Id>, search: Option<string>) {
    && (categoryId.None? || p.categoryId == categoryId)
    && (ActiveSearch(search).None? || SearchMatches(p, ActiveSearch(search).value))
  }

  function ProductFilter(query: ProductQuery): Product -> bool {
    (p: Product) => ProductMatches(p, query.categoryId, query.searchQuery)
  }

  /** `product.getAll`: one page of the products, newest first. */
  function GetAll(s: Store, query: ProductQuery): (r: Result<Page<Product, Id>>)
    ensures r.Err? <==> ParseLimit(query.limit).Err?
    ensures r.Err? ==> r.error == Validation
    ensures r.Ok? ==>
      var limit := ParseLimit(query.limit).value;
      var m := Matched(s.products, ProductId, ProductFilter(query), query.cursor);
      && |r.value.items| <= limit
      && r.value.items == m[..Min(limit, |m|)]
      && (r.value.nextCursor.Some? <==> |m| > limit)
      && (r.value.nextCursor.Some? ==> r.value.nextCursor.value == m[limit].id)
    ensures r.Ok? ==> forall p :: p in r.value.items ==>
      && p in s.products
      && (query.categoryId.Some? ==> p.categoryId == query.categoryId)
      && (ActiveSearch(query.searchQuery).Some? ==> SearchMatches(p, ActiveSearch(query.searchQuery).value))
  {
    var limit :- ParseLimit(query.limit);
    Ok(Listing(s.products, ProductId, ProductFilter(query), query.cursor, limit))
  }

  /** Without a category or a non-empty search string, the listing is the
      product table itself, from the cursor on. */
  lemma {:induction false} UnfilteredListingKeepsAll(s: Store, query: ProductQuery)
    requires query.categoryId.None? && ActiveSearch(query.searchQuery).None?
    ensures Matched(s.products, ProductId, ProductFilter(query), query.cursor)
         == FromCursor(s.products, ProductId, query.cursor)
  {
    FilterAll(FromCursor(s.products, ProductId, query.cursor), ProductFilter(query));
  }

  /** `product.getById`. */
  function GetById(s: Store, id: Id): (r: Result<Product>)
    ensures r.Ok? <==> exists i :: 0 <= i < |s.products| && s.products[i].id == id
    ensures r.Err? ==> r.error == NotFound
    ensures r.Ok? ==> r.value in s.products && r.value.id == id
  {
    match FindProduct(s, id)
    case None => Err(NotFound)
    case Some(p) => Ok(p)
  }

  /** The schema of a new product: a non-empty name and a positive price. */
  predicate ValidInput(input: ProductInput) {
    |input.name| >= 1 && input.price > 0.0
  }

  /** A category id, when given, must name a stored category (foreign key). */
  predicate CategoryResolves(s: Store, categoryId: Option<Id>) {
    categoryId.None? || Find(s.categories, CategoryId, categoryId.value).Some?
  }

  /** `product.create`: the new product is owned by the caller. */
  function Create(s: Store, ctx: Option<Session>, input: ProductInput): (r: Result<Done<Product>>)
    ensures !SignedIn(ctx) ==> r == Err(Unauthorized)
    ensures IsDistributor(s, ctx).Err? ==> r == Err(IsDistributor(s, ctx).error)
    ensures IsDistributor(s, ctx).Ok? && !ValidInput(input) ==> r == Err(Validation)
    ensures r.Ok? <==> IsDistributor(s, ctx).Ok? && ValidInput(input) && CategoryResolves(s, input.categoryId)
    ensures r.Err? && IsDistributor(s, ctx).Ok? && ValidInput(input) ==> r.error == DatabaseError
    ensures r.Ok? ==>
      var p := r.value.out;
      && p.userId == SessionUserId(ctx)
      && p.id == s.nextId
      && p.name == input.name && p.description == input.description && p.price == input.price
      && p.imageUrl == input.imageUrl && p.sku == input.sku && p.brand == input.brand
      && p.categoryId == input.categoryId
      && p.inStock == input.inStock.GetOr(true)
      && r.value.store == s.(products := [p] + s.products, nextId := s.nextId + 1)
  {
    var caller :- IsDistributor(s, ctx);
    if !ValidInput(input) then Err(Validation)
    else if !CategoryResolves(s, input.categoryId) then Err(DatabaseError)
    else
      var p := Product(s.nextId, input.name, input.description, input.price, input.imageUrl,
                       input.sku, input.brand, input.inStock.GetOr(true), input.categoryId,
                       caller.user.id);
      Ok(Done(s.(products := [p] + s.products, nextId := s.nextId + 1), p))
  }

  /** A created product can be read back: `getById` returns it, and it heads
      an unfiltered listing from the start. */
  lemma CreatedProductFound(s: Store, ctx: Option<Session>, input: ProductInput)
    requires Create(s, ctx, input).Ok?
    ensures var d := Create(s, ctx, input).value;
      GetById(d.store, d.out.id) == Ok(d.out)
    ensures var d := Create(s, ctx, input).value;
      var page := GetAll(d.store, ProductQuery(None, None, None, None));
      page.Ok? && |page.value.items| > 0 && page.value.items[0] == d.out
  {
    var d := Create(s, ctx, input).value;
    var query := ProductQuery(None, None, None, None);
    assert d.store.products[0] == d.out;
    UnfilteredListingKeepsAll(d.store, query);
  }

  /** The schema of a patch: a name, if given, is non-empty; a price, if
      given, is positive. */
  predicate ValidPatch(d: ProductPatch) {
    (d.name.Some? ==> |d.name.value| >= 1) && (d.price.Some? ==> d.price.value > 0.0)
  }

  /** The product with the supplied fields of `d` written over it. */
  function ApplyPatch(p: Product, d: ProductPatch): (r: Product)
    ensures r.id == p.id && r.userId == p.userId
    ensures d == EmptyPatch ==> r == p
    ensures d.name.None? ==> r.name == p.name
    ensures d.description.None? ==> r.description == p.description
    ensures d.price.None? ==> r.price == p.price
    ensures d.imageUrl.None? ==> r.imageUrl == p.imageUrl
    ensures d.sku.None? ==> r.sku == p.sku
    ensures d.brand.None? ==> r.brand == p.brand
    ensures d.inStock.None? ==> r.inStock == p.inStock
    ensures d.categoryId.None? ==> r.categoryId == p.categoryId
    ensures d.name.Some? ==> r.name == d.name.value
    ensures d.description.Some? ==> r.description == d.description
    ensures d.price.Some? ==> r.price == d.price.value
    ensures d.imageUrl.Some? ==> r.imageUrl == d.imageUrl.value
    ensures d.sku.Some? ==> r.sku == d.sku
    ensures d.brand.Some? ==> r.brand == d.brand
    ensures d.inStock.Some? ==> r.inStock == d.inStock.value
    ensures d.categoryId.Some? ==> r.categoryId == d.categoryId
  {
    Product(p.id, d.name.GetOr(p.name),
            if d.description.Some? then d.description else p.description,
            d.price.GetOr(p.price), d.imageUrl.GetOr(p.imageUrl),
            if d.sku.Some? then d.sku else p.sku,
            if d.brand.Some? then d.brand else p.brand,
            d.inStock.GetOr(p.inStock),
            if d.categoryId.Some? then d.categoryId else p.categoryId,
            p.userId)
  }

  /** Applying the same patch twice is applying it once. */
  lemma PatchIdempotent(p: Product, d: ProductPatch)
    ensures ApplyPatch(ApplyPatch(p, d), d) == ApplyPatch(p, d)
  {
  }

  /** The caller may modify `p`: the session claims ADMIN, or the caller owns it. */
  predicate MayModify(c: Caller, p: Product) {
    ClaimsAdmin(c) || p.userId == c.user.id
  }

  /** `product.update`. */
  function Update(s: Store, ctx: Option<Session>, id: Id, d: ProductPatch): (r: Result<Done<Product>>)
    ensures IsDistributor(s, ctx).Err? ==> r == Err(IsDistributor(s, ctx).error)
    ensures IsDistributor(s, ctx).Ok? && !ValidPatch(d) ==> r == Err(Validation)
    ensures IsDistributor(s, ctx).Ok? && ValidPatch(d) && FindProduct(s, id).None? ==> r == Err(NotFound)
    ensures (IsDistributor(s, ctx).Ok? && ValidPatch(d) && FindProduct(s, id).Some? &&
             !MayModify(IsDistributor(s, ctx).value, FindProduct(s, id).value)) ==> r == Err(Forbidden)
    ensures r.Ok? <==>
      && IsDistributor(s, ctx).Ok? && ValidPatch(d) && FindProduct(s, id).Some?
      && MayModify(IsDistributor(s, ctx).value, FindProduct(s, id).value)
      && CategoryResolves(s, d.categoryId)
    ensures r.Ok? ==>
      var prev := FindProduct(s, id).value;
      && r.value.out == ApplyPatch(prev, d)
      && r.value.out.userId == prev.userId
      && r.value.store == s.(products := UpdateWhere(s.products, ProductId, id, (p: Product) => ApplyPatch(p, d)))
      && FindProduct(r.value.store, id) == Some(r.value.out)
  {
    var caller :- IsDistributor(s, ctx);
    if !ValidPatch(d) then Err(Validation)
    else match FindProduct(s, id)
      case None => Err(NotFound)
      case Some(prev) =>
        if !MayModify(caller, prev) then Err(Forbidden)
        else if !CategoryResolves(s, d.categoryId) then Err(DatabaseError)
        else
          var patch := (p: Product) => ApplyPatch(p, d);
          FindUpdateWhere(s.products, ProductId, id, patch);
          Ok(Done(s.(products := UpdateWhere(s.products, ProductId, id, patch)), ApplyPatch(prev, d)))
  }

  /** `product.delete`: exactly the rows with that id leave the product table. */
  function Delete(s: Store, ctx: Option<Session>, id: Id): (r: Result<Done<()>>)
    ensures IsDistributor(s, ctx).Err? ==> r == Err(IsDistributor(s, ctx).error)
    ensures IsDistributor(s, ctx).Ok? && FindProduct(s, id).None? ==> r == Err(NotFound)
    ensures r.Ok? <==>
      && IsDistributor(s, ctx).Ok? && FindProduct(s, id).Some?
      && MayModify(IsDistributor(s, ctx).value, FindProduct(s, id).value)
    ensures r.Err? && IsDistributor(s, ctx).Ok? && FindProduct(s, id).Some? ==> r.error == Forbidden
    ensures r.Ok? ==>
      && (forall p :: p in r.value.store.products <==> p in s.products && p.id != id)
      && r.value.store == s.(products := r.value.store.products)
  {
    var caller :- IsDistributor(s, ctx);
    match FindProduct(s, id)
    case None => Err(NotFound)
    case Some(prev) =>
      if !MayModify(caller, prev) then Err(Forbidden)
      else Ok(Done(s.(products := Without(s.products, ProductId, id)), ()))
  }
}
