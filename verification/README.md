# Quotation platform API — a Dafny model

The system is a quotation platform for distributors: distributors publish
products and prepare price quotations for their clients; admins manage users;
clients read the quotations addressed to them. Its server exposes typed
procedures grouped in three routers (products, quotations, users), guarded by
three gates (`isAuthed`, `isAdmin`, `isDistributor`), and signs users in
through a database adapter and two callbacks (`jwt`, `session`) that put the
user's id and role into the session claim.

This project models that core as pure functions over an immutable `Store`
(one sequence of rows per table, newest first). Every procedure returns either
an error (`Unauthorized`, `Forbidden`, `NotFound`, `Validation`,
`DatabaseError`) or a new store with its output, so a failed call leaves the
store untouched, as a database transaction would. Listings share one
cursor-pagination scheme: fetch `limit + 1` rows from the cursor row on, and
if the extra row came back, drop it and hand out its id as the next cursor.

Modules: `Results` (errors, `Option`, `Result`), `Tables` (generic table
operations), `Pagination`, `Text` (case-insensitive `contains`), `Store`
(entities), `Gates`, `ProductRouter`, `QuotationRouter`,
`QuotationInvariants` (store invariants the quotation procedures keep),
`UserRouter`, `AuthAdapter`, `AuthCallbacks`, `Utils` and `Scenarios`
(end-to-end consequences).

Points the model settles:

- The elevated gates read the role STORED for the session's user id; the
  routers' own role checks read the role the session CLAIMS. The claim is
  fixed at sign-in, so after a role change the two can disagree
  (`Scenarios.DemotionLeavesClaimStale`).
- Errors come in a fixed order: gate, then input validation, then
  `NotFound`/`Forbidden` in the order each handler checks them, then database
  failures (missing foreign keys, duplicate unique keys).
- A CLIENT's malformed quotation is rejected with `Validation` before the
  role check, so a CLIENT gets `Forbidden` only for a well-formed payload
  (`Scenarios.ClientCannotCreate`).
- `updateItems` stores as the quotation's total the sum over the submitted
  item list, not over the items the quotation has after the call. The model
  keeps this behaviour in `QuotationRouter.UpdateItems` and gives the
  corrected operation beside it; see "## Findings".

## Model

| member | source | states |
|---|---|---|
| Gates.IsAuthed | src/server/api/trpc/trpc.ts:69-79 | A request passes exactly when it has a session with a user, fails with Unauthorized otherwise, and the procedure then sees that same session and user. |
| Gates.IsAdmin | src/server/api/trpc/trpc.ts:89-107 | Unauthorized without a signed-in user; otherwise passes exactly when the stored role of the session's user id is ADMIN (a missing user row is refused), else Forbidden; a pass hands on the same context as isAuthed. |
| Gates.IsDistributor | src/server/api/trpc/trpc.ts:117-135 | Like isAdmin but admits a stored role of DISTRIBUTOR or ADMIN. |
| Gates.GatesNest | src/server/api/trpc/trpc.ts:89-135 | Whoever passes isAdmin passes isDistributor, and whoever passes isDistributor passes isAuthed, each with the same context. |
| Gates.ElevatedGatesIgnoreClaim | src/server/api/trpc/trpc.ts:94-100 | Rewriting the role a session claims never changes the verdict of isAdmin or isDistributor. |
| Pagination.ParseLimit | src/server/api/routers/product.ts:25 | An omitted limit is 50; a given one is accepted exactly when it lies in 1..100 and is then used as given; otherwise the input fails validation. |
| Pagination.PopExtra | src/server/api/routers/product.ts:52-56 | From at most limit+1 fetched rows, the page is the first `limit` rows, and a next cursor exists exactly when the extra row came back, carrying that row's id. |
| Pagination.Listing | src/server/api/routers/product.ts:33-56 | A page holds the first `limit` matching rows from the cursor on; there is a next cursor exactly when more rows match, naming the first one left out; with no next cursor, every matching row from the cursor on is on the page. |
| Pagination.NextPageResumes | src/server/api/routers/product.ts:33-56 | With unique ids, requesting the next page with the returned cursor matches exactly the rows this page left out, so pages neither skip nor repeat a row. |
| Pagination.CursorAtSuffix | src/server/api/routers/product.ts:35 | With unique ids, a cursor naming a row starts the listing at that row. |
| Pagination.ResumeAt | src/server/api/routers/product.ts:35 | Restarting a listing at the id of its n-th matched row matches the rows from the n-th on (the cursor row is included). |
| Tables.FromCursor | src/server/api/routers/product.ts:35 | Without a cursor the listing is the whole table; with one it is the suffix of the table starting at the first row carrying that id, and it is empty exactly when no row carries the id. |
| Text.ExactMatchIsInsensitive | src/server/api/routers/product.ts:41-43 | An exact occurrence of the search string also satisfies the case-insensitive `contains` filter. |
| Text.SearchCaseIrrelevant | src/server/api/routers/product.ts:41-43 | Whether a field matches does not depend on the case of the search string. |
| Text.ActiveSearch | src/server/api/routers/product.ts:39 | A search string takes part in the query exactly when it is given and non-empty, and then unchanged. |
| ProductRouter.GetAll | src/server/api/routers/product.ts:23-62 | Public; fails only on a bad limit; otherwise a page of products newest first, each in the requested category (if any) and with name, description or sku containing the search string ignoring case (if any). |
| ProductRouter.UnfilteredListingKeepsAll | src/server/api/routers/product.ts:37-46 | Without category and search, the products listed are all products from the cursor on. |
| ProductRouter.GetById | src/server/api/routers/product.ts:65-84 | Public; returns the stored product with that id, NotFound when there is none. |
| ProductRouter.CreatedProductFound | src/server/api/routers/product.ts:87-105 | A product just created is returned by getById under its id and heads the unfiltered listing. |
| ProductRouter.Create | src/server/api/routers/product.ts:87-105 | Distributors and admins only; an invalid payload fails validation; an unknown category is a database error; otherwise a new product with a fresh id, owned by the caller, in stock by default, is stored first and nothing else changes. |
| ProductRouter.ApplyPatch | src/server/api/routers/product.ts:17-19 | Every field given in the patch is replaced and every absent field keeps its value; id and owner never change. |
| ProductRouter.PatchIdempotent | src/server/api/routers/product.ts:134-140 | Applying the same patch twice gives the same product as applying it once. |
| ProductRouter.Update | src/server/api/routers/product.ts:108-143 | Gate errors first, then validation, NotFound, then Forbidden unless the caller owns the product or claims ADMIN, then an unknown category; on success the stored product becomes the patched one and other rows are untouched. |
| ProductRouter.Delete | src/server/api/routers/product.ts:146-177 | Gate errors, NotFound, then Forbidden for a non-owner without an ADMIN claim; on success exactly the rows with that id are gone. |
| QuotationRouter.TotalAppend | src/server/api/routers/quotation.ts:174-177 | The total of two item lists joined is the sum of their totals. |
| QuotationRouter.TotalNonNegative | src/server/api/routers/quotation.ts:7-12 | Lines that pass the item schema (positive quantity, positive unit price, discount between 0 and 100) never give a negative total. |
| QuotationRouter.NewItems | src/server/api/routers/quotation.ts:188-196 | The created item rows take consecutive fresh ids, belong to the new quotation, keep the submitted product, and carry exactly the submitted quantities, prices and discounts. |
| QuotationRouter.GetAll | src/server/api/routers/quotation.ts:39-99 | Signed-in callers only; a bad limit fails validation; the page lists stored quotations with the requested status, limited to the caller's own creations for a DISTRIBUTOR claim and to those addressed to the caller for a CLIENT claim, paginated as every listing. |
| QuotationRouter.GetById | src/server/api/routers/quotation.ts:102-155 | NotFound for an unknown id comes before Forbidden; an ADMIN claim, the creator and the addressed client may read it. |
| QuotationRouter.Create | src/server/api/routers/quotation.ts:158-214 | Unauthorized, then validation, then Forbidden for a CLIENT claim, then a database error for an unknown client or product; on success a DRAFT quotation created by the caller whose total is the sum of the submitted lines, with its items stored under fresh ids and nothing else changed. |
| QuotationRouter.ApplyPatch | src/server/api/routers/quotation.ts:260-273 | Given fields replace the stored ones, absent fields stay; ids, creator, client and total never change. |
| QuotationRouter.Update | src/server/api/routers/quotation.ts:217-276 | NotFound, then Forbidden unless creator or ADMIN claim, then Forbidden for a non-admin patching more than the status of a non-DRAFT quotation; on success the stored row becomes the patched one. |
| QuotationRouter.LastEdit | src/server/api/routers/quotation.ts:346-357 | Some edit is chosen exactly when some submitted edit names the row, and the chosen one is the last such edit in submission order. |
| QuotationRouter.Edited | src/server/api/routers/quotation.ts:348-355 | A rewritten item keeps its id and quotation and takes the edit's product, quantity, price and discount. |
| QuotationRouter.ApplyOneIgnoresForeign | src/server/api/routers/quotation.ts:345-356 | An update whose id names no item of this quotation leaves every row as it was. |
| QuotationRouter.ApplyOneIdempotent | src/server/api/routers/quotation.ts:345-356 | Sending the same update-by-id twice leaves the rows as sending it once. |
| QuotationRouter.ApplyUpdates | src/server/api/routers/quotation.ts:346-357 | Running the updates in order leaves each row exactly as the last edit naming it says, or untouched if none does. |
| QuotationRouter.ItemsGate | src/server/api/routers/quotation.ts:279-315 | Unauthorized, validation, NotFound, then Forbidden unless the caller is the creator or claims ADMIN, then Forbidden for a non-DRAFT quotation (ADMIN included), then a database error for an unknown product among the rows written, in that order. |
| QuotationRouter.UpdateItems | src/server/api/routers/quotation.ts:279-395 | As written: after the gate, items this quotation has but the list does not name are deleted, named ones are rewritten, id-less ones created with fresh ids; rows of other quotations and other tables stay; the stored quotation row, and only it, gets as total the sum of the submitted list. |
| QuotationRouter.UpdateItemsRecomputed | src/server/api/routers/quotation.ts:327-330 | Corrected: same gate and same item rows as updateItems, but the stored quotation row, and only it, gets as total the sum over the quotation's items after the write. |
| QuotationRouter.ReconcileMeetsSpec | src/server/api/routers/quotation.ts:317-374 | The rows written by updateItems are exactly: the created rows, the untouched rows of other quotations, and this quotation's named rows revised by their last edit; no unnamed row of this quotation survives. |
| QuotationRouter.NewItemsAreCreatedRows | src/server/api/routers/quotation.ts:360-374 | The id-less edits become new rows of this quotation under fresh ids. |
| QuotationRouter.RevisedFrame | src/server/api/routers/quotation.ts:335-343 | Rows of other quotations pass through the delete and update steps unchanged. |
| QuotationRouter.RevisedRows | src/server/api/routers/quotation.ts:321-357 | Every surviving row of this quotation was named by an edit and carries that edit's values. |
| QuotationRouter.UpdatesNameRows | src/server/api/routers/quotation.ts:321-323 | For each row of this quotation, some kept update names it exactly when some submitted edit does; edits naming an id that is not a row of this quotation are dropped. |
| QuotationRouter.LastEditFiltered | src/server/api/routers/quotation.ts:321-323 | Restricting the edits to those with an id does not change which edit last names a row. |
| QuotationRouter.Delete | src/server/api/routers/quotation.ts:398-456 | NotFound, then Forbidden for a non-creator without ADMIN claim, then Forbidden for a non-DRAFT quotation; on success the quotation, its items and its attachments are gone and all other rows stay. |
| QuotationInvariants.CreatePreservesInvariants | src/server/api/routers/quotation.ts:180-211 | Creating a quotation keeps ids minted below the counter, every item and attachment attached to an existing quotation, and every stored total equal to the sum of its items. |
| QuotationInvariants.UpdatePreservesInvariants | src/server/api/routers/quotation.ts:260-273 | A quotation update keeps the same invariants. |
| QuotationInvariants.DeletePreservesInvariants | src/server/api/routers/quotation.ts:438-453 | A delete keeps the invariants and leaves no item of the deleted quotation. |
| QuotationInvariants.OtherRowsKept | src/server/api/routers/quotation.ts:333-392 | The item writes of updateItems leave the items of every other quotation as they were, in order. |
| QuotationInvariants.UpdateItemsWellFormed | src/server/api/routers/quotation.ts:333-392 | updateItems keeps ids minted and every item attached to an existing quotation. |
| QuotationInvariants.UpdateItemsRecomputedKeepsTotals | src/server/api/routers/quotation.ts:327-330 | With the total recomputed from the stored items, updateItems keeps every total equal to the sum of its quotation's items. |
| QuotationInvariants.FreshItemsAgree | src/server/api/routers/quotation.ts:317-330 | When no edit carries an id, the as-written and the corrected updateItems give the same result. |
| QuotationInvariants.UpdateItemsTotalDrift | src/server/api/routers/quotation.ts:317-330 | A concrete store and edit list on which the as-written updateItems succeeds but stores a total of 10 for a quotation left with no items. |
| QuotationInvariants.SentQuotationCanBeReopened | src/server/api/routers/quotation.ts:249-258 | A non-admin creator may set a sent quotation back to DRAFT, after which both the as-written and the corrected updateItems accept edits to its items again. |
| UserRouter.GetAll | src/server/api/routers/user.ts:15-65 | Admins only (stored role); a bad limit fails validation; a page of users with the requested role whose name or email contains the search string ignoring case. |
| UserRouter.GetById | src/server/api/routers/user.ts:68-111 | Forbidden comes before NotFound: a caller without an ADMIN claim asking for someone else is refused whether or not the user exists; otherwise the stored user or NotFound. |
| UserRouter.Me | src/server/api/routers/user.ts:114-145 | The stored row of the signed-in user, NotFound when it is gone. |
| UserRouter.OwnProfileAgrees | src/server/api/routers/user.ts:76-81 | Looking oneself up by id gives the same answer as asking for one's own profile. |
| UserRouter.ApplyPatch | src/server/api/routers/user.ts:7-11 | Only name and role can change; given fields replace, absent ones stay. |
| UserRouter.Update | src/server/api/routers/user.ts:148-179 | Admins only; NotFound for an unknown id; on success the stored row becomes the patched user. |
| UserRouter.UpdatedRoleIsStored | src/server/api/routers/user.ts:165-176 | A role written by an update is the stored role the elevated gates read next. |
| UserRouter.GetClients | src/server/api/routers/user.ts:182-236 | Unauthorized, then validation, then Forbidden unless the claim is ADMIN or DISTRIBUTOR; the page holds only CLIENT users matching the search. |
| UserRouter.ClientsAreClientListing | src/server/api/routers/user.ts:204-211 | For an admin, the clients listing is the admin user listing restricted to role CLIENT. |
| AuthAdapter.ToAdapterUser | src/lib/auth.ts:11-17 | A missing user stays missing; a stored user keeps id, name, role, image and verification date, and a null email becomes the empty string. |
| AuthAdapter.EmailConversionForgetsNull | src/lib/auth.ts:11-17 | Two users that differ only in a null versus an empty email convert to the same adapter user. |
| AuthAdapter.CreateUser | src/lib/auth.ts:24-35 | Fails with a database error exactly when the email is taken; otherwise stores a new CLIENT user with a fresh id, whatever role the data carried. |
| AuthAdapter.GetUser | src/lib/auth.ts:36-39 | Found exactly when a user with that id is stored, and then it is that stored user converted. |
| AuthAdapter.GetUserByEmail | src/lib/auth.ts:40-43 | Found exactly when some stored user has that email, and then it is such a stored user converted. |
| AuthAdapter.CreatedUserFoundByEmail | src/lib/auth.ts:24-43 | A user just created is found by its email. |
| AuthAdapter.GetUserByAccount | src/lib/auth.ts:44-55 | None for an unknown provider account or a linked user that is gone; otherwise the linked user converted. |
| AuthAdapter.UpdateUser | src/lib/auth.ts:56-62 | NotFound for an unknown id; a database error when another user already has the new email (unique column); otherwise the supplied fields change, the rest stay, and no other row or table changes. |
| AuthAdapter.DeleteUser | src/lib/auth.ts:63-66 | NotFound for an unknown id; otherwise exactly that user row is removed. |
| AuthAdapter.LinkAccount | src/lib/auth.ts:67-83 | Stores the account exactly when its user exists and the provider account is not linked yet; otherwise a database error. |
| AuthAdapter.LinkedAccountFindsUser | src/lib/auth.ts:44-83 | After linking, looking the account up finds its user. |
| AuthAdapter.UnlinkAccount | src/lib/auth.ts:84-94 | NotFound for an unknown account; otherwise exactly that account is removed. |
| AuthAdapter.CreateSession | src/lib/auth.ts:95-97 | Stores the session exactly when its user exists and the token is unused; otherwise a database error. |
| AuthAdapter.GetSessionAndUser | src/lib/auth.ts:98-116 | None for an unknown token or a session whose user is gone; otherwise the session with its user. |
| AuthAdapter.CreatedSessionFound | src/lib/auth.ts:95-116 | A session just created is found by its token together with its user. |
| AuthAdapter.UpdateSession | src/lib/auth.ts:117-122 | NotFound for an unknown token; a database error when the new user id names no user (foreign key); otherwise that session takes the supplied user and expiry, keeps the rest, other sessions and tables stay, and it is found under its token afterwards. |
| AuthAdapter.DeleteSession | src/lib/auth.ts:123-125 | NotFound for an unknown token; otherwise the session is removed and returned. |
| AuthAdapter.CreateVerificationToken | src/lib/auth.ts:126-128 | Stores the token exactly when its (identifier, token) pair is new; otherwise a database error. |
| AuthAdapter.UseVerificationToken | src/lib/auth.ts:129-142 | Returns and deletes the token with that pair; with none stored, returns none and changes nothing. |
| AuthAdapter.TokenUsableOnce | src/lib/auth.ts:129-142 | Using a token a second time yields none. |
| AuthAdapter.CreatedTokenRedeems | src/lib/auth.ts:126-142 | Creating a token and then using it returns that token and restores the store as it was. |
| AuthCallbacks.SignInRole | src/lib/auth.ts:202-206 | The role recorded at sign-in is the stored role, CLIENT when the user row is missing. |
| AuthCallbacks.Jwt | src/lib/auth.ts:199-209 | At sign-in the token records the user's sign-in role; on later refreshes the token comes back unchanged. |
| AuthCallbacks.SessionCallback | src/lib/auth.ts:178-198 | A session with a user takes id and role from the token (CLIENT when it records none), else from the database user; a session without a user is returned as it came. |
| AuthCallbacks.StrategiesAgreeAtSignIn | src/lib/auth.ts:181-194 | At sign-in the token strategy and the database strategy give the same claim. |
| AuthCallbacks.ClaimIgnoresLaterStore | src/lib/auth.ts:199-209 | Once issued, a token's role claim survives any later change to the store. |
| Utils.SliceEndCountsMeet | src/lib/utils/index.ts:48 | For an end short of the whole string, slicing to `end` and to `end - length` (counted back from the end) stop at the same place. |
| Utils.TruncateString | src/lib/utils/index.ts:46-49 | A string no longer than the limit comes back unchanged; a longer one becomes its first `n` characters plus "...", so at most n+3 long. |
| Utils.TruncateSettles | src/lib/utils/index.ts:46-49 | Truncating a truncated string again to its new bound changes nothing. |
| Utils.Pick | src/lib/utils/index.ts:37 | A draw in [0, 1) scaled by 62 and floored is an index of the alphabet. |
| Utils.GenerateRandomString | src/lib/utils/index.ts:32-41 | The result has the requested length (none for a non-positive one) and its i-th character is the alphabet character the i-th draw picks. |
| Scenarios.FullPageCursor | src/server/api/routers/product.ts:52-56 | With one more matching product than the limit, the page is full and the next cursor names the product left out. |
| Scenarios.ClientSeesOwnQuotations | src/server/api/routers/quotation.ts:51-58 | A CLIENT claim lists only quotations addressed to that client. |
| Scenarios.ClientCannotCreate | src/server/api/routers/quotation.ts:158-171 | A CLIENT claim never creates a quotation: Forbidden for a valid payload, Validation for a malformed one. |
| Scenarios.SentItemsFrozen | src/server/api/routers/quotation.ts:310-315 | The items of a non-DRAFT quotation cannot be edited by anyone, ADMIN included, through either the as-written or the corrected updateItems. |
| Scenarios.ProductSearchIgnoresCase | src/server/api/routers/product.ts:39-45 | Searching products for a string or for its lower-case form lists exactly the same page. |
| Scenarios.VerbatimNameMatches | src/server/api/routers/product.ts:41 | A product whose name contains the search string verbatim passes the search filter. |
| Scenarios.ProductOwnership | src/server/api/routers/product.ts:127-132 | A distributor cannot update a product it does not own; an admin can update any product. |
| Scenarios.DemotionLeavesClaimStale | src/lib/auth.ts:199-209 | After an admin demotes a signed-in ADMIN to CLIENT, their issued claim still says ADMIN, so quotation creation still admits them, while isAdmin and isDistributor refuse them. |

## Left out

- Database I/O, transactions and Prisma `include`/`select` projections: the store is a value and a failed call returns no store, which models rollback; related rows that procedures attach to their output (category, creator, counts) are not modelled.
- Ordering by `createdAt`: tables are kept newest first, so listing order is table order.
- Floating point: prices, discounts and totals are exact reals.
- Ids are natural numbers minted from a counter, so empty-string ids and cursors cannot be expressed.
- Case-insensitive matching folds ASCII letters only; Unicode case folding is not modelled.
- The email and URL checks of the input schemas are not modelled; an `imageUrl` is any string.
- Fractional limits, lengths and item quantities: they are integers in the model. A fractional `quantity` fails the item schema's `.int()` check with a validation error, which cannot arise here. A fractional `limit` passes its schema (`z.number().min(1).max(100)`, without `.int()`) and fails only later in the query's `take: limit + 1` as a database error; that path is not modelled either.
- Randomness: `generateRandomString` takes its draws as a parameter.
- Email delivery, the email sign-in provider, JWT signing, `getServerSession`, request context creation, the root router, `formatPrice`, `cn` and all UI code.
- The JWT `sub` claim is set by the sign-in library; the model takes it as given.
- Utils.TruncateString: lengths and slices count characters (Unicode scalar values), whereas the source counts UTF-16 code units, so a string with characters outside the Basic Multilingual Plane can be cut at a different place (the source may even split a surrogate pair); the same holds for the minimum-length checks of the input schemas.
- ProductRouter.Delete: does not model the database refusing to delete a product that quotation items still reference, because the schema's referential actions are not part of this model.
- AuthAdapter.DeleteUser: does not cascade to the user's accounts, sessions, products or quotations, because the schema's referential actions are not part of this model.
- ProductRouter.Create: the handler's own check for a missing session user is subsumed by the gate, which already guarantees one.
- QuotationRouter.Update: a patch key sent explicitly as `undefined` is not distinguished from an absent key. The source's status-only exception tests `Object.keys(data).length > 1`, so `{ id, status, notes: undefined }` from a non-admin creator of a non-DRAFT quotation is Forbidden there, while `StatusOnly` sees only the status and the model accepts it.
- QuotationRouter.UpdateItems: an update by item id is modelled as touching rows of this quotation only; ids are unique across the table, so an id of another quotation's item is treated like an unknown id.

## Findings

| source | as written | input that shows it | evidently intended | confidence | as-written member | corrected member |
|---|---|---|---|---|---|---|
| src/server/api/routers/quotation.ts:327-330 | `updateItems` stores as total the sum over every submitted item, including items whose id matches no row and so are neither updated nor created | a DRAFT quotation with no items, edited by its creator with one item carrying an unknown id, quantity 1 and unit price 10: the call succeeds, the quotation still has no items, and its stored total is 10 | the total equals the sum over the items the quotation has after the call | high; not executed | QuotationInvariants.UpdateItemsTotalDrift | QuotationInvariants.UpdateItemsRecomputedKeepsTotals |
