/** The relational store as an immutable value: one table per model of the
    database schema. Tables that are listed to clients (users, products,
    quotations) hold their rows newest first, which is the `createdAt`
    descending order the listings use; a created row goes to the front. */
module Store {
  import opened Results
  import opened Tables

  /** A database-generated record id. */
  type Id = nat

  /** An abstract point in time (`DateTime` columns). */
  type Instant = int

  datatype Role = ADMIN | DISTRIBUTOR | CLIENT

  datatype QuotationStatus = DRAFT | SENT | ACCEPTED | REJECTED | EXPIRED

  datatype User = User(
    id: Id,
    email: Option<string>,
    name: Option<string>,
    role: Role,
    emailVerified: Option<Instant>,
    image: Option<string>)

  /** A sign-in provider account linked to a user, unique per
      (provider, providerAccountId). */
  datatype Account = Account(
    userId: Id,
    provider: string,
    providerAccountId: string,
    accountType: string,
    accessToken: Option<string>,
    expiresAt: Option<int>,
    tokenType: Option<string>,
    scope: Option<string>,
    idToken: Option<string>,
    sessionState: Option<string>)

  /** A database session row, unique per session token. */
  datatype DbSession = DbSession(sessionToken: string, userId: Id, expires: Instant)

  /** A one-time sign-in token, unique per (identifier, token). */
  datatype VerificationToken = VerificationToken(identifier: string, token: string, expires: Instant)

  datatype Category = Category(id: Id, name: string)

  datatype Product = Product(
    id: Id,
    name: string,
    description: Option<string>,
    price: real,
    imageUrl: Option<string>,
    sku: Option<string>,
    brand: Option<string>,
    inStock: bool,
    categoryId: Option<Id>,
    userId: Id)

  datatype Quotation = Quotation(
    id: Id,
    title: string,
    clientId: Id,
    createdById: Id,
    status: QuotationStatus,
    totalAmount: real,
    notes: Option<string>,
    validUntil: Option<Instant>)

  datatype QuotationItem = QuotationItem(
    id: Id,
    quotationId: Id,
    productId: Id,
    quantity: int,
    unitPrice: real,
    discount: real)

  datatype Attachment = Attachment(id: Id, quotationId: Id, url: string)

  /** The whole database. `nextId` stands for the id generator: every created
      row takes the next unused number. */
  datatype Store = Store(
    users: seq<User>,
    accounts: seq<Account>,
    sessions: seq<DbSession>,
    verificationTokens: seq<VerificationToken>,
    categories: seq<Category>,
    products: seq<Product>,
    quotations: seq<Quotation>,
    quotationItems: seq<QuotationItem>,
    attachments: seq<Attachment>,
    nextId: nat)

  /** The outcome of a successful mutation: the store after the (atomic)
      write and the procedure's return value. */
  datatype Done<T> = Done(store: Store, out: T)

  // Row keys.
  function UserId(u: User): Id { u.id }
  function UserEmail(u: User): Option<string> { u.email }
  function AccountKey(a: Account): (string, string) { (a.provider, a.providerAccountId) }
  function SessionKey(x: DbSession): string { x.sessionToken }
  function TokenKey(t: VerificationToken): (string, string) { (t.identifier, t.token) }
  function CategoryId(c: Category): Id { c.id }
  function ProductId(p: Product): Id { p.id }
  function QuotationId(q: Quotation): Id { q.id }

  function FindUser(s: Store, id: Id): Option<User> {
    Find(s.users, UserId, id)
  }

  function FindProduct(s: Store, id: Id): Option<Product> {
    Find(s.products, ProductId, id)
  }

  function FindQuotation(s: Store, id: Id): Option<Quotation> {
    Find(s.quotations, QuotationId, id)
  }

  /** The role stored for user `id`, if that user exists. */
  function StoredRole(s: Store, id: Id): (r: Option<Role>)
    ensures r.Some? <==> FindUser(s, id).Some?
    ensures r.Some? ==> r.value == FindUser(s, id).value.role
  {
    match FindUser(s, id)
    case None => None
    case Some(u) => Some(u.role)
  }

  predicate ProductExists(s: Store, id: Id) {
    FindProduct(s, id).Some?
  }

  function BelongsTo(qid: Id): QuotationItem -> bool {
    (it: QuotationItem) => it.quotationId == qid
  }

  /** The rows of `items` belonging to quotation `qid`, in table order. */
  function RowsOf(items: seq<QuotationItem>, qid: Id): seq<QuotationItem> {
    Filter(items, BelongsTo(qid))
  }

  /** The items belonging to quotation `qid`. */
  function ItemsOf(s: Store, qid: Id): seq<QuotationItem> {
    RowsOf(s.quotationItems, qid)
  }

  /** The attachments belonging to quotation `qid`. */
  function AttachmentsOf(s: Store, qid: Id): seq<Attachment> {
    Filter(s.attachments, (a: Attachment) => a.quotationId == qid)
  }
}
