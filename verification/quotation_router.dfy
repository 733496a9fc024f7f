/** The quotation procedures: role-scoped listing and lookup, creation with a
    computed total, the metadata update with its "status only once sent"
    rule, the reconciliation of a draft's items, and the cascading delete.
    All of them sit behind `isAuthed` and judge roles by the session claim. */
module QuotationRouter {
  import opened Results
  import opened Tables
  import opened Pagination
  import opened Store
  import opened Gates

  // Amounts.

  /** The amount-bearing fields of one quotation line. */
  datatype Line = Line(quantity: int, unitPrice: real, discount: real)

  /** unitPrice × quantity × (1 − discount/100). */
  function LineTotal(l: Line): real {
    l.unitPrice * l.quantity as real * (1.0 - l.discount / 100.0)
  }

  /** The running sum of the line totals, left to right from 0. Amounts are
      exact reals here. */
  function Total(lines: seq<Line>): real {
    if |lines| == 0 then 0.0 else Total(lines[..|lines| - 1]) + LineTotal(lines[|lines| - 1])
  }

  lemma {:induction false} TotalAppend(a: seq<Line>, b: seq<Line>)
    ensures Total(a + b) == Total(a) + Total(b)
    decreases |b|
  {
    if |b| == 0 {
      assert a + b == a;
    } else {
      assert (a + b)[..|a + b| - 1] == a + b[..|b| - 1];
      TotalAppend(a, b[..|b| - 1]);
    }
  }

  /** Lines that pass the item schema have a non-negative total. */
  lemma {:induction false} TotalNonNegative(lines: seq<Line>)
    requires forall k :: 0 <= k < |lines| ==>
      lines[k].quantity > 0 && lines[k].unitPrice > 0.0 && 0.0 <= lines[k].discount <= 100.0
    ensures Total(lines) >= 0.0
  {
    if |lines| > 0 {
      var l := lines[|lines| - 1];
      TotalNonNegative(lines[..|lines| - 1]);
      assert l.unitPrice * l.quantity as real >= 0.0;
      assert 1.0 - l.discount / 100.0 >= 0.0;
    }
  }

  // Inputs.

  /** One submitted item; `discount` defaults to 0. */
  datatype ItemInput = ItemInput(productId: Id, quantity: int, unitPrice: real, discount: Option<real>)

  /** An item of an `updateItems` request: `id` names an existing row. */
  datatype ItemEdit = ItemEdit(id: Option<Id>, item: ItemInput)

  datatype QuotationInput = QuotationInput(
    title: string,
    clientId: Id,
    notes: Option<string>,
    validUntil: Option<Instant>,
    items: seq<ItemInput>)

  /** The fields an update may carry besides the id; an absent field is not
      a key of the patch. */
  datatype QuotationPatch = QuotationPatch(
    title: Option<string>,
    notes: Option<string>,
    validUntil: Option<Instant>,
    status: Option<QuotationStatus>)

  datatype QuotationQuery = QuotationQuery(limit: Option<int>, cursor: Option<Id>, status: Option<QuotationStatus>)

  /** The item schema: a positive integer quantity, a positive unit price and
      a discount between 0 and 100. */
  predicate ValidItem(i: ItemInput) {
    i.quantity > 0 && i.unitPrice > 0.0 && (i.discount.Some? ==> 0.0 <= i.discount.value <= 100.0)
  }

  predicate ValidItems(items: seq<ItemInput>) {
    forall k :: 0 <= k < |items| ==> ValidItem(items[k])
  }

  /** The create schema: a non-empty title and at least one valid item. */
  predicate ValidInput(input: QuotationInput) {
    |input.title| >= 1 && |input.items| >= 1 && ValidItems(input.items)
  }

  function InputLine(i: ItemInput): Line {
    Line(i.quantity, i.unitPrice, i.discount.GetOr(0.0))
  }

  function InputLines(items: seq<ItemInput>): (r: seq<Line>)
    ensures |r| == |items|
    ensures forall k :: 0 <= k < |items| ==> r[k] == InputLine(items[k])
  {
    seq(|items|, k requires 0 <= k < |items| => InputLine(items[k]))
  }

  function StoredLine(it: QuotationItem): Line {
    Line(it.quantity, it.unitPrice, it.discount)
  }

  function ItemLines(items: seq<QuotationItem>): (r: seq<Line>)
    ensures |r| == |items|
    ensures forall k :: 0 <= k < |items| ==> r[k] == StoredLine(items[k])
  {
    seq(|items|, k requires 0 <= k < |items| => StoredLine(items[k]))
  }

  function Inputs(edits: seq<ItemEdit>): (r: seq<ItemInput>)
    ensures |r| == |edits|
    ensures forall k :: 0 <= k < |edits| ==> r[k] == edits[k].item
  {
    seq(|edits|, k requires 0 <= k < |edits| => edits[k].item)
  }

  /** The rows stored for submitted items, with consecutive fresh ids. */
  function NewItems(qid: Id, firstId: Id, items: seq<ItemInput>): (r: seq<QuotationItem>)
    ensures |r| == |items|
    ensures forall k :: 0 <= k < |items| ==> r[k].id == firstId + k && r[k].quotationId == qid
    ensures forall k :: 0 <= k < |items| ==> r[k].productId == items[k].productId
    ensures ItemLines(r) == InputLines(items)
  {
    var r := seq(|items|, k requires 0 <= k < |items| =>
      QuotationItem(firstId + k, qid, items[k].productId, items[k].quantity,
                    items[k].unitPrice, items[k].discount.GetOr(0.0)));
    assert ItemLines(r) == InputLines(items);
    r
  }

  // Listing and lookup.

  /** The quotations a role sees in the listing: an ADMIN all of them, a
      DISTRIBUTOR those it created, anyone else those addressed to it. */
  predicate InScope(c: Caller, q: Quotation) {
    match c.user.role
    case ADMIN => true
    case DISTRIBUTOR => q.createdById == c.user.id
    case CLIENT => q.clientId == c.user.id
  }

  predicate Listed(c: Caller, status: Option<QuotationStatus>, q: Quotation) {
    (status.None? || q.status == status.value) && InScope(c, q)
  }

  function ListFilter(c: Caller, status: Option<QuotationStatus>): Quotation -> bool {
    (q: Quotation) => Listed(c, status, q)
  }

  /** `quotation.getAll`. */
  function GetAll(s: Store, ctx: Option<Session>, query: QuotationQuery): (r: Result<Page<Quotation, Id>>)
    ensures !SignedIn(ctx) ==> r == Err(Unauthorized)
    ensures SignedIn(ctx) ==> (r.Err? <==> ParseLimit(query.limit).Err?)
    ensures SignedIn(ctx) && r.Err? ==> r.error == Validation
    ensures r.Ok? ==>
      var c := IsAuthed(ctx).value;
      var limit := ParseLimit(query.limit).value;
      var m := Matched(s.quotations, QuotationId, ListFilter(c, query.status), query.cursor);
      && |r.value.items| <= limit
      && r.value.items == m[..Min(limit, |m|)]
      && (r.value.nextCursor.Some? <==> |m| > limit)
      && (r.value.nextCursor.Some? ==> r.value.nextCursor.value == m[limit].id)
    ensures r.Ok? ==>
      var c := IsAuthed(ctx).value;
      forall q :: q in r.value.items ==>
        && q in s.quotations
        && (query.status.Some? ==> q.status == query.status.value)
        && (c.user.role == DISTRIBUTOR ==> q.createdById == c.user.id)
        && (c.user.role == CLIENT ==> q.clientId == c.user.id)
    ensures r.Ok? && r.value.nextCursor.None? ==>
      var c := IsAuthed(ctx).value;
      forall q :: q in FromCursor(s.quotations, QuotationId, query.cursor) && Listed(c, query.status, q) ==>
        q in r.value.items
  {
    var c :- IsAuthed(ctx);
    var limit :- ParseLimit(query.limit);
    Ok(Listing(s.quotations, QuotationId, ListFilter(c, query.status), query.cursor, limit))
  }

  /** Who may open a quotation: an ADMIN, its creator, or its client. */
  predicate MayView(c: Caller, q: Quotation) {
    ClaimsAdmin(c) || q.createdById == c.user.id || q.clientId == c.user.id
  }

  /** `quotation.getById`: absence is reported before permission. */
  function GetById(s: Store, ctx: Option<Session>, id: Id): (r: Result<Quotation>)
    ensures !SignedIn(ctx) ==> r == Err(Unauthorized)
    ensures SignedIn(ctx) && FindQuotation(s, id).None? ==> r == Err(NotFound)
    ensures r.Ok? <==>
      SignedIn(ctx) && FindQuotation(s, id).Some? && MayView(IsAuthed(ctx).value, FindQuotation(s, id).value)
    ensures SignedIn(ctx) && FindQuotation(s, id).Some? && r.Err? ==> r.error == Forbidden
    ensures r.Ok? ==> r.value in s.quotations && r.value.id == id
  {
    var c :- IsAuthed(ctx);
    match FindQuotation(s, id)
    case None => Err(NotFound)
    case Some(q) => if MayView(c, q) then Ok(q) else Err(Forbidden)
  }

  // Creation.

  /** The session claims a role that may create quotations. */
  predicate MayCreate(c: Caller) {
    c.user.role == ADMIN || c.user.role == DISTRIBUTOR
  }

  /** The rows a create connects to exist: the client, the creator, and every
      item's product (foreign keys). */
  predicate CreateRefsResolve(s: Store, c: Caller, input: QuotationInput) {
    && FindUser(s, input.clientId).Some?
    && FindUser(s, c.user.id).Some?
    && forall k :: 0 <= k < |input.items| ==> ProductExists(s, input.items[k].productId)
  }

  /** `quotation.create`: a DRAFT owned by the caller, with one stored item
      per submitted item, written in one transaction. */
  function Create(s: Store, ctx: Option<Session>, input: QuotationInput): (r: Result<Done<Quotation>>)
    ensures !SignedIn(ctx) ==> r == Err(Unauthorized)
    ensures SignedIn(ctx) && !ValidInput(input) ==> r == Err(Validation)
    ensures SignedIn(ctx) && ValidInput(input) && !MayCreate(IsAuthed(ctx).value) ==> r == Err(Forbidden)
    ensures r.Ok? <==>
      SignedIn(ctx) && ValidInput(input) && MayCreate(IsAuthed(ctx).value)
      && CreateRefsResolve(s, IsAuthed(ctx).value, input)
    ensures r.Ok? ==>
      var q := r.value.out;
      var s' := r.value.store;
      var n := |input.items|;
      && q.id == s.nextId
      && q.status == DRAFT
      && q.createdById == SessionUserId(ctx)
      && q.clientId == input.clientId && q.title == input.title
      && q.notes == input.notes && q.validUntil == input.validUntil
      && q.totalAmount == Total(InputLines(input.items))
      && q.totalAmount >= 0.0
      && |s'.quotationItems| == n + |s.quotationItems|
      && s'.quotationItems[n..] == s.quotationItems
      && (forall k :: 0 <= k < n ==>
            && s'.quotationItems[k].id == s.nextId + 1 + k
            && s'.quotationItems[k].quotationId == q.id
            && s'.quotationItems[k].productId == input.items[k].productId
            && StoredLine(s'.quotationItems[k]) == InputLine(input.items[k]))
      && Total(ItemLines(s'.quotationItems[..n])) == q.totalAmount
      && s' == s.(quotations := [q] + s.quotations, quotationItems := s'.quotationItems,
                  nextId := s.nextId + 1 + n)
  {
    var c :- IsAuthed(ctx);
    if !ValidInput(input) then Err(Validation)
    else if !MayCreate(c) then Err(Forbidden)
    else if !CreateRefsResolve(s, c, input) then Err(DatabaseError)
    else
      var items := NewItems(s.nextId, s.nextId + 1, input.items);
      var lines := InputLines(input.items);
      TotalNonNegative(lines);
      var q := Quotation(s.nextId, input.title, input.clientId, c.user.id, DRAFT,
                         Total(lines), input.notes, input.validUntil);
      var s' := s.(quotations := [q] + s.quotations, quotationItems := items + s.quotationItems,
                   nextId := s.nextId + 1 + |input.items|);
      assert s'.quotationItems[..|items|] == items;
      assert s'.quotationItems[|items|..] == s.quotationItems;
      Ok(Done(s', q))
  }

  // Metadata update.

  /** The patch's only key is `status`. */
  predicate StatusOnly(d: QuotationPatch) {
    d.status.Some? && d.title.None? && d.notes.None? && d.validUntil.None?
  }

  /** The update schema: a title, if given, is non-empty. */
  predicate ValidPatch(d: QuotationPatch) {
    d.title.Some? ==> |d.title.value| >= 1
  }

  function ApplyPatch(q: Quotation, d: QuotationPatch): (r: Quotation)
    ensures r.id == q.id && r.clientId == q.clientId && r.createdById == q.createdById
    ensures r.totalAmount == q.totalAmount
    ensures StatusOnly(d) ==> r == q.(status := d.status.value)
    ensures r.title == d.title.GetOr(q.title) && r.status == d.status.GetOr(q.status)
    ensures r.notes == (if d.notes.Some? then d.notes else q.notes)
    ensures r.validUntil == (if d.validUntil.Some? then d.validUntil else q.validUntil)
  {
    q.(title := d.title.GetOr(q.title),
       notes := if d.notes.Some? then d.notes else q.notes,
       validUntil := if d.validUntil.Some? then d.validUntil else q.validUntil,
       status := d.status.GetOr(q.status))
  }

  /** The caller may change `q` at all: an ADMIN claim, or its creator. */
  predicate MayEdit(c: Caller, q: Quotation) {
    ClaimsAdmin(c) || q.createdById == c.user.id
  }

  /** Once a quotation has left DRAFT, a non-admin may only move its status. */
  predicate PatchAllowed(c: Caller, q: Quotation, d: QuotationPatch) {
    q.status == DRAFT || ClaimsAdmin(c) || StatusOnly(d)
  }

  /** `quotation.update`. */
  function Update(s: Store, ctx: Option<Session>, id: Id, d: QuotationPatch): (r: Result<Done<Quotation>>)
    ensures !SignedIn(ctx) ==> r == Err(Unauthorized)
    ensures SignedIn(ctx) && !ValidPatch(d) ==> r == Err(Validation)
    ensures SignedIn(ctx) && ValidPatch(d) && FindQuotation(s, id).None? ==> r == Err(NotFound)
    ensures r.Ok? <==>
      && SignedIn(ctx) && ValidPatch(d) && FindQuotation(s, id).Some?
      && MayEdit(IsAuthed(ctx).value, FindQuotation(s, id).value)
      && PatchAllowed(IsAuthed(ctx).value, FindQuotation(s, id).value, d)
    ensures SignedIn(ctx) && ValidPatch(d) && FindQuotation(s, id).Some? && r.Err? ==> r.error == Forbidden
    ensures r.Ok? ==>
      var q := FindQuotation(s, id).value;
      && r.value.out == ApplyPatch(q, d)
      && (q.status != DRAFT && !ClaimsAdmin(IsAuthed(ctx).value) ==> r.value.out == q.(status := d.status.value))
      && r.value.store == s.(quotations := UpdateWhere(s.quotations, QuotationId, id, (x: Quotation) => ApplyPatch(x, d)))
      && FindQuotation(r.value.store, id) == Some(r.value.out)
  {
    var c :- IsAuthed(ctx);
    if !ValidPatch(d) then Err(Validation)
    else match FindQuotation(s, id)
      case None => Err(NotFound)
      case Some(q) =>
        if !MayEdit(c, q) || !PatchAllowed(c, q, d) then Err(Forbidden)
        else
          var patch := (x: Quotation) => ApplyPatch(x, d);
          FindUpdateWhere(s.quotations, QuotationId, id, patch);
          Ok(Done(s.(quotations := UpdateWhere(s.quotations, QuotationId, id, patch)), ApplyPatch(q, d)))
  }

  // Item reconciliation.

  /** Some submitted item names row `id`. */
  predicate Named(edits: seq<ItemEdit>, id: Id) {
    exists e :: e in edits && e.id == Some(id)
  }

  /** The last submitted item naming row `id`: updates run in submission order
      and each rewrites every field, so the last one decides. */
  function LastEdit(edits: seq<ItemEdit>, id: Id): (r: Option<ItemEdit>)
    ensures r.Some? <==> Named(edits, id)
    ensures r.Some? ==> r.value in edits && r.value.id == Some(id)
    ensures r.Some? ==>
      exists k :: 0 <= k < |edits| && edits[k] == r.value && forall j :: k < j < |edits| ==> edits[j].id != Some(id)
  {
    if |edits| == 0 then None
    else match LastEdit(edits[1..], id)
      case Some(e) => Some(e)
      case None =>
        assert !Named(edits[1..], id);
        if edits[0].id == Some(id) then Some(edits[0]) else None
  }

  /** Row `it` rewritten with the fields of a submitted item. */
  function Edited(it: QuotationItem, e: ItemEdit): (r: QuotationItem)
    ensures r.id == it.id && r.quotationId == it.quotationId
    ensures StoredLine(r) == InputLine(e.item) && r.productId == e.item.productId
  {
    it.(productId := e.item.productId, quantity := e.item.quantity,
        unitPrice := e.item.unitPrice, discount := e.item.discount.GetOr(0.0))
  }

  /** What the whole sequence of updates makes of row `it`. */
  function Revised(it: QuotationItem, qid: Id, updates: seq<ItemEdit>): QuotationItem {
    if it.quotationId == qid && LastEdit(updates, it.id).Some? then Edited(it, LastEdit(updates, it.id).value)
    else it
  }

  /** One `quotationItem.update` of the loop. */
  function ApplyOne(rows: seq<QuotationItem>, qid: Id, u: ItemEdit): (r: seq<QuotationItem>)
    ensures |r| == |rows|
    ensures forall i :: 0 <= i < |rows| ==>
      r[i] == if rows[i].quotationId == qid && u.id == Some(rows[i].id) then Edited(rows[i], u) else rows[i]
  {
    seq(|rows|, i requires 0 <= i < |rows| =>
      if rows[i].quotationId == qid && u.id == Some(rows[i].id) then Edited(rows[i], u) else rows[i])
  }

  /** An update whose id names no row of the quotation changes nothing: the
      source's `where: { id }` finds no item of this quotation to rewrite. */
  lemma ApplyOneIgnoresForeign(rows: seq<QuotationItem>, qid: Id, u: ItemEdit)
    requires forall i :: 0 <= i < |rows| && rows[i].quotationId == qid ==> u.id != Some(rows[i].id)
    ensures ApplyOne(rows, qid, u) == rows
  {
  }

  /** Sending the same update twice leaves the rows as sending it once. */
  lemma ApplyOneIdempotent(rows: seq<QuotationItem>, qid: Id, u: ItemEdit)
    ensures ApplyOne(ApplyOne(rows, qid, u), qid, u) == ApplyOne(rows, qid, u)
  {
  }

  /** The update loop, one update after the other. Its effect on each row is
      that of the last update naming it. */
  function ApplyUpdates(rows: seq<QuotationItem>, qid: Id, updates: seq<ItemEdit>): (r: seq<QuotationItem>)
    ensures |r| == |rows|
    ensures forall i :: 0 <= i < |rows| ==> r[i] == Revised(rows[i], qid, updates)
    decreases |updates|
  {
    if |updates| == 0 then rows
    else
      var next := ApplyOne(rows, qid, updates[0]);
      var r := ApplyUpdates(next, qid, updates[1..]);
      assert forall i :: 0 <= i < |rows| ==> r[i] == Revised(rows[i], qid, updates) by {
        forall i | 0 <= i < |rows|
          ensures r[i] == Revised(rows[i], qid, updates)
        {
          assert r[i] == Revised(next[i], qid, updates[1..]);
          if LastEdit(updates[1..], rows[i].id).None? {
            assert LastEdit(updates, rows[i].id) ==
              (if updates[0].id == Some(rows[i].id) then Some(updates[0]) else None);
          }
        }
      }
      r
  }

  predicate IsNew(e: ItemEdit) {
    e.id.None?
  }

  /** Submitted items without an id, which are created. */
  function ToCreate(edits: seq<ItemEdit>): seq<ItemEdit> {
    Filter(edits, IsNew)
  }

  /** The submitted item names one of the quotation's current rows. */
  predicate NamesExisting(items: seq<QuotationItem>, qid: Id, e: ItemEdit) {
    e.id.Some? && exists it :: it in RowsOf(items, qid) && it.id == e.id.value
  }

  /** Submitted items naming a current row, which are updated. */
  function ToUpdate(items: seq<QuotationItem>, qid: Id, edits: seq<ItemEdit>): seq<ItemEdit> {
    Filter(edits, (e: ItemEdit) => NamesExisting(items, qid, e))
  }

  /** A row stays unless it belongs to the quotation and no update names it. */
  function KeepFilter(qid: Id, updates: seq<ItemEdit>): QuotationItem -> bool {
    (it: QuotationItem) => it.quotationId != qid || Named(updates, it.id)
  }

  /** The item table after the transaction's deletes, updates and creates. */
  function ReconcileItems(items: seq<QuotationItem>, firstId: Id, qid: Id, edits: seq<ItemEdit>): seq<QuotationItem> {
    var updates := ToUpdate(items, qid, edits);
    var kept := Filter(items, KeepFilter(qid, updates));
    NewItems(qid, firstId, Inputs(ToCreate(edits))) + ApplyUpdates(kept, qid, updates)
  }

  /** What a reconciliation promises, stated row by row: the id-less items
      become fresh rows in order; other quotations' rows are untouched; each of
      this quotation's rows that an item names survives, rewritten by the last
      such item; and every surviving row is one of those, so unnamed rows are
      gone and items naming no current row leave no trace. */
  ghost predicate Reconciled(before: seq<QuotationItem>, after: seq<QuotationItem>, qid: Id,
                             edits: seq<ItemEdit>, firstId: Id)
  {
    var n := |ToCreate(edits)|;
    && |after| >= n
    && CreatedRows(after[..n], qid, ToCreate(edits), firstId)
    && OthersUntouched(before, after[n..], qid)
    && NamedRowsRevised(before, after[n..], qid, edits)
    && OnlyNamedRowsSurvive(before, after[n..], qid, edits)
  }

  /** `rows` are the rows of the `created` items, with consecutive ids. */
  ghost predicate CreatedRows(rows: seq<QuotationItem>, qid: Id, created: seq<ItemEdit>, firstId: Id) {
    && |rows| == |created|
    && forall k :: 0 <= k < |rows| ==>
         && rows[k].id == firstId + k && rows[k].quotationId == qid
         && rows[k].productId == created[k].item.productId
         && StoredLine(rows[k]) == InputLine(created[k].item)
  }

  /** The rows of other quotations are the same before and after. */
  ghost predicate OthersUntouched(before: seq<QuotationItem>, after: seq<QuotationItem>, qid: Id) {
    forall it: QuotationItem :: it.quotationId != qid ==> (it in after <==> it in before)
  }

  /** Each named row of the quotation is kept, rewritten by its last item. */
  ghost predicate NamedRowsRevised(before: seq<QuotationItem>, after: seq<QuotationItem>, qid: Id, edits: seq<ItemEdit>) {
    forall e :: e in before && e.quotationId == qid && Named(edits, e.id) ==>
      Edited(e, LastEdit(edits, e.id).value) in after
  }

  /** Each row of the quotation in `after` is a named row, so revised. */
  ghost predicate OnlyNamedRowsSurvive(before: seq<QuotationItem>, after: seq<QuotationItem>, qid: Id, edits: seq<ItemEdit>) {
    forall it :: it in after && it.quotationId == qid ==>
      exists e :: e in before && e.quotationId == qid && e.id == it.id && Named(edits, e.id)
                  && it == Edited(e, LastEdit(edits, e.id).value)
  }

  /** The access checks and input checks `updateItems` makes, in order; on
      success, the caller and the quotation. */
  function ItemsGate(s: Store, ctx: Option<Session>, qid: Id, edits: seq<ItemEdit>): (r: Result<(Caller, Quotation)>)
    ensures !SignedIn(ctx) ==> r == Err(Unauthorized)
    ensures SignedIn(ctx) && !ValidItems(Inputs(edits)) ==> r == Err(Validation)
    ensures SignedIn(ctx) && ValidItems(Inputs(edits)) && FindQuotation(s, qid).None? ==> r == Err(NotFound)
    ensures r.Ok? <==>
      && SignedIn(ctx) && ValidItems(Inputs(edits)) && FindQuotation(s, qid).Some?
      && MayEdit(IsAuthed(ctx).value, FindQuotation(s, qid).value)
      && FindQuotation(s, qid).value.status == DRAFT
      && WrittenProductsExist(s, qid, edits)
    ensures SignedIn(ctx) && ValidItems(Inputs(edits)) && FindQuotation(s, qid).Some? && r.Err? ==>
      r.error == (if MayEdit(IsAuthed(ctx).value, FindQuotation(s, qid).value)
                     && FindQuotation(s, qid).value.status == DRAFT
                  then DatabaseError else Forbidden)
    ensures r.Ok? ==> r.value == (IsAuthed(ctx).value, FindQuotation(s, qid).value)
  {
    var c :- IsAuthed(ctx);
    if !ValidItems(Inputs(edits)) then Err(Validation)
    else match FindQuotation(s, qid)
      case None => Err(NotFound)
      case Some(q) =>
        if !MayEdit(c, q) then Err(Forbidden)
        else if q.status != DRAFT then Err(Forbidden)
        else if !WrittenProductsExist(s, qid, edits) then Err(DatabaseError)
        else Ok((c, q))
  }

  /** Every product a created or updated row will reference exists (foreign
      key); items that are ignored write nothing and are not checked. */
  predicate WrittenProductsExist(s: Store, qid: Id, edits: seq<ItemEdit>) {
    forall e :: e in edits && (IsNew(e) || NamesExisting(s.quotationItems, qid, e)) ==> ProductExists(s, e.item.productId)
  }

  /** The store after the item writes of `updateItems`, with the quotation's
      total set to `total`. */
  function WriteItems(s: Store, qid: Id, edits: seq<ItemEdit>, total: real): Store {
    s.(quotationItems := ReconcileItems(s.quotationItems, s.nextId, qid, edits),
       quotations := UpdateWhere(s.quotations, QuotationId, qid, (x: Quotation) => x.(totalAmount := total)),
       nextId := s.nextId + |ToCreate(edits)|)
  }

  /** `quotation.updateItems` as written: the stored total is the sum over the
      SUBMITTED list, including items whose id matches no row of the
      quotation and which are therefore neither created nor updated. */
  function UpdateItems(s: Store, ctx: Option<Session>, qid: Id, edits: seq<ItemEdit>): (r: Result<Done<Quotation>>)
    ensures r.Err? <==> ItemsGate(s, ctx, qid, edits).Err?
    ensures r.Err? ==> r.error == ItemsGate(s, ctx, qid, edits).error
    ensures r.Ok? ==> FindQuotation(s, qid).Some? && FindQuotation(s, qid).value.status == DRAFT
    ensures r.Ok? ==>
      var q := FindQuotation(s, qid).value;
      var s' := r.value.store;
      && r.value.out == q.(totalAmount := Total(InputLines(Inputs(edits))))
      && Reconciled(s.quotationItems, s'.quotationItems, qid, edits, s.nextId)
      && s'.nextId == s.nextId + |ToCreate(edits)|
      && s' == s.(quotationItems := s'.quotationItems, quotations := s'.quotations, nextId := s'.nextId)
    ensures r.Ok? ==>
      && r.value.store.quotations
           == UpdateWhere(s.quotations, QuotationId, qid, (x: Quotation) => x.(totalAmount := Total(InputLines(Inputs(edits)))))
      && FindQuotation(r.value.store, qid) == Some(r.value.out)
  {
    var (c, q) :- ItemsGate(s, ctx, qid, edits);
    var total := Total(InputLines(Inputs(edits)));
    ReconcileMeetsSpec(s, qid, edits);
    FindUpdateWhere(s.quotations, QuotationId, qid, (x: Quotation) => x.(totalAmount := total));
    Ok(Done(WriteItems(s, qid, edits, total), q.(totalAmount := total)))
  }

  /** `updateItems` with the total recomputed from the rows the quotation has
      once the writes are done. */
  function UpdateItemsRecomputed(s: Store, ctx: Option<Session>, qid: Id, edits: seq<ItemEdit>): (r: Result<Done<Quotation>>)
    ensures r.Err? <==> ItemsGate(s, ctx, qid, edits).Err?
    ensures r.Err? ==> r.error == ItemsGate(s, ctx, qid, edits).error
    ensures r.Ok? ==>
      var q := FindQuotation(s, qid).value;
      var s' := r.value.store;
      && q.status == DRAFT
      && r.value.out == q.(totalAmount := Total(ItemLines(ItemsOf(s', qid))))
      && Reconciled(s.quotationItems, s'.quotationItems, qid, edits, s.nextId)
      && s' == s.(quotationItems := s'.quotationItems, quotations := s'.quotations, nextId := s'.nextId)
    ensures r.Ok? ==>
      r.value.store.quotationItems == UpdateItems(s, ctx, qid, edits).value.store.quotationItems
    ensures r.Ok? ==>
      && r.value.store.quotations
           == UpdateWhere(s.quotations, QuotationId, qid, (x: Quotation) => x.(totalAmount := r.value.out.totalAmount))
      && FindQuotation(r.value.store, qid) == Some(r.value.out)
  {
    var (c, q) :- ItemsGate(s, ctx, qid, edits);
    var items := ReconcileItems(s.quotationItems, s.nextId, qid, edits);
    var total := Total(ItemLines(RowsOf(items, qid)));
    ReconcileMeetsSpec(s, qid, edits);
    FindUpdateWhere(s.quotations, QuotationId, qid, (x: Quotation) => x.(totalAmount := total));
    var s' := WriteItems(s, qid, edits, total);
    Ok(Done(s', q.(totalAmount := total)))
  }

  /** The delete, update and create steps together meet `Reconciled`. */
  lemma ReconcileMeetsSpec(s: Store, qid: Id, edits: seq<ItemEdit>)
    ensures Reconciled(s.quotationItems, ReconcileItems(s.quotationItems, s.nextId, qid, edits), qid, edits, s.nextId)
  {
    var created := ToCreate(edits);
    var n := |created|;
    var newRows := NewItems(qid, s.nextId, Inputs(created));
    var updates := ToUpdate(s.quotationItems, qid, edits);
    var revised := ApplyUpdates(Filter(s.quotationItems, KeepFilter(qid, updates)), qid, updates);
    var after := ReconcileItems(s.quotationItems, s.nextId, qid, edits);
    assert after[..n] == newRows;
    assert after[n..] == revised;
    NewItemsAreCreatedRows(qid, s.nextId, created);
    RevisedFrame(s.quotationItems, qid, updates);
    RevisedRows(s, qid, edits);
  }

  lemma NewItemsAreCreatedRows(qid: Id, firstId: Id, created: seq<ItemEdit>)
    ensures CreatedRows(NewItems(qid, firstId, Inputs(created)), qid, created, firstId)
  {
    var rows := NewItems(qid, firstId, Inputs(created));
    forall k | 0 <= k < |rows|
      ensures StoredLine(rows[k]) == InputLine(created[k].item)
    {
      assert ItemLines(rows)[k] == InputLines(Inputs(created))[k];
    }
  }

  /** Deleting and updating rows of `qid` leaves the other rows as they were. */
  lemma RevisedFrame(before: seq<QuotationItem>, qid: Id, updates: seq<ItemEdit>)
    ensures OthersUntouched(before, ApplyUpdates(Filter(before, KeepFilter(qid, updates)), qid, updates), qid)
  {
    var kept := Filter(before, KeepFilter(qid, updates));
    var revised := ApplyUpdates(kept, qid, updates);
    forall it: QuotationItem | it.quotationId != qid
      ensures it in revised <==> it in before
    {
      if it in revised {
        var i :| 0 <= i < |revised| && revised[i] == it;
        assert revised[i] == Revised(kept[i], qid, updates);
      }
      if it in before {
        assert it in kept;
        var i :| 0 <= i < |kept| && kept[i] == it;
        assert revised[i] == Revised(kept[i], qid, updates);
      }
    }
  }

  /** The kept rows of `qid` are exactly the named ones, each revised by the
      last item naming it. */
  lemma RevisedRows(s: Store, qid: Id, edits: seq<ItemEdit>)
    ensures
      var updates := ToUpdate(s.quotationItems, qid, edits);
      var revised := ApplyUpdates(Filter(s.quotationItems, KeepFilter(qid, updates)), qid, updates);
      NamedRowsRevised(s.quotationItems, revised, qid, edits) && OnlyNamedRowsSurvive(s.quotationItems, revised, qid, edits)
  {
    var before := s.quotationItems;
    var updates := ToUpdate(s.quotationItems, qid, edits);
    var kept := Filter(before, KeepFilter(qid, updates));
    var revised := ApplyUpdates(kept, qid, updates);
    forall e | e in before && e.quotationId == qid
      ensures Named(updates, e.id) <==> Named(edits, e.id)
      ensures LastEdit(updates, e.id) == LastEdit(edits, e.id)
    {
      assert e in ItemsOf(s, qid);
      UpdatesNameRows(s, qid, edits, e);
      LastEditFiltered(edits, (x: ItemEdit) => NamesExisting(s.quotationItems, qid, x), e.id);
    }
    forall e | e in before && e.quotationId == qid && Named(edits, e.id)
      ensures Edited(e, LastEdit(edits, e.id).value) in revised
    {
      assert e in kept;
      var i :| 0 <= i < |kept| && kept[i] == e;
      assert revised[i] == Revised(kept[i], qid, updates);
    }
    forall it | it in revised && it.quotationId == qid
      ensures exists e :: e in before && e.quotationId == qid && e.id == it.id && Named(edits, e.id)
                          && it == Edited(e, LastEdit(edits, e.id).value)
    {
      var i :| 0 <= i < |revised| && revised[i] == it;
      var e := kept[i];
      assert revised[i] == Revised(e, qid, updates);
      assert e in kept;
    }
  }

  /** An item naming one of the quotation's rows is one of the updates. */
  lemma UpdatesNameRows(s: Store, qid: Id, edits: seq<ItemEdit>, row: QuotationItem)
    requires row in ItemsOf(s, qid)
    ensures Named(ToUpdate(s.quotationItems, qid, edits), row.id) <==> Named(edits, row.id)
  {
    if Named(edits, row.id) {
      var e :| e in edits && e.id == Some(row.id);
      assert NamesExisting(s.quotationItems, qid, e);
      assert e in ToUpdate(s.quotationItems, qid, edits);
    }
  }

  /** Dropping items that do not name row `id` does not change which item
      names it last. */
  lemma {:induction false} LastEditFiltered(edits: seq<ItemEdit>, keep: ItemEdit -> bool, id: Id)
    requires forall e :: e in edits && e.id == Some(id) ==> keep(e)
    ensures LastEdit(Filter(edits, keep), id) == LastEdit(edits, id)
  {
    if |edits| > 0 {
      LastEditFiltered(edits[1..], keep, id);
      if keep(edits[0]) {
        assert ([edits[0]] + Filter(edits[1..], keep))[1..] == Filter(edits[1..], keep);
      }
    }
  }

  // Deletion.

  /** Deletion is open to an ADMIN claim at any status, and to the creator
      while the quotation is a DRAFT. */
  predicate MayDelete(c: Caller, q: Quotation) {
    MayEdit(c, q) && (q.status == DRAFT || ClaimsAdmin(c))
  }

  /** `quotation.delete`: the quotation, its items and its attachments go in
      one transaction; nothing else changes. */
  function Delete(s: Store, ctx: Option<Session>, id: Id): (r: Result<Done<()>>)
    ensures !SignedIn(ctx) ==> r == Err(Unauthorized)
    ensures SignedIn(ctx) && FindQuotation(s, id).None? ==> r == Err(NotFound)
    ensures r.Ok? <==>
      SignedIn(ctx) && FindQuotation(s, id).Some? && MayDelete(IsAuthed(ctx).value, FindQuotation(s, id).value)
    ensures SignedIn(ctx) && FindQuotation(s, id).Some? && r.Err? ==> r.error == Forbidden
    ensures r.Ok? ==>
      var s' := r.value.store;
      && (forall q :: q in s'.quotations <==> q in s.quotations && q.id != id)
      && (forall it :: it in s'.quotationItems <==> it in s.quotationItems && it.quotationId != id)
      && (forall a :: a in s'.attachments <==> a in s.attachments && a.quotationId != id)
      && s' == s.(quotations := s'.quotations, quotationItems := s'.quotationItems, attachments := s'.attachments)
  {
    var c :- IsAuthed(ctx);
    match FindQuotation(s, id)
    case None => Err(NotFound)
    case Some(q) =>
      if !MayDelete(c, q) then Err(Forbidden)
      else Ok(Done(s.(quotationItems := Filter(s.quotationItems, (it: QuotationItem) => it.quotationId != id),
                      attachments := Filter(s.attachments, (a: Attachment) => a.quotationId != id),
                      quotations := Without(s.quotations, QuotationId, id)), ()))
  }
}
