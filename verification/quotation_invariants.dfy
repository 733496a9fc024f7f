/** Store invariants the quotation procedures maintain: rows reference
    existing quotations, ids stay below the id source, and a quotation's
    stored total is the sum of its stored items. */
module QuotationInvariants {
  import opened Results
  import opened Tables
  import opened Store
  import opened Gates
  import opened QuotationRouter

  /** Quotation and item ids were minted before `nextId`, and every item and
      attachment references a stored quotation. */
  ghost predicate WellFormed(s: Store) {
    QuotationIdsMinted(s) && ItemsReferenceQuotations(s) && AttachmentsReferenceQuotations(s)
  }

  ghost predicate QuotationIdsMinted(s: Store) {
    forall q :: q in s.quotations ==> q.id < s.nextId
  }

  ghost predicate ItemsReferenceQuotations(s: Store) {
    forall it :: it in s.quotationItems ==> it.id < s.nextId && FindQuotation(s, it.quotationId).Some?
  }

  ghost predicate AttachmentsReferenceQuotations(s: Store) {
    forall a :: a in s.attachments ==> FindQuotation(s, a.quotationId).Some?
  }

  /** Every quotation's total is the sum of the line totals of its items. */
  ghost predicate TotalsConsistent(s: Store) {
    forall q :: q in s.quotations ==> q.totalAmount == Total(ItemLines(ItemsOf(s, q.id)))
  }

  /** No stored item belongs to a quotation id that was never minted. */
  lemma NoRowsOfFreshId(s: Store, qid: Id)
    requires WellFormed(s)
    requires qid >= s.nextId
    ensures ItemsOf(s, qid) == []
  {
    forall i | 0 <= i < |s.quotationItems|
      ensures !BelongsTo(qid)(s.quotationItems[i])
    {
      var it := s.quotationItems[i];
      assert it in s.quotationItems;
      var q := FindQuotation(s, it.quotationId).value;
      assert q in s.quotations;
    }
    FilterNone(s.quotationItems, BelongsTo(qid));
  }

  /** Two quotation tables with the same ids, row by row, resolve the same ids. */
  lemma SameIds(a: seq<Quotation>, b: seq<Quotation>)
    requires |a| == |b|
    requires forall i :: 0 <= i < |a| ==> a[i].id == b[i].id
    ensures forall id :: Find(a, QuotationId, id).Some? <==> Find(b, QuotationId, id).Some?
  {
    forall id
      ensures Find(a, QuotationId, id).Some? <==> Find(b, QuotationId, id).Some?
    {
      if Find(a, QuotationId, id).Some? {
        var i :| 0 <= i < |a| && QuotationId(a[i]) == id;
        assert QuotationId(b[i]) == id;
      }
      if Find(b, QuotationId, id).Some? {
        var i :| 0 <= i < |b| && QuotationId(b[i]) == id;
        assert QuotationId(a[i]) == id;
      }
    }
  }

  // quotation.create

  /** Prepending a quotation with fresh id and its fresh rows keeps the store
      well formed. */
  lemma PrependWellFormed(s: Store, q: Quotation, rows: seq<QuotationItem>)
    requires WellFormed(s)
    requires q.id == s.nextId
    requires forall k :: 0 <= k < |rows| ==> rows[k].id == s.nextId + 1 + k && rows[k].quotationId == q.id
    ensures WellFormed(s.(quotations := [q] + s.quotations, quotationItems := rows + s.quotationItems,
                          nextId := s.nextId + 1 + |rows|))
  {
    var s' := s.(quotations := [q] + s.quotations, quotationItems := rows + s.quotationItems,
                 nextId := s.nextId + 1 + |rows|);
    assert FindQuotation(s', q.id).Some?;
    forall id | FindQuotation(s, id).Some?
      ensures FindQuotation(s', id).Some?
    {
      var i :| 0 <= i < |s.quotations| && QuotationId(s.quotations[i]) == id;
      assert QuotationId(s'.quotations[i + 1]) == id;
    }
    forall it | it in s'.quotationItems
      ensures it.id < s'.nextId && FindQuotation(s', it.quotationId).Some?
    {
      if it in rows {
        var k :| 0 <= k < |rows| && rows[k] == it;
      } else {
        assert it in s.quotationItems;
      }
    }
    forall a | a in s'.attachments
      ensures FindQuotation(s', a.quotationId).Some?
    {
      assert a in s.attachments;
    }
  }

  /** Prepending a quotation whose total is the sum of its fresh rows keeps
      every total consistent. */
  lemma PrependTotals(s: Store, q: Quotation, rows: seq<QuotationItem>)
    requires WellFormed(s) && TotalsConsistent(s)
    requires q.id == s.nextId
    requires forall k :: 0 <= k < |rows| ==> rows[k].quotationId == q.id
    requires Total(ItemLines(rows)) == q.totalAmount
    ensures TotalsConsistent(s.(quotations := [q] + s.quotations, quotationItems := rows + s.quotationItems))
  {
    var s' := s.(quotations := [q] + s.quotations, quotationItems := rows + s.quotationItems);
    forall p | p in s'.quotations
      ensures p.totalAmount == Total(ItemLines(ItemsOf(s', p.id)))
    {
      FilterAppend(rows, s.quotationItems, BelongsTo(p.id));
      if p == q {
        FilterAll(rows, BelongsTo(p.id));
        NoRowsOfFreshId(s, p.id);
        assert ItemsOf(s', p.id) == rows;
      } else {
        assert p in s.quotations;
        FilterNone(rows, BelongsTo(p.id));
        assert ItemsOf(s', p.id) == ItemsOf(s, p.id);
      }
    }
  }

  lemma CreatePreservesInvariants(s: Store, ctx: Option<Session>, input: QuotationInput)
    requires WellFormed(s) && TotalsConsistent(s)
    requires Create(s, ctx, input).Ok?
    ensures WellFormed(Create(s, ctx, input).value.store)
    ensures TotalsConsistent(Create(s, ctx, input).value.store)
  {
    var q := Create(s, ctx, input).value.out;
    var s' := Create(s, ctx, input).value.store;
    var n := |input.items|;
    var rows := s'.quotationItems[..n];
    assert s'.quotationItems == rows + s.quotationItems by {
      assert s'.quotationItems == s'.quotationItems[..n] + s'.quotationItems[n..];
    }
    PrependWellFormed(s, q, rows);
    PrependTotals(s, q, rows);
    assert s' == s.(quotations := [q] + s.quotations, quotationItems := rows + s.quotationItems,
                    nextId := s.nextId + 1 + n);
  }

  // quotation.update

  /** Rewriting quotations without touching their ids keeps the store well
      formed. */
  lemma ReplaceQuotationsWellFormed(s: Store, qs: seq<Quotation>)
    requires WellFormed(s)
    requires |qs| == |s.quotations|
    requires forall i :: 0 <= i < |qs| ==> qs[i].id == s.quotations[i].id
    ensures WellFormed(s.(quotations := qs))
    ensures forall id :: FindQuotation(s.(quotations := qs), id).Some? <==> FindQuotation(s, id).Some?
  {
    var s' := s.(quotations := qs);
    SameIds(s.quotations, qs);
    forall p | p in qs
      ensures p.id < s'.nextId
    {
      var i :| 0 <= i < |qs| && qs[i] == p;
      assert s.quotations[i] in s.quotations;
    }
    forall it | it in s'.quotationItems
      ensures FindQuotation(s', it.quotationId).Some?
    {
      assert it in s.quotationItems;
    }
    forall a | a in s'.attachments
      ensures FindQuotation(s', a.quotationId).Some?
    {
      assert a in s.attachments;
    }
  }

  /** Rewriting quotations without touching their ids or totals keeps both
      invariants. */
  lemma ReplaceQuotationsPreserves(s: Store, qs: seq<Quotation>)
    requires WellFormed(s) && TotalsConsistent(s)
    requires |qs| == |s.quotations|
    requires forall i :: 0 <= i < |qs| ==> qs[i].id == s.quotations[i].id
    requires forall i :: 0 <= i < |qs| ==> qs[i].totalAmount == s.quotations[i].totalAmount
    ensures WellFormed(s.(quotations := qs)) && TotalsConsistent(s.(quotations := qs))
  {
    var s' := s.(quotations := qs);
    ReplaceQuotationsWellFormed(s, qs);
    forall p | p in qs
      ensures p.totalAmount == Total(ItemLines(ItemsOf(s', p.id)))
    {
      var i :| 0 <= i < |qs| && qs[i] == p;
      assert s.quotations[i] in s.quotations;
    }
  }

  lemma UpdatePreservesInvariants(s: Store, ctx: Option<Session>, id: Id, d: QuotationPatch)
    requires WellFormed(s) && TotalsConsistent(s)
    requires Update(s, ctx, id, d).Ok?
    ensures WellFormed(Update(s, ctx, id, d).value.store)
    ensures TotalsConsistent(Update(s, ctx, id, d).value.store)
  {
    var s' := Update(s, ctx, id, d).value.store;
    ReplaceQuotationsPreserves(s, s'.quotations);
  }

  // quotation.delete

  lemma DeletePreservesInvariants(s: Store, ctx: Option<Session>, id: Id)
    requires WellFormed(s) && TotalsConsistent(s)
    requires Delete(s, ctx, id).Ok?
    ensures WellFormed(Delete(s, ctx, id).value.store)
    ensures TotalsConsistent(Delete(s, ctx, id).value.store)
    ensures ItemsOf(Delete(s, ctx, id).value.store, id) == []
  {
    var s' := Delete(s, ctx, id).value.store;
    var other := (it: QuotationItem) => it.quotationId != id;
    assert s'.quotationItems == Filter(s.quotationItems, other);
    forall ref | FindQuotation(s, ref).Some? && ref != id
      ensures FindQuotation(s', ref).Some?
    {
      var q := FindQuotation(s, ref).value;
      assert q in s'.quotations;
    }
    forall it | it in s'.quotationItems
      ensures it.id < s'.nextId && FindQuotation(s', it.quotationId).Some?
    {
      assert it in s.quotationItems;
    }
    forall a | a in s'.attachments
      ensures FindQuotation(s', a.quotationId).Some?
    {
      assert a in s.attachments;
    }
    forall p | p in s'.quotations
      ensures p.totalAmount == Total(ItemLines(ItemsOf(s', p.id)))
    {
      FilterNarrow(s.quotationItems, other, BelongsTo(p.id));
    }
    FilterNone(s'.quotationItems, BelongsTo(id));
  }

  // quotation.updateItems

  /** The quotations other than `qid` keep their rows, in order, through the
      item writes. */
  lemma OtherRowsKept(s: Store, qid: Id, edits: seq<ItemEdit>, other: Id)
    requires other != qid
    ensures RowsOf(ReconcileItems(s.quotationItems, s.nextId, qid, edits), other) == ItemsOf(s, other)
  {
    var updates := ToUpdate(s.quotationItems, qid, edits);
    var kept := Filter(s.quotationItems, KeepFilter(qid, updates));
    var revised := ApplyUpdates(kept, qid, updates);
    var newRows := NewItems(qid, s.nextId, Inputs(ToCreate(edits)));
    FilterAppend(newRows, revised, BelongsTo(other));
    FilterNone(newRows, BelongsTo(other));
    FilterPointwise(kept, revised, BelongsTo(other));
    FilterNarrow(s.quotationItems, KeepFilter(qid, updates), BelongsTo(other));
  }

  /** The item writes keep the store well formed, whatever total is set. */
  lemma WriteItemsWellFormed(s: Store, qid: Id, edits: seq<ItemEdit>, total: real)
    requires WellFormed(s)
    requires FindQuotation(s, qid).Some?
    ensures WellFormed(WriteItems(s, qid, edits, total))
  {
    var qs := UpdateWhere(s.quotations, QuotationId, qid, (x: Quotation) => x.(totalAmount := total));
    var mid := s.(quotations := qs);
    ReplaceQuotationsWellFormed(s, qs);
    WriteRowsWellFormed(mid, qid, edits);
    assert ReconcileItems(mid.quotationItems, mid.nextId, qid, edits) == ReconcileItems(s.quotationItems, s.nextId, qid, edits);
  }

  /** Every reconciled row is a fresh row of `qid` or carries the id and
      quotation of a row that was there before. */
  lemma ReconciledRowsOrigin(items: seq<QuotationItem>, firstId: Id, qid: Id, edits: seq<ItemEdit>)
    ensures forall it :: it in ReconcileItems(items, firstId, qid, edits) ==>
      || (it.quotationId == qid && firstId <= it.id < firstId + |ToCreate(edits)|)
      || (exists e :: e in items && e.id == it.id && e.quotationId == it.quotationId)
  {
    var updates := ToUpdate(items, qid, edits);
    var kept := Filter(items, KeepFilter(qid, updates));
    var revised := ApplyUpdates(kept, qid, updates);
    var newRows := NewItems(qid, firstId, Inputs(ToCreate(edits)));
    forall it: QuotationItem | it in newRows + revised
      ensures || (it.quotationId == qid && firstId <= it.id < firstId + |ToCreate(edits)|)
              || (exists e :: e in items && e.id == it.id && e.quotationId == it.quotationId)
    {
      if it in newRows {
        var k :| 0 <= k < |newRows| && newRows[k] == it;
      } else {
        var i :| 0 <= i < |revised| && revised[i] == it;
        assert revised[i] == Revised(kept[i], qid, updates);
        assert kept[i] in kept;
      }
    }
  }

  /** Writing the reconciled rows of a stored quotation keeps the store well
      formed. */
  lemma WriteRowsWellFormed(s: Store, qid: Id, edits: seq<ItemEdit>)
    requires WellFormed(s)
    requires FindQuotation(s, qid).Some?
    ensures WellFormed(s.(quotationItems := ReconcileItems(s.quotationItems, s.nextId, qid, edits), nextId := s.nextId + |ToCreate(edits)|))
  {
    var s' := s.(quotationItems := ReconcileItems(s.quotationItems, s.nextId, qid, edits), nextId := s.nextId + |ToCreate(edits)|);
    ReconciledRowsOrigin(s.quotationItems, s.nextId, qid, edits);
    assert QuotationIdsMinted(s');
    assert AttachmentsReferenceQuotations(s');
    forall it | it in s'.quotationItems
      ensures it.id < s'.nextId && FindQuotation(s', it.quotationId).Some?
    {
      if !(it.quotationId == qid && s.nextId <= it.id < s'.nextId) {
        var e :| e in s.quotationItems && e.id == it.id && e.quotationId == it.quotationId;
      }
    }
  }

  /** The corrected `updateItems` keeps every total equal to the sum of its
      stored items. */
  lemma UpdateItemsRecomputedKeepsTotals(s: Store, ctx: Option<Session>, qid: Id, edits: seq<ItemEdit>)
    requires WellFormed(s) && TotalsConsistent(s)
    requires UpdateItemsRecomputed(s, ctx, qid, edits).Ok?
    ensures WellFormed(UpdateItemsRecomputed(s, ctx, qid, edits).value.store)
    ensures TotalsConsistent(UpdateItemsRecomputed(s, ctx, qid, edits).value.store)
  {
    var s' := UpdateItemsRecomputed(s, ctx, qid, edits).value.store;
    var total := Total(ItemLines(RowsOf(ReconcileItems(s.quotationItems, s.nextId, qid, edits), qid)));
    assert s' == WriteItems(s, qid, edits, total);
    WriteItemsWellFormed(s, qid, edits, total);
    forall p | p in s'.quotations
      ensures p.totalAmount == Total(ItemLines(ItemsOf(s', p.id)))
    {
      var i :| 0 <= i < |s'.quotations| && s'.quotations[i] == p;
      assert s.quotations[i] in s.quotations;
      if p.id != qid {
        OtherRowsKept(s, qid, edits, p.id);
      }
    }
  }

  /** `updateItems` as written also keeps the store well formed; only the
      totals can drift. */
  lemma UpdateItemsWellFormed(s: Store, ctx: Option<Session>, qid: Id, edits: seq<ItemEdit>)
    requires WellFormed(s)
    requires UpdateItems(s, ctx, qid, edits).Ok?
    ensures WellFormed(UpdateItems(s, ctx, qid, edits).value.store)
  {
    WriteItemsWellFormed(s, qid, edits, Total(InputLines(Inputs(edits))));
  }

  /** When every submitted item is new, the as-written total is the sum of the
      stored items, so the two definitions agree. */
  lemma FreshItemsAgree(s: Store, ctx: Option<Session>, qid: Id, edits: seq<ItemEdit>)
    requires forall k :: 0 <= k < |edits| ==> edits[k].id.None?
    requires UpdateItems(s, ctx, qid, edits).Ok?
    ensures UpdateItemsRecomputed(s, ctx, qid, edits) == UpdateItems(s, ctx, qid, edits)
  {
    FilterAll(edits, IsNew);
    var updates := ToUpdate(s.quotationItems, qid, edits);
    FilterNone(edits, (e: ItemEdit) => NamesExisting(s.quotationItems, qid, e));
    assert updates == [];
    var kept := Filter(s.quotationItems, KeepFilter(qid, updates));
    var revised := ApplyUpdates(kept, qid, updates);
    var newRows := NewItems(qid, s.nextId, Inputs(edits));
    assert ReconcileItems(s.quotationItems, s.nextId, qid, edits) == newRows + revised;
    FilterAppend(newRows, revised, BelongsTo(qid));
    FilterAll(newRows, BelongsTo(qid));
    forall i | 0 <= i < |revised|
      ensures !BelongsTo(qid)(revised[i])
    {
      assert revised[i] == Revised(kept[i], qid, updates);
      assert kept[i] in kept;
    }
    FilterNone(revised, BelongsTo(qid));
    assert RowsOf(ReconcileItems(s.quotationItems, s.nextId, qid, edits), qid) == newRows;
  }

  /** A witness that the as-written total drifts: a draft with no items, and a
      single submitted item whose id matches no row. Nothing is written, yet
      the total becomes 10. */
  lemma UpdateItemsTotalDrift()
    ensures
      var u := User(0, None, None, DISTRIBUTOR, None, None);
      var p := Product(1, "Widget", None, 10.0, None, None, None, true, None, 0);
      var q := Quotation(2, "Q", 0, 0, DRAFT, 0.0, None, None);
      var s := Store([u], [], [], [], [], [p], [q], [], [], 3);
      var ctx := Some(Session(Some(SessionUser(0, DISTRIBUTOR)), 0));
      var edits := [ItemEdit(Some(7), ItemInput(1, 1, 10.0, None))];
      && WellFormed(s) && TotalsConsistent(s)
      && UpdateItems(s, ctx, 2, edits).Ok?
      && UpdateItems(s, ctx, 2, edits).value.out.totalAmount == 10.0
      && ItemsOf(UpdateItems(s, ctx, 2, edits).value.store, 2) == []
      && !TotalsConsistent(UpdateItems(s, ctx, 2, edits).value.store)
  {
    var u := User(0, None, None, DISTRIBUTOR, None, None);
    var p := Product(1, "Widget", None, 10.0, None, None, None, true, None, 0);
    var q := Quotation(2, "Q", 0, 0, DRAFT, 0.0, None, None);
    var s := Store([u], [], [], [], [], [p], [q], [], [], 3);
    var ctx := Some(Session(Some(SessionUser(0, DISTRIBUTOR)), 0));
    var e := ItemEdit(Some(7), ItemInput(1, 1, 10.0, None));
    var edits := [e];
    assert ItemsOf(s, 2) == [];
    assert !NamesExisting(s.quotationItems, 2, e);
    assert ToCreate(edits) == [];
    assert ToUpdate(s.quotationItems, 2, edits) == [];
    assert ReconcileItems(s.quotationItems, s.nextId, 2, edits) == [];
    assert Total(InputLines(Inputs(edits))) == 10.0 by {
      assert InputLines(Inputs(edits)) == [Line(1, 10.0, 0.0)];
      assert InputLines(Inputs(edits))[..0] == [];
    }
    var s' := UpdateItems(s, ctx, 2, edits).value.store;
    var q' := s'.quotations[0];
    assert q' in s'.quotations && q'.id == 2 && q'.totalAmount == 10.0;
    assert ItemsOf(s', 2) == [];
  }

  /** A non-admin creator may move a sent quotation back to DRAFT, after which
      its items are open to `updateItems` again. */
  lemma SentQuotationCanBeReopened(s: Store, ctx: Option<Session>, id: Id, edits: seq<ItemEdit>)
    requires SignedIn(ctx)
    requires FindQuotation(s, id).Some?
    requires FindQuotation(s, id).value.createdById == SessionUserId(ctx)
    ensures
      var reopened := Update(s, ctx, id, QuotationPatch(None, None, None, Some(DRAFT)));
      && reopened.Ok?
      && FindQuotation(reopened.value.store, id).Some?
      && FindQuotation(reopened.value.store, id).value.status == DRAFT
      && (ValidItems(Inputs(edits)) && WrittenProductsExist(reopened.value.store, id, edits) ==>
            && UpdateItems(reopened.value.store, ctx, id, edits).Ok?
            && UpdateItemsRecomputed(reopened.value.store, ctx, id, edits).Ok?)
  {
    var d := QuotationPatch(None, None, None, Some(DRAFT));
    var s' := Update(s, ctx, id, d).value.store;
    var i :| 0 <= i < |s.quotations| && QuotationId(s.quotations[i]) == id;
    assert QuotationId(s'.quotations[i]) == id;
    var q' := FindQuotation(s', id).value;
    var j :| 0 <= j < |s'.quotations| && s'.quotations[j] == q';
  }
}
