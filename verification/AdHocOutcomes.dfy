/**
 * What each operation on ad-hoc invoices lets through and what it leaves,
 * said by the columns of the row it is asked about, and what follows over
 * whole runs for a row that a payment plan covers.
 */
module AdHocOutcomes {
  import opened Options
  import opened AdHocInvoices
  import opened AdHocLedger
  import opened AdHocProtocol

  // ---------------------------------------------------------------------
  // Landlord operations
  // ---------------------------------------------------------------------

  /** A total is what its items add up to. */
  lemma {:induction false} ItemsAddUp(xs: seq<Item>, ys: seq<Item>)
    ensures SumItems(xs + ys) == SumItems(xs) + SumItems(ys)
    ensures |ys| == 1 ==> SumItems(ys) == ys[0].amount
  {
    if ys == [] {
      assert xs + ys == xs;
    } else {
      var n := |ys| - 1;
      ItemsAddUp(xs, ys[..n]);
      assert (xs + ys)[..|xs + ys| - 1] == xs + ys[..n];
    }
  }

  /** The wallet and its ledger after one signed change for an invoice. */
  ghost predicate Moved(b: Books, later: Books, e: Entry) {
    && later.wallets.Keys == b.wallets.Keys + {e.account}
    && later.wallets[e.account] == (if e.account in b.wallets then b.wallets[e.account] else 0) + e.change
    && later.wallets[e.account] == e.balanceAfter
    && (forall a :: a in b.wallets && a != e.account ==> later.wallets[a] == b.wallets[a])
    && later.ledger == b.ledger + (if e.change == 0 then [] else [e])
  }

  /** Only an existing row that is neither paid nor cancelled nor covered is cancelled, and nothing else changes. */
  lemma CancelledIff(b: Books, id: nat)
    ensures var later := Apply(b, CancelInvoice(id));
      if id < |b.invoices| && b.invoices[id].status != Paid && b.invoices[id].status != Cancelled
         && b.invoices[id].coveredByPlan.None?
      then
        && later.invoices == b.invoices[id := b.invoices[id].(status := Cancelled)]
        && b.invoices[id].account in later.wallets
        && Moved(b, later, Entry(b.invoices[id].account, ObPayment, b.invoices[id].total,
                                 later.wallets[b.invoices[id].account], id, true))
      else later == b
  {
  }

  lemma CancelRefusals(b: Books, id: nat)
    ensures Cancel(b, id) == Failure(InvoiceNotFound) <==> id >= |b.invoices|
    ensures Cancel(b, id) == Failure(AlreadyPaid) <==> id < |b.invoices| && b.invoices[id].status == Paid
    ensures Cancel(b, id) == Failure(AlreadyCancelled) <==> id < |b.invoices| && b.invoices[id].status == Cancelled
    ensures Cancel(b, id) == Failure(OwnedByPlan) <==>
      id < |b.invoices| && b.invoices[id].status != Paid && b.invoices[id].status != Cancelled
      && b.invoices[id].coveredByPlan.Some?
  {
  }

  /** The lines of a row are the items asked for, numbered from one. */
  ghost predicate LinesAre(lines: seq<LineItem>, items: seq<Item>) {
    && |lines| == |items|
    && forall k :: 0 <= k < |items| ==> lines[k] == LineItem(items[k].description, items[k].amount, k + 1)
  }

  /** One row takes the items, their sum and the date, and keeps every other column; no other row changes. */
  ghost predicate RowEdited(b: Books, later: Books, id: nat, items: seq<Item>, due: int)
    requires id < |b.invoices|
  {
    && |later.invoices| == |b.invoices|
    && LinesAre(later.invoices[id].lines, items)
    && later.invoices
       == b.invoices[id := b.invoices[id].(lines := later.invoices[id].lines, total := SumItems(items),
                                           dueDate := due)]
  }

  /** A higher total is charged the difference and a lower one gets it back; an equal one moves nothing. */
  ghost predicate DifferenceMoved(b: Books, later: Books, id: nat, sum: int)
    requires id < |b.invoices|
  {
    var inv := b.invoices[id];
    if sum == inv.total then later.wallets == b.wallets && later.ledger == b.ledger
    else
      && inv.account in later.wallets
      && Moved(b, later, Entry(inv.account, if sum > inv.total then ObCharge else ObPayment, inv.total - sum,
                               later.wallets[inv.account], id, sum < inv.total))
  }

  lemma ChangeIsMoved(b: Books, rows: seq<Invoice>, a: Account, amount: int, kind: EntryKind, id: nat, reversal: bool)
    ensures var later := ApplyChange(b.(invoices := rows), a, amount, kind, id, reversal);
      && later.invoices == rows && a in later.wallets
      && Moved(b, later, Entry(a, kind, amount, later.wallets[a], id, reversal))
  {
  }

  predicate Editable(b: Books, id: nat, items: seq<Item>) {
    && id < |b.invoices| && b.invoices[id].status != Paid && b.invoices[id].status != Cancelled
    && b.invoices[id].coveredByPlan.None? && |items| >= 1 && SumItems(items) > 0
  }

  function RowsAfterEdit(b: Books, id: nat, items: seq<Item>, due: int): seq<Invoice>
    requires id < |b.invoices|
  {
    b.invoices[id := b.invoices[id].(lines := Snapshot(items), total := SumItems(items), dueDate := due)]
  }

  /** An accepted edit replaces the row and books the difference as one change, or none. */
  lemma EditIsAChange(b: Books, id: nat, items: seq<Item>, due: int, today: int)
    requires Editable(b, id, items)
    ensures var inv, rows := b.invoices[id], RowsAfterEdit(b, id, items, due);
      var up := SumItems(items) > inv.total;
      Apply(b, EditInvoice(id, items, due, today))
      == if SumItems(items) == inv.total then b.(invoices := rows)
         else ApplyChange(b.(invoices := rows), inv.account, inv.total - SumItems(items),
                          if up then ObCharge else ObPayment, id, !up)
  {
  }

  lemma EditableIsEdited(b: Books, id: nat, items: seq<Item>, due: int, later: Books)
    requires Editable(b, id, items)
    requires var inv, rows := b.invoices[id], RowsAfterEdit(b, id, items, due);
      var up := SumItems(items) > inv.total;
      later == if SumItems(items) == inv.total then b.(invoices := rows)
               else ApplyChange(b.(invoices := rows), inv.account, inv.total - SumItems(items),
                                if up then ObCharge else ObPayment, id, !up)
    ensures RowEdited(b, later, id, items, due) && DifferenceMoved(b, later, id, SumItems(items))
  {
    var inv, rows := b.invoices[id], RowsAfterEdit(b, id, items, due);
    var up := SumItems(items) > inv.total;
    ChangeIsMoved(b, rows, inv.account, inv.total - SumItems(items), if up then ObCharge else ObPayment, id, !up);
    assert later.invoices == rows;
  }

  lemma OthersAreNotEdited(b: Books, id: nat, items: seq<Item>, due: int, today: int)
    requires !Editable(b, id, items)
    ensures Apply(b, EditInvoice(id, items, due, today)) == b
  {
  }

  /**
   * An edit goes through exactly for an existing row that is neither paid nor
   * cancelled nor covered and for items with a positive sum; the row takes the
   * items, their sum and the date, and the wallet the difference of the totals.
   */
  lemma EditedIff(b: Books, id: nat, items: seq<Item>, due: int, today: int)
    ensures var later := Apply(b, EditInvoice(id, items, due, today));
      if id < |b.invoices| && b.invoices[id].status != Paid && b.invoices[id].status != Cancelled
         && b.invoices[id].coveredByPlan.None? && |items| >= 1 && SumItems(items) > 0
      then
        RowEdited(b, later, id, items, due) && DifferenceMoved(b, later, id, SumItems(items))
      else later == b
  {
    if Editable(b, id, items) {
      EditIsAChange(b, id, items, due, today);
      EditableIsEdited(b, id, items, due, Apply(b, EditInvoice(id, items, due, today)));
    } else {
      OthersAreNotEdited(b, id, items, due, today);
    }
  }

  lemma EditRefusals(b: Books, id: nat, items: seq<Item>, due: int, today: int)
    ensures var r := Edit(b, id, items, due, today);
      && (r == Failure(InvoiceNotFound) <==> id >= |b.invoices|)
      && (id < |b.invoices| ==>
            var inv := b.invoices[id];
            && (r == Failure(AlreadyPaid) <==> inv.status == Paid)
            && (r == Failure(AlreadyCancelled) <==> inv.status == Cancelled)
            && (inv.status != Paid && inv.status != Cancelled ==>
                  && (r == Failure(OwnedByPlan) <==> inv.coveredByPlan.Some?)
                  && (r == Failure(NoLineItems) <==> inv.coveredByPlan.None? && |items| == 0)
                  && (r == Failure(NonPositiveTotal)
                      <==> inv.coveredByPlan.None? && |items| > 0 && SumItems(items) <= 0)))
  {
  }

  /**
   * Only a pending row no plan covers is shown overdue, from the day after it
   * was due; every other status is shown as stored.
   */
  lemma ShownOverdueIff(inv: Invoice, today: int)
    requires inv.status != Overdue
    ensures ComputeStatus(inv, today) == Overdue <==>
      inv.status == Pending && inv.coveredByPlan.None? && today > inv.dueDate
    ensures ComputeStatus(inv, today) != Overdue ==> ComputeStatus(inv, today) == inv.status
  {
  }

  /** A new row is pending, unpaid, and debited in full; it needs an item and a positive sum. */
  lemma CreatedIff(b: Books, a: Account, items: seq<Item>, due: int)
    ensures var later := Apply(b, CreateInvoice(a, items, due));
      if |items| >= 1 && SumItems(items) > 0 then
        && |later.invoices| == |b.invoices| + 1
        && LinesAre(later.invoices[|b.invoices|].lines, items)
        && later.invoices
           == b.invoices + [Invoice(a, later.invoices[|b.invoices|].lines, SumItems(items), Pending, 0, due, None, None,
                                    None)]
        && a in later.wallets
        && Moved(b, later, Entry(a, ObCharge, -SumItems(items), later.wallets[a], |b.invoices|, false))
      else later == b
    ensures Create(b, a, items, due) == Failure(NoLineItems) <==> |items| == 0
    ensures Create(b, a, items, due) == Failure(NonPositiveTotal) <==> |items| > 0 && SumItems(items) <= 0
  {
  }

  // ---------------------------------------------------------------------
  // Confirmations
  // ---------------------------------------------------------------------

  /**
   * An undisturbed confirmation settles exactly an open row no plan covers, by a
   * charge at most one naira short of what is left, and credits no more than that.
   */
  lemma ConfirmedIff(b: Books, id: nat, p: Payment, receipt: string)
    ensures var later := Apply(b, ConfirmPayment(id, p, receipt));
      if id < |b.invoices| && (b.invoices[id].status == Pending || b.invoices[id].status == Partial)
         && b.invoices[id].coveredByPlan.None? && p.amount + 100 >= b.invoices[id].total - b.invoices[id].amountPaid
      then
        var inv := b.invoices[id];
        var left := inv.total - inv.amountPaid;
        && later.invoices == b.invoices[id := inv.(status := Paid, amountPaid := inv.total,
                                                   paymentReference := Some(p.reference),
                                                   receiptToken := Some(receipt))]
        && inv.account in later.wallets
        && Moved(b, later, Entry(inv.account, ObPayment,
                                 if p.amount < left then p.amount else if left > 0 then left else 0,
                                 later.wallets[inv.account], id, false))
      else later == b
  {
  }

  /** Taken one after the other, the three steps of a confirmation are the whole of it. */
  lemma UninterruptedConfirmation(s: System, r: nat, id: nat, p: Payment, receipt: string)
    requires r !in s.confirmations
    ensures var loaded := Step(s, LoadStep(r, id, p));
      var later := Step(Step(loaded, RecheckStep(r)), CommitStep(r, receipt));
      && later.books == Apply(s.books, ConfirmPayment(id, p, receipt))
      && later.confirmations.Keys == s.confirmations.Keys + {r}
      && (later.confirmations[r].Won? <==>
            id < |s.books.invoices|
            && (s.books.invoices[id].status == Pending || s.books.invoices[id].status == Partial)
            && s.books.invoices[id].coveredByPlan.None?
            && p.amount + 100 >= s.books.invoices[id].total - s.books.invoices[id].amountPaid)
  {
  }

  /** What the first read answers when it does not go on. */
  lemma LoadAnswers(b: Books, id: nat, p: Payment)
    ensures var l := Load(b, id, p);
      && (l == UnknownInvoice <==> id >= |b.invoices|)
      && (id < |b.invoices| ==>
            var inv := b.invoices[id];
            && (l == PaidOnCovered <==> inv.coveredByPlan.Some?)
            && (inv.coveredByPlan.None? ==>
                  && (l == SameChargeAgain <==> inv.status == Paid && inv.paymentReference == Some(p.reference))
                  && (l == DuplicatePayment <==> inv.status == Paid && inv.paymentReference != Some(p.reference))
                  && (l == PaidOnCancelled <==> inv.status == Cancelled)
                  && (l == AmountMismatch <==> inv.status != Paid && inv.status != Cancelled
                                               && p.amount + 100 < inv.total - inv.amountPaid)))
  {
  }

  /** The re-read loses exactly to a row that is paid by now. */
  lemma RecheckMeans(s: System, r: nat)
    requires r in s.confirmations && s.confirmations[r].HasLoaded?
    requires s.confirmations[r].ticket.id < |s.books.invoices|
    ensures var t := s.confirmations[r].ticket;
      Step(s, RecheckStep(r))
      == s.(confirmations := s.confirmations[r := if s.books.invoices[t.id].status == Paid then Lost(t)
                                                  else HasRechecked(t)])
  {
  }

  /**
   * A commit settles the row as it finds it, if still unpaid or half paid: with
   * the total and the credit of the read, however old, and whatever the row says now.
   */
  lemma CommitMeans(s: System, r: nat, receipt: string)
    requires r in s.confirmations && s.confirmations[r].HasRechecked?
    requires s.confirmations[r].ticket.id < |s.books.invoices|
    ensures var t := s.confirmations[r].ticket;
      var later := Step(s, CommitStep(r, receipt));
      var row := s.books.invoices[t.id];
      if row.status == Pending || row.status == Partial then
        && later.confirmations == s.confirmations[r := Won(t, receipt)]
        && later.books.invoices == s.books.invoices[t.id := row.(status := Paid, amountPaid := t.total,
                                                                 paymentReference := Some(t.reference),
                                                                 receiptToken := Some(receipt))]
        && t.account in later.books.wallets
        && Moved(s.books, later.books, Entry(t.account, ObPayment, t.credit, later.books.wallets[t.account], t.id,
                                             false))
      else later == s.(confirmations := s.confirmations[r := Lost(t)])
  {
  }

  // ---------------------------------------------------------------------
  // A plan on one invoice
  // ---------------------------------------------------------------------

  lemma CoveredIff(b: Books, id: nat, plan: nat)
    ensures var later := Apply(b, CoverByPlan(id, plan));
      if id < |b.invoices| && b.invoices[id].status != Paid && b.invoices[id].status != Cancelled
         && b.invoices[id].coveredByPlan.None? && b.invoices[id].total > b.invoices[id].amountPaid
      then later == b.(invoices := b.invoices[id := b.invoices[id].(coveredByPlan := Some(plan))])
      else later == b
  {
  }

  /** An installment on an open covered row leaves it partly paid, or settled once at most a naira is left. */
  lemma CollectedIff(b: Books, id: nat, amount: nat)
    ensures var later := Apply(b, CollectInstallment(id, amount));
      if id < |b.invoices|
         && (b.invoices[id].coveredByPlan.Some? || b.invoices[id].status == Paid || b.invoices[id].status == Cancelled)
      then
        var inv := b.invoices[id];
        && inv.account in later.wallets
        && Moved(b, later, Entry(inv.account, ObPayment, amount, later.wallets[inv.account], id, false))
        && later.invoices == b.invoices[id :=
             if inv.status == Paid || inv.status == Cancelled then inv
             else if inv.total - inv.amountPaid - amount <= 100 then
               inv.(status := Paid, amountPaid := inv.total, coveredByPlan := None)
             else inv.(status := Partial, amountPaid := inv.amountPaid + amount)]
      else later == b
  {
  }

  /** A released row is open again for what it still asks, unless at most a naira of it is left. */
  lemma ReleasedIff(b: Books, id: nat)
    ensures var later := Apply(b, ReleaseFromPlan(id));
      if id < |b.invoices| && b.invoices[id].coveredByPlan.Some? then
        var inv := b.invoices[id];
        && |later.invoices| == |b.invoices|
        && later == b.(invoices := b.invoices[id := inv.(coveredByPlan := None, status := later.invoices[id].status)])
        && (inv.status == Paid || inv.status == Cancelled ==> later.invoices[id].status == inv.status)
        && (inv.status != Paid && inv.status != Cancelled ==>
              && (later.invoices[id].status == Paid <==> inv.total - inv.amountPaid <= 100)
              && (later.invoices[id].status == Pending <==> inv.total - inv.amountPaid > 100 && inv.amountPaid <= 50)
              && (later.invoices[id].status == Partial <==> inv.total - inv.amountPaid > 100 && inv.amountPaid > 50))
      else later == b
  {
  }

  // ---------------------------------------------------------------------
  // A covered row over runs
  // ---------------------------------------------------------------------

  /** Covered after every event but perhaps the last. */
  ghost predicate CoveredUntilLast(s: System, es: seq<Event>, id: nat) {
    forall n :: 0 <= n < |es| ==>
      var books := Run(s, es[..n]).books;
      id < |books.invoices| && books.invoices[id].coveredByPlan.Some?
  }

  /** What a covered row keeps, whatever happens: whose it is, what it asks, when it is due, and not being cancelled. */
  predicate SameClaim(was: Invoice, now: Invoice) {
    && now.account == was.account && now.lines == was.lines && now.total == was.total && now.dueDate == was.dueDate
    && (now.status == Cancelled <==> was.status == Cancelled)
  }

  predicate ByLandlord(e: Event) {
    || e.LoadStep? || e.RecheckStep?
    || (e.Atomic? && (e.op.CreateInvoice? || e.op.EditInvoice? || e.op.CancelInvoice?))
  }

  lemma CoveredOperation(b: Books, op: Operation, id: nat)
    requires id < |b.invoices| && b.invoices[id].coveredByPlan.Some? && !op.ConfirmPayment?
    ensures id < |Apply(b, op).invoices|
    ensures SameClaim(b.invoices[id], Apply(b, op).invoices[id])
    ensures op.CreateInvoice? || op.EditInvoice? || op.CancelInvoice? ==> Apply(b, op).invoices[id] == b.invoices[id]
  {
    match op
    case CreateInvoice(_, _, _) =>
    case EditInvoice(_, _, _, _) =>
    case CancelInvoice(_) =>
    case _ =>
  }

  lemma CoveredStep(s: System, e: Event, id: nat)
    requires id < |s.books.invoices| && s.books.invoices[id].coveredByPlan.Some?
    ensures id < |Step(s, e).books.invoices|
    ensures SameClaim(s.books.invoices[id], Step(s, e).books.invoices[id])
    ensures ByLandlord(e) ==> Step(s, e).books.invoices[id] == s.books.invoices[id]
  {
    if e.Atomic? {
      if !e.op.ConfirmPayment? { CoveredOperation(s.books, e.op, id); }
    }
  }

  lemma CoveredUntilLastOfMore(s: System, es: seq<Event>, id: nat)
    requires es != [] && CoveredUntilLast(s, es, id)
    ensures CoveredUntilLast(s, es[..|es| - 1], id)
    ensures var books := Run(s, es[..|es| - 1]).books;
      id < |books.invoices| && books.invoices[id].coveredByPlan.Some?
  {
    var shorter := es[..|es| - 1];
    forall n | 0 <= n < |shorter|
      ensures var books := Run(s, shorter[..n]).books;
        id < |books.invoices| && books.invoices[id].coveredByPlan.Some?
    {
      assert shorter[..n] == es[..n];
    }
  }

  /**
   * While a plan covers a row, no event of any run changes what the row asks,
   * whose it is or when it is due, and none cancels it.
   */
  lemma {:induction false} CoveredRowsAreFrozen(s: System, es: seq<Event>, id: nat)
    requires id < |s.books.invoices| && CoveredUntilLast(s, es, id)
    ensures id < |Run(s, es).books.invoices|
    ensures SameClaim(s.books.invoices[id], Run(s, es).books.invoices[id])
  {
    if es != [] {
      var n := |es| - 1;
      CoveredUntilLastOfMore(s, es, id);
      CoveredRowsAreFrozen(s, es[..n], id);
      CoveredStep(Run(s, es[..n]), es[n], id);
    }
  }

  /** Whatever a landlord asks for, on whichever invoices, a covered row stays as it is. */
  lemma {:induction false} LandlordsLeaveCoveredRows(s: System, es: seq<Event>, id: nat)
    requires id < |s.books.invoices| && s.books.invoices[id].coveredByPlan.Some?
    requires forall k :: 0 <= k < |es| ==> ByLandlord(es[k])
    ensures id < |Run(s, es).books.invoices|
    ensures Run(s, es).books.invoices[id] == s.books.invoices[id]
  {
    if es != [] {
      var n := |es| - 1;
      LandlordsLeaveCoveredRows(s, es[..n], id);
      CoveredStep(Run(s, es[..n]), es[n], id);
    }
  }
}
