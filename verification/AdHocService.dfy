/** The invoice service itself: tables updated in place, proved against the functions on `Books`. */
module AdHocService {
  import opened Options
  import opened AdHocInvoices
  import opened AdHocLedger
  import opened AdHocProtocol
  import opened AdHocDrift
  import opened AdHocOutcomes

  class AdHocInvoicesService {
    var invoices: seq<Invoice>
    var wallets: map<Account, int>
    var ledger: seq<Entry>

    ghost function Tables(): Books
      reads this
    {
      Books(invoices, wallets, ledger)
    }

    /** What every operation keeps: the wallet invariants and the one-naira tolerance. */
    ghost predicate Valid()
      reads this
    {
      BooksRight(Tables()) && WithinTolerance(Tables())
    }

    constructor ()
      ensures Valid() && Tables() == EMPTY_BOOKS
    {
      invoices, wallets, ledger := [], map[], [];
      new;
      StartRight();
    }

    method ApplyWalletChange(a: Account, amount: int, kind: EntryKind, invoice: nat, reversal: bool)
      modifies this
      ensures Tables() == ApplyChange(old(Tables()), a, amount, kind, invoice, reversal)
    {
      var before := if a in wallets then wallets[a] else 0;
      wallets := wallets[a := before + amount];
      if amount != 0 {
        ledger := ledger + [Entry(a, kind, amount, before + amount, invoice, reversal)];
      }
    }

    method CreateInvoice(a: Account, items: seq<Item>, due: int) returns (r: Result<nat, Refusal>)
      requires Valid()
      modifies this
      ensures Valid()
      ensures r.Success? ==> r.value == |old(invoices)| && Success(Tables()) == Create(old(Tables()), a, items, due)
      ensures r.Failure? ==> Tables() == old(Tables()) && Create(old(Tables()), a, items, due) == Failure(r.error)
      ensures r.Success? ==> Balance(Tables(), a) == Balance(old(Tables()), a) - SumItems(items)
      ensures r.Success? <==> |items| >= 1 && SumItems(items) > 0
      ensures r == Failure(NoLineItems) <==> |items| == 0
      ensures r.Success? ==>
        && |invoices| == |old(invoices)| + 1
        && LinesAre(invoices[r.value].lines, items)
        && invoices
           == old(invoices) + [Invoice(a, invoices[r.value].lines, SumItems(items), Pending, 0, due, None, None, None)]
        && a in wallets
        && Moved(old(Tables()), Tables(), Entry(a, ObCharge, -SumItems(items), wallets[a], r.value, false))
    {
      CreatedIff(Tables(), a, items, due);
      ghost var op := Operation.CreateInvoice(a, items, due);
      ApplyKeeps(Tables(), op);
      ApplyTolerates(Tables(), op);
      if |items| < 1 { return Failure(NoLineItems); }
      var total := SumItems(items);
      if total <= 0 { return Failure(NonPositiveTotal); }
      var id := |invoices|;
      invoices := invoices + [Invoice(a, Snapshot(items), total, Pending, 0, due, None, None, None)];
      ApplyWalletChange(a, -total, ObCharge, id, false);
      r := Success(id);
    }

    method UpdateInvoice(id: nat, items: seq<Item>, due: int, today: int) returns (r: Result<(), Refusal>)
      requires Valid()
      modifies this
      ensures Valid()
      ensures r.Success? ==> Success(Tables()) == Edit(old(Tables()), id, items, due, today)
      ensures r.Failure? ==> Tables() == old(Tables()) && Edit(old(Tables()), id, items, due, today) == Failure(r.error)
      ensures r.Success? <==>
        id < |old(invoices)| && old(invoices)[id].status != Paid && old(invoices)[id].status != Cancelled
        && old(invoices)[id].coveredByPlan.None? && |items| >= 1 && SumItems(items) > 0
      ensures r == Failure(OwnedByPlan) <==>
        id < |old(invoices)| && old(invoices)[id].status != Paid && old(invoices)[id].status != Cancelled
        && old(invoices)[id].coveredByPlan.Some?
      ensures r == Failure(AlreadyPaid) <==> id < |old(invoices)| && old(invoices)[id].status == Paid
      ensures r == Failure(AlreadyCancelled) <==> id < |old(invoices)| && old(invoices)[id].status == Cancelled
      ensures r.Success? ==>
        && RowEdited(old(Tables()), Tables(), id, items, due)
        && DifferenceMoved(old(Tables()), Tables(), id, SumItems(items))
    {
      EditedIff(Tables(), id, items, due, today);
      EditRefusals(Tables(), id, items, due, today);
      ghost var op := EditInvoice(id, items, due, today);
      ApplyKeeps(Tables(), op);
      ApplyTolerates(Tables(), op);
      if id >= |invoices| { return Failure(InvoiceNotFound); }
      var inv := invoices[id];
      var effective := ComputeStatus(inv, today);
      if effective == Paid { return Failure(AlreadyPaid); }
      if effective == Cancelled { return Failure(AlreadyCancelled); }
      if inv.coveredByPlan.Some? { return Failure(OwnedByPlan); }
      if |items| < 1 { return Failure(NoLineItems); }
      var newTotal := SumItems(items);
      if newTotal <= 0 { return Failure(NonPositiveTotal); }
      var delta := newTotal - inv.total;
      invoices := invoices[id := inv.(lines := Snapshot(items), total := newTotal, dueDate := due)];
      if delta > 0 {
        ApplyWalletChange(inv.account, -delta, ObCharge, id, false);
      } else if delta < 0 {
        ApplyWalletChange(inv.account, -delta, ObPayment, id, true);
      }
      assert Tables() == Apply(old(Tables()), op);
      r := Success(());
    }

    method CancelInvoice(id: nat) returns (r: Result<(), Refusal>)
      requires Valid()
      modifies this
      ensures Valid()
      ensures r.Success? ==> Success(Tables()) == Cancel(old(Tables()), id)
      ensures r.Failure? ==> Tables() == old(Tables()) && Cancel(old(Tables()), id) == Failure(r.error)
      ensures r.Success? <==>
        id < |old(invoices)| && old(invoices)[id].status != Paid && old(invoices)[id].status != Cancelled
        && old(invoices)[id].coveredByPlan.None?
      ensures r == Failure(OwnedByPlan) <==>
        id < |old(invoices)| && old(invoices)[id].status != Paid && old(invoices)[id].status != Cancelled
        && old(invoices)[id].coveredByPlan.Some?
      ensures r == Failure(AlreadyPaid) <==> id < |old(invoices)| && old(invoices)[id].status == Paid
      ensures r == Failure(AlreadyCancelled) <==> id < |old(invoices)| && old(invoices)[id].status == Cancelled
      ensures r.Success? ==>
        && invoices == old(invoices)[id := old(invoices)[id].(status := Cancelled)]
        && invoices[id].account in wallets
        && Moved(old(Tables()), Tables(), Entry(invoices[id].account, ObPayment, invoices[id].total,
                                                wallets[invoices[id].account], id, true))
    {
      CancelledIff(Tables(), id);
      CancelRefusals(Tables(), id);
      ghost var op := Operation.CancelInvoice(id);
      ApplyKeeps(Tables(), op);
      ApplyTolerates(Tables(), op);
      if id >= |invoices| { return Failure(InvoiceNotFound); }
      var inv := invoices[id];
      if inv.status == Paid { return Failure(AlreadyPaid); }
      if inv.status == Cancelled { return Failure(AlreadyCancelled); }
      if inv.coveredByPlan.Some? { return Failure(OwnedByPlan); }
      invoices := invoices[id := inv.(status := Cancelled)];
      ApplyWalletChange(inv.account, inv.total, ObPayment, id, true);
      r := Success(());
    }

    /** The guards, then `MarkInvoicePaid`; the answer tells whether this confirmation credited the wallet. */
    method MarkInvoicePaidFromWebhook(id: nat, p: Payment, receipt: string) returns (credited: bool)
      requires Valid()
      modifies this
      ensures Valid()
      ensures Tables() == Confirm(old(Tables()), id, p, receipt)
      ensures credited <==>
        id < |old(invoices)| && (old(invoices)[id].status == Pending || old(invoices)[id].status == Partial)
        && old(invoices)[id].coveredByPlan.None?
        && p.amount + 100 >= old(invoices)[id].total - old(invoices)[id].amountPaid
      ensures !credited ==> Tables() == old(Tables())
      ensures credited ==>
        && invoices == old(invoices)[id := old(invoices)[id].(status := Paid, amountPaid := old(invoices)[id].total,
                                                              paymentReference := Some(p.reference),
                                                              receiptToken := Some(receipt))]
        && invoices[id].account in wallets
        && var left := old(invoices)[id].total - old(invoices)[id].amountPaid;
        Moved(old(Tables()), Tables(),
              Entry(invoices[id].account, ObPayment, if p.amount < left then p.amount else if left > 0 then left else 0,
                    wallets[invoices[id].account], id, false))
    {
      ConfirmedIff(Tables(), id, p, receipt);
      ghost var op := ConfirmPayment(id, p, receipt);
      ApplyKeeps(Tables(), op);
      ApplyTolerates(Tables(), op);
      if id >= |invoices| { return false; }
      var inv := invoices[id];
      assert InvoiceRight(Tables(), id);
      if inv.coveredByPlan.Some? { return false; }
      if inv.status == Paid { return false; }
      if inv.status == Cancelled { return false; }
      var remaining := Remaining(inv);
      if p.amount + NAIRA < remaining { return false; }
      var raceLost := MarkInvoicePaid(Ticket(id, inv.total, inv.account, Min(p.amount, remaining), p.reference),
                                      receipt);
      credited := !raceLost;
    }

    /** Re-reads the status, then the compare-and-swap. */
    method MarkInvoicePaid(t: Ticket, receipt: string) returns (raceLost: bool)
      modifies this
      ensures Tables() == if Recheck(old(Tables()), t) then Commit(old(Tables()), t, receipt) else old(Tables())
      ensures raceLost <==>
        t.id >= |old(invoices)| || (old(invoices)[t.id].status != Pending && old(invoices)[t.id].status != Partial)
    {
      if t.id >= |invoices| || invoices[t.id].status == Paid { return true; }
      var current := invoices[t.id];
      if current.status != Pending && current.status != Partial { return true; }
      invoices := invoices[t.id := current.(status := Paid, amountPaid := t.total,
                                            paymentReference := Some(t.reference), receiptToken := Some(receipt))];
      ApplyWalletChange(t.account, t.credit, ObPayment, t.id, false);
      raceLost := false;
    }
  }
}
