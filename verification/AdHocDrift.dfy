/**
 * How far a wallet can drift from what its open invoices say is owed.
 *
 * A payment up to one naira short still settles an invoice. With each
 * confirmation undisturbed that tolerance is the only drift; `AdHocDisturbed`
 * has the edits that land between a confirmation's read and its commit.
 */
module AdHocDrift {
  import opened Options
  import opened AdHocInvoices
  import opened AdHocLedger
  import opened AdHocProtocol

  /** What a settled invoice was left short by; negative when it collected more than its total. */
  function Shortfall(b: Books, id: nat): int
    requires id < |b.invoices|
  {
    b.invoices[id].total - Collected(b.ledger, id)
  }

  /** Σ of what unpaid invoices still ask for. */
  function Outstanding(invoices: seq<Invoice>, a: Account): int {
    if invoices == [] then 0
    else
      var inv := invoices[|invoices| - 1];
      Outstanding(invoices[..|invoices| - 1], a)
        + if inv.account == a && IsUnpaid(inv) then inv.total - inv.amountPaid else 0
  }

  function PaidCount(invoices: seq<Invoice>, a: Account): nat {
    if invoices == [] then 0
    else
      var inv := invoices[|invoices| - 1];
      PaidCount(invoices[..|invoices| - 1], a) + if inv.account == a && inv.status == Paid then 1 else 0
  }

  /** Shortfalls of paid invoices, less money kept from cancelled ones. */
  function Drift(invoices: seq<Invoice>, ledger: seq<Entry>, a: Account): int {
    if invoices == [] then 0
    else
      var n := |invoices| - 1;
      var inv := invoices[n];
      Drift(invoices[..n], ledger, a)
        + if inv.account != a then 0
          else if inv.status == Paid then inv.total - Collected(ledger, n)
          else if inv.status == Cancelled then -Collected(ledger, n)
          else 0
  }

  lemma {:induction false} CollectedNonNegative(ledger: seq<Entry>, id: nat)
    requires forall k :: 0 <= k < |ledger| && ledger[k].kind == ObPayment ==> ledger[k].change > 0
    ensures Collected(ledger, id) >= 0
  {
    if ledger != [] {
      CollectedNonNegative(ledger[..|ledger| - 1], id);
    }
  }

  lemma {:induction false} DriftExplains(invoices: seq<Invoice>, ledger: seq<Entry>, a: Account)
    requires forall i :: 0 <= i < |invoices| ==> invoices[i].status != Overdue
    requires forall i :: 0 <= i < |invoices| && IsUnpaid(invoices[i]) ==> invoices[i].amountPaid == Collected(ledger, i)
    ensures CollectedOver(invoices, ledger, a) - LiveTotals(invoices, a)
      == -Outstanding(invoices, a) - Drift(invoices, ledger, a)
  {
    if invoices != [] {
      var n := |invoices| - 1;
      DriftExplains(invoices[..n], ledger, a);
      assert invoices[n].status != Overdue;
    }
  }

  /** In every run, interleaved or not, the balance is minus what is outstanding, minus the drift. */
  lemma BalanceIsOutstandingAndDrift(es: seq<Event>, a: Account)
    ensures var b := Run(START, es).books;
      Balance(b, a) == -Outstanding(b.invoices, a) - Drift(b.invoices, b.ledger, a)
  {
    BooksOverRuns(es);
    var b := Run(START, es).books;
    assert AccountRight(b, a);
    forall i | 0 <= i < |b.invoices|
      ensures b.invoices[i].status != Overdue
      ensures IsUnpaid(b.invoices[i]) ==> b.invoices[i].amountPaid == Collected(b.ledger, i)
    {
      assert InvoiceRight(b, i);
    }
    DriftExplains(b.invoices, b.ledger, a);
  }

  // ---------------------------------------------------------------------
  // Undisturbed confirmations: at most one naira per paid invoice
  // ---------------------------------------------------------------------

  ghost predicate WithinTolerance(b: Books) {
    forall id :: 0 <= id < |b.invoices| && b.invoices[id].status == Paid ==> Shortfall(b, id) <= NAIRA
  }

  /** Nothing was collected except by the confirmation that settled the invoice. */
  ghost predicate NoPartPayments(b: Books) {
    forall id :: 0 <= id < |b.invoices| ==>
      var inv := b.invoices[id];
      && (inv.status == Paid ==> Shortfall(b, id) >= 0)
      && (inv.status != Paid ==> Collected(b.ledger, id) == 0)
  }

  function PaidRow(inv: Invoice, t: Ticket, receipt: string): Invoice {
    inv.(status := Paid, amountPaid := t.total, paymentReference := Some(t.reference), receiptToken := Some(receipt))
  }

  lemma CommitIsAChange(b: Books, t: Ticket, receipt: string)
    requires Claimable(b, t)
    ensures Commit(b, t, receipt)
      == ApplyChange(b.(invoices := b.invoices[t.id := PaidRow(b.invoices[t.id], t, receipt)]), t.account, t.credit,
                     ObPayment, t.id, false)
  {
  }

  lemma ChangeLeavesInvoices(b: Books, a: Account, amount: int, id: nat)
    ensures ApplyChange(b, a, amount, ObPayment, id, false).invoices == b.invoices
  {
  }

  lemma CommitRows(b: Books, t: Ticket, receipt: string)
    requires Claimable(b, t)
    ensures Commit(b, t, receipt).invoices == b.invoices[t.id := PaidRow(b.invoices[t.id], t, receipt)]
  {
    CommitIsAChange(b, t, receipt);
    ChangeLeavesInvoices(b.(invoices := b.invoices[t.id := PaidRow(b.invoices[t.id], t, receipt)]), t.account, t.credit,
                         t.id);
  }

  lemma CommitCollects(b: Books, t: Ticket, receipt: string, i: nat)
    requires Claimable(b, t)
    ensures Collected(Commit(b, t, receipt).ledger, i)
      == Collected(b.ledger, i) + if i == t.id then t.credit else 0
  {
    CommitIsAChange(b, t, receipt);
    CollectedAfterChange(b.(invoices := b.invoices[t.id := PaidRow(b.invoices[t.id], t, receipt)]), t.account, t.credit,
                         ObPayment, t.id, false, i);
  }

  /** What the amount guard leaves between the credit and the row it was read from. */
  lemma LoadedCredit(b: Books, id: nat, p: Payment)
    requires Load(b, id, p).Proceed?
    ensures var t := Load(b, id, p).ticket;
      && id < |b.invoices| && t.id == id
      && (b.invoices[id].total - b.invoices[id].amountPaid >= 0 ==>
            0 <= b.invoices[id].total - b.invoices[id].amountPaid - t.credit <= NAIRA)
      && t.credit + NAIRA >= b.invoices[id].total - b.invoices[id].amountPaid
  {
  }

  lemma CommittedShortfall(b: Books, t: Ticket, receipt: string, i: nat)
    requires BooksRight(b) && Claimable(b, t) && i < |b.invoices|
    ensures var b' := Commit(b, t, receipt);
      && |b'.invoices| == |b.invoices|
      && (i != t.id ==> b'.invoices[i] == b.invoices[i] && Collected(b'.ledger, i) == Collected(b.ledger, i))
      && (i == t.id ==> b'.invoices[i].status == Paid
                        && Shortfall(b', i) == b.invoices[i].total - b.invoices[i].amountPaid - t.credit)
  {
    assert InvoiceRight(b, i);
    CommitRows(b, t, receipt);
    CommitCollects(b, t, receipt, i);
  }

  lemma ConfirmTolerates(b: Books, id: nat, p: Payment, receipt: string)
    requires BooksRight(b) && WithinTolerance(b)
    ensures WithinTolerance(Confirm(b, id, p, receipt))
    ensures NoPartPayments(b) ==> NoPartPayments(Confirm(b, id, p, receipt))
  {
    var l := Load(b, id, p);
    if l.Proceed? && Recheck(b, l.ticket) && Claimable(b, l.ticket) {
      var t := l.ticket;
      var b' := Commit(b, t, receipt);
      LoadedCredit(b, id, p);
      assert InvoiceRight(b, id);
      CommittedShortfall(b, t, receipt, id);
      forall i | 0 <= i < |b.invoices| && i != id
        ensures b'.invoices[i] == b.invoices[i] && Collected(b'.ledger, i) == Collected(b.ledger, i)
      {
        CommittedShortfall(b, t, receipt, i);
      }
    }
  }

  lemma CollectTolerates(b: Books, id: nat, amount: nat)
    requires BooksRight(b) && WithinTolerance(b)
    ensures WithinTolerance(Collect(b, id, amount))
  {
    if id < |b.invoices| && Collect(b, id, amount) != b {
      var inv := b.invoices[id];
      var b' := Collect(b, id, amount);
      assert InvoiceRight(b, id);
      CollectedRowFits(inv, amount);
      forall i | 0 <= i < |b'.invoices| && b'.invoices[i].status == Paid ensures Shortfall(b', i) <= NAIRA {
        CollectedAfterChange(b.(invoices := b.invoices[id := CollectedRow(inv, amount)]), inv.account, amount,
                             ObPayment, id, false, i);
      }
    }
  }

  lemma ApplyTolerates(b: Books, op: Operation)
    requires BooksRight(b) && WithinTolerance(b)
    ensures WithinTolerance(Apply(b, op))
    ensures NoPartPayments(b) && !op.CollectInstallment? ==> NoPartPayments(Apply(b, op))
  {
    var b' := Apply(b, op);
    match op
    case ConfirmPayment(id, p, receipt) => ConfirmTolerates(b, id, p, receipt);
    case CollectInstallment(id, amount) => CollectTolerates(b, id, amount);
    case CreateInvoice(a, items, due) =>
      if |b'.invoices| > |b.invoices| {
        NothingCollectedYet(b.ledger, |b.invoices|);
      }
      OperationsTolerate(b, op);
    case _ => OperationsTolerate(b, op);
  }

  lemma OperationsTolerate(b: Books, op: Operation)
    requires BooksRight(b) && WithinTolerance(b)
    requires !op.ConfirmPayment? && !op.CollectInstallment?
    requires |Apply(b, op).invoices| > |b.invoices| ==> Collected(b.ledger, |b.invoices|) == 0
    ensures WithinTolerance(Apply(b, op))
    ensures NoPartPayments(b) ==> NoPartPayments(Apply(b, op))
  {
    var b' := Apply(b, op);
    forall i | 0 <= i < |b'.invoices|
      ensures b'.invoices[i].status == Paid ==> Shortfall(b', i) <= NAIRA
    {
      RowTolerates(b, op, i);
    }
    if NoPartPayments(b) {
      forall i | 0 <= i < |b'.invoices|
        ensures b'.invoices[i].status == Paid ==> Shortfall(b', i) >= 0
        ensures b'.invoices[i].status != Paid ==> Collected(b'.ledger, i) == 0
      {
        RowHasNoPartPayment(b, op, i);
        assert NoPart(b', i);
      }
    }
  }

  /**
   * Only a released plan makes a row paid, and only within tolerance of its total; no
   * paid row is reopened or repriced.
   */
  predicate RowKept(b: Books, later: Books, i: nat)
    requires i < |later.invoices|
  {
    var row := later.invoices[i];
    && (row.status == Paid ==>
          (i < |b.invoices| && row.total == b.invoices[i].total
           && (b.invoices[i].status == Paid
               || (b.invoices[i].status != Cancelled && b.invoices[i].amountPaid >= b.invoices[i].total - NAIRA))))
    && (row.status != Paid && i < |b.invoices| ==> b.invoices[i].status != Paid)
  }

  lemma CreateKeepsRow(b: Books, a: Account, items: seq<Item>, due: int, i: nat)
    requires i < |Apply(b, CreateInvoice(a, items, due)).invoices|
    ensures RowKept(b, Apply(b, CreateInvoice(a, items, due)), i)
  {
  }

  lemma EditKeepsRow(b: Books, id: nat, items: seq<Item>, due: int, today: int, i: nat)
    requires i < |Apply(b, EditInvoice(id, items, due, today)).invoices|
    ensures RowKept(b, Apply(b, EditInvoice(id, items, due, today)), i)
  {
  }

  lemma CancelKeepsRow(b: Books, id: nat, i: nat)
    requires i < |Apply(b, CancelInvoice(id)).invoices|
    ensures RowKept(b, Apply(b, CancelInvoice(id)), i)
  {
  }

  lemma ReleaseKeepsRow(b: Books, id: nat, i: nat)
    requires i < |Release(b, id).invoices|
    ensures RowKept(b, Release(b, id), i)
  {
  }

  lemma RowAfter(b: Books, op: Operation, i: nat)
    requires i < |Apply(b, op).invoices| && !op.ConfirmPayment? && !op.CollectInstallment?
    ensures RowKept(b, Apply(b, op), i)
    ensures Collected(Apply(b, op).ledger, i) == Collected(b.ledger, i)
  {
    OperationsCollectNothing(b, op, i);
    match op
    case CreateInvoice(a, items, due) => CreateKeepsRow(b, a, items, due, i);
    case EditInvoice(id, items, due, today) => EditKeepsRow(b, id, items, due, today, i);
    case CancelInvoice(id) => CancelKeepsRow(b, id, i);
    case ReleaseFromPlan(id) => ReleaseKeepsRow(b, id, i);
    case _ =>
  }

  lemma RowTolerates(b: Books, op: Operation, i: nat)
    requires BooksRight(b) && WithinTolerance(b) && i < |Apply(b, op).invoices|
    requires !op.ConfirmPayment? && !op.CollectInstallment?
    ensures Apply(b, op).invoices[i].status == Paid ==> Shortfall(Apply(b, op), i) <= NAIRA
  {
    RowAfter(b, op, i);
    if i < |b.invoices| { assert InvoiceRight(b, i); }
  }

  /** Row `i` has collected nothing before it was paid, and no more than its total then. */
  predicate NoPart(b: Books, i: nat)
    requires i < |b.invoices|
  {
    if b.invoices[i].status == Paid then Shortfall(b, i) >= 0 else Collected(b.ledger, i) == 0
  }

  lemma KeptRowHasNoPart(b: Books, later: Books, i: nat)
    requires i < |later.invoices| && RowKept(b, later, i) && Collected(later.ledger, i) == Collected(b.ledger, i)
    requires if i < |b.invoices| then InvoiceRight(b, i) && NoPart(b, i) else Collected(b.ledger, i) == 0
    ensures NoPart(later, i)
  {
  }

  lemma {:induction false} RowHasNoPartPayment(b: Books, op: Operation, i: nat)
    requires BooksRight(b) && NoPartPayments(b) && i < |Apply(b, op).invoices|
    requires !op.ConfirmPayment? && !op.CollectInstallment?
    requires |Apply(b, op).invoices| > |b.invoices| ==> Collected(b.ledger, |b.invoices|) == 0
    ensures NoPart(Apply(b, op), i)
  {
    RowAfter(b, op, i);
    if i < |b.invoices| {
      assert InvoiceRight(b, i);
      assert NoPart(b, i);
    } else {
      OneRowAtMost(b, op);
    }
    KeptRowHasNoPart(b, Apply(b, op), i);
  }

  lemma OneRowAtMost(b: Books, op: Operation)
    ensures |b.invoices| <= |Apply(b, op).invoices| <= |b.invoices| + 1
  {
  }

  predicate PlanFree(ops: seq<Operation>) {
    forall k :: 0 <= k < |ops| ==> !ops[k].CollectInstallment?
  }

  lemma {:induction false} ToleranceOverRuns(ops: seq<Operation>)
    ensures BooksRight(RunOperations(ops)) && WithinTolerance(RunOperations(ops))
    ensures PlanFree(ops) ==> NoPartPayments(RunOperations(ops))
  {
    if ops == [] {
      forall a: Account ensures AccountRight(EMPTY_BOOKS, a) {}
    } else {
      var n := |ops| - 1;
      ToleranceOverRuns(ops[..n]);
      ApplyKeeps(RunOperations(ops[..n]), ops[n]);
      ApplyTolerates(RunOperations(ops[..n]), ops[n]);
    }
  }

  lemma {:induction false} DriftBounds(invoices: seq<Invoice>, ledger: seq<Entry>, a: Account)
    requires forall i ::
      0 <= i < |invoices| && invoices[i].status == Paid ==> invoices[i].total - Collected(ledger, i) <= NAIRA
    requires forall i :: 0 <= i < |invoices| ==> Collected(ledger, i) >= 0
    ensures Drift(invoices, ledger, a) <= NAIRA * PaidCount(invoices, a)
    ensures (forall i :: 0 <= i < |invoices| ==>
        if invoices[i].status == Paid then invoices[i].total >= Collected(ledger, i) else Collected(ledger, i) == 0)
      ==> Drift(invoices, ledger, a) >= 0
  {
    if invoices != [] {
      var n := |invoices| - 1;
      DriftBounds(invoices[..n], ledger, a);
    }
  }

  /**
   * With undisturbed confirmations a wallet never falls below what is
   * outstanding by more than one naira per paid invoice; without installments
   * it never rises above it either.
   */
  lemma ToleranceIsTheOnlyDrift(ops: seq<Operation>, a: Account)
    ensures var b := RunOperations(ops);
      && Balance(b, a) >= -Outstanding(b.invoices, a) - NAIRA * PaidCount(b.invoices, a)
      && (PlanFree(ops) ==> Balance(b, a) <= -Outstanding(b.invoices, a))
  {
    ToleranceOverRuns(ops);
    var b := RunOperations(ops);
    assert AccountRight(b, a);
    forall i | 0 <= i < |b.invoices|
      ensures b.invoices[i].status != Overdue
      ensures IsUnpaid(b.invoices[i]) ==> b.invoices[i].amountPaid == Collected(b.ledger, i)
      ensures Collected(b.ledger, i) >= 0
      ensures b.invoices[i].status == Paid ==> b.invoices[i].total - Collected(b.ledger, i) == Shortfall(b, i)
    {
      assert InvoiceRight(b, i);
      CollectedNonNegative(b.ledger, i);
    }
    DriftExplains(b.invoices, b.ledger, a);
    DriftBounds(b.invoices, b.ledger, a);
  }
}
