/**
 * Confirmations disturbed between their read and their commit: exactly which
 * runs keep each side of the wallet bound, and the edits that break them.
 */
module AdHocDisturbed {
  import opened Options
  import opened AdHocInvoices
  import opened AdHocLedger
  import opened AdHocProtocol
  import opened AdHocDrift

  // ---------------------------------------------------------------------
  // Falling short: the lower side
  // ---------------------------------------------------------------------

  /**
   * Exactly when a winning commit leaves its invoice within tolerance: when the
   * ticket's credit would still pass the amount guard on the row being claimed.
   */
  lemma CommitTolerates(b: Books, t: Ticket, receipt: string)
    requires BooksRight(b) && Claimable(b, t)
    ensures Shortfall(Commit(b, t, receipt), t.id) <= NAIRA
      <==> t.credit + NAIRA >= b.invoices[t.id].total - b.invoices[t.id].amountPaid
  {
    assert InvoiceRight(b, t.id);
    CommitRows(b, t, receipt);
    CommitCollects(b, t, receipt, t.id);
  }

  /** The ticket's credit would still pass the amount guard on the row it claims. */
  predicate StillPasses(b: Books, t: Ticket)
    requires t.id < |b.invoices|
  {
    t.credit + NAIRA >= b.invoices[t.id].total - b.invoices[t.id].amountPaid
  }

  predicate Wins(s: System, e: Event) {
    && e.CommitStep? && e.request in s.confirmations && s.confirmations[e.request].HasRechecked?
    && Claimable(s.books, s.confirmations[e.request].ticket)
  }

  /** Every winning commit of the run passed the guard on the row it claimed. */
  predicate GuardsHold(es: seq<Event>) {
    es == []
    || (var n := |es| - 1;
        var s := Run(START, es[..n]);
        GuardsHold(es[..n]) && (Wins(s, es[n]) ==> StillPasses(s.books, s.confirmations[es[n].request].ticket)))
  }

  ghost predicate TolerantThroughout(es: seq<Event>) {
    WithinTolerance(Run(START, es).books) && (es == [] || TolerantThroughout(es[..|es| - 1]))
  }

  lemma CommitToleratesAll(b: Books, t: Ticket, receipt: string)
    requires BooksRight(b) && WithinTolerance(b) && Claimable(b, t)
    ensures WithinTolerance(Commit(b, t, receipt)) <==> StillPasses(b, t)
  {
    var b' := Commit(b, t, receipt);
    CommitTolerates(b, t, receipt);
    CommitRows(b, t, receipt);
    forall i | 0 <= i < |b'.invoices| && i != t.id
      ensures b'.invoices[i] == b.invoices[i] && Shortfall(b', i) == Shortfall(b, i)
    {
      CommitCollects(b, t, receipt, i);
    }
    assert b'.invoices[t.id].status == Paid;
  }

  lemma StepToleratesIff(s: System, e: Event)
    requires ProtocolRight(s) && WithinTolerance(s.books)
    ensures WithinTolerance(Step(s, e).books)
      <==> (Wins(s, e) ==> StillPasses(s.books, s.confirmations[e.request].ticket))
  {
    match e
    case Atomic(op) => if !op.ConfirmPayment? { ApplyTolerates(s.books, op); }
    case CommitStep(r, receipt) =>
      if Wins(s, e) { CommitToleratesAll(s.books, s.confirmations[r].ticket, receipt); }
    case _ =>
  }

  /**
   * Over every interleaving: all paid invoices stay within one naira throughout
   * exactly if each winning commit still passed the amount guard on its row.
   */
  lemma {:induction false} TolerantIff(es: seq<Event>)
    ensures TolerantThroughout(es) <==> GuardsHold(es)
  {
    if es != [] {
      var n := |es| - 1;
      TolerantIff(es[..n]);
      if TolerantThroughout(es[..n]) {
        StartRight();
        ProtocolOverRuns(START, es[..n]);
        StepToleratesIff(Run(START, es[..n]), es[n]);
      }
    }
  }

  // ---------------------------------------------------------------------
  // Collecting too much: the upper side
  // ---------------------------------------------------------------------

  /** The ticket's credit is no more than the row it claims still asks for. */
  predicate StillOwed(b: Books, t: Ticket)
    requires t.id < |b.invoices|
  {
    t.credit <= b.invoices[t.id].total - b.invoices[t.id].amountPaid
  }

  /** No winning commit of the run credited more than its row still asked for. */
  predicate CapsHold(es: seq<Event>) {
    es == []
    || (var n := |es| - 1;
        var s := Run(START, es[..n]);
        CapsHold(es[..n]) && (Wins(s, es[n]) ==> StillOwed(s.books, s.confirmations[es[n].request].ticket)))
  }

  /** At no time had an invoice collected more than its total, or anything before it was paid. */
  ghost predicate NeverTooMuch(es: seq<Event>) {
    NoPartPayments(Run(START, es).books) && (es == [] || NeverTooMuch(es[..|es| - 1]))
  }

  lemma OperationsCollectNoPart(b: Books, op: Operation)
    requires BooksRight(b) && NoPartPayments(b) && !op.ConfirmPayment? && !op.CollectInstallment?
    ensures NoPartPayments(Apply(b, op))
  {
    var b' := Apply(b, op);
    NothingCollectedYet(b.ledger, |b.invoices|);
    forall i | 0 <= i < |b'.invoices|
      ensures b'.invoices[i].status == Paid ==> Shortfall(b', i) >= 0
      ensures b'.invoices[i].status != Paid ==> Collected(b'.ledger, i) == 0
    {
      RowHasNoPartPayment(b, op, i);
      assert NoPart(b', i);
    }
  }

  lemma CommitCollectsNoPartIff(b: Books, t: Ticket, receipt: string)
    requires BooksRight(b) && NoPartPayments(b) && Claimable(b, t)
    ensures NoPartPayments(Commit(b, t, receipt)) <==> StillOwed(b, t)
  {
    var b' := Commit(b, t, receipt);
    assert InvoiceRight(b, t.id);
    CommitRows(b, t, receipt);
    CommitCollects(b, t, receipt, t.id);
    forall i | 0 <= i < |b.invoices| && i != t.id
      ensures b'.invoices[i] == b.invoices[i] && Collected(b'.ledger, i) == Collected(b.ledger, i)
    {
      CommitCollects(b, t, receipt, i);
    }
  }

  lemma StepCollectsNoPartIff(s: System, e: Event)
    requires ProtocolRight(s) && NoPartPayments(s.books)
    requires !(e.Atomic? && e.op.CollectInstallment?)
    ensures NoPartPayments(Step(s, e).books)
      <==> (Wins(s, e) ==> StillOwed(s.books, s.confirmations[e.request].ticket))
  {
    match e
    case Atomic(op) => if !op.ConfirmPayment? { OperationsCollectNoPart(s.books, op); }
    case CommitStep(r, receipt) =>
      if Wins(s, e) { CommitCollectsNoPartIff(s.books, s.confirmations[r].ticket, receipt); }
    case _ =>
  }

  /**
   * Over every interleaving without installments: no invoice ever collects more
   * than its total exactly if each winning commit credits at most what its row
   * still asks for.
   */
  lemma {:induction false} NeverTooMuchIff(es: seq<Event>)
    requires NoInstallments(es)
    ensures NeverTooMuch(es) <==> CapsHold(es)
  {
    if es != [] {
      var n := |es| - 1;
      NeverTooMuchIff(es[..n]);
      if NeverTooMuch(es[..n]) {
        StartRight();
        ProtocolOverRuns(START, es[..n]);
        StepCollectsNoPartIff(Run(START, es[..n]), es[n]);
      }
    }
  }

  // ---------------------------------------------------------------------
  // Both sides
  // ---------------------------------------------------------------------

  /**
   * The wallet bound of the sequential runs, side by side, in an interleaving:
   * the lower side where the amount guards hold, the upper where the caps do.
   */
  lemma GuardedBalance(es: seq<Event>, a: Account)
    ensures var b := Run(START, es).books;
      && (GuardsHold(es) ==> Balance(b, a) >= -Outstanding(b.invoices, a) - NAIRA * PaidCount(b.invoices, a))
      && (NoInstallments(es) && CapsHold(es) ==> Balance(b, a) <= -Outstanding(b.invoices, a))
  {
    BooksOverRuns(es);
    BalanceIsOutstandingAndDrift(es, a);
    var b := Run(START, es).books;
    if GuardsHold(es) {
      TolerantIff(es);
      TolerantDrift(b, a);
    }
    if NoInstallments(es) && CapsHold(es) {
      NeverTooMuchIff(es);
      DriftIsNotNegative(b.invoices, b.ledger, a);
    }
  }

  lemma TolerantDrift(b: Books, a: Account)
    requires BooksRight(b) && WithinTolerance(b)
    ensures Drift(b.invoices, b.ledger, a) <= NAIRA * PaidCount(b.invoices, a)
  {
    forall i | 0 <= i < |b.invoices|
      ensures Collected(b.ledger, i) >= 0
      ensures b.invoices[i].status == Paid ==> b.invoices[i].total - Collected(b.ledger, i) == Shortfall(b, i)
    {
      CollectedNonNegative(b.ledger, i);
    }
    DriftBounds(b.invoices, b.ledger, a);
  }

  lemma {:induction false} DriftIsNotNegative(invoices: seq<Invoice>, ledger: seq<Entry>, a: Account)
    requires forall i :: 0 <= i < |invoices| ==>
      if invoices[i].status == Paid then invoices[i].total >= Collected(ledger, i) else Collected(ledger, i) == 0
    ensures Drift(invoices, ledger, a) >= 0
  {
    if invoices != [] { DriftIsNotNegative(invoices[..|invoices| - 1], ledger, a); }
  }

  // ---------------------------------------------------------------------
  // An edit between the read and the commit
  // ---------------------------------------------------------------------

  const BUYER := Account(0, 0)

  function Diesel(amount: int): seq<Item> { [Item("Diesel", amount)] }

  /** Created and paid for at `first`, edited to `second` before the commit. */
  function Midway(first: nat, second: int): seq<Event> {
    [Atomic(CreateInvoice(BUYER, Diesel(first), 30)), LoadStep(7, 0, Payment(first, "ref")), RecheckStep(7),
     Atomic(EditInvoice(0, Diesel(second), 30, 1)), CommitStep(7, "receipt")]
  }

  function Row(amount: int): Invoice {
    Invoice(BUYER, Snapshot(Diesel(amount)), amount, Pending, 0, 30, None, None, None)
  }

  function Created(first: int): Books {
    Books([Row(first)], map[BUYER := -first], [Entry(BUYER, ObCharge, -first, -first, 0, false)])
  }

  /** The ledger row an edit from `first` to `second` writes. */
  function Edited(first: int, second: int): Entry {
    if second > first then Entry(BUYER, ObCharge, first - second, -second, 0, false)
    else Entry(BUYER, ObPayment, first - second, -second, 0, true)
  }

  function Received(first: int, second: int): Entry { Entry(BUYER, ObPayment, first, first - second, 0, false) }

  lemma DieselSum(amount: int)
    ensures SumItems(Diesel(amount)) == amount
  {
    assert Diesel(amount)[..0] == [];
  }

  lemma AfterCreate(first: nat, second: int)
    requires first > 0
    ensures Run(START, Midway(first, second)[..1]) == System(Created(first), map[])
  {
    DieselSum(first);
    assert Midway(first, second)[..1][..0] == [];
    assert [] + [Row(first)] == [Row(first)];
  }

  lemma AfterRecheck(first: nat, second: int)
    requires first > 0
    ensures Run(START, Midway(first, second)[..3])
      == System(Created(first), map[7 := HasRechecked(Ticket(0, first, BUYER, first, "ref"))])
  {
    var es := Midway(first, second);
    AfterCreate(first, second);
    assert es[..2][..1] == es[..1] && es[..3][..2] == es[..2];
    assert Run(START, es[..2])
      == System(Created(first), map[7 := HasLoaded(Ticket(0, first, BUYER, first, "ref"))]);
  }

  lemma AfterEdit(first: nat, second: int)
    requires first > 0 && second > 0 && first != second
    ensures var s := Run(START, Midway(first, second)[..4]);
      && s.books.invoices == [Row(second)] && s.books.wallets == map[BUYER := -second]
      && s.books.ledger == Created(first).ledger + [Edited(first, second)]
      && s.confirmations == map[7 := HasRechecked(Ticket(0, first, BUYER, first, "ref"))]
  {
    AfterRecheck(first, second);
    DieselSum(second);
    assert Midway(first, second)[..4][..3] == Midway(first, second)[..3];
  }

  /** The invoice ends paid at `second` with `first` collected, and the wallet keeps the difference. */
  lemma AfterCommit(first: nat, second: int)
    requires first > 0 && second > 0 && first != second
    ensures var b := Run(START, Midway(first, second)).books;
      && |b.invoices| == 1 && b.invoices[0].status == Paid && b.invoices[0].account == BUYER
      && b.invoices[0].amountPaid == first && b.invoices[0].total == second
      && b.ledger == Created(first).ledger + [Edited(first, second)] + [Received(first, second)]
      && Balance(b, BUYER) == first - second
  {
    AfterEdit(first, second);
    assert Midway(first, second)[..4] == Midway(first, second)[..|Midway(first, second)| - 1];
  }

  lemma CollectedMidway(first: nat, second: int)
    requires first > 0 && second > 0 && first != second
    ensures Collected(Run(START, Midway(first, second)).books.ledger, 0) == first
  {
    AfterCommit(first, second);
    var charge := Created(first).ledger[0];
    AppendEntry([charge] + [Edited(first, second)], Received(first, second), BUYER, 0);
    AppendEntry([charge], Edited(first, second), BUYER, 0);
    AppendEntry([], charge, BUYER, 0);
    assert [] + [charge] == [charge];
  }

  /** Raised from one thousand naira to five: the invoice reads paid, four thousand naira short. */
  lemma EditMidwayEscapesTolerance()
    ensures var b := Run(START, Midway(100000, 500000)).books;
      && |b.invoices| == 1 && b.invoices[0].status == Paid
      && b.invoices[0].amountPaid == 100000 && b.invoices[0].total == 500000
      && Shortfall(b, 0) == 400000
  {
    AfterCommit(100000, 500000);
    CollectedMidway(100000, 500000);
  }

  lemma NoInstallmentsMidway(first: nat, second: int)
    ensures NoInstallments(Midway(first, second))
  {
  }

  lemma OutstandingOfOne(inv: Invoice, a: Account)
    requires inv.status == Paid
    ensures Outstanding([inv], a) == 0
  {
    assert [inv][..0] == [];
  }

  lemma GuardsHoldMidway(first: nat, second: int)
    requires 0 < second <= first && first != second
    ensures GuardsHold(Midway(first, second))
  {
    var es := Midway(first, second);
    AfterEdit(first, second);
    assert es[..|es| - 1] == es[..4];
    assert es[..4][..3] == es[..3] && es[..3][..2] == es[..2] && es[..2][..1] == es[..1] && es[..1][..0] == [];
    assert GuardsHold(es[..1]) && GuardsHold(es[..2]) && GuardsHold(es[..3]) && GuardsHold(es[..4]);
  }

  /**
   * Lowered from five thousand naira to one: every amount guard holds, there are
   * no installments, and the wallet ends four thousand naira above what is owed.
   */
  lemma EditDownOvershoots()
    ensures var es := Midway(500000, 100000);
      var b := Run(START, es).books;
      && NoInstallments(es) && GuardsHold(es) && |b.invoices| == 1
      && Balance(b, BUYER) == 400000 && Outstanding(b.invoices, BUYER) == 0 && Shortfall(b, 0) == -400000
  {
    AfterCommit(500000, 100000);
    CollectedMidway(500000, 100000);
    NoInstallmentsMidway(500000, 100000);
    GuardsHoldMidway(500000, 100000);
    var b := Run(START, Midway(500000, 100000)).books;
    OutstandingOfOne(b.invoices[0], BUYER);
    assert b.invoices == [b.invoices[0]];
  }
}
