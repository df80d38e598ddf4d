/**
 * The payment-confirmation protocol: any number of confirmations, each taking
 * its read, re-read and compare-and-swap whenever it likes, interleaved with
 * each other and with every landlord and plan operation.
 */
module AdHocProtocol {
  import opened Options
  import opened AdHocInvoices
  import opened AdHocLedger

  predicate HasTicket(p: Phase) { !p.TurnedAway? }

  /** A ticket names an existing row of the same account and never takes money out. */
  ghost predicate TicketRight(b: Books, t: Ticket) {
    && t.id < |b.invoices|
    && b.invoices[t.id].account == t.account
    && t.credit >= 0
  }

  ghost predicate IsWinner(s: System, r: nat, id: nat) {
    r in s.confirmations && s.confirmations[r].Won? && s.confirmations[r].ticket.id == id
  }

  /** What the row of a winner says: paid, by that winner's charge, with that winner's receipt. */
  ghost predicate RowIsWinners(inv: Invoice, p: Phase)
    requires p.Won?
  {
    inv.status == Paid && inv.paymentReference == Some(p.ticket.reference) && inv.receiptToken == Some(p.receipt)
  }

  ghost predicate PhaseRight(s: System, r: nat)
    requires r in s.confirmations
  {
    var p := s.confirmations[r];
    HasTicket(p) ==>
      && TicketRight(s.books, p.ticket)
      && (p.Won? ==> RowIsWinners(s.books.invoices[p.ticket.id], p))
      && (p.Lost? ==> s.books.invoices[p.ticket.id].status == Paid || s.books.invoices[p.ticket.id].status == Cancelled)
  }

  ghost predicate ProtocolRight(s: System) {
    && BooksRight(s.books)
    && (forall r :: r in s.confirmations ==> PhaseRight(s, r))
    && (forall id, r, q :: IsWinner(s, r, id) && IsWinner(s, q, id) ==> r == q)
    && (forall id | 0 <= id < |s.books.invoices| ::
          s.books.invoices[id].paymentReference.Some? ==> exists r :: IsWinner(s, r, id))
  }

  /** Equal but for the plan stamp, which closing a plan clears. */
  predicate SameSettlement(x: Invoice, y: Invoice) {
    x.(coveredByPlan := None) == y.(coveredByPlan := None)
  }

  /** No operation touches a paid row, re-opens a cancelled one, or changes whose row it is. */
  lemma ApplyRespects(b: Books, op: Operation, id: nat)
    requires id < |b.invoices|
    ensures var b' := Apply(b, op);
      && |b'.invoices| >= |b.invoices|
      && b'.invoices[id].account == b.invoices[id].account
      && (b.invoices[id].status == Paid ==> SameSettlement(b.invoices[id], b'.invoices[id]))
      && (b.invoices[id].status == Cancelled ==> b'.invoices[id].status == Cancelled)
      && (!op.ConfirmPayment? ==> b'.invoices[id].paymentReference == b.invoices[id].paymentReference)
  {
  }

  lemma NewRowsAreUnpaid(b: Books, op: Operation)
    requires !op.ConfirmPayment?
    ensures forall id ::
      |b.invoices| <= id < |Apply(b, op).invoices| ==> Apply(b, op).invoices[id].paymentReference.None?
  {
  }

  lemma AtomicKeeps(s: System, op: Operation)
    requires ProtocolRight(s) && !op.ConfirmPayment?
    ensures ProtocolRight(Step(s, Atomic(op)))
  {
    var s' := Step(s, Atomic(op));
    ApplyKeeps(s.books, op);
    NewRowsAreUnpaid(s.books, op);
    forall r | r in s'.confirmations ensures PhaseRight(s', r) {
      assert PhaseRight(s, r);
      if HasTicket(s.confirmations[r]) { ApplyRespects(s.books, op, s.confirmations[r].ticket.id); }
    }
    forall id | 0 <= id < |s'.books.invoices| && s'.books.invoices[id].paymentReference.Some?
      ensures exists r :: IsWinner(s', r, id)
    {
      ApplyRespects(s.books, op, id);
      var r :| IsWinner(s, r, id);
      assert IsWinner(s', r, id);
    }
    forall id, r, q | IsWinner(s', r, id) && IsWinner(s', q, id) ensures r == q {
      assert IsWinner(s, r, id) && IsWinner(s, q, id);
    }
  }

  /** Moving a request between phases other than `Won` keeps the protocol. */
  lemma MoveKeeps(s: System, r: nat, p: Phase)
    requires ProtocolRight(s) && !p.Won?
    requires r in s.confirmations ==> !s.confirmations[r].Won?
    requires PhaseRight(s.(confirmations := s.confirmations[r := p]), r)
    ensures ProtocolRight(s.(confirmations := s.confirmations[r := p]))
  {
    var s' := s.(confirmations := s.confirmations[r := p]);
    forall q | q in s'.confirmations ensures PhaseRight(s', q) {
      if q != r { assert PhaseRight(s, q); }
    }
    forall id | 0 <= id < |s'.books.invoices| && s'.books.invoices[id].paymentReference.Some?
      ensures exists q :: IsWinner(s', q, id)
    {
      var q :| IsWinner(s, q, id);
      assert IsWinner(s', q, id);
    }
    forall id, x, y | IsWinner(s', x, id) && IsWinner(s', y, id) ensures x == y {
      assert IsWinner(s, x, id) && IsWinner(s, y, id);
    }
  }

  /** The winning commit: nobody had won before, and everyone else's row is untouched. */
  lemma WinKeeps(s: System, r: nat, receipt: string)
    requires ProtocolRight(s)
    requires r in s.confirmations && s.confirmations[r].HasRechecked? && Claimable(s.books, s.confirmations[r].ticket)
    ensures ProtocolRight(Step(s, CommitStep(r, receipt)))
  {
    var t := s.confirmations[r].ticket;
    var s' := Step(s, CommitStep(r, receipt));
    assert PhaseRight(s, r);
    CommitKeeps(s.books, t, receipt);
    forall q | q in s'.confirmations ensures PhaseRight(s', q) {
      if q != r { assert PhaseRight(s, q); }
    }
    assert IsWinner(s', r, t.id);
    forall id | 0 <= id < |s'.books.invoices| && s'.books.invoices[id].paymentReference.Some?
      ensures exists q :: IsWinner(s', q, id)
    {
      if id != t.id {
        var q :| IsWinner(s, q, id);
        assert IsWinner(s', q, id);
      }
    }
    forall id, x, y | IsWinner(s', x, id) && IsWinner(s', y, id) ensures x == y {
      if x != r { assert IsWinner(s, x, id) && PhaseRight(s, x); }
      if y != r { assert IsWinner(s, y, id) && PhaseRight(s, y); }
    }
  }

  lemma StepKeeps(s: System, e: Event)
    requires ProtocolRight(s)
    ensures ProtocolRight(Step(s, e))
  {
    match e
    case Atomic(op) =>
      if !op.ConfirmPayment? { AtomicKeeps(s, op); }
    case LoadStep(r, id, p) =>
      if r !in s.confirmations {
        var l := Load(s.books, id, p);
        MoveKeeps(s, r, if l.Proceed? then HasLoaded(l.ticket) else TurnedAway);
      }
    case RecheckStep(r) =>
      if r in s.confirmations && s.confirmations[r].HasLoaded? {
        var t := s.confirmations[r].ticket;
        assert PhaseRight(s, r);
        MoveKeeps(s, r, if Recheck(s.books, t) then HasRechecked(t) else Lost(t));
      }
    case CommitStep(r, receipt) =>
      if r in s.confirmations && s.confirmations[r].HasRechecked? {
        var t := s.confirmations[r].ticket;
        assert PhaseRight(s, r);
        if Claimable(s.books, t) {
          WinKeeps(s, r, receipt);
        } else {
          assert InvoiceRight(s.books, t.id);
          MoveKeeps(s, r, Lost(t));
        }
      }
  }

  // ---------------------------------------------------------------------
  // Main results
  // ---------------------------------------------------------------------

  lemma {:induction false} ProtocolOverRuns(s: System, es: seq<Event>)
    requires ProtocolRight(s)
    ensures ProtocolRight(Run(s, es))
  {
    if es != [] {
      ProtocolOverRuns(s, es[..|es| - 1]);
      StepKeeps(Run(s, es[..|es| - 1]), es[|es| - 1]);
    }
  }

  lemma StartRight()
    ensures ProtocolRight(START)
  {
    forall a: Account ensures AccountRight(EMPTY_BOOKS, a) {}
  }

  /** In every interleaving the wallet is money in minus live invoices, row sums included. */
  lemma {:induction false} BooksOverRuns(es: seq<Event>)
    ensures BooksRight(Run(START, es).books)
  {
    StartRight();
    ProtocolOverRuns(START, es);
  }

  /**
   * In every interleaving: an invoice carries a payment reference exactly when
   * one confirmation won it, that winner is unique and its reference and
   * receipt are the stored ones; a confirmation that lost, lost to a paid or
   * cancelled row.
   */
  lemma ExactlyOneWinner(es: seq<Event>, id: nat)
    requires id < |Run(START, es).books.invoices|
    ensures var s := Run(START, es);
      var inv := s.books.invoices[id];
      && (inv.paymentReference.Some? <==> exists r :: IsWinner(s, r, id))
      && (forall r, q :: IsWinner(s, r, id) && IsWinner(s, q, id) ==> r == q)
      && (forall r :: IsWinner(s, r, id) ==> RowIsWinners(inv, s.confirmations[r]))
      && (forall r :: r in s.confirmations && s.confirmations[r].Lost? && s.confirmations[r].ticket.id == id
            ==> inv.status == Paid || inv.status == Cancelled)
  {
    StartRight();
    ProtocolOverRuns(START, es);
    var s := Run(START, es);
    forall r | r in s.confirmations ensures PhaseRight(s, r) {}
  }

  /** Once paid, a row keeps its total, reference and receipt through every later event. */
  lemma {:induction false} PaidIsFinal(s: System, es: seq<Event>, id: nat)
    requires id < |s.books.invoices| && s.books.invoices[id].status == Paid
    ensures id < |Run(s, es).books.invoices|
    ensures SameSettlement(s.books.invoices[id], Run(s, es).books.invoices[id])
  {
    if es != [] {
      PaidIsFinal(s, es[..|es| - 1], id);
      var mid := Run(s, es[..|es| - 1]);
      match es[|es| - 1]
      case Atomic(op) => ApplyRespects(mid.books, op, id);
      case _ =>
    }
  }

  /**
   * A confirmation's step moves the books only when it wins, and then by
   * exactly its credit, on its own row and its own wallet.
   */
  lemma OnlyTheWinnerPays(s: System, e: Event)
    requires ProtocolRight(s) && !e.Atomic?
    ensures var s' := Step(s, e);
      var won := s'.confirmations != s.confirmations && s'.confirmations[e.request].Won?;
      && (!won ==> s'.books == s.books)
      && (won ==>
            var t := s'.confirmations[e.request].ticket;
            && t.id < |s.books.invoices|
            && IsUnpaid(s.books.invoices[t.id])
            && Balance(s'.books, t.account) == Balance(s.books, t.account) + t.credit
            && (forall a :: a != t.account ==> Balance(s'.books, a) == Balance(s.books, a))
            && |s'.books.ledger| == |s.books.ledger| + (if t.credit == 0 then 0 else 1)
            && s.books.ledger <= s'.books.ledger
            && |s'.books.invoices| == |s.books.invoices|
            && (forall i :: 0 <= i < |s.books.invoices| && i != t.id ==> s'.books.invoices[i] == s.books.invoices[i]))
  {
  }

  // ---------------------------------------------------------------------
  // Without installments, what an invoice collected is its winner's credit
  // ---------------------------------------------------------------------

  predicate NoInstallments(es: seq<Event>) {
    forall k :: 0 <= k < |es| ==> !(es[k].Atomic? && es[k].op.CollectInstallment?)
  }

  ghost predicate CollectedIsTheWinners(s: System, id: nat) {
    && ((forall r :: !IsWinner(s, r, id)) ==> Collected(s.books.ledger, id) == 0)
    && (forall r :: IsWinner(s, r, id) ==> Collected(s.books.ledger, id) == s.confirmations[r].ticket.credit)
  }

  lemma CreateCollectsNothing(b: Books, a: Account, items: seq<Item>, due: int, i: nat)
    ensures Collected(Apply(b, CreateInvoice(a, items, due)).ledger, i) == Collected(b.ledger, i)
  {
    var row := Invoice(a, Snapshot(items), SumItems(items), Pending, 0, due, None, None, None);
    CollectedAfterChange(b.(invoices := b.invoices + [row]), a, -SumItems(items), ObCharge, |b.invoices|, false, i);
  }

  lemma EditCollectsNothing(b: Books, id: nat, items: seq<Item>, due: int, today: int, i: nat)
    ensures Collected(Apply(b, EditInvoice(id, items, due, today)).ledger, i) == Collected(b.ledger, i)
  {
    if id < |b.invoices| {
      var inv := b.invoices[id];
      var delta := SumItems(items) - inv.total;
      var row := inv.(lines := Snapshot(items), total := SumItems(items), dueDate := due);
      var edited := b.(invoices := b.invoices[id := row]);
      CollectedAfterChange(edited, inv.account, -delta, ObCharge, id, false, i);
      CollectedAfterChange(edited, inv.account, -delta, ObPayment, id, true, i);
    }
  }

  lemma CancelCollectsNothing(b: Books, id: nat, i: nat)
    ensures Collected(Apply(b, CancelInvoice(id)).ledger, i) == Collected(b.ledger, i)
  {
    if id < |b.invoices| {
      var inv := b.invoices[id];
      CollectedAfterChange(b.(invoices := b.invoices[id := inv.(status := Cancelled)]), inv.account, inv.total,
                           ObPayment, id, true, i);
    }
  }

  /** No landlord operation counts as money received. */
  lemma OperationsCollectNothing(b: Books, op: Operation, i: nat)
    requires !op.ConfirmPayment? && !op.CollectInstallment?
    ensures Collected(Apply(b, op).ledger, i) == Collected(b.ledger, i)
  {
    match op
    case CreateInvoice(a, items, due) => CreateCollectsNothing(b, a, items, due, i);
    case EditInvoice(id, items, due, today) => EditCollectsNothing(b, id, items, due, today, i);
    case CancelInvoice(id) => CancelCollectsNothing(b, id, i);
    case _ =>
  }

  lemma WinCollects(s: System, r: nat, receipt: string, id: nat)
    requires ProtocolRight(s) && CollectedIsTheWinners(s, id)
    requires r in s.confirmations && s.confirmations[r].HasRechecked? && Claimable(s.books, s.confirmations[r].ticket)
    ensures CollectedIsTheWinners(Step(s, CommitStep(r, receipt)), id)
  {
    var s' := Step(s, CommitStep(r, receipt));
    var t := s.confirmations[r].ticket;
    var paid := s.books.invoices[t.id].(status := Paid, amountPaid := t.total,
                                        paymentReference := Some(t.reference), receiptToken := Some(receipt));
    CollectedAfterChange(s.books.(invoices := s.books.invoices[t.id := paid]), t.account, t.credit, ObPayment, t.id,
                         false, id);
    forall q ensures !IsWinner(s, q, t.id) {
      if q in s.confirmations { assert PhaseRight(s, q); }
    }
    forall q | q != r ensures IsWinner(s', q, id) <==> IsWinner(s, q, id) {}
    assert IsWinner(s', r, t.id);
    if id == t.id {
      assert forall q :: !IsWinner(s, q, id);
      assert Collected(s.books.ledger, id) == 0;
    }
  }

  /** A step that wins nothing changes neither who won nor what was collected. */
  lemma OtherStepsCollectNothing(s: System, e: Event, id: nat)
    requires e.Atomic? ==> !e.op.CollectInstallment?
    requires !(e.CommitStep? && e.request in s.confirmations && s.confirmations[e.request].HasRechecked?
               && Claimable(s.books, s.confirmations[e.request].ticket))
    ensures Collected(Step(s, e).books.ledger, id) == Collected(s.books.ledger, id)
  {
    if e.Atomic? && !e.op.ConfirmPayment? { OperationsCollectNothing(s.books, e.op, id); }
  }

  lemma OtherStepsMakeNoWinner(s: System, e: Event, id: nat, q: nat)
    requires !(e.CommitStep? && e.request in s.confirmations && s.confirmations[e.request].HasRechecked?
               && Claimable(s.books, s.confirmations[e.request].ticket))
    ensures IsWinner(Step(s, e), q, id) <==> IsWinner(s, q, id)
    ensures IsWinner(s, q, id) ==> Step(s, e).confirmations[q] == s.confirmations[q]
  {
  }

  lemma {:induction false} StepKeepsCollected(s: System, e: Event, id: nat)
    requires ProtocolRight(s) && CollectedIsTheWinners(s, id)
    requires e.Atomic? ==> !e.op.CollectInstallment?
    ensures CollectedIsTheWinners(Step(s, e), id)
  {
    if e.CommitStep? && e.request in s.confirmations && s.confirmations[e.request].HasRechecked?
       && Claimable(s.books, s.confirmations[e.request].ticket) {
      WinCollects(s, e.request, e.receipt, id);
    } else {
      OtherStepsCollectNothing(s, e, id);
      var s' := Step(s, e);
      forall q
        ensures IsWinner(s', q, id) <==> IsWinner(s, q, id)
        ensures IsWinner(s, q, id) ==> s'.confirmations[q] == s.confirmations[q]
      {
        OtherStepsMakeNoWinner(s, e, id, q);
      }
    }
  }

  /** Over any interleaving without installments, exactly the unique winner's credit was received. */
  lemma {:induction false} PaidExactlyOnce(es: seq<Event>, id: nat)
    requires NoInstallments(es)
    ensures CollectedIsTheWinners(Run(START, es), id)
  {
    if es != [] {
      var n := |es| - 1;
      PaidExactlyOnce(es[..n], id);
      StartRight();
      ProtocolOverRuns(START, es[..n]);
      StepKeepsCollected(Run(START, es[..n]), es[n], id);
    }
  }
}
