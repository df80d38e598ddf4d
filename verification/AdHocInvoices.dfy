/**
 * Ad-hoc invoices and the tenant wallet they debit and credit.
 *
 * Amounts are integer kobo (one naira is 100 kobo); days are integer day
 * indices. An invoice's id is its position in `invoices`, and rows are never
 * deleted. Every operation is a function on `Books`, the three tables it
 * touches in one transaction.
 */
module AdHocInvoices {
  import opened Options

  const NAIRA := 100

  /** A wallet belongs to one (tenant, landlord) pair. */
  datatype Account = Account(tenant: nat, landlord: nat)

  /** `Overdue` is only ever computed for display; see `ComputeStatus`. */
  datatype Status = Pending | Partial | Paid | Overdue | Cancelled

  datatype Item = Item(description: string, amount: int)

  datatype LineItem = LineItem(description: string, amount: int, sequence: nat)

  datatype Invoice = Invoice(
    account: Account,
    lines: seq<LineItem>,
    total: int,
    status: Status,
    amountPaid: int,
    dueDate: int,
    coveredByPlan: Option<nat>,
    paymentReference: Option<string>,
    receiptToken: Option<string>)

  datatype EntryKind = ObCharge | ObPayment

  /** One wallet-ledger row; `reversal` marks a charge taken back. */
  datatype Entry = Entry(
    account: Account,
    kind: EntryKind,
    change: int,
    balanceAfter: int,
    invoice: nat,
    reversal: bool)

  datatype Books = Books(
    invoices: seq<Invoice>,
    wallets: map<Account, int>,
    ledger: seq<Entry>)

  const EMPTY_BOOKS := Books([], map[], [])

  datatype Refusal =
    | InvoiceNotFound
    | NoLineItems
    | NonPositiveTotal
    | AlreadyPaid
    | AlreadyCancelled
    | OwnedByPlan

  // ---------------------------------------------------------------------
  // Wallet
  // ---------------------------------------------------------------------

  function Balance(b: Books, a: Account): int {
    if a in b.wallets then b.wallets[a] else 0
  }

  /** Moves the wallet and appends the ledger row; a zero change only makes sure the wallet exists. */
  function ApplyChange(b: Books, a: Account, amount: int, kind: EntryKind, invoice: nat, reversal: bool): Books {
    var after := Balance(b, a) + amount;
    if amount == 0 then
      b.(wallets := b.wallets[a := after])
    else
      b.(wallets := b.wallets[a := after],
         ledger := b.ledger + [Entry(a, kind, amount, after, invoice, reversal)])
  }

  // ---------------------------------------------------------------------
  // Landlord operations
  // ---------------------------------------------------------------------

  function SumItems(items: seq<Item>): int {
    if items == [] then 0 else SumItems(items[..|items| - 1]) + items[|items| - 1].amount
  }

  function SumLines(lines: seq<LineItem>): int {
    if lines == [] then 0 else SumLines(lines[..|lines| - 1]) + lines[|lines| - 1].amount
  }

  function Snapshot(items: seq<Item>): seq<LineItem> {
    seq(|items|, i requires 0 <= i < |items| => LineItem(items[i].description, items[i].amount, i + 1))
  }

  /** The status shown to users: a stored `Pending` past its due date reads `Overdue`. */
  function ComputeStatus(inv: Invoice, today: int): Status {
    if inv.status != Pending then inv.status
    else if inv.coveredByPlan.Some? then Pending
    else if inv.dueDate < today then Overdue
    else Pending
  }

  function Create(b: Books, a: Account, items: seq<Item>, due: int): Result<Books, Refusal> {
    var total := SumItems(items);
    if |items| < 1 then Failure(NoLineItems)
    else if total <= 0 then Failure(NonPositiveTotal)
    else
      var row := Invoice(a, Snapshot(items), total, Pending, 0, due, None, None, None);
      Success(ApplyChange(b.(invoices := b.invoices + [row]), a, -total, ObCharge, |b.invoices|, false))
  }

  function Edit(b: Books, id: nat, items: seq<Item>, due: int, today: int): Result<Books, Refusal> {
    if id >= |b.invoices| then Failure(InvoiceNotFound)
    else
      var inv := b.invoices[id];
      var newTotal := SumItems(items);
      if ComputeStatus(inv, today) == Paid then Failure(AlreadyPaid)
      else if ComputeStatus(inv, today) == Cancelled then Failure(AlreadyCancelled)
      else if inv.coveredByPlan.Some? then Failure(OwnedByPlan)
      else if |items| < 1 then Failure(NoLineItems)
      else if newTotal <= 0 then Failure(NonPositiveTotal)
      else
        var delta := newTotal - inv.total;
        var edited := b.(invoices := b.invoices[id := inv.(lines := Snapshot(items), total := newTotal,
                                                           dueDate := due)]);
        Success(
          if delta > 0 then ApplyChange(edited, inv.account, -delta, ObCharge, id, false)
          else if delta < 0 then ApplyChange(edited, inv.account, -delta, ObPayment, id, true)
          else edited)
  }

  function Cancel(b: Books, id: nat): Result<Books, Refusal> {
    if id >= |b.invoices| then Failure(InvoiceNotFound)
    else
      var inv := b.invoices[id];
      if inv.status == Paid then Failure(AlreadyPaid)
      else if inv.status == Cancelled then Failure(AlreadyCancelled)
      else if inv.coveredByPlan.Some? then Failure(OwnedByPlan)
      else
        Success(ApplyChange(b.(invoices := b.invoices[id := inv.(status := Cancelled)]),
                            inv.account, inv.total, ObPayment, id, true))
  }

  // ---------------------------------------------------------------------
  // Payment confirmation, one function per database step
  // ---------------------------------------------------------------------

  datatype Payment = Payment(amount: nat, reference: string)

  /** What a confirmation carries from its first read to its commit. */
  datatype Ticket = Ticket(id: nat, total: int, account: Account, credit: int, reference: string)

  datatype Loaded =
    | Proceed(ticket: Ticket)
    | UnknownInvoice
    | PaidOnCovered
    | SameChargeAgain
    | DuplicatePayment
    | PaidOnCancelled
    | AmountMismatch

  function Remaining(inv: Invoice): int {
    if inv.total - inv.amountPaid > 0 then inv.total - inv.amountPaid else 0
  }

  function Min(x: int, y: int): int { if x < y then x else y }

  /** Reads the row once and applies the guards; only `Proceed` goes on. */
  function Load(b: Books, id: nat, p: Payment): Loaded {
    if id >= |b.invoices| then UnknownInvoice
    else
      var inv := b.invoices[id];
      if inv.coveredByPlan.Some? then PaidOnCovered
      else if inv.status == Paid then
        if inv.paymentReference == Some(p.reference) then SameChargeAgain else DuplicatePayment
      else if inv.status == Cancelled then PaidOnCancelled
      else if p.amount + NAIRA < Remaining(inv) then AmountMismatch
      else Proceed(Ticket(id, inv.total, inv.account, Min(p.amount, Remaining(inv)), p.reference))
  }

  /** The status re-read before the transaction. */
  predicate Recheck(b: Books, t: Ticket) {
    t.id < |b.invoices| && b.invoices[t.id].status != Paid
  }

  /** The guard of the compare-and-swap. */
  predicate Claimable(b: Books, t: Ticket) {
    t.id < |b.invoices| && (b.invoices[t.id].status == Pending || b.invoices[t.id].status == Partial)
  }

  /** The compare-and-swap transaction: flip the row and credit the wallet, or do nothing. */
  function Commit(b: Books, t: Ticket, receipt: string): Books {
    if !Claimable(b, t) then b
    else
      var paid := b.invoices[t.id].(status := Paid, amountPaid := t.total,
                                    paymentReference := Some(t.reference), receiptToken := Some(receipt));
      ApplyChange(b.(invoices := b.invoices[t.id := paid]), t.account, t.credit, ObPayment, t.id, false)
  }

  /** A confirmation that nothing interleaves with. */
  function Confirm(b: Books, id: nat, p: Payment, receipt: string): Books {
    var l := Load(b, id, p);
    if l.Proceed? && Recheck(b, l.ticket) then Commit(b, l.ticket, receipt) else b
  }

  // ---------------------------------------------------------------------
  // What a single-invoice payment plan does to the invoice
  // ---------------------------------------------------------------------

  function Cover(b: Books, id: nat, plan: nat): Books {
    if id >= |b.invoices| then b
    else
      var inv := b.invoices[id];
      if inv.status == Paid || inv.status == Cancelled || inv.coveredByPlan.Some?
         || inv.total - inv.amountPaid <= 0
      then b
      else b.(invoices := b.invoices[id := inv.(coveredByPlan := Some(plan))])
  }

  /** The row an installment of `amount` leaves: settled once at most one naira is left. */
  function CollectedRow(inv: Invoice, amount: nat): Invoice {
    var applied := Min(amount, Remaining(inv));
    if inv.status == Paid || inv.status == Cancelled then inv
    else if Remaining(inv) - applied <= NAIRA then
      inv.(status := Paid, amountPaid := inv.total, coveredByPlan := None)
    else inv.(status := Partial, amountPaid := inv.amountPaid + applied)
  }

  /**
   * An installment payment credits the wallet in full. What the invoice does not
   * need, and anything paid for one already settled, stays there as credit.
   */
  function Collect(b: Books, id: nat, amount: nat): Books {
    if id >= |b.invoices| then b
    else
      var inv := b.invoices[id];
      if inv.status != Paid && inv.status != Cancelled && inv.coveredByPlan.None? then b
      else
        ApplyChange(b.(invoices := b.invoices[id := CollectedRow(inv, amount)]), inv.account, amount, ObPayment, id,
                    false)
  }

  /** Cancelling the plan re-opens the invoice for what is still owed. */
  function Release(b: Books, id: nat): Books {
    if id >= |b.invoices| then b
    else
      var inv := b.invoices[id];
      if inv.coveredByPlan.None? then b
      else if inv.status == Paid || inv.status == Cancelled then
        b.(invoices := b.invoices[id := inv.(coveredByPlan := None)])
      else
        var status := if inv.amountPaid >= inv.total - NAIRA then Paid
                      else if inv.amountPaid > NAIRA / 2 then Partial else Pending;
        b.(invoices := b.invoices[id := inv.(coveredByPlan := None, status := status)])
  }

  // ---------------------------------------------------------------------
  // Runs
  // ---------------------------------------------------------------------

  datatype Operation =
    | CreateInvoice(account: Account, items: seq<Item>, due: int)
    | EditInvoice(id: nat, items: seq<Item>, due: int, today: int)
    | CancelInvoice(id: nat)
    | ConfirmPayment(id: nat, payment: Payment, receipt: string)
    | CoverByPlan(id: nat, plan: nat)
    | CollectInstallment(id: nat, amount: nat)
    | ReleaseFromPlan(id: nat)

  function OrElse(r: Result<Books, Refusal>, b: Books): Books {
    if r.Success? then r.value else b
  }

  /** A refused operation changes nothing. */
  function Apply(b: Books, op: Operation): Books {
    match op
    case CreateInvoice(a, items, due) => OrElse(Create(b, a, items, due), b)
    case EditInvoice(id, items, due, today) => OrElse(Edit(b, id, items, due, today), b)
    case CancelInvoice(id) => OrElse(Cancel(b, id), b)
    case ConfirmPayment(id, p, receipt) => Confirm(b, id, p, receipt)
    case CoverByPlan(id, plan) => Cover(b, id, plan)
    case CollectInstallment(id, amount) => Collect(b, id, amount)
    case ReleaseFromPlan(id) => Release(b, id)
  }

  function RunOperations(ops: seq<Operation>): Books {
    if ops == [] then EMPTY_BOOKS else Apply(RunOperations(ops[..|ops| - 1]), ops[|ops| - 1])
  }

  /** Where one confirmation is; the number keying it is its request. */
  datatype Phase =
    | HasLoaded(ticket: Ticket)
    | HasRechecked(ticket: Ticket)
    | Won(ticket: Ticket, receipt: string)
    | Lost(ticket: Ticket)
    | TurnedAway

  datatype System = System(books: Books, confirmations: map<nat, Phase>)

  const START := System(EMPTY_BOOKS, map[])

  /** Operations are atomic; confirmations come only as their three steps, which interleave with everything. */
  datatype Event =
    | Atomic(op: Operation)
    | LoadStep(request: nat, id: nat, payment: Payment)
    | RecheckStep(request: nat)
    | CommitStep(request: nat, receipt: string)

  function Step(s: System, e: Event): System {
    match e
    case Atomic(op) =>
      if op.ConfirmPayment? then s else s.(books := Apply(s.books, op))
    case LoadStep(r, id, p) =>
      if r in s.confirmations then s
      else
        var l := Load(s.books, id, p);
        s.(confirmations := s.confirmations[r := if l.Proceed? then HasLoaded(l.ticket) else TurnedAway])
    case RecheckStep(r) =>
      if r !in s.confirmations || !s.confirmations[r].HasLoaded? then s
      else
        var t := s.confirmations[r].ticket;
        s.(confirmations := s.confirmations[r := if Recheck(s.books, t) then HasRechecked(t) else Lost(t)])
    case CommitStep(r, receipt) =>
      if r !in s.confirmations || !s.confirmations[r].HasRechecked? then s
      else
        var t := s.confirmations[r].ticket;
        System(Commit(s.books, t, receipt),
               s.confirmations[r := if Claimable(s.books, t) then Won(t, receipt) else Lost(t)])
  }

  function Run(s: System, es: seq<Event>): System {
    if es == [] then s else Step(Run(s, es[..|es| - 1]), es[|es| - 1])
  }
}
