/**
 * A landlord invoice from its creation on: line-item updates before the first
 * payment, cancellation, and payments split into amount paid, outstanding
 * balance and credit. Amounts are kobo.
 */
module PaymentSplit {
  import opened Options

  datatype Status = Pending | PartiallyPaid | Paid | Cancelled

  datatype Invoice = Invoice(
    items: seq<nat>,
    total: nat,
    paid: int,
    outstanding: int,
    credit: int,
    status: Status,
    payments: seq<int>)

  datatype Error = TotalNotPositive | PaymentsMade

  datatype Event = Update(items: Option<seq<nat>>) | Cancel | Pay(amount: int)

  function Sum(xs: seq<nat>): nat { if xs == [] then 0 else Sum(xs[..|xs| - 1]) + xs[|xs| - 1] }

  function SumPaid(xs: seq<int>): int { if xs == [] then 0 else SumPaid(xs[..|xs| - 1]) + xs[|xs| - 1] }

  function Positive(x: int): int { if x > 0 then x else 0 }

  function NewInvoice(items: seq<nat>): Result<Invoice, Error> {
    if Sum(items) <= 0 then Failure(TotalNotPositive)
    else Success(Invoice(items, Sum(items), 0, Sum(items), 0, Pending, []))
  }

  /** An invoice for an accepted offer letter, on which `prepaid` has been paid already. */
  function FromOfferLetter(items: seq<nat>, prepaid: nat): Invoice {
    var status := if prepaid > 0 then if prepaid >= Sum(items) then Paid else PartiallyPaid else Pending;
    Invoice(items, Sum(items), prepaid, Sum(items) - prepaid, 0, status, [])
  }

  function AfterUpdate(inv: Invoice, items: Option<seq<nat>>): (Invoice, Result<(), Error>) {
    if inv.payments != [] then (inv, Failure(PaymentsMade))
    else if items.None? then (inv, Success(()))
    else (inv.(items := items.value, total := Sum(items.value), outstanding := Sum(items.value)), Success(()))
  }

  function AfterCancel(inv: Invoice): (Invoice, Result<(), Error>) {
    if inv.payments != [] then (inv, Failure(PaymentsMade)) else (inv.(status := Cancelled), Success(()))
  }

  function AfterPayment(inv: Invoice, amount: int): Invoice {
    if inv.status.Paid? then inv
    else
      var paid := inv.paid + amount;
      var raw := inv.total - paid;
      var credit := if raw < 0 then inv.credit + -raw else inv.credit;
      var outstanding := if raw < 0 then 0 else raw;
      var status := if outstanding <= 0 then Paid else if paid > 0 then PartiallyPaid else inv.status;
      inv.(paid := paid, outstanding := outstanding, credit := credit, status := status,
           payments := inv.payments + [amount])
  }

  function Step(inv: Invoice, e: Event): Invoice {
    match e
    case Update(items) => AfterUpdate(inv, items).0
    case Cancel => AfterCancel(inv).0
    case Pay(amount) => AfterPayment(inv, amount)
  }

  function Run(inv: Invoice, es: seq<Event>): Invoice {
    if es == [] then inv else Step(Run(inv, es[..|es| - 1]), es[|es| - 1])
  }

  // ---------------------------------------------------------------------
  // Invoices that start with nothing paid
  // ---------------------------------------------------------------------

  /** The books: what was paid splits into what the total took and the credit. */
  ghost predicate Split(inv: Invoice) {
    && inv.total == Sum(inv.items)
    && inv.paid == SumPaid(inv.payments)
    && inv.outstanding == Positive(inv.total - inv.paid)
    && inv.credit == Positive(inv.paid - inv.total)
    && inv.paid + inv.outstanding == inv.total + inv.credit
  }

  ghost predicate StatusRight(inv: Invoice) {
    && (inv.status.Paid? <==> inv.outstanding == 0 && inv.payments != [])
    && ((forall k :: 0 <= k < |inv.payments| ==> inv.payments[k] > 0) ==>
          (inv.status.PartiallyPaid? <==> inv.payments != [] && inv.outstanding > 0))
  }

  /** Until the last payment, the payments never reach the total. */
  ghost predicate ClosedOnce(inv: Invoice) {
    forall k :: 0 < k < |inv.payments| ==> SumPaid(inv.payments[..k]) < inv.total
  }

  ghost predicate Right(inv: Invoice) { Split(inv) && StatusRight(inv) && ClosedOnce(inv) }

  lemma PaymentKeepsSplit(inv: Invoice, amount: int)
    requires Split(inv) && StatusRight(inv)
    ensures Split(AfterPayment(inv, amount))
  {
    assert (inv.payments + [amount])[..|inv.payments|] == inv.payments;
    if inv.payments == [] { assert SumPaid(inv.payments) == 0; }
  }

  lemma PaymentKeepsStatus(inv: Invoice, amount: int)
    requires Split(inv) && StatusRight(inv)
    ensures StatusRight(AfterPayment(inv, amount))
  {
    var after := AfterPayment(inv, amount);
    if !inv.status.Paid? && forall k :: 0 <= k < |after.payments| ==> after.payments[k] > 0 {
      assert forall k :: 0 <= k < |inv.payments| ==> inv.payments[k] == after.payments[k];
      assert after.payments[|inv.payments|] == amount;
      AllPositive(inv.payments);
    }
  }

  lemma {:induction false} AllPositive(xs: seq<int>)
    requires forall k :: 0 <= k < |xs| ==> xs[k] > 0
    ensures SumPaid(xs) >= 0
  {
    if xs != [] { AllPositive(xs[..|xs| - 1]); }
  }

  lemma PaymentKeepsClosing(inv: Invoice, amount: int)
    requires Right(inv)
    ensures ClosedOnce(AfterPayment(inv, amount))
  {
    var after := AfterPayment(inv, amount);
    forall k | 0 < k < |after.payments| ensures SumPaid(after.payments[..k]) < after.total {
      if after != inv {
        assert after.payments[..k] == inv.payments[..k];
        assert inv.payments[..|inv.payments|] == inv.payments;
      }
    }
  }

  /** Every invoice made by `create` keeps its books, whatever is updated, cancelled or paid. */
  lemma {:induction false} RightOverRuns(items: seq<nat>, es: seq<Event>)
    requires NewInvoice(items).Success?
    ensures Right(Run(NewInvoice(items).value, es))
  {
    if es != [] {
      RightOverRuns(items, es[..|es| - 1]);
      var inv := Run(NewInvoice(items).value, es[..|es| - 1]);
      match es[|es| - 1] {
        case Update(_) =>
        case Cancel =>
        case Pay(amount) =>
          PaymentKeepsSplit(inv, amount);
          PaymentKeepsStatus(inv, amount);
          PaymentKeepsClosing(inv, amount);
      }
    }
  }

  /** Credit comes from the closing payment alone, and is less than it unless there was nothing to pay. */
  lemma OnlyClosingPaymentSpills(items: seq<nat>, es: seq<Event>)
    requires NewInvoice(items).Success?
    requires Run(NewInvoice(items).value, es).credit > 0
    ensures var inv := Run(NewInvoice(items).value, es);
      && inv.status.Paid? && inv.payments != []
      && inv.credit <= inv.payments[|inv.payments| - 1]
      && (inv.credit < inv.payments[|inv.payments| - 1] <==> inv.total > 0 || |inv.payments| > 1)
      && forall k :: 0 < k < |inv.payments| ==> SumPaid(inv.payments[..k]) < inv.total
  {
    RightOverRuns(items, es);
    var inv := Run(NewInvoice(items).value, es);
    var n := |inv.payments|;
    assert n > 0;
    if n == 1 { assert SumPaid(inv.payments[..0]) == 0; }
    assert SumPaid(inv.payments) == SumPaid(inv.payments[..n - 1]) + inv.payments[n - 1];
  }

  /** Once paid, an invoice is closed to every further call. */
  lemma {:induction false} PaidIsFinal(items: seq<nat>, es: seq<Event>, more: seq<Event>)
    requires NewInvoice(items).Success? && Run(NewInvoice(items).value, es).status.Paid?
    ensures Run(NewInvoice(items).value, es + more) == Run(NewInvoice(items).value, es)
  {
    if more == [] {
      assert es + more == es;
    } else {
      PaidIsFinal(items, es, more[..|more| - 1]);
      assert (es + more)[..|es + more| - 1] == es + more[..|more| - 1];
      RightOverRuns(items, es);
    }
  }

  predicate HasCancel(es: seq<Event>) { exists k :: 0 <= k < |es| && es[k].Cancel? }

  predicate HasPayment(es: seq<Event>) { exists k :: 0 <= k < |es| && es[k].Pay? }

  lemma OneMoreEvent(es: seq<Event>)
    requires es != []
    ensures HasCancel(es) <==> HasCancel(es[..|es| - 1]) || es[|es| - 1].Cancel?
    ensures HasPayment(es) <==> HasPayment(es[..|es| - 1]) || es[|es| - 1].Pay?
  {
    var n := |es| - 1;
    assert forall k :: 0 <= k < n ==> es[..n][k] == es[k];
  }

  /** How an invoice with positive payments stands, by the calls so far. */
  predicate StandsAs(inv: Invoice, cancelled: bool, payment: bool) {
    && (inv.payments != [] <==> payment)
    && (inv.status.Cancelled? <==> cancelled && !payment)
    && (inv.status.Paid? ==> payment) && inv.paid >= 0 && (payment ==> inv.paid > 0)
  }

  lemma StandsAfter(inv: Invoice, cancelled: bool, payment: bool, e: Event)
    requires StandsAs(inv, cancelled, payment) && (e.Pay? ==> e.amount > 0)
    ensures StandsAs(Step(inv, e), cancelled || e.Cancel?, payment || e.Pay?)
  {
  }

  /**
   * With payments above zero, an invoice is cancelled in the end exactly if it
   * was cancelled at some point and no payment was ever recorded: cancelling is
   * refused after a payment, and a payment re-opens a cancelled invoice.
   */
  lemma {:induction false} CancelledIff(items: seq<nat>, es: seq<Event>)
    requires NewInvoice(items).Success?
    requires forall k :: 0 <= k < |es| && es[k].Pay? ==> es[k].amount > 0
    ensures StandsAs(Run(NewInvoice(items).value, es), HasCancel(es), HasPayment(es))
    ensures Run(NewInvoice(items).value, es).status == Cancelled <==>
      ((exists k :: 0 <= k < |es| && es[k].Cancel?) && forall k :: 0 <= k < |es| ==> !es[k].Pay?)
  {
    if es != [] {
      var n := |es| - 1;
      CancelledIff(items, es[..n]);
      StandsAfter(Run(NewInvoice(items).value, es[..n]), HasCancel(es[..n]), HasPayment(es[..n]), es[n]);
      OneMoreEvent(es);
    }
  }

  /** A refused call changes nothing; cancelling sets the status alone, an update the items and their sum. */
  lemma CallsBeforePayment(inv: Invoice, items: seq<nat>)
    ensures AfterCancel(inv)
      == if inv.payments == [] then (inv.(status := Cancelled), Success(())) else (inv, Failure(PaymentsMade))
    ensures var (updated, r) := AfterUpdate(inv, Some(items));
      if inv.payments == [] then
        && r == Success(()) && updated.items == items && updated.total == updated.outstanding == Sum(items)
        && updated.(items := inv.items, total := inv.total, outstanding := inv.outstanding) == inv
      else updated == inv && r == Failure(PaymentsMade)
  {
  }

  /** What one payment does to an invoice not yet paid: everything it adds up to, and what it leaves alone. */
  lemma PaymentMeans(inv: Invoice, amount: int)
    requires !inv.status.Paid?
    ensures var after := AfterPayment(inv, amount);
      && after.items == inv.items && after.total == inv.total
      && after.payments == inv.payments + [amount] && after.paid == inv.paid + amount
      && after.outstanding - (after.credit - inv.credit) == inv.total - after.paid
      && after.outstanding >= 0 && after.credit >= inv.credit && (after.outstanding == 0 || after.credit == inv.credit)
      && (after.status.Paid? <==> after.paid >= inv.total)
      && (after.paid < inv.total ==> after.status == if after.paid > 0 then PartiallyPaid else inv.status)
  {
  }

  // ---------------------------------------------------------------------
  // Invoices for offer letters
  // ---------------------------------------------------------------------

  /** How an offer-letter invoice starts: its status says whether nothing, a part or everything was prepaid. */
  lemma LetterStarts(items: seq<nat>, prepaid: nat)
    ensures var inv := FromOfferLetter(items, prepaid);
      && inv.items == items && inv.total == Sum(items) && inv.payments == []
      && inv.paid == prepaid && inv.outstanding + prepaid == inv.total && inv.credit == 0
      && (inv.status == Pending <==> prepaid == 0)
      && (inv.status == Paid <==> prepaid > 0 && prepaid >= Sum(items))
      && (inv.status == PartiallyPaid <==> 0 < prepaid < Sum(items))
  {
  }

  lemma {:induction false} SumAdds(xs: seq<nat>, ys: seq<nat>)
    ensures Sum(xs + ys) == Sum(xs) + Sum(ys)
    ensures |ys| == 1 ==> Sum(ys) == ys[0]
  {
    if ys == [] {
      assert xs + ys == xs;
    } else {
      SumAdds(xs, ys[..|ys| - 1]);
      assert (xs + ys)[..|xs + ys| - 1] == xs + ys[..|ys| - 1];
    }
  }

  predicate UpdatesItems(es: seq<Event>) { exists k :: 0 <= k < |es| && es[k].Update? && es[k].items.Some? }

  /** The identity, for an invoice with `prepaid` already on it, and how far it can be off. */
  ghost predicate Tracked(inv: Invoice, prepaid: nat, stale: bool) {
    && inv.total == Sum(inv.items)
    && inv.paid == prepaid + SumPaid(inv.payments)
    && (if inv.payments == [] && stale then inv.outstanding == inv.total && inv.credit == 0
        else inv.paid + inv.outstanding == inv.total + inv.credit)
    && (!inv.status.Paid? || inv.payments == [] ==> inv.credit == 0)
  }

  lemma {:induction false} TrackedOverRuns(items: seq<nat>, prepaid: nat, es: seq<Event>)
    ensures Tracked(Run(FromOfferLetter(items, prepaid), es), prepaid, UpdatesItems(es))
  {
    if es != [] {
      var n := |es| - 1;
      TrackedOverRuns(items, prepaid, es[..n]);
      var inv := Run(FromOfferLetter(items, prepaid), es[..n]);
      assert UpdatesItems(es) <==> UpdatesItems(es[..n]) || (es[n].Update? && es[n].items.Some?) by {
        if UpdatesItems(es[..n]) {
          var k :| 0 <= k < n && es[..n][k].Update? && es[..n][k].items.Some?;
          assert es[k] == es[..n][k];
        }
        if UpdatesItems(es) {
          var k :| 0 <= k < |es| && es[k].Update? && es[k].items.Some?;
          if k < n { assert es[..n][k] == es[k]; }
        }
      }
      TrackedStep(inv, prepaid, UpdatesItems(es[..n]), es[n]);
    }
  }

  lemma TrackedStep(inv: Invoice, prepaid: nat, stale: bool, e: Event)
    requires Tracked(inv, prepaid, stale)
    ensures Tracked(Step(inv, e), prepaid, stale || (e.Update? && e.items.Some?))
  {
    if e.Pay? {
      assert (inv.payments + [e.amount])[..|inv.payments|] == inv.payments;
    }
  }

  /**
   * The split identity holds of an offer-letter invoice, after any run, exactly
   * if nothing was prepaid, no update replaced the items, or a payment was
   * recorded since: an update forgets the amount already paid.
   */
  lemma LetterSplitIff(items: seq<nat>, prepaid: nat, es: seq<Event>)
    ensures var inv := Run(FromOfferLetter(items, prepaid), es);
      inv.paid + inv.outstanding == inv.total + inv.credit
      <==> prepaid == 0 || !UpdatesItems(es) || inv.payments != []
  {
    TrackedOverRuns(items, prepaid, es);
    var inv := Run(FromOfferLetter(items, prepaid), es);
    if inv.payments == [] { assert SumPaid(inv.payments) == 0; }
  }

  /** Outstanding and credit are the two sides of total minus paid. */
  predicate SplitsRight(inv: Invoice) {
    inv.outstanding == Positive(inv.total - inv.paid) && inv.credit == Positive(inv.paid - inv.total)
  }

  /** An offer-letter invoice, as far as the split itself goes. */
  ghost predicate SplitTracked(inv: Invoice, items: seq<nat>, prepaid: nat, stale: bool) {
    if inv.payments != [] then SplitsRight(inv) && (!inv.status.Paid? ==> inv.paid < inv.total && inv.credit == 0)
    else
      && inv.paid == prepaid && inv.credit == 0
      && inv.outstanding == (if stale then inv.total else inv.total - prepaid)
      && (!stale ==> inv.total == Sum(items))
  }

  lemma SplitTrackedStep(inv: Invoice, items: seq<nat>, prepaid: nat, stale: bool, e: Event)
    requires SplitTracked(inv, items, prepaid, stale)
    ensures SplitTracked(Step(inv, e), items, prepaid, stale || (e.Update? && e.items.Some?))
  {
  }

  lemma UpdatesOfMore(es: seq<Event>, e: Event)
    ensures UpdatesItems(es + [e]) <==> UpdatesItems(es) || (e.Update? && e.items.Some?)
  {
    var all := es + [e];
    assert all[|es|] == e;
    if UpdatesItems(es) {
      var k :| 0 <= k < |es| && es[k].Update? && es[k].items.Some?;
      assert all[k] == es[k];
    }
  }

  lemma {:induction false} SplitTrackedOverRuns(items: seq<nat>, prepaid: nat, es: seq<Event>)
    ensures SplitTracked(Run(FromOfferLetter(items, prepaid), es), items, prepaid, UpdatesItems(es))
  {
    if es != [] {
      var n := |es| - 1;
      SplitTrackedOverRuns(items, prepaid, es[..n]);
      SplitTrackedStep(Run(FromOfferLetter(items, prepaid), es[..n]), items, prepaid, UpdatesItems(es[..n]), es[n]);
      UpdatesOfMore(es[..n], es[n]);
      assert es == es[..n] + [es[n]];
    }
  }

  /**
   * The split itself holds of an offer-letter invoice, after any run, exactly if
   * a payment was recorded, or nothing was prepaid, or the items are still the
   * letter's and no more was prepaid than they ask.
   */
  lemma LetterSplitsIff(items: seq<nat>, prepaid: nat, es: seq<Event>)
    ensures var inv := Run(FromOfferLetter(items, prepaid), es);
      SplitsRight(inv)
      <==> inv.payments != [] || prepaid == 0 || (!UpdatesItems(es) && prepaid <= Sum(items))
  {
    SplitTrackedOverRuns(items, prepaid, es);
  }

  /** A hundred and fifty prepaid on a hundred: fifty outstanding below zero, and no credit. */
  lemma OverpaidLetterHasNoCredit()
    ensures var inv := FromOfferLetter([10000], 15000);
      inv.outstanding == -5000 && inv.credit == 0 && !SplitsRight(inv)
  {
    assert [10000][..0] == [];
    assert Sum([10000]) == 10000;
  }

  /** Forty of a hundred prepaid, and the items sent again: the whole hundred is outstanding. */
  lemma UpdateForgetsPrepaid()
    ensures var inv := Step(FromOfferLetter([10000], 4000), Update(Some([10000])));
      inv.paid == 4000 && inv.outstanding == 10000 && inv.total == 10000 && inv.credit == 0
  {
    assert [10000][..0] == [];
    assert Sum([10000]) == 10000;
  }

  /** A letter paid in full and then repriced owes the new total, and no payment is ever taken for it. */
  lemma {:induction false} RepricedLetterStaysOwing(items: seq<nat>, prepaid: nat, repriced: seq<nat>,
                                                    amounts: seq<int>)
    requires prepaid > 0 && prepaid >= Sum(items)
    ensures var inv := Step(FromOfferLetter(items, prepaid), Update(Some(repriced)));
      inv.status.Paid? && inv.outstanding == Sum(repriced)
        && Run(inv, seq(|amounts|, i requires 0 <= i < |amounts| => Pay(amounts[i]))) == inv
  {
    if amounts != [] {
      var n := |amounts| - 1;
      RepricedLetterStaysOwing(items, prepaid, repriced, amounts[..n]);
      var es := seq(|amounts|, i requires 0 <= i < |amounts| => Pay(amounts[i]));
      assert es[..n] == seq(n, i requires 0 <= i < n => Pay(amounts[..n][i]));
    }
  }

  // ---------------------------------------------------------------------
  // The service
  // ---------------------------------------------------------------------

  method Total(items: seq<nat>) returns (total: nat)
    ensures total == Sum(items)
  {
    total := 0;
    for i := 0 to |items|
      invariant total == Sum(items[..i])
    {
      assert items[..i + 1][..i] == items[..i];
      total := total + items[i];
    }
    assert items[..|items|] == items;
  }

  class InvoiceRow {
    var row: Invoice

    constructor (inv: Invoice)
      ensures row == inv
    {
      row := inv;
    }

    method Update(items: Option<seq<nat>>) returns (r: Result<(), Error>)
      modifies this
      ensures (row, r) == AfterUpdate(old(row), items)
    {
      if row.payments != [] { return Failure(PaymentsMade); }
      if items.Some? {
        var total := Total(items.value);
        row := row.(items := items.value, total := total, outstanding := total);
      }
      r := Success(());
    }

    method Cancel() returns (r: Result<(), Error>)
      modifies this
      ensures (row, r) == AfterCancel(old(row))
    {
      if row.payments != [] { return Failure(PaymentsMade); }
      row := row.(status := Cancelled);
      r := Success(());
    }

    method RecordPayment(amount: int)
      modifies this
      ensures row == AfterPayment(old(row), amount)
    {
      if row.status == Paid { return; }
      var newAmountPaid := row.paid + amount;
      var raw := row.total - newAmountPaid;
      var newCredit := row.credit;
      var newOutstanding := 0;
      if raw < 0 { newCredit := newCredit + -raw; } else { newOutstanding := raw; }
      var newStatus := row.status;
      if newOutstanding <= 0 { newStatus := Paid; } else if newAmountPaid > 0 { newStatus := PartiallyPaid; }
      row := row.(paid := newAmountPaid, outstanding := newOutstanding, credit := newCredit, status := newStatus,
                  payments := row.payments + [amount]);
    }
  }

  method CreateInvoice(items: seq<nat>) returns (r: Result<Invoice, Error>)
    ensures r == NewInvoice(items)
  {
    var total := Total(items);
    if total <= 0 { return Failure(TotalNotPositive); }
    r := Success(Invoice(items, total, 0, total, 0, Pending, []));
  }
}
