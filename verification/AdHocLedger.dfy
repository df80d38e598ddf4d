/**
 * What every run of the ad-hoc invoice operations keeps, whatever interleaves:
 * the wallet is its ledger, and money in minus live invoices is the balance.
 */
module AdHocLedger {
  import opened Options
  import opened AdHocInvoices

  // ---------------------------------------------------------------------
  // Sums over the tables
  // ---------------------------------------------------------------------

  function LedgerSum(ledger: seq<Entry>, a: Account): int {
    if ledger == [] then 0
    else
      var e := ledger[|ledger| - 1];
      LedgerSum(ledger[..|ledger| - 1], a) + if e.account == a then e.change else 0
  }

  predicate IsPayment(e: Entry) { e.kind == ObPayment && !e.reversal }

  /** Money received into a wallet: payments, not reversed charges. */
  function PaymentsInto(ledger: seq<Entry>, a: Account): int {
    if ledger == [] then 0
    else
      var e := ledger[|ledger| - 1];
      PaymentsInto(ledger[..|ledger| - 1], a) + if IsPayment(e) && e.account == a then e.change else 0
  }

  /** Money received for one invoice. */
  function Collected(ledger: seq<Entry>, id: nat): int {
    if ledger == [] then 0
    else
      var e := ledger[|ledger| - 1];
      Collected(ledger[..|ledger| - 1], id) + if IsPayment(e) && e.invoice == id then e.change else 0
  }

  /** What an invoice holds against its account's wallet. */
  function Claim(inv: Invoice, a: Account): int {
    if inv.account == a && inv.status != Cancelled then inv.total else 0
  }

  function LiveTotals(invoices: seq<Invoice>, a: Account): int {
    if invoices == [] then 0
    else LiveTotals(invoices[..|invoices| - 1], a) + Claim(invoices[|invoices| - 1], a)
  }

  /** `PaymentsInto`, summed invoice by invoice. */
  function CollectedOver(invoices: seq<Invoice>, ledger: seq<Entry>, a: Account): int {
    if invoices == [] then 0
    else
      var n := |invoices| - 1;
      CollectedOver(invoices[..n], ledger, a) + if invoices[n].account == a then Collected(ledger, n) else 0
  }

  // ---------------------------------------------------------------------
  // Invariants
  // ---------------------------------------------------------------------

  predicate IsUnpaid(inv: Invoice) { inv.status == Pending || inv.status == Partial }

  /** The running total stored in every ledger row is the sum up to and including it. */
  ghost predicate SnapshotsRight(ledger: seq<Entry>) {
    forall k :: 0 <= k < |ledger| ==> ledger[k].balanceAfter == LedgerSum(ledger[..k + 1], ledger[k].account)
  }

  /** Charges only lower a balance, payments and reversals only raise it, and each row names its invoice's account. */
  ghost predicate EntriesRight(b: Books) {
    forall k :: 0 <= k < |b.ledger| ==>
      var e := b.ledger[k];
      && (e.kind == ObCharge ==> e.change < 0 && !e.reversal)
      && (e.kind == ObPayment ==> e.change > 0)
      && e.invoice < |b.invoices|
      && b.invoices[e.invoice].account == e.account
  }

  ghost predicate InvoiceRight(b: Books, id: nat)
    requires id < |b.invoices|
  {
    var inv := b.invoices[id];
    && inv.total == SumLines(inv.lines) > 0
    && (forall k :: 0 <= k < |inv.lines| ==> inv.lines[k].sequence == k + 1)
    && inv.status != Overdue
    && (IsUnpaid(inv) ==> inv.amountPaid == Collected(b.ledger, id))
  }

  ghost predicate AccountRight(b: Books, a: Account) {
    && Balance(b, a) == LedgerSum(b.ledger, a)
    && Balance(b, a) == PaymentsInto(b.ledger, a) - LiveTotals(b.invoices, a)
    && PaymentsInto(b.ledger, a) == CollectedOver(b.invoices, b.ledger, a)
  }

  ghost predicate BooksRight(b: Books) {
    && SnapshotsRight(b.ledger)
    && EntriesRight(b)
    && (forall id :: 0 <= id < |b.invoices| ==> InvoiceRight(b, id))
    && (forall a: Account :: AccountRight(b, a))
  }

  // ---------------------------------------------------------------------
  // How the sums move
  // ---------------------------------------------------------------------

  lemma AppendEntry(ledger: seq<Entry>, e: Entry, a: Account, id: nat)
    ensures LedgerSum(ledger + [e], a) == LedgerSum(ledger, a) + if e.account == a then e.change else 0
    ensures PaymentsInto(ledger + [e], a)
      == PaymentsInto(ledger, a) + if IsPayment(e) && e.account == a then e.change else 0
    ensures Collected(ledger + [e], id)
      == Collected(ledger, id) + if IsPayment(e) && e.invoice == id then e.change else 0
  {
    assert (ledger + [e])[..|ledger|] == ledger;
  }

  lemma {:induction false} UpdateInvoice(invoices: seq<Invoice>, id: nat, inv: Invoice, a: Account)
    requires id < |invoices|
    ensures LiveTotals(invoices[id := inv], a) == LiveTotals(invoices, a) - Claim(invoices[id], a) + Claim(inv, a)
  {
    var n := |invoices| - 1;
    if id == n {
      assert invoices[id := inv][..n] == invoices[..n];
    } else {
      UpdateInvoice(invoices[..n], id, inv, a);
      assert invoices[id := inv][..n] == invoices[..n][id := inv];
    }
  }

  lemma {:induction false} UpdateKeepsCollected(invoices: seq<Invoice>, ledger: seq<Entry>, id: nat, inv: Invoice,
                                                a: Account)
    requires id < |invoices| && inv.account == invoices[id].account
    ensures CollectedOver(invoices[id := inv], ledger, a) == CollectedOver(invoices, ledger, a)
  {
    var n := |invoices| - 1;
    if id == n {
      assert invoices[id := inv][..n] == invoices[..n];
    } else {
      UpdateKeepsCollected(invoices[..n], ledger, id, inv, a);
      assert invoices[id := inv][..n] == invoices[..n][id := inv];
    }
  }

  /** A payment row lands in exactly one invoice's share. */
  lemma {:induction false} AppendToShares(invoices: seq<Invoice>, ledger: seq<Entry>, e: Entry, a: Account)
    ensures CollectedOver(invoices, ledger + [e], a) == CollectedOver(invoices, ledger, a)
      + if IsPayment(e) && e.invoice < |invoices| && invoices[e.invoice].account == a then e.change else 0
  {
    if invoices != [] {
      var n := |invoices| - 1;
      AppendToShares(invoices[..n], ledger, e, a);
      AppendEntry(ledger, e, a, n);
    }
  }

  /** Nothing was collected for an invoice no row names. */
  lemma {:induction false} NothingCollectedYet(ledger: seq<Entry>, id: nat)
    requires forall k :: 0 <= k < |ledger| ==> ledger[k].invoice < id
    ensures Collected(ledger, id) == 0
  {
    if ledger != [] {
      var n := |ledger| - 1;
      assert ledger[n].invoice < id;
      NothingCollectedYet(ledger[..n], id);
    }
  }

  lemma {:induction false} SnapshotSum(items: seq<Item>)
    ensures SumLines(Snapshot(items)) == SumItems(items)
  {
    if items != [] {
      var n := |items| - 1;
      SnapshotSum(items[..n]);
      assert Snapshot(items)[..n] == Snapshot(items[..n]);
    }
  }

  // ---------------------------------------------------------------------
  // The two ways the books move: a new row, or a changed row
  // ---------------------------------------------------------------------

  /** A wallet change keeps everything but conservation, which it moves by its own amount. */
  lemma ApplyChangeMoves(b: Books, a: Account, amount: int, kind: EntryKind, id: nat, reversal: bool, other: Account)
    requires Balance(b, other) == LedgerSum(b.ledger, other)
    requires id < |b.invoices| && b.invoices[id].account == a
    ensures var b' := ApplyChange(b, a, amount, kind, id, reversal);
      var paid := if kind == ObPayment && !reversal && other == a then amount else 0;
      && b'.invoices == b.invoices
      && Balance(b', other) == LedgerSum(b'.ledger, other)
      && Balance(b', other) == Balance(b, other) + (if other == a then amount else 0)
      && PaymentsInto(b'.ledger, other) == PaymentsInto(b.ledger, other) + paid
      && CollectedOver(b.invoices, b'.ledger, other) == CollectedOver(b.invoices, b.ledger, other) + paid
  {
    if amount != 0 {
      var e := Entry(a, kind, amount, Balance(b, a) + amount, id, reversal);
      AppendEntry(b.ledger, e, other, id);
      AppendToShares(b.invoices, b.ledger, e, other);
    }
  }

  lemma ApplyChangeKeepsEntries(b: Books, a: Account, amount: int, kind: EntryKind, id: nat, reversal: bool)
    requires EntriesRight(b) && id < |b.invoices| && b.invoices[id].account == a
    requires kind == ObCharge ==> amount <= 0 && !reversal
    requires kind == ObPayment ==> amount >= 0
    ensures EntriesRight(ApplyChange(b, a, amount, kind, id, reversal))
  {
  }

  lemma SnapshotsOfMore(ledger: seq<Entry>, e: Entry)
    requires SnapshotsRight(ledger) && e.balanceAfter == LedgerSum(ledger, e.account) + e.change
    ensures SnapshotsRight(ledger + [e])
  {
    var later := ledger + [e];
    forall k | 0 <= k < |later| ensures later[k].balanceAfter == LedgerSum(later[..k + 1], later[k].account) {
      if k < |ledger| {
        assert later[..k + 1] == ledger[..k + 1];
      } else {
        AppendEntry(ledger, e, e.account, 0);
        assert later[..k + 1] == ledger + [e];
      }
    }
  }

  lemma ApplyChangeKeepsLedger(b: Books, a: Account, amount: int, kind: EntryKind, id: nat, reversal: bool)
    requires SnapshotsRight(b.ledger) && Balance(b, a) == LedgerSum(b.ledger, a)
    ensures SnapshotsRight(ApplyChange(b, a, amount, kind, id, reversal).ledger)
  {
    if amount != 0 {
      SnapshotsOfMore(b.ledger, Entry(a, kind, amount, Balance(b, a) + amount, id, reversal));
    }
  }

  lemma CollectedAfterChange(b: Books, a: Account, amount: int, kind: EntryKind, id: nat, reversal: bool, i: nat)
    ensures Collected(ApplyChange(b, a, amount, kind, id, reversal).ledger, i)
      == Collected(b.ledger, i) + if kind == ObPayment && !reversal && i == id then amount else 0
  {
    if amount != 0 {
      AppendEntry(b.ledger, Entry(a, kind, amount, Balance(b, a) + amount, id, reversal), a, i);
    }
  }

  /**
   * The one step all operations share: replace row `id` and move its wallet by
   * exactly what the row's claim gave up plus what was paid.
   */
  lemma ChangeRow(b: Books, id: nat, inv: Invoice, amount: int, kind: EntryKind, reversal: bool)
    requires BooksRight(b) && id < |b.invoices|
    requires inv.account == b.invoices[id].account
    requires inv.total == SumLines(inv.lines) > 0 && inv.status != Overdue
    requires forall k :: 0 <= k < |inv.lines| ==> inv.lines[k].sequence == k + 1
    requires kind == ObCharge ==> amount <= 0 && !reversal
    requires kind == ObPayment ==> amount >= 0
    requires var paid := if kind == ObPayment && !reversal then amount else 0;
      && amount == paid - Claim(inv, inv.account) + Claim(b.invoices[id], inv.account)
      && (IsUnpaid(inv) ==> inv.amountPaid == Collected(b.ledger, id) + paid)
    ensures BooksRight(ApplyChange(b.(invoices := b.invoices[id := inv]), inv.account, amount, kind, id, reversal))
  {
    var b' := ApplyChange(b.(invoices := b.invoices[id := inv]), inv.account, amount, kind, id, reversal);
    assert AccountRight(b, inv.account);
    ChangeRowLedger(b, id, inv, amount, kind, reversal);
    forall i | 0 <= i < |b'.invoices| ensures InvoiceRight(b', i) {
      assert InvoiceRight(b, i);
      ChangeRowInvoice(b, b', id, inv, i);
    }
    forall a: Account ensures AccountRight(b', a) {
      assert AccountRight(b, a);
      ChangeRowAccount(b, id, inv, amount, kind, reversal, a);
    }
  }

  lemma ChangeRowLedger(b: Books, id: nat, inv: Invoice, amount: int, kind: EntryKind, reversal: bool)
    requires SnapshotsRight(b.ledger) && EntriesRight(b) && Balance(b, inv.account) == LedgerSum(b.ledger, inv.account)
    requires id < |b.invoices| && inv.account == b.invoices[id].account
    requires kind == ObCharge ==> amount <= 0 && !reversal
    requires kind == ObPayment ==> amount >= 0
    ensures var b' := ApplyChange(b.(invoices := b.invoices[id := inv]), inv.account, amount, kind, id, reversal);
      && SnapshotsRight(b'.ledger) && EntriesRight(b')
      && (forall i: nat :: Collected(b'.ledger, i)
            == Collected(b.ledger, i) + if kind == ObPayment && !reversal && i == id then amount else 0)
  {
    var mid := b.(invoices := b.invoices[id := inv]);
    assert EntriesRight(mid);
    assert Balance(mid, inv.account) == Balance(b, inv.account);
    ApplyChangeKeepsLedger(mid, inv.account, amount, kind, id, reversal);
    ApplyChangeKeepsEntries(mid, inv.account, amount, kind, id, reversal);
    var b' := ApplyChange(mid, inv.account, amount, kind, id, reversal);
    forall i: nat
      ensures Collected(b'.ledger, i)
        == Collected(b.ledger, i) + if kind == ObPayment && !reversal && i == id then amount else 0
    {
      CollectedAfterChange(mid, inv.account, amount, kind, id, reversal, i);
    }
  }

  lemma ChangeRowInvoice(b: Books, later: Books, id: nat, inv: Invoice, i: nat)
    requires id < |b.invoices| && later.invoices == b.invoices[id := inv] && i < |b.invoices| && InvoiceRight(b, i)
    requires inv.total == SumLines(inv.lines) > 0 && inv.status != Overdue
    requires forall k :: 0 <= k < |inv.lines| ==> inv.lines[k].sequence == k + 1
    requires IsUnpaid(inv) ==> inv.amountPaid == Collected(later.ledger, id)
    requires i != id ==> Collected(later.ledger, i) == Collected(b.ledger, i)
    ensures InvoiceRight(later, i)
  {
  }

  lemma ChangeRowAccount(b: Books, id: nat, inv: Invoice, amount: int, kind: EntryKind, reversal: bool, a: Account)
    requires AccountRight(b, a) && id < |b.invoices| && inv.account == b.invoices[id].account
    requires var paid := if kind == ObPayment && !reversal then amount else 0;
      amount == paid - Claim(inv, inv.account) + Claim(b.invoices[id], inv.account)
    ensures AccountRight(ApplyChange(b.(invoices := b.invoices[id := inv]), inv.account, amount, kind, id, reversal), a)
  {
    UpdateInvoice(b.invoices, id, inv, a);
    UpdateKeepsCollected(b.invoices, b.ledger, id, inv, a);
    ApplyChangeMoves(b.(invoices := b.invoices[id := inv]), inv.account, amount, kind, id, reversal, a);
  }

  /** A zero change leaves every table as it was, apart from the wallet existing. */
  lemma ZeroChange(b: Books, a: Account, kind: EntryKind, id: nat, reversal: bool)
    requires BooksRight(ApplyChange(b, a, 0, kind, id, reversal))
    ensures BooksRight(b)
  {
    var b' := ApplyChange(b, a, 0, kind, id, reversal);
    forall o: Account ensures AccountRight(b, o) {
      assert AccountRight(b', o);
      assert Balance(b', o) == Balance(b, o);
    }
    forall i | 0 <= i < |b.invoices| ensures InvoiceRight(b, i) {
      assert InvoiceRight(b', i);
    }
    assert EntriesRight(b') && b'.ledger == b.ledger && b'.invoices == b.invoices;
  }

  /** A row change that moves no money. */
  lemma ChangeRowOnly(b: Books, id: nat, inv: Invoice)
    requires BooksRight(b) && id < |b.invoices|
    requires inv.account == b.invoices[id].account && inv.total == b.invoices[id].total
      && inv.lines == b.invoices[id].lines
    requires inv.status != Overdue && (inv.status == Cancelled <==> b.invoices[id].status == Cancelled)
    requires IsUnpaid(inv) ==> inv.amountPaid == Collected(b.ledger, id)
    ensures BooksRight(b.(invoices := b.invoices[id := inv]))
  {
    assert InvoiceRight(b, id);
    ChangeRow(b, id, inv, 0, ObPayment, false);
    ZeroChange(b.(invoices := b.invoices[id := inv]), inv.account, ObPayment, id, false);
  }

  lemma AppendInvoice(invoices: seq<Invoice>, ledger: seq<Entry>, inv: Invoice, a: Account)
    ensures LiveTotals(invoices + [inv], a) == LiveTotals(invoices, a) + Claim(inv, a)
    ensures CollectedOver(invoices + [inv], ledger, a)
      == CollectedOver(invoices, ledger, a) + if inv.account == a then Collected(ledger, |invoices|) else 0
  {
    assert (invoices + [inv])[..|invoices|] == invoices;
  }

  function WithRow(b: Books, inv: Invoice): Books { b.(invoices := b.invoices + [inv]) }

  /** A new unpaid row, debited for its whole total. */
  lemma AddRow(b: Books, inv: Invoice)
    requires BooksRight(b)
    requires inv.total == SumLines(inv.lines) > 0 && inv.status == Pending && inv.amountPaid == 0
    requires forall k :: 0 <= k < |inv.lines| ==> inv.lines[k].sequence == k + 1
    ensures BooksRight(ApplyChange(WithRow(b, inv), inv.account, -inv.total, ObCharge, |b.invoices|, false))
  {
    var b' := ApplyChange(WithRow(b, inv), inv.account, -inv.total, ObCharge, |b.invoices|, false);
    assert AccountRight(b, inv.account);
    AddRowLedger(b, inv);
    AddRowEntries(b, inv);
    NothingCollectedYet(b.ledger, |b.invoices|);
    forall i | 0 <= i < |b'.invoices| ensures InvoiceRight(b', i) {
      if i < |b.invoices| { assert InvoiceRight(b, i); }
      AddRowInvoice(b, inv, i);
    }
    forall o: Account ensures AccountRight(b', o) {
      assert AccountRight(b, o);
      AddRowAccount(b, inv, o);
    }
  }

  lemma AddRowLedger(b: Books, inv: Invoice)
    requires SnapshotsRight(b.ledger) && Balance(b, inv.account) == LedgerSum(b.ledger, inv.account)
    ensures SnapshotsRight(
      ApplyChange(WithRow(b, inv), inv.account, -inv.total, ObCharge, |b.invoices|, false).ledger)
  {
    ApplyChangeKeepsLedger(WithRow(b, inv), inv.account, -inv.total, ObCharge, |b.invoices|, false);
  }

  lemma AddRowEntries(b: Books, inv: Invoice)
    requires EntriesRight(b) && inv.total > 0
    ensures EntriesRight(ApplyChange(WithRow(b, inv), inv.account, -inv.total, ObCharge, |b.invoices|, false))
  {
    assert EntriesRight(WithRow(b, inv));
    ApplyChangeKeepsEntries(WithRow(b, inv), inv.account, -inv.total, ObCharge, |b.invoices|, false);
  }

  lemma AddRowInvoice(b: Books, inv: Invoice, i: nat)
    requires i < |b.invoices| ==> InvoiceRight(b, i)
    requires i == |b.invoices| ==> Collected(b.ledger, i) == 0
    requires inv.total == SumLines(inv.lines) > 0 && inv.status == Pending && inv.amountPaid == 0
    requires forall k :: 0 <= k < |inv.lines| ==> inv.lines[k].sequence == k + 1
    requires i <= |b.invoices|
    ensures InvoiceRight(ApplyChange(WithRow(b, inv), inv.account, -inv.total, ObCharge, |b.invoices|, false), i)
  {
    CollectedAfterChange(WithRow(b, inv), inv.account, -inv.total, ObCharge, |b.invoices|, false, i);
  }

  lemma AddRowAccount(b: Books, inv: Invoice, o: Account)
    requires AccountRight(b, o) && Collected(b.ledger, |b.invoices|) == 0
    requires inv.total > 0 && inv.status == Pending
    ensures AccountRight(ApplyChange(WithRow(b, inv), inv.account, -inv.total, ObCharge, |b.invoices|, false), o)
  {
    AppendInvoice(b.invoices, b.ledger, inv, o);
    ApplyChangeMoves(WithRow(b, inv), inv.account, -inv.total, ObCharge, |b.invoices|, false, o);
  }

  lemma CreateKeeps(b: Books, a: Account, items: seq<Item>, due: int)
    requires BooksRight(b) && Create(b, a, items, due).Success?
    ensures BooksRight(Create(b, a, items, due).value)
  {
    SnapshotSum(items);
    AddRow(b, Invoice(a, Snapshot(items), SumItems(items), Pending, 0, due, None, None, None));
  }

  lemma EditKeeps(b: Books, id: nat, items: seq<Item>, due: int, today: int)
    requires BooksRight(b) && Edit(b, id, items, due, today).Success?
    ensures BooksRight(Edit(b, id, items, due, today).value)
  {
    SnapshotSum(items);
    assert InvoiceRight(b, id);
    var inv := b.invoices[id];
    var edited := inv.(lines := Snapshot(items), total := SumItems(items), dueDate := due);
    var delta := edited.total - inv.total;
    if delta > 0 {
      ChangeRow(b, id, edited, -delta, ObCharge, false);
    } else {
      ChangeRow(b, id, edited, -delta, ObPayment, true);
      if delta == 0 {
        ZeroChange(b.(invoices := b.invoices[id := edited]), inv.account, ObPayment, id, true);
      }
    }
  }

  lemma CancelKeeps(b: Books, id: nat)
    requires BooksRight(b) && Cancel(b, id).Success?
    ensures BooksRight(Cancel(b, id).value)
  {
    assert InvoiceRight(b, id);
    ChangeRow(b, id, b.invoices[id].(status := Cancelled), b.invoices[id].total, ObPayment, true);
  }

  /** A commit keeps the books whatever happened since its ticket was loaded. */
  lemma CommitKeeps(b: Books, t: Ticket, receipt: string)
    requires BooksRight(b) && t.credit >= 0
    requires t.id < |b.invoices| ==> b.invoices[t.id].account == t.account
    ensures BooksRight(Commit(b, t, receipt))
  {
    if Claimable(b, t) {
      assert InvoiceRight(b, t.id);
      var paid := b.invoices[t.id].(status := Paid, amountPaid := t.total,
                                    paymentReference := Some(t.reference), receiptToken := Some(receipt));
      ChangeRow(b, t.id, paid, t.credit, ObPayment, false);
    }
  }

  lemma CollectedRowFits(inv: Invoice, amount: nat)
    requires inv.status != Overdue
    ensures var row := CollectedRow(inv, amount);
      && row.account == inv.account && row.total == inv.total && row.lines == inv.lines && row.status != Overdue
      && Claim(row, inv.account) == Claim(inv, inv.account)
      && (IsUnpaid(row) ==> IsUnpaid(inv) && row.amountPaid == inv.amountPaid + amount)
  {
  }

  lemma CollectKeeps(b: Books, id: nat, amount: nat)
    requires BooksRight(b)
    ensures BooksRight(Collect(b, id, amount))
  {
    if id < |b.invoices| && Collect(b, id, amount) != b {
      var inv := b.invoices[id];
      assert InvoiceRight(b, id);
      CollectedRowFits(inv, amount);
      ChangeRow(b, id, CollectedRow(inv, amount), amount, ObPayment, false);
    }
  }

  lemma CoverAndReleaseKeep(b: Books, id: nat, plan: nat)
    requires BooksRight(b)
    ensures BooksRight(Cover(b, id, plan)) && BooksRight(Release(b, id))
  {
    if id < |b.invoices| {
      var inv := b.invoices[id];
      assert InvoiceRight(b, id);
      ChangeRowOnly(b, id, inv.(coveredByPlan := Some(plan)));
      if inv.status == Paid || inv.status == Cancelled {
        ChangeRowOnly(b, id, inv.(coveredByPlan := None));
      } else {
        var status := if inv.amountPaid >= inv.total - NAIRA then Paid
                      else if inv.amountPaid > NAIRA / 2 then Partial else Pending;
        ChangeRowOnly(b, id, inv.(coveredByPlan := None, status := status));
      }
    }
  }

  lemma ApplyKeeps(b: Books, op: Operation)
    requires BooksRight(b)
    ensures BooksRight(Apply(b, op))
  {
    match op
    case CreateInvoice(a, items, due) =>
      if Create(b, a, items, due).Success? { CreateKeeps(b, a, items, due); }
    case EditInvoice(id, items, due, today) =>
      if Edit(b, id, items, due, today).Success? { EditKeeps(b, id, items, due, today); }
    case CancelInvoice(id) =>
      if Cancel(b, id).Success? { CancelKeeps(b, id); }
    case ConfirmPayment(id, p, receipt) =>
      var l := Load(b, id, p);
      if l.Proceed? { CommitKeeps(b, l.ticket, receipt); }
    case CoverByPlan(id, plan) => CoverAndReleaseKeep(b, id, plan);
    case CollectInstallment(id, amount) => CollectKeeps(b, id, amount);
    case ReleaseFromPlan(id) => CoverAndReleaseKeep(b, id, 0);
  }
}
