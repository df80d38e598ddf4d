/**
 * Taking back wallet credits that charge-plan installments should never have
 * posted: every phantom credit gets one reversal, however often the script is
 * stopped and started again.
 *
 * A ledger row's id is its position in the ledger.
 */
module PhantomRepair {
  import opened Options

  datatype Pair = Pair(tenant: nat, landlord: nat)

  datatype EntryType = ObPayment | ObCharge | OtherType

  /** `reverses` is the original row's id on rows tagged as phantom-credit reversals. */
  datatype Row = Row(
    pair: Pair,
    entryType: EntryType,
    change: int,
    fromInstallment: bool,
    installment: Option<nat>,
    reverses: Option<nat>)

  /** The plan owning an installment, as far as the classification looks. */
  datatype Plan = Plan(chargeScope: bool, settlesOutstandingBalance: bool)

  type Plans = map<nat, Plan>

  datatype Class = NotACredit | Orphaned | Legitimate | Phantom

  function Classify(r: Row, plans: Plans): Class {
    if r.entryType != ObPayment || !r.fromInstallment then NotACredit
    else if r.installment.None? || r.installment.value !in plans then Orphaned
    else
      var p := plans[r.installment.value];
      if p.chargeScope && !p.settlesOutstandingBalance then Phantom else Legitimate
  }

  function PhantomIds(ledger: seq<Row>, plans: Plans): seq<nat> {
    if ledger == [] then []
    else
      var n := |ledger| - 1;
      PhantomIds(ledger[..n], plans) + if Classify(ledger[n], plans) == Phantom then [n] else []
  }

  predicate IsReversalOf(r: Row, id: nat) {
    r.entryType == ObCharge && r.fromInstallment && r.reverses == Some(id)
  }

  predicate AlreadyReversed(ledger: seq<Row>, id: nat) {
    exists k :: 0 <= k < |ledger| && IsReversalOf(ledger[k], id)
  }

  /** A phantom credit no earlier run took back. */
  predicate Due(ledger: seq<Row>, plans: Plans, id: nat) {
    id < |ledger| && Classify(ledger[id], plans) == Phantom && !AlreadyReversed(ledger, id)
  }

  /** The ids still to be reversed, in ledger order. */
  function Unreversed(ids: seq<nat>, ledger: seq<Row>): seq<nat> {
    if ids == [] then []
    else
      var id := ids[|ids| - 1];
      Unreversed(ids[..|ids| - 1], ledger) + if AlreadyReversed(ledger, id) then [] else [id]
  }

  function ToReverse(ledger: seq<Row>, plans: Plans): seq<nat> {
    Unreversed(PhantomIds(ledger, plans), ledger)
  }

  function Reversal(r: Row, id: nat): Row {
    Row(r.pair, ObCharge, -r.change, true, r.installment, Some(id))
  }

  /** The ledger after the compensating writes for `ids`; a zero change writes no row. */
  function Written(ledger: seq<Row>, ids: seq<nat>): seq<Row>
    requires forall k :: 0 <= k < |ids| ==> ids[k] < |ledger|
  {
    if ids == [] then ledger
    else
      var id := ids[|ids| - 1];
      var before := Written(ledger, ids[..|ids| - 1]);
      if ledger[id].change == 0 then before else before + [Reversal(ledger[id], id)]
  }

  /** One complete applied run. */
  function Repaired(ledger: seq<Row>, plans: Plans): seq<Row> {
    ToReverseInLedger(ledger, plans);
    Written(ledger, ToReverse(ledger, plans))
  }

  /** A run cut short after the writes for its first `n` credits. */
  function CutShort(ledger: seq<Row>, plans: Plans, n: nat): seq<Row>
    requires n <= |ToReverse(ledger, plans)|
  {
    ToReverseInLedger(ledger, plans);
    Written(ledger, ToReverse(ledger, plans)[..n])
  }

  // ---------------------------------------------------------------------
  // Membership and order
  // ---------------------------------------------------------------------

  predicate Increasing(ids: seq<nat>) {
    forall i, j :: 0 <= i < j < |ids| ==> ids[i] < ids[j]
  }

  lemma IncreasingMore(ids: seq<nat>, id: nat)
    requires Increasing(ids) && forall k :: 0 <= k < |ids| ==> ids[k] < id
    ensures Increasing(ids + [id])
  {
  }

  lemma {:induction false} PhantomIdsOrder(ledger: seq<Row>, plans: Plans)
    ensures Increasing(PhantomIds(ledger, plans))
    ensures forall k :: 0 <= k < |PhantomIds(ledger, plans)| ==> PhantomIds(ledger, plans)[k] < |ledger|
  {
    if ledger != [] {
      var n := |ledger| - 1;
      PhantomIdsOrder(ledger[..n], plans);
      IncreasingMore(PhantomIds(ledger[..n], plans), n);
    }
  }

  lemma {:induction false} PhantomIdsMembers(ledger: seq<Row>, plans: Plans, id: nat)
    ensures id in PhantomIds(ledger, plans) <==> id < |ledger| && Classify(ledger[id], plans) == Phantom
  {
    if ledger != [] { PhantomIdsMembers(ledger[..|ledger| - 1], plans, id); }
  }

  lemma {:induction false} PhantomIdsMean(ledger: seq<Row>, plans: Plans)
    ensures Increasing(PhantomIds(ledger, plans))
    ensures forall id: nat :: id in PhantomIds(ledger, plans) <==>
      (id < |ledger| && ledger[id].entryType == ObPayment && ledger[id].fromInstallment
       && ledger[id].installment.Some? && ledger[id].installment.value in plans
       && plans[ledger[id].installment.value].chargeScope
       && !plans[ledger[id].installment.value].settlesOutstandingBalance)
  {
    PhantomIdsOrder(ledger, plans);
    forall id: nat
      ensures id in PhantomIds(ledger, plans) <==> id < |ledger| && Classify(ledger[id], plans) == Phantom
    {
      PhantomIdsMembers(ledger, plans, id);
    }
  }

  lemma {:induction false} UnreversedMembers(ids: seq<nat>, ledger: seq<Row>, id: nat)
    ensures id in Unreversed(ids, ledger) <==> id in ids && !AlreadyReversed(ledger, id)
  {
    if ids != [] {
      var n := |ids| - 1;
      assert ids == ids[..n] + [ids[n]];
      UnreversedMembers(ids[..n], ledger, id);
    }
  }

  lemma {:induction false} UnreversedOrder(ids: seq<nat>, ledger: seq<Row>, bound: nat)
    requires Increasing(ids) && forall k :: 0 <= k < |ids| ==> ids[k] < bound
    ensures Increasing(Unreversed(ids, ledger))
    ensures forall k :: 0 <= k < |Unreversed(ids, ledger)| ==> Unreversed(ids, ledger)[k] < bound
  {
    if ids != [] {
      var n := |ids| - 1;
      UnreversedOrder(ids[..n], ledger, ids[n]);
      IncreasingMore(Unreversed(ids[..n], ledger), ids[n]);
    }
  }

  lemma UnreversedMeans(ids: seq<nat>, ledger: seq<Row>)
    requires Increasing(ids)
    ensures Increasing(Unreversed(ids, ledger))
    ensures forall id: nat :: id in Unreversed(ids, ledger) <==> id in ids && !AlreadyReversed(ledger, id)
  {
    UnreversedOrder(ids, ledger, if ids == [] then 0 else ids[|ids| - 1] + 1);
    forall id: nat ensures id in Unreversed(ids, ledger) <==> id in ids && !AlreadyReversed(ledger, id) {
      UnreversedMembers(ids, ledger, id);
    }
  }

  lemma ToReverseMeans(ledger: seq<Row>, plans: Plans)
    ensures Increasing(ToReverse(ledger, plans))
    ensures forall id: nat :: id in ToReverse(ledger, plans) <==> Due(ledger, plans, id)
  {
    PhantomIdsMean(ledger, plans);
    UnreversedMeans(PhantomIds(ledger, plans), ledger);
  }

  lemma ToReverseInLedger(ledger: seq<Row>, plans: Plans)
    ensures forall k :: 0 <= k < |ToReverse(ledger, plans)| ==> ToReverse(ledger, plans)[k] < |ledger|
  {
    ToReverseMeans(ledger, plans);
    forall k | 0 <= k < |ToReverse(ledger, plans)| ensures ToReverse(ledger, plans)[k] < |ledger| {
      assert ToReverse(ledger, plans)[k] in ToReverse(ledger, plans);
    }
  }

  // ---------------------------------------------------------------------
  // What writing does
  // ---------------------------------------------------------------------

  /** The ledger grows by reversals only: of which ids, and by which row. */
  lemma {:induction false} WrittenMeans(ledger: seq<Row>, ids: seq<nat>)
    requires forall k :: 0 <= k < |ids| ==> ids[k] < |ledger|
    ensures ledger <= Written(ledger, ids)
    ensures forall k :: |ledger| <= k < |Written(ledger, ids)| ==>
      var r := Written(ledger, ids)[k];
      r.reverses.Some? && r.reverses.value in ids && r.reverses.value < |ledger|
      && r == Reversal(ledger[r.reverses.value], r.reverses.value) && r.change != 0
    ensures forall id: nat :: id < |ledger| ==>
      var written := id in ids && ledger[id].change != 0;
      AlreadyReversed(Written(ledger, ids), id) <==> AlreadyReversed(ledger, id) || written
  {
    if ids == [] {
    } else {
      var n := |ids| - 1;
      var id := ids[n];
      var before := Written(ledger, ids[..n]);
      WrittenMeans(ledger, ids[..n]);
      assert ids == ids[..n] + [id];
      if ledger[id].change != 0 {
        ReversedAfterAppend(before, Reversal(ledger[id], id));
      }
    }
  }

  lemma ReversedAfterAppend(ledger: seq<Row>, r: Row)
    ensures forall id: nat :: AlreadyReversed(ledger + [r], id) <==> AlreadyReversed(ledger, id) || IsReversalOf(r, id)
  {
    forall id: nat
      ensures AlreadyReversed(ledger + [r], id) <==> AlreadyReversed(ledger, id) || IsReversalOf(r, id)
    {
      if AlreadyReversed(ledger, id) {
        var k :| 0 <= k < |ledger| && IsReversalOf(ledger[k], id);
        assert IsReversalOf((ledger + [r])[k], id);
      }
      if IsReversalOf(r, id) { assert IsReversalOf((ledger + [r])[|ledger|], id); }
    }
  }

  lemma {:induction false} WrittenSplits(ledger: seq<Row>, xs: seq<nat>, ys: seq<nat>)
    requires forall k :: 0 <= k < |xs| ==> xs[k] < |ledger|
    requires forall k :: 0 <= k < |ys| ==> ys[k] < |ledger|
    ensures forall k :: 0 <= k < |xs + ys| ==> (xs + ys)[k] < |ledger|
    ensures ledger <= Written(ledger, xs)
    ensures Written(ledger, xs + ys) == Written(Written(ledger, xs), ys)
  {
    WrittenMeans(ledger, xs);
    var mid := Written(ledger, xs);
    if ys == [] {
      assert xs + ys == xs;
    } else {
      var n := |ys| - 1;
      WrittenSplits(ledger, xs, ys[..n]);
      assert (xs + ys)[..|xs + ys| - 1] == xs + ys[..n];
      assert mid[ys[n]] == ledger[ys[n]];
    }
  }

  // ---------------------------------------------------------------------
  // Resuming: zero credits never get a row, so every run comes back to them
  // ---------------------------------------------------------------------

  function NonZero(ledger: seq<Row>, ids: seq<nat>): seq<nat>
    requires forall k :: 0 <= k < |ids| ==> ids[k] < |ledger|
  {
    if ids == [] then []
    else
      var id := ids[|ids| - 1];
      NonZero(ledger, ids[..|ids| - 1]) + if ledger[id].change == 0 then [] else [id]
  }

  lemma {:induction false} NonZeroMembers(ledger: seq<Row>, ids: seq<nat>, id: nat)
    requires forall k :: 0 <= k < |ids| ==> ids[k] < |ledger|
    ensures id in NonZero(ledger, ids) <==> id in ids && id < |ledger| && ledger[id].change != 0
  {
    if ids != [] {
      var n := |ids| - 1;
      assert ids == ids[..n] + [ids[n]];
      NonZeroMembers(ledger, ids[..n], id);
    }
  }

  lemma {:induction false} NonZeroOrder(ledger: seq<Row>, ids: seq<nat>, bound: nat)
    requires Increasing(ids) && forall k :: 0 <= k < |ids| ==> ids[k] < bound && ids[k] < |ledger|
    ensures Increasing(NonZero(ledger, ids))
    ensures forall k :: 0 <= k < |NonZero(ledger, ids)| ==> NonZero(ledger, ids)[k] < bound
  {
    if ids != [] {
      var n := |ids| - 1;
      NonZeroOrder(ledger, ids[..n], ids[n]);
      IncreasingMore(NonZero(ledger, ids[..n]), ids[n]);
    }
  }

  lemma NonZeroMeans(ledger: seq<Row>, ids: seq<nat>)
    requires Increasing(ids) && forall k :: 0 <= k < |ids| ==> ids[k] < |ledger|
    ensures Increasing(NonZero(ledger, ids))
    ensures forall id: nat :: id in NonZero(ledger, ids) <==> id in ids && id < |ledger| && ledger[id].change != 0
  {
    NonZeroOrder(ledger, ids, |ledger|);
    forall id: nat ensures id in NonZero(ledger, ids) <==> id in ids && id < |ledger| && ledger[id].change != 0 {
      NonZeroMembers(ledger, ids, id);
    }
  }

  lemma {:induction false} NonZeroSplits(ledger: seq<Row>, xs: seq<nat>, ys: seq<nat>)
    requires forall k :: 0 <= k < |xs| ==> xs[k] < |ledger|
    requires forall k :: 0 <= k < |ys| ==> ys[k] < |ledger|
    ensures NonZero(ledger, xs + ys) == NonZero(ledger, xs) + NonZero(ledger, ys)
  {
    if ys == [] {
      assert xs + ys == xs;
    } else {
      var n := |ys| - 1;
      NonZeroSplits(ledger, xs, ys[..n]);
      assert (xs + ys)[..|xs + ys| - 1] == xs + ys[..n];
    }
  }

  lemma {:induction false} NonZeroInLedger(ledger: seq<Row>, ids: seq<nat>)
    requires forall k :: 0 <= k < |ids| ==> ids[k] < |ledger|
    ensures forall k :: 0 <= k < |NonZero(ledger, ids)| ==> NonZero(ledger, ids)[k] < |ledger|
  {
    if ids != [] { NonZeroInLedger(ledger, ids[..|ids| - 1]); }
  }

  lemma {:induction false} WrittenSkipsZeros(ledger: seq<Row>, ids: seq<nat>)
    requires forall k :: 0 <= k < |ids| ==> ids[k] < |ledger|
    ensures forall k :: 0 <= k < |NonZero(ledger, ids)| ==> NonZero(ledger, ids)[k] < |ledger|
    ensures Written(ledger, ids) == Written(ledger, NonZero(ledger, ids))
  {
    NonZeroInLedger(ledger, ids);
    if ids != [] {
      var n := |ids| - 1;
      WrittenSkipsZeros(ledger, ids[..n]);
      var rest := NonZero(ledger, ids[..n]);
      if ledger[ids[n]].change != 0 {
        assert (rest + [ids[n]])[..|rest|] == rest;
      } else {
        assert NonZero(ledger, ids) == rest;
      }
    }
  }

  lemma FirstIsIn(b: seq<nat>)
    ensures b == [] || b[0] in b
  {
  }

  lemma LastInOther(a: seq<nat>, b: seq<nat>)
    requires a != [] && b != [] && Increasing(b) && a[|a| - 1] in b
    ensures a[|a| - 1] <= b[|b| - 1]
  {
    var k :| 0 <= k < |b| && b[k] == a[|a| - 1];
  }

  lemma LastIsNew(a: seq<nat>)
    requires a != [] && Increasing(a)
    ensures forall x :: x in a[..|a| - 1] <==> x in a && x != a[|a| - 1]
  {
    assert a == a[..|a| - 1] + [a[|a| - 1]];
  }

  /** An increasing sequence is known by its members. */
  lemma {:induction false} SameMembers(a: seq<nat>, b: seq<nat>)
    requires Increasing(a) && Increasing(b)
    requires forall x :: x in a <==> x in b
    ensures a == b
  {
    if a == [] {
      FirstIsIn(b);
    } else {
      var m := |a| - 1;
      assert a[m] in b;
      var n := |b| - 1;
      assert b[n] in a;
      LastInOther(a, b);
      LastInOther(b, a);
      LastIsNew(a);
      LastIsNew(b);
      assert a[m] == b[n];
      forall x ensures x in a[..m] <==> x in b[..n] {
        assert x in a <==> x in b;
      }
      SameMembers(a[..m], b[..n]);
      assert a == a[..m] + [a[m]] && b == b[..n] + [b[n]];
    }
  }

  /** What a run has yet to write is what it has yet to reverse and is not zero. */
  function Pending(ledger: seq<Row>, plans: Plans): seq<nat> {
    ToReverseInLedger(ledger, plans);
    NonZero(ledger, ToReverse(ledger, plans))
  }

  lemma PendingMeans(ledger: seq<Row>, plans: Plans)
    ensures Increasing(Pending(ledger, plans))
    ensures forall id: nat :: id in Pending(ledger, plans) <==> Due(ledger, plans, id) && ledger[id].change != 0
  {
    ToReverseMeans(ledger, plans);
    ToReverseInLedger(ledger, plans);
    NonZeroMeans(ledger, ToReverse(ledger, plans));
  }

  /** Reversals are charges, so nothing new is due; what was written no longer is. */
  lemma DueAfterWriting(ledger: seq<Row>, plans: Plans, ids: seq<nat>, id: nat)
    requires forall k :: 0 <= k < |ids| ==> ids[k] < |ledger|
    ensures var longer := Written(ledger, ids);
      Due(longer, plans, id) && longer[id].change != 0
      <==> Due(ledger, plans, id) && ledger[id].change != 0 && id !in ids
  {
    WrittenMeans(ledger, ids);
    var longer := Written(ledger, ids);
    if id < |ledger| {
      assert longer[id] == ledger[id];
    } else if id < |longer| {
      assert longer[id].entryType == ObCharge;
    }
  }

  lemma {:induction false} IncreasingApart(xs: seq<nat>, ys: seq<nat>, x: nat)
    requires Increasing(xs + ys) && x in ys
    ensures x !in xs
  {
    var j :| 0 <= j < |ys| && ys[j] == x;
    forall i | 0 <= i < |xs| ensures xs[i] != x {
      assert (xs + ys)[i] < (xs + ys)[|xs| + j];
    }
  }

  lemma {:induction false} PendingAfterPrefix(ledger: seq<Row>, plans: Plans, xs: seq<nat>, ys: seq<nat>)
    requires Pending(ledger, plans) == xs + ys
    requires forall k :: 0 <= k < |xs| ==> xs[k] < |ledger|
    ensures Pending(Written(ledger, xs), plans) == ys
  {
    var longer := Written(ledger, xs);
    PendingMeans(ledger, plans);
    PendingMeans(longer, plans);
    assert Increasing(ys) by {
      forall i, j | 0 <= i < j < |ys| ensures ys[i] < ys[j] {
        assert (xs + ys)[|xs| + i] < (xs + ys)[|xs| + j];
      }
    }
    forall id: nat ensures id in Pending(longer, plans) <==> id in ys {
      DueAfterWriting(ledger, plans, xs, id);
      if id in ys { IncreasingApart(xs, ys, id); }
      assert id in xs + ys <==> id in xs || id in ys;
    }
    SameMembers(Pending(longer, plans), ys);
  }

  lemma RepairedIsPending(ledger: seq<Row>, plans: Plans)
    ensures forall k :: 0 <= k < |Pending(ledger, plans)| ==> Pending(ledger, plans)[k] < |ledger|
    ensures Repaired(ledger, plans) == Written(ledger, Pending(ledger, plans))
  {
    ToReverseInLedger(ledger, plans);
    WrittenSkipsZeros(ledger, ToReverse(ledger, plans));
  }

  // ---------------------------------------------------------------------
  // Main results
  // ---------------------------------------------------------------------

  /** Stopping after any number of writes and running again ends with the very ledger of one full run. */
  lemma RepairConverges(ledger: seq<Row>, plans: Plans, n: nat)
    requires n <= |ToReverse(ledger, plans)|
    ensures Repaired(CutShort(ledger, plans, n), plans) == Repaired(ledger, plans)
  {
    var all := ToReverse(ledger, plans);
    ToReverseInLedger(ledger, plans);
    var xs, ys := NonZero(ledger, all[..n]), NonZero(ledger, all[n..]);
    NonZeroInLedger(ledger, all[..n]);
    NonZeroInLedger(ledger, all[n..]);
    NonZeroSplits(ledger, all[..n], all[n..]);
    assert all[..n] + all[n..] == all;
    WrittenSkipsZeros(ledger, all[..n]);
    var longer := Written(ledger, xs);
    PendingAfterPrefix(ledger, plans, xs, ys);
    RepairedIsPending(ledger, plans);
    RepairedIsPending(longer, plans);
    WrittenSplits(ledger, xs, ys);
  }

  /** The ledger after any number of runs, each stopped after some of its writes. */
  function Interrupted(ledger: seq<Row>, plans: Plans, stops: seq<nat>): seq<Row> {
    if stops == [] then ledger
    else
      var now := Interrupted(ledger, plans, stops[..|stops| - 1]);
      var stop := stops[|stops| - 1];
      CutShort(now, plans, if stop < |ToReverse(now, plans)| then stop else |ToReverse(now, plans)|)
  }

  /** However often and wherever runs are stopped, one full run then gives the ledger an undisturbed run would have. */
  lemma {:induction false} RepairSurvivesStops(ledger: seq<Row>, plans: Plans, stops: seq<nat>)
    ensures Repaired(Interrupted(ledger, plans, stops), plans) == Repaired(ledger, plans)
  {
    if stops != [] {
      RepairSurvivesStops(ledger, plans, stops[..|stops| - 1]);
      var now := Interrupted(ledger, plans, stops[..|stops| - 1]);
      var stop := stops[|stops| - 1];
      RepairConverges(now, plans, if stop < |ToReverse(now, plans)| then stop else |ToReverse(now, plans)|);
    }
  }

  /** A run over a repaired ledger writes nothing. */
  lemma RepairIsIdempotent(ledger: seq<Row>, plans: Plans)
    ensures Repaired(Repaired(ledger, plans), plans) == Repaired(ledger, plans)
  {
    var all := ToReverse(ledger, plans);
    assert all[..|all|] == all;
    RepairConverges(ledger, plans, |all|);
  }

  function Balance(ledger: seq<Row>, p: Pair): int {
    if ledger == [] then 0
    else Balance(ledger[..|ledger| - 1], p) + if ledger[|ledger| - 1].pair == p then ledger[|ledger| - 1].change else 0
  }

  function TotalOf(ledger: seq<Row>, ids: seq<nat>, p: Pair): int
    requires forall k :: 0 <= k < |ids| ==> ids[k] < |ledger|
  {
    if ids == [] then 0
    else
      var r := ledger[ids[|ids| - 1]];
      TotalOf(ledger, ids[..|ids| - 1], p) + if r.pair == p then r.change else 0
  }

  lemma {:induction false} WrittenLowersBalance(ledger: seq<Row>, ids: seq<nat>, p: Pair)
    requires forall k :: 0 <= k < |ids| ==> ids[k] < |ledger|
    ensures Balance(Written(ledger, ids), p) == Balance(ledger, p) - TotalOf(ledger, ids, p)
  {
    if ids != [] {
      var id := ids[|ids| - 1];
      var before := Written(ledger, ids[..|ids| - 1]);
      WrittenLowersBalance(ledger, ids[..|ids| - 1], p);
      if ledger[id].change != 0 {
        assert (before + [Reversal(ledger[id], id)])[..|before|] == before;
      }
    }
  }

  /** Ids reversed by some row of a ledger, one entry per reversing row. */
  function ReversalCount(ledger: seq<Row>, id: nat): nat {
    if ledger == [] then 0
    else ReversalCount(ledger[..|ledger| - 1], id) + if IsReversalOf(ledger[|ledger| - 1], id) then 1 else 0
  }

  lemma {:induction false} CountZero(ledger: seq<Row>, id: nat)
    requires !AlreadyReversed(ledger, id)
    ensures ReversalCount(ledger, id) == 0
  {
    if ledger != [] {
      assert !IsReversalOf(ledger[|ledger| - 1], id);
      assert forall k :: 0 <= k < |ledger| - 1 ==> ledger[..|ledger| - 1][k] == ledger[k];
      CountZero(ledger[..|ledger| - 1], id);
    }
  }

  lemma CountAppended(ledger: seq<Row>, r: Row, id: nat)
    ensures ReversalCount(ledger + [r], id) == ReversalCount(ledger, id) + if IsReversalOf(r, id) then 1 else 0
  {
    assert (ledger + [r])[..|ledger|] == ledger;
  }

  lemma LastOfIncreasing(ids: seq<nat>, id: nat)
    requires Increasing(ids) && ids != []
    ensures var n := |ids| - 1;
      Increasing(ids[..n]) && ids[n] !in ids[..n] && (id in ids <==> id in ids[..n] || id == ids[n])
  {
    assert ids == ids[..|ids| - 1] + [ids[|ids| - 1]];
  }

  lemma {:induction false} WrittenCounts(ledger: seq<Row>, ids: seq<nat>, id: nat)
    requires Increasing(ids) && forall k :: 0 <= k < |ids| ==> ids[k] < |ledger|
    requires id < |ledger|
    ensures ReversalCount(Written(ledger, ids), id)
      == ReversalCount(ledger, id) + if id in ids && ledger[id].change != 0 then 1 else 0
  {
    if ids != [] {
      var n := |ids| - 1;
      LastOfIncreasing(ids, id);
      WrittenCounts(ledger, ids[..n], id);
      if ledger[ids[n]].change != 0 {
        CountAppended(Written(ledger, ids[..n]), Reversal(ledger[ids[n]], ids[n]), id);
      }
    }
  }

  /**
   * A repaired ledger holds a new row taking credit `id` back exactly if that
   * credit is a non-zero installment payment, its installment has a plan, the
   * plan is for a charge other than the outstanding balance, and no tagged
   * charge in the ledger named the credit before.
   */
  lemma TakenBackIff(ledger: seq<Row>, plans: Plans, id: nat)
    requires id < |ledger|
    ensures ledger <= Repaired(ledger, plans)
    ensures (exists k :: |ledger| <= k < |Repaired(ledger, plans)|
                && Repaired(ledger, plans)[k]
                   == Row(ledger[id].pair, ObCharge, -ledger[id].change, true, ledger[id].installment, Some(id))) <==>
      (ledger[id].entryType == ObPayment && ledger[id].fromInstallment && ledger[id].change != 0
       && ledger[id].installment.Some? && ledger[id].installment.value in plans
       && plans[ledger[id].installment.value].chargeScope
       && !plans[ledger[id].installment.value].settlesOutstandingBalance
       && forall k :: 0 <= k < |ledger| && ledger[k].entryType == ObCharge && ledger[k].fromInstallment
            ==> ledger[k].reverses != Some(id))
  {
    var after := Repaired(ledger, plans);
    var ids := ToReverse(ledger, plans);
    ToReverseMeans(ledger, plans);
    ToReverseInLedger(ledger, plans);
    WrittenMeans(ledger, ids);
    assert AlreadyReversed(ledger, id) <==>
      exists k :: 0 <= k < |ledger| && ledger[k].entryType == ObCharge && ledger[k].fromInstallment
             && ledger[k].reverses == Some(id);
    if id in ids && ledger[id].change != 0 {
      assert AlreadyReversed(after, id) && !AlreadyReversed(ledger, id);
      assert forall k :: 0 <= k < |ledger| ==> !IsReversalOf(ledger[k], id);
      var k :| 0 <= k < |after| && IsReversalOf(after[k], id);
      assert after[k] == Reversal(ledger[id], id);
    }
  }

  /** Every row a repair adds takes back a phantom credit by exactly its amount. */
  lemma AddedRowsMean(ledger: seq<Row>, plans: Plans)
    ensures forall k :: |ledger| <= k < |Repaired(ledger, plans)| ==>
      var r := Repaired(ledger, plans)[k];
      && r.reverses.Some? && r.reverses.value < |ledger|
      && var was := ledger[r.reverses.value];
      && was.entryType == ObPayment && was.fromInstallment && was.installment.Some? && was.installment.value in plans
      && plans[was.installment.value].chargeScope && !plans[was.installment.value].settlesOutstandingBalance
      && r == Row(was.pair, ObCharge, -was.change, true, was.installment, r.reverses) && r.change != 0
  {
    ToReverseMeans(ledger, plans);
    ToReverseInLedger(ledger, plans);
    WrittenMeans(ledger, ToReverse(ledger, plans));
  }

  /**
   * A repair only appends: each phantom credit not reversed before ends with
   * exactly one reversal, for exactly its amount; every other credit keeps the
   * count it had, and each balance drops by exactly the total taken back.
   */
  lemma RepairIsExact(ledger: seq<Row>, plans: Plans)
    ensures ledger <= Repaired(ledger, plans)
    ensures forall id: nat :: id < |ledger| ==>
      var due := ledger[id].entryType == ObPayment && ledger[id].fromInstallment && ledger[id].change != 0
        && ledger[id].installment.Some? && ledger[id].installment.value in plans
        && plans[ledger[id].installment.value].chargeScope
        && !plans[ledger[id].installment.value].settlesOutstandingBalance
        && !AlreadyReversed(ledger, id);
      ReversalCount(Repaired(ledger, plans), id) == if due then 1 else ReversalCount(ledger, id)
    ensures forall k :: 0 <= k < |ToReverse(ledger, plans)| ==> ToReverse(ledger, plans)[k] < |ledger|
    ensures forall p: Pair ::
      Balance(Repaired(ledger, plans), p) == Balance(ledger, p) - TotalOf(ledger, ToReverse(ledger, plans), p)
  {
    var all := ToReverse(ledger, plans);
    ToReverseMeans(ledger, plans);
    ToReverseInLedger(ledger, plans);
    WrittenMeans(ledger, all);
    forall id: nat | id < |ledger|
      ensures var due := Due(ledger, plans, id) && ledger[id].change != 0;
        ReversalCount(Repaired(ledger, plans), id) == if due then 1 else ReversalCount(ledger, id)
    {
      WrittenCounts(ledger, all, id);
      if !AlreadyReversed(ledger, id) { CountZero(ledger, id); }
    }
    forall p: Pair
      ensures Balance(Repaired(ledger, plans), p) == Balance(ledger, p) - TotalOf(ledger, all, p)
    {
      WrittenLowersBalance(ledger, all, p);
    }
  }

  // ---------------------------------------------------------------------
  // The refresh at the end
  // ---------------------------------------------------------------------

  /** The pairs whose invoice totals a run re-derives once all its writes are done. */
  function Affected(ledger: seq<Row>, plans: Plans): set<Pair> {
    ToReverseInLedger(ledger, plans);
    set k | 0 <= k < |ToReverse(ledger, plans)| :: ledger[ToReverse(ledger, plans)[k]].pair
  }

  lemma AffectedMeans(ledger: seq<Row>, plans: Plans, p: Pair)
    ensures p in Affected(ledger, plans) <==> exists id: nat :: Due(ledger, plans, id) && ledger[id].pair == p
  {
    var ids := ToReverse(ledger, plans);
    ToReverseMeans(ledger, plans);
    ToReverseInLedger(ledger, plans);
    if p in Affected(ledger, plans) {
      var k :| 0 <= k < |ids| && ledger[ids[k]].pair == p;
      assert ids[k] in ids;
    }
    if id: nat :| Due(ledger, plans, id) && ledger[id].pair == p {
      assert id in ids;
      var k :| 0 <= k < |ids| && ids[k] == id;
      assert ledger[ids[k]].pair == p;
    }
  }

  /** What a run counts and refreshes, by the fields of rows and plans. */
  lemma RunByFields(ledger: seq<Row>, plans: Plans, id: nat)
    ensures Increasing(ToReverse(ledger, plans))
    ensures id in ToReverse(ledger, plans) <==>
      (id < |ledger| && ledger[id].entryType == ObPayment && ledger[id].fromInstallment
       && ledger[id].installment.Some? && ledger[id].installment.value in plans
       && plans[ledger[id].installment.value].chargeScope
       && !plans[ledger[id].installment.value].settlesOutstandingBalance
       && forall k :: 0 <= k < |ledger| && ledger[k].entryType == ObCharge && ledger[k].fromInstallment
            ==> ledger[k].reverses != Some(id))
    ensures forall p: Pair :: p in Affected(ledger, plans) <==>
      exists due: nat :: due in ToReverse(ledger, plans) && due < |ledger| && ledger[due].pair == p
  {
    ToReverseMeans(ledger, plans);
    ToReverseInLedger(ledger, plans);
    forall p: Pair
      ensures p in Affected(ledger, plans) <==>
        exists due: nat :: due in ToReverse(ledger, plans) && due < |ledger| && ledger[due].pair == p
    {
      AffectedMeans(ledger, plans, p);
    }
  }

  lemma StillDue(ledger: seq<Row>, plans: Plans, ids: seq<nat>, id: nat)
    requires forall k :: 0 <= k < |ids| ==> ids[k] < |ledger|
    ensures var longer := Written(ledger, ids);
      && (Due(longer, plans, id) <==> Due(ledger, plans, id) && !(id in ids && ledger[id].change != 0))
      && (id < |ledger| ==> id < |longer| && longer[id] == ledger[id])
  {
    WrittenMeans(ledger, ids);
    var longer := Written(ledger, ids);
    if |ledger| <= id < |longer| { assert longer[id].entryType == ObCharge; }
  }

  /**
   * A run stopped after `n` writes refreshed nobody, and the run that completes
   * it refreshes a pair exactly if one of its phantoms was still to be written
   * or is zero: pairs already written in full are never refreshed.
   */
  lemma ResumedRefreshIff(ledger: seq<Row>, plans: Plans, n: nat, p: Pair)
    requires n <= |ToReverse(ledger, plans)|
    ensures forall k :: 0 <= k < |ToReverse(ledger, plans)| ==> ToReverse(ledger, plans)[k] < |ledger|
    ensures p in Affected(CutShort(ledger, plans, n), plans)
      <==> exists k :: 0 <= k < |ToReverse(ledger, plans)| && ledger[ToReverse(ledger, plans)[k]].pair == p
                       && (k >= n || ledger[ToReverse(ledger, plans)[k]].change == 0)
  {
    var all := ToReverse(ledger, plans);
    var longer := CutShort(ledger, plans, n);
    ToReverseMeans(ledger, plans);
    ToReverseInLedger(ledger, plans);
    AffectedMeans(longer, plans, p);
    forall id: nat
      ensures Due(longer, plans, id) <==> Due(ledger, plans, id) && !(id in all[..n] && ledger[id].change != 0)
      ensures id < |ledger| ==> id < |longer| && longer[id] == ledger[id]
    {
      StillDue(ledger, plans, all[..n], id);
    }
    if id: nat :| Due(longer, plans, id) && longer[id].pair == p {
      assert id in all;
      var k :| 0 <= k < |all| && all[k] == id;
      if k < n { assert all[..n][k] == id; }
      assert ledger[all[k]].pair == p;
    }
    if k :| 0 <= k < |all| && ledger[all[k]].pair == p && (k >= n || ledger[all[k]].change == 0) {
      assert all[k] in all;
      if k >= n { NotEarlier(all, n, k); }
      assert Due(longer, plans, all[k]);
    }
  }

  lemma NotEarlier(ids: seq<nat>, n: nat, k: nat)
    requires Increasing(ids) && n <= k < |ids|
    ensures ids[k] !in ids[..n]
  {
  }

  // ---------------------------------------------------------------------
  // The script
  // ---------------------------------------------------------------------

  /** The first `n` rows of one class. */
  function OfClass(ledger: seq<Row>, plans: Plans, n: nat, c: Class): set<nat>
    requires n <= |ledger|
  {
    set id: nat | id < n && Classify(ledger[id], plans) == c
  }

  lemma OneMoreOfClass(ledger: seq<Row>, plans: Plans, n: nat, c: Class)
    requires n < |ledger|
    ensures |OfClass(ledger, plans, n + 1, c)|
      == |OfClass(ledger, plans, n, c)| + if Classify(ledger[n], plans) == c then 1 else 0
  {
    var before := OfClass(ledger, plans, n, c);
    if Classify(ledger[n], plans) == c {
      assert OfClass(ledger, plans, n + 1, c) == before + {n};
    } else {
      assert OfClass(ledger, plans, n + 1, c) == before;
    }
  }

  lemma ClassesMean(ledger: seq<Row>, plans: Plans)
    ensures OfClass(ledger, plans, |ledger|, Legitimate)
      == set id: nat | id < |ledger|
           && ledger[id].entryType == ObPayment && ledger[id].fromInstallment
           && ledger[id].installment.Some? && ledger[id].installment.value in plans
           && (plans[ledger[id].installment.value].chargeScope
               ==> plans[ledger[id].installment.value].settlesOutstandingBalance)
    ensures OfClass(ledger, plans, |ledger|, Orphaned)
      == set id: nat | id < |ledger|
           && ledger[id].entryType == ObPayment && ledger[id].fromInstallment
           && (ledger[id].installment.Some? ==> ledger[id].installment.value !in plans)
  {
  }

  class RepairScript {
    var ledger: seq<Row>
    const plans: Plans

    constructor (ledger: seq<Row>, plans: Plans)
      ensures this.ledger == ledger && this.plans == plans
    {
      this.ledger, this.plans := ledger, plans;
    }

    /** The classification loop and its three counts. */
    method ClassifyCredits() returns (phantoms: seq<nat>, legitimate: nat, orphaned: nat)
      ensures phantoms == PhantomIds(ledger, plans) && Increasing(phantoms)
      ensures forall id: nat :: id in phantoms <==>
        (id < |ledger| && ledger[id].entryType == ObPayment && ledger[id].fromInstallment
         && ledger[id].installment.Some? && ledger[id].installment.value in plans
         && plans[ledger[id].installment.value].chargeScope
         && !plans[ledger[id].installment.value].settlesOutstandingBalance)
      ensures legitimate == |set id: nat | id < |ledger|
          && ledger[id].entryType == ObPayment && ledger[id].fromInstallment
          && ledger[id].installment.Some? && ledger[id].installment.value in plans
          && (plans[ledger[id].installment.value].chargeScope
              ==> plans[ledger[id].installment.value].settlesOutstandingBalance)|
      ensures orphaned == |set id: nat | id < |ledger|
          && ledger[id].entryType == ObPayment && ledger[id].fromInstallment
          && (ledger[id].installment.Some? ==> ledger[id].installment.value !in plans)|
    {
      phantoms, legitimate, orphaned := [], 0, 0;
      for i := 0 to |ledger|
        invariant phantoms == PhantomIds(ledger[..i], plans)
        invariant legitimate == |OfClass(ledger, plans, i, Legitimate)|
        invariant orphaned == |OfClass(ledger, plans, i, Orphaned)|
      {
        OneMoreOfClass(ledger, plans, i, Legitimate);
        OneMoreOfClass(ledger, plans, i, Orphaned);
        assert ledger[..i + 1][..i] == ledger[..i];
        var row := ledger[i];
        if row.entryType != ObPayment || !row.fromInstallment { continue; }
        if row.installment.None? || row.installment.value !in plans {
          orphaned := orphaned + 1;
          continue;
        }
        var plan := plans[row.installment.value];
        if !(plan.chargeScope && !plan.settlesOutstandingBalance) {
          legitimate := legitimate + 1;
          continue;
        }
        phantoms := phantoms + [i];
      }
      assert ledger[..|ledger|] == ledger;
      PhantomIdsMean(ledger, plans);
      ClassesMean(ledger, plans);
    }

    /** Classify, drop what an earlier run reversed, write and refresh, unless this is a dry run. */
    method Repair(apply: bool) returns (reversed: nat, refreshed: set<Pair>)
      modifies this
      ensures ledger == if apply then Repaired(old(ledger), plans) else old(ledger)
      ensures reversed == if apply then |ToReverse(old(ledger), plans)| else 0
      ensures refreshed == if apply then Affected(old(ledger), plans) else {}
    {
      var phantoms, legitimate, orphaned := ClassifyCredits();
      var toReverse := Unreversed(phantoms, ledger);
      ToReverseInLedger(ledger, plans);
      if !apply { return 0, {}; }
      ghost var was := ledger;
      assert toReverse == ToReverse(was, plans);
      assert forall k :: 0 <= k < |toReverse| ==> toReverse[k] < |was|;
      refreshed := set k | 0 <= k < |toReverse| :: ledger[toReverse[k]].pair;
      for i := 0 to |toReverse|
        invariant was <= ledger && ledger == Written(was, toReverse[..i])
      {
        assert toReverse[..i + 1][..i] == toReverse[..i];
        var id := toReverse[i];
        var row := ledger[id];
        assert row == was[id];
        if row.change != 0 {
          ledger := ledger + [Row(row.pair, ObCharge, -row.change, true, row.installment, Some(id))];
        }
      }
      assert toReverse[..|toReverse|] == toReverse;
      reversed := |toReverse|;
    }
  }
}
