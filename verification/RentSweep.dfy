/**
 * The expiry sweep taken apart: a sweep looks for an earlier charge of the
 * letter and then debits its fees one by one, with nothing holding other sweeps
 * off in between.
 */
module RentSweep {
  import opened Options
  import opened RentDates
  import opened RentFees
  import opened RentRenewal
  import opened RentBook

  /** One sweep over the letter; `next` is the first fee it has not debited. */
  datatype Phase = Skipped | Charging(next: nat) | Stopped(next: nat) | Charged

  /** The wallet, what was charged to it for the letter, and every sweep so far. */
  datatype Sweeps = Sweeps(wallet: int, own: int, passes: seq<Phase>)

  /** A check comes out `eligible` unless the letter, its period or the date rules a charge out. */
  datatype Event = Check(eligible: bool) | Debit(pass: nat) | Stop(pass: nat)

  /** The check that lets a sweep go on to its debits. */
  predicate Passes(fees: seq<Fee>, s: Sweeps, e: Event) {
    e.Check? && e.eligible && s.own <= 0 && fees != []
  }

  function Step(fees: seq<Fee>, s: Sweeps, e: Event): Sweeps {
    match e
    case Check(_) => s.(passes := s.passes + [if Passes(fees, s, e) then Charging(0) else Skipped])
    case Debit(p) =>
      if p >= |s.passes| || !s.passes[p].Charging? || s.passes[p].next >= |fees| then s
      else
        var k := s.passes[p].next;
        Sweeps(s.wallet - fees[k].amount, s.own + fees[k].amount,
               s.passes[p := if k + 1 == |fees| then Charged else Charging(k + 1)])
    case Stop(p) =>
      if p >= |s.passes| || !s.passes[p].Charging? then s else s.(passes := s.passes[p := Stopped(s.passes[p].next)])
  }

  function Run(fees: seq<Fee>, wallet: int, es: seq<Event>): Sweeps {
    if es == [] then Sweeps(wallet, 0, []) else Step(fees, Run(fees, wallet, es[..|es| - 1]), es[|es| - 1])
  }

  /** No sweep passes its check once another has. */
  predicate NoSecondPass(fees: seq<Fee>, wallet: int, es: seq<Event>) {
    es == []
    || (var n := |es| - 1;
        var before := Run(fees, wallet, es[..n]);
        NoSecondPass(fees, wallet, es[..n]) && (Passes(fees, before, es[n]) ==> PassCount(before.passes) == 0))
  }

  function PassCount(passes: seq<Phase>): nat {
    if passes == [] then 0
    else PassCount(passes[..|passes| - 1]) + if passes[|passes| - 1].Skipped? then 0 else 1
  }

  /** Every sweep that passed its check has debited every fee. */
  predicate AllFinished(passes: seq<Phase>) {
    forall p :: 0 <= p < |passes| ==> passes[p].Skipped? || passes[p].Charged?
  }

  predicate AllPositive(fees: seq<Fee>) {
    forall k :: 0 <= k < |fees| ==> fees[k].amount > 0
  }

  /** What one sweep has debited. */
  function Posted(fees: seq<Fee>, p: Phase): int {
    match p
    case Skipped => 0
    case Charging(k) => if k <= |fees| then SumAll(fees[..k]) else 0
    case Stopped(k) => if k <= |fees| then SumAll(fees[..k]) else 0
    case Charged => SumAll(fees)
  }

  function PostedByAll(fees: seq<Fee>, passes: seq<Phase>): int {
    if passes == [] then 0
    else PostedByAll(fees, passes[..|passes| - 1]) + Posted(fees, passes[|passes| - 1])
  }

  // ---------------------------------------------------------------------
  // Adding up
  // ---------------------------------------------------------------------

  lemma {:induction false} PrefixSums(fees: seq<Fee>, k: nat)
    requires AllPositive(fees) && k <= |fees|
    ensures 0 <= SumAll(fees[..k]) <= SumAll(fees)
    ensures k > 0 ==> SumAll(fees[..k]) > 0
    decreases |fees|
  {
    if k == |fees| {
      assert fees[..k] == fees;
      if k > 0 { PrefixSums(fees[..k - 1], k - 1); }
    } else {
      var n := |fees| - 1;
      PrefixSums(fees[..n], k);
      assert fees[..n][..k] == fees[..k];
      assert fees[n].amount > 0;
    }
  }

  lemma NextSum(fees: seq<Fee>, k: nat)
    requires k < |fees|
    ensures SumAll(fees[..k + 1]) == SumAll(fees[..k]) + fees[k].amount
  {
    assert fees[..k + 1][..k] == fees[..k];
  }

  lemma {:induction false} UpdatePass(fees: seq<Fee>, passes: seq<Phase>, p: nat, phase: Phase)
    requires p < |passes|
    ensures PostedByAll(fees, passes[p := phase])
      == PostedByAll(fees, passes) - Posted(fees, passes[p]) + Posted(fees, phase)
    ensures PassCount(passes[p := phase])
      == PassCount(passes) - (if passes[p].Skipped? then 0 else 1) + (if phase.Skipped? then 0 else 1)
  {
    var n := |passes| - 1;
    if p == n {
      assert passes[p := phase][..n] == passes[..n];
    } else {
      UpdatePass(fees, passes[..n], p, phase);
      assert passes[p := phase][..n] == passes[..n][p := phase];
    }
  }

  lemma AddPass(fees: seq<Fee>, passes: seq<Phase>, phase: Phase)
    ensures PostedByAll(fees, passes + [phase]) == PostedByAll(fees, passes) + Posted(fees, phase)
    ensures PassCount(passes + [phase]) == PassCount(passes) + if phase.Skipped? then 0 else 1
  {
    assert (passes + [phase])[..|passes|] == passes;
  }

  /** The wallet gave up what was charged, and that is what the sweeps have debited. */
  ghost predicate Right(fees: seq<Fee>, wallet: int, s: Sweeps) {
    && s.wallet + s.own == wallet
    && s.own == PostedByAll(fees, s.passes)
    && forall p :: 0 <= p < |s.passes| && s.passes[p].Charging? ==> s.passes[p].next < |fees|
  }

  lemma DebitPosts(fees: seq<Fee>, k: nat)
    requires k < |fees|
    ensures Posted(fees, if k + 1 == |fees| then Charged else Charging(k + 1))
      == Posted(fees, Charging(k)) + fees[k].amount
  {
    NextSum(fees, k);
    assert fees[..|fees|] == fees;
  }

  lemma StepKeepsRight(fees: seq<Fee>, wallet: int, s: Sweeps, e: Event)
    requires Right(fees, wallet, s)
    ensures Right(fees, wallet, Step(fees, s, e))
  {
    match e
    case Check(_) =>
      assert fees[..0] == [];
      AddPass(fees, s.passes, if Passes(fees, s, e) then Charging(0) else Skipped);
    case Debit(p) =>
      if p < |s.passes| && s.passes[p].Charging? {
        var k := s.passes[p].next;
        DebitPosts(fees, k);
        UpdatePass(fees, s.passes, p, if k + 1 == |fees| then Charged else Charging(k + 1));
      }
    case Stop(p) =>
      if p < |s.passes| && s.passes[p].Charging? { UpdatePass(fees, s.passes, p, Stopped(s.passes[p].next)); }
  }

  lemma {:induction false} RightOverRuns(fees: seq<Fee>, wallet: int, es: seq<Event>)
    ensures Right(fees, wallet, Run(fees, wallet, es))
  {
    if es != [] {
      RightOverRuns(fees, wallet, es[..|es| - 1]);
      StepKeepsRight(fees, wallet, Run(fees, wallet, es[..|es| - 1]), es[|es| - 1]);
    }
  }

  // ---------------------------------------------------------------------
  // How much is charged
  // ---------------------------------------------------------------------

  lemma PostedAtMostBill(fees: seq<Fee>, p: Phase)
    requires AllPositive(fees)
    ensures 0 <= Posted(fees, p) <= SumAll(fees) && (p.Skipped? ==> Posted(fees, p) == 0)
  {
    PrefixSums(fees, |fees|);
    assert fees[..|fees|] == fees;
    if p.Charging? && p.next <= |fees| { PrefixSums(fees, p.next); }
    if p.Stopped? && p.next <= |fees| { PrefixSums(fees, p.next); }
  }

  lemma {:induction false} OnePassPostsAtMostBill(fees: seq<Fee>, passes: seq<Phase>)
    requires AllPositive(fees) && PassCount(passes) <= 1
    ensures 0 <= PostedByAll(fees, passes) <= SumAll(fees)
    ensures PassCount(passes) == 0 ==> PostedByAll(fees, passes) == 0
  {
    PostedAtMostBill(fees, Skipped);
    if passes != [] {
      PostedAtMostBill(fees, passes[|passes| - 1]);
      OnePassPostsAtMostBill(fees, passes[..|passes| - 1]);
    }
  }

  lemma {:induction false} FinishedPassesPost(fees: seq<Fee>, passes: seq<Phase>)
    requires AllFinished(passes)
    ensures PostedByAll(fees, passes) == PassCount(passes) * SumAll(fees)
  {
    if passes != [] {
      var n := |passes| - 1;
      FinishedPassesPost(fees, passes[..n]);
      OneTimeMore(PassCount(passes[..n]), SumAll(fees));
    }
  }

  lemma OneTimeMore(k: nat, x: int)
    ensures (k + 1) * x == k * x + x
  {
  }

  lemma PassesOfStep(fees: seq<Fee>, s: Sweeps, e: Event)
    ensures PassCount(Step(fees, s, e).passes) == PassCount(s.passes) + if Passes(fees, s, e) then 1 else 0
  {
    match e
    case Check(_) => AddPass(fees, s.passes, if Passes(fees, s, e) then Charging(0) else Skipped);
    case Debit(p) =>
      if p < |s.passes| && s.passes[p].Charging? && s.passes[p].next < |fees| {
        var k := s.passes[p].next;
        UpdatePass(fees, s.passes, p, if k + 1 == |fees| then Charged else Charging(k + 1));
      }
    case Stop(p) =>
      if p < |s.passes| && s.passes[p].Charging? { UpdatePass(fees, s.passes, p, Stopped(s.passes[p].next)); }
  }

  lemma {:induction false} NoSecondPassMeansOne(fees: seq<Fee>, wallet: int, es: seq<Event>)
    ensures NoSecondPass(fees, wallet, es) <==> PassCount(Run(fees, wallet, es).passes) <= 1
  {
    if es != [] {
      var n := |es| - 1;
      NoSecondPassMeansOne(fees, wallet, es[..n]);
      PassesOfStep(fees, Run(fees, wallet, es[..n]), es[n]);
    }
  }

  /**
   * Where no second sweep passes its check, the letter is never charged more
   * than it bills, however the steps interleave and whichever sweeps are cut
   * short.
   */
  lemma OnePassChargesAtMostBill(fees: seq<Fee>, wallet: int, es: seq<Event>)
    requires AllPositive(fees) && NoSecondPass(fees, wallet, es)
    ensures 0 <= Run(fees, wallet, es).own <= SumAll(fees)
  {
    RightOverRuns(fees, wallet, es);
    NoSecondPassMeansOne(fees, wallet, es);
    OnePassPostsAtMostBill(fees, Run(fees, wallet, es).passes);
  }

  lemma AtMostOnce(k: nat, x: int)
    requires x > 0
    ensures k * x <= x <==> k <= 1
  {
    if k > 1 { assert (k - 1) * x > 0; }
  }

  /** When every sweep that passed has finished, it is charged at most its bill exactly if no second one passed. */
  lemma ChargedAtMostBillIff(fees: seq<Fee>, wallet: int, es: seq<Event>)
    requires AllPositive(fees) && fees != [] && AllFinished(Run(fees, wallet, es).passes)
    ensures Run(fees, wallet, es).own <= SumAll(fees) <==> NoSecondPass(fees, wallet, es)
    ensures Run(fees, wallet, es).own == PassCount(Run(fees, wallet, es).passes) * SumAll(fees)
  {
    var s := Run(fees, wallet, es);
    RightOverRuns(fees, wallet, es);
    FinishedPassesPost(fees, s.passes);
    NoSecondPassMeansOne(fees, wallet, es);
    PrefixSums(fees, |fees|);
    assert fees[..|fees|] == fees;
    AtMostOnce(PassCount(s.passes), SumAll(fees));
  }

  lemma {:induction false} DebitedIsCharged(fees: seq<Fee>, passes: seq<Phase>, p: nat)
    requires AllPositive(fees) && p < |passes|
    ensures PostedByAll(fees, passes) >= Posted(fees, passes[p])
  {
    var n := |passes| - 1;
    PostedAtMostBill(fees, passes[n]);
    if p < n {
      DebitedIsCharged(fees, passes[..n], p);
    } else {
      PostedNotNegative(fees, passes[..n]);
    }
  }

  lemma {:induction false} PostedNotNegative(fees: seq<Fee>, passes: seq<Phase>)
    requires AllPositive(fees)
    ensures PostedByAll(fees, passes) >= 0
  {
    if passes != [] {
      PostedAtMostBill(fees, passes[|passes| - 1]);
      PostedNotNegative(fees, passes[..|passes| - 1]);
    }
  }

  /** A second sweep can only pass before the first one's first debit. */
  lemma SecondPassComesBeforeDebits(fees: seq<Fee>, wallet: int, es: seq<Event>, e: Event, p: nat)
    requires AllPositive(fees) && Passes(fees, Run(fees, wallet, es), e) && p < |Run(fees, wallet, es).passes|
    ensures var phase := Run(fees, wallet, es).passes[p];
      phase.Skipped? || phase == Charging(0) || phase.Stopped?
  {
    var s := Run(fees, wallet, es);
    RightOverRuns(fees, wallet, es);
    DebitedIsCharged(fees, s.passes, p);
    PrefixSums(fees, |fees|);
    assert fees[..|fees|] == fees;
    if s.passes[p].Charging? { PrefixSums(fees, s.passes[p].next); }
  }

  /** Once something was charged and no sweep is still at work, nothing is ever charged again. */
  lemma {:induction false} CutShortStaysShort(fees: seq<Fee>, s: Sweeps, more: seq<Event>)
    requires s.own > 0 && forall p :: 0 <= p < |s.passes| ==> !s.passes[p].Charging?
    ensures var later := RunFrom(fees, s, more);
      && later.own == s.own && later.wallet == s.wallet
      && forall p :: 0 <= p < |later.passes| ==> !later.passes[p].Charging?
  {
    if more != [] { CutShortStaysShort(fees, s, more[..|more| - 1]); }
  }

  function RunFrom(fees: seq<Fee>, s: Sweeps, more: seq<Event>): Sweeps {
    if more == [] then s else Step(fees, RunFrom(fees, s, more[..|more| - 1]), more[|more| - 1])
  }

  // ---------------------------------------------------------------------
  // One sweep without interruption
  // ---------------------------------------------------------------------

  function Debits(p: nat, n: nat): seq<Event> { if n == 0 then [] else Debits(p, n - 1) + [Debit(p)] }

  /** The sweep `p` with its first `n` fees debited. */
  function Debited(fees: seq<Fee>, s: Sweeps, p: nat, n: nat): Sweeps
    requires p < |s.passes| && n <= |fees|
  {
    Sweeps(s.wallet - SumAll(fees[..n]), s.own + SumAll(fees[..n]),
           s.passes[p := if n == |fees| then Charged else Charging(n)])
  }

  lemma DebitOne(fees: seq<Fee>, s: Sweeps, p: nat, n: nat)
    requires p < |s.passes| && n < |fees|
    ensures Step(fees, Debited(fees, s, p, n), Debit(p)) == Debited(fees, s, p, n + 1)
  {
    NextSum(fees, n);
  }

  lemma DebitsOfMore(fees: seq<Fee>, s: Sweeps, p: nat, n: nat)
    ensures RunFrom(fees, s, Debits(p, n + 1)) == Step(fees, RunFrom(fees, s, Debits(p, n)), Debit(p))
  {
    assert Debits(p, n + 1)[..|Debits(p, n)|] == Debits(p, n);
  }

  lemma {:induction false} DebitsPost(fees: seq<Fee>, s: Sweeps, p: nat, n: nat)
    requires p < |s.passes| && s.passes[p] == Charging(0) && n <= |fees| && 0 < |fees|
    ensures RunFrom(fees, s, Debits(p, n)) == Debited(fees, s, p, n)
  {
    if n == 0 {
      assert fees[..0] == [];
      assert Debited(fees, s, p, 0) == s;
    } else {
      DebitsPost(fees, s, p, n - 1);
      DebitsOfMore(fees, s, p, n - 1);
      DebitOne(fees, s, p, n - 1);
    }
  }

  /** A check with its debits right behind it. */
  lemma CheckAndDebits(fees: seq<Fee>, s: Sweeps, eligible: bool)
    ensures var later := RunFrom(fees, Step(fees, s, Check(eligible)), Debits(|s.passes|, |fees|));
      var bill := if Passes(fees, s, Check(eligible)) then SumAll(fees) else 0;
      later.own == s.own + bill && later.wallet == s.wallet - bill
  {
    var checked := Step(fees, s, Check(eligible));
    if Passes(fees, s, Check(eligible)) {
      DebitsPost(fees, checked, |s.passes|, |fees|);
      assert fees[..|fees|] == fees;
    } else {
      SkippedDebits(fees, checked, |s.passes|, |fees|);
    }
  }

  /** What rules a charge out besides an earlier one. */
  predicate Eligible(l: Letter, expiry: Date, today: Date, periodBilled: bool) {
    l.status == Accepted && !Before(today, expiry) && l.unpaid && !periodBilled
  }

  lemma ChargeLetterCharges(l: Letter, expiry: Date, wallet: int, today: Date, periodBilled: bool)
    ensures var (charged, left) := ChargeLetter(l, expiry, wallet, today, periodBilled);
      var bill := if Eligible(l, expiry, today, periodBilled) && l.ownCharge <= 0 && LetterToFees(l.terms) != []
                  then Bill(l.terms) else 0;
      charged.ownCharge == l.ownCharge + bill && left == wallet - bill
  {
  }

  /** A sweep that nothing interrupts charges the letter as `ChargeLetter` does. */
  lemma UninterruptedSweep(l: Letter, expiry: Date, wallet: int, today: Date, periodBilled: bool, passes: seq<Phase>)
    ensures var fees := LetterToFees(l.terms);
      var start := Sweeps(wallet, l.ownCharge, passes);
      var checked := Step(fees, start, Check(Eligible(l, expiry, today, periodBilled)));
      var later := RunFrom(fees, checked, Debits(|passes|, |fees|));
      var (charged, left) := ChargeLetter(l, expiry, wallet, today, periodBilled);
      later.own == charged.ownCharge && later.wallet == left
  {
    BillIsSum(l.terms);
    ChargeLetterCharges(l, expiry, wallet, today, periodBilled);
    CheckAndDebits(LetterToFees(l.terms), Sweeps(wallet, l.ownCharge, passes),
                   Eligible(l, expiry, today, periodBilled));
  }

  lemma {:induction false} SkippedDebits(fees: seq<Fee>, s: Sweeps, p: nat, n: nat)
    requires p < |s.passes| && s.passes[p].Skipped?
    ensures RunFrom(fees, s, Debits(p, n)) == s
  {
    if n > 0 {
      SkippedDebits(fees, s, p, n - 1);
      assert Debits(p, n)[..|Debits(p, n)| - 1] == Debits(p, n - 1);
    }
  }

  // ---------------------------------------------------------------------
  // What the renewal makes of it
  // ---------------------------------------------------------------------

  lemma {:induction false} LetterFeesPositive(fees: seq<Fee>)
    ensures AllPositive(PositiveOnly(fees))
  {
    if fees != [] { LetterFeesPositive(fees[..|fees| - 1]); }
  }

  lemma BilledFeesPositive(l: Terms)
    ensures AllPositive(LetterToFees(l))
  {
    LetterFeesPositive(l.breakdown);
    LetterFeesPositive(LegacyFees(l) + l.other);
  }

  /** Where no second sweep passes its check, the swept letter never rolls its tenancy forward into debt. */
  lemma SweptOnceMakesNoDebt(l: Letter, r: RentRow, wallet: int, es: seq<Event>, today: Date, k: nat)
    requires NoSecondPass(LetterToFees(l.terms), wallet, es) && k > 0
    requires var s := Run(LetterToFees(l.terms), wallet, es);
      s.own >= 0 && WellFormed(TenancyOf(r, s.wallet, Some(l.(ownCharge := s.own))))
      && CoveredSoFar(TenancyOf(r, s.wallet, Some(l.(ownCharge := s.own))), today, k)
    ensures var s := Run(LetterToFees(l.terms), wallet, es);
      var t := TenancyOf(r, s.wallet, Some(l.(ownCharge := s.own)));
      After(t, k).wallet >= 0 && After(t, k).rent.paid
  {
    var fees := LetterToFees(l.terms);
    var s := Run(fees, wallet, es);
    BilledFeesPositive(l.terms);
    OnePassChargesAtMostBill(fees, wallet, es);
    BillIsSum(l.terms);
    NoDebtWhenChargedAsBilled(TenancyOf(r, s.wallet, Some(l.(ownCharge := s.own))), today, k);
  }

  /** Two sweeps on the expiry day that both look before either debits. */
  const TWO_SWEEPS: seq<Event> :=
    [Check(true), Check(true), Debit(0), Debit(1), Debit(0), Debit(1)]

  lemma TwoSweepsCharge(a: Fee, b: Fee, wallet: int)
    ensures Run([a] + [b], wallet, TWO_SWEEPS)
      == Sweeps(wallet - 2 * (a.amount + b.amount), 2 * (a.amount + b.amount), [Charged, Charged])
  {
    var fees, es := [a] + [b], TWO_SWEEPS;
    assert es[..6] == es && es[..6][..5] == es[..5] && es[..5][..4] == es[..4] && es[..4][..3] == es[..3];
    assert es[..3][..2] == es[..2] && es[..2][..1] == es[..1] && es[..1][..0] == [];
    var s0 := Run(fees, wallet, []);
    var s1 := Step(fees, s0, es[0]);
    assert Run(fees, wallet, es[..1]) == s1 && s1 == Sweeps(wallet, 0, [Charging(0)]);
    var s2 := Step(fees, s1, es[1]);
    assert Run(fees, wallet, es[..2]) == s2 && s2 == Sweeps(wallet, 0, [Charging(0), Charging(0)]);
    var s3 := Step(fees, s2, es[2]);
    assert Run(fees, wallet, es[..3]) == s3;
    assert s3 == Sweeps(wallet - a.amount, a.amount, [Charging(1), Charging(0)]);
    var s4 := Step(fees, s3, es[3]);
    assert Run(fees, wallet, es[..4]) == s4;
    assert s4 == Sweeps(wallet - 2 * a.amount, 2 * a.amount, [Charging(1), Charging(1)]);
    var s5 := Step(fees, s4, es[4]);
    assert Run(fees, wallet, es[..5]) == s5;
    assert s5 == Sweeps(wallet - 2 * a.amount - b.amount, 2 * a.amount + b.amount, [Charged, Charging(1)]);
    assert Run(fees, wallet, es) == Step(fees, s5, es[5]);
  }

  /**
   * With a hundred and fifty naira of credit for a letter of a hundred: charged
   * twice, and the next run rolls the tenancy forward with fifty owing.
   */
  lemma TwoSweepsRenewInDebt()
    ensures var today := Date(24300, 1);
      var s := Run([RENT] + [DIESEL], 15000, TWO_SWEEPS);
      && s.wallet == -5000 && s.own == 20000
      && var t := TenancyOf(RENT_ROW, s.wallet, Some(LETTER_WITH_DIESEL.(ownCharge := 20000)));
         && PeriodCharge(t) == 10000 && WellFormed(t) && Advances(t, today)
         && Renew(t).wallet == -5000 && !Renew(t).rent.paid
  {
    TwoSweepsCharge(RENT, DIESEL, 15000);
    TwoFees(RENT, DIESEL);
  }

  /** A sweep cut short after the rent has charged eighty of a hundred naira. */
  lemma CutShortSweepChargesPart()
    ensures var s := Run([RENT] + [DIESEL], 15000, [Check(true), Debit(0), Stop(0)]);
      s == Sweeps(7000, 8000, [Stopped(1)])
  {
    var fees, es := [RENT] + [DIESEL], [Check(true), Debit(0), Stop(0)];
    assert es[..2] == es[..|es| - 1] && es[..2][..1] == es[..1] && es[..1][..0] == [];
    assert Run(fees, 15000, es[..1]) == Sweeps(15000, 0, [Charging(0)]);
    assert Run(fees, 15000, es[..2]) == Sweeps(7000, 8000, [Charging(1)]);
  }
}
