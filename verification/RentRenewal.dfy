/**
 * Catching up an expired rent from wallet credit.
 *
 * The daily job rolls a tenancy forward one period at a time, and only while
 * the wallet fully pays the next period. Here a rent is known by its dates and
 * by what a period carried forward from it costs; `RentBook` has the rows.
 */
module RentRenewal {
  import opened Options
  import opened RentDates

  datatype Frequency = EveryMonths(months: nat) | CustomPeriod

  /** `charge` is the sum of the recurring fees. */
  datatype Rent = Rent(
    start: Date,
    expiry: Date,
    frequency: Frequency,
    charge: nat,
    active: bool,
    paid: bool)

  /**
   * A renewal letter: its period, what it bills for that period, the recurring
   * sum of the rent it makes, and what the wallet was already charged for it.
   */
  datatype Offer = Offer(start: Date, end: Date, frequency: Frequency, bill: nat, charge: nat, ownCharge: nat)

  /** The current rent, the wallet, and the letter still to be honoured. */
  datatype Tenancy = Tenancy(rent: Rent, wallet: int, letter: Option<Offer>)

  predicate ProperFrequency(f: Frequency) { f.EveryMonths? ==> f.months >= 1 }

  predicate WellFormed(t: Tenancy) {
    && Valid(t.rent.expiry) && ProperFrequency(t.rent.frequency)
    && (t.letter.Some? ==> Valid(t.letter.value.end) && ProperFrequency(t.letter.value.frequency))
  }

  function NextExpiry(start: Date, expiry: Date, frequency: Frequency): Date {
    AdvanceMonths(expiry, if frequency.EveryMonths? then frequency.months else CustomMonths(start, expiry))
  }

  function PeriodCharge(t: Tenancy): nat {
    if t.letter.Some? then t.letter.value.bill else t.rent.charge
  }

  function OwnCharge(t: Tenancy): nat {
    if t.letter.Some? then t.letter.value.ownCharge else 0
  }

  /** The gate before each period: what was already charged for it counts as credit. */
  predicate Covered(t: Tenancy) {
    PeriodCharge(t) - (t.wallet + OwnCharge(t)) <= 0
  }

  /** A period whose letter was already charged is not charged again. */
  function WalletAfter(t: Tenancy): int {
    if OwnCharge(t) > 0 then t.wallet else t.wallet - PeriodCharge(t)
  }

  function NextRent(t: Tenancy): Rent {
    var r := t.rent;
    match t.letter
    case Some(l) => Rent(l.start, l.end, l.frequency, l.charge, true, WalletAfter(t) >= 0)
    case None =>
      Rent(NextDay(r.expiry), NextExpiry(r.start, r.expiry, r.frequency), r.frequency, r.charge, true,
           WalletAfter(t) >= 0)
  }

  /** One period rolled forward; the letter serves once. */
  function Renew(t: Tenancy): Tenancy {
    Tenancy(NextRent(t), WalletAfter(t), None)
  }

  /** `k` periods rolled forward. */
  function After(t: Tenancy, k: nat): Tenancy {
    if k == 0 then t else Renew(After(t, k - 1))
  }

  predicate Expired(t: Tenancy, today: Date) { Before(t.rent.expiry, today) }

  predicate Advances(t: Tenancy, today: Date) { Expired(t, today) && Covered(t) }

  /** `k` periods is as far as credit reaches: every one was due and covered, and the next is not. */
  ghost predicate LongestCoveredPrefix(t: Tenancy, today: Date, k: nat) {
    && (forall i: nat :: i < k ==> Advances(After(t, i), today))
    && !Advances(After(t, k), today)
  }

  // ---------------------------------------------------------------------
  // Facts about one period
  // ---------------------------------------------------------------------

  lemma ExpiryMovesOn(start: Date, expiry: Date, frequency: Frequency)
    requires Valid(expiry) && ProperFrequency(frequency)
    ensures Valid(NextExpiry(start, expiry, frequency)) && NextExpiry(start, expiry, frequency).month > expiry.month
  {
    AdvanceClamps(expiry, if frequency.EveryMonths? then frequency.months else CustomMonths(start, expiry));
  }

  lemma RenewIsWellFormed(t: Tenancy)
    requires WellFormed(t)
    ensures WellFormed(Renew(t)) && Renew(t).letter.None?
  {
    ExpiryMovesOn(t.rent.start, t.rent.expiry, t.rent.frequency);
  }

  /** A period carried forward costs what the one before did, and ends in a later month. */
  lemma RenewCarried(t: Tenancy)
    requires WellFormed(t) && t.letter.None?
    ensures Renew(t).rent.charge == t.rent.charge && Renew(t).wallet == t.wallet - t.rent.charge
    ensures Renew(t).rent.expiry.month > t.rent.expiry.month
  {
    ExpiryMovesOn(t.rent.start, t.rent.expiry, t.rent.frequency);
  }

  lemma {:induction false} AfterFacts(t: Tenancy, k: nat)
    requires WellFormed(t)
    ensures WellFormed(After(t, k)) && (k > 0 ==> After(t, k).letter.None?)
  {
    if k > 0 {
      AfterFacts(t, k - 1);
      RenewIsWellFormed(After(t, k - 1));
    }
  }

  /** `k` periods at `charge` each, added up. */
  function Owed(k: nat, charge: nat): nat { if k == 0 then 0 else Owed(k - 1, charge) + charge }

  lemma {:induction false} OwedIsProduct(k: nat, charge: nat)
    ensures Owed(k, charge) == k * charge
  {
    if k > 0 { OwedIsProduct(k - 1, charge); }
  }

  lemma AfterIsRenewed(t: Tenancy, k: nat)
    requires k > 0
    ensures After(t, k) == Renew(After(t, k - 1)) && After(t, k).letter.None?
  {
  }

  predicate CarriedSoFar(t: Tenancy, start: int, k: nat, charge: nat) {
    WellFormed(t) && t.letter.None? && t.rent.charge == charge && t.wallet == start - Owed(k, charge)
  }

  lemma CarriedStep(t: Tenancy, next: Tenancy, start: int, k: nat, charge: nat)
    requires CarriedSoFar(t, start, k, charge) && next == Renew(t)
    ensures CarriedSoFar(next, start, k + 1, charge)
  {
    RenewIsWellFormed(t);
    RenewCarried(t);
  }

  /** Carried forward `k` periods, each costing the same. */
  lemma {:induction false} CarriedFacts(t: Tenancy, k: nat)
    requires WellFormed(t) && t.letter.None?
    ensures CarriedSoFar(After(t, k), t.wallet, k, t.rent.charge)
  {
    if k == 0 {
      assert After(t, 0) == t;
    } else {
      CarriedFacts(t, k - 1);
      AfterIsRenewed(t, k);
      CarriedStep(After(t, k - 1), After(t, k), t.wallet, k - 1, t.rent.charge);
    }
  }

  lemma {:induction false} AfterShift(t: Tenancy, k: nat)
    ensures After(Renew(t), k) == After(t, k + 1)
  {
    if k == 0 {
      assert After(t, 0) == t;
    } else {
      AfterShift(t, k - 1);
    }
  }

  /** There is only one such prefix. */
  lemma PrefixUnique(t: Tenancy, today: Date, j: nat, k: nat)
    requires LongestCoveredPrefix(t, today, j) && LongestCoveredPrefix(t, today, k)
    ensures j == k
  {
  }

  // ---------------------------------------------------------------------
  // Main results
  // ---------------------------------------------------------------------

  /** How many whole periods have gone by, paid for or not. */
  function Elapsed(t: Tenancy, today: Date): (n: nat)
    requires WellFormed(t) && t.letter.None?
    ensures !Expired(t, today) ==> n == 0
    decreases today.month + 1 - t.rent.expiry.month
  {
    if Expired(t, today) then
      RenewIsWellFormed(t);
      RenewCarried(t);
      1 + Elapsed(Renew(t), today)
    else 0
  }

  lemma ElapsedNext(t: Tenancy, today: Date)
    requires WellFormed(t) && t.letter.None? && Expired(t, today)
    ensures WellFormed(Renew(t)) && Renew(t).letter.None?
    ensures Renew(t).rent.expiry.month > t.rent.expiry.month
    ensures Elapsed(t, today) == 1 + Elapsed(Renew(t), today)
  {
    RenewIsWellFormed(t);
    RenewCarried(t);
  }

  lemma FirstIsExpired(t: Tenancy, today: Date)
    requires WellFormed(t) && t.letter.None?
    ensures Expired(t, today) <==> 0 < Elapsed(t, today)
  {
    if Expired(t, today) { ElapsedNext(t, today); }
  }

  lemma {:induction false} ElapsedCounts(t: Tenancy, today: Date, k: nat)
    requires WellFormed(t) && t.letter.None? && k <= Elapsed(t, today)
    ensures Expired(After(t, k), today) <==> k < Elapsed(t, today)
    decreases k
  {
    FirstIsExpired(t, today);
    if k > 0 {
      ElapsedNext(t, today);
      AfterShift(t, k - 1);
      ElapsedCounts(Renew(t), today, k - 1);
    }
  }

  function Affordable(wallet: int, charge: nat, periods: nat): nat {
    if charge == 0 then (if wallet >= 0 then periods else 0)
    else if wallet < 0 then 0
    else if wallet / charge < periods then wallet / charge
    else periods
  }

  lemma {:induction false} DivisionCounts(wallet: int, charge: nat, i: nat)
    requires charge > 0 && wallet >= 0
    ensures charge <= wallet - i * charge <==> i < wallet / charge
  {
    var q := wallet / charge;
    assert q * charge <= wallet < (q + 1) * charge;
    if i < q {
      assert (i + 1) * charge <= q * charge;
    } else {
      assert q * charge <= i * charge;
    }
  }

  lemma CarriedCovered(t: Tenancy, i: nat)
    requires WellFormed(t) && t.letter.None?
    ensures Covered(After(t, i)) <==> t.rent.charge <= t.wallet - i * t.rent.charge
  {
    CarriedFacts(t, i);
    OwedIsProduct(i, t.rent.charge);
  }

  lemma AffordableIsExact(wallet: int, charge: nat, periods: nat, i: nat)
    requires i <= Affordable(wallet, charge, periods)
    ensures i < Affordable(wallet, charge, periods) <==> i < periods && charge <= wallet - i * charge
  {
    if charge == 0 {
      assert i * charge == 0;
    } else if wallet >= 0 {
      DivisionCounts(wallet, charge, i);
    } else {
      assert i == 0 && i * charge == 0;
    }
  }

  /** Up to the answer, a carried period advances exactly if it is not the answer yet. */
  lemma CarriedAdvances(t: Tenancy, today: Date, i: nat)
    requires WellFormed(t) && t.letter.None?
    ensures var k := Affordable(t.wallet, t.rent.charge, Elapsed(t, today));
      i <= k ==> (Advances(After(t, i), today) <==> i < k)
  {
    if i <= Affordable(t.wallet, t.rent.charge, Elapsed(t, today)) {
      AffordableIsExact(t.wallet, t.rent.charge, Elapsed(t, today), i);
      CarriedCovered(t, i);
      ElapsedCounts(t, today, i);
    }
  }

  /**
   * Carried periods cost the same each time, so the loop's answer has a closed
   * form: the elapsed periods, or as many as the wallet divides into.
   */
  lemma {:induction false} CatchUpClosedForm(t: Tenancy, today: Date)
    requires WellFormed(t) && t.letter.None?
    ensures LongestCoveredPrefix(t, today, Affordable(t.wallet, t.rent.charge, Elapsed(t, today)))
    ensures var k := Affordable(t.wallet, t.rent.charge, Elapsed(t, today));
      After(t, k).wallet == t.wallet - k * t.rent.charge
  {
    var k := Affordable(t.wallet, t.rent.charge, Elapsed(t, today));
    forall i: nat | i < k ensures Advances(After(t, i), today) {
      CarriedAdvances(t, today, i);
    }
    CarriedAdvances(t, today, k);
    CarriedFacts(t, k);
    OwedIsProduct(k, t.rent.charge);
  }

  lemma OneMorePeriod(t: Tenancy, today: Date, m: nat)
    requires Advances(t, today) && LongestCoveredPrefix(Renew(t), today, m)
    ensures LongestCoveredPrefix(t, today, 1 + m)
  {
    forall i: nat | i < 1 + m ensures Advances(After(t, i), today) {
      if i > 0 {
        AfterShift(t, i - 1);
        assert Advances(After(Renew(t), i - 1), today);
      } else {
        assert After(t, 0) == t;
      }
    }
    AfterShift(t, m);
  }

  /** As many periods as the closed form gives after the letter's own. */
  function AfterLetter(t: Tenancy, today: Date): nat
    requires WellFormed(t)
  {
    var next := Renew(t);
    RenewIsWellFormed(t);
    Affordable(next.wallet, next.rent.charge, Elapsed(next, today))
  }

  /** The letter pays for at most the first period; the rest is the closed form from where it leaves off. */
  lemma {:induction false} LetterThenCarried(t: Tenancy, today: Date)
    requires WellFormed(t) && t.letter.Some?
    ensures LongestCoveredPrefix(t, today, if Advances(t, today) then 1 + AfterLetter(t, today) else 0)
  {
    if Advances(t, today) {
      RenewIsWellFormed(t);
      CatchUpClosedForm(Renew(t), today);
      OneMorePeriod(t, today, AfterLetter(t, today));
    } else {
      assert After(t, 0) == t;
    }
  }

  // ---------------------------------------------------------------------
  // Debt
  // ---------------------------------------------------------------------

  ghost predicate CoveredSoFar(t: Tenancy, today: Date, k: nat) {
    forall i: nat :: i < k ==> Advances(After(t, i), today)
  }

  /** What rolling forward from `t` leaves of debt. */
  predicate DebtRight(t: Tenancy, now: Tenancy) {
    && (now.wallet >= 0 <==> OwnCharge(t) == 0 || t.wallet >= 0)
    && (now.wallet < 0 ==> now.wallet == t.wallet)
    && (now.rent.paid <==> now.wallet >= 0)
  }

  lemma FirstPeriodDebt(t: Tenancy)
    requires Covered(t)
    ensures DebtRight(t, Renew(t))
  {
  }

  lemma NextPeriodDebt(t: Tenancy, now: Tenancy)
    requires DebtRight(t, now) && now.letter.None? && Covered(now)
    ensures DebtRight(t, Renew(now))
  {
  }

  /**
   * Whenever a tenancy advances, the wallet ends non-negative exactly when it
   * started so or the first period had not been charged in advance; and a
   * wallet that ends negative was never debited.
   */
  lemma {:induction false} CatchUpMakesNoDebt(t: Tenancy, today: Date, k: nat)
    requires WellFormed(t) && k > 0 && CoveredSoFar(t, today, k)
    ensures DebtRight(t, After(t, k))
  {
    AfterIsRenewed(t, k);
    var prev := After(t, k - 1);
    assert Advances(prev, today);
    if k == 1 {
      assert prev == t;
      FirstPeriodDebt(t);
    } else {
      AfterIsRenewed(t, k - 1);
      CatchUpMakesNoDebt(t, today, k - 1);
      NextPeriodDebt(t, prev);
    }
  }

  /**
   * Charge in advance and debit at renewal together make up the bill exactly if
   * nothing was charged in advance, or just the bill: a part is never made up.
   */
  lemma LetterIsChargedItsBillIff(t: Tenancy)
    requires t.letter.Some?
    ensures OwnCharge(t) + (t.wallet - Renew(t).wallet) == PeriodCharge(t)
      <==> OwnCharge(t) == 0 || OwnCharge(t) == PeriodCharge(t)
  {
  }

  /** As long as no more was charged in advance than the period bills, credit pays for every period rolled. */
  lemma {:induction false} NoDebtWhenChargedAsBilled(t: Tenancy, today: Date, k: nat)
    requires WellFormed(t) && k > 0 && CoveredSoFar(t, today, k)
    requires OwnCharge(t) <= PeriodCharge(t)
    ensures After(t, k).wallet >= 0 && After(t, k).rent.paid
  {
    CatchUpMakesNoDebt(t, today, k);
    assert After(t, 0) == t;
    assert Advances(After(t, 0), today);
  }

  /**
   * Whatever the wallet holds, an expired tenancy can only be rolled forward
   * without debt: exactly if what was charged in advance for it is no more than
   * what the period bills.
   */
  lemma NoDebtIff(t: Tenancy, today: Date)
    requires WellFormed(t) && Expired(t, today)
    ensures (forall w: int, k: nat ::
      k > 0 && CoveredSoFar(t.(wallet := w), today, k) ==> After(t.(wallet := w), k).wallet >= 0)
      <==> OwnCharge(t) <= PeriodCharge(t)
  {
    if OwnCharge(t) <= PeriodCharge(t) {
      forall w: int, k: nat | k > 0 && CoveredSoFar(t.(wallet := w), today, k)
        ensures After(t.(wallet := w), k).wallet >= 0
      {
        NoDebtWhenChargedAsBilled(t.(wallet := w), today, k);
      }
    } else {
      var w := PeriodCharge(t) - OwnCharge(t);
      var poor := t.(wallet := w);
      assert After(poor, 0) == poor;
      assert CoveredSoFar(poor, today, 1);
      assert After(poor, 1) == Renew(After(poor, 0));
    }
  }
}
