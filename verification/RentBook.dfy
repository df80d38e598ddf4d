/** The rent rows and letters themselves: what each is billed as, and the job that rolls them forward. */
module RentBook {
  import opened Options
  import opened RentDates
  import opened RentFees
  import opened RentRenewal

  datatype RentRow = RentRow(
    start: Date,
    expiry: Date,
    frequency: Frequency,
    columns: Columns,
    active: bool,
    paid: bool)

  datatype LetterStatus = Draft | Sent | Accepted | Declined

  /** A letter without a frequency keeps the rent's; `ownCharge` is what the wallet was charged for it. */
  datatype Letter = Letter(
    status: LetterStatus,
    unpaid: bool,
    start: Date,
    end: Date,
    frequency: Option<Frequency>,
    terms: Terms,
    ownCharge: nat)

  // ---------------------------------------------------------------------
  // What rows and letters are billed as
  // ---------------------------------------------------------------------

  function Billed(r: RentRow): Rent {
    Rent(r.start, r.expiry, r.frequency, CarriedCharge(r.columns), r.active, r.paid)
  }

  function LetterFrequency(l: Letter, r: RentRow): Frequency {
    if l.frequency.Some? then l.frequency.value else r.frequency
  }

  function Offered(l: Letter, r: RentRow): Offer {
    Offer(l.start, l.end, LetterFrequency(l, r), Bill(l.terms), CarriedCharge(LetterColumns(l.terms, r.columns)),
          l.ownCharge)
  }

  function TenancyOf(r: RentRow, wallet: int, letter: Option<Letter>): Tenancy {
    Tenancy(Billed(r), wallet, if letter.Some? then Some(Offered(letter.value, r)) else None)
  }

  function Closed(r: RentRow): RentRow { r.(active := false) }

  /** The row made for the next period, with every column the letter or the old row gives it. */
  function NextRow(r: RentRow, letter: Option<Letter>, wallet: int): RentRow {
    var paid := WalletAfter(TenancyOf(r, wallet, letter)) >= 0;
    match letter
    case Some(l) =>
      RentRow(l.start, l.end, LetterFrequency(l, r), LetterColumns(l.terms, r.columns), true, paid)
    case None =>
      RentRow(NextDay(r.expiry), NextExpiry(r.start, r.expiry, r.frequency), r.frequency, CarryForward(r.columns),
              true, paid)
  }

  function LetterAt(letter: Option<Letter>, k: nat): Option<Letter> { if k == 0 then letter else None }

  /** A row made for a period is billed as the period rolled forward. */
  lemma NextRowIsRenewed(r: RentRow, letter: Option<Letter>, wallet: int)
    ensures Billed(NextRow(r, letter, wallet)) == Renew(TenancyOf(r, wallet, letter)).rent
  {
    if letter.None? { CarryForwardKeepsCharge(r.columns); }
  }

  lemma NextRowIsTenancy(r: RentRow, letter: Option<Letter>, wallet: int, t: Tenancy)
    requires TenancyOf(r, wallet, letter) == t
    ensures TenancyOf(NextRow(r, letter, wallet), Renew(t).wallet, None) == Renew(t)
  {
    NextRowIsRenewed(r, letter, wallet);
  }

  lemma NextRowOfClosed(r: RentRow, letter: Option<Letter>, wallet: int)
    ensures NextRow(Closed(r), letter, wallet) == NextRow(r, letter, wallet)
  {
  }

  /**
   * The expiry of a period carried forward: as many months on as the frequency
   * says, or for a custom period the nearest number of average months to its
   * length and at least one; the day stays, or is the month's last.
   */
  ghost predicate RollsOn(r: RentRow, expiry: Date) {
    && expiry.month > r.expiry.month
    && expiry.day == (if r.expiry.day <= DaysIn(expiry.month) then r.expiry.day else DaysIn(expiry.month))
    && var months := expiry.month - r.expiry.month;
    match r.frequency
    case EveryMonths(n) => months == n
    case CustomPeriod =>
      var days := DayNumber(r.expiry) - DayNumber(r.start);
      (months > 1 ==> -487 <= 32 * days - 974 * months < 487) && (months == 1 ==> 32 * days < 974 + 487)
  }

  lemma RollsOnByClamping(r: RentRow)
    requires Valid(r.expiry) && ProperFrequency(r.frequency)
    ensures RollsOn(r, NextExpiry(r.start, r.expiry, r.frequency))
  {
    AdvanceClamps(r.expiry,
                  if r.frequency.EveryMonths? then r.frequency.months else CustomMonths(r.start, r.expiry));
    CustomMonthsIsNearest(r.start, r.expiry);
  }

  /**
   * A row carried forward starts the day after the old one ends and is billed
   * the old row's recurring fees; it is paid exactly if the wallet holds them.
   */
  lemma CarriedRowMeans(r: RentRow, wallet: int)
    requires Valid(r.expiry) && ProperFrequency(r.frequency)
    ensures var n := NextRow(r, None, wallet);
      && Valid(n.start) && DayNumber(n.start) == DayNumber(r.expiry) + 1
      && Valid(n.expiry) && RollsOn(r, n.expiry)
      && n.frequency == r.frequency && n.active
      && RentToFees(n.columns) == Recurring(RentToFees(r.columns))
      && (n.paid <==> SumAll(Recurring(RentToFees(r.columns))) <= wallet)
  {
    NextDayIsNext(r.expiry);
    RollsOnByClamping(r);
    ExpiryMovesOn(r.start, r.expiry, r.frequency);
    CarryForwardIsRecurring(r.columns);
    CarriedChargeIsSum(r.columns);
  }

  /** A row made by a letter takes its dates, frequency and fees; it is paid by a charge in advance or the wallet. */
  lemma LetterRowIsTheLetters(r: RentRow, l: Letter, wallet: int)
    ensures var n := NextRow(r, Some(l), wallet);
      && n.start == l.start && n.expiry == l.end && n.active
      && n.frequency == (if l.frequency.Some? then l.frequency.value else r.frequency)
      && n.columns == LetterColumns(l.terms, r.columns)
      && (n.paid <==> (if l.ownCharge > 0 then 0 else SumAll(LetterToFees(l.terms))) <= wallet)
  {
    BillIsSum(l.terms);
  }

  /** What a renewal debits: all fees of the letter unless it was charged in advance, or the recurring fees. */
  lemma DebitMeans(r: RentRow, wallet: int, letter: Option<Letter>)
    ensures wallet - WalletAfter(TenancyOf(r, wallet, letter)) ==
      match letter
      case Some(l) => if l.ownCharge > 0 then 0 else SumAll(LetterToFees(l.terms))
      case None => SumAll(Recurring(RentToFees(r.columns)))
  {
    CarriedChargeIsSum(r.columns);
    if letter.Some? { BillIsSum(letter.value.terms); }
  }

  /** Credit covers a period if, with what was charged for it in advance, it holds all its fees. */
  lemma CoveredMeans(r: RentRow, wallet: int, letter: Option<Letter>)
    ensures Covered(TenancyOf(r, wallet, letter)) <==>
      match letter
      case Some(l) => SumAll(LetterToFees(l.terms)) <= wallet + l.ownCharge
      case None => SumAll(Recurring(RentToFees(r.columns))) <= wallet
  {
    CarriedChargeIsSum(r.columns);
    if letter.Some? { BillIsSum(letter.value.terms); }
  }

  // ---------------------------------------------------------------------
  // The job
  // ---------------------------------------------------------------------

  datatype Outcome = MovedOut | Floats | CaughtUp(periods: nat)

  /** The row a new row was made from: the rent caught up for the first, its predecessor for the others. */
  function MadeFrom(before: nat, id: nat, i: nat): nat { if i <= before then id else i - 1 }

  /** The row a catch-up has got to: new rows go to the end of the table. */
  function CurrentId(before: nat, id: nat, k: nat): nat { if k == 0 then id else before + k - 1 }

  /** Row `i` was made for a period from the row before it, with the wallet as it was by then. */
  predicate IsMade(now: seq<RentRow>, before: nat, id: nat, t: Tenancy, letter: Option<Letter>, i: nat)
    requires id < before <= i < |now|
  {
    var next := NextRow(now[MadeFrom(before, id, i)], LetterAt(letter, i - before), After(t, i - before).wallet);
    now[i] == if i == |now| - 1 then next else Closed(next)
  }

  /**
   * The table after `k` periods: the old row is closed and one row per period is
   * added, all but the last of them closed.
   */
  ghost predicate RolledForward(before: seq<RentRow>, now: seq<RentRow>, id: nat, wallet: int,
                                letter: Option<Letter>, k: nat)
    requires id < |before|
  {
    && |now| == |before| + k
    && (forall i :: 0 <= i < |before| ==> now[i] == if i == id && k > 0 then Closed(before[i]) else before[i])
    && (forall i :: |before| <= i < |now| ==>
        IsMade(now, |before|, id, TenancyOf(before[id], wallet, letter), letter, i))
  }

  lemma {:induction false} MadeRowsHaveDates(before: seq<RentRow>, now: seq<RentRow>, id: nat, wallet: int,
                                             letter: Option<Letter>, k: nat, i: nat)
    requires id < |before| && RolledForward(before, now, id, wallet, letter, k) && |before| <= i < |now|
    requires WellFormed(TenancyOf(before[id], wallet, letter))
    ensures Valid(now[i].expiry) && ProperFrequency(now[i].frequency)
  {
    assert IsMade(now, |before|, id, TenancyOf(before[id], wallet, letter), letter, i);
    if i > |before| {
      MadeRowsHaveDates(before, now, id, wallet, letter, k, i - 1);
      ExpiryMovesOn(now[i - 1].start, now[i - 1].expiry, now[i - 1].frequency);
    } else {
      ExpiryMovesOn(now[id].start, now[id].expiry, now[id].frequency);
    }
  }

  /**
   * Every row after the first, and the first without a letter, starts the day
   * after its predecessor ends, ends a period later, and hands on exactly the
   * predecessor's recurring fees.
   */
  lemma CarriedRowsKeepColumns(before: seq<RentRow>, now: seq<RentRow>, id: nat, wallet: int, letter: Option<Letter>,
                               k: nat, i: nat)
    requires id < |before| && RolledForward(before, now, id, wallet, letter, k) && |before| <= i < |now|
    requires WellFormed(TenancyOf(before[id], wallet, letter))
    requires i == |before| ==> letter.None?
    ensures var was := if i == |before| then before[id] else now[i - 1];
      && Valid(now[i].start) && DayNumber(now[i].start) == DayNumber(was.expiry) + 1
      && Valid(now[i].expiry) && RollsOn(was, now[i].expiry) && now[i].frequency == was.frequency
      && RentToFees(now[i].columns) == Recurring(RentToFees(was.columns))
      && now[i].columns == CarryForward(was.columns) && CarriedCharge(now[i].columns) == CarriedCharge(was.columns)
  {
    var was := if i == |before| then before[id] else now[i - 1];
    assert IsMade(now, |before|, id, TenancyOf(before[id], wallet, letter), letter, i);
    if i > |before| { MadeRowsHaveDates(before, now, id, wallet, letter, k, i - 1); }
    CarryForwardKeepsCharge(was.columns);
    CarriedRowMeans(was, After(TenancyOf(before[id], wallet, letter), i - |before|).wallet);
  }

  /** A catch-up leaves every other row alone and exactly one of its own active: the last. */
  lemma OneRowStaysActive(before: seq<RentRow>, now: seq<RentRow>, id: nat, wallet: int, letter: Option<Letter>,
                          k: nat)
    requires id < |before| && before[id].active && RolledForward(before, now, id, wallet, letter, k)
    ensures |now| == |before| + k
    ensures forall i :: 0 <= i < |before| && i != id ==> now[i] == before[i]
    ensures now[id] == before[id].(active := k == 0)
    ensures forall i :: |before| <= i < |now| ==> (now[i].active <==> i == |now| - 1)
  {
    var t := TenancyOf(before[id], wallet, letter);
    forall i | |before| <= i < |now| ensures now[i].active <==> i == |now| - 1 {
      assert IsMade(now, |before|, id, t, letter, i);
    }
  }

  lemma MadeStays(now: seq<RentRow>, later: seq<RentRow>, before: nat, id: nat, t: Tenancy, letter: Option<Letter>,
                  i: nat)
    requires id < before <= i < |now| && |later| == |now| + 1 && IsMade(now, before, id, t, letter, i)
    requires later[i] == if i == |now| - 1 then Closed(now[i]) else now[i]
    requires var p := MadeFrom(before, id, i); later[p] == now[p] || later[p] == Closed(now[p])
    ensures IsMade(later, before, id, t, letter, i)
  {
    NextRowOfClosed(now[MadeFrom(before, id, i)], LetterAt(letter, i - before), After(t, i - before).wallet);
  }

  lemma LastIsMade(now: seq<RentRow>, later: seq<RentRow>, before: nat, id: nat, t: Tenancy, letter: Option<Letter>)
    requires id < before <= |now| && |later| == |now| + 1
    requires var p := MadeFrom(before, id, |now|);
      && later[p] == Closed(now[p])
      && later[|now|] == NextRow(now[p], LetterAt(letter, |now| - before), After(t, |now| - before).wallet)
    ensures IsMade(later, before, id, t, letter, |now|)
  {
    NextRowOfClosed(now[MadeFrom(before, id, |now|)], LetterAt(letter, |now| - before),
                    After(t, |now| - before).wallet);
  }

  lemma RollOne(before: seq<RentRow>, now: seq<RentRow>, later: seq<RentRow>, id: nat, wallet: int,
                letter: Option<Letter>, k: nat)
    requires id < |before| && RolledForward(before, now, id, wallet, letter, k)
    requires |later| == |now| + 1
    requires forall i ::
      0 <= i < |now| ==> later[i] == if i == CurrentId(|before|, id, k) then Closed(now[i]) else now[i]
    requires IsMade(later, |before|, id, TenancyOf(before[id], wallet, letter), letter, |now|)
    ensures RolledForward(before, later, id, wallet, letter, k + 1)
  {
    var t := TenancyOf(before[id], wallet, letter);
    forall i | |before| <= i < |later| ensures IsMade(later, |before|, id, t, letter, i) {
      if i < |now| {
        assert IsMade(now, |before|, id, t, letter, i);
        MadeStays(now, later, |before|, id, t, letter, i);
      }
    }
  }

  /** The loop after `k` periods. */
  ghost predicate CaughtUpTo(before: seq<RentRow>, rows: seq<RentRow>, id: nat, wallet: int, now: int,
                             letter: Option<Letter>, today: Date, k: nat)
    requires id < |before|
  {
    var t := TenancyOf(before[id], wallet, letter);
    var cur := CurrentId(|before|, id, k);
    var rolled := RolledForward(before, rows, id, wallet, letter, k);
    var covered := CoveredSoFar(t, today, k);
    && rolled && covered && cur < |rows| && rows[cur].active
    && TenancyOf(rows[cur], now, LetterAt(letter, k)) == After(t, k)
  }

  lemma CatchUpStarts(before: seq<RentRow>, id: nat, wallet: int, letter: Option<Letter>, today: Date)
    requires id < |before| && before[id].active && WellFormed(TenancyOf(before[id], wallet, letter))
    ensures CaughtUpTo(before, before, id, wallet, wallet, letter, today, 0)
  {
  }

  lemma CoveredOneMore(t: Tenancy, today: Date, k: nat)
    requires CoveredSoFar(t, today, k) && Advances(After(t, k), today)
    ensures CoveredSoFar(t, today, k + 1)
  {
  }

  lemma ExpiryOneMore(t: Tenancy, k: nat)
    requires WellFormed(t)
    ensures After(t, k).letter.None? ==> Renew(After(t, k)).rent.expiry.month > After(t, k).rent.expiry.month
  {
    AfterFacts(t, k);
    if After(t, k).letter.None? { RenewCarried(After(t, k)); }
  }

  /** One turn of the loop: what the rows become, and that the expiry moves on. */
  lemma CatchUpTurns(before: seq<RentRow>, rows: seq<RentRow>, id: nat, wallet: int, now: int, letter: Option<Letter>,
                     today: Date, k: nat)
    requires id < |before| && CaughtUpTo(before, rows, id, wallet, now, letter, today, k)
    requires WellFormed(TenancyOf(before[id], wallet, letter))
    requires var cur := rows[CurrentId(|before|, id, k)];
      Before(cur.expiry, today) && Covered(TenancyOf(cur, now, LetterAt(letter, k)))
    ensures var cur := rows[CurrentId(|before|, id, k)];
      var next := NextRow(cur, LetterAt(letter, k), now);
      && CaughtUpTo(before, rows[CurrentId(|before|, id, k) := Closed(cur)] + [next], id, wallet,
                    WalletAfter(TenancyOf(cur, now, LetterAt(letter, k))), letter, today, k + 1)
      && (k > 0 ==> next.expiry.month > cur.expiry.month)
  {
    var t := TenancyOf(before[id], wallet, letter);
    var cur := rows[CurrentId(|before|, id, k)];
    var later := rows[CurrentId(|before|, id, k) := Closed(cur)] + [NextRow(cur, LetterAt(letter, k), now)];
    LastIsMade(rows, later, |before|, id, t, letter);
    RollOne(before, rows, later, id, wallet, letter, k);
    NextRowIsTenancy(cur, LetterAt(letter, k), now, After(t, k));
    AfterIsRenewed(t, k + 1);
    CoveredOneMore(t, today, k);
    ExpiryOneMore(t, k);
  }

  /** Where the loop stops is the longest covered prefix. */
  lemma CatchUpStops(before: seq<RentRow>, rows: seq<RentRow>, id: nat, wallet: int, now: int, letter: Option<Letter>,
                     today: Date, k: nat)
    requires id < |before| && CaughtUpTo(before, rows, id, wallet, now, letter, today, k)
    requires var cur := rows[CurrentId(|before|, id, k)];
      !(Before(cur.expiry, today) && Covered(TenancyOf(cur, now, LetterAt(letter, k))))
    ensures var t := TenancyOf(before[id], wallet, letter);
      && LongestCoveredPrefix(t, today, k)
      && RolledForward(before, rows, id, wallet, letter, k) && now == After(t, k).wallet
  {
  }

  /** The rent table and one tenant's wallet, updated in place. */
  class Book {
    var rents: seq<RentRow>
    var wallet: int

    constructor (rents: seq<RentRow>, wallet: int)
      ensures this.rents == rents && this.wallet == wallet
    {
      this.rents, this.wallet := rents, wallet;
    }

    /** Rolls one row forward unless another run already closed it. */
    method RenewOneFromWalletCredit(id: nat, letter: Option<Letter>) returns (newId: Option<nat>)
      requires id < |rents|
      modifies this
      ensures var r := old(rents)[id];
        if r.active then
          && newId == Some(|old(rents)|)
          && rents == old(rents)[id := Closed(r)] + [NextRow(r, letter, old(wallet))]
          && wallet == WalletAfter(TenancyOf(r, old(wallet), letter))
        else
          newId == None && rents == old(rents) && wallet == old(wallet)
      ensures old(rents)[id].active && letter.None? && Valid(old(rents)[id].expiry) ==>
        DayNumber(rents[|old(rents)|].start) == DayNumber(old(rents)[id].expiry) + 1
    {
      var rent := rents[id];
      if Valid(rent.expiry) { NextDayIsNext(rent.expiry); }
      if !rent.active { return None; }
      rents := rents[id := Closed(rent)];
      var chargeFees := match letter
        case Some(l) => LetterToFees(l.terms)
        case None => Recurring(RentToFees(rent.columns));
      CarriedChargeIsSum(rent.columns);
      if letter.Some? { BillIsSum(letter.value.terms); }
      if letter.None? || letter.value.ownCharge == 0 { PostCharges(chargeFees); }
      var covered := wallet >= 0;
      var next := match letter
        case Some(l) =>
          RentRow(l.start, l.end, LetterFrequency(l, rent), LetterColumns(l.terms, rent.columns), true, covered)
        case None =>
          RentRow(NextDay(rent.expiry), NextExpiry(rent.start, rent.expiry, rent.frequency), rent.frequency,
                  CarryForward(rent.columns), true, covered);
      newId := Some(|rents|);
      rents := rents + [next];
    }

    /** One debit per fee. */
    method PostCharges(fees: seq<Fee>)
      modifies this`wallet
      ensures wallet == old(wallet) - SumAll(fees)
    {
      for i := 0 to |fees|
        invariant wallet == old(wallet) - SumAll(fees[..i])
      {
        assert fees[..i + 1][..i] == fees[..i];
        wallet := wallet - fees[i].amount;
      }
      assert fees[..|fees|] == fees;
    }

    /**
     * A declined letter ends the tenancy; without an accepted letter the wallet
     * covers, the rent floats; otherwise it is rolled forward exactly as far as
     * credit reaches.
     */
    method AutoRenewExpiredRent(id: nat, latest: Option<Letter>, today: Date) returns (outcome: Outcome)
      requires id < |rents| && rents[id].active
      requires WellFormed(TenancyOf(rents[id], wallet, latest))
      modifies this
      ensures latest.Some? && latest.value.status == Declined ==>
        outcome == MovedOut && rents == old(rents)[id := Closed(old(rents)[id])] && wallet == old(wallet)
      ensures outcome.Floats? ==> rents == old(rents) && wallet == old(wallet)
      ensures outcome.Floats? <==>
        latest.None? || (latest.value.status != Declined
          && !(latest.value.status == Accepted && Covered(TenancyOf(old(rents)[id], old(wallet), latest))))
      ensures outcome.Floats? <==>
        latest.None? || (latest.value.status != Declined
          && (latest.value.status != Accepted
              || SumAll(LetterToFees(latest.value.terms)) > old(wallet) + latest.value.ownCharge))
      ensures outcome.CaughtUp? ==>
        var source := if latest.value.unpaid then latest else None;
        var t := TenancyOf(old(rents)[id], old(wallet), source);
        && LongestCoveredPrefix(t, today, outcome.periods)
        && RolledForward(old(rents), rents, id, old(wallet), source, outcome.periods)
        && wallet == After(t, outcome.periods).wallet
    {
      CoveredMeans(rents[id], wallet, latest);
      if latest.Some? && latest.value.status == Declined {
        rents := rents[id := Closed(rents[id])];
        return MovedOut;
      }
      var accepted := latest.Some? && latest.value.status == Accepted;
      if !accepted || !Covered(TenancyOf(rents[id], wallet, latest)) {
        return Floats;
      }
      var periods := CatchUp(id, if latest.value.unpaid then latest else None, today);
      outcome := CaughtUp(periods);
    }

    /** Period by period, the letter for the first one only, stopping at the first period not fully covered. */
    method CatchUp(id: nat, letterSource: Option<Letter>, today: Date) returns (periods: nat)
      requires id < |rents| && rents[id].active
      requires WellFormed(TenancyOf(rents[id], wallet, letterSource))
      modifies this
      ensures var t := TenancyOf(old(rents)[id], old(wallet), letterSource);
        && LongestCoveredPrefix(t, today, periods)
        && RolledForward(old(rents), rents, id, old(wallet), letterSource, periods)
        && wallet == After(t, periods).wallet
    {
      ghost var before, credit := rents, wallet;
      var current := id;
      periods := 0;
      CatchUpStarts(before, id, credit, letterSource, today);
      while Before(rents[current].expiry, today)
        invariant current == CurrentId(|before|, id, periods) < |rents|
        invariant CaughtUpTo(before, rents, id, credit, wallet, letterSource, today, periods)
        decreases periods == 0, today.month + 1 - rents[current].expiry.month
      {
        var useLetter := LetterAt(letterSource, periods);
        if !Covered(TenancyOf(rents[current], wallet, useLetter)) { break; }
        CatchUpTurns(before, rents, id, credit, wallet, letterSource, today, periods);
        var newId := RenewOneFromWalletCredit(current, useLetter);
        current := newId.value;
        periods := periods + 1;
      }
      CatchUpStops(before, rents, id, credit, wallet, letterSource, today, periods);
    }
  }

  // ---------------------------------------------------------------------
  // Where a charge in advance comes from, and how it comes to exceed the bill
  // ---------------------------------------------------------------------

  /**
   * The expiry sweep charges an accepted, unpaid letter once, one debit per fee,
   * unless its period was billed to the wallet otherwise.
   */
  function ChargeLetter(l: Letter, expiry: Date, wallet: int, today: Date, periodBilled: bool): (Letter, int) {
    if l.status != Accepted || Before(today, expiry) || l.ownCharge > 0 || !l.unpaid || LetterToFees(l.terms) == []
       || periodBilled
    then (l, wallet)
    else (l.(ownCharge := Bill(l.terms)), wallet - Bill(l.terms))
  }

  /** Only an accepted, unpaid letter with fees is swept, once, from the day its rent expires, and for all its fees. */
  lemma SweptIff(l: Letter, expiry: Date, wallet: int, today: Date, periodBilled: bool)
    ensures var (swept, left) := ChargeLetter(l, expiry, wallet, today, periodBilled);
      if l.status == Accepted && l.unpaid && l.ownCharge == 0 && !Before(today, expiry) && !periodBilled
         && LetterToFees(l.terms) != []
      then
        && left == wallet - SumAll(LetterToFees(l.terms))
        && swept == l.(ownCharge := swept.ownCharge) && swept.ownCharge == wallet - left
      else swept == l && left == wallet
  {
    BillIsSum(l.terms);
  }

  /** Once swept, a letter never charged before is charged as billed or not at all, so it never makes debt. */
  lemma {:induction false} SweptLetterMakesNoDebt(l: Letter, r: RentRow, wallet: int, today: Date,
                                                  periodBilled: bool, k: nat)
    requires l.ownCharge == 0 && k > 0
    requires var (swept, left) := ChargeLetter(l, r.expiry, wallet, today, periodBilled);
      WellFormed(TenancyOf(r, left, Some(swept))) && CoveredSoFar(TenancyOf(r, left, Some(swept)), today, k)
    ensures var (swept, left) := ChargeLetter(l, r.expiry, wallet, today, periodBilled);
      && (swept.ownCharge == 0 || swept.ownCharge == Bill(swept.terms))
      && After(TenancyOf(r, left, Some(swept)), k).wallet >= 0
  {
    var (swept, left) := ChargeLetter(l, r.expiry, wallet, today, periodBilled);
    NoDebtWhenChargedAsBilled(TenancyOf(r, left, Some(swept)), today, k);
  }

  function WithoutFirst(fees: seq<Fee>, kind: FeeKind, id: string): seq<Fee> {
    if fees == [] then []
    else if fees[0].kind == kind && fees[0].id == id then fees[1..]
    else [fees[0]] + WithoutFirst(fees[1..], kind, id)
  }

  function WithoutId(fees: seq<Fee>, id: string): seq<Fee> {
    if fees == [] then []
    else (if fees[0].id == id then [] else [fees[0]]) + WithoutId(fees[1..], id)
  }

  /**
   * A payment plan for one fee takes it out of the letter, breakdown and column,
   * if the breakdown has it. It does not look at what the letter was charged.
   */
  function CarveOut(l: Letter, kind: FeeKind, id: string): Letter {
    var left := WithoutFirst(l.terms.breakdown, kind, id);
    if left == l.terms.breakdown then l
    else
      var terms := l.terms.(breakdown := left);
      l.(terms :=
        match kind
        case RentFee => terms.(rent := 0)
        case Service => terms.(service := 0)
        case Caution => terms.(caution := 0)
        case Legal => terms.(legal := 0)
        case Agency => terms.(agency := 0)
        case Other => terms.(other := WithoutId(terms.other, id)))
  }

  predicate IsFirstFee(fees: seq<Fee>, i: nat, kind: FeeKind, id: string) {
    && i < |fees| && fees[i].kind == kind && fees[i].id == id
    && forall k :: 0 <= k < i ==> !(fees[k].kind == kind && fees[k].id == id)
  }

  lemma {:induction false} WithoutFirstMeans(fees: seq<Fee>, kind: FeeKind, id: string, i: nat)
    requires IsFirstFee(fees, i, kind, id)
    ensures WithoutFirst(fees, kind, id) == fees[..i] + fees[i + 1..]
  {
    if i > 0 {
      WithoutFirstMeans(fees[1..], kind, id, i - 1);
      assert fees[..i] == [fees[0]] + fees[1..][..i - 1];
    }
  }

  lemma {:induction false} WithoutIdMeans(fees: seq<Fee>, id: string, f: Fee)
    ensures f in WithoutId(fees, id) <==> f in fees && f.id != id
  {
    if fees != [] {
      assert fees == [fees[0]] + fees[1..];
      WithoutIdMeans(fees[1..], id, f);
    }
  }

  /**
   * A fee carved out leaves the breakdown once and its own column; what the
   * letter was charged, its dates and every other column stay.
   */
  lemma CarveOutMeans(l: Letter, kind: FeeKind, id: string, i: nat)
    requires IsFirstFee(l.terms.breakdown, i, kind, id)
    ensures var left := CarveOut(l, kind, id);
      && left == l.(terms := left.terms)
      && left.terms.breakdown == l.terms.breakdown[..i] + l.terms.breakdown[i + 1..]
      && left.terms.rent == (if kind == RentFee then 0 else l.terms.rent)
      && left.terms.service == (if kind == Service then 0 else l.terms.service)
      && left.terms.caution == (if kind == Caution then 0 else l.terms.caution)
      && left.terms.legal == (if kind == Legal then 0 else l.terms.legal)
      && left.terms.agency == (if kind == Agency then 0 else l.terms.agency)
      && left.terms.otherCharges == l.terms.otherCharges
      && (kind != Other ==> left.terms.other == l.terms.other)
      && (kind == Other ==> forall f :: f in left.terms.other <==> f in l.terms.other && f.id != id)
  {
    var fees := l.terms.breakdown;
    WithoutFirstMeans(fees, kind, id, i);
    assert |WithoutFirst(fees, kind, id)| == |fees| - 1;
    forall f ensures f in WithoutId(l.terms.other, id) <==> f in l.terms.other && f.id != id {
      WithoutIdMeans(l.terms.other, id, f);
    }
  }

  const FLAT_FEES := Columns(8000, Column(0, true), Column(0, false), Column(0, false), Column(0, false), [])

  const RENT_ROW := RentRow(Date(24299, 1), Date(24299, 31), EveryMonths(1), FLAT_FEES, true, true)

  const RENT := Fee(RentFee, "", 8000, true)
  const DIESEL := Fee(Other, "diesel", 2000, false)

  /** An accepted letter for rent of eighty naira and diesel of twenty. */
  const LETTER_WITH_DIESEL := Letter(Accepted, true, Date(24300, 1), Date(24300, 31), None,
                                     Terms([RENT] + [DIESEL], 8000, 0, 0, 0, 0, 0, []), 0)

  lemma WithoutFirstSkips(a: Fee, rest: seq<Fee>, kind: FeeKind, id: string)
    requires a.kind != kind
    ensures WithoutFirst([a] + rest, kind, id) == [a] + WithoutFirst(rest, kind, id)
  {
    assert ([a] + rest)[0] == a && ([a] + rest)[1..] == rest;
  }

  lemma WithoutFirstTakes(b: Fee)
    ensures WithoutFirst([b], b.kind, b.id) == []
  {
    assert [b][1..] == [];
  }

  lemma TwoFees(a: Fee, b: Fee)
    requires a.amount > 0 && b.amount > 0 && a.kind != b.kind
    ensures SumPositive([a]) == a.amount && SumPositive([a] + [b]) == a.amount + b.amount
    ensures WithoutFirst([a] + [b], b.kind, b.id) == [a]
  {
    SumPositiveOfOne(a);
    SumPositiveOfMore([a], b);
    WithoutFirstSkips(a, [b], b.kind, b.id);
    WithoutFirstTakes(b);
  }

  lemma TwoFeesAreBilled(a: Fee, b: Fee)
    requires b.amount > 0
    ensures PositiveOnly([a] + [b]) != []
  {
    PositiveOnlyOfMore([a], b);
  }

  /**
   * With eighty naira of credit the letter is charged at expiry, the diesel then
   * goes into a payment plan, and the next run rolls the tenancy forward with
   * twenty naira owing.
   */
  lemma CarvedLetterRenewsInDebt()
    ensures var today := Date(24300, 2);
      var (charged, left) := ChargeLetter(LETTER_WITH_DIESEL, RENT_ROW.expiry, 8000, today, false);
      var t := TenancyOf(RENT_ROW, left, Some(CarveOut(charged, Other, "diesel")));
      && left == -2000 && OwnCharge(t) == 10000 && PeriodCharge(t) == 8000
      && WellFormed(t) && Advances(t, today) && Renew(t).wallet == -2000 && !Renew(t).rent.paid
  {
    TwoFees(RENT, DIESEL);
    TwoFeesAreBilled(RENT, DIESEL);
  }
}
