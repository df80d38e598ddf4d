/** Fees: the columns of a rent row, the terms of a renewal letter, and the lists billed from them. */
module RentFees {
  datatype FeeKind = RentFee | Service | Caution | Legal | Agency | Other

  /** `id` tells other fees apart; it is empty on the fixed kinds. */
  datatype Fee = Fee(kind: FeeKind, id: string, amount: int, recurring: bool)

  datatype Column = Column(amount: int, recurring: bool)

  /** The fee columns of a rent row; rent itself always recurs. */
  datatype Columns = Columns(
    rent: int,
    service: Column,
    deposit: Column,
    legal: Column,
    agency: Column,
    other: seq<Fee>)

  /** The fee columns of a renewal letter, and the breakdown stored with it. */
  datatype Terms = Terms(
    breakdown: seq<Fee>,
    rent: int,
    service: int,
    caution: int,
    legal: int,
    agency: int,
    otherCharges: int,
    other: seq<Fee>)

  function SumAll(fees: seq<Fee>): int {
    if fees == [] then 0 else SumAll(fees[..|fees| - 1]) + fees[|fees| - 1].amount
  }

  function SumRecurring(fees: seq<Fee>): int {
    if fees == [] then 0
    else
      var f := fees[|fees| - 1];
      SumRecurring(fees[..|fees| - 1]) + if f.recurring then f.amount else 0
  }

  function Recurring(fees: seq<Fee>): seq<Fee> {
    if fees == [] then []
    else
      var f := fees[|fees| - 1];
      Recurring(fees[..|fees| - 1]) + if f.recurring then [f] else []
  }

  function PositiveOnly(fees: seq<Fee>): seq<Fee> {
    if fees == [] then []
    else
      var f := fees[|fees| - 1];
      PositiveOnly(fees[..|fees| - 1]) + if f.amount > 0 then [f] else []
  }

  function FromColumn(kind: FeeKind, c: Column): Fee { Fee(kind, "", c.amount, c.recurring) }

  function RentToFees(c: Columns): seq<Fee> {
    PositiveOnly([FromColumn(RentFee, Column(c.rent, true))] + [FromColumn(Service, c.service)]
                 + [FromColumn(Caution, c.deposit)] + [FromColumn(Legal, c.legal)]
                 + [FromColumn(Agency, c.agency)] + c.other)
  }

  /** The stored breakdown if there is one; otherwise the columns, with the default flags. */
  function LetterToFees(l: Terms): seq<Fee> {
    if l.breakdown != [] then PositiveOnly(l.breakdown)
    else
      PositiveOnly(LegacyFees(l) + l.other)
  }

  function Flat(kind: FeeKind, amount: int, recurring: bool): Fee { Fee(kind, "", amount, recurring) }

  function LegacyFees(l: Terms): seq<Fee> {
    [Flat(RentFee, l.rent, true)] + [Flat(Service, l.service, true)] + [Flat(Caution, l.caution, false)]
    + [Flat(Legal, l.legal, false)] + [Flat(Agency, l.agency, false)] + [Flat(Other, l.otherCharges, false)]
  }

  function CarryColumn(c: Column): Column { if c.recurring then c else Column(0, false) }

  /** What a rent row hands on: one-time fees were collected and do not come back. */
  function CarryForward(c: Columns): Columns {
    Columns(c.rent, CarryColumn(c.service), CarryColumn(c.deposit), CarryColumn(c.legal),
            CarryColumn(c.agency), Recurring(c.other))
  }

  /** The recurring flag of the last fee of a kind. */
  function FlagOf(fees: seq<Fee>, kind: FeeKind, otherwise: bool): bool {
    if fees == [] then otherwise
    else
      var f := fees[|fees| - 1];
      if f.kind == kind then f.recurring else FlagOf(fees[..|fees| - 1], kind, otherwise)
  }

  // ---------------------------------------------------------------------
  // The same sums and flags, column by column
  // ---------------------------------------------------------------------

  function Positive(amount: int): nat { if amount > 0 then amount else 0 }

  function RecurringPart(c: Column): nat { if c.recurring then Positive(c.amount) else 0 }

  function SumPositive(fees: seq<Fee>): nat {
    if fees == [] then 0 else SumPositive(fees[..|fees| - 1]) + Positive(fees[|fees| - 1].amount)
  }

  function SumPositiveRecurring(fees: seq<Fee>): nat {
    if fees == [] then 0
    else
      var f := fees[|fees| - 1];
      SumPositiveRecurring(fees[..|fees| - 1]) + if f.recurring then Positive(f.amount) else 0
  }

  /** What a period carried forward from these columns costs. */
  function CarriedCharge(c: Columns): nat {
    Positive(c.rent) + RecurringPart(c.service) + RecurringPart(c.deposit) + RecurringPart(c.legal)
    + RecurringPart(c.agency) + SumPositiveRecurring(c.other)
  }

  /** What a letter bills for its period. */
  function Bill(l: Terms): nat {
    if l.breakdown != [] then SumPositive(l.breakdown)
    else
      Positive(l.rent) + Positive(l.service) + Positive(l.caution) + Positive(l.legal) + Positive(l.agency)
      + Positive(l.otherCharges) + SumPositive(l.other)
  }

  /** The flag a letter gives a column: its billed fee's, or the default, or the old row's. */
  function LetterFlag(l: Terms, kind: FeeKind, amount: int, byDefault: bool, otherwise: bool): bool {
    if l.breakdown != [] then FlagOf(PositiveOnly(l.breakdown), kind, otherwise)
    else if amount > 0 then byDefault
    else otherwise
  }

  /** Amounts come from the letter's columns, flags from its billed fees, the deposit from the old row. */
  function LetterColumns(l: Terms, row: Columns): Columns {
    var carried := CarryForward(row);
    Columns(l.rent,
            Column(l.service, LetterFlag(l, Service, l.service, true, carried.service.recurring)),
            carried.deposit,
            Column(l.legal, LetterFlag(l, Legal, l.legal, false, carried.legal.recurring)),
            Column(l.agency, LetterFlag(l, Agency, l.agency, false, carried.agency.recurring)),
            l.other)
  }

  lemma RecurringOfMore(fees: seq<Fee>, f: Fee)
    ensures Recurring(fees + [f]) == Recurring(fees) + if f.recurring then [f] else []
  {
    assert (fees + [f])[..|fees|] == fees;
  }

  lemma PositiveOnlyOfMore(fees: seq<Fee>, f: Fee)
    ensures PositiveOnly(fees + [f]) == PositiveOnly(fees) + if f.amount > 0 then [f] else []
  {
    assert (fees + [f])[..|fees|] == fees;
  }

  lemma SumOfMore(fees: seq<Fee>, f: Fee)
    ensures SumAll(fees + [f]) == SumAll(fees) + f.amount
    ensures SumRecurring(fees + [f]) == SumRecurring(fees) + if f.recurring then f.amount else 0
  {
    assert (fees + [f])[..|fees|] == fees;
  }

  /** Billing the recurring fees one by one bills their sum. */
  lemma {:induction false} RecurringSums(fees: seq<Fee>)
    ensures SumAll(Recurring(fees)) == SumRecurring(fees)
    ensures SumRecurring(Recurring(fees)) == SumRecurring(fees)
  {
    if fees != [] {
      var rest, f := fees[..|fees| - 1], fees[|fees| - 1];
      RecurringSums(rest);
      if f.recurring {
        SumOfMore(Recurring(rest), f);
      } else {
        assert Recurring(fees) == Recurring(rest);
      }
    }
  }

  /** Two lists that bill the same recurring fees. */
  predicate SameRecurring(carried: seq<Fee>, fees: seq<Fee>) {
    PositiveOnly(carried) == Recurring(PositiveOnly(fees))
  }

  lemma SameRecurringOfMore(carried: seq<Fee>, fees: seq<Fee>, kind: FeeKind, c: Column)
    requires SameRecurring(carried, fees)
    ensures SameRecurring(carried + [FromColumn(kind, CarryColumn(c))], fees + [FromColumn(kind, c)])
  {
    PositiveOnlyOfMore(carried, FromColumn(kind, CarryColumn(c)));
    PositiveOnlyOfMore(fees, FromColumn(kind, c));
    if c.amount > 0 {
      RecurringOfMore(PositiveOnly(fees), FromColumn(kind, c));
    } else {
      assert PositiveOnly(fees + [FromColumn(kind, c)]) == PositiveOnly(fees);
    }
    if !(c.recurring && c.amount > 0) {
      assert PositiveOnly(carried + [FromColumn(kind, CarryColumn(c))]) == PositiveOnly(carried);
    }
  }

  lemma LastApart(a: seq<Fee>, b: seq<Fee>)
    requires b != []
    ensures a + b == a + b[..|b| - 1] + [b[|b| - 1]]
  {
  }

  lemma {:induction false} PositiveOnlyAppends(a: seq<Fee>, b: seq<Fee>)
    ensures PositiveOnly(a + b) == PositiveOnly(a) + PositiveOnly(b)
  {
    if b == [] {
      assert a + b == a;
    } else {
      LastApart(a, b);
      PositiveOnlyAppends(a, b[..|b| - 1]);
      PositiveOnlyOfMore(a + b[..|b| - 1], b[|b| - 1]);
    }
  }

  lemma {:induction false} RecurringAppends(a: seq<Fee>, b: seq<Fee>)
    ensures Recurring(a + b) == Recurring(a) + Recurring(b)
  {
    if b == [] {
      assert a + b == a;
    } else {
      LastApart(a, b);
      RecurringAppends(a, b[..|b| - 1]);
      RecurringOfMore(a + b[..|b| - 1], b[|b| - 1]);
    }
  }

  lemma {:induction false} FiltersCommute(fees: seq<Fee>)
    ensures PositiveOnly(Recurring(fees)) == Recurring(PositiveOnly(fees))
  {
    if fees != [] {
      var rest, f := fees[..|fees| - 1], fees[|fees| - 1];
      FiltersCommute(rest);
      PositiveOnlyAppends(Recurring(rest), if f.recurring then [f] else []);
      RecurringAppends(PositiveOnly(rest), if f.amount > 0 then [f] else []);
    }
  }

  lemma SameRecurringOfOther(carried: seq<Fee>, fees: seq<Fee>, other: seq<Fee>)
    requires SameRecurring(carried, fees)
    ensures SameRecurring(carried + Recurring(other), fees + other)
  {
    PositiveOnlyAppends(carried, Recurring(other));
    PositiveOnlyAppends(fees, other);
    RecurringAppends(PositiveOnly(fees), PositiveOnly(other));
    FiltersCommute(other);
  }

  /** The row carried forward bills exactly the recurring fees of the row before, in the same order. */
  lemma CarryForwardIsRecurring(c: Columns)
    ensures RentToFees(CarryForward(c)) == Recurring(RentToFees(c))
  {
    var k := CarryForward(c);
    assert SameRecurring([], []);
    SameRecurringOfMore([], [], RentFee, Column(c.rent, true));
    var a0, b0 := [FromColumn(RentFee, Column(c.rent, true))], [FromColumn(RentFee, Column(c.rent, true))];
    assert [] + a0 == a0;
    SameRecurringOfMore(a0, b0, Service, c.service);
    var a1, b1 := a0 + [FromColumn(Service, k.service)], b0 + [FromColumn(Service, c.service)];
    SameRecurringOfMore(a1, b1, Caution, c.deposit);
    var a2, b2 := a1 + [FromColumn(Caution, k.deposit)], b1 + [FromColumn(Caution, c.deposit)];
    SameRecurringOfMore(a2, b2, Legal, c.legal);
    var a3, b3 := a2 + [FromColumn(Legal, k.legal)], b2 + [FromColumn(Legal, c.legal)];
    SameRecurringOfMore(a3, b3, Agency, c.agency);
    SameRecurringOfOther(a3 + [FromColumn(Agency, k.agency)], b3 + [FromColumn(Agency, c.agency)], c.other);
  }

  lemma {:induction false} SumsOfPositiveOnly(fees: seq<Fee>)
    ensures SumAll(PositiveOnly(fees)) == SumPositive(fees)
    ensures SumRecurring(PositiveOnly(fees)) == SumPositiveRecurring(fees)
  {
    if fees != [] {
      var rest, f := fees[..|fees| - 1], fees[|fees| - 1];
      SumsOfPositiveOnly(rest);
      if f.amount > 0 {
        SumOfMore(PositiveOnly(rest), f);
      } else {
        assert PositiveOnly(fees) == PositiveOnly(rest);
      }
    }
  }

  lemma SumPositiveOfMore(fees: seq<Fee>, f: Fee)
    ensures SumPositive(fees + [f]) == SumPositive(fees) + Positive(f.amount)
    ensures SumPositiveRecurring(fees + [f])
      == SumPositiveRecurring(fees) + if f.recurring then Positive(f.amount) else 0
  {
    assert (fees + [f])[..|fees|] == fees;
  }

  lemma {:induction false} SumPositiveAppends(a: seq<Fee>, b: seq<Fee>)
    ensures SumPositive(a + b) == SumPositive(a) + SumPositive(b)
    ensures SumPositiveRecurring(a + b) == SumPositiveRecurring(a) + SumPositiveRecurring(b)
  {
    if b == [] {
      assert a + b == a;
    } else {
      LastApart(a, b);
      SumPositiveAppends(a, b[..|b| - 1]);
      SumPositiveOfMore(a + b[..|b| - 1], b[|b| - 1]);
    }
  }

  /** A period carried forward costs the sum of the row's recurring fees. */
  lemma CarriedChargeIsSum(c: Columns)
    ensures CarriedCharge(c) == SumRecurring(RentToFees(c)) == SumAll(Recurring(RentToFees(c)))
  {
    var l0: seq<Fee> := [];
    var l1 := l0 + [FromColumn(RentFee, Column(c.rent, true))];
    var l2 := l1 + [FromColumn(Service, c.service)];
    var l3 := l2 + [FromColumn(Caution, c.deposit)];
    var l4 := l3 + [FromColumn(Legal, c.legal)];
    var l5 := l4 + [FromColumn(Agency, c.agency)];
    SumPositiveOfMore(l0, FromColumn(RentFee, Column(c.rent, true)));
    SumPositiveOfMore(l1, FromColumn(Service, c.service));
    SumPositiveOfMore(l2, FromColumn(Caution, c.deposit));
    SumPositiveOfMore(l3, FromColumn(Legal, c.legal));
    SumPositiveOfMore(l4, FromColumn(Agency, c.agency));
    SumPositiveAppends(l5, c.other);
    assert l1 == [FromColumn(RentFee, Column(c.rent, true))];
    SumsOfPositiveOnly(l5 + c.other);
    RecurringSums(RentToFees(c));
  }

  /** A letter bills the sum of its fees. */
  lemma BillIsSum(l: Terms)
    ensures Bill(l) == SumAll(LetterToFees(l))
  {
    if l.breakdown != [] {
      SumsOfPositiveOnly(l.breakdown);
    } else {
      LegacySum(l);
      SumPositiveAppends(LegacyFees(l), l.other);
      SumsOfPositiveOnly(LegacyFees(l) + l.other);
    }
  }

  lemma SumPositiveOfOne(f: Fee)
    ensures SumPositive([f]) == Positive(f.amount)
  {
    SumPositiveOfMore([], f);
    assert [] + [f] == [f];
  }

  lemma SumPositiveOfSix(a: Fee, b: Fee, c: Fee, d: Fee, e: Fee, f: Fee)
    ensures SumPositive([a] + [b] + [c] + [d] + [e] + [f]) == Positive(a.amount) + Positive(b.amount)
      + Positive(c.amount) + Positive(d.amount) + Positive(e.amount) + Positive(f.amount)
  {
    SumPositiveOfOne(a);
    SumPositiveOfMore([a], b);
    SumPositiveOfMore([a] + [b], c);
    SumPositiveOfMore([a] + [b] + [c], d);
    SumPositiveOfMore([a] + [b] + [c] + [d], e);
    SumPositiveOfMore([a] + [b] + [c] + [d] + [e], f);
  }

  lemma LegacySum(l: Terms)
    ensures SumPositive(LegacyFees(l)) == Positive(l.rent) + Positive(l.service) + Positive(l.caution)
      + Positive(l.legal) + Positive(l.agency) + Positive(l.otherCharges)
  {
    SumPositiveOfSix(Flat(RentFee, l.rent, true), Flat(Service, l.service, true), Flat(Caution, l.caution, false),
                     Flat(Legal, l.legal, false), Flat(Agency, l.agency, false), Flat(Other, l.otherCharges, false));
  }

  lemma FlagOfMore(fees: seq<Fee>, f: Fee, kind: FeeKind, otherwise: bool)
    ensures FlagOf(PositiveOnly(fees + [f]), kind, otherwise)
      == if f.amount > 0 && f.kind == kind then f.recurring else FlagOf(PositiveOnly(fees), kind, otherwise)
  {
    PositiveOnlyOfMore(fees, f);
    var kept := PositiveOnly(fees);
    if f.amount > 0 {
      assert (kept + [f])[..|kept|] == kept;
    } else {
      assert PositiveOnly(fees + [f]) == kept;
    }
  }

  lemma {:induction false} FlagOfOthers(fees: seq<Fee>, other: seq<Fee>, kind: FeeKind, otherwise: bool)
    requires forall k :: 0 <= k < |other| ==> other[k].kind != kind
    ensures FlagOf(PositiveOnly(fees + other), kind, otherwise) == FlagOf(PositiveOnly(fees), kind, otherwise)
  {
    if other == [] {
      assert fees + other == fees;
    } else {
      var rest, f := other[..|other| - 1], other[|other| - 1];
      LastApart(fees, other);
      FlagOfOthers(fees, rest, kind, otherwise);
      assert f.kind != kind;
      FlagOfMore(fees + rest, f, kind, otherwise);
    }
  }

  lemma FlagOfSingle(before: seq<Fee>, f: Fee, later: seq<Fee>, otherwise: bool)
    requires forall k :: 0 <= k < |before| ==> before[k].kind != f.kind
    requires forall k :: 0 <= k < |later| ==> later[k].kind != f.kind
    ensures FlagOf(PositiveOnly(before + [f] + later), f.kind, otherwise)
      == if f.amount > 0 then f.recurring else otherwise
  {
    FlagOfOthers(before + [f], later, f.kind, otherwise);
    FlagOfMore(before, f, f.kind, otherwise);
    FlagOfOthers([], before, f.kind, otherwise);
    assert [] + before == before;
  }

  predicate SixKinds(a: Fee, b: Fee, c: Fee, d: Fee, e: Fee, f: Fee, other: seq<Fee>) {
    && a.kind == RentFee && b.kind == Service && c.kind == Caution
    && d.kind == Legal && e.kind == Agency && f.kind == Other
    && forall k :: 0 <= k < |other| ==> other[k].kind == Other
  }

  lemma ServiceOfSix(a: Fee, b: Fee, c: Fee, d: Fee, e: Fee, f: Fee, other: seq<Fee>, otherwise: bool)
    requires SixKinds(a, b, c, d, e, f, other)
    ensures FlagOf(PositiveOnly([a] + [b] + [c] + [d] + [e] + [f] + other), Service, otherwise)
      == if b.amount > 0 then b.recurring else otherwise
  {
    assert [a] + [b] + [c] + [d] + [e] + [f] + other == [a] + [b] + ([c] + [d] + [e] + [f] + other);
    FlagOfSingle([a], b, [c] + [d] + [e] + [f] + other, otherwise);
  }

  lemma LegalOfSix(a: Fee, b: Fee, c: Fee, d: Fee, e: Fee, f: Fee, other: seq<Fee>, otherwise: bool)
    requires SixKinds(a, b, c, d, e, f, other)
    ensures FlagOf(PositiveOnly([a] + [b] + [c] + [d] + [e] + [f] + other), Legal, otherwise)
      == if d.amount > 0 then d.recurring else otherwise
  {
    assert [a] + [b] + [c] + [d] + [e] + [f] + other == ([a] + [b] + [c]) + [d] + ([e] + [f] + other);
    FlagOfSingle([a] + [b] + [c], d, [e] + [f] + other, otherwise);
  }

  lemma AgencyOfSix(a: Fee, b: Fee, c: Fee, d: Fee, e: Fee, f: Fee, other: seq<Fee>, otherwise: bool)
    requires SixKinds(a, b, c, d, e, f, other)
    ensures FlagOf(PositiveOnly([a] + [b] + [c] + [d] + [e] + [f] + other), Agency, otherwise)
      == if e.amount > 0 then e.recurring else otherwise
  {
    assert [a] + [b] + [c] + [d] + [e] + [f] + other == ([a] + [b] + [c] + [d]) + [e] + ([f] + other);
    FlagOfSingle([a] + [b] + [c] + [d], e, [f] + other, otherwise);
  }

  /** The flags are those of the letter's fees, as the map by kind has them. */
  lemma LetterFlagIsFees(l: Terms, otherwise: bool)
    requires forall k :: 0 <= k < |l.other| ==> l.other[k].kind == Other
    ensures FlagOf(LetterToFees(l), Service, otherwise) == LetterFlag(l, Service, l.service, true, otherwise)
    ensures FlagOf(LetterToFees(l), Legal, otherwise) == LetterFlag(l, Legal, l.legal, false, otherwise)
    ensures FlagOf(LetterToFees(l), Agency, otherwise) == LetterFlag(l, Agency, l.agency, false, otherwise)
  {
    if l.breakdown == [] {
      var a, b, c := Flat(RentFee, l.rent, true), Flat(Service, l.service, true), Flat(Caution, l.caution, false);
      var d, e, f := Flat(Legal, l.legal, false), Flat(Agency, l.agency, false), Flat(Other, l.otherCharges, false);
      ServiceOfSix(a, b, c, d, e, f, l.other, otherwise);
      LegalOfSix(a, b, c, d, e, f, l.other, otherwise);
      AgencyOfSix(a, b, c, d, e, f, l.other, otherwise);
    }
  }

  lemma {:induction false} RecurringKeepsPositive(fees: seq<Fee>)
    ensures SumPositiveRecurring(Recurring(fees)) == SumPositiveRecurring(fees)
  {
    if fees != [] {
      var rest, f := fees[..|fees| - 1], fees[|fees| - 1];
      RecurringKeepsPositive(rest);
      if f.recurring {
        SumPositiveOfMore(Recurring(rest), f);
      } else {
        assert Recurring(fees) == Recurring(rest);
      }
    }
  }

  /** Every period carried forward costs the same. */
  lemma CarryForwardKeepsCharge(c: Columns)
    ensures CarriedCharge(CarryForward(c)) == CarriedCharge(c)
  {
    RecurringKeepsPositive(c.other);
  }

  // ---------------------------------------------------------------------
  // Which fees are billed, and what a letter's row says
  // ---------------------------------------------------------------------

  lemma CountOfMore(fees: seq<Fee>, last: Fee, f: Fee)
    ensures multiset(fees + [last])[f] == multiset(fees)[f] + if last == f then 1 else 0
  {
  }

  /** A filter drops the fees it drops, whole, and repeats none. */
  lemma {:induction false} PositiveOnlyKeeps(fees: seq<Fee>, f: Fee)
    ensures multiset(PositiveOnly(fees))[f] == if f.amount > 0 then multiset(fees)[f] else 0
  {
    if fees != [] {
      var rest, last := fees[..|fees| - 1], fees[|fees| - 1];
      PositiveOnlyKeeps(rest, f);
      PositiveOnlyOfMore(rest, last);
      assert fees == rest + [last];
      CountOfMore(rest, last, f);
      if last.amount > 0 {
        CountOfMore(PositiveOnly(rest), last, f);
      } else {
        assert PositiveOnly(fees) == PositiveOnly(rest);
      }
    }
  }

  lemma {:induction false} RecurringKeeps(fees: seq<Fee>, f: Fee)
    ensures multiset(Recurring(fees))[f] == if f.recurring then multiset(fees)[f] else 0
  {
    if fees != [] {
      var rest, last := fees[..|fees| - 1], fees[|fees| - 1];
      RecurringKeeps(rest, f);
      RecurringOfMore(rest, last);
      assert fees == rest + [last];
      CountOfMore(rest, last, f);
      if last.recurring {
        CountOfMore(Recurring(rest), last, f);
      } else {
        assert Recurring(fees) == Recurring(rest);
      }
    }
  }

  lemma {:induction false} InPositiveOnly(fees: seq<Fee>, f: Fee)
    ensures f in PositiveOnly(fees) <==> f in fees && f.amount > 0
  {
    PositiveOnlyKeeps(fees, f);
    assert f in PositiveOnly(fees) <==> multiset(PositiveOnly(fees))[f] > 0;
    assert f in fees <==> multiset(fees)[f] > 0;
  }

  /** A row is billed its columns and its other fees, those with an amount, and nothing else. */
  lemma FeesOfColumns(c: Columns, f: Fee)
    ensures f in RentToFees(c) <==>
      f.amount > 0
      && (f == Fee(RentFee, "", c.rent, true) || f == Fee(Service, "", c.service.amount, c.service.recurring)
          || f == Fee(Caution, "", c.deposit.amount, c.deposit.recurring)
          || f == Fee(Legal, "", c.legal.amount, c.legal.recurring)
          || f == Fee(Agency, "", c.agency.amount, c.agency.recurring) || f in c.other)
  {
    InPositiveOnly([FromColumn(RentFee, Column(c.rent, true))] + [FromColumn(Service, c.service)]
                   + [FromColumn(Caution, c.deposit)] + [FromColumn(Legal, c.legal)]
                   + [FromColumn(Agency, c.agency)] + c.other, f);
  }

  /** A letter bills its breakdown, or without one its columns, rent and service recurring and the rest once. */
  lemma FeesOfLetter(l: Terms, f: Fee)
    ensures f in LetterToFees(l) <==>
      f.amount > 0
      && if l.breakdown != [] then f in l.breakdown
         else
           f == Fee(RentFee, "", l.rent, true) || f == Fee(Service, "", l.service, true)
           || f == Fee(Caution, "", l.caution, false) || f == Fee(Legal, "", l.legal, false)
           || f == Fee(Agency, "", l.agency, false) || f == Fee(Other, "", l.otherCharges, false) || f in l.other
  {
    InPositiveOnly(l.breakdown, f);
    InPositiveOnly(LegacyFees(l) + l.other, f);
  }

  /** The flag of a kind is that of its last fee. */
  lemma {:induction false} FlagIsTheLasts(fees: seq<Fee>, kind: FeeKind, otherwise: bool, i: nat)
    requires i < |fees| && fees[i].kind == kind && forall k :: i < k < |fees| ==> fees[k].kind != kind
    ensures FlagOf(fees, kind, otherwise) == fees[i].recurring
  {
    if i < |fees| - 1 { FlagIsTheLasts(fees[..|fees| - 1], kind, otherwise, i); }
  }

  lemma {:induction false} FlagOfNone(fees: seq<Fee>, kind: FeeKind, otherwise: bool)
    requires forall k :: 0 <= k < |fees| ==> fees[k].kind != kind
    ensures FlagOf(fees, kind, otherwise) == otherwise
  {
    if fees != [] { FlagOfNone(fees[..|fees| - 1], kind, otherwise); }
  }

  /**
   * The row a letter makes has the letter's amounts. Its deposit is the old
   * row's, if that recurs; a flag is that of the fee the letter bills, or else
   * stays on only where it was.
   */
  lemma LetterRowMeans(l: Terms, row: Columns)
    requires forall k :: 0 <= k < |l.other| ==> l.other[k].kind == Other
    ensures var c := LetterColumns(l, row);
      && c.rent == l.rent && c.service.amount == l.service && c.legal.amount == l.legal
      && c.agency.amount == l.agency && c.other == l.other
      && c.deposit == (if row.deposit.recurring then row.deposit else Column(0, false))
      && c.service.recurring == FlagOf(LetterToFees(l), Service, row.service.recurring)
      && c.legal.recurring == FlagOf(LetterToFees(l), Legal, row.legal.recurring)
      && c.agency.recurring == FlagOf(LetterToFees(l), Agency, row.agency.recurring)
  {
    LetterFlagIsFees(l, row.service.recurring);
    LetterFlagIsFees(l, row.legal.recurring);
    LetterFlagIsFees(l, row.agency.recurring);
  }
}
