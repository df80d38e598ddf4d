/**
 * The one-off data cleanup: tenants holding several active rents keep the most
 * recent one, and properties marked occupied without an active rent become
 * vacant.
 *
 * A rent's id is its position in `rents`, a property's id its position in
 * `properties`; the history holds the ids of the rents a cleanup ended.
 */
module DataCleanup {
  datatype Rent = Rent(tenant: nat, property: nat, createdAt: int, active: bool, owing: bool)

  datatype Tenancy = Tenancy(tenant: nat, property: nat, active: bool)

  datatype PropertyStatus = Vacant | Occupied | OtherStatus

  datatype State = State(
    rents: seq<Rent>,
    tenancies: seq<Tenancy>,
    properties: seq<PropertyStatus>,
    history: seq<nat>)

  // ---------------------------------------------------------------------
  // What the queries ask
  // ---------------------------------------------------------------------

  function CountActive(rents: seq<Rent>, t: nat): nat {
    if rents == [] then 0
    else
      var r := rents[|rents| - 1];
      CountActive(rents[..|rents| - 1], t) + if r.active && r.tenant == t then 1 else 0
  }

  predicate ActiveFor(rents: seq<Rent>, t: nat, i: nat) {
    i < |rents| && rents[i].active && rents[i].tenant == t
  }

  predicate HasActiveRent(rents: seq<Rent>, p: nat) {
    exists i :: 0 <= i < |rents| && rents[i].active && rents[i].property == p
  }

  predicate Distinct(ids: seq<nat>) {
    forall i, j :: 0 <= i < j < |ids| ==> ids[i] != ids[j]
  }

  predicate NewestFirst(rents: seq<Rent>, order: seq<nat>) {
    && (forall k :: 0 <= k < |order| ==> order[k] < |rents|)
    && (forall j, k :: 0 <= j < k < |order| ==> rents[order[j]].createdAt >= rents[order[k]].createdAt)
  }

  /** Any answer to "the tenant's active rents, most recent first": equal dates come in any order. */
  ghost predicate IsActiveRentsOf(rents: seq<Rent>, t: nat, order: seq<nat>) {
    && Distinct(order) && NewestFirst(rents, order)
    && (forall i: nat :: i in order <==> ActiveFor(rents, t, i))
  }

  /** Any answer to "tenants with more than one active rent". */
  ghost predicate IsCrowdedTenants(rents: seq<Rent>, ts: seq<nat>) {
    Distinct(ts) && forall t: nat :: t in ts <==> CountActive(rents, t) > 1
  }

  /** Occupied properties that no active rent is on. */
  function Unrented(properties: seq<PropertyStatus>, rents: seq<Rent>): seq<nat> {
    if properties == [] then []
    else
      var p := |properties| - 1;
      Unrented(properties[..p], rents) + if properties[p].Occupied? && !HasActiveRent(rents, p) then [p] else []
  }

  // ---------------------------------------------------------------------
  // Ending one rent
  // ---------------------------------------------------------------------

  function Ended(r: Rent): Rent { r.(active := false, owing := true) }

  function EndTenancies(ts: seq<Tenancy>, tenant: nat, property: nat): (r: seq<Tenancy>)
    ensures |r| == |ts|
    ensures forall k :: 0 <= k < |ts| ==>
      r[k] == if ts[k].tenant == tenant && ts[k].property == property then ts[k].(active := false) else ts[k]
  {
    if ts == [] then []
    else
      var last := ts[|ts| - 1];
      EndTenancies(ts[..|ts| - 1], tenant, property)
      + [if last.active && last.tenant == tenant && last.property == property then last.(active := false) else last]
  }

  function SetVacant(properties: seq<PropertyStatus>, p: nat): seq<PropertyStatus> {
    if p < |properties| then properties[p := Vacant] else properties
  }

  function EndRent(s: State, i: nat): State
    requires i < |s.rents|
  {
    var r := s.rents[i];
    State(s.rents[i := Ended(r)], EndTenancies(s.tenancies, r.tenant, r.property),
          SetVacant(s.properties, r.property), s.history + [i])
  }

  // ---------------------------------------------------------------------
  // The relation a run establishes
  // ---------------------------------------------------------------------

  /** Rents are only ever ended. */
  predicate OnlyEnds(was: seq<Rent>, now: seq<Rent>) {
    && |now| == |was|
    && forall i :: 0 <= i < |was| ==>
         now[i] == was[i] || (was[i].active && now[i] == was[i].(active := false, owing := true))
  }

  predicate Dropped(was: seq<Rent>, now: seq<Rent>, i: nat) {
    i < |was| == |now| && was[i].active && !now[i].active
  }

  predicate LostRent(was: seq<Rent>, now: seq<Rent>, p: nat) {
    exists i :: 0 <= i < |was| && Dropped(was, now, i) && was[i].property == p
  }

  predicate LostTenancy(was: seq<Rent>, now: seq<Rent>, t: Tenancy) {
    exists i :: 0 <= i < |was| && Dropped(was, now, i) && was[i].property == t.property && was[i].tenant == t.tenant
  }

  ghost predicate TenanciesFollow(was: State, now: State) {
    && |now.tenancies| == |was.tenancies|
    && forall k :: 0 <= k < |was.tenancies| ==>
         now.tenancies[k] == if LostTenancy(was.rents, now.rents, was.tenancies[k])
                             then was.tenancies[k].(active := false) else was.tenancies[k]
  }

  ghost predicate PropertiesFollow(was: State, now: State) {
    && |now.properties| == |was.properties|
    && forall p :: 0 <= p < |was.properties| ==>
         now.properties[p] == if LostRent(was.rents, now.rents, p) then Vacant else was.properties[p]
  }

  ghost predicate HistoryFollows(was: State, now: State) {
    && was.history <= now.history
    && Distinct(now.history[|was.history|..])
    && forall i: nat :: i in now.history[|was.history|..] <==> Dropped(was.rents, now.rents, i)
  }

  /** Tenant `t` is left with at most one active rent, which no rent ended for `t` is newer than. */
  ghost predicate Settled(was: seq<Rent>, now: seq<Rent>, t: nat)
    requires |now| == |was|
  {
    && (forall i: nat, j: nat :: ActiveFor(now, t, i) && ActiveFor(now, t, j) ==> i == j)
    && (forall i: nat :: Dropped(was, now, i) && was[i].tenant == t ==>
          exists j: nat :: ActiveFor(now, t, j) && was[j].createdAt >= was[i].createdAt)
  }

  ghost predicate Untouched(was: seq<Rent>, now: seq<Rent>, t: nat)
    requires |now| == |was|
  {
    forall i :: 0 <= i < |was| && was[i].tenant == t ==> now[i] == was[i]
  }

  /** The first pass: rents ended, everything else following from that. */
  ghost predicate Follows(was: State, now: State) {
    OnlyEnds(was.rents, now.rents) && TenanciesFollow(was, now) && PropertiesFollow(was, now)
      && HistoryFollows(was, now)
  }

  /** What one whole cleanup makes of `was`, whichever of several equally recent rents it keeps. */
  ghost predicate Cleaned(was: State, now: State) {
    && OnlyEnds(was.rents, now.rents)
    && (forall t: nat :: Settled(was.rents, now.rents, t))
    && TenanciesFollow(was, now)
    && HistoryFollows(was, now)
    && |now.properties| == |was.properties|
    && forall p :: 0 <= p < |was.properties| ==>
         now.properties[p] == if LostRent(was.rents, now.rents, p) || Abandoned(was, now, p) then Vacant
                              else was.properties[p]
  }

  /** Marked occupied, kept so by the first pass, and without an active rent after it. */
  predicate Abandoned(was: State, now: State, p: nat) {
    && p < |was.properties| && was.properties[p].Occupied?
    && !LostRent(was.rents, now.rents, p) && !HasActiveRent(now.rents, p)
  }

  /** The two counters a run reports. */
  ghost predicate Counted(was: State, now: State, tenants: nat, properties: nat)
    requires was.history <= now.history
  {
    && tenants == |Crowded(was.rents)|
    && properties == |now.history[|was.history|..]| + |AbandonedSet(was, now)|
  }

  ghost function Crowded(rents: seq<Rent>): set<nat> {
    set i | 0 <= i < |rents| && CountActive(rents, rents[i].tenant) > 1 :: rents[i].tenant
  }

  ghost function AbandonedSet(was: State, now: State): set<nat> {
    set p | 0 <= p < |was.properties| && Abandoned(was, now, p)
  }

  // ---------------------------------------------------------------------
  // Counting
  // ---------------------------------------------------------------------

  lemma {:induction false} CountSees(rents: seq<Rent>, t: nat, i: nat)
    requires ActiveFor(rents, t, i)
    ensures CountActive(rents, t) >= 1
  {
    if i < |rents| - 1 { CountSees(rents[..|rents| - 1], t, i); }
  }

  lemma {:induction false} CountSeesTwo(rents: seq<Rent>, t: nat, i: nat, j: nat)
    requires i < j && ActiveFor(rents, t, i) && ActiveFor(rents, t, j)
    ensures CountActive(rents, t) > 1
  {
    if j < |rents| - 1 { CountSeesTwo(rents[..|rents| - 1], t, i, j); }
    else { CountSees(rents[..|rents| - 1], t, i); }
  }

  lemma {:induction false} CountShows(rents: seq<Rent>, t: nat) returns (i: nat)
    requires CountActive(rents, t) >= 1
    ensures ActiveFor(rents, t, i)
  {
    var n := |rents| - 1;
    if rents[n].active && rents[n].tenant == t { i := n; }
    else { i := CountShows(rents[..n], t); }
  }

  lemma {:induction false} CountShowsTwo(rents: seq<Rent>, t: nat) returns (i: nat, j: nat)
    requires CountActive(rents, t) > 1
    ensures i < j && ActiveFor(rents, t, i) && ActiveFor(rents, t, j)
  {
    var n := |rents| - 1;
    if rents[n].active && rents[n].tenant == t {
      i := CountShows(rents[..n], t);
      j := n;
    } else {
      i, j := CountShowsTwo(rents[..n], t);
    }
  }

  lemma {:induction false} DistinctCard(ids: seq<nat>, members: set<nat>)
    requires Distinct(ids) && forall x: nat :: x in ids <==> x in members
    ensures |ids| == |members|
  {
    if ids == [] {
      assert members == {};
    } else {
      var n := |ids| - 1;
      assert ids == ids[..n] + [ids[n]];
      assert ids[n] !in ids[..n];
      DistinctCard(ids[..n], members - {ids[n]});
    }
  }

  predicate IsUnrented(properties: seq<PropertyStatus>, rents: seq<Rent>, p: nat) {
    p < |properties| && properties[p].Occupied? && !HasActiveRent(rents, p)
  }

  lemma {:induction false} UnrentedMembers(properties: seq<PropertyStatus>, rents: seq<Rent>, p: nat)
    ensures p in Unrented(properties, rents) <==> IsUnrented(properties, rents, p)
  {
    if properties != [] { UnrentedMembers(properties[..|properties| - 1], rents, p); }
  }

  lemma {:induction false} UnrentedDistinct(properties: seq<PropertyStatus>, rents: seq<Rent>)
    ensures Distinct(Unrented(properties, rents))
    ensures forall k :: 0 <= k < |Unrented(properties, rents)| ==> Unrented(properties, rents)[k] < |properties|
  {
    if properties != [] { UnrentedDistinct(properties[..|properties| - 1], rents); }
  }

  lemma UnrentedMeans(properties: seq<PropertyStatus>, rents: seq<Rent>)
    ensures Distinct(Unrented(properties, rents))
    ensures forall p: nat :: p in Unrented(properties, rents) <==> IsUnrented(properties, rents, p)
  {
    UnrentedDistinct(properties, rents);
    forall p: nat ensures p in Unrented(properties, rents) <==> IsUnrented(properties, rents, p) {
      UnrentedMembers(properties, rents, p);
    }
  }

  // ---------------------------------------------------------------------
  // Ending a rent keeps everything following
  // ---------------------------------------------------------------------

  lemma DroppedAfterEnding(was: State, now: State, i: nat)
    requires OnlyEnds(was.rents, now.rents) && i < |now.rents| && now.rents[i].active
    ensures OnlyEnds(was.rents, EndRent(now, i).rents)
    ensures forall k: nat ::
      Dropped(was.rents, EndRent(now, i).rents, k) <==> Dropped(was.rents, now.rents, k) || k == i
  {
  }

  lemma EndingKeepsProperties(was: State, now: State, i: nat)
    requires OnlyEnds(was.rents, now.rents) && i < |now.rents| && now.rents[i].active
    requires PropertiesFollow(was, now)
    ensures PropertiesFollow(was, EndRent(now, i))
  {
    var later := EndRent(now, i);
    DroppedAfterEnding(was, now, i);
    forall p: nat
      ensures LostRent(was.rents, later.rents, p) <==> LostRent(was.rents, now.rents, p) || p == was.rents[i].property
    {
      if p == was.rents[i].property { assert Dropped(was.rents, later.rents, i); }
    }
  }

  lemma EndingKeepsTenancies(was: State, now: State, i: nat)
    requires OnlyEnds(was.rents, now.rents) && i < |now.rents| && now.rents[i].active
    requires TenanciesFollow(was, now)
    ensures TenanciesFollow(was, EndRent(now, i))
  {
    var later := EndRent(now, i);
    DroppedAfterEnding(was, now, i);
    forall t: Tenancy
      ensures LostTenancy(was.rents, later.rents, t)
        <==> LostTenancy(was.rents, now.rents, t)
             || (t.property == was.rents[i].property && t.tenant == was.rents[i].tenant)
    {
      if t.property == was.rents[i].property && t.tenant == was.rents[i].tenant {
        assert Dropped(was.rents, later.rents, i);
      }
    }
  }

  lemma EndingKeepsHistory(was: State, now: State, i: nat)
    requires OnlyEnds(was.rents, now.rents) && i < |now.rents| && now.rents[i].active
    requires HistoryFollows(was, now)
    ensures HistoryFollows(was, EndRent(now, i))
  {
    DroppedAfterEnding(was, now, i);
    var tail := now.history[|was.history|..];
    assert (now.history + [i])[|was.history|..] == tail + [i];
    assert i !in tail;
  }

  lemma EndingFollows(was: State, now: State, i: nat)
    requires Follows(was, now) && i < |now.rents| && now.rents[i].active
    ensures Follows(was, EndRent(now, i))
  {
    DroppedAfterEnding(was, now, i);
    EndingKeepsProperties(was, now, i);
    EndingKeepsTenancies(was, now, i);
    EndingKeepsHistory(was, now, i);
  }

  // ---------------------------------------------------------------------
  // Keeping a tenant's most recent rent
  // ---------------------------------------------------------------------

  predicate AllActive(rents: seq<Rent>, ids: seq<nat>) {
    forall k :: 0 <= k < |ids| ==> ids[k] < |rents| && rents[ids[k]].active
  }

  function EndAll(s: State, ids: seq<nat>): (r: State)
    requires forall k :: 0 <= k < |ids| ==> ids[k] < |s.rents|
    ensures |r.rents| == |s.rents|
  {
    if ids == [] then s else EndRent(EndAll(s, ids[..|ids| - 1]), ids[|ids| - 1])
  }

  lemma {:induction false} EndAllRents(s: State, ids: seq<nat>)
    requires Distinct(ids) && AllActive(s.rents, ids)
    ensures forall i: nat :: i < |s.rents| ==>
      EndAll(s, ids).rents[i] == if i in ids then Ended(s.rents[i]) else s.rents[i]
  {
    if ids != [] {
      var n := |ids| - 1;
      assert ids == ids[..n] + [ids[n]];
      assert ids[n] !in ids[..n];
      EndAllRents(s, ids[..n]);
    }
  }

  lemma {:induction false} EndAllFollows(was: State, s: State, ids: seq<nat>)
    requires Follows(was, s) && Distinct(ids) && AllActive(s.rents, ids)
    ensures Follows(was, EndAll(s, ids))
  {
    if ids != [] {
      var n := |ids| - 1;
      assert ids[n] !in ids[..n];
      EndAllFollows(was, s, ids[..n]);
      EndAllRents(s, ids[..n]);
      EndingFollows(was, EndAll(s, ids[..n]), ids[n]);
    }
  }

  /** The older rents of one tenant, as the query returned them. */
  lemma OlderRents(rents: seq<Rent>, t: nat, order: seq<nat>)
    requires IsActiveRentsOf(rents, t, order) && |order| > 1
    ensures Distinct(order[1..]) && AllActive(rents, order[1..])
    ensures forall i: nat :: i in order[1..] <==> ActiveFor(rents, t, i) && i != order[0]
  {
    assert order == [order[0]] + order[1..];
    forall k | 0 <= k < |order[1..]|
      ensures order[1..][k] < |rents| && rents[order[1..][k]].active && order[1..][k] != order[0]
    {
      assert order[1..][k] in order;
    }
  }

  lemma KeepingNewestSettles(was: seq<Rent>, s: State, t: nat, order: seq<nat>)
    requires OnlyEnds(was, s.rents) && Untouched(was, s.rents, t)
    requires IsActiveRentsOf(s.rents, t, order) && |order| > 1
    requires Distinct(order[1..]) && AllActive(s.rents, order[1..])
    ensures OnlyEnds(was, EndAll(s, order[1..]).rents) ==> Settled(was, EndAll(s, order[1..]).rents, t)
  {
    OlderRents(s.rents, t, order);
    EndAllRents(s, order[1..]);
    var now := EndAll(s, order[1..]).rents;
    var kept := order[0];
    assert kept in order;
    assert ActiveFor(now, t, kept);
    forall i: nat | Dropped(was, now, i) && was[i].tenant == t
      ensures exists j: nat :: ActiveFor(now, t, j) && was[j].createdAt >= was[i].createdAt
    {
      assert i in order;
      var k :| 0 <= k < |order| && order[k] == i;
      assert s.rents[order[0]].createdAt >= s.rents[order[k]].createdAt;
    }
  }

  lemma KeepingNewestSparesOthers(s: State, t: nat, order: seq<nat>, u: nat)
    requires IsActiveRentsOf(s.rents, t, order) && |order| > 1 && u != t
    requires Distinct(order[1..]) && AllActive(s.rents, order[1..])
    ensures Untouched(s.rents, EndAll(s, order[1..]).rents, u)
  {
    OlderRents(s.rents, t, order);
    EndAllRents(s, order[1..]);
  }

  lemma SettledStays(was: seq<Rent>, mid: seq<Rent>, now: seq<Rent>, t: nat)
    requires OnlyEnds(was, mid) && OnlyEnds(was, now) && Untouched(mid, now, t)
    requires Settled(was, mid, t)
    ensures Settled(was, now, t)
  {
    forall i: nat | i < |was| && was[i].tenant == t ensures ActiveFor(now, t, i) <==> ActiveFor(mid, t, i) {
      assert mid[i].tenant == t && now[i] == mid[i];
    }
    forall i: nat, j: nat | ActiveFor(now, t, i) && ActiveFor(now, t, j) ensures i == j {
      assert was[i].tenant == t && was[j].tenant == t;
      assert ActiveFor(mid, t, i) && ActiveFor(mid, t, j);
    }
    forall i: nat | Dropped(was, now, i) && was[i].tenant == t
      ensures exists j: nat :: ActiveFor(now, t, j) && was[j].createdAt >= was[i].createdAt
    {
      assert Dropped(was, mid, i);
      var j: nat :| ActiveFor(mid, t, j) && was[j].createdAt >= was[i].createdAt;
      assert ActiveFor(now, t, j);
    }
  }

  lemma UncrowdedIsSettled(was: seq<Rent>, now: seq<Rent>, t: nat)
    requires OnlyEnds(was, now) && Untouched(was, now, t) && CountActive(was, t) <= 1
    ensures Settled(was, now, t)
  {
    forall i: nat, j: nat | ActiveFor(now, t, i) && ActiveFor(now, t, j) ensures i == j {
      if i < j { CountSeesTwo(was, t, i, j); }
      if j < i { CountSeesTwo(was, t, j, i); }
    }
  }

  // ---------------------------------------------------------------------
  // Main results
  // ---------------------------------------------------------------------

  /** Every tenant ends with at most one active rent; whoever had one keeps a most recent one. */
  lemma KeepsTheNewest(was: State, now: State, t: nat)
    requires Cleaned(was, now)
    ensures CountActive(now.rents, t) == if CountActive(was.rents, t) == 0 then 0 else 1
    ensures forall i: nat, j: nat :: ActiveFor(now.rents, t, i) && ActiveFor(was.rents, t, j) ==>
      was.rents[i].active && was.rents[i].createdAt >= was.rents[j].createdAt
  {
    assert Settled(was.rents, now.rents, t);
    if CountActive(now.rents, t) > 1 {
      var i, j := CountShowsTwo(now.rents, t);
      assert false;
    }
    if CountActive(was.rents, t) == 0 {
      if CountActive(now.rents, t) >= 1 {
        var i := CountShows(now.rents, t);
        CountSees(was.rents, t, i);
        assert false;
      }
    } else {
      var i := CountShows(was.rents, t);
      if ActiveFor(now.rents, t, i) {
        CountSees(now.rents, t, i);
      } else {
        assert Dropped(was.rents, now.rents, i);
        var j: nat :| ActiveFor(now.rents, t, j) && was.rents[j].createdAt >= was.rents[i].createdAt;
        CountSees(now.rents, t, j);
      }
    }
    forall i: nat, j: nat | ActiveFor(now.rents, t, i) && ActiveFor(was.rents, t, j)
      ensures was.rents[i].active && was.rents[i].createdAt >= was.rents[j].createdAt
    {
      if j != i {
        assert !ActiveFor(now.rents, t, j);
        assert Dropped(was.rents, now.rents, j);
        var k: nat :| ActiveFor(now.rents, t, k) && was.rents[k].createdAt >= was.rents[j].createdAt;
        assert k == i;
      }
    }
  }

  /** A property is left occupied only with an active rent on it. */
  lemma OccupiedIsRented(was: State, now: State, p: nat)
    requires Cleaned(was, now) && p < |now.properties| && now.properties[p].Occupied?
    ensures exists i :: 0 <= i < |now.rents| && now.rents[i].active && now.rents[i].property == p
  {
    assert !(LostRent(was.rents, now.rents, p) || Abandoned(was, now, p));
  }

  lemma SettledEndsNothing(was: State, mid: State, now: State, i: nat)
    requires Cleaned(was, mid) && Cleaned(mid, now)
    ensures !Dropped(mid.rents, now.rents, i)
  {
    if i < |mid.rents| {
      var t := mid.rents[i].tenant;
      assert Settled(was.rents, mid.rents, t) && Settled(mid.rents, now.rents, t);
      forall j: nat | ActiveFor(now.rents, t, j) && ActiveFor(mid.rents, t, i) ensures i == j {
        assert ActiveFor(mid.rents, t, j);
      }
    }
  }

  /** A second cleanup changes nothing and reports zero twice. */
  lemma SecondCleanupIsIdle(was: State, mid: State, now: State, tenants: nat, properties: nat)
    requires Cleaned(was, mid) && Cleaned(mid, now) && Counted(mid, now, tenants, properties)
    ensures now == mid && tenants == 0 && properties == 0
  {
    forall i: nat ensures !Dropped(mid.rents, now.rents, i) { SettledEndsNothing(was, mid, now, i); }
    assert now.rents == mid.rents by {
      forall i | 0 <= i < |mid.rents| ensures now.rents[i] == mid.rents[i] {
        assert !Dropped(mid.rents, now.rents, i);
      }
    }
    assert now.tenancies == mid.tenancies;
    var tail := now.history[|mid.history|..];
    assert tail == [] by { LastIsIn(tail); }
    assert now.history == mid.history + tail;
    NothingAbandoned(was, mid, now);
    assert now.properties == mid.properties;
    assert AbandonedSet(mid, now) == {};
    NobodyCrowded(was, mid);
  }

  lemma LastIsIn(ids: seq<nat>)
    ensures ids == [] || ids[|ids| - 1] in ids
  {
  }

  lemma NothingAbandoned(was: State, mid: State, now: State)
    requires Cleaned(was, mid) && now.rents == mid.rents && |now.properties| == |mid.properties|
    ensures forall p: nat :: !Abandoned(mid, now, p)
  {
    forall p: nat ensures !Abandoned(mid, now, p) {
      if p < |mid.properties| && mid.properties[p].Occupied? { OccupiedIsRented(was, mid, p); }
    }
  }

  lemma NobodyCrowded(was: State, mid: State)
    requires Cleaned(was, mid)
    ensures Crowded(mid.rents) == {}
  {
    forall t: nat ensures CountActive(mid.rents, t) <= 1 { KeepsTheNewest(was, mid, t); }
  }

  /** Some active rent of the same tenant is more recent: a caller can see this before the cleanup. */
  predicate Outdated(rents: seq<Rent>, i: nat)
    requires i < |rents|
  {
    rents[i].active && exists j :: 0 <= j < |rents| && rents[j].active && rents[j].tenant == rents[i].tenant
                                   && rents[j].createdAt > rents[i].createdAt
  }

  /** No tenant has two active rents created at one instant. */
  predicate DatesApart(rents: seq<Rent>) {
    forall i, j :: 0 <= i < j < |rents| && rents[i].active && rents[j].active && rents[i].tenant == rents[j].tenant ==>
      rents[i].createdAt != rents[j].createdAt
  }

  /** With distinct dates the cleanup has no choice: it ends exactly the outdated rents. */
  lemma DroppedIffOutdated(was: State, now: State, i: nat)
    requires Cleaned(was, now) && DatesApart(was.rents) && i < |was.rents|
    ensures Dropped(was.rents, now.rents, i) <==> Outdated(was.rents, i)
  {
    var t := was.rents[i].tenant;
    if Dropped(was.rents, now.rents, i) {
      assert Settled(was.rents, now.rents, t);
      var j: nat :| ActiveFor(now.rents, t, j) && was.rents[j].createdAt >= was.rents[i].createdAt;
      assert i != j && was.rents[j].active;
    }
    KeepsTheNewest(was, now, t);
    assert now.rents[i].active ==> ActiveFor(now.rents, t, i);
    forall j | 0 <= j < |was.rents| && was.rents[j].active && was.rents[j].tenant == t
               && was.rents[j].createdAt > was.rents[i].createdAt
      ensures !now.rents[i].active
    {
      assert ActiveFor(was.rents, t, j);
    }
  }

  /**
   * An occupied property still rented after the cleanup stays occupied exactly
   * if no outdated rent, of whichever tenant, was on it.
   */
  lemma StaysOccupiedIff(was: State, now: State, p: nat)
    requires Cleaned(was, now) && DatesApart(was.rents)
    requires p < |was.properties| && was.properties[p].Occupied? && HasActiveRent(now.rents, p)
    ensures now.properties[p].Occupied?
      <==> !exists i :: 0 <= i < |was.rents| && was.rents[i].property == p && Outdated(was.rents, i)
  {
    forall i | 0 <= i < |was.rents|
      ensures Dropped(was.rents, now.rents, i) <==> Outdated(was.rents, i)
    {
      DroppedIffOutdated(was, now, i);
    }
  }

  /** No two active rents are left with one tenant, and a tenant who had one is left with one at least as recent. */
  lemma OneNewestEach(was: State, now: State)
    requires Cleaned(was, now)
    ensures forall i, j ::
      0 <= i < j < |now.rents| && now.rents[i].active && now.rents[j].active ==>
        now.rents[i].tenant != now.rents[j].tenant
    ensures forall j :: 0 <= j < |was.rents| && was.rents[j].active ==>
      exists i :: 0 <= i < |now.rents| && now.rents[i].active && now.rents[i].tenant == was.rents[j].tenant
                  && was.rents[i].active && was.rents[i].createdAt >= was.rents[j].createdAt
  {
    forall i, j | 0 <= i < j < |now.rents| && now.rents[i].active && now.rents[j].active
      ensures now.rents[i].tenant != now.rents[j].tenant
    {
      var t := now.rents[i].tenant;
      assert Settled(was.rents, now.rents, t);
      assert ActiveFor(now.rents, t, i) && (now.rents[j].tenant == t ==> ActiveFor(now.rents, t, j));
    }
    forall j | 0 <= j < |was.rents| && was.rents[j].active
      ensures exists i :: 0 <= i < |now.rents| && now.rents[i].active && now.rents[i].tenant == was.rents[j].tenant
                          && was.rents[i].active && was.rents[i].createdAt >= was.rents[j].createdAt
    {
      var t := was.rents[j].tenant;
      assert Settled(was.rents, now.rents, t);
      if !now.rents[j].active {
        assert Dropped(was.rents, now.rents, j);
        var i: nat :| ActiveFor(now.rents, t, i) && was.rents[i].createdAt >= was.rents[j].createdAt;
        assert now.rents[i].active && was.rents[i].active;
      }
    }
  }

  /** The tenants a run counts are those with two active rents. */
  lemma CrowdedMeans(rents: seq<Rent>, t: nat)
    ensures t in Crowded(rents) <==>
      exists i, j :: 0 <= i < j < |rents| && rents[i].active && rents[j].active
                     && rents[i].tenant == t && rents[j].tenant == t
  {
    if t in Crowded(rents) {
      var i, j := CountShowsTwo(rents, t);
    }
    if i, j :| 0 <= i < j < |rents| && rents[i].active && rents[j].active && rents[i].tenant == t
               && rents[j].tenant == t {
      CountSeesTwo(rents, t, i, j);
    }
  }

  /**
   * With distinct dates, every table after a cleanup, row by row: which rents
   * end and how, whose tenancies, and which properties become vacant.
   */
  lemma CleanupByColumns(was: State, now: State)
    requires Cleaned(was, now) && DatesApart(was.rents)
    ensures |now.rents| == |was.rents| && |now.tenancies| == |was.tenancies| && |now.properties| == |was.properties|
    ensures forall i :: 0 <= i < |was.rents| ==>
      now.rents[i] == if Outdated(was.rents, i) then was.rents[i].(active := false, owing := true) else was.rents[i]
    ensures forall k :: 0 <= k < |was.tenancies| ==>
      var t := was.tenancies[k];
      now.tenancies[k]
      == if exists i :: 0 <= i < |was.rents| && Outdated(was.rents, i) && was.rents[i].tenant == t.tenant
                        && was.rents[i].property == t.property
         then t.(active := false) else t
    ensures forall p :: 0 <= p < |was.properties| ==>
      now.properties[p]
      == if (exists i :: 0 <= i < |was.rents| && Outdated(was.rents, i) && was.rents[i].property == p)
            || (was.properties[p] == Occupied
                && forall i :: 0 <= i < |was.rents| && was.rents[i].active ==> was.rents[i].property != p)
         then Vacant else was.properties[p]
  {
    forall i | 0 <= i < |was.rents| ensures Dropped(was.rents, now.rents, i) <==> Outdated(was.rents, i) {
      DroppedIffOutdated(was, now, i);
    }
    forall p | 0 <= p < |was.properties| && !LostRent(was.rents, now.rents, p)
      ensures HasActiveRent(now.rents, p) <==>
        exists i :: 0 <= i < |was.rents| && was.rents[i].active && was.rents[i].property == p
    {
      StillRented(was.rents, now.rents, p);
    }
  }

  lemma StillRented(was: seq<Rent>, now: seq<Rent>, p: nat)
    requires OnlyEnds(was, now) && !LostRent(was, now, p)
    ensures HasActiveRent(now, p) <==> exists i :: 0 <= i < |was| && was[i].active && was[i].property == p
  {
    if i :| 0 <= i < |was| && was[i].active && was[i].property == p {
      assert !Dropped(was, now, i);
      assert now[i].active && now[i].property == p;
    }
    if HasActiveRent(now, p) {
      var i :| 0 <= i < |now| && now[i].active && now[i].property == p;
      assert was[i].active && was[i].property == p;
    }
  }

  /** One tenant, one property, two active rents: the tenant keeps a rent on a property marked vacant. */
  lemma RentedPropertyGoesVacant(now: State)
    requires var was := State([Rent(0, 0, 1, true, false), Rent(0, 0, 2, true, false)], [Tenancy(0, 0, true)],
                              [Occupied], []);
      Cleaned(was, now)
    ensures ActiveFor(now.rents, 0, 1) && now.properties == [Vacant] && !now.tenancies[0].active
  {
    var was := State([Rent(0, 0, 1, true, false), Rent(0, 0, 2, true, false)], [Tenancy(0, 0, true)], [Occupied], []);
    assert was.rents[1].createdAt > was.rents[0].createdAt;
    assert Outdated(was.rents, 0);
    DroppedIffOutdated(was, now, 0);
    DroppedIffOutdated(was, now, 1);
    assert Dropped(was.rents, now.rents, 0);
  }

  // ---------------------------------------------------------------------
  // The service
  // ---------------------------------------------------------------------

  /** Where a rent goes in a list that is most recent first. */
  function Rank(rents: seq<Rent>, i: nat, order: seq<nat>): (k: nat)
    requires i < |rents| && forall k :: 0 <= k < |order| ==> order[k] < |rents|
    ensures k <= |order|
    ensures forall j :: 0 <= j < k ==> rents[order[j]].createdAt > rents[i].createdAt
    ensures k < |order| ==> rents[order[k]].createdAt <= rents[i].createdAt
  {
    if order == [] || rents[order[0]].createdAt <= rents[i].createdAt then 0 else 1 + Rank(rents, i, order[1..])
  }

  function InsertByDate(rents: seq<Rent>, i: nat, order: seq<nat>): seq<nat>
    requires i < |rents| && forall k :: 0 <= k < |order| ==> order[k] < |rents|
  {
    var k := Rank(rents, i, order);
    order[..k] + [i] + order[k..]
  }

  lemma InsertKeepsOrder(rents: seq<Rent>, i: nat, order: seq<nat>)
    requires i < |rents| && NewestFirst(rents, order)
    ensures NewestFirst(rents, InsertByDate(rents, i, order))
  {
    var k := Rank(rents, i, order);
    forall m | k <= m < |order| ensures rents[i].createdAt >= rents[order[m]].createdAt {
    }
  }

  lemma InsertKeepsMembers(rents: seq<Rent>, i: nat, order: seq<nat>)
    requires i < |rents| && NewestFirst(rents, order) && Distinct(order) && i !in order
    ensures Distinct(InsertByDate(rents, i, order))
    ensures forall k: nat :: k in InsertByDate(rents, i, order) <==> k == i || k in order
  {
    var k := Rank(rents, i, order);
    assert order == order[..k] + order[k..];
  }

  class TenantAttachmentService {
    var rents: seq<Rent>
    var tenancies: seq<Tenancy>
    var properties: seq<PropertyStatus>
    var history: seq<nat>

    constructor (s: State)
      ensures Now() == s
    {
      rents, tenancies, properties, history := s.rents, s.tenancies, s.properties, s.history;
    }

    function Now(): State
      reads this
    {
      State(rents, tenancies, properties, history)
    }

    /** Tenants with more than one active rent. */
    method FindCrowdedTenants() returns (ts: seq<nat>)
      ensures IsCrowdedTenants(rents, ts)
    {
      ts := [];
      for i := 0 to |rents|
        invariant Distinct(ts)
        invariant forall t: nat :: t in ts ==> CountActive(rents, t) > 1
        invariant forall k :: 0 <= k < i && CountActive(rents, rents[k].tenant) > 1 ==> rents[k].tenant in ts
      {
        var t := rents[i].tenant;
        if CountActive(rents, t) > 1 && t !in ts { ts := ts + [t]; }
      }
      forall t: nat | CountActive(rents, t) > 1 ensures t in ts {
        var i := CountShows(rents, t);
      }
    }

    /** A tenant's active rents, most recent first. */
    method FindActiveRents(t: nat) returns (order: seq<nat>)
      ensures IsActiveRentsOf(rents, t, order)
    {
      order := [];
      for i := 0 to |rents|
        invariant Distinct(order) && NewestFirst(rents, order)
        invariant forall k: nat :: k in order <==> k < i && ActiveFor(rents, t, k)
      {
        if rents[i].active && rents[i].tenant == t {
          InsertKeepsOrder(rents, i, order);
          InsertKeepsMembers(rents, i, order);
          order := InsertByDate(rents, i, order);
        }
      }
    }

    /** Ends one rent, with its tenancy, its property and a history row. */
    method EndOldRent(id: nat)
      requires id < |rents|
      modifies this
      ensures Now() == EndRent(old(Now()), id)
    {
      var r := rents[id];
      rents := rents[id := r.(active := false, owing := true)];
      tenancies := EndTenancies(tenancies, r.tenant, r.property);
      properties := SetVacant(properties, r.property);
      history := history + [id];
    }

    /** Ends every rent of `order` but the first. */
    method EndOlderRents(order: seq<nat>)
      requires |order| > 1
      requires forall k :: 0 <= k < |order[1..]| ==> order[1..][k] < |rents|
      modifies this
      ensures Now() == EndAll(old(Now()), order[1..])
      ensures |history| == |old(history)| + |order| - 1
    {
      ghost var was := Now();
      var older := order[1..];
      for k := 0 to |older|
        invariant Now() == EndAll(was, older[..k])
        invariant |history| == |was.history| + k
      {
        assert older[..k + 1][..k] == older[..k];
        EndOldRent(older[k]);
      }
      assert older[..|older|] == older;
    }

    /** First pass: each tenant with several active rents keeps only the most recent. */
    method EndDuplicates() returns (cleanedUpTenants: nat, cleanedUpProperties: nat)
      modifies this
      ensures Follows(old(Now()), Now())
      ensures forall t: nat :: Settled(old(rents), rents, t)
      ensures cleanedUpTenants == |Crowded(old(rents))| && cleanedUpProperties == |history| - |old(history)|
    {
      ghost var was := Now();
      cleanedUpTenants, cleanedUpProperties := 0, 0;
      var duplicates := FindCrowdedTenants();
      NothingYetFollows(was);
      for k := 0 to |duplicates|
        invariant PassRight(was, Now(), duplicates[..k])
        invariant cleanedUpTenants == k && cleanedUpProperties == |history| - |was.history|
      {
        ghost var mid := Now();
        var t := duplicates[k];
        var order := FindActiveRents(t);
        assert t !in duplicates[..k];
        assert t in duplicates;
        StillCrowded(was.rents, rents, t, order);
        if |order| > 1 {
          OlderRents(rents, t, order);
          EndOlderRents(order);
          KeepingNewestStep(was, mid, t, order, duplicates[..k]);
          NextPrefix(duplicates, k);
          cleanedUpProperties := cleanedUpProperties + (|order| - 1);
          cleanedUpTenants := cleanedUpTenants + 1;
        }
      }
      assert duplicates[..|duplicates|] == duplicates;
      AllSettled(was, Now(), duplicates);
      CrowdedCount(was.rents, duplicates);
    }

    /** Second pass: occupied properties without an active rent become vacant. */
    method VacateUnrented() returns (cleanedUpProperties: nat)
      modifies this`properties
      ensures |properties| == |old(properties)|
      ensures forall p: nat :: p < |properties| ==>
        properties[p] == if p in Unrented(old(properties), rents) then Vacant else old(properties)[p]
      ensures cleanedUpProperties == |Unrented(old(properties), rents)|
    {
      ghost var was := properties;
      cleanedUpProperties := 0;
      var unrented := Unrented(properties, rents);
      UnrentedMeans(properties, rents);
      for k := 0 to |unrented|
        invariant |properties| == |was|
        invariant forall p: nat :: p < |properties| ==>
          properties[p] == if p in unrented[..k] then Vacant else was[p]
        invariant cleanedUpProperties == k
      {
        assert unrented[k] in unrented;
        assert unrented[..k + 1] == unrented[..k] + [unrented[k]];
        properties := properties[unrented[k] := Vacant];
        cleanedUpProperties := cleanedUpProperties + 1;
      }
      assert unrented[..|unrented|] == unrented;
    }

    method FixExistingDataInconsistencies() returns (cleanedUpTenants: nat, cleanedUpProperties: nat)
      modifies this
      ensures Cleaned(old(Now()), Now())
      ensures Counted(old(Now()), Now(), cleanedUpTenants, cleanedUpProperties)
    {
      ghost var was := Now();
      var ended: nat;
      cleanedUpTenants, ended := EndDuplicates();
      ghost var mid := Now();
      var vacated := VacateUnrented();
      SecondPassCleans(was, mid, Now());
      cleanedUpProperties := ended + vacated;
    }
  }

  lemma NextPrefix(ids: seq<nat>, k: nat)
    requires k < |ids|
    ensures ids[..k + 1] == ids[..k] + [ids[k]]
  {
  }

  /** The first pass so far: the tenants in `done` are settled and no other was touched. */
  ghost predicate PassRight(was: State, now: State, done: seq<nat>) {
    && Follows(was, now)
    && (forall j :: 0 <= j < |done| ==> Settled(was.rents, now.rents, done[j]))
    && (forall u: nat :: u !in done ==> Untouched(was.rents, now.rents, u))
  }

  lemma NothingYetFollows(s: State)
    ensures Follows(s, s)
    ensures forall t: nat :: Untouched(s.rents, s.rents, t)
  {
    assert s.history[|s.history|..] == [];
  }

  lemma StillCrowded(was: seq<Rent>, now: seq<Rent>, t: nat, order: seq<nat>)
    requires |now| == |was| && OnlyEnds(was, now) && Untouched(was, now, t)
    requires IsActiveRentsOf(now, t, order) && CountActive(was, t) > 1
    ensures |order| > 1
  {
    var i, j := CountShowsTwo(was, t);
    assert ActiveFor(now, t, i) && ActiveFor(now, t, j);
    assert i in order && j in order;
  }

  lemma KeepingNewestStep(was: State, mid: State, t: nat, order: seq<nat>, done: seq<nat>)
    requires PassRight(was, mid, done) && t !in done
    requires IsActiveRentsOf(mid.rents, t, order) && |order| > 1
    requires Distinct(order[1..]) && AllActive(mid.rents, order[1..])
    ensures PassRight(was, EndAll(mid, order[1..]), done + [t])
  {
    var now := EndAll(mid, order[1..]);
    EndAllFollows(was, mid, order[1..]);
    KeepingNewestSettles(was.rents, mid, t, order);
    forall j | 0 <= j < |done| ensures Settled(was.rents, now.rents, done[j]) {
      KeepingNewestSparesOthers(mid, t, order, done[j]);
      SettledStays(was.rents, mid.rents, now.rents, done[j]);
    }
    forall u: nat | u !in done && u != t ensures Untouched(was.rents, now.rents, u) {
      KeepingNewestSparesOthers(mid, t, order, u);
    }
  }

  lemma AllSettled(was: State, mid: State, duplicates: seq<nat>)
    requires PassRight(was, mid, duplicates) && IsCrowdedTenants(was.rents, duplicates)
    ensures forall t: nat :: Settled(was.rents, mid.rents, t)
  {
    forall t: nat ensures Settled(was.rents, mid.rents, t) {
      if t !in duplicates { UncrowdedIsSettled(was.rents, mid.rents, t); }
    }
  }

  lemma SecondPassCleans(was: State, mid: State, now: State)
    requires Follows(was, mid) && forall t: nat :: Settled(was.rents, mid.rents, t)
    requires now == mid.(properties := now.properties) && |now.properties| == |mid.properties|
    requires forall p: nat :: p < |now.properties| ==>
      now.properties[p] == if p in Unrented(mid.properties, mid.rents) then Vacant else mid.properties[p]
    ensures Cleaned(was, now)
    ensures |Unrented(mid.properties, mid.rents)| == |AbandonedSet(was, now)|
  {
    var unrented := Unrented(mid.properties, mid.rents);
    UnrentedMeans(mid.properties, mid.rents);
    forall p: nat ensures p in unrented <==> p in AbandonedSet(was, now) {
    }
    DistinctCard(unrented, AbandonedSet(was, now));
  }

  lemma CrowdedCount(rents: seq<Rent>, ts: seq<nat>)
    requires IsCrowdedTenants(rents, ts)
    ensures |ts| == |Crowded(rents)|
  {
    forall t: nat ensures t in ts <==> t in Crowded(rents) {
      if t in ts { var i := CountShows(rents, t); }
    }
    DistinctCard(ts, Crowded(rents));
  }
}
