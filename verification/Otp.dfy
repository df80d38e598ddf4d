/**
 * One-time codes for a phone number and a link token, as the KYC links and the
 * landlord onboarding both keep them. Instants are milliseconds; nothing here
 * assumes that the clock never steps back between calls.
 */
module Otp {
  import opened Options

  datatype Key = Key(phone: string, token: string)

  datatype Row = Row(key: Key, code: string, createdAt: int, active: bool, verified: bool)

  /** A verification token handed out for row `row` at `at`. */
  datatype Issue = Issue(row: nat, at: int)

  datatype State = State(rows: seq<Row>, issued: seq<Issue>)

  datatype Error = BadLinkOrPhone | SentRecently | InvalidCode | Expired | AlreadyUsed

  /** `valid` tells whether the link token and the phone number pass their own checks. */
  datatype Event =
    | SendOtp(key: Key, valid: bool, code: string, now: int)
    | VerifyOtp(key: Key, valid: bool, code: string, now: int)

  const RESEND_AFTER := 60000
  const LIFETIME := 10 * 60000

  function ExpiresAt(r: Row): int { r.createdAt + LIFETIME }

  /** The key's row with the greatest creation time. */
  function MostRecent(rows: seq<Row>, key: Key): Option<nat> {
    if rows == [] then None
    else
      var n := |rows| - 1;
      var before := MostRecent(rows[..n], key);
      if rows[n].key != key then before
      else if before.Some? && before.value < n && rows[before.value].createdAt > rows[n].createdAt then before
      else Some(n)
  }

  /** A row an active code of this key is found in. */
  function FindActive(rows: seq<Row>, key: Key, code: string): Option<nat> {
    if rows == [] then None
    else
      var n := |rows| - 1;
      if rows[n].key == key && rows[n].code == code && rows[n].active then Some(n)
      else FindActive(rows[..n], key, code)
  }

  function Deactivated(rows: seq<Row>, key: Key): seq<Row> {
    if rows == [] then []
    else
      var r := rows[|rows| - 1];
      Deactivated(rows[..|rows| - 1], key) + [if r.key == key && r.active then r.(active := false) else r]
  }

  predicate TooSoon(rows: seq<Row>, key: Key, now: int) {
    var recent := MostRecent(rows, key);
    recent.Some? && recent.value < |rows| && now - rows[recent.value].createdAt < RESEND_AFTER
  }

  function Send(s: State, key: Key, valid: bool, code: string, now: int): (State, Result<int, Error>) {
    if !valid then (s, Failure(BadLinkOrPhone))
    else if TooSoon(s.rows, key, now) then (s, Failure(SentRecently))
    else (s.(rows := Deactivated(s.rows, key) + [Row(key, code, now, true, false)]), Success(now + LIFETIME))
  }

  function Verify(s: State, key: Key, valid: bool, code: string, now: int): (State, Result<nat, Error>) {
    if !valid then (s, Failure(BadLinkOrPhone))
    else
      var found := FindActive(s.rows, key, code);
      if found.None? || found.value >= |s.rows| then (s, Failure(InvalidCode))
      else
        var i := found.value;
        var r := s.rows[i];
        if now > ExpiresAt(r) then (s.(rows := s.rows[i := r.(active := false)]), Failure(Expired))
        else if r.verified then (s, Failure(AlreadyUsed))
        else (State(s.rows[i := r.(verified := true, active := false)], s.issued + [Issue(i, now)]), Success(i))
  }

  function Step(s: State, e: Event): State {
    match e
    case SendOtp(key, valid, code, now) => Send(s, key, valid, code, now).0
    case VerifyOtp(key, valid, code, now) => Verify(s, key, valid, code, now).0
  }

  function Run(es: seq<Event>): State {
    if es == [] then State([], []) else Step(Run(es[..|es| - 1]), es[|es| - 1])
  }

  // ---------------------------------------------------------------------
  // The invariant
  // ---------------------------------------------------------------------

  predicate IsLatest(rows: seq<Row>, i: nat)
    requires i < |rows|
  {
    forall j :: i < j < |rows| ==> rows[j].key != rows[i].key
  }

  /** Codes of one key are sent at least a minute apart. */
  ghost predicate Spaced(rows: seq<Row>) {
    forall i, j :: 0 <= i < j < |rows| && rows[i].key == rows[j].key ==>
        rows[j].createdAt >= rows[i].createdAt + RESEND_AFTER
  }

  ghost predicate OnlyLatestActive(rows: seq<Row>) {
    forall i :: 0 <= i < |rows| && rows[i].active ==> IsLatest(rows, i) && !rows[i].verified
  }

  /** One token for each verified row and none for any other, each within the code's ten minutes. */
  ghost predicate IssuedRight(s: State) {
    && (forall k :: 0 <= k < |s.issued| ==>
          var i := s.issued[k].row;
          i < |s.rows| && s.rows[i].verified && s.issued[k].at <= ExpiresAt(s.rows[i]))
    && (forall j, k :: 0 <= j < k < |s.issued| ==> s.issued[j].row != s.issued[k].row)
    && (forall i :: 0 <= i < |s.rows| && s.rows[i].verified ==> exists k :: 0 <= k < |s.issued| && s.issued[k].row == i)
  }

  ghost predicate Right(s: State) {
    Spaced(s.rows) && OnlyLatestActive(s.rows) && IssuedRight(s)
  }

  lemma {:induction false} MostRecentIsLast(rows: seq<Row>, key: Key)
    requires Spaced(rows)
    ensures var m := MostRecent(rows, key);
      if m.Some? then m.value < |rows| && rows[m.value].key == key && IsLatest(rows, m.value)
      else forall i :: 0 <= i < |rows| ==> rows[i].key != key
  {
    if rows != [] { MostRecentIsLast(rows[..|rows| - 1], key); }
  }

  lemma {:induction false} FindActiveFinds(rows: seq<Row>, key: Key, code: string)
    ensures var f := FindActive(rows, key, code);
      if f.Some? then f.value < |rows| && rows[f.value].key == key && rows[f.value].code == code && rows[f.value].active
      else forall i :: 0 <= i < |rows| && rows[i].active && rows[i].key == key ==> rows[i].code != code
  {
    if rows != [] { FindActiveFinds(rows[..|rows| - 1], key, code); }
  }

  lemma {:induction false} DeactivatedMeans(rows: seq<Row>, key: Key)
    ensures |Deactivated(rows, key)| == |rows|
    ensures forall i :: 0 <= i < |rows| ==>
      Deactivated(rows, key)[i] == if rows[i].key == key then rows[i].(active := false) else rows[i]
  {
    if rows != [] { DeactivatedMeans(rows[..|rows| - 1], key); }
  }

  lemma SendKeepsRows(s: State, key: Key, valid: bool, code: string, now: int)
    requires Right(s)
    ensures Spaced(Send(s, key, valid, code, now).0.rows) && OnlyLatestActive(Send(s, key, valid, code, now).0.rows)
  {
    DeactivatedMeans(s.rows, key);
    MostRecentIsLast(s.rows, key);
    var rows' := Send(s, key, valid, code, now).0.rows;
    forall i | 0 <= i < |rows'| && rows'[i].active ensures IsLatest(rows', i) && !rows'[i].verified {
      if i < |s.rows| && |rows'| > |s.rows| { assert s.rows[i].active && IsLatest(s.rows, i); }
    }
  }

  lemma SendKeepsIssued(s: State, key: Key, valid: bool, code: string, now: int)
    requires Right(s)
    ensures IssuedRight(Send(s, key, valid, code, now).0)
  {
    DeactivatedMeans(s.rows, key);
  }

  lemma VerifyKeepsRows(s: State, key: Key, valid: bool, code: string, now: int)
    requires Right(s)
    ensures Spaced(Verify(s, key, valid, code, now).0.rows) && OnlyLatestActive(Verify(s, key, valid, code, now).0.rows)
  {
    var rows' := Verify(s, key, valid, code, now).0.rows;
    forall i | 0 <= i < |rows'| && rows'[i].active ensures IsLatest(rows', i) && !rows'[i].verified {
      assert s.rows[i].active && IsLatest(s.rows, i);
    }
  }

  lemma VerifyKeepsIssued(s: State, key: Key, valid: bool, code: string, now: int)
    requires Right(s)
    ensures IssuedRight(Verify(s, key, valid, code, now).0)
  {
    FindActiveFinds(s.rows, key, code);
    var s' := Verify(s, key, valid, code, now).0;
    if |s'.issued| > |s.issued| { assert s'.issued[|s.issued|].row == FindActive(s.rows, key, code).value; }
    forall i | 0 <= i < |s'.rows| && s'.rows[i].verified
      ensures exists k :: 0 <= k < |s'.issued| && s'.issued[k].row == i
    {
      if s.rows[i].verified {
        var k :| 0 <= k < |s.issued| && s.issued[k].row == i;
        assert s'.issued[k].row == i;
      }
    }
  }

  lemma StepKeepsRight(s: State, e: Event)
    requires Right(s)
    ensures Right(Step(s, e))
  {
    match e {
      case SendOtp(key, valid, code, now) =>
        SendKeepsRows(s, key, valid, code, now);
        SendKeepsIssued(s, key, valid, code, now);
      case VerifyOtp(key, valid, code, now) =>
        VerifyKeepsRows(s, key, valid, code, now);
        VerifyKeepsIssued(s, key, valid, code, now);
    }
  }

  // ---------------------------------------------------------------------
  // Main results
  // ---------------------------------------------------------------------

  /** Every reachable table is right, whatever the calls and their clocks. */
  lemma {:induction false} RightOverRuns(es: seq<Event>)
    ensures Right(Run(es))
  {
    if es != [] {
      RightOverRuns(es[..|es| - 1]);
      StepKeepsRight(Run(es[..|es| - 1]), es[|es| - 1]);
    }
  }

  /** A key has at most one active code. */
  lemma OneActiveCode(es: seq<Event>, i: nat, j: nat)
    requires i < |Run(es).rows| && j < |Run(es).rows|
    requires Run(es).rows[i].active && Run(es).rows[j].active && Run(es).rows[i].key == Run(es).rows[j].key
    ensures i == j
  {
    RightOverRuns(es);
    var rows := Run(es).rows;
    assert IsLatest(rows, i) && IsLatest(rows, j);
  }

  /** The key's latest row has this code, is still active and not past its ten minutes. */
  predicate Redeemable(rows: seq<Row>, i: nat, key: Key, code: string, now: int) {
    i < |rows| && rows[i].key == key && rows[i].code == code && rows[i].active && IsLatest(rows, i)
      && now <= ExpiresAt(rows[i])
  }

  lemma OnlyRedeemableFound(rows: seq<Row>, i: nat, key: Key, code: string, now: int)
    requires OnlyLatestActive(rows) && Redeemable(rows, i, key, code, now)
    ensures FindActive(rows, key, code) == Some(i)
  {
    FindActiveFinds(rows, key, code);
    var f := FindActive(rows, key, code);
    assert IsLatest(rows, f.value);
  }

  /** After any run, a code is accepted exactly if it is the one of a redeemable row. */
  lemma AcceptedIff(es: seq<Event>, key: Key, code: string, now: int)
    ensures Verify(Run(es), key, true, code, now).1.Success?
      <==> exists i: nat :: Redeemable(Run(es).rows, i, key, code, now)
  {
    RightOverRuns(es);
    var s := Run(es);
    FindActiveFinds(s.rows, key, code);
    if i: nat :| Redeemable(s.rows, i, key, code, now) {
      OnlyRedeemableFound(s.rows, i, key, code, now);
    } else if Verify(s, key, true, code, now).1.Success? {
      assert Redeemable(s.rows, FindActive(s.rows, key, code).value, key, code, now);
    }
  }

  /** Of a spaced table the key's last row is its newest. */
  lemma TooSoonMeans(rows: seq<Row>, key: Key, now: int)
    requires Spaced(rows)
    ensures TooSoon(rows, key, now) <==>
      exists i :: 0 <= i < |rows| && rows[i].key == key && now - rows[i].createdAt < 60000
  {
    MostRecentIsLast(rows, key);
  }

  /**
   * After any run a code is sent exactly if the link and phone are good and
   * every earlier code of the key is at least a minute old. The new row is then
   * the key's one active row, good for ten minutes; a refusal changes nothing.
   */
  lemma SentIff(es: seq<Event>, key: Key, valid: bool, code: string, now: int)
    ensures var rows := Run(es).rows;
      var (after, r) := Send(Run(es), key, valid, code, now);
      if valid && forall i :: 0 <= i < |rows| && rows[i].key == key ==> now - rows[i].createdAt >= 60000 then
        && r == Success(now + 600000) && after.issued == Run(es).issued
        && |after.rows| == |rows| + 1 && after.rows[|rows|] == Row(key, code, now, true, false)
        && (forall i :: 0 <= i < |rows| ==>
              after.rows[i] == if rows[i].key == key then rows[i].(active := false) else rows[i])
      else
        after == Run(es) && r == Failure(if valid then SentRecently else BadLinkOrPhone)
  {
    RightOverRuns(es);
    TooSoonMeans(Run(es).rows, key, now);
    DeactivatedMeans(Run(es).rows, key);
  }

  /**
   * What a call with an active code does, after any run: within ten minutes it
   * verifies the row, switches it off and hands out one token; later it switches
   * the row off; and a code no active row has is invalid.
   */
  lemma VerifyOutcomes(es: seq<Event>, key: Key, code: string, now: int)
    ensures var s := Run(es);
      var (after, r) := Verify(s, key, true, code, now);
      && ((forall i :: 0 <= i < |s.rows| ==> !(s.rows[i].key == key && s.rows[i].code == code && s.rows[i].active)) ==>
            after == s && r == Failure(InvalidCode))
      && (forall i | 0 <= i < |s.rows| && s.rows[i].key == key && s.rows[i].code == code && s.rows[i].active ::
            if now - s.rows[i].createdAt <= 600000 then
              after == State(s.rows[i := s.rows[i].(active := false, verified := true)], s.issued + [Issue(i, now)])
              && r == Success(i)
            else after == s.(rows := s.rows[i := s.rows[i].(active := false)]) && r == Failure(Expired))
  {
    RightOverRuns(es);
    var rows := Run(es).rows;
    FindActiveFinds(rows, key, code);
    var f := FindActive(rows, key, code);
    forall i: nat | i < |rows| && rows[i].key == key && rows[i].code == code && rows[i].active ensures f == Some(i) {
      assert IsLatest(rows, i) && IsLatest(rows, f.value);
    }
  }

  /** What a call that hands out a token has found. */
  lemma IssueComesFromFound(s: State, e: Event) returns (i: nat)
    requires Step(s, e).issued != s.issued
    ensures Step(s, e).issued == s.issued + [Issue(i, e.now)]
    ensures i < |s.rows| && s.rows[i].key == e.key && s.rows[i].code == e.code && s.rows[i].active
    ensures !s.rows[i].verified && e.now <= ExpiresAt(s.rows[i])
  {
    FindActiveFinds(s.rows, e.key, e.code);
    i := FindActive(s.rows, e.key, e.code).value;
  }

  lemma UnverifiedHasNoToken(s: State, i: nat)
    requires IssuedRight(s) && i < |s.rows| && !s.rows[i].verified
    ensures forall k :: 0 <= k < |s.issued| ==> s.issued[k].row != i
  {
  }

  /**
   * A call hands out at most one token: for its key's latest row, at most ten
   * minutes after that was sent, and never for a row that gave out one before.
   */
  lemma TokensComeFromTheLatest(es: seq<Event>, e: Event) returns (i: nat)
    requires Step(Run(es), e).issued != Run(es).issued
    ensures Step(Run(es), e).issued == Run(es).issued + [Issue(i, e.now)]
    ensures i < |Run(es).rows| && IsLatest(Run(es).rows, i) && e.now <= ExpiresAt(Run(es).rows[i])
    ensures Run(es).rows[i].key == e.key && Run(es).rows[i].code == e.code
    ensures forall k :: 0 <= k < |Run(es).issued| ==> Run(es).issued[k].row != i
  {
    RightOverRuns(es);
    var s := Run(es);
    i := IssueComesFromFound(s, e);
    UnverifiedHasNoToken(s, i);
  }

  /** After an accepted send no earlier code of the key is ever accepted again. */
  lemma {:induction false} SupersededForGood(s: State, es: seq<Event>, i: nat)
    requires Right(s) && i < |s.rows| && !IsLatest(s.rows, i)
    ensures var s' := RunFrom(s, es);
      i < |s'.rows| && !IsLatest(s'.rows, i) && !s'.rows[i].active && s'.rows[i].verified == s.rows[i].verified
        && Right(s')
  {
    if es != [] {
      SupersededForGood(s, es[..|es| - 1], i);
      var mid := RunFrom(s, es[..|es| - 1]);
      StepKeepsRight(mid, es[|es| - 1]);
      StepKeepsOldRows(mid, es[|es| - 1]);
      var j :| i < j < |mid.rows| && mid.rows[j].key == mid.rows[i].key;
      assert Step(mid, es[|es| - 1]).rows[j].key == mid.rows[j].key;
    }
  }

  function RunFrom(s: State, es: seq<Event>): State {
    if es == [] then s else Step(RunFrom(s, es[..|es| - 1]), es[|es| - 1])
  }

  /** Rows stay, with their keys; only an active row's verified flag can change. */
  lemma StepKeepsOldRows(s: State, e: Event)
    ensures |s.rows| <= |Step(s, e).rows|
    ensures forall i :: 0 <= i < |s.rows| ==>
      Step(s, e).rows[i].key == s.rows[i].key && (s.rows[i].active || Step(s, e).rows[i].verified == s.rows[i].verified)
  {
    DeactivatedMeans(s.rows, e.key);
    FindActiveFinds(s.rows, e.key, e.code);
  }

  // ---------------------------------------------------------------------
  // The service
  // ---------------------------------------------------------------------

  class OtpTable {
    var rows: seq<Row>
    var issued: seq<Issue>

    constructor ()
      ensures Now() == State([], [])
    {
      rows, issued := [], [];
    }

    function Now(): State
      reads this
    {
      State(rows, issued)
    }

    /** Every active row of the key is switched off. */
    method SwitchOff(key: Key)
      modifies this`rows
      ensures rows == Deactivated(old(rows), key)
    {
      ghost var was := rows;
      for i := 0 to |rows|
        invariant |rows| == |was| && rows[i..] == was[i..] && rows[..i] == Deactivated(was[..i], key)
      {
        assert was[..i + 1][..i] == was[..i];
        assert rows[i] == rows[i..][0] == was[i];
        ghost var tail := rows[i + 1..];
        if rows[i].key == key && rows[i].active { rows := rows[i := rows[i].(active := false)]; }
        assert rows[i + 1..] == tail == was[i + 1..];
      }
      assert was[..|was|] == was && rows[..|rows|] == rows;
    }

    method SendOtp(key: Key, valid: bool, code: string, now: int) returns (r: Result<int, Error>)
      modifies this
      ensures (Now(), r) == Send(old(Now()), key, valid, code, now)
    {
      if !valid { return Failure(BadLinkOrPhone); }
      var recent := MostRecent(rows, key);
      if recent.Some? && recent.value < |rows| && now - rows[recent.value].createdAt < RESEND_AFTER {
        return Failure(SentRecently);
      }
      SwitchOff(key);
      rows := rows + [Row(key, code, now, true, false)];
      r := Success(now + LIFETIME);
    }

    method VerifyOtp(key: Key, valid: bool, code: string, now: int) returns (r: Result<nat, Error>)
      modifies this
      ensures (Now(), r) == Verify(old(Now()), key, valid, code, now)
    {
      if !valid { return Failure(BadLinkOrPhone); }
      var found := FindActive(rows, key, code);
      if found.None? || found.value >= |rows| { return Failure(InvalidCode); }
      var i := found.value;
      if now > ExpiresAt(rows[i]) {
        rows := rows[i := rows[i].(active := false)];
        return Failure(Expired);
      }
      if rows[i].verified { return Failure(AlreadyUsed); }
      rows := rows[i := rows[i].(verified := true, active := false)];
      issued := issued + [Issue(i, now)];
      r := Success(i);
    }
  }
}
