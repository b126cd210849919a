/**
 * Vouchers under RADIUS: the decision sequence of an Access-Request (validate, password,
 * consume), the sessions kept from Accounting-Requests, and the administrative toggles, for
 * the vouchers of one tenant. Answers are those of sections 4.2 and 4.3 of RFC 2865; a
 * session is active until a Stop, as in section 5.1 of RFC 2866.
 */
module VoucherAuth {
  import opened Options
  import opened Text

  type Time = int

  datatype Status = Active | Used | Expired | Revoked

  datatype Voucher = Voucher(password: string, status: Status, isolated: bool, usedAt: Option<Time>, expiresAt: Option<Time>)

  /** `name` is the user name the session was opened under. */
  datatype Session = Session(name: string, voucher: Option<string>, active: bool)

  datatype Store = Store(vouchers: map<string, Voucher>, sessions: map<string, Session>)

  const HOUR := 3600

  /** The clock readings of one Access-Request: in validate, before consume, at consume, and SQL's NOW(). */
  datatype Readings = Readings(validate: Time, precheck: Time, now: Time, sqlNow: Time)

  predicate Monotone(clock: Time, t: Readings) {
    clock <= t.validate <= t.precheck <= t.now <= t.sqlNow
  }

  datatype Answer = Accept | Reject

  // ---------- queries ----------

  ghost predicate HasActiveSession(s: Store, code: string) {
    exists id :: id in s.sessions && s.sessions[id].voucher == Some(code) && s.sessions[id].active
  }

  predicate Passed(v: Voucher, t: Time) {
    v.expiresAt.Some? && t > v.expiresAt.value
  }

  // ---------- validate ----------

  ghost predicate Validates(s: Store, user: string, t: Time) {
    var code := TrimSpace(user);
    && code in s.vouchers
    && var v := s.vouchers[code];
       !Passed(v, t) && (v.status == Active || (v.status == Used && !HasActiveSession(s, code)))
  }

  /** A voucher found past its expiry is marked expired, whatever its status. */
  function AfterValidate(s: Store, user: string, t: Time): Store {
    var code := TrimSpace(user);
    if code in s.vouchers && Passed(s.vouchers[code], t) then
      s.(vouchers := s.vouchers[code := s.vouchers[code].(status := Expired)])
    else s
  }

  predicate PasswordMatches(v: Voucher, password: string) {
    v.password == "" || TrimSpace(v.password) == TrimSpace(password)
  }

  // ---------- consume ----------

  predicate Consumable(v: Voucher, t: Readings) {
    && (v.status == Active || (v.status == Used && (v.expiresAt.None? || t.precheck < v.expiresAt.value)))
    && (v.expiresAt.None? || v.expiresAt.value > t.sqlNow)
  }

  function Consumed(v: Voucher, now: Time, hours: Option<int>): Voucher {
    v.(status := Used, usedAt := Some(now), expiresAt := if hours.Some? then Some(now + hours.value * HOUR) else v.expiresAt)
  }

  // ---------- one Access-Request ----------

  ghost predicate Accepts(s: Store, user: string, password: string, t: Readings) {
    && Validates(s, user, t.validate)
    && PasswordMatches(s.vouchers[TrimSpace(user)], password)
    && user in s.vouchers
    && Consumable(s.vouchers[user], t)
  }

  ghost function AfterAuth(s: Store, user: string, password: string, hours: Option<int>, t: Readings): Store {
    if Accepts(s, user, password, t) then s.(vouchers := s.vouchers[user := Consumed(s.vouchers[user], t.now, hours)])
    else AfterValidate(s, user, t.validate)
  }

  // ---------- the other operations ----------

  datatype AcctKind = Start | Interim | Stop | OtherKind

  datatype Op =
    | Auth(user: string, password: string, hours: Option<int>, t: Readings)
    | Acct(kind: AcctKind, session: string, user: string)
    | ToggleStatus(code: string)
    | ToggleIsolate(code: string)
    | Create(code: string, password: string, expiresAt: Option<Time>)
    | Delete(code: string)

  function AfterAcct(s: Store, kind: AcctKind, session: string, user: string): Store {
    var row :=
      if session in s.sessions then s.sessions[session]
      else Session(user, if TrimSpace(user) in s.vouchers then Some(TrimSpace(user)) else None, true);
    s.(sessions := s.sessions[session := row.(active := kind != Stop)])
  }

  function AfterToggle(s: Store, code: string): Store {
    if code !in s.vouchers then s
    else
      var v := s.vouchers[code];
      if v.status == Active then s.(vouchers := s.vouchers[code := v.(status := Revoked)])
      else if v.status == Revoked then s.(vouchers := s.vouchers[code := v.(status := Active)])
      else s
  }

  /** Deleting a voucher clears it from its sessions (ON DELETE SET NULL). */
  function WithoutVoucher(sessions: map<string, Session>, code: string): map<string, Session> {
    map id | id in sessions :: if sessions[id].voucher == Some(code) then sessions[id].(voucher := None) else sessions[id]
  }

  ghost function Apply(s: Store, op: Op): Store {
    match op
    case Auth(user, password, hours, t) => AfterAuth(s, user, password, hours, t)
    case Acct(kind, session, user) => AfterAcct(s, kind, session, user)
    case ToggleStatus(code) => AfterToggle(s, code)
    case ToggleIsolate(code) =>
      if code in s.vouchers then s.(vouchers := s.vouchers[code := s.vouchers[code].(isolated := !s.vouchers[code].isolated)]) else s
    case Create(code, password, expiresAt) =>
      if code in s.vouchers then s else s.(vouchers := s.vouchers[code := Voucher(password, Active, false, None, expiresAt)])
    case Delete(code) => s.(vouchers := s.vouchers - {code}, sessions := WithoutVoucher(s.sessions, code))
  }

  // ---------- what an answer means ----------

  /** An accept is strictly before the voucher's expiry and leaves it used, with a fresh expiry if its package has a duration. */
  lemma AcceptMeaning(s: Store, user: string, password: string, hours: Option<int>, t: Readings)
    requires Accepts(s, user, password, t)
    ensures var v, v' := s.vouchers[user], AfterAuth(s, user, password, hours, t).vouchers[user];
      && (v.status == Active || v.status == Used)
      && (v.expiresAt.Some? ==> t.sqlNow < v.expiresAt.value)
      && v'.status == Used && v'.usedAt == Some(t.now) && v'.password == v.password && v'.isolated == v.isolated
      && v'.expiresAt == (if hours.Some? then Some(t.now + hours.value * HOUR) else v.expiresAt)
    ensures AfterAuth(s, user, password, hours, t).sessions == s.sessions
    ensures forall c :: c in s.vouchers && c != user ==> AfterAuth(s, user, password, hours, t).vouchers[c] == s.vouchers[c]
  {
  }

  /**
   * With ordered readings, the exact condition of an accept for a user name without outer
   * spaces: validate and consume then look at the same voucher.
   */
  lemma AcceptExactly(s: Store, user: string, password: string, t: Readings)
    requires TrimSpace(user) == user && Monotone(t.validate, t)
    ensures Accepts(s, user, password, t) <==>
      && user in s.vouchers
      && var v := s.vouchers[user];
         && (v.status == Active || (v.status == Used && !HasActiveSession(s, user)))
         && (v.expiresAt.None? || t.sqlNow < v.expiresAt.value)
         && (v.password == "" || TrimSpace(v.password) == TrimSpace(password))
  {
  }

  /** All a request is decided by, for any name and any clock readings, in the fields of the tables. */
  lemma AcceptFields(s: Store, user: string, password: string, t: Readings)
    ensures Accepts(s, user, password, t) <==>
      && TrimSpace(user) in s.vouchers && user in s.vouchers
      && (var v := s.vouchers[TrimSpace(user)];
          && (v.expiresAt.Some? ==> t.validate <= v.expiresAt.value)
          && (v.status == Active ||
              (v.status == Used && forall id :: id in s.sessions && s.sessions[id].voucher == Some(TrimSpace(user)) ==> !s.sessions[id].active))
          && (v.password == "" || TrimSpace(v.password) == TrimSpace(password)))
      && (var w := s.vouchers[user];
          && (w.status == Active || (w.status == Used && (w.expiresAt.Some? ==> t.precheck < w.expiresAt.value)))
          && (w.expiresAt.Some? ==> t.sqlNow < w.expiresAt.value))
  {
  }

  /** A name with outer spaces is validated as one voucher and consumed as another, which leaves the validated one active. */
  lemma OuterSpacesConsumeAnother(t: Readings)
    ensures var v := Voucher("", Active, false, None, None);
      var s := Store(map["A" := v, "A " := v], map[]);
      Accepts(s, "A ", "", t) && AfterAuth(s, "A ", "", None, t).vouchers == map["A" := v, "A " := v.(status := Used, usedAt := Some(t.now))]
  {
    var name := "A ";
    assert name[..1] == "A";
    assert TrimSpace(name) == TrimSpace("A") == "A";
  }

  /** A reject changes nothing but, at most, the status of the named voucher, to expired, once its expiry has passed. */
  lemma RejectMeaning(s: Store, user: string, password: string, hours: Option<int>, t: Readings)
    requires !Accepts(s, user, password, t)
    ensures var s' := AfterAuth(s, user, password, hours, t);
      || s' == s
      || (var code := TrimSpace(user);
          code in s.vouchers && Passed(s.vouchers[code], t.validate) && s' == s.(vouchers := s.vouchers[code := s.vouchers[code].(status := Expired)]))
  {
  }

  // ---------- over runs ----------

  ghost function After(s: Store, run: seq<Op>): Store
    decreases |run|
  {
    if run == [] then s else After(Apply(s, run[0]), run[1..])
  }

  predicate Keeps(run: seq<Op>, code: string) {
    Delete(code) !in run
  }

  /** Status changes any operation but deletion can make. */
  predicate MayBecome(from: Status, to: Status) {
    match from
    case Active => true
    case Revoked => to != Used
    case Used => to == Used || to == Expired
    case Expired => to == Expired
  }

  lemma StepStatus(s: Store, op: Op, code: string)
    requires code in s.vouchers && op != Delete(code)
    ensures code in Apply(s, op).vouchers && MayBecome(s.vouchers[code].status, Apply(s, op).vouchers[code].status)
  {
  }

  /** Expired is absorbing, and a used voucher is never active or revoked again, over every run that does not delete it. */
  lemma {:induction false} RunStatus(s: Store, run: seq<Op>, code: string)
    requires code in s.vouchers && Keeps(run, code)
    ensures code in After(s, run).vouchers
    ensures s.vouchers[code].status == Expired ==> After(s, run).vouchers[code].status == Expired
    ensures s.vouchers[code].status == Used ==> After(s, run).vouchers[code].status == Used || After(s, run).vouchers[code].status == Expired
    decreases |run|
  {
    if run != [] {
      StepStatus(s, run[0], code);
      RunStatus(Apply(s, run[0]), run[1..], code);
    }
  }

  // ---------- reuse while a session is open ----------

  /** A session opened under this name is active. */
  ghost predicate OpenUnder(s: Store, user: string) {
    exists id :: id in s.sessions && s.sessions[id].name == user && s.sessions[id].active
  }

  /** Every session opened under the name belongs to the voucher accounting looks up for it. */
  ghost predicate Tied(s: Store, user: string) {
    forall id :: id in s.sessions && s.sessions[id].name == user ==> s.sessions[id].voucher == Some(TrimSpace(user))
  }

  /** Sessions stay tied while that voucher is in the table, as it is from its creation to its deletion. */
  lemma {:induction false} RunKeepsTied(s: Store, run: seq<Op>, user: string)
    requires Tied(s, user) && TrimSpace(user) in s.vouchers && Keeps(run, TrimSpace(user))
    ensures Tied(After(s, run), user) && TrimSpace(user) in After(s, run).vouchers
    decreases |run|
  {
    if run != [] {
      StepStatus(s, run[0], TrimSpace(user));
      StepKeepsTied(s, run[0], user);
      RunKeepsTied(Apply(s, run[0]), run[1..], user);
    }
  }

  lemma StepKeepsTied(s: Store, op: Op, user: string)
    requires Tied(s, user) && TrimSpace(user) in s.vouchers && op != Delete(TrimSpace(user))
    ensures Tied(Apply(s, op), user)
  {
  }

  /**
   * A used voucher is accepted again while a session opened under its own name is active if
   * and only if the name has outer spaces, its own expiry has not come, and the voucher of the
   * trimmed name is active and passes validation and password instead.
   */
  lemma ReuseWhileOpen(s: Store, user: string, password: string, t: Readings)
    requires Tied(s, user) && OpenUnder(s, user) && Monotone(t.validate, t)
    requires user in s.vouchers && s.vouchers[user].status == Used
    ensures Accepts(s, user, password, t) <==>
      && TrimSpace(user) != user
      && (s.vouchers[user].expiresAt.None? || t.sqlNow < s.vouchers[user].expiresAt.value)
      && TrimSpace(user) in s.vouchers
      && var v := s.vouchers[TrimSpace(user)];
         v.status == Active && (v.expiresAt.None? || t.validate <= v.expiresAt.value)
         && (v.password == "" || TrimSpace(v.password) == TrimSpace(password))
  {
    var id :| id in s.sessions && s.sessions[id].name == user && s.sessions[id].active;
    assert s.sessions[id].voucher == Some(TrimSpace(user));
    assert HasActiveSession(s, TrimSpace(user));
  }

  /** So without outer spaces a used voucher is never accepted while a session opened under its name is active, over every run that keeps the voucher. */
  lemma ReuseNeedsNoSession(s: Store, run: seq<Op>, user: string, password: string, t: Readings)
    requires TrimSpace(user) == user && user in s.vouchers && Tied(s, user) && Keeps(run, user)
    requires var s' := After(s, run); user in s'.vouchers && s'.vouchers[user].status == Used && Accepts(s', user, password, t)
    ensures !OpenUnder(After(s, run), user)
  {
    RunKeepsTied(s, run, user);
  }

  lemma AfterFrom(s: Store, run: seq<Op>, i: nat)
    requires i < |run|
    ensures After(s, run[i..]) == After(Apply(s, run[i]), run[i + 1..])
    ensures run[0..] == run && (i == |run| - 1 ==> After(s, run[i..]) == Apply(s, run[i]))
  {
    assert run[i..][1..] == run[i + 1..];
  }

  lemma TrimTrailing()
    ensures TrimSpace("A") == "A" && TrimSpace("A ") == "A"
  {
    assert "A "[..1] == "A";
  }

  /** With an outer space: the second voucher is used, its session is active, and it is accepted again at any time. */
  lemma SpacedNameReused(t: Readings, t': Readings)
    ensures var run := [Create("A", "", None), Create("A ", "", None), Auth("A ", "", None, t), Acct(Start, "s", "A ")];
      var s := After(Store(map[], map[]), run);
      "A " in s.vouchers && s.vouchers["A "].status == Used && OpenUnder(s, "A ") && Accepts(s, "A ", "", t')
  {
    TrimTrailing();
    hide TrimSpace;
    var run := [Create("A", "", None), Create("A ", "", None), Auth("A ", "", None, t), Acct(Start, "s", "A ")];
    var v := Voucher("", Active, false, None, None);
    var s2 := Store(map["A" := v, "A " := v], map[]);
    var s3 := Store(map["A" := v, "A " := v.(status := Used, usedAt := Some(t.now))], map[]);
    var s4 := s3.(sessions := map["s" := Session("A ", Some("A"), true)]);
    var s1 := Store(map["A" := v], map[]);
    assert Apply(Store(map[], map[]), run[0]) == s1;
    assert Apply(s1, run[1]) == s2;
    assert Apply(s2, run[2]) == s3;
    assert Apply(s3, run[3]) == s4;
    AfterFrom(Store(map[], map[]), run, 0);
    AfterFrom(s1, run, 1);
    AfterFrom(s2, run, 2);
    AfterFrom(s3, run, 3);
    assert "s" in s4.sessions && s4.sessions["s"].name == "A ";
  }

  /** Deleting and recreating a voucher unties its sessions: without outer spaces too, it is then accepted during one of them. */
  lemma RecreatedVoucherReused(t: Readings, t': Readings)
    ensures var s := Store(map["A" := Voucher("", Used, false, None, None)], map["s" := Session("A", Some("A"), true)]);
      var run := [Delete("A"), Create("A", "", None), Auth("A", "", None, t)];
      var s' := After(s, run);
      "A" in s'.vouchers && s'.vouchers["A"].status == Used && OpenUnder(s', "A") && Accepts(s', "A", "", t')
  {
    TrimTrailing();
    hide TrimSpace;
    var s := Store(map["A" := Voucher("", Used, false, None, None)], map["s" := Session("A", Some("A"), true)]);
    var run := [Delete("A"), Create("A", "", None), Auth("A", "", None, t)];
    var untied := map["s" := Session("A", None, true)];
    var v := Voucher("", Active, false, None, None);
    assert Apply(s, run[0]) == Store(map[], untied);
    assert Apply(Store(map[], untied), run[1]) == Store(map["A" := v], untied);
    var s' := Store(map["A" := v.(status := Used, usedAt := Some(t.now))], untied);
    assert Apply(Store(map["A" := v], untied), run[2]) == s';
    AfterFrom(s, run, 0);
    AfterFrom(Store(map[], untied), run, 1);
    AfterFrom(Store(map["A" := v], untied), run, 2);
    assert "s" in s'.sessions && s'.sessions["s"].name == "A";
  }

  // ---------- over runs with a clock ----------

  /** A run whose clock readings never go back. */
  predicate ClockRun(clock: Time, run: seq<Op>)
    decreases |run|
  {
    run == [] ||
    (if run[0].Auth? then Monotone(clock, run[0].t) && ClockRun(run[0].t.sqlNow, run[1..]) else ClockRun(clock, run[1..]))
  }

  /** Some Access-Request of the run for this voucher is accepted. */
  ghost predicate AcceptedIn(s: Store, run: seq<Op>, code: string)
    decreases |run|
  {
    run != [] &&
    ((run[0].Auth? && run[0].user == code && Accepts(s, code, run[0].password, run[0].t)) || AcceptedIn(Apply(s, run[0]), run[1..], code))
  }

  /** That is, one of its requests is accepted by the store the operations before it have left. */
  lemma {:induction false} AcceptedSomewhere(s: Store, run: seq<Op>, code: string)
    ensures AcceptedIn(s, run, code) <==>
      exists i :: 0 <= i < |run| && run[i].Auth? && run[i].user == code && Accepts(After(s, run[..i]), code, run[i].password, run[i].t)
    decreases |run|
  {
    hide Accepts, Apply;
    if run != [] {
      var s' := Apply(s, run[0]);
      AcceptedSomewhere(s', run[1..], code);
      assert run[..0] == [];
      forall i | 0 <= i < |run| - 1 ensures After(s', run[1..][..i]) == After(s, run[..i + 1]) {
        assert run[..i + 1][1..] == run[1..][..i];
      }
      if i :| 0 <= i < |run| && run[i].Auth? && run[i].user == code && Accepts(After(s, run[..i]), code, run[i].password, run[i].t) {
        if i > 0 {
          assert run[1..][i - 1] == run[i] && After(s', run[1..][..i - 1]) == After(s, run[..i]);
        }
      }
      var rest := run[1..];
      if j :| 0 <= j < |rest| && rest[j].Auth? && rest[j].user == code && Accepts(After(s', rest[..j]), code, rest[j].password, rest[j].t) {
        assert run[j + 1] == run[1..][j] && After(s', run[1..][..j]) == After(s, run[..j + 1]);
      }
    }
  }

  /** Once the clock has reached a voucher's expiry it is never accepted again and its expiry stays. */
  lemma {:induction false} PastExpiryNeverAccepted(s: Store, run: seq<Op>, code: string, clock: Time)
    requires code in s.vouchers && s.vouchers[code].expiresAt.Some? && s.vouchers[code].expiresAt.value <= clock
    requires Keeps(run, code) && ClockRun(clock, run)
    ensures !AcceptedIn(s, run, code)
    ensures code in After(s, run).vouchers && After(s, run).vouchers[code].expiresAt == s.vouchers[code].expiresAt
    decreases |run|
  {
    if run != [] {
      var op, s' := run[0], Apply(s, run[0]);
      assert Keeps(run[1..], code);
      StepStatus(s, op, code);
      assert s'.vouchers[code].expiresAt == s.vouchers[code].expiresAt;
      PastExpiryNeverAccepted(s', run[1..], code, if op.Auth? then op.t.sqlNow else clock);
    }
  }

  /** A voucher that is in use stays closed to requests by its code until a Stop of one of its sessions. */
  lemma {:induction false} BusyNeverAccepted(s: Store, run: seq<Op>, code: string, session: string)
    requires TrimSpace(code) == code && code in s.vouchers && s.vouchers[code].status == Used
    requires session in s.sessions && s.sessions[session].voucher == Some(code) && s.sessions[session].active
    requires Keeps(run, code) && forall i :: 0 <= i < |run| ==> !(run[i].Acct? && run[i].session == session && run[i].kind == Stop)
    ensures !AcceptedIn(s, run, code)
    decreases |run|
  {
    if run != [] {
      var op, s' := run[0], Apply(s, run[0]);
      assert HasActiveSession(s, code);
      StepStatus(s, op, code);
      assert session in s'.sessions && s'.sessions[session].voucher == Some(code) && s'.sessions[session].active;
      if s'.vouchers[code].status == Used {
        BusyNeverAccepted(s', run[1..], code, session);
      } else {
        ExpiredNeverAccepted(s', run[1..], code);
      }
    }
  }

  lemma {:induction false} ExpiredNeverAccepted(s: Store, run: seq<Op>, code: string)
    requires code in s.vouchers && s.vouchers[code].status == Expired && Keeps(run, code)
    ensures !AcceptedIn(s, run, code)
    decreases |run|
  {
    if run != [] {
      StepStatus(s, run[0], code);
      ExpiredNeverAccepted(Apply(s, run[0]), run[1..], code);
    }
  }

  // ---------- the services ----------

  class RadiusServer {
    var vouchers: map<string, Voucher>
    var sessions: map<string, Session>

    function Snapshot(): Store
      reads this
    {
      Store(vouchers, sessions)
    }

    constructor ()
      ensures Snapshot() == Store(map[], map[])
    {
      vouchers, sessions := map[], map[];
    }

    /** SELECT COUNT(*) > 0 over the sessions of a voucher. */
    method CheckActiveSession(code: string) returns (active: bool)
      ensures active <==> HasActiveSession(Snapshot(), code)
    {
      var todo := sessions.Keys;
      while todo != {}
        invariant todo <= sessions.Keys
        invariant forall id :: id in sessions && id !in todo ==> !(sessions[id].voucher == Some(code) && sessions[id].active)
        decreases todo
      {
        var id :| id in todo;
        if sessions[id].voucher == Some(code) && sessions[id].active {
          return true;
        }
        todo := todo - {id};
      }
      active := false;
    }

    method ValidateVoucherForAuth(user: string, t: Time) returns (found: Option<Voucher>)
      modifies this`vouchers
      ensures Snapshot() == AfterValidate(old(Snapshot()), user, t)
      ensures found.Some? <==> Validates(old(Snapshot()), user, t)
      ensures found.Some? ==> found.value == old(vouchers)[TrimSpace(user)] && vouchers == old(vouchers)
    {
      var code := TrimSpace(user);
      if code !in vouchers {
        return None;
      }
      var v := vouchers[code];
      if v.expiresAt.Some? && t > v.expiresAt.value {
        vouchers := vouchers[code := v.(status := Expired)];
        return None;
      }
      if v.status == Used {
        var busy := CheckActiveSession(code);
        if busy {
          return None;
        }
        return Some(v);
      }
      if v.status != Active {
        return None;
      }
      found := Some(v);
    }

    /** The guarded UPDATE ... RETURNING. */
    method ConsumeVoucherAtomic(code: string, usedAt: Time, expiresAt: Option<Time>, sqlNow: Time) returns (done: bool)
      modifies this`vouchers
      ensures done <==> code in old(vouchers) && (var v := old(vouchers)[code];
        (v.status == Used || v.status == Active) && (v.expiresAt.None? || v.expiresAt.value > sqlNow))
      ensures vouchers == if !done then old(vouchers) else old(vouchers)[code := old(vouchers)[code].(
        status := Used, usedAt := Some(usedAt), expiresAt := if expiresAt.Some? then expiresAt else old(vouchers)[code].expiresAt)]
    {
      if code !in vouchers {
        return false;
      }
      var v := vouchers[code];
      var alive := v.expiresAt.None? || v.expiresAt.value > sqlNow;
      if (v.status == Used && alive) || (v.status == Active && alive) {
        v := v.(status := Used, usedAt := Some(usedAt));
        if expiresAt.Some? {
          v := v.(expiresAt := expiresAt);
        }
        vouchers := vouchers[code := v];
        return true;
      }
      done := false;
    }

    method ConsumeVoucherForAuth(code: string, hours: Option<int>, t: Readings) returns (done: bool)
      modifies this`vouchers
      ensures done <==> code in old(vouchers) && Consumable(old(vouchers)[code], t)
      ensures vouchers == if done then old(vouchers)[code := Consumed(old(vouchers)[code], t.now, hours)] else old(vouchers)
    {
      if code !in vouchers {
        return false;
      }
      var v := vouchers[code];
      if v.status != Active {
        if !(v.status == Used && (v.expiresAt.None? || t.precheck < v.expiresAt.value)) {
          return false;
        }
      }
      var expiresAt := None;
      if hours.Some? {
        expiresAt := Some(t.now + hours.value * HOUR);
      }
      done := ConsumeVoucherAtomic(code, t.now, expiresAt, t.sqlNow);
    }

    /** The decision sequence of the Auth handler. */
    method HandleAuth(user: string, password: string, hours: Option<int>, t: Readings) returns (answer: Answer)
      modifies this
      ensures answer == Accept <==> Accepts(old(Snapshot()), user, password, t)
      ensures Snapshot() == Apply(old(Snapshot()), Auth(user, password, hours, t))
      ensures answer == Accept <==>
        && TrimSpace(user) in old(vouchers) && user in old(vouchers)
        && (var v := old(vouchers)[TrimSpace(user)];
            && (v.expiresAt.Some? ==> t.validate <= v.expiresAt.value)
            && (v.status == Active ||
                (v.status == Used && forall id :: id in old(sessions) && old(sessions)[id].voucher == Some(TrimSpace(user)) ==> !old(sessions)[id].active))
            && (v.password == "" || TrimSpace(v.password) == TrimSpace(password)))
        && (var w := old(vouchers)[user];
            && (w.status == Active || (w.status == Used && (w.expiresAt.Some? ==> t.precheck < w.expiresAt.value)))
            && (w.expiresAt.Some? ==> t.sqlNow < w.expiresAt.value))
      ensures answer == Accept ==>
        && user in old(vouchers)
        && var v := old(vouchers)[user];
           && (v.status == Active || v.status == Used)
           && (v.expiresAt.Some? ==> t.sqlNow < v.expiresAt.value)
           && vouchers == old(vouchers)[user := Voucher(v.password, Used, v.isolated, Some(t.now),
                if hours.Some? then Some(t.now + hours.value * 3600) else v.expiresAt)]
      ensures answer == Reject ==>
        var code := TrimSpace(user);
        vouchers ==
          if code in old(vouchers) && old(vouchers)[code].expiresAt.Some? && t.validate > old(vouchers)[code].expiresAt.value
          then old(vouchers)[code := old(vouchers)[code].(status := Expired)]
          else old(vouchers)
      ensures sessions == old(sessions)
    {
      AcceptFields(Snapshot(), user, password, t);
      var found := ValidateVoucherForAuth(user, t.validate);
      if found.None? {
        return Reject;
      }
      if found.value.password != "" {
        if TrimSpace(found.value.password) != TrimSpace(password) {
          return Reject;
        }
      }
      var done := ConsumeVoucherForAuth(user, hours, t);
      answer := if done then Accept else Reject;
    }

    /** Acct builds the session, looking its voucher up by the trimmed name, and upserts it: an existing one keeps its name and voucher. */
    method HandleAcct(kind: AcctKind, session: string, user: string)
      modifies this`sessions
      ensures Snapshot() == Apply(old(Snapshot()), Acct(kind, session, user))
      ensures session in sessions && (sessions[session].active <==> kind != Stop)
      ensures session in old(sessions) ==>
        sessions[session].name == old(sessions)[session].name && sessions[session].voucher == old(sessions)[session].voucher
      ensures session !in old(sessions) ==>
        && sessions[session].name == user
        && sessions[session].voucher == if TrimSpace(user) in vouchers then Some(TrimSpace(user)) else None
      ensures sessions.Keys == old(sessions).Keys + {session}
      ensures forall id :: id in old(sessions) && id != session ==> sessions[id] == old(sessions)[id]
    {
      var voucher := None;
      if TrimSpace(user) in vouchers {
        voucher := Some(TrimSpace(user));
      }
      var active := true;
      if kind == Stop {
        active := false;
      }
      if session in sessions {
        sessions := sessions[session := sessions[session].(active := active)];
      } else {
        sessions := sessions[session := Session(user, voucher, active)];
      }
    }

    method ToggleVoucherStatus(code: string) returns (done: bool)
      modifies this`vouchers
      ensures Snapshot() == Apply(old(Snapshot()), ToggleStatus(code))
      ensures done <==> code in old(vouchers) && (old(vouchers)[code].status == Active || old(vouchers)[code].status == Revoked)
      ensures done ==> vouchers == old(vouchers)[code :=
        old(vouchers)[code].(status := if old(vouchers)[code].status == Active then Revoked else Active)]
      ensures !done ==> vouchers == old(vouchers)
    {
      if code !in vouchers {
        return false;
      }
      var v := vouchers[code];
      if v.status != Active && v.status != Revoked {
        return false;
      }
      var status := Revoked;
      if v.status == Revoked {
        status := Active;
      }
      vouchers := vouchers[code := v.(status := status)];
      done := true;
    }

    method FlipIsolate(code: string) returns (done: bool)
      modifies this`vouchers
      ensures Snapshot() == Apply(old(Snapshot()), ToggleIsolate(code))
      ensures done <==> code in old(vouchers)
      ensures done ==> vouchers == old(vouchers)[code := old(vouchers)[code].(isolated := !old(vouchers)[code].isolated)]
      ensures !done ==> vouchers == old(vouchers)
    {
      if code !in vouchers {
        return false;
      }
      vouchers := vouchers[code := vouchers[code].(isolated := !vouchers[code].isolated)];
      done := true;
    }

    /** A new voucher is active, not isolated and unused; a code the tenant has is refused. */
    method CreateVoucher(code: string, password: string, expiresAt: Option<Time>) returns (ok: bool)
      modifies this`vouchers
      ensures Snapshot() == Apply(old(Snapshot()), Create(code, password, expiresAt))
      ensures ok <==> code !in old(vouchers)
      ensures vouchers == if ok then old(vouchers)[code := Voucher(password, Active, false, None, expiresAt)] else old(vouchers)
    {
      ok := code !in vouchers;
      if ok {
        vouchers := vouchers[code := Voucher(password, Active, false, None, expiresAt)];
      }
    }

    /** The row goes, and with it the voucher of its sessions, which stay. */
    method DeleteVoucher(code: string) returns (ok: bool)
      modifies this
      ensures Snapshot() == Apply(old(Snapshot()), Delete(code))
      ensures ok <==> code in old(vouchers)
      ensures vouchers == old(vouchers) - {code} && sessions.Keys == old(sessions).Keys
      ensures forall id :: id in sessions ==>
        && sessions[id].name == old(sessions)[id].name && sessions[id].active == old(sessions)[id].active
        && sessions[id].voucher == if old(sessions)[id].voucher == Some(code) then None else old(sessions)[id].voucher
    {
      ok := code in vouchers;
      vouchers := vouchers - {code};
      sessions := WithoutVoucher(sessions, code);
    }
  }
}
