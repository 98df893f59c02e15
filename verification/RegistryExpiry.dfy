/** User expiry over runs with a clock that does not go back, and the enabled admin that must remain. */
module RegistryExpiry {
  import opened Domains
  import opened Text
  import opened Registry

  /** The stamp of a user agrees with its expiry date, its status and the clock. */
  predicate StampOk(u: User, clock: Time) {
    u.expiredAt != 0 ==>
      && u.expiresAt != 0 && u.expiresAt <= clock && u.expiredAt <= clock
      && (u.role != ROLE_ADMIN ==> !u.enabled)
  }

  ghost predicate StampsOk(users: map<string, User>, clock: Time) {
    forall n :: n in users ==> StampOk(users[n], clock)
  }

  /** The calls come in the order of a clock that started before them. */
  predicate Timely(clock: Time, calls: seq<Call>)
    decreases |calls|
  {
    calls == [] || (clock <= calls[0].now && Timely(calls[0].now, calls[1..]))
  }

  function LastTime(clock: Time, calls: seq<Call>): Time
    decreases |calls|
  {
    if calls == [] then clock else LastTime(calls[0].now, calls[1..])
  }

  lemma RestampOk(u: User, now: Time)
    requires 0 < now && u.expiredAt <= now
    ensures StampOk(Restamp(u, now), now)
  {
  }

  lemma UpsertStamps(db: Db, input: User, clock: Time, now: Time, key: string)
    requires StampsOk(db.users, clock) && 0 < now && clock <= now
    ensures StampsOk(Apply(db, PutUser(input, key), now).users, now)
  {
    var r := UpsertUser(db, input, now, key);
    if r.Done? {
      RestampOk(Merged(Prior(db, input.name), input, r.value.users[input.name].domainPools, key), now);
    }
  }

  lemma OpStamps(db: Db, op: Op, clock: Time, now: Time)
    requires StampsOk(db.users, clock) && 0 < now && clock <= now
    ensures StampsOk(Apply(db, op, now).users, now)
  {
    match op {
      case Create(_, _) => TunnelOpUsers(db, op, now);
      case Update(_, _) => TunnelOpUsers(db, op, now);
      case PutUser(user, key) => UpsertStamps(db, user, clock, now, key);
      case _ =>
    }
  }

  lemma TunnelOpUsers(db: Db, op: Op, now: Time)
    requires op.Create? || op.Update?
    ensures Apply(db, op, now).users == db.users
  {
  }

  lemma {:induction false} RunStamps(db: Db, clock: Time, calls: seq<Call>)
    requires StampsOk(db.users, clock) && 0 < clock && Timely(clock, calls)
    ensures StampsOk(Run(db, calls).users, LastTime(clock, calls))
    decreases |calls|
  {
    if calls != [] {
      OpStamps(db, calls[0].op, clock, calls[0].now);
      RunStamps(Apply(db, calls[0].op, calls[0].now), calls[0].now, calls[1..]);
    }
  }

  /** After every timely run of a new registry the stamps agree with the dates. */
  lemma StampsInvariant(clock: Time, calls: seq<Call>)
    requires 0 < clock && Timely(clock, calls)
    ensures StampsOk(Run(FreshDb(), calls).users, LastTime(clock, calls))
  {
    RunStamps(FreshDb(), clock, calls);
  }

  // ---------------------------------------------------------------- sweeps

  /** A sweep removes exactly the users that are not admins and whose stamp is at least `retention` old. */
  lemma SweepExact(db: Db, clock: Time, now: Time, retention: int, n: string)
    requires StampsOk(db.users, clock) && clock <= now && 0 < now && 0 < retention && n in db.users
    ensures var u := db.users[n];
      n !in EnforceExpiry(db, now, retention).users
      <==> u.role != ROLE_ADMIN && u.expiredAt != 0 && u.expiredAt <= now - retention
  {
    assert StampOk(db.users[n], clock);
  }

  /** Whoever a sweep removes is not an admin, was disabled, and is past its expiry date. */
  lemma RemovedIsOverdue(db: Db, clock: Time, now: Time, retention: int, n: string)
    requires StampsOk(db.users, clock) && clock <= now && 0 < now && 0 < retention
    requires n in db.users && n !in EnforceExpiry(db, now, retention).users
    ensures var u := db.users[n];
      u.role != ROLE_ADMIN && !u.enabled && u.expiresAt != 0 && u.expiresAt <= now && u.expiredAt <= now - retention
  {
    SweepExact(db, clock, now, retention, n);
    assert StampOk(db.users[n], clock);
  }

  /** Exactly the tunnels of the removed users go with them, and the tunnels that stay are untouched. */
  lemma SweepTunnels(db: Db, now: Time, retention: int, k: string)
    requires k in db.tunnels && db.tunnels[k].userName in db.users
    ensures var db' := EnforceExpiry(db, now, retention);
      && (k in db'.tunnels <==> db.tunnels[k].userName in db'.users)
      && (k in db'.tunnels ==> db'.tunnels[k] == db.tunnels[k])
  {
  }

  /** After a sweep nobody but an admin is both enabled and expired. */
  lemma SweepDisables(db: Db, now: Time, retention: int, n: string)
    requires 0 < now && n in EnforceExpiry(db, now, retention).users
    ensures var u := EnforceExpiry(db, now, retention).users[n];
      u.role != ROLE_ADMIN && u.expiresAt != 0 && u.expiresAt <= now ==> !u.enabled && u.expiredAt != 0
  {
  }

  /**
  A user that stays is written exactly if it is no admin, is past its expiry date, and is still
  enabled or not dated yet; then it is disabled and dated with the time of the sweep.
  */
  lemma SweepWrites(db: Db, now: Time, retention: int, n: string)
    requires n in EnforceExpiry(db, now, retention).users
    ensures n in db.users
    ensures var u := db.users[n];
      var due := u.role != "admin" && u.expiresAt != 0 && u.expiresAt <= now && (u.enabled || u.expiredAt == 0);
      EnforceExpiry(db, now, retention).users[n] == if due then u.(enabled := false, expiredAt := now) else u
  {
  }

  lemma StampedTwice(u: User, now: Time)
    requires 0 < now
    ensures Stamped(Stamped(u, now), now) == Stamped(u, now)
  {
  }

  lemma WithoutNobody(tunnels: map<string, Tunnel>)
    ensures WithoutUsers(tunnels, {}) == tunnels
  {
  }

  /** Sweeping again at the same instant changes nothing. */
  lemma SweepIdempotent(db: Db, now: Time, retention: int)
    requires 0 < now
    ensures EnforceExpiry(EnforceExpiry(db, now, retention), now, retention) == EnforceExpiry(db, now, retention)
  {
    var db' := EnforceExpiry(db, now, retention);
    forall n | n in db'.users
      ensures !Expunged(db'.users[n], now, retention) && Stamped(db'.users[n], now) == db'.users[n]
    {
      StampedTwice(db.users[n], now);
    }
    assert ExpungedNames(db'.users, now, retention) == {};
    WithoutNobody(db'.tunnels);
    assert EnforceExpiry(db', now, retention).users == db'.users;
  }

  // ------------------------------------------------- notice before removal

  /** No user whose record carried no stamp at `since` is dated earlier by any later call. */
  ghost predicate Unstamped(users: map<string, User>, n: string, since: Time) {
    n in users ==> users[n].expiredAt == 0 || since <= users[n].expiredAt
  }

  lemma OpNotice(db: Db, op: Op, now: Time, n: string, since: Time)
    requires Unstamped(db.users, n, since) && since <= now
    ensures Unstamped(Apply(db, op, now).users, n, since)
  {
    match op {
      case Create(_, _) => TunnelOpUsers(db, op, now);
      case Update(_, _) => TunnelOpUsers(db, op, now);
      case _ =>
    }
  }

  lemma {:induction false} RunNotice(db: Db, since: Time, clock: Time, calls: seq<Call>, n: string)
    requires Unstamped(db.users, n, since) && since <= clock && Timely(clock, calls)
    ensures Unstamped(Run(db, calls).users, n, since) && since <= LastTime(clock, calls)
    decreases |calls|
  {
    if calls != [] {
      OpNotice(db, calls[0].op, calls[0].now, n, since);
      RunNotice(Apply(db, calls[0].op, calls[0].now), since, calls[0].now, calls[1..], n);
    }
  }

  /** A user without a stamp at some time is not removed by a sweep until the whole retention has passed. */
  lemma NoticeBeforeRemoval(db: Db, since: Time, calls: seq<Call>, now: Time, retention: int, n: string)
    requires StampsOk(db.users, since) && 0 < since && Timely(since, calls)
    requires n in db.users ==> db.users[n].expiredAt == 0
    requires LastTime(since, calls) <= now && 0 < retention
    requires n in Run(db, calls).users && n !in EnforceExpiry(Run(db, calls), now, retention).users
    ensures since + retention <= now
  {
    RunNotice(db, since, since, calls, n);
    RunStamps(db, since, calls);
    SweepExact(Run(db, calls), LastTime(since, calls), now, retention, n);
  }

  // -------------------------------------------------------- enabled admin

  /** Sweeps never touch an admin. */
  lemma SweepSparesAdmins(db: Db, now: Time, retention: int, n: string)
    requires n in db.users && db.users[n].role == ROLE_ADMIN
    ensures n in EnforceExpiry(db, now, retention).users && EnforceExpiry(db, now, retention).users[n] == db.users[n]
  {
  }

  lemma AnotherMember<T>(s: set<T>, x: T)
    requires s != {} && (x in s ==> |s| > 1)
    ensures s - {x} != {}
  {
    if x in s {
      assert s == (s - {x}) + {x};
    } else {
      assert s - {x} == s;
    }
  }

  lemma AdminSurvivesRemoval(db: Db, name: string, now: Time)
    requires EnabledAdmins(db.users) != {}
    ensures EnabledAdmins(Apply(db, RemoveUser(name), now).users) != {}
  {
    var admins := EnabledAdmins(db.users);
    if DeleteUser(db, name).Done? && name in db.users {
      AnotherMember(admins, name);
      var other :| other in admins - {name};
      assert other in EnabledAdmins(Apply(db, RemoveUser(name), now).users);
    }
  }

  /** No call but an upsert of a user can leave the registry without an enabled admin. */
  lemma AdminRemains(db: Db, op: Op, now: Time)
    requires EnabledAdmins(db.users) != {} && !op.PutUser?
    ensures EnabledAdmins(Apply(db, op, now).users) != {}
  {
    var a :| a in EnabledAdmins(db.users);
    match op {
      case Create(_, _) => TunnelOpUsers(db, op, now);
      case Update(_, _) => TunnelOpUsers(db, op, now);
      case RemoveUser(name) => AdminSurvivesRemoval(db, name, now);
      case Sweep(retention) =>
        SweepSparesAdmins(db, now, retention, a);
        assert a in EnabledAdmins(Apply(db, op, now).users);
      case _ =>
    }
  }

  /** An upsert leaves an enabled admin exactly when it writes one or there is another. */
  lemma AdminAfterUpsert(db: Db, input: User, now: Time, key: string)
    requires UpsertUser(db, input, now, key).Done?
    ensures EnabledAdmins(Apply(db, PutUser(input, key), now).users) != {}
            <==> (input.role == ROLE_ADMIN && input.enabled) || EnabledAdmins(db.users) - {input.name} != {}
  {
    var users := Apply(db, PutUser(input, key), now).users;
    if input.role == ROLE_ADMIN && input.enabled {
      assert input.name in EnabledAdmins(users);
    }
    assert EnabledAdmins(users) - {input.name} == EnabledAdmins(db.users) - {input.name};
  }

  /** So the guard on the last admin can be passed by: an upsert may disable the only one. */
  lemma LastAdminCanBeDisabled(now: Time)
    ensures var root := User("root", ROLE_ADMIN, true, [], [], 0, "k", 0, 0, 0, 0);
      var db := Apply(FreshDb(), Admin("root", "pw", "k"), now);
      EnabledAdmins(db.users) == {"root"}
      && EnabledAdmins(Apply(db, PutUser(root.(enabled := false), "k"), now).users) == {}
  {
    assert EnabledAdmins(FreshDb().users) == {};
    var root := User("root", ROLE_ADMIN, true, [], [], 0, "k", 0, 0, 0, 0);
    var db := Apply(FreshDb(), Admin("root", "pw", "k"), now);
    assert NormalizeFrom([], []) == Ok([]);
    AdminAfterUpsert(db, root.(enabled := false), now, "k");
  }
}
