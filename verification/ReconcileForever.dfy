/** A synchronization that fails goes on failing: what it leaves in the tables stands in its own way again. */
module ReconcileForever {
  import opened Registry
  import opened RegistrySafety
  import opened Reconcile
  import opened ReconcileTables
  import opened ReconcileWants
  import opened ReconcileSafety
  import opened ReconcileStability
  import opened ReconcileExact

  // ------------------------------------------------------------ tunnel phase

  lemma {:induction false} WantsSpareRow(db: Nps, wants: seq<Want>, k: Id)
    requires TableOk(db.hosts) && TableOk(db.tasks) && k in db.hosts.rows && db.hosts.rows[k].remark !in HostRemarks(wants)
    ensures var rows := SyncWants(db, wants).0.hosts.rows; k in rows && rows[k] == db.hosts.rows[k]
    decreases |wants|
  {
    if wants != [] {
      HostRemarksStep(wants);
      SyncWantTables(db, wants[0]);
      FirstWantSparesRow(db, wants[0], k);
      if SyncWant(db, wants[0]).1.None? {
        WantsSpareRow(SyncWant(db, wants[0]).0, wants[1..], k);
      }
    }
  }

  /** The rows under the first want's remark hold what was written for it. */
  ghost predicate FirstWritten(rows: map<Id, Row<Host>>, wants: seq<Want>)
    requires wants != [] && wants[0].WantHost?
  {
    forall k :: k in rows && rows[k].remark == Remark(wants[0]) ==>
      rows[k].body == HostFor(wants[0].tunnel, wants[0].domain, wants[0].clientId)
  }

  lemma NotInRest(wants: seq<Want>)
    requires wants != [] && DistinctWants(wants) && AllWantsOk(wants) && wants[0].WantHost?
    ensures Remark(wants[0]) !in HostRemarks(wants[1..])
  {
    DistinctRest(wants);
    forall i | 0 <= i < |wants[1..]| && wants[1..][i].WantHost?
      ensures Remark(wants[1..][i]) != Remark(wants[0])
    {
      assert !SameRecord(wants[0], wants[1..][i]);
    }
  }

  lemma FirstStays(db: Nps, wants: seq<Want>)
    requires TableOk(db.tasks) && TableOk(db.hosts) && wants != [] && wants[0].WantHost?
    requires AllWantsOk(wants) && DistinctWants(wants) && SyncWant(db, wants[0]).1.None?
    ensures FirstWritten(SyncWants(SyncWant(db, wants[0]).0, wants[1..]).0.hosts.rows, wants)
  {
    var w := wants[0];
    var db1 := SyncWant(db, w).0;
    var last := SyncWants(db1, wants[1..]).0;
    var id := PutRow(db.hosts, Remark(w), HostFor(w.tunnel, w.domain, w.clientId));
    ManagedRemarks(w.tunnel.id, w.domain);
    SyncWantTables(db, w);
    SyncWantsTables(db1, wants[1..]);
    NotInRest(wants);
    WantsSpareRow(db1, wants[1..], id);
    forall k | k in last.hosts.rows && last.hosts.rows[k].remark == Remark(w)
      ensures k == id
    {
      LookupIs(last.hosts, k);
      LookupIs(last.hosts, id);
    }
  }

  lemma FreeLater(rows: map<Id, Row<Host>>, wants: seq<Want>, i: nat, k: Id)
    requires 0 < i < |wants| && wants[0].WantHost? && WantOk(wants[0]) && DistinctServices(wants)
    requires FirstWritten(rows, wants) && k in rows && Blocks(rows[k], wants[i])
    requires rows[k].remark in HostRemarks(wants[..i])
    ensures rows[k].remark in HostRemarks(wants[1..][..i - 1])
  {
    EarlierRemarks(wants, i);
    if rows[k].remark == Remark(wants[0]) {
      WrittenDoesNotBlock(wants, i, rows[k]);
    }
  }

  lemma FreeForRest(rows: map<Id, Row<Host>>, wants: seq<Want>)
    requires wants != [] && wants[0].WantHost? && WantOk(wants[0]) && DistinctServices(wants)
    requires FirstWritten(rows, wants) && HostsFree(rows, wants)
    ensures HostsFree(rows, wants[1..])
  {
    forall i, k | 0 <= i < |wants[1..]| && k in rows && Blocks(rows[k], wants[1..][i])
      ensures rows[k].remark in HostRemarks(wants[1..][..i])
    {
      assert wants[1..][i] == wants[i + 1];
      FreeLater(rows, wants, i + 1, k);
    }
  }

  lemma ConflictStays(db: Nps, w: Want)
    requires TableOk(db.tasks) && TableOk(db.hosts) && w.WantHost?
    requires HostConflict(db.hosts.rows, w.domain, w.tunnel.mode, Remark(w))
    ensures HostConflict(SyncWant(db, w).0.hosts.rows, w.domain, w.tunnel.mode, Remark(w))
    ensures SyncWant(db, w).1.Some?
  {
    var k :| k in db.hosts.rows && Serves(db.hosts.rows[k], w.domain, w.tunnel.mode, Remark(w));
    FirstWantSparesRow(db, w, k);
    assert Serves(SyncWant(db, w).0.hosts.rows[k], w.domain, w.tunnel.mode, Remark(w));
  }

  /** A tunnel phase that fails leaves hosts that are not free either. */
  lemma {:induction false} HostsStayTaken(db: Nps, wants: seq<Want>)
    requires TableOk(db.tasks) && TableOk(db.hosts) && AllWantsOk(wants) && DistinctWants(wants) && DistinctServices(wants)
    requires SyncWants(db, wants).1.Some?
    ensures !HostsFree(SyncWants(db, wants).0.hosts.rows, wants)
    decreases |wants|
  {
    var w, rest, db1 := wants[0], wants[1..], SyncWant(db, wants[0]).0;
    DistinctRest(wants);
    SyncWantTables(db, w);
    assert DistinctServices(rest);
    if w.WantTask? {
      HostsStayTaken(db1, rest);
      FreeAfterTask(SyncWants(db1, rest).0.hosts.rows, wants);
    } else if HostConflict(db.hosts.rows, w.domain, w.tunnel.mode, Remark(w)) {
      ConflictStays(db, w);
      BlockedAtOnce(db1.hosts.rows, wants);
    } else {
      HostsStayTaken(db1, rest);
      FirstStays(db, wants);
      if HostsFree(SyncWants(db1, rest).0.hosts.rows, wants) {
        FreeForRest(SyncWants(db1, rest).0.hosts.rows, wants);
      }
    }
  }

  // -------------------------------------------------------------- user phase

  lemma UserSparesRow(cs: Clients, u: User, k: Id)
    requires ClientsOk(cs) && u.name != "" && k in cs.rows && !Named(cs.rows[k], u.name)
    ensures k in SyncUser(cs, u).0.rows && SyncUser(cs, u).0.rows[k] == cs.rows[k]
  {
    var id, rows := UserRow(cs, u);
    SyncUserOk(cs, u);
  }

  /** The row goes by this name only. */
  predicate OnlyNamed(c: Client, name: string) { c.webUserName == name && c.remark == name }

  lemma {:induction false} UsersSpareRow(cs: Clients, owners: map<string, Id>, users: seq<User>, k: Id, name: string)
    requires ClientsOk(cs) && UsersListed(users) && k in cs.rows && OnlyNamed(cs.rows[k], name)
    requires forall u :: u in users ==> u.name != name
    ensures var rows := SyncUsers(cs, owners, users).clients.rows; k in rows && rows[k] == cs.rows[k]
    decreases |users|
  {
    if users != [] {
      var u := users[0];
      if !Desired(u) {
        UsersSpareRow(cs, owners, users[1..], k, name);
      } else {
        UserSparesRow(cs, u, k);
        SyncUserOk(cs, u);
        if SyncUser(cs, u).1.None? {
          UsersSpareRow(SyncUser(cs, u).0, owners[u.name := ClientIdOf(cs, u)], users[1..], k, name);
        }
      }
    }
  }

  /** The rows that go by the first user's name have its key. */
  ghost predicate FirstHasKey(rows: map<Id, Client>, u: User) {
    forall k :: k in rows && Named(rows[k], u.name) ==> rows[k].verifyKey == u.verifyKey
  }

  lemma FirstUserStays(cs: Clients, owners: map<string, Id>, users: seq<User>)
    requires ClientsOk(cs) && UsersListed(users) && users != [] && SyncUser(cs, users[0]).1.None?
    ensures FirstHasKey(SyncUsers(SyncUser(cs, users[0]).0, owners, users[1..]).clients.rows, users[0])
  {
    var u := users[0];
    var id, rows := UserRow(cs, u);
    var cs1 := SyncUser(cs, u).0;
    SyncUserOk(cs, u);
    SyncUsersOk(cs1, owners, users[1..]);
    forall v | v in users[1..]
      ensures v.name != u.name
    {
      var i :| 0 <= i < |users[1..]| && users[1..][i] == v;
      assert users[i + 1] == v;
    }
    UsersSpareRow(cs1, owners, users[1..], id, u.name);
    var last := SyncUsers(cs1, owners, users[1..]).clients;
    forall k | k in last.rows && Named(last.rows[k], u.name)
      ensures k == id
    {
      NamedIs(last, k, u.name);
      NamedIs(last, id, u.name);
    }
  }

  lemma KeysFreeForRest(rows: map<Id, Client>, users: seq<User>)
    requires users != [] && Desired(users[0]) && FirstHasKey(rows, users[0]) && KeysFree(rows, users)
    ensures KeysFree(rows, users[1..])
  {
    forall i, j | 0 <= j < i < |users[1..]| && Desired(users[1..][i]) && Desired(users[1..][j])
      ensures users[1..][i].verifyKey != users[1..][j].verifyKey
    {
      assert users[1..][i] == users[i + 1] && users[1..][j] == users[j + 1];
    }
    forall i, k | 0 <= i < |users[1..]| && k in rows && TakesKey(rows[k], users[1..][i])
      ensures ClaimedBy(rows[k], users[1..], i)
    {
      assert users[1..][i] == users[i + 1];
      assert ClaimedBy(rows[k], users, i + 1);
      ClaimedStep(rows[k], users, i + 1);
    }
  }

  lemma FirstFailureStays(cs: Clients, users: seq<User>)
    requires ClientsOk(cs) && UsersListed(users) && users != [] && Desired(users[0]) && SyncUser(cs, users[0]).1.Some?
    ensures !KeysFree(SyncUser(cs, users[0]).0.rows, users)
  {
    var u := users[0];
    FirstUserExact(cs, u);
    var k :| k in cs.rows && TakesKey(cs.rows[k], u) && !Named(cs.rows[k], u.name);
    UserSparesRow(cs, u, k);
    FirstKeyTaken(SyncUser(cs, u).0.rows, users);
  }

  /** A user phase that fails leaves keys that are not free either. */
  lemma {:induction false} KeysStayTaken(cs: Clients, owners: map<string, Id>, users: seq<User>)
    requires ClientsOk(cs) && UsersListed(users) && SyncUsers(cs, owners, users).error.Some?
    ensures !KeysFree(SyncUsers(cs, owners, users).clients.rows, users)
    decreases |users|
  {
    var u := users[0];
    if !Desired(u) {
      KeysStayTaken(cs, owners, users[1..]);
      KeysSkip(SyncUsers(cs, owners, users).clients.rows, users);
    } else if SyncUser(cs, u).1.Some? {
      FirstFailureStays(cs, users);
    } else {
      var owners1 := owners[u.name := ClientIdOf(cs, u)];
      SyncUserOk(cs, u);
      KeysStayTaken(SyncUser(cs, u).0, owners1, users[1..]);
      FirstUserStays(cs, owners1, users);
      if KeysFree(SyncUsers(cs, owners, users).clients.rows, users) {
        KeysFreeForRest(SyncUsers(cs, owners, users).clients.rows, users);
      }
    }
  }

  // ------------------------------------------------------------ repetition

  lemma TablesStayTaken(reg: Db, db: Nps, users: seq<User>, tunnels: seq<Tunnel>)
    requires RegistryOk(reg) && Listed(reg, tunnels) && TunnelsListed(tunnels) && UsersListed(users) && NpsOk(db)
    requires Sync(db, users, tunnels).1.Some?
    ensures var db' := Sync(db, users, tunnels).0;
      !(KeysFree(db'.clients.rows, users) && HostsFree(db'.hosts.rows, WantsFor(users, tunnels)))
  {
    var phase := SyncUsers(db.clients, map[], users);
    if phase.error.Some? {
      KeysStayTaken(db.clients, map[], users);
    } else {
      SyncUsersNames(db.clients, map[], users);
      SoundWants(reg, phase.owners, tunnels);
      HostsStayTaken(db.(clients := phase.clients), Wants(phase.owners, tunnels));
      FreeByName(Sync(db, users, tunnels).0.hosts.rows, phase.owners, users, tunnels);
    }
  }

  /** The outcome of a synchronization is the outcome of its repetition. */
  lemma AgainTheSame(reg: Db, db: Nps, users: seq<User>, tunnels: seq<Tunnel>)
    requires RegistryOk(reg) && Listed(reg, tunnels) && TunnelsListed(tunnels) && UsersListed(users) && NpsOk(db)
    ensures Sync(Sync(db, users, tunnels).0, users, tunnels).1.None? <==> Sync(db, users, tunnels).1.None?
  {
    var db' := Sync(db, users, tunnels).0;
    SyncOk(db, users, tunnels);
    if Sync(db, users, tunnels).1.None? {
      SyncConverges(db, users, tunnels);
      SyncIsStable(db', Owners(db, users), users, tunnels);
    } else {
      TablesStayTaken(reg, db, users, tunnels);
      SyncExact(reg, db', users, tunnels);
    }
  }

  lemma {:induction false} SyncTimesOk(db: Nps, users: seq<User>, tunnels: seq<Tunnel>, n: nat)
    requires NpsOk(db) && UsersListed(users)
    ensures NpsOk(SyncTimes(db, users, tunnels, n))
  {
    if n > 0 {
      SyncTimesOk(db, users, tunnels, n - 1);
      SyncOk(SyncTimes(db, users, tunnels, n - 1), users, tunnels);
    }
  }

  /**
  Repeating a synchronization never changes its outcome: however often it is repeated, it
  succeeds if and only if the keys and hosts were free in the tables that the first one found.
  */
  lemma {:induction false} OutcomeIsFinal(reg: Db, db: Nps, users: seq<User>, tunnels: seq<Tunnel>, n: nat)
    requires RegistryOk(reg) && Listed(reg, tunnels) && TunnelsListed(tunnels) && UsersListed(users) && NpsOk(db)
    ensures Sync(SyncTimes(db, users, tunnels, n), users, tunnels).1.None?
            <==> KeysFree(db.clients.rows, users) && HostsFree(db.hosts.rows, WantsFor(users, tunnels))
  {
    if n == 0 {
      SyncExact(reg, db, users, tunnels);
    } else {
      OutcomeIsFinal(reg, db, users, tunnels, n - 1);
      SyncTimesOk(db, users, tunnels, n - 1);
      AgainTheSame(reg, SyncTimes(db, users, tunnels, n - 1), users, tunnels);
    }
  }

  // -------------------------------------------------------------------- keys

  /** No two clients have the same key. */
  ghost predicate KeysDistinct(rows: map<Id, Client>) {
    forall j, k :: j in rows && k in rows && j != k ==> rows[j].verifyKey != rows[k].verifyKey
  }

  lemma KeysAfterSuccess(cs: Clients, u: User)
    requires ClientsOk(cs) && u.name != "" && Desired(u) && KeysDistinct(cs.rows) && SyncUser(cs, u).1.None?
    ensures KeysDistinct(SyncUser(cs, u).0.rows)
  {
    var id, rows := UserRow(cs, u);
    SyncUserOk(cs, u);
    FirstUserExact(cs, u);
    NoOtherNamed(cs, u, id);
  }

  /** The key of a client that is found is changed before it is checked. */
  lemma KeysAfterFailure(cs: Clients, u: User)
    requires ClientsOk(cs) && u.name != "" && Desired(u) && KeysDistinct(cs.rows) && SyncUser(cs, u).1.Some?
    ensures KeysDistinct(SyncUser(cs, u).0.rows) <==> LookupName(cs, u.name).None?
  {
    var id, rows := UserRow(cs, u);
    if LookupName(cs, u.name).Some? {
      FirstUserExact(cs, u);
      var k :| k in cs.rows && TakesKey(cs.rows[k], u) && !Named(cs.rows[k], u.name);
      UserSparesRow(cs, u, k);
      assert k != id && SyncUser(cs, u).0.rows[id].verifyKey == SyncUser(cs, u).0.rows[k].verifyKey;
    }
  }

  /** The user phase fails at a user who has a client already. */
  ghost predicate FailsAtFound(cs: Clients, users: seq<User>)
    decreases |users|
  {
    if users == [] then false
    else if !Desired(users[0]) then FailsAtFound(cs, users[1..])
    else if SyncUser(cs, users[0]).1.Some? then LookupName(cs, users[0].name).Some?
    else FailsAtFound(SyncUser(cs, users[0]).0, users[1..])
  }

  lemma {:induction false} KeysAfterUsers(cs: Clients, owners: map<string, Id>, users: seq<User>)
    requires ClientsOk(cs) && UsersListed(users) && KeysDistinct(cs.rows)
    ensures KeysDistinct(SyncUsers(cs, owners, users).clients.rows) <==> !FailsAtFound(cs, users)
    ensures FailsAtFound(cs, users) ==> SyncUsers(cs, owners, users).error.Some?
    decreases |users|
  {
    if users != [] {
      var u := users[0];
      if !Desired(u) {
        KeysAfterUsers(cs, owners, users[1..]);
      } else if SyncUser(cs, u).1.Some? {
        KeysAfterFailure(cs, u);
      } else {
        KeysAfterSuccess(cs, u);
        SyncUserOk(cs, u);
        KeysAfterUsers(SyncUser(cs, u).0, owners[u.name := ClientIdOf(cs, u)], users[1..]);
      }
    }
  }

  /**
  Keys stay distinct over a synchronization except when it fails at a user who has a client
  already; in particular whenever it succeeds.
  */
  lemma KeysStayDistinct(db: Nps, users: seq<User>, tunnels: seq<Tunnel>)
    requires NpsOk(db) && UsersListed(users) && KeysDistinct(db.clients.rows)
    ensures KeysDistinct(Sync(db, users, tunnels).0.clients.rows) <==> !FailsAtFound(db.clients, users)
    ensures FailsAtFound(db.clients, users) ==> Sync(db, users, tunnels).1.Some?
  {
    var phase := SyncUsers(db.clients, map[], users);
    KeysAfterUsers(db.clients, map[], users);
    if phase.error.None? {
      SyncWantsTables(db.(clients := phase.clients), Wants(phase.owners, tunnels));
    }
  }

  /** It can fail so: of two clients "a" and "b", the user of the second is given the key of the first. */
  lemma KeysCanCollide(a: Client, b: Client, u: User)
    requires a == Client(1, "k", "a", "a", true, "", true, 0, 0, 0, NO_FLOW)
    requires b == Client(2, "m", "b", "b", true, "", true, 0, 0, 0, NO_FLOW)
    requires u == User("b", ROLE_USER, true, [], [], 0, "k", 0, 0, 0, 0)
    ensures var db := Nps(Clients(map[1 := a, 2 := b], 2), Table(map[], 0), Table(map[], 0));
      && NpsOk(db) && UsersListed([u]) && KeysDistinct(db.clients.rows)
      && !KeysDistinct(Sync(db, [u], []).0.clients.rows)
  {
    var cs := Clients(map[1 := a, 2 := b], 2);
    assert Named(cs.rows[2], u.name) && TakesKey(cs.rows[1], u) && !Named(cs.rows[1], u.name);
    FirstUserExact(cs, u);
    KeysStayDistinct(Nps(cs, Table(map[], 0), Table(map[], 0)), [u], []);
  }
}
