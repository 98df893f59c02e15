/**
Reconciliation converges: after a successful synchronization the tables hold exactly
what the control plane asks for, and doing it again changes no identifier or setting.
*/
module ReconcileSafety {
  import opened Basics
  import opened Registry
  import opened Reconcile
  import opened ReconcileTables
  import opened ReconcileWants

  ghost predicate NpsOk(db: Nps) { ClientsOk(db.clients) && TableOk(db.tasks) && TableOk(db.hosts) }

  // ---------------------------------------------------------- tunnel phase

  ghost predicate TaskDone(ts: Table<Task>, t: Tunnel, clientId: Id) {
    && Lookup(ts, TaskRemark(t.id)).Some?
    && (var body := Lookup(ts, TaskRemark(t.id)).value.body;
        body == TaskFor(body, t, clientId).(flow := body.flow))
  }

  ghost predicate HostDone(hs: Table<Host>, t: Tunnel, domain: string, clientId: Id) {
    && Lookup(hs, HostRemark(t.id, domain)).Some?
    && (var body := Lookup(hs, HostRemark(t.id, domain)).value.body;
        body == HostFor(t, domain, clientId).(flow := body.flow))
    && !HostConflict(hs.rows, domain, t.mode, HostRemark(t.id, domain))
  }

  /** The record is there with the settings asked for, and no other row serves its domain. */
  ghost predicate Satisfied(db: Nps, w: Want) {
    match w
    case WantTask(t, clientId) => TaskDone(db.tasks, t, clientId)
    case WantHost(t, domain, clientId) => HostDone(db.hosts, t, domain, clientId)
  }

  lemma SyncTaskDone(ts: Table<Task>, t: Tunnel, clientId: Id)
    requires TableOk(ts)
    ensures TableOk(SyncTask(ts, t, clientId)) && TaskDone(SyncTask(ts, t, clientId), t, clientId)
  {
    ManagedRemarks(t.id, "");
    PutKeeps(ts, TaskRemark(t.id), TaskFor(OldTask(ts, TaskRemark(t.id)), t, clientId));
  }

  lemma SyncTaskKeeps(ts: Table<Task>, t: Tunnel, clientId: Id, s: Tunnel, other: Id)
    requires TableOk(ts) && TaskDone(ts, s, other) && TaskRemark(s.id) != TaskRemark(t.id)
    ensures TaskDone(SyncTask(ts, t, clientId), s, other)
  {
    ManagedRemarks(t.id, "");
    ManagedRemarks(s.id, "");
    PutOthers(ts, TaskRemark(t.id), TaskFor(OldTask(ts, TaskRemark(t.id)), t, clientId), TaskRemark(s.id));
  }

  lemma SyncHostTable(hs: Table<Host>, t: Tunnel, domain: string, clientId: Id)
    requires TableOk(hs)
    ensures TableOk(SyncHost(hs, t, domain, clientId).0)
  {
    ManagedRemarks(t.id, domain);
    PutKeeps(hs, HostRemark(t.id, domain), HostFor(t, domain, clientId));
  }

  /** Writing a row under a remark does not make another row conflict with it. */
  lemma PutNoConflict(hs: Table<Host>, remark: string, body: Host, domain: string, scheme: string, except: string)
    requires TableOk(hs) && !HostConflict(hs.rows, domain, scheme, except)
    requires remark == except || body.host != domain || body.scheme != scheme
    requires body.scheme != "all"
    ensures !HostConflict(Put(hs, remark, body).rows, domain, scheme, except)
  {
    var id := PutRow(hs, remark, body);
    var rows := Put(hs, remark, body).rows;
    forall k | k in rows
      ensures !Serves(rows[k], domain, scheme, except)
    {
      if k != id {
        assert rows[k] == hs.rows[k];
      }
    }
  }

  lemma SchemeOfHost(mode: string)
    requires IsDomainMode(mode)
    ensures mode != "all"
  {
    assert mode[0] == 'h';
  }

  lemma SyncHostDone(hs: Table<Host>, t: Tunnel, domain: string, clientId: Id)
    requires TableOk(hs) && IsDomainMode(t.mode) && SyncHost(hs, t, domain, clientId).1.None?
    ensures HostDone(SyncHost(hs, t, domain, clientId).0, t, domain, clientId)
  {
    ManagedRemarks(t.id, domain);
    SchemeOfHost(t.mode);
    PutKeeps(hs, HostRemark(t.id, domain), HostFor(t, domain, clientId));
    PutNoConflict(hs, HostRemark(t.id, domain), HostFor(t, domain, clientId), domain, t.mode, HostRemark(t.id, domain));
  }

  /** A row that serves a domain refuses that domain to any other remark. */
  lemma DoneRefuses(hs: Table<Host>, s: Tunnel, e: string, other: Id, domain: string, mode: string, remark: string)
    requires TableOk(hs) && HostDone(hs, s, e, other) && remark != HostRemark(s.id, e)
    requires !HostConflict(hs.rows, domain, mode, remark)
    ensures domain != e || mode != s.mode
  {
    var row := Lookup(hs, HostRemark(s.id, e)).value;
    LookupFound(hs, HostRemark(s.id, e));
    assert !Serves(hs.rows[row.id], domain, mode, remark);
  }

  lemma SyncHostKeeps(hs: Table<Host>, t: Tunnel, domain: string, clientId: Id, s: Tunnel, e: string, other: Id)
    requires TableOk(hs) && IsDomainMode(t.mode) && SyncHost(hs, t, domain, clientId).1.None?
    requires HostDone(hs, s, e, other) && HostRemark(s.id, e) != HostRemark(t.id, domain)
    ensures HostDone(SyncHost(hs, t, domain, clientId).0, s, e, other)
  {
    ManagedRemarks(t.id, domain);
    ManagedRemarks(s.id, e);
    SchemeOfHost(t.mode);
    DoneRefuses(hs, s, e, other, domain, t.mode, HostRemark(t.id, domain));
    PutOthers(hs, HostRemark(t.id, domain), HostFor(t, domain, clientId), HostRemark(s.id, e));
    PutNoConflict(hs, HostRemark(t.id, domain), HostFor(t, domain, clientId), e, s.mode, HostRemark(s.id, e));
  }

  /** Hosts are only wanted by tunnels in a domain mode. */
  predicate WantOk(w: Want) { w.WantHost? ==> IsDomainMode(w.tunnel.mode) }

  lemma SyncWantTables(db: Nps, w: Want)
    requires TableOk(db.tasks) && TableOk(db.hosts)
    ensures var db' := SyncWant(db, w).0; TableOk(db'.tasks) && TableOk(db'.hosts) && db'.clients == db.clients
  {
    match w {
      case WantTask(t, clientId) => SyncTaskDone(db.tasks, t, clientId);
      case WantHost(t, domain, clientId) => SyncHostTable(db.hosts, t, domain, clientId);
    }
  }

  lemma SyncWantDone(db: Nps, w: Want)
    requires TableOk(db.tasks) && TableOk(db.hosts) && WantOk(w) && SyncWant(db, w).1.None?
    ensures Satisfied(SyncWant(db, w).0, w)
  {
    match w {
      case WantTask(t, clientId) => SyncTaskDone(db.tasks, t, clientId);
      case WantHost(t, domain, clientId) => SyncHostDone(db.hosts, t, domain, clientId);
    }
  }

  lemma SyncWantKeeps(db: Nps, w: Want, v: Want)
    requires TableOk(db.tasks) && TableOk(db.hosts) && WantOk(w) && SyncWant(db, w).1.None?
    requires Satisfied(db, v) && !SameRecord(v, w)
    ensures Satisfied(SyncWant(db, w).0, v)
  {
    if w.WantTask? && v.WantTask? {
      SyncTaskKeeps(db.tasks, w.tunnel, w.clientId, v.tunnel, v.clientId);
    } else if w.WantHost? && v.WantHost? {
      SyncHostKeeps(db.hosts, w.tunnel, w.domain, w.clientId, v.tunnel, v.domain, v.clientId);
    }
  }

  lemma {:induction false} SyncWantsTables(db: Nps, wants: seq<Want>)
    requires TableOk(db.tasks) && TableOk(db.hosts)
    ensures var db' := SyncWants(db, wants).0; TableOk(db'.tasks) && TableOk(db'.hosts) && db'.clients == db.clients
    decreases |wants|
  {
    if wants != [] {
      SyncWantTables(db, wants[0]);
      if SyncWant(db, wants[0]).1.None? {
        SyncWantsTables(SyncWant(db, wants[0]).0, wants[1..]);
      }
    }
  }

  ghost predicate AllWantsOk(wants: seq<Want>) { forall w :: w in wants ==> WantOk(w) }

  lemma {:induction false} SyncWantsKeep(db: Nps, wants: seq<Want>, v: Want)
    requires TableOk(db.tasks) && TableOk(db.hosts) && AllWantsOk(wants) && SyncWants(db, wants).1.None?
    requires Satisfied(db, v) && forall w :: w in wants ==> !SameRecord(v, w)
    ensures Satisfied(SyncWants(db, wants).0, v)
    decreases |wants|
  {
    if wants != [] {
      SyncWantTables(db, wants[0]);
      SyncWantKeeps(db, wants[0], v);
      SyncWantsKeep(SyncWant(db, wants[0]).0, wants[1..], v);
    }
  }

  lemma DistinctRest(wants: seq<Want>)
    requires wants != [] && DistinctWants(wants) && AllWantsOk(wants)
    ensures DistinctWants(wants[1..]) && AllWantsOk(wants[1..]) && WantOk(wants[0])
    ensures forall w :: w in wants[1..] ==> !SameRecord(wants[0], w)
  {
    forall w | w in wants[1..]
      ensures !SameRecord(wants[0], w)
    {
      var i :| 0 <= i < |wants[1..]| && wants[1..][i] == w;
      assert wants[i + 1] == w;
    }
  }

  /** After the tunnel phase everything asked for is there. */
  lemma {:induction false} SyncWantsDone(db: Nps, wants: seq<Want>)
    requires TableOk(db.tasks) && TableOk(db.hosts) && AllWantsOk(wants) && DistinctWants(wants)
    requires SyncWants(db, wants).1.None?
    ensures forall w :: w in wants ==> Satisfied(SyncWants(db, wants).0, w)
    decreases |wants|
  {
    if wants != [] {
      var first, rest, db' := wants[0], wants[1..], SyncWant(db, wants[0]).0;
      DistinctRest(wants);
      SyncWantTables(db, first);
      SyncWantDone(db, first);
      SyncWantsKeep(db', rest, first);
      SyncWantsDone(db', rest);
      forall w | w in wants
        ensures w == first || w in rest
      {
        var i :| 0 <= i < |wants| && wants[i] == w;
        assert i > 0 ==> rest[i - 1] == w;
      }
    }
  }

  // ------------------------------------------------------------ user phase

  /** The row `id` is the client of `u`, with its settings and a key of its own. */
  ghost predicate Serving(cs: Clients, u: User, id: Id) {
    id in cs.rows && cs.rows[id] == Configured(cs.rows[id], u) && KeyFree(cs.rows, u.verifyKey, id)
  }

  lemma SyncUserServes(cs: Clients, u: User)
    requires ClientsOk(cs) && u.name != "" && SyncUser(cs, u).1.None?
    ensures Serving(SyncUser(cs, u).0, u, ClientIdOf(cs, u))
  {
    var id, rows := UserRow(cs, u);
    SyncUserOk(cs, u);
    assert rows[id] == Configured(rows[id], u);
  }

  lemma SyncUserKeeps(cs: Clients, u: User, v: User, id: Id)
    requires ClientsOk(cs) && u.name != "" && v.name != "" && u.name != v.name && SyncUser(cs, u).1.None?
    requires Serving(cs, v, id)
    ensures Serving(SyncUser(cs, u).0, v, id) && id != ClientIdOf(cs, u)
  {
    var mine, rows := UserRow(cs, u);
    SyncUserOk(cs, u);
    SyncUserServes(cs, u);
    assert !Named(cs.rows[id], u.name);
    assert rows[id] == cs.rows[id] && rows[mine].verifyKey == u.verifyKey;
    assert rows[id].id == id;
  }

  lemma {:induction false} SyncUsersKeep(cs: Clients, owners: map<string, Id>, users: seq<User>, v: User, id: Id)
    requires ClientsOk(cs) && v.name != "" && SyncUsers(cs, owners, users).error.None?
    requires forall u :: u in users ==> u.name != "" && u.name != v.name
    requires Serving(cs, v, id) && v.name in owners && owners[v.name] == id
    ensures var p := SyncUsers(cs, owners, users);
      Serving(p.clients, v, id) && v.name in p.owners && p.owners[v.name] == id
    decreases |users|
  {
    if users != [] {
      var u := users[0];
      if !Desired(u) {
        SyncUsersKeep(cs, owners, users[1..], v, id);
      } else {
        SyncUserOk(cs, u);
        SyncUserKeeps(cs, u, v, id);
        SyncUsersKeep(SyncUser(cs, u).0, owners[u.name := ClientIdOf(cs, u)], users[1..], v, id);
      }
    }
  }

  function DesiredNames(users: seq<User>): set<string> {
    set u | u in users && Desired(u) :: u.name
  }

  lemma {:induction false} SyncUsersOk(cs: Clients, owners: map<string, Id>, users: seq<User>)
    requires ClientsOk(cs) && UsersListed(users)
    ensures ClientsOk(SyncUsers(cs, owners, users).clients)
    ensures SyncUsers(cs, owners, users).error != Some(NameDuplicate)
    decreases |users|
  {
    if users != [] {
      SyncUserOk(cs, users[0]);
      if Desired(users[0]) {
        SyncUsersOk(SyncUser(cs, users[0]).0, owners[users[0].name := ClientIdOf(cs, users[0])], users[1..]);
      } else {
        SyncUsersOk(cs, owners, users[1..]);
      }
    }
  }

  lemma DesiredStep(users: seq<User>)
    requires users != []
    ensures DesiredNames(users) == (if Desired(users[0]) then {users[0].name} else {}) + DesiredNames(users[1..])
  {
    assert users == [users[0]] + users[1..];
  }

  lemma {:induction false} SyncUsersNames(cs: Clients, owners: map<string, Id>, users: seq<User>)
    requires SyncUsers(cs, owners, users).error.None?
    ensures SyncUsers(cs, owners, users).owners.Keys == owners.Keys + DesiredNames(users)
    decreases |users|
  {
    if users != [] {
      DesiredStep(users);
      if Desired(users[0]) {
        SyncUsersNames(SyncUser(cs, users[0]).0, owners[users[0].name := ClientIdOf(cs, users[0])], users[1..]);
      } else {
        SyncUsersNames(cs, owners, users[1..]);
      }
    }
  }

  ghost predicate AllServed(cs: Clients, owners: map<string, Id>, users: seq<User>) {
    forall u :: u in users && Desired(u) ==> u.name in owners && Serving(cs, u, owners[u.name])
  }

  /** After the user phase every enabled user with a key has its client. */
  lemma {:induction false} SyncUsersDone(cs: Clients, owners: map<string, Id>, users: seq<User>)
    requires ClientsOk(cs) && UsersListed(users) && SyncUsers(cs, owners, users).error.None?
    ensures AllServed(SyncUsers(cs, owners, users).clients, SyncUsers(cs, owners, users).owners, users)
    decreases |users|
  {
    if users != [] {
      var u := users[0];
      assert users == [u] + users[1..];
      if Desired(u) {
        var cs', owners' := SyncUser(cs, u).0, owners[u.name := ClientIdOf(cs, u)];
        SyncUserOk(cs, u);
        SyncUserServes(cs, u);
        SyncUsersKeep(cs', owners', users[1..], u, ClientIdOf(cs, u));
        SyncUsersDone(cs', owners', users[1..]);
      } else {
        SyncUsersDone(cs, owners, users[1..]);
      }
    }
  }

  // ----------------------------------------------------------- convergence

  ghost predicate Converged(db: Nps, owners: map<string, Id>, users: seq<User>, tunnels: seq<Tunnel>) {
    var wants := Wants(owners, tunnels);
    && NpsOk(db)
    && owners.Keys == DesiredNames(users) && AllServed(db.clients, owners, users)
    && (forall k :: k in db.clients.rows ==> !Unwanted(db.clients.rows[k], owners.Keys))
    && (forall w :: w in wants ==> Satisfied(db, w))
    && (forall k :: k in db.tasks.rows ==> !Stale(db.tasks.rows[k], TaskRemarks(wants)))
    && (forall k :: k in db.hosts.rows ==> !Stale(db.hosts.rows[k], HostRemarks(wants)))
  }

  lemma {:induction false} WantClient(owners: map<string, Id>, tunnels: seq<Tunnel>, w: Want)
    requires w in Wants(owners, tunnels)
    ensures w.tunnel.userName in owners && w.clientId == owners[w.tunnel.userName] && WantOk(w)
  {
    if w in WantsOf(owners, tunnels[0]) {
      var t := tunnels[0];
      HostWantsFacts(t, owners[t.userName], t.domains);
    } else {
      WantClient(owners, tunnels[1..], w);
    }
  }

  lemma OwnersStay(cs: Clients, owners: map<string, Id>, users: seq<User>, name: string)
    requires ClientsOk(cs) && UsersListed(users) && AllServed(cs, owners, users)
    requires owners.Keys == DesiredNames(users) && name in owners
    ensures owners[name] in cs.rows && owners[name] !in UnwantedIds(cs.rows, owners.Keys)
  {
    var u :| u in users && Desired(u) && u.name == name;
    assert cs.rows[owners[name]].webUserName == name;
  }

  lemma ServedAfterPrune(cs: Clients, owners: map<string, Id>, users: seq<User>)
    requires ClientsOk(cs) && UsersListed(users) && AllServed(cs, owners, users) && owners.Keys == DesiredNames(users)
    ensures var cs' := cs.(rows := cs.rows - UnwantedIds(cs.rows, owners.Keys));
      && ClientsOk(cs') && AllServed(cs', owners, users)
      && forall k :: k in cs'.rows ==> !Unwanted(cs'.rows[k], owners.Keys)
  {
    forall u | u in users && Desired(u)
      ensures owners[u.name] !in UnwantedIds(cs.rows, owners.Keys)
    {
      OwnersStay(cs, owners, users, u.name);
    }
  }

  lemma TasksAfterPrune(ts: Table<Task>, remarks: set<string>, gone: set<Id>)
    requires TableOk(ts)
    ensures var ts' := ts.(rows := WithoutTasksOf(PruneRows(ts.rows, remarks), gone));
      TableOk(ts') && forall k :: k in ts'.rows ==> !Stale(ts'.rows[k], remarks)
  {
    FewerRows(ts, WithoutTasksOf(PruneRows(ts.rows, remarks), gone));
  }

  lemma HostsAfterPrune(hs: Table<Host>, remarks: set<string>, gone: set<Id>)
    requires TableOk(hs)
    ensures var hs' := hs.(rows := WithoutHostsOf(PruneRows(hs.rows, remarks), gone));
      TableOk(hs') && forall k :: k in hs'.rows ==> !Stale(hs'.rows[k], remarks)
  {
    FewerRows(hs, WithoutHostsOf(PruneRows(hs.rows, remarks), gone));
  }

  lemma TaskAfterPrune(ts: Table<Task>, remarks: set<string>, gone: set<Id>, t: Tunnel, clientId: Id)
    requires TableOk(ts) && TaskDone(ts, t, clientId) && TaskRemark(t.id) in remarks && clientId !in gone
    ensures TaskDone(ts.(rows := WithoutTasksOf(PruneRows(ts.rows, remarks), gone)), t, clientId)
  {
    ManagedRemarks(t.id, "");
    LookupFound(ts, TaskRemark(t.id));
    StillFound(ts, WithoutTasksOf(PruneRows(ts.rows, remarks), gone), TaskRemark(t.id));
  }

  lemma HostAfterPrune(hs: Table<Host>, remarks: set<string>, gone: set<Id>, t: Tunnel, domain: string, clientId: Id)
    requires TableOk(hs) && HostDone(hs, t, domain, clientId) && HostRemark(t.id, domain) in remarks && clientId !in gone
    ensures HostDone(hs.(rows := WithoutHostsOf(PruneRows(hs.rows, remarks), gone)), t, domain, clientId)
  {
    ManagedRemarks(t.id, domain);
    LookupFound(hs, HostRemark(t.id, domain));
    StillFound(hs, WithoutHostsOf(PruneRows(hs.rows, remarks), gone), HostRemark(t.id, domain));
  }

  lemma RemarkListed(wants: seq<Want>, w: Want)
    requires w in wants
    ensures if w.WantTask? then Remark(w) in TaskRemarks(wants) else Remark(w) in HostRemarks(wants)
  {
    var i :| 0 <= i < |wants| && wants[i] == w;
  }

  lemma PruneConverges(db: Nps, owners: map<string, Id>, users: seq<User>, tunnels: seq<Tunnel>)
    requires NpsOk(db) && UsersListed(users) && owners.Keys == DesiredNames(users)
    requires AllServed(db.clients, owners, users)
    requires forall w :: w in Wants(owners, tunnels) ==> Satisfied(db, w)
    ensures var wants := Wants(owners, tunnels);
      Converged(Prune(db, owners.Keys, TaskRemarks(wants), HostRemarks(wants)), owners, users, tunnels)
  {
    var wants := Wants(owners, tunnels);
    var tasks, hosts := TaskRemarks(wants), HostRemarks(wants);
    var gone := UnwantedIds(db.clients.rows, owners.Keys);
    ServedAfterPrune(db.clients, owners, users);
    TasksAfterPrune(db.tasks, tasks, gone);
    HostsAfterPrune(db.hosts, hosts, gone);
    forall w | w in wants
      ensures Satisfied(Prune(db, owners.Keys, tasks, hosts), w)
    {
      WantClient(owners, tunnels, w);
      OwnersStay(db.clients, owners, users, w.tunnel.userName);
      RemarkListed(wants, w);
      match w {
        case WantTask(t, c) => TaskAfterPrune(db.tasks, tasks, gone, t, c);
        case WantHost(t, d, c) => HostAfterPrune(db.hosts, hosts, gone, t, d, c);
      }
    }
  }

  /** The client identifiers of the users after the user phase. */
  ghost function Owners(db: Nps, users: seq<User>): map<string, Id> { SyncUsers(db.clients, map[], users).owners }

  /** When the synchronization reports no error, the tables hold exactly what is asked for. */
  lemma SyncConverges(db: Nps, users: seq<User>, tunnels: seq<Tunnel>)
    requires NpsOk(db) && UsersListed(users) && TunnelsListed(tunnels) && Sync(db, users, tunnels).1.None?
    ensures Converged(Sync(db, users, tunnels).0, Owners(db, users), users, tunnels)
  {
    var owners := Owners(db, users);
    var wants := Wants(owners, tunnels);
    var here := db.(clients := SyncUsers(db.clients, map[], users).clients);
    SyncUsersOk(db.clients, map[], users);
    SyncUsersNames(db.clients, map[], users);
    SyncUsersDone(db.clients, map[], users);
    forall w | w in wants
      ensures WantOk(w)
    {
      WantClient(owners, tunnels, w);
    }
    WantsDistinct(owners, tunnels);
    SyncWantsTables(here, wants);
    SyncWantsDone(here, wants);
    PruneConverges(SyncWants(here, wants).0, owners, users, tunnels);
  }
}
