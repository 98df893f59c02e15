/** Reconciling again: a fixed point up to traffic counters, and what reconciliation leaves alone. */
module ReconcileStability {
  import opened Basics
  import opened Registry
  import opened Reconcile
  import opened ReconcileTables
  import opened ReconcileWants
  import opened ReconcileSafety

  // ------------------------------------------------------------- invariant

  lemma PruneOk(db: Nps, names: set<string>, tasks: set<string>, hosts: set<string>)
    requires NpsOk(db)
    ensures NpsOk(Prune(db, names, tasks, hosts))
  {
    var gone := UnwantedIds(db.clients.rows, names);
    TasksAfterPrune(db.tasks, tasks, gone);
    HostsAfterPrune(db.hosts, hosts, gone);
  }

  /** Identifiers, names and managed remarks stay unique whether or not the synchronization succeeds. */
  lemma SyncOk(db: Nps, users: seq<User>, tunnels: seq<Tunnel>)
    requires NpsOk(db) && UsersListed(users)
    ensures NpsOk(Sync(db, users, tunnels).0)
  {
    var phase := SyncUsers(db.clients, map[], users);
    SyncUsersOk(db.clients, map[], users);
    if phase.error.None? {
      var wants := Wants(phase.owners, tunnels);
      var here := db.(clients := phase.clients);
      SyncWantsTables(here, wants);
      if SyncWants(here, wants).1.None? {
        PruneOk(SyncWants(here, wants).0, phase.owners.Keys, TaskRemarks(wants), HostRemarks(wants));
      }
    }
  }

  // ----------------------------------------------------- what convergence says

  predicate HasRow<T>(t: Table<T>, k: Id, remark: string) { k in t.rows && t.rows[k].remark == remark }

  /** The managed tasks are exactly those asked for, one row to a remark. */
  lemma ManagedTasksExact(db: Nps, owners: map<string, Id>, users: seq<User>, tunnels: seq<Tunnel>, remark: string)
    requires Converged(db, owners, users, tunnels) && IsManaged(remark)
    ensures remark in TaskRemarks(Wants(owners, tunnels)) <==> exists k :: HasRow(db.tasks, k, remark)
    ensures forall j, k :: HasRow(db.tasks, j, remark) && HasRow(db.tasks, k, remark) ==> j == k
  {
    if remark in TaskRemarks(Wants(owners, tunnels)) {
      var wants := Wants(owners, tunnels);
      var i :| 0 <= i < |wants| && wants[i].WantTask? && Remark(wants[i]) == remark;
      assert Satisfied(db, wants[i]);
      LookupFound(db.tasks, remark);
      assert HasRow(db.tasks, Lookup(db.tasks, remark).value.id, remark);
    }
  }

  /** And so are the managed hosts. */
  lemma ManagedHostsExact(db: Nps, owners: map<string, Id>, users: seq<User>, tunnels: seq<Tunnel>, remark: string)
    requires Converged(db, owners, users, tunnels) && IsManaged(remark)
    ensures remark in HostRemarks(Wants(owners, tunnels)) <==> exists k :: HasRow(db.hosts, k, remark)
    ensures forall j, k :: HasRow(db.hosts, j, remark) && HasRow(db.hosts, k, remark) ==> j == k
  {
    if remark in HostRemarks(Wants(owners, tunnels)) {
      var wants := Wants(owners, tunnels);
      var i :| 0 <= i < |wants| && wants[i].WantHost? && Remark(wants[i]) == remark;
      assert Satisfied(db, wants[i]);
      LookupFound(db.hosts, remark);
      assert HasRow(db.hosts, Lookup(db.hosts, remark).value.id, remark);
    }
  }

  /** The clients with a name are exactly those of the users asked for. */
  lemma NamedClientsExact(db: Nps, owners: map<string, Id>, users: seq<User>, tunnels: seq<Tunnel>, k: Id)
    requires Converged(db, owners, users, tunnels) && UsersListed(users) && k in db.clients.rows
    ensures NameOf(db.clients.rows[k]) != "" <==> exists u :: u in users && Desired(u) && owners[u.name] == k
  {
    var c := db.clients.rows[k];
    forall u | u in users && Desired(u) && owners[u.name] == k
      ensures NameOf(c) == u.name && u.name != ""
    {
      assert Serving(db.clients, u, k);
    }
    if NameOf(c) != "" {
      assert !Unwanted(c, owners.Keys);
      var u :| u in users && Desired(u) && u.name == NameOf(c);
      NamedIs(db.clients, k, u.name);
      NamedIs(db.clients, owners[u.name], u.name);
    }
  }

  // ------------------------------------------------------------- stability

  /** A client that already has the settings of its user is written back as it is. */
  lemma ServedUnchanged(cs: Clients, u: User, id: Id)
    requires ClientsOk(cs) && u.name != "" && Serving(cs, u, id)
    ensures SyncUser(cs, u) == (cs, None) && ClientIdOf(cs, u) == id
  {
    NamedIs(cs, id, u.name);
    assert cs.rows[id := cs.rows[id]] == cs.rows;
    NoOtherNamed(cs, u, id);
  }

  predicate PartOf(a: map<string, Id>, b: map<string, Id>) {
    forall n :: n in a ==> n in b && a[n] == b[n]
  }

  lemma {:induction false} UsersUnchanged(cs: Clients, owners: map<string, Id>, done: map<string, Id>, users: seq<User>)
    requires ClientsOk(cs) && UsersListed(users) && AllServed(cs, owners, users) && PartOf(done, owners)
    ensures var p := SyncUsers(cs, done, users); p.clients == cs && p.error.None? && PartOf(p.owners, owners)
    decreases |users|
  {
    if users != [] {
      var u := users[0];
      if Desired(u) {
        ServedUnchanged(cs, u, owners[u.name]);
        UsersUnchanged(cs, owners, done[u.name := owners[u.name]], users[1..]);
      } else {
        UsersUnchanged(cs, owners, done, users[1..]);
      }
    }
  }

  ghost predicate SameTask(a: Row<Task>, b: Row<Task>) { a == b.(body := b.body.(flow := a.body.flow)) }

  ghost predicate SameHost(a: Row<Host>, b: Row<Host>) { a == b.(body := b.body.(flow := a.body.flow)) }

  /** The same tables, apart from the traffic counted for tasks and hosts. */
  ghost predicate SameButFlows(a: Nps, b: Nps) {
    && a.clients == b.clients && a.tasks.last == b.tasks.last && a.hosts.last == b.hosts.last
    && a.tasks.rows.Keys == b.tasks.rows.Keys && (forall k :: k in a.tasks.rows ==> SameTask(a.tasks.rows[k], b.tasks.rows[k]))
    && a.hosts.rows.Keys == b.hosts.rows.Keys && (forall k :: k in a.hosts.rows ==> SameHost(a.hosts.rows[k], b.hosts.rows[k]))
  }

  lemma SatisfiedUnchanged(db: Nps, w: Want)
    requires NpsOk(db) && Satisfied(db, w)
    ensures SyncWant(db, w).1.None? && SameButFlows(db, SyncWant(db, w).0)
  {
    match w {
      case WantTask(t, clientId) =>
        LookupFound(db.tasks, TaskRemark(t.id));
        var id := PutRow(db.tasks, TaskRemark(t.id), TaskFor(OldTask(db.tasks, TaskRemark(t.id)), t, clientId));
      case WantHost(t, domain, clientId) =>
        LookupFound(db.hosts, HostRemark(t.id, domain));
        var id := PutRow(db.hosts, HostRemark(t.id, domain), HostFor(t, domain, clientId));
    }
  }

  /** Writing what is there already keeps everything else that is there. */
  lemma SatisfiedStays(db: Nps, w: Want, v: Want)
    requires NpsOk(db) && WantOk(w) && WantOk(v) && Satisfied(db, w) && Satisfied(db, v) && !SameRecord(v, w)
    ensures NpsOk(SyncWant(db, w).0) && Satisfied(SyncWant(db, w).0, v)
  {
    SatisfiedUnchanged(db, w);
    SyncWantTables(db, w);
    SyncWantKeeps(db, w, v);
  }

  lemma SameTransitive(a: Nps, b: Nps, c: Nps)
    requires SameButFlows(a, b) && SameButFlows(b, c)
    ensures SameButFlows(a, c)
  {
    forall k | k in a.tasks.rows
      ensures SameTask(a.tasks.rows[k], c.tasks.rows[k])
    {
      assert SameTask(a.tasks.rows[k], b.tasks.rows[k]) && SameTask(b.tasks.rows[k], c.tasks.rows[k]);
    }
    forall k | k in a.hosts.rows
      ensures SameHost(a.hosts.rows[k], c.hosts.rows[k])
    {
      assert SameHost(a.hosts.rows[k], b.hosts.rows[k]) && SameHost(b.hosts.rows[k], c.hosts.rows[k]);
    }
  }

  lemma {:induction false} WantsUnchanged(db: Nps, wants: seq<Want>)
    requires NpsOk(db) && AllWantsOk(wants) && DistinctWants(wants)
    requires forall w :: w in wants ==> Satisfied(db, w)
    ensures SyncWants(db, wants).1.None? && SameButFlows(db, SyncWants(db, wants).0)
    decreases |wants|
  {
    if wants != [] {
      var db' := SyncWant(db, wants[0]).0;
      SatisfiedUnchanged(db, wants[0]);
      SyncWantTables(db, wants[0]);
      forall v | v in wants[1..]
        ensures Satisfied(db', v)
      {
        var i :| 0 < i < |wants| && wants[i] == v;
        SatisfiedStays(db, wants[0], v);
      }
      WantsUnchanged(db', wants[1..]);
      SameTransitive(db, db', SyncWants(db', wants[1..]).0);
    }
  }

  lemma NoRowPruned<T>(rows: map<Id, Row<T>>, desired: set<string>)
    requires forall k :: k in rows ==> !Stale(rows[k], desired)
    ensures PruneRows(rows, desired) == rows
  {
    var kept := PruneRows(rows, desired);
    forall k | k in rows
      ensures k in kept && kept[k] == rows[k]
    {
      assert !Stale(rows[k], desired);
    }
    assert kept.Keys == rows.Keys;
  }

  lemma NothingPruned(db: Nps, names: set<string>, tasks: set<string>, hosts: set<string>)
    requires forall k :: k in db.clients.rows ==> !Unwanted(db.clients.rows[k], names)
    requires forall k :: k in db.tasks.rows ==> !Stale(db.tasks.rows[k], tasks)
    requires forall k :: k in db.hosts.rows ==> !Stale(db.hosts.rows[k], hosts)
    ensures Prune(db, names, tasks, hosts) == db
  {
    assert UnwantedIds(db.clients.rows, names) == {};
    NoRowPruned(db.tasks.rows, tasks);
    NoRowPruned(db.hosts.rows, hosts);
    NoClientGone(db);
  }

  lemma NoClientGone(db: Nps)
    ensures db.clients.rows - {} == db.clients.rows
    ensures WithoutTasksOf(db.tasks.rows, {}) == db.tasks.rows
    ensures WithoutHostsOf(db.hosts.rows, {}) == db.hosts.rows
  {
  }

  /**
  Synchronizing converged tables with the same input succeeds and changes no identifier
  and no setting: only the traffic counters of managed records start again.
  */
  lemma SyncIsStable(db: Nps, owners: map<string, Id>, users: seq<User>, tunnels: seq<Tunnel>)
    requires Converged(db, owners, users, tunnels) && UsersListed(users) && TunnelsListed(tunnels)
    ensures Sync(db, users, tunnels).1.None? && SameButFlows(db, Sync(db, users, tunnels).0)
  {
    var wants := Wants(owners, tunnels);
    UsersUnchanged(db.clients, owners, map[], users);
    SyncUsersNames(db.clients, map[], users);
    assert SyncUsers(db.clients, map[], users).owners == owners;
    assert db.(clients := db.clients) == db;
    forall w | w in wants
      ensures WantOk(w)
    {
      WantClient(owners, tunnels, w);
    }
    WantsDistinct(owners, tunnels);
    WantsUnchanged(db, wants);
    PruneNothing(db, SyncWants(db, wants).0, owners.Keys, TaskRemarks(wants), HostRemarks(wants));
  }

  lemma PruneNothing(db: Nps, db': Nps, names: set<string>, tasks: set<string>, hosts: set<string>)
    requires SameButFlows(db, db')
    requires forall k :: k in db.clients.rows ==> !Unwanted(db.clients.rows[k], names)
    requires forall k :: k in db.tasks.rows ==> !Stale(db.tasks.rows[k], tasks)
    requires forall k :: k in db.hosts.rows ==> !Stale(db.hosts.rows[k], hosts)
    ensures Prune(db', names, tasks, hosts) == db'
  {
    forall k | k in db'.tasks.rows
      ensures !Stale(db'.tasks.rows[k], tasks)
    {
      assert SameTask(db.tasks.rows[k], db'.tasks.rows[k]);
    }
    forall k | k in db'.hosts.rows
      ensures !Stale(db'.hosts.rows[k], hosts)
    {
      assert SameHost(db.hosts.rows[k], db'.hosts.rows[k]);
    }
    NothingPruned(db', names, tasks, hosts);
  }

  // -------------------------------------------------------- foreign records

  lemma PutForeign<T>(t: Table<T>, remark: string, body: T, k: Id)
    requires TableOk(t) && IsManaged(remark)
    requires k in t.rows ==> !IsManaged(t.rows[k].remark)
    ensures k in t.rows ==> k in Put(t, remark, body).rows && Put(t, remark, body).rows[k] == t.rows[k]
    ensures k !in t.rows && k in Put(t, remark, body).rows ==> IsManaged(Put(t, remark, body).rows[k].remark)
  {
    var id := PutRow(t, remark, body);
  }

  /** A record that was made by hand. */
  ghost predicate ForeignTask(db: Nps, k: Id) { k in db.tasks.rows && !IsManaged(db.tasks.rows[k].remark) }

  ghost predicate ForeignHost(db: Nps, k: Id) { k in db.hosts.rows && !IsManaged(db.hosts.rows[k].remark) }

  lemma {:induction false} ForeignKept(db: Nps, wants: seq<Want>, k: Id)
    requires TableOk(db.tasks) && TableOk(db.hosts)
    ensures var db' := SyncWants(db, wants).0;
      && (ForeignTask(db, k) ==> k in db'.tasks.rows && db'.tasks.rows[k] == db.tasks.rows[k])
      && (ForeignHost(db, k) ==> k in db'.hosts.rows && db'.hosts.rows[k] == db.hosts.rows[k])
    decreases |wants|
  {
    if wants != [] {
      var db' := SyncWant(db, wants[0]).0;
      SyncWantTables(db, wants[0]);
      ManagedRemarks(wants[0].tunnel.id, if wants[0].WantHost? then wants[0].domain else "");
      if wants[0].WantTask? && ForeignTask(db, k) {
        PutForeign(db.tasks, Remark(wants[0]),
                   TaskFor(OldTask(db.tasks, Remark(wants[0])), wants[0].tunnel, wants[0].clientId), k);
      }
      if wants[0].WantHost? && ForeignHost(db, k) {
        PutForeign(db.hosts, Remark(wants[0]), HostFor(wants[0].tunnel, wants[0].domain, wants[0].clientId), k);
      }
      if SyncWant(db, wants[0]).1.None? {
        ForeignKept(db', wants[1..], k);
      }
    }
  }

  /** Tasks and hosts made by hand are not changed, and go only with a client that is removed. */
  lemma ForeignUntouched(db: Nps, users: seq<User>, tunnels: seq<Tunnel>, k: Id)
    requires NpsOk(db)
    ensures var db' := Sync(db, users, tunnels).0;
      && (ForeignTask(db, k) ==>
            if k in db'.tasks.rows then db'.tasks.rows[k] == db.tasks.rows[k]
            else db.tasks.rows[k].body.clientId !in db'.clients.rows)
      && (ForeignHost(db, k) ==>
            if k in db'.hosts.rows then db'.hosts.rows[k] == db.hosts.rows[k]
            else db.hosts.rows[k].body.clientId !in db'.clients.rows)
  {
    var phase := SyncUsers(db.clients, map[], users);
    if phase.error.None? {
      ForeignKept(db.(clients := phase.clients), Wants(phase.owners, tunnels), k);
    }
  }
}
