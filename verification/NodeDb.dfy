/**
The node's tables as an object, and SyncNPSState as the code performs it on them: a
Range over a sync.Map takes the rows in an arbitrary order, and a row that is found is
changed in the table at once, because the table holds a pointer to it. No bridge is
running, so no server is started or stopped.
*/
module NodeDb {
  import opened Basics
  import opened Text
  import opened PortRanges
  import opened Registry
  import opened Reconcile
  import opened ReconcileTables
  import opened ReconcileWants
  import opened ReconcileSafety
  import opened ReconcileStability
  import opened ReconcileRecords

  class NodeDb {
    var clients: Clients
    var tasks: Table<Task>
    var hosts: Table<Host>

    ghost function Contents(): Nps
      reads this
    {
      Nps(clients, tasks, hosts)
    }

    /** Identifiers, client names and managed remarks are unique. */
    ghost predicate Valid()
      reads this
    {
      NpsOk(Contents())
    }

    constructor ()
      ensures Valid() && Contents() == Nps(Clients(map[], 0), Table(map[], 0), Table(map[], 0))
    {
      clients, tasks, hosts := Clients(map[], 0), Table(map[], 0), Table(map[], 0);
    }

    // --------------------------------------------------------------- lookups

    method FindClient(name: string) returns (r: Option<Client>)
      requires ClientsOk(clients) && name != ""
      ensures r == LookupName(clients, name)
    {
      var rest := clients.rows.Keys;
      while rest != {}
        invariant rest <= clients.rows.Keys
        invariant forall k :: k in clients.rows.Keys - rest ==> !Named(clients.rows[k], name)
        decreases |rest|
      {
        var k :| k in rest;
        rest := rest - {k};
        var c := clients.rows[k];
        if c.webUserName == name || c.remark == name {
          NamedIs(clients, k, name);
          return Some(c);
        }
      }
      return None;
    }

    method FindTask(remark: string) returns (r: Option<Row<Task>>)
      requires TableOk(tasks) && IsManaged(remark)
      ensures r == Lookup(tasks, remark)
    {
      var rest := tasks.rows.Keys;
      while rest != {}
        invariant rest <= tasks.rows.Keys
        invariant forall k :: k in tasks.rows.Keys - rest ==> tasks.rows[k].remark != remark
        decreases |rest|
      {
        var k :| k in rest;
        rest := rest - {k};
        if tasks.rows[k].remark == remark {
          LookupIs(tasks, k);
          return Some(tasks.rows[k]);
        }
      }
      return None;
    }

    method FindHost(remark: string) returns (r: Option<Row<Host>>)
      requires TableOk(hosts) && IsManaged(remark)
      ensures r == Lookup(hosts, remark)
    {
      var rest := hosts.rows.Keys;
      while rest != {}
        invariant rest <= hosts.rows.Keys
        invariant forall k :: k in hosts.rows.Keys - rest ==> hosts.rows[k].remark != remark
        decreases |rest|
      {
        var k :| k in rest;
        rest := rest - {k};
        if hosts.rows[k].remark == remark {
          LookupIs(hosts, k);
          return Some(hosts.rows[k]);
        }
      }
      return None;
    }

    method FindHostByDomain(domain: string, scheme: string, except: string) returns (r: Option<Row<Host>>)
      ensures r.Some? <==> HostConflict(hosts.rows, domain, scheme, except)
      ensures r.Some? ==> Serves(r.value, domain, scheme, except)
    {
      var rest := hosts.rows.Keys;
      while rest != {}
        invariant rest <= hosts.rows.Keys
        invariant forall k :: k in hosts.rows.Keys - rest ==> !Serves(hosts.rows[k], domain, scheme, except)
        decreases |rest|
      {
        var k :| k in rest;
        rest := rest - {k};
        var h := hosts.rows[k];
        if h.remark == except {
          continue;
        }
        if h.body.host == domain && h.body.location == "/" && (h.body.scheme == scheme || h.body.scheme == "all") {
          return Some(h);
        }
      }
      return None;
    }

    method VerifyUserName(name: string, id: Id) returns (free: bool)
      ensures free <==> NameFree(clients.rows, name, id)
    {
      var rest := clients.rows.Keys;
      while rest != {}
        invariant rest <= clients.rows.Keys
        invariant forall k :: k in clients.rows.Keys - rest && clients.rows[k].webUserName == name ==> clients.rows[k].id == id
        decreases |rest|
      {
        var k :| k in rest;
        rest := rest - {k};
        if clients.rows[k].webUserName == name && clients.rows[k].id != id {
          return false;
        }
      }
      return true;
    }

    method VerifyVkey(key: string, id: Id) returns (free: bool)
      ensures free <==> KeyFree(clients.rows, key, id)
    {
      var rest := clients.rows.Keys;
      while rest != {}
        invariant rest <= clients.rows.Keys
        invariant forall k :: k in clients.rows.Keys - rest && clients.rows[k].verifyKey == key ==> clients.rows[k].id == id
        decreases |rest|
      {
        var k :| k in rest;
        rest := rest - {k};
        if clients.rows[k].verifyKey == key && clients.rows[k].id != id {
          return false;
        }
      }
      return true;
    }

    // ----------------------------------------------------------------- users

    /** For a client that has a key; the identifier is the one it is stored under. */
    method NewClient(input: Client) returns (id: Id, e: Option<SyncError>)
      modifies this`clients
      ensures (clients, e) == Reconcile.NewClient(old(clients), input)
      ensures id == if input.id == 0 then old(clients).last + 1 else input.id
    {
      var c := input;
      id := if c.id == 0 then clients.last + 1 else c.id;
      if c.webUserName != "" {
        var nameFree := VerifyUserName(c.webUserName, c.id);
        if !nameFree {
          e := Some(NameDuplicate);
          return;
        }
      }
      var keyFree := VerifyVkey(c.verifyKey, c.id);
      if !keyFree {
        e := Some(KeyDuplicate);
        return;
      }
      if c.id == 0 {
        clients := clients.(last := clients.last + 1);
        c := c.(id := clients.last);
      }
      clients := clients.(rows := clients.rows[c.id := c]);
      e := None;
    }

    /** The body of the first loop. */
    method SyncUser(user: User) returns (id: Id, e: Option<SyncError>)
      requires ClientsOk(clients) && user.name != ""
      modifies this`clients
      ensures (clients, e) == Reconcile.SyncUser(old(clients), user)
      ensures id == ClientIdOf(old(clients), user)
    {
      var found := FindClient(user.name);
      var c := if found.None? then BlankClient(user.verifyKey) else found.value;
      c := c.(verifyKey := user.verifyKey);
      c := c.(remark := user.name);
      c := c.(status := true);
      c := c.(webUserName := user.name);
      c := c.(portPool := Format(user.portPools));
      c := c.(configConnAllow := true);
      c := c.(maxTunnelNum := user.maxPorts);
      c := c.(rateLimit := Int64(user.rateLimit * 128));
      c := c.(flowLimit := Int64(user.flowLimit * 1024 * 1024 * 1024));
      if found.Some? {
        clients := clients.(rows := clients.rows[c.id := c]);
      }
      id, e := NewClient(c);
    }

    method SyncUsers(users: seq<User>) returns (owners: map<string, Id>, e: Option<SyncError>)
      requires ClientsOk(clients) && UsersListed(users)
      modifies this`clients
      ensures UserPhase(clients, owners, e) == Reconcile.SyncUsers(old(clients), map[], users)
    {
      owners := map[];
      for i := 0 to |users|
        invariant ClientsOk(clients)
        invariant Reconcile.SyncUsers(old(clients), map[], users) == Reconcile.SyncUsers(clients, owners, users[i..])
      {
        var user := users[i];
        assert users[i..][0] == user && users[i..][1..] == users[i + 1..];
        if !user.enabled || user.verifyKey == "" {
          continue;
        }
        SyncUserOk(clients, user);
        var id;
        id, e := SyncUser(user);
        if e.Some? {
          return;
        }
        owners := owners[user.name := id];
      }
      e := None;
    }

    // --------------------------------------------------------------- tunnels

    method UpdateTask(row: Row<Task>)
      modifies this`tasks
      ensures tasks == old(tasks).(rows := old(tasks).rows[row.id := row])
    {
      tasks := tasks.(rows := tasks.rows[row.id := row]);
    }

    method UpsertHost(row: Row<Host>)
      modifies this`hosts
      ensures hosts == old(hosts).(rows := old(hosts).rows[row.id := row])
    {
      hosts := hosts.(rows := hosts.rows[row.id := row]);
    }

    method SyncTask(t: Tunnel, clientId: Id)
      requires TableOk(tasks)
      modifies this`tasks
      ensures tasks == Reconcile.SyncTask(old(tasks), t, clientId)
    {
      var remark := TaskRemark(t.id);
      ManagedRemarks(t.id, "");
      var found := FindTask(remark);
      var row;
      if found.None? {
        tasks := tasks.(last := tasks.last + 1);
        row := Row(tasks.last, remark, BLANK_TASK);
      } else {
        row := found.value;
      }
      var task := row.body.(port := t.remotePort, mode := t.mode, status := true, clientId := clientId);
      task := task.(target := Target(t), flow := NO_FLOW);
      if task.mode == "secret" || task.mode == "p2p" {
        task := task.(password := t.id);
      }
      UpdateTask(row.(body := task));
    }

    method SyncHost(t: Tunnel, domain: string, clientId: Id) returns (e: Option<SyncError>)
      requires TableOk(hosts)
      modifies this`hosts
      ensures (hosts, e) == Reconcile.SyncHost(old(hosts), t, domain, clientId)
    {
      ghost var before := hosts;
      var remark := HostRemark(t.id, domain);
      ManagedRemarks(t.id, domain);
      var found := FindHost(remark);
      var row;
      if found.None? {
        hosts := hosts.(last := hosts.last + 1);
        row := Row(hosts.last, remark, HostFor(t, domain, clientId));
      } else {
        LookupFound(hosts, remark);
        row := found.value.(body := HostFor(t, domain, clientId));
        hosts := hosts.(rows := hosts.rows[row.id := row]);
      }
      SameConflict(before.rows, hosts.rows, row.id, domain, t.mode, remark);
      var existing := FindHostByDomain(domain, t.mode, remark);
      if existing.Some? {
        return Some(HostExists);
      }
      assert found.Some? ==> hosts.rows[row.id := row] == hosts.rows;
      UpsertHost(row);
      return None;
    }

    /** The loop over the domains of a tunnel. */
    method SyncHosts(t: Tunnel, clientId: Id) returns (remarks: set<string>, e: Option<SyncError>)
      requires TableOk(hosts)
      modifies this`hosts
      ensures (Contents(), e) == SyncWants(old(Contents()), HostWants(t, clientId, t.domains))
      ensures e.None? ==> remarks == HostRemarks(HostWants(t, clientId, t.domains))
    {
      ghost var all := HostWants(t, clientId, t.domains);
      ghost var goal := SyncWants(Contents(), all);
      HostWantsFacts(t, clientId, t.domains);
      remarks := {};
      assert all[0..] == all;
      for j := 0 to |t.domains|
        invariant TableOk(hosts)
        invariant goal == SyncWants(Contents(), all[j..])
        invariant remarks == HostRemarks(all[..j])
      {
        var domain := t.domains[j];
        HostStep(Contents(), all, j, t, domain, clientId);
        remarks := remarks + {HostRemark(t.id, domain)};
        e := SyncHost(t, domain, clientId);
        if e.Some? {
          return;
        }
      }
      assert all[..|all|] == all;
      e := None;
    }

    /** The body of the second loop. */
    method SyncTunnel(owners: map<string, Id>, t: Tunnel)
      returns (taskRemarks: set<string>, hostRemarks: set<string>, e: Option<SyncError>)
      requires TableOk(tasks) && TableOk(hosts)
      modifies this`tasks, this`hosts
      ensures (Contents(), e) == SyncWants(old(Contents()), WantsOf(owners, t))
      ensures e.None? ==> taskRemarks == TaskRemarks(WantsOf(owners, t)) && hostRemarks == HostRemarks(WantsOf(owners, t))
    {
      taskRemarks, hostRemarks, e := {}, {}, None;
      if t.engine != ENGINE_NPS || !t.enabled {
        return;
      }
      if t.userName !in owners {
        return;
      }
      var clientId := owners[t.userName];
      if t.mode == "http" || t.mode == "https" {
        HostWantsFacts(t, clientId, t.domains);
        hostRemarks, e := SyncHosts(t, clientId);
        return;
      }
      LastRemark([], WantTask(t, clientId));
      NextWant(Contents(), WantTask(t, clientId), []);
      taskRemarks := {TaskRemark(t.id)};
      SyncTask(t, clientId);
    }

    /** The second loop; the sets are the remarks of what was asked for. */
    method SyncTunnels(owners: map<string, Id>, tunnels: seq<Tunnel>)
      returns (desiredTasks: set<string>, desiredHosts: set<string>, e: Option<SyncError>)
      requires TableOk(tasks) && TableOk(hosts)
      modifies this`tasks, this`hosts
      ensures (Contents(), e) == SyncWants(old(Contents()), Wants(owners, tunnels))
      ensures e.None? ==> desiredTasks == TaskRemarks(Wants(owners, tunnels)) && desiredHosts == HostRemarks(Wants(owners, tunnels))
    {
      ghost var all := Wants(owners, tunnels);
      ghost var goal := SyncWants(Contents(), all);
      ghost var done: seq<Want> := [];
      desiredTasks, desiredHosts := {}, {};
      assert tunnels[0..] == tunnels && [] + all == all;
      for i := 0 to |tunnels|
        invariant TableOk(tasks) && TableOk(hosts)
        invariant goal == SyncWants(Contents(), Wants(owners, tunnels[i..]))
        invariant all == done + Wants(owners, tunnels[i..])
        invariant desiredTasks == TaskRemarks(done) && desiredHosts == HostRemarks(done)
      {
        var t := tunnels[i];
        ghost var here := WantsOf(owners, t);
        TunnelStep(Contents(), owners, tunnels, i, done);
        SyncWantsTables(Contents(), here);
        var ts, hs;
        ts, hs, e := SyncTunnel(owners, t);
        if e.Some? {
          return;
        }
        desiredTasks, desiredHosts := desiredTasks + ts, desiredHosts + hs;
        done := done + here;
      }
      assert tunnels[|tunnels|..] == [] && done + [] == done;
      e := None;
    }

    // --------------------------------------------------------------- pruning

    method PruneTasks(desired: set<string>)
      modifies this`tasks
      ensures tasks == old(tasks).(rows := PruneRows(old(tasks).rows, desired))
    {
      var rest := tasks.rows.Keys;
      while rest != {}
        invariant tasks.last == old(tasks).last && rest <= tasks.rows.Keys <= old(tasks).rows.Keys
        invariant forall k :: k in tasks.rows ==> tasks.rows[k] == old(tasks).rows[k]
        invariant forall k :: k in old(tasks).rows.Keys - rest ==> (k in tasks.rows <==> !Stale(old(tasks).rows[k], desired))
        decreases |rest|
      {
        var k :| k in rest;
        rest := rest - {k};
        var row := tasks.rows[k];
        if !HasPrefix(row.remark, MANAGED) || row.remark in desired {
          continue;
        }
        tasks := tasks.(rows := tasks.rows - {k});
      }
    }

    method PruneHosts(desired: set<string>)
      modifies this`hosts
      ensures hosts == old(hosts).(rows := PruneRows(old(hosts).rows, desired))
    {
      var rest := hosts.rows.Keys;
      while rest != {}
        invariant hosts.last == old(hosts).last && rest <= hosts.rows.Keys <= old(hosts).rows.Keys
        invariant forall k :: k in hosts.rows ==> hosts.rows[k] == old(hosts).rows[k]
        invariant forall k :: k in old(hosts).rows.Keys - rest ==> (k in hosts.rows <==> !Stale(old(hosts).rows[k], desired))
        decreases |rest|
      {
        var k :| k in rest;
        rest := rest - {k};
        var row := hosts.rows[k];
        if !HasPrefix(row.remark, MANAGED) || row.remark in desired {
          continue;
        }
        hosts := hosts.(rows := hosts.rows - {k});
      }
    }

    /** DelTunnelAndHostByClientId: collects the identifiers, then deletes. */
    method DelTasksOf(clientId: Id)
      modifies this`tasks
      ensures tasks == old(tasks).(rows := WithoutTasksOf(old(tasks).rows, {clientId}))
    {
      var ids: set<Id> := {};
      var rest := tasks.rows.Keys;
      while rest != {}
        invariant rest <= tasks.rows.Keys && tasks == old(tasks)
        invariant forall k :: k in ids <==> k in tasks.rows.Keys - rest && tasks.rows[k].body.clientId == clientId
        decreases |rest|
      {
        var k :| k in rest;
        rest := rest - {k};
        if tasks.rows[k].body.clientId == clientId {
          ids := ids + {k};
        }
      }
      tasks := tasks.(rows := tasks.rows - ids);
    }

    method DelHostsOf(clientId: Id)
      modifies this`hosts
      ensures hosts == old(hosts).(rows := WithoutHostsOf(old(hosts).rows, {clientId}))
    {
      var ids: set<Id> := {};
      var rest := hosts.rows.Keys;
      while rest != {}
        invariant rest <= hosts.rows.Keys && hosts == old(hosts)
        invariant forall k :: k in ids <==> k in hosts.rows.Keys - rest && hosts.rows[k].body.clientId == clientId
        decreases |rest|
      {
        var k :| k in rest;
        rest := rest - {k};
        if hosts.rows[k].body.clientId == clientId {
          ids := ids + {k};
        }
      }
      hosts := hosts.(rows := hosts.rows - ids);
    }

    method DelClient(id: Id)
      modifies this
      ensures Contents() == WithoutClients(old(Contents()), {id})
    {
      DelTasksOf(id);
      DelHostsOf(id);
      clients := clients.(rows := clients.rows - {id});
    }

    /** The body of the last loop. */
    method PruneClient(k: Id, desired: set<string>)
      requires k in clients.rows && clients.rows[k].id == k
      modifies this
      ensures Contents() ==
                if Unwanted(old(clients).rows[k], desired) then WithoutClients(old(Contents()), {k}) else old(Contents())
    {
      var c := clients.rows[k];
      var name := c.webUserName;
      if name == "" {
        name := c.remark;
      }
      if name == "" || name in desired {
        return;
      }
      DelClient(c.id);
    }

    method PruneClients(desired: set<string>)
      requires ClientsOk(clients)
      modifies this
      ensures Contents() == WithoutClients(old(Contents()), UnwantedIds(old(clients).rows, desired))
    {
      ghost var before := Contents();
      ghost var unwanted := UnwantedIds(clients.rows, desired);
      var rest := clients.rows.Keys;
      NoneYet(before, unwanted);
      while rest != {}
        invariant rest <= before.clients.rows.Keys
        invariant Contents() == WithoutClients(before, unwanted - rest)
        decreases |rest|
      {
        var k :| k in rest;
        OneMore(before, unwanted, rest, k);
        rest := rest - {k};
        PruneClient(k, desired);
      }
      assert unwanted - {} == unwanted;
    }

    // ------------------------------------------------------------------ sync

    method SyncNPSState(users: seq<User>, tunnels: seq<Tunnel>) returns (e: Option<SyncError>)
      requires Valid() && UsersListed(users)
      modifies this
      ensures Valid()
      ensures (Contents(), e) == Sync(old(Contents()), users, tunnels)
      ensures e.None? && TunnelsListed(tunnels) ==> Recorded(old(Contents()), Contents(), users, tunnels)
    {
      RecordedIfListed(Contents(), users, tunnels);
      SyncOk(Contents(), users, tunnels);
      SyncUsersOk(clients, map[], users);
      var owners;
      owners, e := SyncUsers(users);
      if e.Some? {
        return;
      }
      SyncWantsTables(Contents(), Wants(owners, tunnels));
      var desiredTasks, desiredHosts;
      desiredTasks, desiredHosts, e := SyncTunnels(owners, tunnels);
      if e.Some? {
        return;
      }
      PruneTasks(desiredTasks);
      PruneHosts(desiredHosts);
      PruneClients(owners.Keys);
    }
  }

  /** Changing the row that is looked past does not change whether another one serves the domain. */
  lemma SameConflict(rows: map<Id, Row<Host>>, rows': map<Id, Row<Host>>, id: Id, domain: string, scheme: string, except: string)
    requires forall k :: k != id ==> (k in rows <==> k in rows') && (k in rows ==> rows[k] == rows'[k])
    requires id in rows ==> rows[id].remark == except
    requires id in rows' ==> rows'[id].remark == except
    ensures HostConflict(rows, domain, scheme, except) <==> HostConflict(rows', domain, scheme, except)
  {
    forall k | k in rows && Serves(rows[k], domain, scheme, except)
      ensures k in rows' && Serves(rows'[k], domain, scheme, except)
    {
    }
    forall k | k in rows' && Serves(rows'[k], domain, scheme, except)
      ensures k in rows && Serves(rows[k], domain, scheme, except)
    {
    }
  }

  lemma RecordedIfListed(db: Nps, users: seq<User>, tunnels: seq<Tunnel>)
    requires NpsOk(db) && UsersListed(users)
    ensures Sync(db, users, tunnels).1.None? && TunnelsListed(tunnels) ==>
              Recorded(db, Sync(db, users, tunnels).0, users, tunnels)
  {
    if Sync(db, users, tunnels).1.None? && TunnelsListed(tunnels) {
      SyncRecords(db, users, tunnels);
    }
  }

  lemma RemarksAppend(a: seq<Want>, b: seq<Want>)
    ensures TaskRemarks(a + b) == TaskRemarks(a) + TaskRemarks(b)
    ensures HostRemarks(a + b) == HostRemarks(a) + HostRemarks(b)
  {
    var ab := a + b;
    forall r | r in TaskRemarks(b)
      ensures r in TaskRemarks(ab)
    {
      var i :| 0 <= i < |b| && b[i].WantTask? && Remark(b[i]) == r;
      assert ab[|a| + i] == b[i];
    }
    forall r | r in HostRemarks(b)
      ensures r in HostRemarks(ab)
    {
      var i :| 0 <= i < |b| && b[i].WantHost? && Remark(b[i]) == r;
      assert ab[|a| + i] == b[i];
    }
    forall r | r in TaskRemarks(a)
      ensures r in TaskRemarks(ab)
    {
      var i :| 0 <= i < |a| && a[i].WantTask? && Remark(a[i]) == r;
      assert ab[i] == a[i];
    }
    forall r | r in HostRemarks(a)
      ensures r in HostRemarks(ab)
    {
      var i :| 0 <= i < |a| && a[i].WantHost? && Remark(a[i]) == r;
      assert ab[i] == a[i];
    }
  }

  lemma LastRemark(done: seq<Want>, w: Want)
    ensures TaskRemarks(done + [w]) == TaskRemarks(done) + (if w.WantTask? then {Remark(w)} else {})
    ensures HostRemarks(done + [w]) == HostRemarks(done) + (if w.WantHost? then {Remark(w)} else {})
  {
    RemarksAppend(done, [w]);
    assert [w][0] == w;
  }

  lemma WantStep(db: Nps, all: seq<Want>, j: nat)
    requires j < |all|
    ensures SyncWants(db, all[j..])
            == if SyncWant(db, all[j]).1.Some? then SyncWant(db, all[j]) else SyncWants(SyncWant(db, all[j]).0, all[j + 1..])
    ensures all[j].WantHost? ==> HostRemarks(all[..j + 1]) == HostRemarks(all[..j]) + {Remark(all[j])}
  {
    assert all[j..] == [all[j]] + all[j + 1..];
    assert all[..j + 1] == all[..j] + [all[j]];
    NextWant(db, all[j], all[j + 1..]);
    LastRemark(all[..j], all[j]);
  }

  /** One turn of the loop over the domains. */
  lemma HostStep(db: Nps, all: seq<Want>, j: nat, t: Tunnel, domain: string, clientId: Id)
    requires TableOk(db.hosts) && j < |all| && all[j] == WantHost(t, domain, clientId)
    ensures TableOk(Reconcile.SyncHost(db.hosts, t, domain, clientId).0)
    ensures var (hosts, e) := Reconcile.SyncHost(db.hosts, t, domain, clientId);
      SyncWants(db, all[j..]) == if e.Some? then (db.(hosts := hosts), e) else SyncWants(db.(hosts := hosts), all[j + 1..])
    ensures HostRemarks(all[..j + 1]) == HostRemarks(all[..j]) + {HostRemark(t.id, domain)}
  {
    WantStep(db, all, j);
    SyncHostTable(db.hosts, t, domain, clientId);
  }

  lemma TunnelStep(db: Nps, owners: map<string, Id>, tunnels: seq<Tunnel>, i: nat, done: seq<Want>)
    requires i < |tunnels|
    ensures var here, rest, later := WantsOf(owners, tunnels[i]), Wants(owners, tunnels[i..]), Wants(owners, tunnels[i + 1..]);
      && done + rest == (done + here) + later
      && SyncWants(db, rest) ==
           (if SyncWants(db, here).1.Some? then SyncWants(db, here) else SyncWants(SyncWants(db, here).0, later))
      && TaskRemarks(done + here) == TaskRemarks(done) + TaskRemarks(here)
      && HostRemarks(done + here) == HostRemarks(done) + HostRemarks(here)
  {
    var here, later := WantsOf(owners, tunnels[i]), Wants(owners, tunnels[i + 1..]);
    assert tunnels[i..][0] == tunnels[i] && tunnels[i..][1..] == tunnels[i + 1..];
    assert done + (here + later) == (done + here) + later;
    WantsInTurn(db, here, later);
    RemarksAppend(done, here);
  }

  /** Wants are served in turn until one fails. */
  lemma {:induction false} WantsInTurn(db: Nps, here: seq<Want>, later: seq<Want>)
    ensures SyncWants(db, here + later) ==
              if SyncWants(db, here).1.Some? then SyncWants(db, here) else SyncWants(SyncWants(db, here).0, later)
    decreases |here|
  {
    if here == [] {
      assert here + later == later;
    } else {
      assert (here + later)[1..] == here[1..] + later;
      WantsInTurn(SyncWant(db, here[0]).0, here[1..], later);
    }
  }

  lemma NextWant(db: Nps, w: Want, rest: seq<Want>)
    ensures SyncWants(db, [w] + rest) == if SyncWant(db, w).1.Some? then SyncWant(db, w) else SyncWants(SyncWant(db, w).0, rest)
  {
    assert ([w] + rest)[1..] == rest;
  }

  lemma WithoutOneMore(tasks: map<Id, Row<Task>>, hosts: map<Id, Row<Host>>, gone: set<Id>, id: Id)
    ensures WithoutTasksOf(WithoutTasksOf(tasks, gone), {id}) == WithoutTasksOf(tasks, gone + {id})
    ensures WithoutHostsOf(WithoutHostsOf(hosts, gone), {id}) == WithoutHostsOf(hosts, gone + {id})
  {
  }

  /** The tables without these clients and without what belongs to them. */
  ghost function WithoutClients(db: Nps, gone: set<Id>): Nps {
    Nps(db.clients.(rows := db.clients.rows - gone),
        db.tasks.(rows := WithoutTasksOf(db.tasks.rows, gone)), db.hosts.(rows := WithoutHostsOf(db.hosts.rows, gone)))
  }

  lemma NoneYet(db: Nps, unwanted: set<Id>)
    requires unwanted <= db.clients.rows.Keys
    ensures WithoutClients(db, unwanted - db.clients.rows.Keys) == db
  {
    assert unwanted - db.clients.rows.Keys == {};
    NoClientGone(db);
  }

  lemma OneMore(db: Nps, unwanted: set<Id>, rest: set<Id>, k: Id)
    requires k in rest && k in db.clients.rows
    ensures var so := WithoutClients(db, unwanted - rest);
      && k in so.clients.rows && so.clients.rows[k] == db.clients.rows[k]
      && WithoutClients(db, unwanted - (rest - {k})) == if k in unwanted then WithoutClients(so, {k}) else so
  {
    if k in unwanted {
      assert unwanted - (rest - {k}) == (unwanted - rest) + {k};
      WithoutOneMore(db.tasks.rows, db.hosts.rows, unwanted - rest, k);
      assert db.clients.rows - ((unwanted - rest) + {k}) == (db.clients.rows - (unwanted - rest)) - {k};
    } else {
      assert unwanted - (rest - {k}) == unwanted - rest;
    }
  }
}
