/**
What every run of registry operations keeps: tunnels that name an existing user
and node, and no port or domain served twice.
*/
module RegistrySafety {
  import opened Basics
  import opened Text
  import opened PortRanges
  import opened Domains
  import opened Registry

  // -------------------------------------------------------------- invariant

  /** What a stored tunnel looks like on its own. */
  predicate Shaped(t: Tunnel) {
    && (IsPortMode(t.mode) || IsDomainMode(t.mode))
    && (IsPortMode(t.mode) ==> t.remotePort > 0 && t.domains == [])
    && (IsDomainMode(t.mode) ==> t.remotePort == 0 && t.domains != [] && DomainsOk(t.domains))
  }

  predicate Homed(users: set<string>, nodes: set<string>, t: Tunnel) {
    t.userName in users && t.nodeId in nodes
  }

  predicate SamePort(a: Tunnel, b: Tunnel) {
    && IsPortMode(a.mode) && IsPortMode(b.mode)
    && a.nodeId == b.nodeId && a.remotePort == b.remotePort && PortTransport(a.mode) == PortTransport(b.mode)
  }

  predicate SameDomain(a: Tunnel, b: Tunnel) {
    IsDomainMode(a.mode) && a.mode == b.mode && exists d :: d in a.domains && d in b.domains
  }

  predicate Clash(a: Tunnel, b: Tunnel) { SamePort(a, b) || SameDomain(a, b) }

  ghost predicate TunnelsOk(users: set<string>, nodes: set<string>, tunnels: map<string, Tunnel>) {
    && "" !in tunnels
    && (forall k :: k in tunnels ==> tunnels[k].id == k && Shaped(tunnels[k]) && Homed(users, nodes, tunnels[k]))
    && (forall j, k :: j in tunnels && k in tunnels && j != k ==> !Clash(tunnels[j], tunnels[k]))
  }

  ghost predicate RegistryOk(db: Db) {
    && "" !in db.nodes && DEFAULT_NODE in db.nodes
    && (forall n :: n in db.users ==> db.users[n].name == n && DomainsOk(db.users[n].domainPools))
    && (forall n :: n in db.nodes ==> db.nodes[n].id == n && DomainsOk(db.nodes[n].domainPools))
    && TunnelsOk(db.users.Keys, db.nodes.Keys, db.tunnels)
  }

  // ------------------------------------------------------- adding a tunnel

  /** `t` may be stored at a key other than those excepted. */
  ghost predicate Free(tunnels: map<string, Tunnel>, t: Tunnel, except: string) {
    forall k :: k in tunnels && k != except ==> !Clash(tunnels[k], t)
  }

  lemma {:induction false} NoDomainTaken(db: Db, u: User, node: Node, t: Tunnel, except: string, domains: seq<string>)
    requires DomainsError(db, u, node, t, except, domains) == None
    ensures forall i :: 0 <= i < |domains| ==> !DomainTakenIn(db.tunnels, t.mode, domains[i], except)
  {
    if domains != [] {
      NoDomainTaken(db, u, node, t, except, domains[1..]);
      assert domains == [domains[0]] + domains[1..];
    }
  }

  /** What the validator has established when it has no objection. */
  lemma Validated(db: Db, t: Tunnel, except: string)
    requires Validate(db, t, except) == None
    ensures Homed(db.users.Keys, db.nodes.Keys, t)
    ensures IsPortMode(t.mode) || IsDomainMode(t.mode)
    ensures PlaceError(db, db.users[t.userName], db.nodes[t.nodeId], t, except) == None
    ensures db.users[t.userName].maxPorts > 0 ==>
              |Owned(db.tunnels, t.userName, except)| < db.users[t.userName].maxPorts
  {
  }

  lemma PlacedPort(db: Db, u: User, node: Node, t: Tunnel, except: string)
    requires PlaceError(db, u, node, t, except) == None && IsPortMode(t.mode)
    requires forall k :: k in db.tunnels ==> db.tunnels[k].id == k && db.tunnels[k].nodeId != ""
    ensures t.remotePort > 0 && PortInRanges(t.remotePort, u.portPools)
    ensures Free(db.tunnels, t, except)
  {
    assert !PortTakenIn(db.tunnels, t, except);
    forall k | k in db.tunnels && k != except
      ensures !Clash(db.tunnels[k], t)
    {
      assert !PortClash(db.tunnels[k], t, except);
      ModesApart(t.mode);
    }
  }

  lemma ModesApart(mode: string)
    ensures !(IsPortMode(mode) && IsDomainMode(mode))
  {
    if IsDomainMode(mode) {
      assert mode[0] == 'h';
    }
  }

  lemma PlacedDomains(db: Db, u: User, node: Node, t: Tunnel, except: string)
    requires PlaceError(db, u, node, t, except) == None && IsDomainMode(t.mode)
    requires forall k :: k in db.tunnels ==> db.tunnels[k].id == k
    ensures t.domains != []
    ensures Free(db.tunnels, t, except)
  {
    ModesApart(t.mode);
    NoDomainTaken(db, u, node, t, except, t.domains);
    forall k, d | k in db.tunnels && k != except && d in t.domains
      ensures !DomainClash(db.tunnels[k], t.mode, d, except)
    {
      assert !DomainTakenIn(db.tunnels, t.mode, d, except);
    }
  }

  lemma Prepared(input: Tunnel)
    requires Prepare(input).Done?
    ensures var t := Prepare(input).value;
      && t.nodeId != ""
      && (IsDomainMode(t.mode) ==> t.remotePort == 0 && DomainsOk(t.domains))
      && (!IsDomainMode(t.mode) ==> t.domains == [])
  {
    NormalizedList(input.domains, []);
  }

  /** An accepted tunnel has the stored shape, a user and a node, and clashes with no other. */
  lemma Accepted(db: Db, input: Tunnel, t: Tunnel, except: string)
    requires RegistryOk(db)
    requires Prepare(input).Done? && t == Prepare(input).value.(id := t.id)
    requires Validate(db, t, except) == None
    ensures Shaped(t) && Homed(db.users.Keys, db.nodes.Keys, t) && Free(db.tunnels, t, except)
  {
    Prepared(input);
    Validated(db, t, except);
    ModesApart(t.mode);
    if IsPortMode(t.mode) {
      PlacedPort(db, db.users[t.userName], db.nodes[t.nodeId], t, except);
    } else {
      PlacedDomains(db, db.users[t.userName], db.nodes[t.nodeId], t, except);
    }
  }

  lemma ClashSymmetric(a: Tunnel, b: Tunnel)
    ensures Clash(a, b) == Clash(b, a)
  {
  }

  lemma StoreKeeps(users: set<string>, nodes: set<string>, tunnels: map<string, Tunnel>, id: string, t: Tunnel)
    requires TunnelsOk(users, nodes, tunnels)
    requires id != "" && t.id == id && Shaped(t) && Homed(users, nodes, t) && Free(tunnels, t, id)
    ensures TunnelsOk(users, nodes, tunnels[id := t])
  {
    forall k | k in tunnels && k != id
      ensures !Clash(t, tunnels[k])
    {
      ClashSymmetric(t, tunnels[k]);
    }
  }

  // --------------------------------------------------------- one operation

  lemma CreateKeeps(db: Db, input: Tunnel, now: Time, random: string)
    requires RegistryOk(db)
    ensures RegistryOk(Apply(db, Create(input, random), now))
  {
    if CreateTunnel(db, input, now, random).Done? {
      var p := Prepare(input).value;
      Accepted(db, input, p, "");
      var t := CreateTunnel(db, input, now, random).value.1;
      StoreKeeps(db.users.Keys, db.nodes.Keys, db.tunnels, t.id, t);
    }
  }

  lemma UpdateKeeps(db: Db, id: string, input: Tunnel, now: Time)
    requires RegistryOk(db)
    ensures RegistryOk(Apply(db, Update(id, input), now))
  {
    if UpdateTunnel(db, id, input, now).Done? {
      Accepted(db, input, Prepare(input).value.(id := id), id);
      var t := UpdateTunnel(db, id, input, now).value.1;
      StoreKeeps(db.users.Keys, db.nodes.Keys, db.tunnels, id, t);
    }
  }

  /** Losing tunnels, together with users and nodes that none of the rest refers to, does no harm. */
  lemma RestrictKeeps(users: set<string>, nodes: set<string>, tunnels: map<string, Tunnel>,
                      users': set<string>, nodes': set<string>, tunnels': map<string, Tunnel>)
    requires TunnelsOk(users, nodes, tunnels)
    requires forall k :: k in tunnels' ==> k in tunnels && tunnels'[k] == tunnels[k] && Homed(users', nodes', tunnels[k])
    ensures TunnelsOk(users', nodes', tunnels')
  {
  }

  lemma PoolsOk(pools: seq<string>)
    ensures NormalizeFrom(pools, []).Ok? ==> DomainsOk(NormalizeFrom(pools, []).value)
  {
    if NormalizeFrom(pools, []).Ok? {
      NormalizedList(pools, []);
    }
  }

  lemma WriteNodeKeeps(db: Db, node: Node)
    requires RegistryOk(db) && node.id != "" && DomainsOk(node.domainPools)
    ensures RegistryOk(db.(nodes := db.nodes[node.id := node]))
  {
    var nodes := db.nodes[node.id := node];
    RestrictKeeps(db.users.Keys, db.nodes.Keys, db.tunnels, db.users.Keys, nodes.Keys, db.tunnels);
  }

  lemma PutNodeKeeps(db: Db, node: Node, now: Time)
    requires RegistryOk(db)
    ensures RegistryOk(Apply(db, PutNode(node), now))
  {
    PoolsOk(node.domainPools);
    var r := UpsertNode(db, node);
    if r.Done? {
      var id := NormalizeId(node.id);
      WriteNodeKeeps(db, r.value.nodes[id]);
    }
  }

  lemma RemoveNodeKeeps(db: Db, id: string, now: Time)
    requires RegistryOk(db)
    ensures RegistryOk(Apply(db, RemoveNode(id), now))
  {
    var db' := Apply(db, RemoveNode(id), now);
    RestrictKeeps(db.users.Keys, db.nodes.Keys, db.tunnels, db'.users.Keys, db'.nodes.Keys, db'.tunnels);
  }

  lemma WriteUserKeeps(db: Db, u: User)
    requires RegistryOk(db) && DomainsOk(u.domainPools)
    ensures RegistryOk(db.(users := db.users[u.name := u]))
  {
    var users := db.users[u.name := u];
    RestrictKeeps(db.users.Keys, db.nodes.Keys, db.tunnels, users.Keys, db.nodes.Keys, db.tunnels);
  }

  /** The stamps leave the name and the pools alone. */
  lemma RestampedPools(u: User, now: Time)
    ensures Restamp(u, now).name == u.name && Restamp(u, now).domainPools == u.domainPools
  {
  }

  lemma PutUserKeeps(db: Db, user: User, key: string, now: Time)
    requires RegistryOk(db)
    ensures RegistryOk(Apply(db, PutUser(user, key), now))
  {
    PoolsOk(user.domainPools);
    if UpsertUser(db, user, now, key).Done? {
      var pools := NormalizeFrom(user.domainPools, []).value;
      var merged := Merged(Prior(db, user.name), user, pools, key);
      RestampedPools(merged, now);
      WriteUserKeeps(db, Restamp(merged, now));
    }
  }

  lemma RemoveUserKeeps(db: Db, name: string, now: Time)
    requires RegistryOk(db)
    ensures RegistryOk(Apply(db, RemoveUser(name), now))
  {
    var db' := Apply(db, RemoveUser(name), now);
    RestrictKeeps(db.users.Keys, db.nodes.Keys, db.tunnels, db'.users.Keys, db'.nodes.Keys, db'.tunnels);
  }

  lemma AdminKeeps(db: Db, name: string, password: string, key: string, now: Time)
    requires RegistryOk(db)
    ensures RegistryOk(Apply(db, Admin(name, password, key), now))
  {
    var db' := Apply(db, Admin(name, password, key), now);
    RestrictKeeps(db.users.Keys, db.nodes.Keys, db.tunnels, db'.users.Keys, db'.nodes.Keys, db'.tunnels);
  }

  lemma RemoveKeeps(db: Db, id: string, now: Time)
    requires RegistryOk(db)
    ensures RegistryOk(Apply(db, Remove(id), now))
  {
    var db' := Apply(db, Remove(id), now);
    RestrictKeeps(db.users.Keys, db.nodes.Keys, db.tunnels, db'.users.Keys, db'.nodes.Keys, db'.tunnels);
  }

  lemma SweepKeeps(db: Db, now: Time, retention: int)
    requires RegistryOk(db)
    ensures RegistryOk(EnforceExpiry(db, now, retention))
  {
    var db' := EnforceExpiry(db, now, retention);
    RestrictKeeps(db.users.Keys, db.nodes.Keys, db.tunnels, db'.users.Keys, db'.nodes.Keys, db'.tunnels);
  }

  lemma OpKeeps(db: Db, op: Op, now: Time)
    requires RegistryOk(db)
    ensures RegistryOk(Apply(db, op, now))
  {
    match op {
      case Create(t, random) => CreateKeeps(db, t, now, random);
      case Update(id, t) => UpdateKeeps(db, id, t, now);
      case Remove(id) => RemoveKeeps(db, id, now);
      case PutNode(node) => PutNodeKeeps(db, node, now);
      case RemoveNode(id) => RemoveNodeKeeps(db, id, now);
      case PutUser(user, key) => PutUserKeeps(db, user, key, now);
      case RemoveUser(name) => RemoveUserKeeps(db, name, now);
      case Admin(name, password, key) => AdminKeeps(db, name, password, key, now);
      case Sweep(retention) => SweepKeeps(db, now, retention);
    }
  }

  lemma {:induction false} RunKeeps(db: Db, calls: seq<Call>)
    requires RegistryOk(db)
    ensures RegistryOk(Run(db, calls))
    decreases |calls|
  {
    if calls != [] {
      OpKeeps(db, calls[0].op, calls[0].now);
      RunKeeps(Apply(db, calls[0].op, calls[0].now), calls[1..]);
    }
  }

  // ------------------------------------------------------------- theorems

  /** Every run of operations, in any order and at any times, leaves a sound registry. */
  lemma RegistryInvariant(calls: seq<Call>)
    ensures RegistryOk(Run(FreshDb(), calls))
  {
    RunKeeps(FreshDb(), calls);
  }

  /** In a sound registry a port of a node has one owner, and so has a domain in a mode. */
  lemma OneOwner(db: Db, j: string, k: string)
    requires RegistryOk(db) && j in db.tunnels && k in db.tunnels
    requires var a, b := db.tunnels[j], db.tunnels[k];
      || (&& IsPortMode(a.mode) && IsPortMode(b.mode) && a.nodeId == b.nodeId && a.remotePort == b.remotePort
          && PortTransport(a.mode) == PortTransport(b.mode))
      || (IsDomainMode(a.mode) && a.mode == b.mode && exists d :: d in a.domains && d in b.domains)
    ensures j == k
  {
    assert Clash(db.tunnels[j], db.tunnels[k]);
  }

  // ---------------------------------------------------------------- quotas

  function OwnedBy(db: Db, user: string): set<string> { Owned(db.tunnels, user, "") }

  predicate TunnelOp(op: Op) { op.Create? || op.Update? || op.Remove? }

  lemma SubsetSize<T>(a: set<T>, b: set<T>)
    requires a <= b
    ensures |a| <= |b|
  {
    assert a + (b - a) == b;
  }

  /** Storing a tunnel adds at most itself to what its user owns, and nothing to what another owns. */
  lemma OwnedAfterStore(tunnels: map<string, Tunnel>, id: string, t: Tunnel, user: string)
    requires id != "" && t.id == id && forall k :: k in tunnels ==> tunnels[k].id == k && k != ""
    ensures |Owned(tunnels, user, id)| <= |Owned(tunnels, user, "")|
    ensures |Owned(tunnels[id := t], user, "")| <=
              if t.userName == user then |Owned(tunnels, user, id)| + 1 else |Owned(tunnels, user, "")|
  {
    SubsetSize(Owned(tunnels, user, id), Owned(tunnels, user, ""));
    if t.userName == user {
      SubsetSize(Owned(tunnels[id := t], user, ""), Owned(tunnels, user, id) + {id});
    } else {
      SubsetSize(Owned(tunnels[id := t], user, ""), Owned(tunnels, user, ""));
    }
  }

  predicate WithinQuota(before: nat, after: nat, limit: int) { after <= before || after <= limit }

  lemma CreateInQuota(db: Db, input: Tunnel, now: Time, random: string, user: string)
    requires RegistryOk(db) && user in db.users && db.users[user].maxPorts > 0
    requires CreateTunnel(db, input, now, random).Done?
    ensures WithinQuota(|OwnedBy(db, user)|, |OwnedBy(CreateTunnel(db, input, now, random).value.0, user)|,
                        db.users[user].maxPorts)
  {
    var t := CreateTunnel(db, input, now, random).value.1;
    Validated(db, Prepare(input).value, "");
    OwnedAfterStore(db.tunnels, t.id, t, user);
  }

  lemma UpdateInQuota(db: Db, id: string, input: Tunnel, now: Time, user: string)
    requires RegistryOk(db) && user in db.users && db.users[user].maxPorts > 0
    requires UpdateTunnel(db, id, input, now).Done?
    ensures WithinQuota(|OwnedBy(db, user)|, |OwnedBy(UpdateTunnel(db, id, input, now).value.0, user)|,
                        db.users[user].maxPorts)
  {
    var t := UpdateTunnel(db, id, input, now).value.1;
    Validated(db, Prepare(input).value.(id := id), id);
    OwnedAfterStore(db.tunnels, id, t, user);
  }

  lemma OpInQuota(db: Db, op: Op, now: Time, user: string)
    requires RegistryOk(db) && TunnelOp(op) && user in db.users && db.users[user].maxPorts > 0
    ensures WithinQuota(|OwnedBy(db, user)|, |OwnedBy(Apply(db, op, now), user)|, db.users[user].maxPorts)
  {
    match op {
      case Create(t, random) =>
        if CreateTunnel(db, t, now, random).Done? {
          CreateInQuota(db, t, now, random, user);
        }
      case Update(id, t) =>
        if UpdateTunnel(db, id, t, now).Done? {
          UpdateInQuota(db, id, t, now, user);
        }
      case Remove(_) => SubsetSize(OwnedBy(Apply(db, op, now), user), OwnedBy(db, user));
    }
  }

  lemma TunnelOpKeepsUsers(db: Db, op: Op, now: Time)
    requires TunnelOp(op)
    ensures Apply(db, op, now).users == db.users
  {
    match op {
      case Create(t, random) => assert CreateTunnel(db, t, now, random).Done? ==> CreateTunnel(db, t, now, random).value.0.users == db.users;
      case Update(id, t) => assert UpdateTunnel(db, id, t, now).Done? ==> UpdateTunnel(db, id, t, now).value.0.users == db.users;
      case Remove(_) =>
    }
  }

  /** No run of tunnel operations takes a limited user above the limit; a user already above it does not grow. */
  lemma {:induction false} QuotaHolds(db: Db, calls: seq<Call>, user: string)
    requires RegistryOk(db) && user in db.users && db.users[user].maxPorts > 0
    requires forall i :: 0 <= i < |calls| ==> TunnelOp(calls[i].op)
    ensures WithinQuota(|OwnedBy(db, user)|, |OwnedBy(Run(db, calls), user)|, db.users[user].maxPorts)
    decreases |calls|
  {
    if calls != [] {
      OpKeeps(db, calls[0].op, calls[0].now);
      OpInQuota(db, calls[0].op, calls[0].now, user);
      TunnelOpKeepsUsers(db, calls[0].op, calls[0].now);
      QuotaHolds(Apply(db, calls[0].op, calls[0].now), calls[1..], user);
    }
  }
}
