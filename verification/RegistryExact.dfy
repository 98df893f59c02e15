/**
What the operations of the registry decide and store, said of the request and the
database alone: modes, pools and fields are spelled out here, not computed.
*/
module RegistryExact {
  import opened Basics
  import opened Text
  import opened PortRanges
  import opened Domains
  import opened Registry
  import opened RegistrySafety

  const PORT_MODES := {"tcp", "udp", "socks5"}
  const DOMAIN_MODES := {"http", "https"}

  lemma ModesExact(mode: string)
    ensures IsPortMode(mode) <==> mode in PORT_MODES
    ensures IsDomainMode(mode) <==> mode in DOMAIN_MODES
  {
  }

  // ---------------------------------------------- what the validator admits

  /** Some range of the pool holds the port. */
  ghost predicate InPool(port: int, pool: seq<PortRange>) {
    exists r :: r in pool && r.start <= port <= r.end
  }

  lemma PortInRangesExact(port: int, pool: seq<PortRange>)
    ensures PortInRanges(port, pool) <==> InPool(port, pool)
  {
    if PortInRanges(port, pool) {
      var i :| 0 <= i < |pool| && pool[i].Contains(port);
      assert pool[i] in pool;
    }
    if InPool(port, pool) {
      var r :| r in pool && r.start <= port <= r.end;
      var i :| 0 <= i < |pool| && pool[i] == r;
      assert pool[i].Contains(port);
    }
  }

  /** The tunnel `e` listens where `t` wants to: on that port of that node, both for udp or both for tcp. */
  predicate Listens(e: Tunnel, t: Tunnel) {
    && e.mode in PORT_MODES && e.nodeId == t.nodeId && e.remotePort == t.remotePort
    && (e.mode == "udp" <==> t.mode == "udp")
  }

  /** The port is granted to the user, offered by the node, and free beside the tunnel `except`. */
  ghost predicate PortGrantable(db: Db, u: User, node: Node, t: Tunnel, except: string) {
    && t.remotePort > 0 && InPool(t.remotePort, u.portPools)
    && (node.portPools == [] || InPool(t.remotePort, node.portPools))
    && (forall k :: k in db.tunnels && k != except ==> !Listens(db.tunnels[k], t))
  }

  /** And so are the domains. */
  ghost predicate DomainsGrantable(db: Db, u: User, node: Node, t: Tunnel, except: string) {
    && t.domains != []
    && (forall d :: d in t.domains ==>
          Granted(d, u.domainPools) && (node.domainPools == [] || Granted(d, node.domainPools)))
    && (forall k, d :: k in db.tunnels && k != except && db.tunnels[k].mode == t.mode && d in t.domains ==>
          d !in db.tunnels[k].domains)
  }

  ghost predicate Grantable(db: Db, t: Tunnel, except: string)
    requires t.userName in db.users && t.nodeId in db.nodes
  {
    if t.mode in PORT_MODES then PortGrantable(db, db.users[t.userName], db.nodes[t.nodeId], t, except)
    else t.mode in DOMAIN_MODES && DomainsGrantable(db, db.users[t.userName], db.nodes[t.nodeId], t, except)
  }

  /** The other tunnels of the user. */
  function OthersOf(tunnels: map<string, Tunnel>, user: string, except: string): set<string> {
    set k | k in tunnels && k != except && tunnels[k].userName == user
  }

  ghost predicate Admissible(db: Db, t: Tunnel, except: string) {
    && t.userName in db.users && t.userName != "" && db.users[t.userName].enabled
    && t.nodeId in db.nodes && db.nodes[t.nodeId].enabled && db.nodes[t.nodeId].npsEnabled
    && t.engine == "nps" && 1 <= t.localPort <= 65535
    && Grantable(db, t, except)
    && (db.users[t.userName].maxPorts > 0 ==>
          |OthersOf(db.tunnels, t.userName, except)| < db.users[t.userName].maxPorts)
  }

  lemma {:induction false} DomainsExact(db: Db, u: User, node: Node, t: Tunnel, except: string, domains: seq<string>)
    ensures DomainsError(db, u, node, t, except, domains) == None
            <==> forall d :: d in domains ==> DomainError(db, u, node, t, except, d) == None
  {
    if domains != [] {
      DomainsExact(db, u, node, t, except, domains[1..]);
      assert domains == [domains[0]] + domains[1..];
    }
  }

  /** One domain is refused exactly if a pool does not cover it or a tunnel of that mode serves it. */
  lemma DomainExact(db: Db, u: User, node: Node, t: Tunnel, except: string, d: string)
    requires t.mode in DOMAIN_MODES && forall k :: k in db.tunnels ==> db.tunnels[k].id == k
    ensures DomainError(db, u, node, t, except, d) == None
            <==> && Granted(d, u.domainPools) && (node.domainPools == [] || Granted(d, node.domainPools))
                 && forall k :: k in db.tunnels && k != except && db.tunnels[k].mode == t.mode ==> d !in db.tunnels[k].domains
  {
    DomainInPoolsExact(d, u.domainPools);
    DomainInPoolsExact(d, node.domainPools);
    ModesExact(t.mode);
    assert DomainTakenIn(db.tunnels, t.mode, d, except)
           <==> exists k :: k in db.tunnels && k != except && db.tunnels[k].mode == t.mode && d in db.tunnels[k].domains by {
      forall k | k in db.tunnels
        ensures DomainClash(db.tunnels[k], t.mode, d, except)
                <==> k != except && db.tunnels[k].mode == t.mode && d in db.tunnels[k].domains
      {
      }
    }
  }

  lemma DomainsPlaced(db: Db, t: Tunnel, except: string)
    requires t.userName in db.users && t.nodeId in db.nodes && t.mode in DOMAIN_MODES
    requires forall k :: k in db.tunnels ==> db.tunnels[k].id == k
    ensures PlaceError(db, db.users[t.userName], db.nodes[t.nodeId], t, except) == None
            <==> DomainsGrantable(db, db.users[t.userName], db.nodes[t.nodeId], t, except)
  {
    var u, node := db.users[t.userName], db.nodes[t.nodeId];
    ModesExact(t.mode);
    ModesApart(t.mode);
    DomainsExact(db, u, node, t, except, t.domains);
    forall d | d in t.domains
      ensures DomainError(db, u, node, t, except, d) == None
              <==> && Granted(d, u.domainPools) && (node.domainPools == [] || Granted(d, node.domainPools))
                   && forall k :: k in db.tunnels && k != except && db.tunnels[k].mode == t.mode ==> d !in db.tunnels[k].domains
    {
      DomainExact(db, u, node, t, except, d);
    }
  }

  lemma PortPlaced(db: Db, t: Tunnel, except: string)
    requires t.userName in db.users && t.nodeId in db.nodes && t.mode in PORT_MODES
    requires forall k :: k in db.tunnels ==> db.tunnels[k].id == k && db.tunnels[k].nodeId != ""
    ensures PlaceError(db, db.users[t.userName], db.nodes[t.nodeId], t, except) == None
            <==> PortGrantable(db, db.users[t.userName], db.nodes[t.nodeId], t, except)
  {
    ModesExact(t.mode);
    PortInRangesExact(t.remotePort, db.users[t.userName].portPools);
    PortInRangesExact(t.remotePort, db.nodes[t.nodeId].portPools);
    forall k | k in db.tunnels
      ensures PortClash(db.tunnels[k], t, except) <==> k != except && Listens(db.tunnels[k], t)
    {
      ModesExact(db.tunnels[k].mode);
    }
  }

  /** In a sound registry the validator has no objection exactly to what is admissible. */
  lemma ValidateExact(db: Db, t: Tunnel, except: string)
    requires RegistryOk(db)
    ensures Validate(db, t, except) == None <==> Admissible(db, t, except)
  {
    ModesExact(t.mode);
    assert Owned(db.tunnels, t.userName, except) == OthersOf(db.tunnels, t.userName, except);
    if t.userName in db.users && t.nodeId in db.nodes {
      if t.mode in PORT_MODES {
        PortPlaced(db, t, except);
      } else if t.mode in DOMAIN_MODES {
        DomainsPlaced(db, t, except);
      }
    }
  }

  // ----------------------------------------------------- creating, updating

  /** `t` says what `input` says: identifiers and modes trimmed and in lower case, no port and domain at once. */
  ghost predicate AsAsked(input: Tunnel, t: Tunnel) {
    && t.userName == input.userName && t.localPort == input.localPort && t.enabled == input.enabled
    && (var node := ToLower(TrimSpace(input.nodeId)); t.nodeId == if node == "" then "local" else node)
    && t.engine == ToLower(TrimSpace(input.engine)) && t.mode == ToLower(TrimSpace(input.mode))
    && t.localIp == (if input.localIp == "" then "127.0.0.1" else input.localIp)
    && (if t.mode in DOMAIN_MODES then
          t.remotePort == 0 && DomainsOk(t.domains) && SameDomains(t.domains, input.domains)
        else
          t.remotePort == input.remotePort && t.domains == [])
  }

  /** A request is read exactly if each of its domains is accepted. */
  lemma PrepareExact(input: Tunnel)
    ensures Prepare(input).Done? <==> AllAccepted(input.domains)
    ensures Prepare(input).Done? ==> AsAsked(input, Prepare(input).value) && Prepare(input).value.id == input.id
  {
    NormalizedListExact(input.domains);
    ModesExact(ToLower(TrimSpace(input.mode)));
  }

  /** The tunnels apart from `id` are the same. */
  ghost predicate OthersSame(before: map<string, Tunnel>, after: map<string, Tunnel>, id: string) {
    forall k :: k != id ==> (k in before <==> k in after) && (k in before ==> before[k] == after[k])
  }

  /**
  The identifier that a new tunnel gets: the one given, or user, node if not the default one, engine
  and mode with hyphens between, and then the port, or what was drawn where there is none.
  */
  predicate IsNewId(t: Tunnel, random: string, id: string) {
    if t.id != "" then id == t.id
    else
      var place := if t.nodeId == "local" || t.nodeId == "" then t.userName else t.userName + "-" + t.nodeId;
      id == place + ("-" + t.engine + "-" + t.mode + "-") + (if 0 < t.remotePort then Itoa(t.remotePort) else random)
  }

  function NewId(t: Tunnel, random: string): (id: string)
    ensures IsNewId(t, random, id)
  {
    if t.id == "" then NextTunnelId(t, random) else t.id
  }

  /** A tunnel is created exactly if it is admissible and its identifier is new; nothing else changes. */
  lemma CreateExact(db: Db, input: Tunnel, now: Time, random: string)
    requires RegistryOk(db)
    ensures CreateTunnel(db, input, now, random).Done?
            <==> && Prepare(input).Done? && Admissible(db, Prepare(input).value, "")
                 && NewId(Prepare(input).value, random) !in db.tunnels
    ensures CreateTunnel(db, input, now, random).Done? ==>
              var (db', t) := CreateTunnel(db, input, now, random).value;
              && AsAsked(input, t) && IsNewId(t.(id := input.id), random, t.id)
              && t.id in db'.tunnels && db'.tunnels[t.id] == t
              && t.createdAt == now && t.updatedAt == now
              && OthersSame(db.tunnels, db'.tunnels, t.id) && db'.users == db.users && db'.nodes == db.nodes
  {
    PrepareExact(input);
    if Prepare(input).Done? {
      ValidateExact(db, Prepare(input).value, "");
    }
  }

  /** A tunnel is updated exactly if it is there, keeps its identifier and is admissible beside the others. */
  lemma UpdateExact(db: Db, id: string, input: Tunnel, now: Time)
    requires RegistryOk(db)
    ensures UpdateTunnel(db, id, input, now).Done?
            <==> && Prepare(input).Done? && id in db.tunnels && (input.id == "" || input.id == id)
                 && Admissible(db, Prepare(input).value.(id := id), id)
    ensures UpdateTunnel(db, id, input, now).Done? ==>
              var (db', t) := UpdateTunnel(db, id, input, now).value;
              && AsAsked(input, t) && t.id == id && id in db'.tunnels && db'.tunnels[id] == t
              && t.createdAt == db.tunnels[id].createdAt && t.updatedAt == now
              && OthersSame(db.tunnels, db'.tunnels, id) && db'.users == db.users && db'.nodes == db.nodes
  {
    PrepareExact(input);
    if Prepare(input).Done? {
      ValidateExact(db, Prepare(input).value.(id := id), id);
    }
  }

  // -------------------------------------------------------- users and nodes

  ghost predicate EnabledAdmin(users: map<string, User>, n: string) {
    n in users && users[n].role == "admin" && users[n].enabled
  }

  ghost predicate TwoEnabledAdmins(users: map<string, User>) {
    exists a, b :: a != b && EnabledAdmin(users, a) && EnabledAdmin(users, b)
  }

  lemma TwoAdminsExact(users: map<string, User>)
    ensures |EnabledAdmins(users)| > 1 <==> TwoEnabledAdmins(users)
  {
    var admins := EnabledAdmins(users);
    if |admins| > 1 {
      var a :| a in admins;
      assert admins == (admins - {a}) + {a};
      var b :| b in admins - {a};
      assert EnabledAdmin(users, a) && EnabledAdmin(users, b);
    }
    if TwoEnabledAdmins(users) {
      var a, b :| a != b && EnabledAdmin(users, a) && EnabledAdmin(users, b);
      SubsetSize({a, b}, admins);
    }
  }

  /** A user goes with exactly its own tunnels; an admin only if two admins are enabled. */
  lemma DeleteUserExact(db: Db, name: string)
    requires name in db.users && name != ""
    ensures DeleteUser(db, name).Done? <==> (db.users[name].role == "admin" ==> TwoEnabledAdmins(db.users))
    ensures DeleteUser(db, name).Done? ==>
              var db' := DeleteUser(db, name).value;
              && db'.users == db.users - {name} && db'.nodes == db.nodes
              && (forall k :: k in db'.tunnels <==> k in db.tunnels && db.tunnels[k].userName != name)
              && (forall k :: k in db'.tunnels ==> db'.tunnels[k] == db.tunnels[k])
  {
    TwoAdminsExact(db.users);
  }

  /**
  In a sound registry a node is deleted exactly if its normalized identifier is not empty, it is
  not the default one and no tunnel is on it; deleting one that is not there changes nothing.
  */
  lemma DeleteNodeExact(db: Db, input: string)
    requires RegistryOk(db)
    ensures var id := ToLower(TrimSpace(input));
      && (DeleteNode(db, input).Done? <==>
            id != "" && id != "local" && forall k :: k in db.tunnels ==> db.tunnels[k].nodeId != id)
      && (DeleteNode(db, input).Done? ==> DeleteNode(db, input).value == db.(nodes := db.nodes - {id}))
  {
    forall k | k in db.tunnels
      ensures TunnelNodeId(db.tunnels[k]) == db.tunnels[k].nodeId && db.tunnels[k].nodeId in db.nodes
    {
    }
  }

  predicate NodeAccepted(input: Node) {
    ToLower(TrimSpace(input.id)) != "" && AllAccepted(input.domainPools)
  }

  /** The nodes after `input` has been stored: its record is sound, and no other has changed. */
  ghost predicate NodeStored(before: map<string, Node>, after: map<string, Node>, input: Node) {
    var id := ToLower(TrimSpace(input.id));
    && id in after
    && (var node := after[id];
        && node.id == id && node.name == (if input.name == "" then id else input.name)
        && DomainsOk(node.domainPools) && SameDomains(node.domainPools, input.domainPools)
        && node.enabled == input.enabled && node.npsEnabled == input.npsEnabled && node.portPools == input.portPools)
    && (forall k :: k != id ==> (k in before <==> k in after) && (k in before ==> before[k] == after[k]))
  }

  lemma NormalizeIdAgain(input: string)
    ensures NormalizeId(NormalizeId(input)) == NormalizeId(input)
  {
    LowerOfTrimmed(input);
  }

  lemma UpsertNodeStores(db: Db, input: Node)
    ensures UpsertNode(db, input).Done? <==> NodeAccepted(input)
    ensures UpsertNode(db, input).Done? ==>
              var db' := UpsertNode(db, input).value;
              NodeStored(db.nodes, db'.nodes, input) && db'.users == db.users && db'.tunnels == db.tunnels
  {
    NormalizedListExact(input.domainPools);
  }

  /** Storing a record that is stored already changes nothing. */
  lemma UpsertNodeAgain(db: Db, id: string)
    requires id in db.nodes && db.nodes[id].id == id && id != "" && NormalizeId(id) == id
    requires db.nodes[id].name != "" && DomainsOk(db.nodes[id].domainPools)
    ensures UpsertNode(db, db.nodes[id]) == Done(db)
  {
    NormalizedAgain(db.nodes[id].domainPools);
    assert db.nodes[id := db.nodes[id]] == db.nodes;
  }

  lemma UpsertNodeKeeps(db: Db, input: Node)
    requires RegistryOk(db) && UpsertNode(db, input).Done?
    ensures RegistryOk(UpsertNode(db, input).value)
  {
    PutNodeKeeps(db, input, 0);
    assert Apply(db, PutNode(input), 0) == UpsertNode(db, input).value;
  }

  /**
  A node is stored exactly if it has an identifier and its domains are accepted;
  the registry stays sound, and storing what was stored changes nothing.
  */
  lemma UpsertNodeExact(db: Db, input: Node)
    ensures UpsertNode(db, input).Done? <==> NodeAccepted(input)
    ensures UpsertNode(db, input).Done? ==>
              var db' := UpsertNode(db, input).value;
              && NodeStored(db.nodes, db'.nodes, input) && db'.users == db.users && db'.tunnels == db.tunnels
              && UpsertNode(db', db'.nodes[NormalizeId(input.id)]) == Done(db')
              && (RegistryOk(db) ==> RegistryOk(db'))
  {
    UpsertNodeStores(db, input);
    if UpsertNode(db, input).Done? {
      NormalizeIdAgain(input.id);
      UpsertNodeAgain(UpsertNode(db, input).value, NormalizeId(input.id));
      if RegistryOk(db) {
        UpsertNodeKeeps(db, input);
      }
    }
  }

  /** With a name and a password there is an enabled admin afterwards: one that was there, or a new record of that name. */
  lemma EnsureAdminExact(db: Db, name: string, password: string, key: string)
    ensures EnsureAdmin(db, name, password, key).Done? <==> name != "" && password != ""
    ensures EnsureAdmin(db, name, password, key).Done? ==>
              var db' := EnsureAdmin(db, name, password, key).value;
              && (exists n :: EnabledAdmin(db'.users, n)) && db'.nodes == db.nodes && db'.tunnels == db.tunnels
              && ((exists n :: EnabledAdmin(db.users, n)) ==> db'.users == db.users)
              && (!(exists n :: EnabledAdmin(db.users, n)) ==>
                    && EnabledAdmin(db'.users, name) && db'.users[name].name == name && db'.users[name].verifyKey == key
                    && db'.users[name].portPools == [] && db'.users[name].domainPools == []
                    && db'.users[name].expiresAt == 0 && db'.users[name].expiredAt == 0)
              && (forall k :: k != name ==> (k in db.users <==> k in db'.users) && (k in db.users ==> db.users[k] == db'.users[k]))
  {
    assert EnabledAdmins(db.users) != {} <==> exists n :: EnabledAdmin(db.users, n) by {
      assert forall n :: n in EnabledAdmins(db.users) <==> EnabledAdmin(db.users, n);
    }
    if name != "" && password != "" && EnabledAdmins(db.users) == {} {
      assert EnabledAdmin(EnsureAdmin(db, name, password, key).value.users, name);
    }
  }

  // -------------------------------------------------------- storing a user

  predicate UserAccepted(input: User) {
    input.name != "" && input.role in {"", "user", "admin"} && AllAccepted(input.domainPools)
  }

  /** The key: the one given, else the one there was, else the new one. */
  predicate KeyKept(before: map<string, User>, input: User, key: string, u: User) {
    if input.verifyKey != "" then u.verifyKey == input.verifyKey
    else if input.name in before && before[input.name].verifyKey != "" then u.verifyKey == before[input.name].verifyKey
    else u.verifyKey == key
  }

  /**
  The stamp and the status: an expiry date that is past disables all but an admin and dates it,
  once; without one the stamp goes and the status is the one asked for.
  */
  predicate DatesKept(before: map<string, User>, input: User, now: Time, u: User) {
    var stamp := if input.name in before then before[input.name].expiredAt else 0;
    if input.expiresAt == 0 || now < input.expiresAt then u.enabled == input.enabled && u.expiredAt == 0
    else if input.role == "admin" then u.enabled == input.enabled && u.expiredAt == stamp
    else !u.enabled && u.expiredAt == if stamp == 0 then now else stamp
  }

  /** The users after `input` has been stored: what was asked for is in its record, and no other has changed. */
  ghost predicate UserWritten(before: map<string, User>, after: map<string, User>, input: User, now: Time, key: string) {
    && input.name in after
    && (var u := after[input.name];
        && u.name == input.name && u.role == (if input.role == "" then "user" else input.role)
        && u.portPools == input.portPools && u.maxPorts == input.maxPorts
        && u.rateLimit == input.rateLimit && u.flowLimit == input.flowLimit && u.expiresAt == input.expiresAt
        && DomainsOk(u.domainPools) && SameDomains(u.domainPools, input.domainPools)
        && KeyKept(before, input, key, u) && DatesKept(before, input, now, u))
    && (forall n :: n != input.name ==> (n in before <==> n in after) && (n in before ==> before[n] == after[n]))
  }

  lemma UpsertUserWrites(db: Db, input: User, now: Time, key: string)
    ensures UpsertUser(db, input, now, key).Done? <==> UserAccepted(input)
    ensures UpsertUser(db, input, now, key).Done? ==>
              var db' := UpsertUser(db, input, now, key).value;
              && UserWritten(db.users, db'.users, input, now, key)
              && db'.nodes == db.nodes && db'.tunnels == db.tunnels
  {
    NormalizedListExact(input.domainPools);
  }

  /** The record is a function of the request, the time and what is kept; so the same request keeps it. */
  lemma MergedAgain(prior: Option<User>, input: User, pools: seq<string>, now: Time, key: string)
    requires now != 0
    ensures var u := Restamp(Merged(prior, input, pools, key), now);
      Restamp(Merged(Some(u), input, pools, key), now) == u
  {
  }

  lemma UpsertUserAgain(db: Db, input: User, now: Time, key: string)
    requires now != 0 && UpsertUser(db, input, now, key).Done?
    ensures UpsertUser(UpsertUser(db, input, now, key).value, input, now, key) == UpsertUser(db, input, now, key)
  {
    var db' := UpsertUser(db, input, now, key).value;
    var pools := NormalizeFrom(input.domainPools, []).value;
    MergedAgain(Prior(db, input.name), input, pools, now, key);
    assert db'.users[input.name := db'.users[input.name]] == db'.users;
  }

  lemma UpsertUserKeeps(db: Db, input: User, now: Time, key: string)
    requires RegistryOk(db) && UpsertUser(db, input, now, key).Done?
    ensures RegistryOk(UpsertUser(db, input, now, key).value)
  {
    PutUserKeeps(db, input, key, now);
    assert Apply(db, PutUser(input, key), now) == UpsertUser(db, input, now, key).value;
  }

  /**
  A user is stored exactly if it has a name, a role that exists and domains that are accepted;
  the registry stays sound, and the same request at the same time changes nothing more.
  */
  lemma UpsertUserExact(db: Db, input: User, now: Time, key: string)
    ensures UpsertUser(db, input, now, key).Done? <==> UserAccepted(input)
    ensures UpsertUser(db, input, now, key).Done? ==>
              var db' := UpsertUser(db, input, now, key).value;
              && UserWritten(db.users, db'.users, input, now, key)
              && db'.nodes == db.nodes && db'.tunnels == db.tunnels
              && (now != 0 ==> UpsertUser(db', input, now, key) == Done(db'))
              && (RegistryOk(db) ==> RegistryOk(db'))
  {
    UpsertUserWrites(db, input, now, key);
    if UpsertUser(db, input, now, key).Done? {
      if now != 0 {
        UpsertUserAgain(db, input, now, key);
      }
      if RegistryOk(db) {
        UpsertUserKeeps(db, input, now, key);
      }
    }
  }
}
