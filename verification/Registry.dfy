/**
The control plane's registry of users, nodes and tunnels: what each operation of
Store decides, as a function of the database it finds.
*/
module Registry {
  import opened Basics
  import opened Text
  import opened PortRanges
  import opened Domains

  /** An instant; 0 is Go's zero time. */
  type Time = int

  const ROLE_ADMIN := "admin"
  const ROLE_USER := "user"
  const ENGINE_NPS := "nps"
  const DEFAULT_NODE := "local"

  datatype User = User(
    name: string, role: string, enabled: bool, portPools: seq<PortRange>, domainPools: seq<string>, maxPorts: int,
    verifyKey: string, rateLimit: int, flowLimit: int, expiresAt: Time, expiredAt: Time)

  datatype Node = Node(
    id: string, name: string, enabled: bool, npsEnabled: bool, portPools: seq<PortRange>, domainPools: seq<string>)

  datatype Tunnel = Tunnel(
    id: string, userName: string, nodeId: string, engine: string, mode: string, remotePort: int,
    localIp: string, localPort: int, domains: seq<string>, enabled: bool, createdAt: Time, updatedAt: Time)

  datatype Db = Db(users: map<string, User>, nodes: map<string, Node>, tunnels: map<string, Tunnel>)

  datatype Error =
    | NameRequired | PasswordRequired | BadRole | BadDomain | IdRequired | NotFound | IdChanged | AlreadyExists
    | BadEngine | NodeUnavailable | NodeWithoutNps | ModeRequired | BadMode | LocalPortRequired | UserUnavailable
    | RemotePortRequired | OutsideUserPool | OutsideNodePool | PortTaken
    | DomainRequired | OutsideUserDomains | OutsideNodeDomains | DomainTaken
    | QuotaReached | LastAdmin | DefaultNode | NodeInUse | SaveFailed

  datatype Outcome<+T> = Done(value: T) | Failed(error: Error)

  // --------------------------------------------------------------- helpers

  function NormalizeId(input: string): string { ToLower(TrimSpace(input)) }

  predicate IsPortMode(mode: string) { mode == "tcp" || mode == "udp" || mode == "socks5" }

  predicate IsDomainMode(mode: string) { mode == "http" || mode == "https" }

  datatype Transport = Tcp | Udp

  function PortTransport(mode: string): Transport { if mode == "udp" then Udp else Tcp }

  function TunnelNodeId(t: Tunnel): string { if t.nodeId == "" then DEFAULT_NODE else t.nodeId }

  /** nextTunnelID, with the random suffix as an argument. */
  function NextTunnelId(t: Tunnel, random: string): (id: string)
    ensures id != ""
  {
    var prefix := t.userName + (if t.nodeId != "" && t.nodeId != DEFAULT_NODE then "-" + t.nodeId else "")
                  + "-" + t.engine + "-" + t.mode;
    if t.remotePort > 0 then prefix + "-" + Itoa(t.remotePort) else prefix + "-" + random
  }

  // -------------------------------------------------------------- validation

  /** What CreateTunnel and UpdateTunnel do to their argument before they look at the database. */
  function Prepare(t: Tunnel): Outcome<Tunnel> {
    var nodeId := NormalizeId(t.nodeId);
    var mode := ToLower(TrimSpace(t.mode));
    match NormalizeFrom(t.domains, [])
    case Err => Failed(BadDomain)
    case Ok(domains) =>
      Done(t.(nodeId := if nodeId == "" then DEFAULT_NODE else nodeId,
              mode := mode,
              engine := ToLower(TrimSpace(t.engine)),
              localIp := if t.localIp == "" then "127.0.0.1" else t.localIp,
              domains := if IsDomainMode(mode) then domains else [],
              remotePort := if IsDomainMode(mode) then 0 else t.remotePort))
  }

  /** Tunnel `e` stands in the way of the port that `t` asks for. */
  predicate PortClash(e: Tunnel, t: Tunnel, except: string) {
    && e.id != except && IsPortMode(e.mode)
    && TunnelNodeId(e) == t.nodeId && e.remotePort == t.remotePort && PortTransport(e.mode) == PortTransport(t.mode)
  }

  /** Tunnel `e` stands in the way of serving `domain` in this mode. */
  predicate DomainClash(e: Tunnel, mode: string, domain: string, except: string) {
    e.id != except && IsDomainMode(e.mode) && e.mode == mode && domain in e.domains
  }

  predicate PortTakenIn(tunnels: map<string, Tunnel>, t: Tunnel, except: string) {
    exists k :: k in tunnels && PortClash(tunnels[k], t, except)
  }

  predicate DomainTakenIn(tunnels: map<string, Tunnel>, mode: string, domain: string, except: string) {
    exists k :: k in tunnels && DomainClash(tunnels[k], mode, domain, except)
  }

  function DomainError(db: Db, u: User, node: Node, t: Tunnel, except: string, domain: string): Option<Error> {
    if !DomainInPools(domain, u.domainPools) then Some(OutsideUserDomains)
    else if node.domainPools != [] && !DomainInPools(domain, node.domainPools) then Some(OutsideNodeDomains)
    else if DomainTakenIn(db.tunnels, t.mode, domain, except) then Some(DomainTaken)
    else None
  }

  /** The error of the first domain that has one. */
  function DomainsError(db: Db, u: User, node: Node, t: Tunnel, except: string, domains: seq<string>): Option<Error> {
    if domains == [] then None
    else
      var e := DomainError(db, u, node, t, except, domains[0]);
      if e.Some? then e else DomainsError(db, u, node, t, except, domains[1..])
  }

  /** The tunnels that count against a user's quota. */
  function Owned(tunnels: map<string, Tunnel>, user: string, except: string): set<string> {
    set k | k in tunnels && tunnels[k].id != except && tunnels[k].userName == user
  }

  function PlaceError(db: Db, u: User, node: Node, t: Tunnel, except: string): Option<Error> {
    if IsPortMode(t.mode) then
      if t.remotePort <= 0 then Some(RemotePortRequired)
      else if !PortInRanges(t.remotePort, u.portPools) then Some(OutsideUserPool)
      else if node.portPools != [] && !PortInRanges(t.remotePort, node.portPools) then Some(OutsideNodePool)
      else if PortTakenIn(db.tunnels, t, except) then Some(PortTaken)
      else None
    else if t.domains == [] then Some(DomainRequired)
    else DomainsError(db, u, node, t, except, t.domains)
  }

  /** validateTunnelLocked: the first objection, in the order of the code. */
  function Validate(db: Db, t: Tunnel, except: string): Option<Error> {
    if t.userName == "" then Some(NameRequired)
    else if t.engine != ENGINE_NPS then Some(BadEngine)
    else if t.nodeId !in db.nodes || !db.nodes[t.nodeId].enabled then Some(NodeUnavailable)
    else if !db.nodes[t.nodeId].npsEnabled then Some(NodeWithoutNps)
    else if t.mode == "" then Some(ModeRequired)
    else if !IsPortMode(t.mode) && !IsDomainMode(t.mode) then Some(BadMode)
    else if t.localPort <= 0 || t.localPort > 65535 then Some(LocalPortRequired)
    else if t.userName !in db.users || !db.users[t.userName].enabled then Some(UserUnavailable)
    else
      var u := db.users[t.userName];
      var placed := PlaceError(db, u, db.nodes[t.nodeId], t, except);
      if placed.Some? then placed
      else if u.maxPorts > 0 && |Owned(db.tunnels, t.userName, except)| >= u.maxPorts then Some(QuotaReached)
      else None
  }

  // -------------------------------------------------------------- operations

  function CreateTunnel(db: Db, input: Tunnel, now: Time, random: string): Outcome<(Db, Tunnel)> {
    match Prepare(input)
    case Failed(e) => Failed(e)
    case Done(p) =>
      match Validate(db, p, "")
      case Some(e) => Failed(e)
      case None =>
        var id := if p.id == "" then NextTunnelId(p, random) else p.id;
        if id in db.tunnels then Failed(AlreadyExists)
        else
          var t := p.(id := id, createdAt := now, updatedAt := now);
          Done((db.(tunnels := db.tunnels[id := t]), t))
  }

  function UpdateTunnel(db: Db, id: string, input: Tunnel, now: Time): Outcome<(Db, Tunnel)> {
    match Prepare(input)
    case Failed(e) => Failed(e)
    case Done(p) =>
      if id == "" then Failed(IdRequired)
      else if id !in db.tunnels then Failed(NotFound)
      else
        var q := p.(id := if p.id == "" then id else p.id);
        if q.id != id then Failed(IdChanged)
        else
          match Validate(db, q, id)
          case Some(e) => Failed(e)
          case None =>
            var t := q.(createdAt := db.tunnels[id].createdAt, updatedAt := now);
            Done((db.(tunnels := db.tunnels[id := t]), t))
  }

  function DeleteTunnel(db: Db, id: string): Outcome<Db> {
    if id == "" then Failed(IdRequired) else Done(db.(tunnels := db.tunnels - {id}))
  }

  function UpsertNode(db: Db, input: Node): Outcome<Db> {
    var id := NormalizeId(input.id);
    if id == "" then Failed(IdRequired)
    else
      match NormalizeFrom(input.domainPools, [])
      case Err => Failed(BadDomain)
      case Ok(pools) =>
        var node := input.(id := id, name := if input.name == "" then id else input.name, domainPools := pools);
        Done(db.(nodes := db.nodes[id := node]))
  }

  function DeleteNode(db: Db, input: string): Outcome<Db> {
    var id := NormalizeId(input);
    if id == "" then Failed(IdRequired)
    else if id == DEFAULT_NODE then Failed(DefaultNode)
    else if id !in db.nodes then Done(db)
    else if exists k :: k in db.tunnels && TunnelNodeId(db.tunnels[k]) == id then Failed(NodeInUse)
    else Done(db.(nodes := db.nodes - {id}))
  }

  /** The stamps that UpsertUser leaves: an expired user that is not an admin is disabled and dated. */
  function Restamp(u: User, now: Time): User {
    if u.expiresAt == 0 || u.expiresAt > now then u.(expiredAt := 0)
    else if u.role != ROLE_ADMIN then u.(enabled := false, expiredAt := if u.expiredAt == 0 then now else u.expiredAt)
    else u
  }

  function Prior(db: Db, name: string): Option<User> { if name in db.users then Some(db.users[name]) else None }

  function RoleOf(input: User): string { if input.role == "" then ROLE_USER else input.role }

  /** The stored record with the fields of the request in it; the stamp is not the caller's to set. */
  function Merged(prior: Option<User>, input: User, pools: seq<string>, key: string): User {
    var kept := if prior.Some? then prior.value.verifyKey else "";
    input.(role := RoleOf(input), domainPools := pools,
           verifyKey := if input.verifyKey != "" then input.verifyKey else if kept != "" then kept else key,
           expiredAt := if prior.Some? then prior.value.expiredAt else 0)
  }

  /** UpsertUser, for the fields modelled here; `key` is the verification key drawn when there is none. */
  function UpsertUser(db: Db, input: User, now: Time, key: string): Outcome<Db> {
    if input.name == "" then Failed(NameRequired)
    else if RoleOf(input) != ROLE_ADMIN && RoleOf(input) != ROLE_USER then Failed(BadRole)
    else
      match NormalizeFrom(input.domainPools, [])
      case Err => Failed(BadDomain)
      case Ok(pools) =>
        Done(db.(users := db.users[input.name := Restamp(Merged(Prior(db, input.name), input, pools, key), now)]))
  }

  function EnabledAdmins(users: map<string, User>): set<string> {
    set n | n in users && users[n].role == ROLE_ADMIN && users[n].enabled
  }

  /** The tunnels left when the users in `gone` are removed with everything they own. */
  function WithoutUsers(tunnels: map<string, Tunnel>, gone: set<string>): map<string, Tunnel> {
    map k | k in tunnels && tunnels[k].userName !in gone :: tunnels[k]
  }

  function DeleteUser(db: Db, name: string): Outcome<Db> {
    if name == "" then Failed(NameRequired)
    else if name !in db.users then Done(db)
    else if db.users[name].role == ROLE_ADMIN && |EnabledAdmins(db.users)| <= 1 then Failed(LastAdmin)
    else Done(Db(db.users - {name}, db.nodes, WithoutUsers(db.tunnels, {name})))
  }

  /** EnsureAdmin: replaces whatever record has that name unless an enabled admin exists. */
  function EnsureAdmin(db: Db, name: string, password: string, key: string): Outcome<Db> {
    if name == "" then Failed(NameRequired)
    else if password == "" then Failed(PasswordRequired)
    else if EnabledAdmins(db.users) != {} then Done(db)
    else Done(db.(users := db.users[name := User(name, ROLE_ADMIN, true, [], [], 0, key, 0, 0, 0, 0)]))
  }

  // ------------------------------------------------------------------ expiry

  /** What a sweep writes into a user that it does not remove. */
  function Stamped(u: User, now: Time): User {
    if u.role == ROLE_ADMIN || u.expiresAt == 0 || u.expiresAt > now then u
    else if u.enabled then u.(enabled := false, expiredAt := now)
    else if u.expiredAt == 0 then u.(expiredAt := now)
    else u
  }

  predicate Expunged(u: User, now: Time, retention: int) {
    && u.role != ROLE_ADMIN && u.expiresAt != 0
    && Stamped(u, now).expiredAt != 0 && Stamped(u, now).expiredAt <= now - retention
  }

  function ExpungedNames(users: map<string, User>, now: Time, retention: int): set<string> {
    set n | n in users && Expunged(users[n], now, retention)
  }

  /** EnforceUserExpiry: a function of the database alone, whatever order the map is walked in. */
  function EnforceExpiry(db: Db, now: Time, retention: int): Db {
    var gone := ExpungedNames(db.users, now, retention);
    Db(map n | n in db.users && n !in gone :: Stamped(db.users[n], now), db.nodes, WithoutUsers(db.tunnels, gone))
  }

  // -------------------------------------------------------------------- runs

  datatype Op =
    | Create(tunnel: Tunnel, random: string)
    | Update(id: string, tunnel: Tunnel)
    | Remove(id: string)
    | PutNode(node: Node)
    | RemoveNode(id: string)
    | PutUser(user: User, key: string)
    | RemoveUser(name: string)
    | Admin(name: string, password: string, key: string)
    | Sweep(retention: int)

  /** One call at one instant. */
  datatype Call = Call(op: Op, now: Time)

  function Kept<T>(db: Db, r: Outcome<(Db, T)>): Db { if r.Done? then r.value.0 else db }

  function KeptDb(db: Db, r: Outcome<Db>): Db { if r.Done? then r.value else db }

  /** The database in memory after a call; a refused call leaves it, a failed save does not undo it. */
  function Apply(db: Db, op: Op, now: Time): Db {
    match op
    case Create(t, random) => Kept(db, CreateTunnel(db, t, now, random))
    case Update(id, t) => Kept(db, UpdateTunnel(db, id, t, now))
    case Remove(id) => KeptDb(db, DeleteTunnel(db, id))
    case PutNode(node) => KeptDb(db, UpsertNode(db, node))
    case RemoveNode(id) => KeptDb(db, DeleteNode(db, id))
    case PutUser(user, key) => KeptDb(db, UpsertUser(db, user, now, key))
    case RemoveUser(name) => KeptDb(db, DeleteUser(db, name))
    case Admin(name, password, key) => KeptDb(db, EnsureAdmin(db, name, password, key))
    case Sweep(retention) => EnforceExpiry(db, now, retention)
  }

  function Run(db: Db, calls: seq<Call>): Db
    decreases |calls|
  {
    if calls == [] then db else Run(Apply(db, calls[0].op, calls[0].now), calls[1..])
  }

  /** NewStore on an empty file: no users, no tunnels, the default node. */
  function FreshDb(): Db {
    Db(map[], map[DEFAULT_NODE := Node(DEFAULT_NODE, "Local Node", true, true, [], [])], map[])
  }
}
