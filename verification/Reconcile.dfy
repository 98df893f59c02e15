/**
SyncNPSState as a function of the node's tables: the users and tunnels of the
control plane become clients, tasks and hosts, and what is stale is removed.
*/
module Reconcile {
  import opened Basics
  import opened Text
  import opened PortRanges
  import opened Registry

  /** An identifier as the counters give them out; 0 stands for none yet. */
  type Id = nat

  /** Traffic counted for a record. */
  datatype Flow = Flow(inlet: int, outlet: int)

  const NO_FLOW := Flow(0, 0)

  datatype Client = Client(
    id: Id, verifyKey: string, remark: string, webUserName: string, status: bool, portPool: string,
    configConnAllow: bool, maxTunnelNum: int, rateLimit: int, flowLimit: int, flow: Flow)

  datatype Task = Task(
    port: int, mode: string, status: bool, clientId: Id, target: string, password: string, flow: Flow)

  datatype Host = Host(
    host: string, target: string, headerChange: string, hostChange: string, location: string, scheme: string,
    clientId: Id, isClose: bool, autoHttps: bool, flow: Flow)

  /** A row of the table of tasks or of hosts. */
  datatype Row<T> = Row(id: Id, remark: string, body: T)

  /** A table and the last identifier it has given out. */
  datatype Table<T> = Table(rows: map<Id, Row<T>>, last: Id)

  datatype Clients = Clients(rows: map<Id, Client>, last: Id)

  datatype Nps = Nps(clients: Clients, tasks: Table<Task>, hosts: Table<Host>)

  datatype SyncError = NameDuplicate | KeyDuplicate | HostExists

  // ---------------------------------------------------------------- lookups

  const MANAGED := "tc:"

  function TaskRemark(id: string): string { MANAGED + id }

  function HostRemark(id: string, domain: string): string { MANAGED + id + ":" + domain }

  /** Some row with this remark: findNPSTask and findNPSHost. */
  ghost function Lookup<T>(t: Table<T>, remark: string): (r: Option<Row<T>>)
    ensures r.Some? ==> r.value.remark == remark && exists k :: k in t.rows && t.rows[k] == r.value
    ensures r.None? ==> forall k :: k in t.rows ==> t.rows[k].remark != remark
  {
    if exists k :: k in t.rows && t.rows[k].remark == remark then
      var k :| k in t.rows && t.rows[k].remark == remark;
      Some(t.rows[k])
    else None
  }

  predicate Named(c: Client, name: string) { c.webUserName == name || c.remark == name }

  /** Some client with this name: findNPSClient. */
  ghost function LookupName(cs: Clients, name: string): (r: Option<Client>)
    ensures r.Some? ==> Named(r.value, name) && exists k :: k in cs.rows && cs.rows[k] == r.value
    ensures r.None? ==> forall k :: k in cs.rows ==> !Named(cs.rows[k], name)
  {
    if exists k :: k in cs.rows && Named(cs.rows[k], name) then
      var k :| k in cs.rows && Named(cs.rows[k], name);
      Some(cs.rows[k])
    else None
  }

  // ------------------------------------------------------------------ users

  /** Two's complement in 64 bits, which is what Go's int and int64 keep of a product. */
  function Int64(x: int): int { (x + 0x8000_0000_0000_0000) % 0x1_0000_0000_0000_0000 - 0x8000_0000_0000_0000 }

  predicate Desired(u: User) { u.enabled && u.verifyKey != "" }

  function BlankClient(key: string): Client {
    Client(0, key, "", "", true, "", false, 0, 0, 0, NO_FLOW)
  }

  /** The settings that a synchronization writes into the client of a user. */
  function Configured(c: Client, u: User): Client {
    c.(verifyKey := u.verifyKey, remark := u.name, status := true, webUserName := u.name,
       portPool := Format(u.portPools), configConnAllow := true, maxTunnelNum := u.maxPorts,
       rateLimit := Int64(u.rateLimit * 128), flowLimit := Int64(u.flowLimit * 1024 * 1024 * 1024))
  }

  /** VerifyUserName. */
  predicate NameFree(rows: map<Id, Client>, name: string, id: Id) {
    forall k :: k in rows && rows[k].webUserName == name ==> rows[k].id == id
  }

  /** VerifyVkey. */
  predicate KeyFree(rows: map<Id, Client>, key: string, id: Id) {
    forall k :: k in rows && rows[k].verifyKey == key ==> rows[k].id == id
  }

  /** DbUtils.NewClient for a client with a key: checks, then stores under its own or a new identifier. */
  function NewClient(cs: Clients, c: Client): (Clients, Option<SyncError>) {
    if c.webUserName != "" && !NameFree(cs.rows, c.webUserName, c.id) then (cs, Some(NameDuplicate))
    else if !KeyFree(cs.rows, c.verifyKey, c.id) then (cs, Some(KeyDuplicate))
    else if c.id == 0 then (Clients(cs.rows[cs.last + 1 := c.(id := cs.last + 1)], cs.last + 1), None)
    else (cs.(rows := cs.rows[c.id := c]), None)
  }

  /** The record that is configured for a user: the one found, already changed in the table, or a new one. */
  ghost function Chosen(cs: Clients, u: User): Client {
    var found := LookupName(cs, u.name);
    Configured(if found.Some? then found.value else BlankClient(u.verifyKey), u)
  }

  ghost function InPlace(cs: Clients, u: User): Clients {
    if LookupName(cs, u.name).Some? then cs.(rows := cs.rows[Chosen(cs, u).id := Chosen(cs, u)]) else cs
  }

  ghost function SyncUser(cs: Clients, u: User): (Clients, Option<SyncError>) {
    NewClient(InPlace(cs, u), Chosen(cs, u))
  }

  /** The identifier under which the client of `u` is stored afterwards. */
  ghost function ClientIdOf(cs: Clients, u: User): Id {
    if Chosen(cs, u).id == 0 then cs.last + 1 else Chosen(cs, u).id
  }

  datatype UserPhase = UserPhase(clients: Clients, owners: map<string, Id>, error: Option<SyncError>)

  ghost function SyncUsers(cs: Clients, owners: map<string, Id>, users: seq<User>): UserPhase
    decreases |users|
  {
    if users == [] then UserPhase(cs, owners, None)
    else if !Desired(users[0]) then SyncUsers(cs, owners, users[1..])
    else
      var (cs', e) := SyncUser(cs, users[0]);
      if e.Some? then UserPhase(cs', owners, e)
      else SyncUsers(cs', owners[users[0].name := ClientIdOf(cs, users[0])], users[1..])
  }

  // ---------------------------------------------------------------- tunnels

  /** One record that a tunnel asks for. */
  datatype Want = WantTask(tunnel: Tunnel, clientId: Id) | WantHost(tunnel: Tunnel, domain: string, clientId: Id)

  function Remark(w: Want): string {
    match w
    case WantTask(t, _) => TaskRemark(t.id)
    case WantHost(t, domain, _) => HostRemark(t.id, domain)
  }

  function HostWants(t: Tunnel, clientId: Id, domains: seq<string>): seq<Want> {
    if domains == [] then [] else [WantHost(t, domains[0], clientId)] + HostWants(t, clientId, domains[1..])
  }

  function WantsOf(owners: map<string, Id>, t: Tunnel): seq<Want> {
    if t.engine != ENGINE_NPS || !t.enabled || t.userName !in owners then []
    else if t.mode == "http" || t.mode == "https" then HostWants(t, owners[t.userName], t.domains)
    else [WantTask(t, owners[t.userName])]
  }

  function Wants(owners: map<string, Id>, tunnels: seq<Tunnel>): seq<Want> {
    if tunnels == [] then [] else WantsOf(owners, tunnels[0]) + Wants(owners, tunnels[1..])
  }

  function Target(t: Tunnel): string { t.localIp + ":" + FormatInt(t.localPort) }

  const BLANK_TASK := Task(0, "", false, 0, "", "", NO_FLOW)

  function TaskFor(prior: Task, t: Tunnel, clientId: Id): Task {
    Task(t.remotePort, t.mode, true, clientId, Target(t),
         if t.mode == "secret" || t.mode == "p2p" then t.id else prior.password, NO_FLOW)
  }

  function HostFor(t: Tunnel, domain: string, clientId: Id): Host {
    Host(domain, Target(t), "", "", "/", t.mode, clientId, false, false, NO_FLOW)
  }

  /** Writes a body into the row with this remark, or into a new row. */
  ghost function Put<T>(t: Table<T>, remark: string, body: T): Table<T> {
    match Lookup(t, remark)
    case Some(row) => t.(rows := t.rows[row.id := row.(body := body)])
    case None => Table(t.rows[t.last + 1 := Row(t.last + 1, remark, body)], t.last + 1)
  }

  ghost function OldTask(t: Table<Task>, remark: string): Task {
    match Lookup(t, remark)
    case Some(row) => row.body
    case None => BLANK_TASK
  }

  /** The row serves the domain under another remark: findNPSHostByDomain. */
  predicate Serves(row: Row<Host>, domain: string, scheme: string, except: string) {
    && row.remark != except && row.body.host == domain && row.body.location == "/"
    && (row.body.scheme == scheme || row.body.scheme == "all")
  }

  predicate HostConflict(rows: map<Id, Row<Host>>, domain: string, scheme: string, except: string) {
    exists k :: k in rows && Serves(rows[k], domain, scheme, except)
  }

  ghost function SyncTask(ts: Table<Task>, t: Tunnel, clientId: Id): Table<Task> {
    Put(ts, TaskRemark(t.id), TaskFor(OldTask(ts, TaskRemark(t.id)), t, clientId))
  }

  /** A record found is changed before the check; a record not found only costs an identifier. */
  ghost function SyncHost(hs: Table<Host>, t: Tunnel, domain: string, clientId: Id): (Table<Host>, Option<SyncError>) {
    var remark := HostRemark(t.id, domain);
    if HostConflict(hs.rows, domain, t.mode, remark) then
      (if Lookup(hs, remark).Some? then Put(hs, remark, HostFor(t, domain, clientId)) else hs.(last := hs.last + 1),
       Some(HostExists))
    else (Put(hs, remark, HostFor(t, domain, clientId)), None)
  }

  ghost function SyncWant(db: Nps, w: Want): (Nps, Option<SyncError>) {
    match w
    case WantTask(t, clientId) => (db.(tasks := SyncTask(db.tasks, t, clientId)), None)
    case WantHost(t, domain, clientId) =>
      var (hosts, e) := SyncHost(db.hosts, t, domain, clientId);
      (db.(hosts := hosts), e)
  }

  ghost function SyncWants(db: Nps, wants: seq<Want>): (Nps, Option<SyncError>)
    decreases |wants|
  {
    if wants == [] then (db, None)
    else
      var (db', e) := SyncWant(db, wants[0]);
      if e.Some? then (db', e) else SyncWants(db', wants[1..])
  }

  // ---------------------------------------------------------------- pruning

  predicate Stale<T>(row: Row<T>, desired: set<string>) { HasPrefix(row.remark, MANAGED) && row.remark !in desired }

  function PruneRows<T>(rows: map<Id, Row<T>>, desired: set<string>): map<Id, Row<T>> {
    map k | k in rows && !Stale(rows[k], desired) :: rows[k]
  }

  function NameOf(c: Client): string { if c.webUserName == "" then c.remark else c.webUserName }

  predicate Unwanted(c: Client, names: set<string>) { NameOf(c) != "" && NameOf(c) !in names }

  /** The identifiers of the clients that are removed. */
  function UnwantedIds(rows: map<Id, Client>, names: set<string>): set<Id> {
    set k | k in rows && Unwanted(rows[k], names) :: k
  }

  function TaskRemarks(wants: seq<Want>): set<string> {
    set i | 0 <= i < |wants| && wants[i].WantTask? :: Remark(wants[i])
  }

  function HostRemarks(wants: seq<Want>): set<string> {
    set i | 0 <= i < |wants| && wants[i].WantHost? :: Remark(wants[i])
  }

  function WithoutTasksOf(rows: map<Id, Row<Task>>, gone: set<Id>): map<Id, Row<Task>> {
    map k | k in rows && rows[k].body.clientId !in gone :: rows[k]
  }

  function WithoutHostsOf(rows: map<Id, Row<Host>>, gone: set<Id>): map<Id, Row<Host>> {
    map k | k in rows && rows[k].body.clientId !in gone :: rows[k]
  }

  /** The three deleting loops. */
  function Prune(db: Nps, names: set<string>, tasks: set<string>, hosts: set<string>): Nps {
    var gone := UnwantedIds(db.clients.rows, names);
    Nps(db.clients.(rows := db.clients.rows - gone),
        db.tasks.(rows := WithoutTasksOf(PruneRows(db.tasks.rows, tasks), gone)),
        db.hosts.(rows := WithoutHostsOf(PruneRows(db.hosts.rows, hosts), gone)))
  }

  ghost function Sync(db: Nps, users: seq<User>, tunnels: seq<Tunnel>): (Nps, Option<SyncError>) {
    var phase := SyncUsers(db.clients, map[], users);
    if phase.error.Some? then (db.(clients := phase.clients), phase.error)
    else
      var wants := Wants(phase.owners, tunnels);
      var (db', e) := SyncWants(db.(clients := phase.clients), wants);
      if e.Some? then (db', e) else (Prune(db', phase.owners.Keys, TaskRemarks(wants), HostRemarks(wants)), None)
  }
}
