/**
What a successful synchronization leaves in the tables, said of the users and tunnels
alone, record by record and field by field.
*/
module ReconcileRecords {
  import opened Basics
  import opened Text
  import opened PortRanges
  import opened Registry
  import opened Reconcile
  import opened ReconcileTables
  import opened ReconcileWants
  import opened ReconcileSafety
  import opened ReconcileStability
  import opened ReconcileExact

  // ------------------------------------------------------------ the records

  /** The user is served: enabled, and with a key. */
  predicate Eligible(users: seq<User>, name: string) {
    exists u :: u in users && u.name == name && u.enabled && u.verifyKey != ""
  }

  predicate Live(users: seq<User>, t: Tunnel) { t.enabled && t.engine == "nps" && Eligible(users, t.userName) }

  predicate Web(t: Tunnel) { t.mode == "http" || t.mode == "https" }

  /** The decimal digits of a number, without a needless zero in front. */
  predicate Digits(s: string, n: nat) {
    s != "" && AllDigits(s) && DecimalValue(s) == n && (s[0] == '0' ==> s == "0")
  }

  predicate Decimal(s: string, n: int) {
    if n < 0 then s != "" && s[0] == '-' && Digits(s[1..], -n) else Digits(s, n)
  }

  /** An address, a colon and a port. */
  ghost predicate IsAddress(s: string, ip: string, port: int) {
    exists digits: string :: s == ip + ":" + digits && Decimal(digits, port)
  }

  /** What 64 bits keep of a number. */
  predicate Wrapped(x: int, y: int) {
    -0x8000_0000_0000_0000 <= x < 0x8000_0000_0000_0000 && (y - x) % 0x1_0000_0000_0000_0000 == 0
  }

  predicate ClientOf(db: Nps, c: Id, name: string) { c in db.clients.rows && db.clients.rows[c].webUserName == name }

  /** The client of a user: alone with the name, alone with the key, and with the settings of the user. */
  ghost predicate ClientRecord(db: Nps, c: Id, u: User) {
    && ClientOf(db, c, u.name)
    && (var x := db.clients.rows[c];
        && x.id == c && x.remark == u.name && x.verifyKey == u.verifyKey && x.status && x.configConnAllow
        && x.maxTunnelNum == u.maxPorts && Wrapped(x.rateLimit, u.rateLimit * 128) && Wrapped(x.flowLimit, u.flowLimit * 0x4000_0000)
        && (ValidRanges(u.portPools) ==>
              Parse(x.portPool) == Ok(u.portPools) && forall p :: p in Ports(x.portPool) <==> PortInRanges(p, u.portPools)))
    && (forall k :: k in db.clients.rows && k != c ==>
          db.clients.rows[k].webUserName != u.name && db.clients.rows[k].remark != u.name
          && db.clients.rows[k].verifyKey != u.verifyKey)
  }

  /** The task of a tunnel; it keeps the identifier, and the password where the mode sets none, of the row there was. */
  ghost predicate TaskRecord(before: Nps, db: Nps, k: Id, t: Tunnel) {
    && HasRow(db.tasks, k, "tc:" + t.id)
    && (var x := db.tasks.rows[k].body;
        && x.port == t.remotePort && x.mode == t.mode && x.status && x.flow == Flow(0, 0)
        && IsAddress(x.target, t.localIp, t.localPort) && ClientOf(db, x.clientId, t.userName)
        && (t.mode == "secret" || t.mode == "p2p" ==> x.password == t.id)
        && (forall j :: HasRow(before.tasks, j, "tc:" + t.id) ==>
              j == k && (t.mode != "secret" && t.mode != "p2p" ==> x.password == before.tasks.rows[j].body.password))
        && (t.mode != "secret" && t.mode != "p2p" && (forall j :: !HasRow(before.tasks, j, "tc:" + t.id)) ==> x.password == ""))
  }

  /** The host of a tunnel for one of its domains, which no other row serves. */
  ghost predicate HostRecord(before: Nps, db: Nps, k: Id, t: Tunnel, domain: string) {
    && HasRow(db.hosts, k, "tc:" + t.id + ":" + domain)
    && (var x := db.hosts.rows[k].body;
        && x.host == domain && x.scheme == t.mode && x.location == "/" && x.headerChange == "" && x.hostChange == ""
        && !x.isClose && !x.autoHttps && x.flow == Flow(0, 0)
        && IsAddress(x.target, t.localIp, t.localPort) && ClientOf(db, x.clientId, t.userName))
    && (forall j :: HasRow(before.hosts, j, "tc:" + t.id + ":" + domain) ==> j == k)
    && (forall j :: j in db.hosts.rows && j != k && db.hosts.rows[j].remark != "tc:" + t.id + ":" + domain ==>
          var y := db.hosts.rows[j].body;
          !(y.host == domain && y.location == "/" && (y.scheme == t.mode || y.scheme == "all")))
  }

  ghost predicate ClientsRecorded(db: Nps, users: seq<User>) {
    && (forall u :: u in users && u.enabled && u.verifyKey != "" ==> exists c :: ClientRecord(db, c, u))
    && (forall c :: c in db.clients.rows ==>
          var x := db.clients.rows[c];
          && (x.webUserName != "" ==> Eligible(users, x.webUserName))
          && (x.webUserName == "" && x.remark != "" ==> Eligible(users, x.remark)))
  }

  ghost predicate TasksRecorded(before: Nps, db: Nps, users: seq<User>, tunnels: seq<Tunnel>) {
    && (forall t :: t in tunnels && Live(users, t) && !Web(t) ==> exists k :: TaskRecord(before, db, k, t))
    && (forall k :: k in db.tasks.rows && "tc:" <= db.tasks.rows[k].remark ==>
          exists t :: t in tunnels && Live(users, t) && !Web(t) && db.tasks.rows[k].remark == "tc:" + t.id)
    && (forall j, k, remark :: HasRow(db.tasks, j, remark) && HasRow(db.tasks, k, remark) && "tc:" <= remark ==> j == k)
  }

  ghost predicate HostsRecorded(before: Nps, db: Nps, users: seq<User>, tunnels: seq<Tunnel>) {
    && (forall t, d :: t in tunnels && Live(users, t) && Web(t) && d in t.domains ==> exists k :: HostRecord(before, db, k, t, d))
    && (forall k :: k in db.hosts.rows && "tc:" <= db.hosts.rows[k].remark ==>
          exists t, d :: t in tunnels && Live(users, t) && Web(t) && d in t.domains
                         && db.hosts.rows[k].remark == "tc:" + t.id + ":" + d)
    && (forall j, k, remark :: HasRow(db.hosts, j, remark) && HasRow(db.hosts, k, remark) && "tc:" <= remark ==> j == k)
  }

  /** The tables hold the clients, tasks and hosts of the users and tunnels, and no other managed records. */
  ghost predicate Recorded(before: Nps, db: Nps, users: seq<User>, tunnels: seq<Tunnel>) {
    ClientsRecorded(db, users) && TasksRecorded(before, db, users, tunnels) && HostsRecorded(before, db, users, tunnels)
  }

  // ------------------------------------------------------------- the words

  lemma {:induction false} ItoaDigits(n: nat)
    ensures Digits(Itoa(n), n)
  {
    DecimalOfItoa(n);
    if n >= 10 {
      ItoaDigits(n / 10);
      assert Itoa(n / 10)[0] == Itoa(n)[0];
    }
  }

  lemma TargetIsAddress(t: Tunnel)
    ensures IsAddress(Target(t), t.localIp, t.localPort)
  {
    var n := t.localPort;
    ItoaDigits(if n < 0 then -n else n);
    assert n < 0 ==> FormatInt(n)[1..] == Itoa(-n);
    assert Target(t) == t.localIp + ":" + FormatInt(n) && Decimal(FormatInt(n), n);
  }

  lemma Int64Wraps(y: int)
    ensures Wrapped(Int64(y), y)
  {
    var m := 0x1_0000_0000_0000_0000;
    var h := 0x8000_0000_0000_0000;
    var q := (y + h) / m;
    assert y - Int64(y) == q * m;
    assert (q * m) % m == 0;
  }

  // --------------------------------------------------- rows that are written

  /** The record asked for is found alike in both tables. */
  ghost predicate SameLookup(a: Nps, b: Nps, w: Want) {
    match w
    case WantTask(_, _) => Lookup(a.tasks, Remark(w)) == Lookup(b.tasks, Remark(w))
    case WantHost(_, _, _) => Lookup(a.hosts, Remark(w)) == Lookup(b.hosts, Remark(w))
  }

  /** The row is the one there was, if there was one, with the body that the want gives it. */
  ghost predicate Written(before: Nps, db: Nps, w: Want) {
    match w
    case WantTask(t, c) =>
      && Lookup(db.tasks, Remark(w)).Some?
      && Lookup(db.tasks, Remark(w)).value.body == TaskFor(OldTask(before.tasks, Remark(w)), t, c)
      && (Lookup(before.tasks, Remark(w)).Some? ==> Lookup(db.tasks, Remark(w)).value.id == Lookup(before.tasks, Remark(w)).value.id)
    case WantHost(t, d, c) =>
      && Lookup(db.hosts, Remark(w)).Some?
      && Lookup(db.hosts, Remark(w)).value.body == HostFor(t, d, c)
      && (Lookup(before.hosts, Remark(w)).Some? ==> Lookup(db.hosts, Remark(w)).value.id == Lookup(before.hosts, Remark(w)).value.id)
  }

  lemma RemarkIsManaged(w: Want)
    ensures IsManaged(Remark(w))
  {
    ManagedRemarks(w.tunnel.id, if w.WantHost? then w.domain else "");
  }

  lemma PutIsWritten<T>(t: Table<T>, remark: string, body: T)
    requires TableOk(t) && IsManaged(remark)
    ensures var r := Lookup(Put(t, remark, body), remark);
      r.Some? && r.value.body == body && (Lookup(t, remark).Some? ==> r.value.id == Lookup(t, remark).value.id)
  {
    var id := PutRow(t, remark, body);
    PutKeeps(t, remark, body);
    LookupIs(Put(t, remark, body), id);
  }

  lemma WantIsWritten(before: Nps, db: Nps, w: Want)
    requires TableOk(db.tasks) && TableOk(db.hosts) && SameLookup(before, db, w) && SyncWant(db, w).1.None?
    ensures Written(before, SyncWant(db, w).0, w)
  {
    RemarkIsManaged(w);
    match w {
      case WantTask(t, c) => PutIsWritten(db.tasks, Remark(w), TaskFor(OldTask(db.tasks, Remark(w)), t, c));
      case WantHost(t, d, c) => PutIsWritten(db.hosts, Remark(w), HostFor(t, d, c));
    }
  }

  lemma OtherLookup(db: Nps, w: Want, v: Want)
    requires TableOk(db.tasks) && TableOk(db.hosts) && SyncWant(db, w).1.None? && !SameRecord(v, w)
    ensures SameLookup(db, SyncWant(db, w).0, v)
  {
    RemarkIsManaged(w);
    RemarkIsManaged(v);
    if w.WantTask? && v.WantTask? {
      PutOthers(db.tasks, Remark(w), TaskFor(OldTask(db.tasks, Remark(w)), w.tunnel, w.clientId), Remark(v));
    } else if w.WantHost? && v.WantHost? {
      PutOthers(db.hosts, Remark(w), HostFor(w.tunnel, w.domain, w.clientId), Remark(v));
    }
  }

  lemma {:induction false} OtherLookups(db: Nps, wants: seq<Want>, v: Want)
    requires TableOk(db.tasks) && TableOk(db.hosts) && SyncWants(db, wants).1.None?
    requires forall w :: w in wants ==> !SameRecord(v, w)
    ensures SameLookup(db, SyncWants(db, wants).0, v)
    decreases |wants|
  {
    if wants != [] {
      SyncWantTables(db, wants[0]);
      OtherLookup(db, wants[0], v);
      OtherLookups(SyncWant(db, wants[0]).0, wants[1..], v);
    }
  }

  lemma WrittenStays(before: Nps, a: Nps, b: Nps, w: Want)
    requires Written(before, a, w) && SameLookup(a, b, w)
    ensures Written(before, b, w)
  {
  }

  lemma FirstOrRest<T>(s: seq<T>, x: T)
    requires s != [] && x in s
    ensures x == s[0] || x in s[1..]
  {
    assert s == [s[0]] + s[1..];
  }

  /** Nothing in the table has been written for these wants yet. */
  ghost predicate Unwritten(before: Nps, db: Nps, wants: seq<Want>) {
    forall w :: w in wants ==> SameLookup(before, db, w)
  }

  lemma LookupChain(a: Nps, b: Nps, c: Nps, w: Want)
    requires SameLookup(a, b, w) && SameLookup(b, c, w)
    ensures SameLookup(a, c, w)
  {
  }

  lemma StillUnwritten(before: Nps, db: Nps, wants: seq<Want>)
    requires TableOk(db.tasks) && TableOk(db.hosts) && wants != [] && AllWantsOk(wants) && DistinctWants(wants)
    requires Unwritten(before, db, wants) && SyncWant(db, wants[0]).1.None?
    ensures Unwritten(before, SyncWant(db, wants[0]).0, wants[1..])
  {
    DistinctRest(wants);
    assert wants == [wants[0]] + wants[1..];
    forall w | w in wants[1..]
      ensures SameLookup(before, SyncWant(db, wants[0]).0, w)
    {
      OtherLookup(db, wants[0], w);
      assert SameLookup(before, db, w);
      LookupChain(before, db, SyncWant(db, wants[0]).0, w);
    }
  }

  /** After the tunnel loop each record asked for is the one there was, written once. */
  lemma {:induction false} WantsAreWritten(before: Nps, db: Nps, wants: seq<Want>, v: Want)
    requires TableOk(db.tasks) && TableOk(db.hosts) && AllWantsOk(wants) && DistinctWants(wants)
    requires SyncWants(db, wants).1.None? && Unwritten(before, db, wants) && v in wants
    ensures Written(before, SyncWants(db, wants).0, v)
    decreases |wants|
  {
    var db' := SyncWant(db, wants[0]).0;
    DistinctRest(wants);
    SyncWantTables(db, wants[0]);
    FirstOrRest(wants, v);
    if v == wants[0] {
      WantIsWritten(before, db, v);
      OtherLookups(db', wants[1..], v);
      WrittenStays(before, db', SyncWants(db, wants).0, v);
    } else {
      StillUnwritten(before, db, wants);
      WantsAreWritten(before, db', wants[1..], v);
    }
  }

  lemma LookupAfterPrune(db: Nps, names: set<string>, tasks: set<string>, hosts: set<string>, w: Want)
    requires NpsOk(db) && w.clientId !in UnwantedIds(db.clients.rows, names)
    requires if w.WantTask? then Remark(w) in tasks else Remark(w) in hosts
    requires match w
      case WantTask(_, c) => Lookup(db.tasks, Remark(w)).Some? && Lookup(db.tasks, Remark(w)).value.body.clientId == c
      case WantHost(_, _, c) => Lookup(db.hosts, Remark(w)).Some? && Lookup(db.hosts, Remark(w)).value.body.clientId == c
    ensures SameLookup(db, Prune(db, names, tasks, hosts), w)
  {
    var gone := UnwantedIds(db.clients.rows, names);
    RemarkIsManaged(w);
    if w.WantTask? {
      LookupFound(db.tasks, Remark(w));
      StillFound(db.tasks, WithoutTasksOf(PruneRows(db.tasks.rows, tasks), gone), Remark(w));
    } else {
      LookupFound(db.hosts, Remark(w));
      StillFound(db.hosts, WithoutHostsOf(PruneRows(db.hosts.rows, hosts), gone), Remark(w));
    }
  }

  /** And so it is when the synchronization is over. */
  lemma SyncIsWritten(db: Nps, users: seq<User>, tunnels: seq<Tunnel>)
    requires NpsOk(db) && UsersListed(users) && TunnelsListed(tunnels) && Sync(db, users, tunnels).1.None?
    ensures forall w :: w in Wants(Owners(db, users), tunnels) ==> Written(db, Sync(db, users, tunnels).0, w)
  {
    var owners := Owners(db, users);
    var wants := Wants(owners, tunnels);
    var here := db.(clients := SyncUsers(db.clients, map[], users).clients);
    var done := SyncWants(here, wants).0;
    SyncUsersOk(db.clients, map[], users);
    SyncUsersNames(db.clients, map[], users);
    SyncUsersDone(db.clients, map[], users);
    WantsDistinct(owners, tunnels);
    SyncWantsTables(here, wants);
    forall w | w in wants
      ensures WantOk(w)
    {
      WantClient(owners, tunnels, w);
    }
    forall w | w in wants
      ensures Written(db, Sync(db, users, tunnels).0, w)
    {
      WantsAreWritten(db, here, wants, w);
      WantClient(owners, tunnels, w);
      OwnersStay(done.clients, owners, users, w.tunnel.userName);
      RemarkListed(wants, w);
      LookupAfterPrune(done, owners.Keys, TaskRemarks(wants), HostRemarks(wants), w);
    }
  }

  // ------------------------------------------------------------- the proofs

  lemma EligibleExact(users: seq<User>, name: string)
    ensures Eligible(users, name) <==> name in DesiredNames(users)
  {
  }

  /** What is wanted of a live tunnel. */
  lemma {:induction false} TaskListed(owners: map<string, Id>, tunnels: seq<Tunnel>, t: Tunnel)
    requires t in tunnels && t.engine == ENGINE_NPS && t.enabled && t.userName in owners && !Web(t)
    ensures WantTask(t, owners[t.userName]) in Wants(owners, tunnels)
  {
    if t != tunnels[0] {
      TaskListed(owners, tunnels[1..], t);
    }
  }

  /** A want comes from a live tunnel of its kind. */
  lemma WantIsLive(owners: map<string, Id>, users: seq<User>, tunnels: seq<Tunnel>, w: Want)
    requires TunnelsListed(tunnels) && owners.Keys == DesiredNames(users) && w in Wants(owners, tunnels)
    ensures w.tunnel in tunnels && Live(users, w.tunnel) && (w.WantHost? <==> Web(w.tunnel))
    ensures w.WantHost? ==> w.domain in w.tunnel.domains
    ensures w.tunnel.userName in owners && w.clientId == owners[w.tunnel.userName]
  {
    var i := WantSource(owners, tunnels, w);
    WantClient(owners, tunnels, w);
    EligibleExact(users, w.tunnel.userName);
    WantKind(owners, tunnels[i], w);
  }

  lemma WantKind(owners: map<string, Id>, t: Tunnel, w: Want)
    requires w in WantsOf(owners, t)
    ensures t.enabled && t.engine == "nps" && (w.WantHost? <==> Web(t))
  {
    if Web(t) && t.userName in owners {
      HostWantsFacts(t, owners[t.userName], t.domains);
    }
  }

  lemma OwnerIsClient(db: Nps, owners: map<string, Id>, users: seq<User>, name: string)
    requires UsersListed(users) && AllServed(db.clients, owners, users) && owners.Keys == DesiredNames(users) && name in owners
    ensures ClientOf(db, owners[name], name)
  {
    var u :| u in users && Desired(u) && u.name == name;
  }

  lemma ClientIsRecorded(db: Nps, u: User, c: Id)
    requires ClientsOk(db.clients) && u.name != "" && Serving(db.clients, u, c)
    ensures ClientRecord(db, c, u)
  {
    Int64Wraps(u.rateLimit * 128);
    Int64Wraps(u.flowLimit * 1024 * 1024 * 1024);
    assert u.flowLimit * 1024 * 1024 * 1024 == u.flowLimit * 0x4000_0000;
    if ValidRanges(u.portPools) {
      ParseFormat(u.portPools);
      forall p
        ensures p in Ports(Format(u.portPools)) <==> PortInRanges(p, u.portPools)
      {
        NodeAgrees(u.portPools, p);
      }
    }
    forall k | k in db.clients.rows && k != c
      ensures !Named(db.clients.rows[k], u.name) && db.clients.rows[k].verifyKey != u.verifyKey
    {
      assert db.clients.rows[c].webUserName == u.name;
      assert !ShareName(db.clients.rows[c], db.clients.rows[k]);
    }
  }

  lemma ClientsAreRecorded(db: Nps, owners: map<string, Id>, users: seq<User>, tunnels: seq<Tunnel>)
    requires Converged(db, owners, users, tunnels) && UsersListed(users)
    ensures ClientsRecorded(db, users)
  {
    forall u | u in users && u.enabled && u.verifyKey != ""
      ensures exists c :: ClientRecord(db, c, u)
    {
      ClientIsRecorded(db, u, owners[u.name]);
    }
    forall c | c in db.clients.rows
      ensures NameOf(db.clients.rows[c]) != "" ==> Eligible(users, NameOf(db.clients.rows[c]))
    {
      assert !Unwanted(db.clients.rows[c], owners.Keys);
      EligibleExact(users, NameOf(db.clients.rows[c]));
    }
  }

  lemma TaskIsRecorded(before: Nps, db: Nps, owners: map<string, Id>, users: seq<User>, tunnels: seq<Tunnel>, t: Tunnel)
    requires NpsOk(before) && Converged(db, owners, users, tunnels) && UsersListed(users)
    requires t in tunnels && Live(users, t) && !Web(t)
    requires forall w :: w in Wants(owners, tunnels) ==> Written(before, db, w)
    ensures exists k :: TaskRecord(before, db, k, t)
  {
    EligibleExact(users, t.userName);
    TaskListed(owners, tunnels, t);
    var w := WantTask(t, owners[t.userName]);
    var remark := Remark(w);
    assert Written(before, db, w);
    RemarkIsManaged(w);
    LookupFound(db.tasks, remark);
    var k := Lookup(db.tasks, remark).value.id;
    OwnerIsClient(db, owners, users, t.userName);
    TargetIsAddress(t);
    forall j | HasRow(before.tasks, j, remark)
      ensures Lookup(before.tasks, remark) == Some(before.tasks.rows[j])
    {
      LookupIs(before.tasks, j);
    }
    if Lookup(before.tasks, remark).Some? {
      LookupFound(before.tasks, remark);
      assert HasRow(before.tasks, Lookup(before.tasks, remark).value.id, remark);
    }
    assert TaskRecord(before, db, k, t);
  }

  lemma HostIsRecorded(before: Nps, db: Nps, owners: map<string, Id>, users: seq<User>, tunnels: seq<Tunnel>, t: Tunnel, d: string)
    requires NpsOk(before) && Converged(db, owners, users, tunnels) && UsersListed(users)
    requires t in tunnels && Live(users, t) && Web(t) && d in t.domains
    requires forall w :: w in Wants(owners, tunnels) ==> Written(before, db, w)
    ensures exists k :: HostRecord(before, db, k, t, d)
  {
    EligibleExact(users, t.userName);
    WantListed(owners, tunnels, t, d);
    var w := WantHost(t, d, owners[t.userName]);
    var remark := Remark(w);
    assert remark == "tc:" + t.id + ":" + d;
    assert Written(before, db, w) && Satisfied(db, w);
    RemarkIsManaged(w);
    LookupFound(db.hosts, remark);
    var k := Lookup(db.hosts, remark).value.id;
    OwnerIsClient(db, owners, users, t.userName);
    TargetIsAddress(t);
    forall j | HasRow(before.hosts, j, remark)
      ensures Lookup(before.hosts, remark) == Some(before.hosts.rows[j])
    {
      LookupIs(before.hosts, j);
    }
    forall j | j in db.hosts.rows && j != k && db.hosts.rows[j].remark != remark
      ensures !Serves(db.hosts.rows[j], d, t.mode, remark)
    {
    }
    assert HostRecord(before, db, k, t, d);
  }

  lemma TaskIsAsked(db: Nps, owners: map<string, Id>, users: seq<User>, tunnels: seq<Tunnel>, k: Id)
    requires Converged(db, owners, users, tunnels) && TunnelsListed(tunnels)
    requires k in db.tasks.rows && "tc:" <= db.tasks.rows[k].remark
    ensures exists t :: t in tunnels && Live(users, t) && !Web(t) && db.tasks.rows[k].remark == "tc:" + t.id
  {
    var wants := Wants(owners, tunnels);
    assert !Stale(db.tasks.rows[k], TaskRemarks(wants));
    var i :| 0 <= i < |wants| && wants[i].WantTask? && Remark(wants[i]) == db.tasks.rows[k].remark;
    WantIsLive(owners, users, tunnels, wants[i]);
  }

  lemma HostIsAsked(db: Nps, owners: map<string, Id>, users: seq<User>, tunnels: seq<Tunnel>, k: Id)
    requires Converged(db, owners, users, tunnels) && TunnelsListed(tunnels)
    requires k in db.hosts.rows && "tc:" <= db.hosts.rows[k].remark
    ensures exists t, d :: t in tunnels && Live(users, t) && Web(t) && d in t.domains
                           && db.hosts.rows[k].remark == "tc:" + t.id + ":" + d
  {
    var wants := Wants(owners, tunnels);
    assert !Stale(db.hosts.rows[k], HostRemarks(wants));
    var i :| 0 <= i < |wants| && wants[i].WantHost? && Remark(wants[i]) == db.hosts.rows[k].remark;
    WantIsLive(owners, users, tunnels, wants[i]);
    assert db.hosts.rows[k].remark == "tc:" + wants[i].tunnel.id + ":" + wants[i].domain;
  }

  lemma RecordsAreThere(before: Nps, db: Nps, owners: map<string, Id>, users: seq<User>, tunnels: seq<Tunnel>)
    requires NpsOk(before) && Converged(db, owners, users, tunnels) && UsersListed(users) && TunnelsListed(tunnels)
    requires forall w :: w in Wants(owners, tunnels) ==> Written(before, db, w)
    ensures TasksRecorded(before, db, users, tunnels) && HostsRecorded(before, db, users, tunnels)
  {
    forall t | t in tunnels && Live(users, t) && !Web(t)
      ensures exists k :: TaskRecord(before, db, k, t)
    {
      TaskIsRecorded(before, db, owners, users, tunnels, t);
    }
    forall t, d | t in tunnels && Live(users, t) && Web(t) && d in t.domains
      ensures exists k :: HostRecord(before, db, k, t, d)
    {
      HostIsRecorded(before, db, owners, users, tunnels, t, d);
    }
    forall k | k in db.tasks.rows && "tc:" <= db.tasks.rows[k].remark
      ensures exists t :: t in tunnels && Live(users, t) && !Web(t) && db.tasks.rows[k].remark == "tc:" + t.id
    {
      TaskIsAsked(db, owners, users, tunnels, k);
    }
    forall k | k in db.hosts.rows && "tc:" <= db.hosts.rows[k].remark
      ensures exists t, d :: t in tunnels && Live(users, t) && Web(t) && d in t.domains
                             && db.hosts.rows[k].remark == "tc:" + t.id + ":" + d
    {
      HostIsAsked(db, owners, users, tunnels, k);
    }
  }

  /** A synchronization that succeeds leaves exactly the records of the users and tunnels it was given. */
  lemma SyncRecords(db: Nps, users: seq<User>, tunnels: seq<Tunnel>)
    requires NpsOk(db) && UsersListed(users) && TunnelsListed(tunnels) && Sync(db, users, tunnels).1.None?
    ensures Recorded(db, Sync(db, users, tunnels).0, users, tunnels)
  {
    var owners, db' := Owners(db, users), Sync(db, users, tunnels).0;
    SyncConverges(db, users, tunnels);
    SyncIsWritten(db, users, tunnels);
    ClientsAreRecorded(db', owners, users, tunnels);
    RecordsAreThere(db, db', owners, users, tunnels);
  }

  /** No row is managed for a tunnel that is not live. */
  lemma OthersHaveNone(before: Nps, db: Nps, users: seq<User>, tunnels: seq<Tunnel>, t: Tunnel, k: Id)
    requires Recorded(before, db, users, tunnels) && TunnelsListed(tunnels) && t in tunnels && !Live(users, t)
    ensures !HasRow(db.tasks, k, "tc:" + t.id)
    ensures forall d :: ':' !in d ==> !HasRow(db.hosts, k, "tc:" + t.id + ":" + d)
  {
    if HasRow(db.tasks, k, "tc:" + t.id) {
      ManagedRemarks(t.id, "");
      var s :| s in tunnels && Live(users, s) && !Web(s) && db.tasks.rows[k].remark == "tc:" + s.id;
      TaskRemarkInjective(s.id, t.id);
      assert false;
    }
    forall d | ':' !in d && HasRow(db.hosts, k, "tc:" + t.id + ":" + d)
      ensures false
    {
      ManagedRemarks(t.id, d);
      var s, e :| s in tunnels && Live(users, s) && Web(s) && e in s.domains && db.hosts.rows[k].remark == "tc:" + s.id + ":" + e;
      var i :| 0 <= i < |s.domains| && s.domains[i] == e;
      NoColons(s.domains, i);
      HostRemarkInjective(s.id, e, t.id, d);
    }
  }
}
