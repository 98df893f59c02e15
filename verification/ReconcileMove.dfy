/**
A run in which synchronization stops working for good: between two of them the only
tunnel of a user is deleted and another one is created for the same domain.
*/
module ReconcileMove {
  import opened Text
  import opened Domains
  import opened Registry
  import opened RegistrySafety
  import opened RegistryExact
  import opened Reconcile
  import opened ReconcileWants
  import opened ReconcileExact

  const NOW: Time := 1

  /** The user, who may serve the domain `d`. */
  function Ann(d: string): User { User("ann", ROLE_USER, true, [], [d], 0, "k", 0, 0, 0, 0) }

  /** Her tunnel for that domain. */
  function Web(id: string, d: string): Tunnel {
    Tunnel(id, "ann", DEFAULT_NODE, ENGINE_NPS, "http", 0, "127.0.0.1", 80, [d], true, NOW, NOW)
  }

  function WithAnn(d: string): Db { Db(map["ann" := Ann(d)], FreshDb().nodes, map[]) }

  function WithWeb(id: string, d: string): Db { WithAnn(d).(tunnels := map[id := Web(id, d)]) }

  /** The tables of a node that has never been synchronized. */
  const NO_ROWS := Nps(Clients(map[], 0), Table(map[], 0), Table(map[], 0))

  // ------------------------------------------------------------ the registry

  /** A domain tunnel in normal form is left as it is. */
  lemma PreparedAsGiven(t: Tunnel)
    requires t.nodeId != "" && Clean(t.nodeId) && Clean(t.mode) && Clean(t.engine) && t.localIp != ""
    requires IsDomainMode(t.mode) && t.remotePort == 0 && DomainsOk(t.domains)
    ensures Prepare(t) == Done(t)
  {
    LowerClean(t.nodeId);
    LowerClean(t.mode);
    LowerClean(t.engine);
    NormalizedAgain(t.domains);
  }

  lemma WebIsPrepared(id: string, d: string)
    requires DomainsOk([d])
    ensures Prepare(Web(id, d)) == Done(Web(id, d))
  {
    PreparedAsGiven(Web(id, d));
  }

  /** A new user without an expiry, with its own key and a normalized pool, is stored as it is. */
  lemma StoredAsGiven(db: Db, u: User, now: Time, key: string)
    requires u.name != "" && u.name !in db.users && u.role == ROLE_USER && u.verifyKey != ""
    requires u.expiresAt == 0 && u.expiredAt == 0 && NormalizeFrom(u.domainPools, []) == Ok(u.domainPools)
    ensures UpsertUser(db, u, now, key) == Done(db.(users := db.users[u.name := u]))
  {
  }

  lemma AnnIsStored(d: string)
    requires DomainsOk([d])
    ensures Apply(FreshDb(), PutUser(Ann(d), "x"), NOW) == WithAnn(d)
  {
    NormalizedAgain([d]);
    StoredAsGiven(FreshDb(), Ann(d), NOW, "x");
  }

  lemma WithAnnIsSound(d: string)
    requires DomainsOk([d])
    ensures RegistryOk(WithAnn(d))
  {
    RegistryInvariant([]);
    OpKeeps(FreshDb(), PutUser(Ann(d), "x"), NOW);
    AnnIsStored(d);
  }

  /** A pool that is not a wildcard covers itself, and a wildcard lies below itself. */
  lemma OwnPool(d: string)
    ensures Granted(d, [d])
  {
    if HasPrefix(d, "*.") {
      StarIsBelow(d);
    }
    assert d in [d] && Covers(d, d);
  }

  lemma WebIsAdmissible(id: string, d: string)
    ensures Admissible(WithAnn(d), Web(id, d), "")
  {
    OwnPool(d);
  }

  lemma WebIsCreated(id: string, d: string)
    requires DomainsOk([d]) && id != ""
    ensures Apply(WithAnn(d), Create(Web(id, d), "r"), NOW) == WithWeb(id, d)
  {
    WebIsPrepared(id, d);
    WithAnnIsSound(d);
    WebIsAdmissible(id, d);
    ValidateExact(WithAnn(d), Web(id, d), "");
  }

  lemma WebIsDeleted(id: string, d: string)
    requires id != ""
    ensures Apply(WithWeb(id, d), Remove(id), NOW) == WithAnn(d)
  {
  }

  lemma WebIsSound(id: string, d: string)
    requires DomainsOk([d]) && id != ""
    ensures RegistryOk(WithWeb(id, d))
  {
    WithAnnIsSound(d);
    WebIsCreated(id, d);
    OpKeeps(WithAnn(d), Create(Web(id, d), "r"), NOW);
  }

  // -------------------------------------------------------------- the tables

  /** With empty tables and one user nothing is in the way. */
  lemma EmptyTablesSync(reg: Db, db: Nps, u: User, tunnels: seq<Tunnel>)
    requires RegistryOk(reg) && Listed(reg, tunnels) && TunnelsListed(tunnels) && u.name != ""
    requires db.clients.rows == map[] && db.tasks.rows == map[] && db.hosts.rows == map[]
    ensures Sync(db, [u], tunnels).1.None?
  {
    SyncExact(reg, db, [u], tunnels);
  }

  lemma FirstSyncWorks(id: string, d: string)
    requires DomainsOk([d]) && id != ""
    ensures Sync(NO_ROWS, [Ann(d)], [Web(id, d)]).1.None?
  {
    WebIsSound(id, d);
    OneTunnelListed(Web(id, d), d);
    EmptyTablesSync(WithWeb(id, d), NO_ROWS, Ann(d), [Web(id, d)]);
  }

  lemma NextSyncFails(a: string, b: string, d: string, n: nat)
    requires DomainsOk([d]) && a != "" && b != "" && a != b
    ensures var synced := Sync(NO_ROWS, [Ann(d)], [Web(a, d)]).0;
      Sync(SyncTimes(synced, [Ann(d)], [Web(b, d)], n), [Ann(d)], [Web(b, d)]).1.Some?
  {
    FirstSyncWorks(a, d);
    MovedDomainBlocksForever(NO_ROWS, Ann(d), Web(a, d), Web(b, d), d, n);
  }

  // ----------------------------------------------------------------- the run

  lemma RunTwo(db: Db, one: Call, two: Call)
    ensures Run(db, [one, two]) == Apply(Apply(db, one.op, one.now), two.op, two.now)
  {
    assert [one, two][1..] == [two];
    assert [two][1..] == [];
    assert Run(Apply(db, one.op, one.now), [two]) == Apply(Apply(db, one.op, one.now), two.op, two.now);
  }

  lemma SetUp(id: string, d: string)
    requires DomainsOk([d]) && id != ""
    ensures Run(FreshDb(), [Call(PutUser(Ann(d), "x"), NOW), Call(Create(Web(id, d), "r"), NOW)]) == WithWeb(id, d)
  {
    AnnIsStored(d);
    WebIsCreated(id, d);
    RunTwo(FreshDb(), Call(PutUser(Ann(d), "x"), NOW), Call(Create(Web(id, d), "r"), NOW));
  }

  lemma Move(a: string, b: string, d: string)
    requires DomainsOk([d]) && a != "" && b != ""
    ensures Run(WithWeb(a, d), [Call(Remove(a), NOW), Call(Create(Web(b, d), "r"), NOW)]) == WithWeb(b, d)
  {
    WebIsDeleted(a, d);
    WebIsCreated(b, d);
    RunTwo(WithWeb(a, d), Call(Remove(a), NOW), Call(Create(Web(b, d), "r"), NOW));
  }

  /**
  From an empty registry and empty tables, for every domain that the registry accepts: the
  first synchronization succeeds, the move is a run of two accepted operations, and then no
  number of repetitions makes the next one succeed.
  */
  lemma MovedDomainRun(a: string, b: string, d: string, n: nat)
    requires DomainsOk([d]) && a != "" && b != "" && a != b
    ensures Run(FreshDb(), [Call(PutUser(Ann(d), "x"), NOW), Call(Create(Web(a, d), "r"), NOW)]) == WithWeb(a, d)
    ensures Sync(NO_ROWS, [Ann(d)], [Web(a, d)]).1.None?
    ensures Run(WithWeb(a, d), [Call(Remove(a), NOW), Call(Create(Web(b, d), "r"), NOW)]) == WithWeb(b, d)
    ensures var synced := Sync(NO_ROWS, [Ann(d)], [Web(a, d)]).0;
      Sync(SyncTimes(synced, [Ann(d)], [Web(b, d)], n), [Ann(d)], [Web(b, d)]).1.Some?
  {
    SetUp(a, d);
    FirstSyncWorks(a, d);
    Move(a, b, d);
    NextSyncFails(a, b, d, n);
  }

  lemma ExampleSplits(d: string)
    requires d == "a.b"
    ensures Split(d, '.') == ["a", "b"]
  {
    var parts := ["a", "b"];
    assert parts[1..] == ["b"];
    assert Join(["b"], '.') == "b";
    assert Join(parts, '.') == d;
    SplitJoin(parts, '.');
  }

  /** There are such domains. Stated of a variable, so that the solver does not normalize the literal. */
  lemma ExampleDomain(d: string)
    requires d == "a.b"
    ensures DomainsOk([d])
  {
    ExampleSplits(d);
    assert ValidLabel("a") && ValidLabel("b");
    assert ValidDomain(d);
    assert !HasPrefix(d, "*.");
    ValidIsClean(d);
    StrippedClean(d);
  }

  /** The run with every value written out: tunnel "a" and then tunnel "b" for the domain "a.b". */
  lemma MovedDomainExample(d: string, n: nat)
    requires d == "a.b"
    ensures Run(FreshDb(), [Call(PutUser(Ann(d), "x"), NOW), Call(Create(Web("a", d), "r"), NOW)]) == WithWeb("a", d)
    ensures Sync(NO_ROWS, [Ann(d)], [Web("a", d)]).1.None?
    ensures Run(WithWeb("a", d), [Call(Remove("a"), NOW), Call(Create(Web("b", d), "r"), NOW)]) == WithWeb("b", d)
    ensures var synced := Sync(NO_ROWS, [Ann(d)], [Web("a", d)]).0;
      Sync(SyncTimes(synced, [Ann(d)], [Web("b", d)], n), [Ann(d)], [Web("b", d)]).1.Some?
  {
    ExampleDomain(d);
    MovedDomainRun("a", "b", d, n);
  }
}
