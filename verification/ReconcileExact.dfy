/** Exactly when a synchronization succeeds, and why one after every registry operation does. */
module ReconcileExact {
  import opened Domains
  import opened Registry
  import opened RegistrySafety
  import opened Reconcile
  import opened ReconcileTables
  import opened ReconcileWants
  import opened ReconcileSafety
  import opened ReconcileStability

  // ------------------------------------------------------------ tunnel phase

  predicate Blocks(row: Row<Host>, w: Want) {
    w.WantHost? && Serves(row, w.domain, w.tunnel.mode, Remark(w))
  }

  /** Every row in the way of a wanted host is itself wanted, and written earlier. */
  ghost predicate HostsFree(rows: map<Id, Row<Host>>, wants: seq<Want>) {
    forall i, k :: 0 <= i < |wants| && k in rows && Blocks(rows[k], wants[i]) ==> rows[k].remark in HostRemarks(wants[..i])
  }

  /** No two wanted hosts are for the same domain in the same mode. */
  predicate DistinctServices(wants: seq<Want>) {
    forall i, j :: 0 <= i < j < |wants| && wants[i].WantHost? && wants[j].WantHost? ==>
      wants[i].domain != wants[j].domain || wants[i].tunnel.mode != wants[j].tunnel.mode
  }

  lemma HostRemarksStep(wants: seq<Want>)
    requires wants != []
    ensures HostRemarks(wants) == (if wants[0].WantHost? then {Remark(wants[0])} else {}) + HostRemarks(wants[1..])
  {
    assert wants == [wants[0]] + wants[1..];
    forall r | r in HostRemarks(wants[1..])
      ensures r in HostRemarks(wants)
    {
      var i :| 0 <= i < |wants[1..]| && wants[1..][i].WantHost? && Remark(wants[1..][i]) == r;
      assert wants[i + 1] == wants[1..][i];
    }
  }

  /** What may be written before the want `i`. */
  lemma EarlierRemarks(wants: seq<Want>, i: nat)
    requires 0 < i <= |wants|
    ensures HostRemarks(wants[..i]) == (if wants[0].WantHost? then {Remark(wants[0])} else {}) + HostRemarks(wants[1..][..i - 1])
  {
    HostRemarksStep(wants[..i]);
    assert wants[..i][1..] == wants[1..][..i - 1];
  }

  lemma FreeAfterTask(rows: map<Id, Row<Host>>, wants: seq<Want>)
    requires wants != [] && wants[0].WantTask?
    ensures HostsFree(rows, wants) <==> HostsFree(rows, wants[1..])
  {
    forall i | 0 <= i < |wants[1..]|
      ensures wants[1..][i] == wants[i + 1] && HostRemarks(wants[1..][..i]) == HostRemarks(wants[..i + 1])
    {
      EarlierRemarks(wants, i + 1);
    }
  }

  /** A row just written for one want is not in the way of a later one. */
  lemma WrittenDoesNotBlock(wants: seq<Want>, i: nat, row: Row<Host>)
    requires 0 < i < |wants| && DistinctServices(wants) && wants[0].WantHost? && WantOk(wants[0])
    requires row.body == HostFor(wants[0].tunnel, wants[0].domain, wants[0].clientId)
    ensures !Blocks(row, wants[i])
  {
    SchemeOfHost(wants[0].tunnel.mode);
  }

  /** The rows `rows'` are `rows` with the row `id` written for the first want. */
  ghost predicate WrittenFirst(rows: map<Id, Row<Host>>, rows': map<Id, Row<Host>>, id: Id, wants: seq<Want>) {
    && wants != [] && wants[0].WantHost? && WantOk(wants[0])
    && rows' == rows[id := Row(id, Remark(wants[0]), HostFor(wants[0].tunnel, wants[0].domain, wants[0].clientId))]
    && (forall k :: k in rows ==> (rows[k].remark == Remark(wants[0]) <==> k == id))
  }

  lemma FreeForward(rows: map<Id, Row<Host>>, rows': map<Id, Row<Host>>, id: Id, wants: seq<Want>, i: nat, k: Id)
    requires WrittenFirst(rows, rows', id, wants) && DistinctServices(wants) && HostsFree(rows, wants)
    requires 0 < i < |wants| && k in rows' && Blocks(rows'[k], wants[i])
    ensures rows'[k].remark in HostRemarks(wants[1..][..i - 1])
  {
    EarlierRemarks(wants, i);
    if k == id {
      WrittenDoesNotBlock(wants, i, rows'[id]);
    } else {
      assert Blocks(rows[k], wants[i]);
    }
  }

  lemma FreeBackward(rows: map<Id, Row<Host>>, rows': map<Id, Row<Host>>, id: Id, wants: seq<Want>, i: nat, k: Id)
    requires WrittenFirst(rows, rows', id, wants) && HostsFree(rows', wants[1..])
    requires 0 < i < |wants| && k in rows && Blocks(rows[k], wants[i])
    ensures rows[k].remark in HostRemarks(wants[..i])
  {
    EarlierRemarks(wants, i);
    if k != id {
      assert wants[i] == wants[1..][i - 1];
      assert Blocks(rows'[k], wants[1..][i - 1]);
    }
  }

  lemma FreeAfterWrite(rows: map<Id, Row<Host>>, rows': map<Id, Row<Host>>, id: Id, wants: seq<Want>)
    requires WrittenFirst(rows, rows', id, wants) && DistinctServices(wants)
    requires !HostConflict(rows, wants[0].domain, wants[0].tunnel.mode, Remark(wants[0]))
    ensures HostsFree(rows, wants) <==> HostsFree(rows', wants[1..])
  {
    if HostsFree(rows, wants) {
      FreeIsPassedOn(rows, rows', id, wants);
    }
    if HostsFree(rows', wants[1..]) {
      forall i, k | 0 <= i < |wants| && k in rows && Blocks(rows[k], wants[i])
        ensures rows[k].remark in HostRemarks(wants[..i])
      {
        if i > 0 {
          FreeBackward(rows, rows', id, wants, i, k);
        }
      }
    }
  }

  lemma FreeIsPassedOn(rows: map<Id, Row<Host>>, rows': map<Id, Row<Host>>, id: Id, wants: seq<Want>)
    requires WrittenFirst(rows, rows', id, wants) && DistinctServices(wants) && HostsFree(rows, wants)
    ensures HostsFree(rows', wants[1..])
  {
    forall i, k | 0 <= i < |wants[1..]| && k in rows' && Blocks(rows'[k], wants[1..][i])
      ensures rows'[k].remark in HostRemarks(wants[1..][..i])
    {
      assert wants[1..][i] == wants[i + 1];
      FreeForward(rows, rows', id, wants, i + 1, k);
    }
  }

  lemma FreeAfterHost(hs: Table<Host>, wants: seq<Want>)
    requires TableOk(hs) && wants != [] && DistinctServices(wants) && wants[0].WantHost? && WantOk(wants[0])
    requires !HostConflict(hs.rows, wants[0].domain, wants[0].tunnel.mode, Remark(wants[0]))
    ensures var hs' := Put(hs, Remark(wants[0]), HostFor(wants[0].tunnel, wants[0].domain, wants[0].clientId));
      HostsFree(hs.rows, wants) <==> HostsFree(hs'.rows, wants[1..])
  {
    var w := wants[0];
    var body := HostFor(w.tunnel, w.domain, w.clientId);
    var id := PutRow(hs, Remark(w), body);
    ManagedRemarks(w.tunnel.id, w.domain);
    forall k | k in hs.rows && hs.rows[k].remark == Remark(w)
      ensures k == id
    {
      LookupIs(hs, k);
    }
    FreeAfterWrite(hs.rows, Put(hs, Remark(w), body).rows, id, wants);
  }

  lemma BlockedAtOnce(rows: map<Id, Row<Host>>, wants: seq<Want>)
    requires wants != [] && wants[0].WantHost? && HostConflict(rows, wants[0].domain, wants[0].tunnel.mode, Remark(wants[0]))
    ensures !HostsFree(rows, wants)
  {
    var k :| k in rows && Serves(rows[k], wants[0].domain, wants[0].tunnel.mode, Remark(wants[0]));
    assert Blocks(rows[k], wants[0]);
    assert HostRemarks(wants[..0]) == {};
  }

  /** The tunnel phase succeeds exactly when the hosts asked for are free in the table it starts from. */
  lemma {:induction false} TunnelPhaseExact(db: Nps, wants: seq<Want>)
    requires TableOk(db.tasks) && TableOk(db.hosts) && AllWantsOk(wants) && DistinctServices(wants)
    ensures SyncWants(db, wants).1.None? <==> HostsFree(db.hosts.rows, wants)
    decreases |wants|
  {
    if wants != [] {
      var w := wants[0];
      SyncWantTables(db, w);
      assert DistinctServices(wants[1..]);
      if w.WantTask? {
        FreeAfterTask(db.hosts.rows, wants);
        TunnelPhaseExact(SyncWant(db, w).0, wants[1..]);
      } else if HostConflict(db.hosts.rows, w.domain, w.tunnel.mode, Remark(w)) {
        BlockedAtOnce(db.hosts.rows, wants);
      } else {
        FreeAfterHost(db.hosts, wants);
        TunnelPhaseExact(SyncWant(db, w).0, wants[1..]);
      }
    }
  }

  // -------------------------------------------------------------- user phase

  predicate TakesKey(c: Client, u: User) { Desired(u) && c.verifyKey == u.verifyKey }

  /** One of the users that are synchronized before `i` or at `i` takes this client over. */
  predicate ClaimedBy(c: Client, users: seq<User>, i: nat)
    requires i < |users|
  {
    exists j :: 0 <= j <= i && Desired(users[j]) && Named(c, users[j].name)
  }

  /** No two users share a key, and the key of a user is at no client that is still someone else's. */
  ghost predicate KeysFree(rows: map<Id, Client>, users: seq<User>) {
    && (forall i, j :: 0 <= j < i < |users| && Desired(users[i]) && Desired(users[j]) ==>
          users[i].verifyKey != users[j].verifyKey)
    && (forall i, k :: 0 <= i < |users| && k in rows && TakesKey(rows[k], users[i]) ==> ClaimedBy(rows[k], users, i))
  }

  lemma ClaimedStep(c: Client, users: seq<User>, i: nat)
    requires 0 < i < |users|
    ensures ClaimedBy(c, users, i) <==> (Desired(users[0]) && Named(c, users[0].name)) || ClaimedBy(c, users[1..], i - 1)
  {
    if ClaimedBy(c, users[1..], i - 1) {
      var j :| 0 <= j <= i - 1 && Desired(users[1..][j]) && Named(c, users[1..][j].name);
      assert users[j + 1] == users[1..][j];
    }
    if ClaimedBy(c, users, i) && !(Desired(users[0]) && Named(c, users[0].name)) {
      var j :| 0 <= j <= i && Desired(users[j]) && Named(c, users[j].name);
      assert users[1..][j - 1] == users[j];
    }
  }

  lemma KeysSkip(rows: map<Id, Client>, users: seq<User>)
    requires users != [] && !Desired(users[0])
    ensures KeysFree(rows, users) <==> KeysFree(rows, users[1..])
  {
    forall i, k | 0 < i < |users| && k in rows
      ensures ClaimedBy(rows[k], users, i) <==> ClaimedBy(rows[k], users[1..], i - 1)
    {
      ClaimedStep(rows[k], users, i);
    }
    if KeysFree(rows, users[1..]) {
      forall i, j | 0 <= j < i < |users| && Desired(users[i]) && Desired(users[j])
        ensures users[i].verifyKey != users[j].verifyKey
      {
        assert users[1..][i - 1] == users[i] && users[1..][j - 1] == users[j];
      }
      forall i, k | 0 <= i < |users| && k in rows && TakesKey(rows[k], users[i])
        ensures ClaimedBy(rows[k], users, i)
      {
        assert users[1..][i - 1] == users[i];
      }
    }
    if KeysFree(rows, users) {
      forall i, k | 0 <= i < |users[1..]| && k in rows && TakesKey(rows[k], users[1..][i])
        ensures ClaimedBy(rows[k], users[1..], i)
      {
        assert users[1..][i] == users[i + 1];
      }
    }
  }

  /** The first user fails exactly when a client of another name has its key. */
  lemma FirstUserExact(cs: Clients, u: User)
    requires ClientsOk(cs) && u.name != "" && Desired(u)
    ensures SyncUser(cs, u).1.None? <==> forall k :: k in cs.rows && TakesKey(cs.rows[k], u) ==> Named(cs.rows[k], u.name)
  {
    var id, rows := UserRow(cs, u);
    NoOtherNamed(cs, u, id);
    SyncUserOk(cs, u);
    var here := InPlace(cs, u).rows;
    assert forall k :: k in here && k != id ==> k in cs.rows && here[k] == cs.rows[k];
    assert forall k :: k in cs.rows && k != id ==> k in here;
  }

  lemma KeysForward(cs: Clients, users: seq<User>)
    requires ClientsOk(cs) && UsersListed(users) && users != [] && Desired(users[0]) && SyncUser(cs, users[0]).1.None?
    requires KeysFree(cs.rows, users)
    ensures KeysFree(SyncUser(cs, users[0]).0.rows, users[1..])
  {
    var u := users[0];
    var id, rows := UserRow(cs, u);
    SyncUserOk(cs, u);
    NoOtherNamed(cs, u, id);
    forall i, k | 0 <= i < |users[1..]| && k in rows && TakesKey(rows[k], users[1..][i])
      ensures ClaimedBy(rows[k], users[1..], i)
    {
      assert users[1..][i] == users[i + 1];
      assert k != id;
      ClaimedStep(rows[k], users, i + 1);
    }
  }

  lemma KeysBackward(cs: Clients, users: seq<User>)
    requires ClientsOk(cs) && UsersListed(users) && users != [] && Desired(users[0]) && SyncUser(cs, users[0]).1.None?
    requires KeysFree(SyncUser(cs, users[0]).0.rows, users[1..])
    ensures KeysFree(cs.rows, users)
  {
    var u := users[0];
    var id, rows := UserRow(cs, u);
    SyncUserOk(cs, u);
    FirstUserExact(cs, u);
    forall i | 0 < i < |users| && Desired(users[i])
      ensures users[i].verifyKey != u.verifyKey
    {
      OtherKey(rows, users, id, i);
    }
    forall i, j | 0 < j < i < |users| && Desired(users[i]) && Desired(users[j])
      ensures users[i].verifyKey != users[j].verifyKey
    {
      assert users[1..][i - 1] == users[i] && users[1..][j - 1] == users[j];
    }
    forall i, k | 0 <= i < |users| && k in cs.rows && TakesKey(cs.rows[k], users[i])
      ensures ClaimedBy(cs.rows[k], users, i)
    {
      if i == 0 {
        assert Named(cs.rows[k], users[0].name);
      } else {
        ClaimedStep(cs.rows[k], users, i);
        assert users[1..][i - 1] == users[i];
        if k != id {
          assert rows[k] == cs.rows[k];
        }
      }
    }
  }

  /** The client just written keeps its key from all later users. */
  lemma OtherKey(rows: map<Id, Client>, users: seq<User>, id: Id, i: nat)
    requires UsersListed(users) && 0 < i < |users| && Desired(users[i]) && id in rows
    requires rows[id].webUserName == users[0].name && rows[id].remark == users[0].name && rows[id].verifyKey == users[0].verifyKey
    requires KeysFree(rows, users[1..])
    ensures users[i].verifyKey != users[0].verifyKey
  {
    assert users[1..][i - 1] == users[i];
    assert !ClaimedBy(rows[id], users[1..], i - 1);
  }

  /** The user phase succeeds exactly when the keys are free. */
  lemma {:induction false} UserPhaseExact(cs: Clients, owners: map<string, Id>, users: seq<User>)
    requires ClientsOk(cs) && UsersListed(users)
    ensures SyncUsers(cs, owners, users).error.None? <==> KeysFree(cs.rows, users)
    decreases |users|
  {
    if users != [] {
      var u := users[0];
      if !Desired(u) {
        KeysSkip(cs.rows, users);
        UserPhaseExact(cs, owners, users[1..]);
      } else {
        FirstUserExact(cs, u);
        SyncUserOk(cs, u);
        if SyncUser(cs, u).1.None? {
          UserPhaseExact(SyncUser(cs, u).0, owners[u.name := ClientIdOf(cs, u)], users[1..]);
          if KeysFree(cs.rows, users) {
            KeysForward(cs, users);
          } else if KeysFree(SyncUser(cs, u).0.rows, users[1..]) {
            KeysBackward(cs, users);
          }
        } else {
          FirstKeyTaken(cs.rows, users);
        }
      }
    }
  }

  lemma FirstKeyTaken(rows: map<Id, Client>, users: seq<User>)
    requires users != [] && exists k :: k in rows && TakesKey(rows[k], users[0]) && !Named(rows[k], users[0].name)
    ensures !KeysFree(rows, users)
  {
    var k :| k in rows && TakesKey(rows[k], users[0]) && !Named(rows[k], users[0].name);
    assert !ClaimedBy(rows[k], users, 0);
  }

  // ------------------------------------------------ one change, one synchronization

  /** Tunnels of the registry, as they are. */
  predicate Listed(reg: Db, tunnels: seq<Tunnel>) {
    forall t :: t in tunnels ==> t.id in reg.tunnels && reg.tunnels[t.id] == t
  }

  /** Of two differently named tunnels, one before and one after, both were there at one of the two times. */
  ghost predicate Coexist(before: map<string, Tunnel>, after: map<string, Tunnel>) {
    forall j, k :: j in before && k in after && j != k ==>
      (j in after && after[j] == before[j]) || (k in before && before[k] == after[k])
  }

  lemma CreateCoexists(db: Db, input: Tunnel, random: string, now: Time)
    ensures Coexist(db.tunnels, Apply(db, Create(input, random), now).tunnels)
  {
  }

  lemma UpdateCoexists(db: Db, id: string, input: Tunnel, now: Time)
    ensures Coexist(db.tunnels, Apply(db, Update(id, input), now).tunnels)
  {
  }

  /** A registry operation changes one tunnel, or removes some. */
  lemma OpCoexists(db: Db, op: Op, now: Time)
    ensures Coexist(db.tunnels, Apply(db, op, now).tunnels)
  {
    match op {
      case Create(t, random) => CreateCoexists(db, t, random, now);
      case Update(id, t) => UpdateCoexists(db, id, t, now);
      case _ =>
    }
  }

  lemma NoClashAcross(before: Db, after: Db, s: Tunnel, t: Tunnel)
    requires RegistryOk(before) && RegistryOk(after) && Coexist(before.tunnels, after.tunnels) && s.id != t.id
    requires s.id in before.tunnels && before.tunnels[s.id] == s && t.id in after.tunnels && after.tunnels[t.id] == t
    ensures !SameDomain(s, t)
  {
    assert !Clash(s, t);
  }

  /** The managed row of a host asked for before does not block a host asked for after the change. */
  lemma ManagedDoesNotBlock(before: Db, after: Db, hs: Table<Host>, v: Want, w: Want, k: Id)
    requires RegistryOk(before) && RegistryOk(after) && Coexist(before.tunnels, after.tunnels)
    requires TableOk(hs) && v.WantHost? && HostDone(hs, v.tunnel, v.domain, v.clientId)
    requires WantOf(v, v.tunnel) && WantOf(w, w.tunnel) && WantOk(v) && WantOk(w)
    requires Listed(before, [v.tunnel]) && Listed(after, [w.tunnel])
    requires k in hs.rows && hs.rows[k].remark == Remark(v)
    ensures !Blocks(hs.rows[k], w)
  {
    ManagedRemarks(v.tunnel.id, v.domain);
    LookupIs(hs, k);
    assert v.tunnel in [v.tunnel] && w.tunnel in [w.tunnel];
    SchemeOfHost(v.tunnel.mode);
    if w.WantHost? && v.tunnel.id != w.tunnel.id {
      NoClashAcross(before, after, v.tunnel, w.tunnel);
    }
  }

  /** The want behind a managed host row of converged tables. */
  lemma WantBehind(db: Nps, owners: map<string, Id>, users: seq<User>, tunnels: seq<Tunnel>, k: Id) returns (v: Want)
    requires Converged(db, owners, users, tunnels) && TunnelsListed(tunnels)
    requires k in db.hosts.rows && IsManaged(db.hosts.rows[k].remark)
    ensures v.WantHost? && Remark(v) == db.hosts.rows[k].remark && HostDone(db.hosts, v.tunnel, v.domain, v.clientId)
    ensures v.tunnel in tunnels && WantOf(v, v.tunnel) && WantOk(v)
  {
    var wants := Wants(owners, tunnels);
    assert !Stale(db.hosts.rows[k], HostRemarks(wants));
    var i :| 0 <= i < |wants| && wants[i].WantHost? && Remark(wants[i]) == db.hosts.rows[k].remark;
    v := wants[i];
    assert Satisfied(db, v);
    var a := WantSource(owners, tunnels, v);
    WantClient(owners, tunnels, v);
  }

  /** No host that the last synchronization left is in the way of the next one, if one operation lies between. */
  lemma OneChangeNeverBlocks(before: Db, after: Db, db: Nps, owners: map<string, Id>, users: seq<User>,
                             tunnels: seq<Tunnel>, owners': map<string, Id>, tunnels': seq<Tunnel>, w: Want, k: Id)
    requires RegistryOk(before) && RegistryOk(after) && Coexist(before.tunnels, after.tunnels)
    requires Converged(db, owners, users, tunnels) && Listed(before, tunnels) && TunnelsListed(tunnels)
    requires Listed(after, tunnels') && TunnelsListed(tunnels')
    requires w in Wants(owners', tunnels') && k in db.hosts.rows && IsManaged(db.hosts.rows[k].remark)
    ensures !Blocks(db.hosts.rows[k], w)
  {
    var v := WantBehind(db, owners, users, tunnels, k);
    var b := WantSource(owners', tunnels', w);
    WantClient(owners', tunnels', w);
    ManagedDoesNotBlock(before, after, db.hosts, v, w, k);
  }

  lemma NoClashWithin(reg: Db, s: Tunnel, t: Tunnel)
    requires RegistryOk(reg) && s.id != t.id && Listed(reg, [s]) && Listed(reg, [t])
    ensures !SameDomain(s, t)
  {
    assert s in [s] && t in [t];
    assert !Clash(reg.tunnels[s.id], reg.tunnels[t.id]);
  }

  lemma ServicesApart(v: Want, w: Want)
    requires v.WantHost? && w.WantHost? && !SameRecord(v, w) && WantOk(v)
    requires WantOf(v, v.tunnel) && WantOf(w, w.tunnel)
    requires v.tunnel.id == w.tunnel.id || !SameDomain(v.tunnel, w.tunnel)
    ensures v.domain != w.domain || v.tunnel.mode != w.tunnel.mode
  {
  }

  /** In a sound registry no domain is asked for twice in a mode. */
  lemma ServicesDistinct(reg: Db, owners: map<string, Id>, tunnels: seq<Tunnel>)
    requires RegistryOk(reg) && Listed(reg, tunnels) && TunnelsListed(tunnels)
    ensures DistinctServices(Wants(owners, tunnels))
  {
    var wants := Wants(owners, tunnels);
    WantsDistinct(owners, tunnels);
    forall i, j | 0 <= i < j < |wants| && wants[i].WantHost? && wants[j].WantHost?
      ensures wants[i].domain != wants[j].domain || wants[i].tunnel.mode != wants[j].tunnel.mode
    {
      var v, w := wants[i], wants[j];
      var a := WantSource(owners, tunnels, v);
      var b := WantSource(owners, tunnels, w);
      WantClient(owners, tunnels, v);
      if v.tunnel.id != w.tunnel.id {
        NoClashWithin(reg, v.tunnel, w.tunnel);
      }
      ServicesApart(v, w);
    }
  }

  // ----------------------------------------------- what is asked for, by name

  /** What the enabled users with a key ask for; the client identifiers do not matter for who is in whose way. */
  function WantsFor(users: seq<User>, tunnels: seq<Tunnel>): seq<Want> {
    Wants(map n | n in DesiredNames(users) :: 0, tunnels)
  }

  /** The same record is asked for, perhaps for another client identifier. */
  predicate SameAsk(v: Want, w: Want) {
    v.WantTask? == w.WantTask? && v.tunnel == w.tunnel && (v.WantHost? ==> v.domain == w.domain)
  }

  predicate SameAsks(vs: seq<Want>, ws: seq<Want>) {
    |vs| == |ws| && forall i :: 0 <= i < |vs| ==> SameAsk(vs[i], ws[i])
  }

  lemma SameAsksOf(a: map<string, Id>, b: map<string, Id>, t: Tunnel)
    requires a.Keys == b.Keys
    ensures SameAsks(WantsOf(a, t), WantsOf(b, t))
  {
    if t.userName in a.Keys {
      HostWantsFacts(t, a[t.userName], t.domains);
      HostWantsFacts(t, b[t.userName], t.domains);
    }
  }

  lemma {:induction false} AsksByName(a: map<string, Id>, b: map<string, Id>, tunnels: seq<Tunnel>)
    requires a.Keys == b.Keys
    ensures SameAsks(Wants(a, tunnels), Wants(b, tunnels))
  {
    if tunnels != [] {
      SameAsksOf(a, b, tunnels[0]);
      AsksByName(a, b, tunnels[1..]);
    }
  }

  lemma SameHostRemarks(vs: seq<Want>, ws: seq<Want>)
    requires SameAsks(vs, ws)
    ensures HostRemarks(vs) == HostRemarks(ws)
  {
    forall i | 0 <= i < |vs|
      ensures Remark(vs[i]) == Remark(ws[i]) && vs[i].WantHost? == ws[i].WantHost?
    {
      assert SameAsk(vs[i], ws[i]);
    }
  }

  lemma SameFree(rows: map<Id, Row<Host>>, vs: seq<Want>, ws: seq<Want>)
    requires SameAsks(vs, ws) && HostsFree(rows, vs)
    ensures HostsFree(rows, ws)
  {
    forall i, k | 0 <= i < |ws| && k in rows && Blocks(rows[k], ws[i])
      ensures rows[k].remark in HostRemarks(ws[..i])
    {
      assert SameAsk(vs[i], ws[i]) && Blocks(rows[k], vs[i]);
      SameHostRemarks(vs[..i], ws[..i]);
    }
  }

  /** So whether the hosts are free depends on the names of the users alone. */
  lemma FreeByName(rows: map<Id, Row<Host>>, owners: map<string, Id>, users: seq<User>, tunnels: seq<Tunnel>)
    requires owners.Keys == DesiredNames(users)
    ensures HostsFree(rows, Wants(owners, tunnels)) <==> HostsFree(rows, WantsFor(users, tunnels))
  {
    var names: map<string, Id> := map n | n in DesiredNames(users) :: 0;
    AsksByName(owners, names, tunnels);
    AsksByName(names, owners, tunnels);
    if HostsFree(rows, Wants(owners, tunnels)) {
      SameFree(rows, Wants(owners, tunnels), WantsFor(users, tunnels));
    }
    if HostsFree(rows, WantsFor(users, tunnels)) {
      SameFree(rows, WantsFor(users, tunnels), Wants(owners, tunnels));
    }
  }

  /** The wants of a registry's tunnels satisfy what the tunnel phase relies on. */
  lemma SoundWants(reg: Db, owners: map<string, Id>, tunnels: seq<Tunnel>)
    requires RegistryOk(reg) && Listed(reg, tunnels) && TunnelsListed(tunnels)
    ensures var wants := Wants(owners, tunnels); AllWantsOk(wants) && DistinctWants(wants) && DistinctServices(wants)
  {
    var wants := Wants(owners, tunnels);
    ServicesDistinct(reg, owners, tunnels);
    WantsDistinct(owners, tunnels);
    forall w | w in wants
      ensures WantOk(w)
    {
      WantClient(owners, tunnels, w);
    }
  }

  /**
  A synchronization succeeds exactly when the keys and the hosts that it asks for are free in
  the tables it finds.
  */
  lemma SyncExact(reg: Db, db: Nps, users: seq<User>, tunnels: seq<Tunnel>)
    requires RegistryOk(reg) && Listed(reg, tunnels) && TunnelsListed(tunnels) && UsersListed(users) && NpsOk(db)
    ensures Sync(db, users, tunnels).1.None?
            <==> KeysFree(db.clients.rows, users) && HostsFree(db.hosts.rows, WantsFor(users, tunnels))
  {
    var owners := Owners(db, users);
    UserPhaseExact(db.clients, map[], users);
    if KeysFree(db.clients.rows, users) {
      SyncUsersNames(db.clients, map[], users);
      SoundWants(reg, owners, tunnels);
      TunnelPhaseExact(db.(clients := SyncUsers(db.clients, map[], users).clients), Wants(owners, tunnels));
      FreeByName(db.hosts.rows, owners, users, tunnels);
    }
  }

  /** No row made by hand serves a domain that is asked for. */
  ghost predicate ForeignFree(rows: map<Id, Row<Host>>, wants: seq<Want>) {
    forall k, w :: k in rows && w in wants && Blocks(rows[k], w) ==> IsManaged(rows[k].remark)
  }

  lemma NothingInTheWay(rows: map<Id, Row<Host>>, wants: seq<Want>)
    requires forall w, k :: w in wants && k in rows ==> !Blocks(rows[k], w)
    ensures HostsFree(rows, wants)
  {
    forall i, k | 0 <= i < |wants| && k in rows
      ensures !Blocks(rows[k], wants[i])
    {
      assert wants[i] in wants;
    }
  }

  lemma HostsFreeAfterOneChange(before: Db, after: Db, db: Nps, owners: map<string, Id>, users: seq<User>,
                                tunnels: seq<Tunnel>, owners': map<string, Id>, tunnels': seq<Tunnel>)
    requires RegistryOk(before) && RegistryOk(after) && Coexist(before.tunnels, after.tunnels)
    requires Converged(db, owners, users, tunnels) && Listed(before, tunnels) && TunnelsListed(tunnels)
    requires Listed(after, tunnels') && TunnelsListed(tunnels')
    requires ForeignFree(db.hosts.rows, Wants(owners', tunnels'))
    ensures HostsFree(db.hosts.rows, Wants(owners', tunnels'))
  {
    forall w, k | w in Wants(owners', tunnels') && k in db.hosts.rows && IsManaged(db.hosts.rows[k].remark)
      ensures !Blocks(db.hosts.rows[k], w)
    {
      OneChangeNeverBlocks(before, after, db, owners, users, tunnels, owners', tunnels', w, k);
    }
    NothingInTheWay(db.hosts.rows, Wants(owners', tunnels'));
  }

  /**
  Synchronizing after every registry operation keeps working: from converged tables, one
  operation later, only a duplicate key or a host made by hand can make it fail.
  */
  lemma SyncAfterOneChange(reg: Db, op: Op, now: Time, db: Nps, owners: map<string, Id>, users: seq<User>,
                           tunnels: seq<Tunnel>, users': seq<User>, tunnels': seq<Tunnel>)
    requires RegistryOk(reg) && Converged(db, owners, users, tunnels)
    requires Listed(reg, tunnels) && TunnelsListed(tunnels)
    requires Listed(Apply(reg, op, now), tunnels') && TunnelsListed(tunnels') && UsersListed(users')
    requires KeysFree(db.clients.rows, users') && ForeignFree(db.hosts.rows, WantsFor(users', tunnels'))
    ensures Sync(db, users', tunnels').1.None?
  {
    var after := Apply(reg, op, now);
    OpKeeps(reg, op, now);
    OpCoexists(reg, op, now);
    HostsFreeAfterOneChange(reg, after, db, owners, users, tunnels, map n | n in DesiredNames(users') :: 0, tunnels');
    SyncExact(after, db, users', tunnels');
  }

  // ------------------------------------------------------ the order that fails

  /** A row that nobody asks for and that is in the way makes the tunnel phase fail, and outlives it. */
  lemma {:induction false} BlockedFails(db: Nps, wants: seq<Want>, k: Id)
    requires TableOk(db.hosts) && TableOk(db.tasks)
    requires k in db.hosts.rows && db.hosts.rows[k].remark !in HostRemarks(wants)
    requires exists w :: w in wants && Blocks(db.hosts.rows[k], w)
    ensures var (db', e) := SyncWants(db, wants);
      e.Some? && k in db'.hosts.rows && db'.hosts.rows[k] == db.hosts.rows[k]
    decreases |wants|
  {
    var w := wants[0];
    HostRemarksStep(wants);
    SyncWantTables(db, w);
    FirstWantSparesRow(db, w, k);
    if SyncWant(db, w).1.None? {
      assert wants == [w] + wants[1..];
      BlockedFails(SyncWant(db, w).0, wants[1..], k);
    }
  }

  lemma FirstWantSparesRow(db: Nps, w: Want, k: Id)
    requires TableOk(db.hosts) && k in db.hosts.rows && (w.WantHost? ==> db.hosts.rows[k].remark != Remark(w))
    ensures var (db', e) := SyncWant(db, w);
      && k in db'.hosts.rows && db'.hosts.rows[k] == db.hosts.rows[k]
      && (Blocks(db.hosts.rows[k], w) ==> e.Some?)
  {
    if w.WantHost? {
      var id := PutRow(db.hosts, Remark(w), HostFor(w.tunnel, w.domain, w.clientId));
    }
  }

  /** Synchronizing again and again with the same input. */
  ghost function SyncTimes(db: Nps, users: seq<User>, tunnels: seq<Tunnel>, n: nat): Nps {
    if n == 0 then db else Sync(SyncTimes(db, users, tunnels, n - 1), users, tunnels).0
  }

  predicate InTheWay(row: Row<Host>, users: seq<User>, tunnels: seq<Tunnel>, t: Tunnel, domain: string) {
    && t in tunnels && t.engine == ENGINE_NPS && t.enabled && t.userName in DesiredNames(users)
    && IsDomainMode(t.mode) && domain in t.domains && Serves(row, domain, t.mode, HostRemark(t.id, domain))
    && (forall s, e :: s in tunnels && e in s.domains ==> row.remark != HostRemark(s.id, e))
  }

  lemma {:induction false} WantListed(owners: map<string, Id>, tunnels: seq<Tunnel>, t: Tunnel, domain: string)
    requires t in tunnels && t.engine == ENGINE_NPS && t.enabled && t.userName in owners
    requires IsDomainMode(t.mode) && domain in t.domains
    ensures WantHost(t, domain, owners[t.userName]) in Wants(owners, tunnels)
  {
    if t == tunnels[0] {
      HostWantsFacts(t, owners[t.userName], t.domains);
      var i :| 0 <= i < |t.domains| && t.domains[i] == domain;
      assert HostWants(t, owners[t.userName], t.domains)[i] == WantHost(t, domain, owners[t.userName]);
    } else {
      WantListed(owners, tunnels[1..], t, domain);
    }
  }

  lemma NotAskedFor(owners: map<string, Id>, tunnels: seq<Tunnel>, remark: string)
    requires TunnelsListed(tunnels)
    requires forall s, e :: s in tunnels && e in s.domains ==> remark != HostRemark(s.id, e)
    ensures remark !in HostRemarks(Wants(owners, tunnels))
  {
    forall w | w in Wants(owners, tunnels) && w.WantHost?
      ensures Remark(w) != remark
    {
      var i := WantSource(owners, tunnels, w);
    }
  }

  lemma StaleHostBlocks(db: Nps, users: seq<User>, tunnels: seq<Tunnel>, k: Id, t: Tunnel, domain: string)
    requires NpsOk(db) && UsersListed(users) && TunnelsListed(tunnels)
    requires k in db.hosts.rows && InTheWay(db.hosts.rows[k], users, tunnels, t, domain)
    ensures var (db', e) := Sync(db, users, tunnels);
      e.Some? && NpsOk(db') && k in db'.hosts.rows && db'.hosts.rows[k] == db.hosts.rows[k]
  {
    SyncOk(db, users, tunnels);
    var phase := SyncUsers(db.clients, map[], users);
    if phase.error.None? {
      SyncUsersNames(db.clients, map[], users);
      var wants := Wants(phase.owners, tunnels);
      WantListed(phase.owners, tunnels, t, domain);
      NotAskedFor(phase.owners, tunnels, db.hosts.rows[k].remark);
      assert Blocks(db.hosts.rows[k], WantHost(t, domain, phase.owners[t.userName]));
      BlockedFails(db.(clients := phase.clients), wants, k);
    }
  }

  /**
  The stale hosts are deleted only after the new ones are written. So when a domain has
  moved to another tunnel since the last synchronization, every later one with that input
  fails: it never gets to delete the row that is in the way.
  */
  lemma StaleHostBlocksForever(db: Nps, users: seq<User>, tunnels: seq<Tunnel>, k: Id, t: Tunnel, domain: string, n: nat)
    requires NpsOk(db) && UsersListed(users) && TunnelsListed(tunnels)
    requires k in db.hosts.rows && InTheWay(db.hosts.rows[k], users, tunnels, t, domain)
    ensures var db' := SyncTimes(db, users, tunnels, n);
      Stuck(db', k, db.hosts.rows[k]) && Sync(db', users, tunnels).1.Some?
  {
    StuckTimes(db, Input(users, tunnels), k, db.hosts.rows[k], t, domain, n);
    StuckStays(SyncTimes(db, users, tunnels, n), Input(users, tunnels), k, db.hosts.rows[k], t, domain);
  }

  /** Sound tables with this row. */
  ghost predicate Stuck(db: Nps, k: Id, row: Row<Host>) { NpsOk(db) && k in db.hosts.rows && db.hosts.rows[k] == row }

  datatype Input = Input(users: seq<User>, tunnels: seq<Tunnel>)

  /** An input for which the row is in the way. */
  ghost predicate StuckFor(input: Input, row: Row<Host>, t: Tunnel, domain: string) {
    UsersListed(input.users) && TunnelsListed(input.tunnels) && InTheWay(row, input.users, input.tunnels, t, domain)
  }

  lemma StuckStays(db: Nps, input: Input, k: Id, row: Row<Host>, t: Tunnel, domain: string)
    requires Stuck(db, k, row) && StuckFor(input, row, t, domain)
    ensures Stuck(Sync(db, input.users, input.tunnels).0, k, row) && Sync(db, input.users, input.tunnels).1.Some?
  {
    StaleHostBlocks(db, input.users, input.tunnels, k, t, domain);
  }

  lemma {:induction false} StuckTimes(db: Nps, input: Input, k: Id, row: Row<Host>, t: Tunnel, domain: string, n: nat)
    requires Stuck(db, k, row) && StuckFor(input, row, t, domain)
    ensures Stuck(SyncTimes(db, input.users, input.tunnels, n), k, row)
  {
    if n > 0 {
      StuckTimes(db, input, k, row, t, domain, n - 1);
      StuckStays(SyncTimes(db, input.users, input.tunnels, n - 1), input, k, row, t, domain);
    }
  }

  /** The row of a host that converged tables hold for a tunnel. */
  lemma HostRowOf(db: Nps, owners: map<string, Id>, users: seq<User>, tunnels: seq<Tunnel>, t: Tunnel, domain: string)
    returns (k: Id)
    requires Converged(db, owners, users, tunnels) && t in tunnels && t.engine == ENGINE_NPS && t.enabled
    requires t.userName in owners && IsDomainMode(t.mode) && domain in t.domains
    ensures k in db.hosts.rows && db.hosts.rows[k].remark == HostRemark(t.id, domain)
    ensures db.hosts.rows[k].body.host == domain && db.hosts.rows[k].body.location == "/" && db.hosts.rows[k].body.scheme == t.mode
  {
    WantListed(owners, tunnels, t, domain);
    assert Satisfied(db, WantHost(t, domain, owners[t.userName]));
    LookupFound(db.hosts, HostRemark(t.id, domain));
    k := Lookup(db.hosts, HostRemark(t.id, domain)).value.id;
  }

  /** An enabled tunnel of the user `u` that serves one domain. */
  predicate ServedBy(t: Tunnel, u: User, domain: string) {
    t.engine == ENGINE_NPS && t.enabled && t.userName == u.name && IsDomainMode(t.mode) && t.domains == [domain]
  }

  lemma OneTunnelListed(t: Tunnel, domain: string)
    requires DomainsOk([domain]) && t.domains == [domain]
    ensures TunnelsListed([t]) && ':' !in domain
  {
    NoColons([domain], 0);
  }

  lemma MovedIsInTheWay(db: Nps, owners: map<string, Id>, u: User, a: Tunnel, b: Tunnel, domain: string) returns (k: Id)
    requires Converged(db, owners, [u], [a]) && Desired(u) && DomainsOk([domain])
    requires ServedBy(a, u, domain) && ServedBy(b, u, domain) && a.mode == b.mode && a.id != b.id
    ensures k in db.hosts.rows && InTheWay(db.hosts.rows[k], [u], [b], b, domain)
  {
    assert u in [u] && a in [a] && domain in [domain];
    k := HostRowOf(db, owners, [u], [a], a, domain);
    OneTunnelListed(a, domain);
    DifferentRemarks(a.id, b.id, domain);
    OnlyOneInTheWay(db.hosts.rows[k], u, b, domain);
  }

  lemma OnlyOneInTheWay(row: Row<Host>, u: User, b: Tunnel, domain: string)
    requires Desired(u) && ServedBy(b, u, domain) && Serves(row, domain, b.mode, HostRemark(b.id, domain))
    ensures InTheWay(row, [u], [b], b, domain)
  {
    assert u in [u] && b in [b];
  }

  /**
  For instance: the user `u` has a tunnel `a` for a domain, and that is synchronized. Then
  `a` is deleted and `b` created for the same domain, both before the next synchronization.
  */
  lemma MovedDomainBlocksForever(db: Nps, u: User, a: Tunnel, b: Tunnel, domain: string, n: nat)
    requires NpsOk(db) && Desired(u) && u.name != "" && DomainsOk([domain])
    requires ServedBy(a, u, domain) && ServedBy(b, u, domain) && a.mode == b.mode && a.id != b.id
    requires Sync(db, [u], [a]).1.None?
    ensures Sync(SyncTimes(Sync(db, [u], [a]).0, [u], [b], n), [u], [b]).1.Some?
  {
    OneTunnelListed(a, domain);
    OneTunnelListed(b, domain);
    SyncConverges(db, [u], [a]);
    SyncOk(db, [u], [a]);
    var k := MovedIsInTheWay(Sync(db, [u], [a]).0, Owners(db, [u]), u, a, b, domain);
    StaleHostBlocksForever(Sync(db, [u], [a]).0, [u], [b], k, b, domain, n);
  }

  lemma DifferentRemarks(a: string, b: string, domain: string)
    requires a != b && ':' !in domain
    ensures HostRemark(a, domain) != HostRemark(b, domain)
  {
    if HostRemark(a, domain) == HostRemark(b, domain) {
      HostRemarkInjective(a, domain, b, domain);
    }
  }
}
