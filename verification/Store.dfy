/**
The Store object: each operation, as the code performs it on its maps, against the
Registry function of the same name. A loop over a Go map takes its keys in an
arbitrary order. `saved` is the verdict of writing the file, which comes after the
change in memory.
*/
module Store {
  import opened Basics
  import opened PortRanges
  import opened Domains
  import opened Registry
  import opened RegistrySafety
  import opened RegistryExact

  function Saved<T>(saved: bool, value: T): Outcome<T> { if saved then Done(value) else Failed(SaveFailed) }

  /** What a call of an operation without a result value reports and leaves; it saves only if it touched something. */
  ghost predicate Performed(before: Db, spec: Outcome<Db>, touched: bool, saved: bool, after: Db, r: Outcome<()>) {
    match spec
    case Failed(e) => r == Failed(e) && after == before
    case Done(db) => after == db && r == (if touched then Saved(saved, ()) else Done(()))
  }

  ghost predicate PerformedWith(before: Db, spec: Outcome<(Db, Tunnel)>, saved: bool, after: Db, r: Outcome<Tunnel>) {
    match spec
    case Failed(e) => r == Failed(e) && after == before
    case Done(v) => after == v.0 && r == Saved(saved, v.1)
  }

  class Store {
    var users: map<string, User>
    var nodes: map<string, Node>
    var tunnels: map<string, Tunnel>

    function Contents(): Db
      reads this
    {
      Db(users, nodes, tunnels)
    }

    constructor ()
      ensures Contents() == FreshDb()
      ensures RegistryOk(Contents())
    {
      users, tunnels := map[], map[];
      nodes := map[DEFAULT_NODE := Node(DEFAULT_NODE, "Local Node", true, true, [], [])];
    }

    // ------------------------------------------------------------ validation

    method PortTaken(t: Tunnel, except: string) returns (taken: bool)
      ensures taken <==> PortTakenIn(tunnels, t, except)
    {
      var rest := tunnels.Keys;
      while rest != {}
        invariant rest <= tunnels.Keys
        invariant forall k :: k in tunnels.Keys - rest ==> !PortClash(tunnels[k], t, except)
        decreases |rest|
      {
        var k :| k in rest;
        rest := rest - {k};
        var existing := tunnels[k];
        if existing.id == except || !IsPortMode(existing.mode) {
          continue;
        }
        if TunnelNodeId(existing) != t.nodeId {
          continue;
        }
        if existing.remotePort == t.remotePort && PortTransport(existing.mode) == PortTransport(t.mode) {
          return true;
        }
      }
      return false;
    }

    method DomainServed(mode: string, domain: string, except: string) returns (taken: bool)
      ensures taken <==> DomainTakenIn(tunnels, mode, domain, except)
    {
      var rest := tunnels.Keys;
      while rest != {}
        invariant rest <= tunnels.Keys
        invariant forall k :: k in tunnels.Keys - rest ==> !DomainClash(tunnels[k], mode, domain, except)
        decreases |rest|
      {
        var k :| k in rest;
        rest := rest - {k};
        var existing := tunnels[k];
        if existing.id == except || !IsDomainMode(existing.mode) {
          continue;
        }
        for i := 0 to |existing.domains|
          invariant existing.mode == mode ==> domain !in existing.domains[..i]
        {
          if existing.mode == mode && existing.domains[i] == domain {
            return true;
          }
        }
        assert existing.domains[..|existing.domains|] == existing.domains;
      }
      return false;
    }

    method CountUserTunnels(user: string, except: string) returns (count: nat)
      ensures count == |Owned(tunnels, user, except)|
    {
      var rest := tunnels.Keys;
      ghost var counted: set<string> := {};
      count := 0;
      while rest != {}
        invariant rest <= tunnels.Keys
        invariant counted == (set k | k in Owned(tunnels, user, except) && k !in rest)
        invariant count == |counted|
        decreases |rest|
      {
        var k :| k in rest;
        rest := rest - {k};
        if tunnels[k].id != except && tunnels[k].userName == user {
          count := count + 1;
          counted := counted + {k};
        }
      }
      assert counted == Owned(tunnels, user, except);
    }

    method ValidateDomains(u: User, node: Node, t: Tunnel, except: string) returns (e: Option<Error>)
      ensures e == DomainsError(Contents(), u, node, t, except, t.domains)
    {
      for i := 0 to |t.domains|
        invariant DomainsError(Contents(), u, node, t, except, t.domains)
                  == DomainsError(Contents(), u, node, t, except, t.domains[i..])
      {
        assert t.domains[i..][1..] == t.domains[i + 1..];
        var domain := t.domains[i];
        if !DomainInPools(domain, u.domainPools) {
          return Some(OutsideUserDomains);
        }
        if node.domainPools != [] && !DomainInPools(domain, node.domainPools) {
          return Some(OutsideNodeDomains);
        }
        var taken := DomainServed(t.mode, domain, except);
        if taken {
          return Some(DomainTaken);
        }
      }
      return None;
    }

    method ValidatePlace(u: User, node: Node, t: Tunnel, except: string) returns (e: Option<Error>)
      ensures e == PlaceError(Contents(), u, node, t, except)
    {
      if IsPortMode(t.mode) {
        if t.remotePort <= 0 {
          return Some(RemotePortRequired);
        }
        if !PortInRanges(t.remotePort, u.portPools) {
          return Some(OutsideUserPool);
        }
        if node.portPools != [] && !PortInRanges(t.remotePort, node.portPools) {
          return Some(OutsideNodePool);
        }
        var taken := PortTaken(t, except);
        return if taken then Some(Error.PortTaken) else None;
      }
      if t.domains == [] {
        return Some(DomainRequired);
      }
      e := ValidateDomains(u, node, t, except);
    }

    method ValidateTunnel(t: Tunnel, except: string) returns (e: Option<Error>)
      ensures e == Validate(Contents(), t, except)
    {
      if t.userName == "" {
        return Some(NameRequired);
      }
      if t.engine != ENGINE_NPS {
        return Some(BadEngine);
      }
      if t.nodeId !in nodes || !nodes[t.nodeId].enabled {
        return Some(NodeUnavailable);
      }
      var node := nodes[t.nodeId];
      if !node.npsEnabled {
        return Some(NodeWithoutNps);
      }
      if t.mode == "" {
        return Some(ModeRequired);
      }
      if !IsPortMode(t.mode) && !IsDomainMode(t.mode) {
        return Some(BadMode);
      }
      if t.localPort <= 0 || t.localPort > 65535 {
        return Some(LocalPortRequired);
      }
      if t.userName !in users || !users[t.userName].enabled {
        return Some(UserUnavailable);
      }
      var u := users[t.userName];
      e := ValidatePlace(u, node, t, except);
      if e.Some? {
        return;
      }
      var count := CountUserTunnels(t.userName, except);
      if u.maxPorts > 0 && count >= u.maxPorts {
        return Some(QuotaReached);
      }
      return None;
    }

    // --------------------------------------------------------------- tunnels

    method CreateTunnel(input: Tunnel, now: Time, random: string, saved: bool) returns (r: Outcome<Tunnel>)
      modifies this
      ensures PerformedWith(old(Contents()), Registry.CreateTunnel(old(Contents()), input, now, random), saved, Contents(), r)
      ensures old(RegistryOk(Contents())) ==> RegistryOk(Contents())
    {
      CreateKeepsIfOk(Contents(), input, now, random);
      var prepared := Prepare(input);
      if prepared.Failed? {
        return prepared;
      }
      var t := prepared.value;
      var e := ValidateTunnel(t, "");
      if e.Some? {
        return Failed(e.value);
      }
      if t.id == "" {
        t := t.(id := NextTunnelId(t, random));
      }
      if t.id in tunnels {
        return Failed(AlreadyExists);
      }
      t := t.(createdAt := now, updatedAt := now);
      tunnels := tunnels[t.id := t];
      return Saved(saved, t);
    }

    method UpdateTunnel(id: string, input: Tunnel, now: Time, saved: bool) returns (r: Outcome<Tunnel>)
      modifies this
      ensures PerformedWith(old(Contents()), Registry.UpdateTunnel(old(Contents()), id, input, now), saved, Contents(), r)
      ensures old(RegistryOk(Contents())) ==> RegistryOk(Contents())
    {
      UpdateKeepsIfOk(Contents(), id, input, now);
      var prepared := Prepare(input);
      if prepared.Failed? {
        return prepared;
      }
      var t := prepared.value;
      if id == "" {
        return Failed(IdRequired);
      }
      if id !in tunnels {
        return Failed(NotFound);
      }
      if t.id == "" {
        t := t.(id := id);
      }
      if t.id != id {
        return Failed(IdChanged);
      }
      var e := ValidateTunnel(t, id);
      if e.Some? {
        return Failed(e.value);
      }
      t := t.(createdAt := tunnels[id].createdAt, updatedAt := now);
      tunnels := tunnels[id := t];
      return Saved(saved, t);
    }

    method DeleteTunnel(id: string, saved: bool) returns (r: Outcome<()>)
      modifies this
      ensures Performed(old(Contents()), Registry.DeleteTunnel(old(Contents()), id), true, saved, Contents(), r)
    {
      if id == "" {
        return Failed(IdRequired);
      }
      tunnels := tunnels - {id};
      return Saved(saved, ());
    }

    // ----------------------------------------------------------------- nodes

    /** Also returns the record as it is stored. */
    method UpsertNode(input: Node, saved: bool) returns (r: Outcome<Node>)
      modifies this
      ensures Contents() == KeptDb(old(Contents()), Registry.UpsertNode(old(Contents()), input))
      ensures NodeAccepted(input) ==> NormalizeId(input.id) in nodes && r == Saved(saved, nodes[NormalizeId(input.id)])
      ensures !NodeAccepted(input) ==> r == Failed(if NormalizeId(input.id) == "" then IdRequired else BadDomain)
      ensures NodeAccepted(input) ==> NodeStored(old(nodes), nodes, input)
      ensures !NodeAccepted(input) ==> nodes == old(nodes)
      ensures users == old(users) && tunnels == old(tunnels)
      ensures old(RegistryOk(Contents())) ==> RegistryOk(Contents())
    {
      UpsertNodeExact(Contents(), input);
      var id := NormalizeId(input.id);
      if id == "" {
        return Failed(IdRequired);
      }
      var name := if input.name == "" then id else input.name;
      var pools := NormalizeDomains(input.domainPools);
      if pools.Err? {
        return Failed(BadDomain);
      }
      nodes := nodes[id := input.(id := id, name := name, domainPools := pools.value)];
      return Saved(saved, nodes[id]);
    }

    method DeleteNode(input: string, saved: bool) returns (r: Outcome<()>)
      modifies this
      ensures Performed(old(Contents()), Registry.DeleteNode(old(Contents()), input), NormalizeId(input) in old(nodes), saved, Contents(), r)
    {
      var id := NormalizeId(input);
      if id == "" {
        return Failed(IdRequired);
      }
      if id == DEFAULT_NODE {
        return Failed(DefaultNode);
      }
      if id !in nodes {
        return Done(());
      }
      var rest := tunnels.Keys;
      while rest != {}
        invariant rest <= tunnels.Keys && Contents() == old(Contents())
        invariant forall k :: k in tunnels.Keys - rest ==> TunnelNodeId(tunnels[k]) != id
        decreases |rest|
      {
        var k :| k in rest;
        rest := rest - {k};
        if TunnelNodeId(tunnels[k]) == id {
          return Failed(NodeInUse);
        }
      }
      nodes := nodes - {id};
      return Saved(saved, ());
    }

    // ----------------------------------------------------------------- users

    /** Also returns the record as it is stored. */
    method UpsertUser(input: User, now: Time, key: string, saved: bool) returns (r: Outcome<User>)
      modifies this
      ensures Contents() == KeptDb(old(Contents()), Registry.UpsertUser(old(Contents()), input, now, key))
      ensures UserAccepted(input) ==>
                UserWritten(old(users), users, input, now, key) && r == Saved(saved, users[input.name])
      ensures !UserAccepted(input) ==>
                users == old(users) && r == Failed(if input.name == "" then NameRequired
                                                   else if input.role !in {"", "user", "admin"} then BadRole else BadDomain)
      ensures nodes == old(nodes) && tunnels == old(tunnels)
      ensures old(RegistryOk(Contents())) ==> RegistryOk(Contents())
    {
      AcceptedExact(input.domainPools, []);
      if input.name == "" {
        return Failed(NameRequired);
      }
      var role := RoleOf(input);
      if role != ROLE_ADMIN && role != ROLE_USER {
        return Failed(BadRole);
      }
      var pools := NormalizeDomains(input.domainPools);
      if pools.Err? {
        return Failed(BadDomain);
      }
      var u := Merged(Prior(Contents(), input.name), input, pools.value, key);
      if input.expiresAt == 0 || input.expiresAt > now {
        u := u.(expiredAt := 0);
      } else if u.role != ROLE_ADMIN {
        u := u.(enabled := false);
        if u.expiredAt == 0 {
          u := u.(expiredAt := now);
        }
      }
      UpsertUserExact(Contents(), input, now, key);
      users := users[input.name := u];
      return Saved(saved, users[input.name]);
    }

    method CountEnabledAdmins() returns (admins: nat)
      ensures admins == |EnabledAdmins(users)|
    {
      var rest := users.Keys;
      ghost var counted: set<string> := {};
      admins := 0;
      while rest != {}
        invariant rest <= users.Keys
        invariant counted == (set n | n in EnabledAdmins(users) && n !in rest)
        invariant admins == |counted|
        decreases |rest|
      {
        var n :| n in rest;
        rest := rest - {n};
        if users[n].role == ROLE_ADMIN && users[n].enabled {
          admins := admins + 1;
          counted := counted + {n};
        }
      }
      assert counted == EnabledAdmins(users);
    }

    /** The loop that deletes the tunnels of one user. */
    method DeleteTunnelsOf(name: string)
      modifies this`tunnels
      ensures tunnels == WithoutUsers(old(tunnels), {name})
    {
      var rest := tunnels.Keys;
      while rest != {}
        invariant rest <= tunnels.Keys <= old(tunnels).Keys
        invariant forall k :: k in tunnels ==> tunnels[k] == old(tunnels)[k]
        invariant forall k :: k in old(tunnels).Keys - rest ==> (k in tunnels <==> old(tunnels)[k].userName != name)
        decreases |rest|
      {
        var k :| k in rest;
        rest := rest - {k};
        if tunnels[k].userName == name {
          tunnels := tunnels - {k};
        }
      }
    }

    method DeleteUser(name: string, saved: bool) returns (r: Outcome<()>)
      modifies this
      ensures Performed(old(Contents()), Registry.DeleteUser(old(Contents()), name), name in old(users), saved, Contents(), r)
    {
      if name == "" {
        return Failed(NameRequired);
      }
      if name !in users {
        return Done(());
      }
      if users[name].role == ROLE_ADMIN {
        var admins := CountEnabledAdmins();
        if admins <= 1 {
          return Failed(LastAdmin);
        }
      }
      DeleteTunnelsOf(name);
      users := users - {name};
      return Saved(saved, ());
    }

    /** Also returns whether an admin was written. */
    method EnsureAdmin(name: string, password: string, key: string, saved: bool) returns (created: bool, r: Outcome<()>)
      modifies this
      ensures Contents() == KeptDb(old(Contents()), Registry.EnsureAdmin(old(Contents()), name, password, key))
      ensures name != "" && password != "" ==> exists n :: EnabledAdmin(users, n)
      ensures created <==> name != "" && password != "" && !(exists n :: EnabledAdmin(old(users), n))
      ensures r == if name == "" then Failed(NameRequired) else if password == "" then Failed(PasswordRequired)
                   else if created then Saved(saved, ()) else Done(())
    {
      EnsureAdminExact(Contents(), name, password, key);
      if name == "" {
        return false, Failed(NameRequired);
      }
      if password == "" {
        return false, Failed(PasswordRequired);
      }
      var rest := users.Keys;
      while rest != {}
        invariant rest <= users.Keys && Contents() == old(Contents())
        invariant forall n :: n in users.Keys - rest ==> !EnabledAdmin(users, n)
        decreases |rest|
      {
        var n :| n in rest;
        rest := rest - {n};
        if users[n].role == ROLE_ADMIN && users[n].enabled {
          assert EnabledAdmin(users, n) && n in EnabledAdmins(users);
          return false, Done(());
        }
      }
      assert EnabledAdmins(users) == {};
      users := users[name := User(name, ROLE_ADMIN, true, [], [], 0, key, 0, 0, 0, 0)];
      return true, Saved(saved, ());
    }

    // ---------------------------------------------------------------- expiry

    /** One user of the sweep. */
    method ExpireUser(name: string, now: Time, retention: int) returns (changed: bool)
      requires name in users
      modifies this
      ensures nodes == old(nodes)
      ensures var u := old(users)[name];
        if Expunged(u, now, retention) then
          && changed && users == old(users) - {name} && tunnels == WithoutUsers(old(tunnels), {name})
        else
          && users == old(users)[name := Stamped(u, now)] && tunnels == old(tunnels)
          && (changed ==> u.expiresAt != 0) && (!changed ==> Stamped(u, now) == u)
          && (now != 0 && changed ==> Stamped(u, now) != u)
    {
      changed := false;
      var cutoff := now - retention;
      var u := users[name];
      if u.role == ROLE_ADMIN || u.expiresAt == 0 {
        return;
      }
      if u.expiresAt <= now {
        if u.enabled {
          u := u.(enabled := false, expiredAt := now);
          changed := true;
        } else if u.expiredAt == 0 {
          u := u.(expiredAt := now);
          changed := true;
        }
      }
      users := users[name := u];
      if u.expiredAt != 0 && u.expiredAt <= cutoff {
        DeleteTunnelsOf(name);
        users := users - {name};
        changed := true;
      }
    }

    /** Any order of visiting the users leads to the same database, and the result says whether it is another one. */
    method EnforceUserExpiry(now: Time, retention: int, saved: bool) returns (r: Outcome<bool>)
      requires now != 0
      modifies this
      ensures Contents() == EnforceExpiry(old(Contents()), now, retention)
      ensures r == if Contents() == old(Contents()) then Done(false) else Saved(saved, true)
    {
      ghost var before := Contents();
      var changed := false;
      var rest := users.Keys;
      SweepStarts(before, now, retention);
      while rest != {}
        invariant SweptUpTo(before, Contents(), rest, now, retention)
        invariant changed <==> TouchedOutside(before, rest, now, retention)
        decreases |rest|
      {
        var name :| name in rest;
        ghost var here := Contents();
        SweepReaches(before, here, rest, now, retention, name);
        var touched := ExpireUser(name, now, retention);
        SweepStep(before, here, Contents(), rest, now, retention, name);
        rest := rest - {name};
        changed := changed || touched;
      }
      SweepEnds(before, Contents(), now, retention);
      if changed {
        return Saved(saved, true);
      }
      return Done(false);
    }
  }

  /** A sweep at this time removes the user or writes into it. */
  predicate Touches(u: User, now: Time, retention: int) {
    Expunged(u, now, retention) || Stamped(u, now) != u
  }

  ghost predicate TouchedOutside(before: Db, rest: set<string>, now: Time, retention: int) {
    exists n :: n in before.users && n !in rest && Touches(before.users[n], now, retention)
  }

  /** The database of a sweep that has still to visit `rest`. */
  ghost predicate SweptUpTo(before: Db, db: Db, rest: set<string>, now: Time, retention: int) {
    var gone := ExpungedNames(before.users, now, retention) - rest;
    && rest <= before.users.Keys
    && db.users == (map n | n in before.users && n !in gone ::
                      if n in rest then before.users[n] else Stamped(before.users[n], now))
    && db.tunnels == WithoutUsers(before.tunnels, gone)
    && db.nodes == before.nodes
  }

  lemma SweepStarts(before: Db, now: Time, retention: int)
    ensures SweptUpTo(before, before, before.users.Keys, now, retention)
    ensures !TouchedOutside(before, before.users.Keys, now, retention)
  {
    assert ExpungedNames(before.users, now, retention) - before.users.Keys == {};
  }

  lemma SweepReaches(before: Db, db: Db, rest: set<string>, now: Time, retention: int, name: string)
    requires SweptUpTo(before, db, rest, now, retention) && name in rest
    ensures name in db.users && db.users[name] == before.users[name]
  {
  }

  lemma WithoutMore(tunnels: map<string, Tunnel>, gone: set<string>, name: string)
    ensures WithoutUsers(WithoutUsers(tunnels, gone), {name}) == WithoutUsers(tunnels, gone + {name})
  {
  }

  lemma SweepStep(before: Db, db: Db, db': Db, rest: set<string>, now: Time, retention: int, name: string)
    requires SweptUpTo(before, db, rest, now, retention) && name in rest && db'.nodes == db.nodes
    requires if Expunged(before.users[name], now, retention) then
               db'.users == db.users - {name} && db'.tunnels == WithoutUsers(db.tunnels, {name})
             else
               db'.users == db.users[name := Stamped(before.users[name], now)] && db'.tunnels == db.tunnels
    ensures SweptUpTo(before, db', rest - {name}, now, retention)
    ensures TouchedOutside(before, rest - {name}, now, retention)
            <==> TouchedOutside(before, rest, now, retention) || Touches(before.users[name], now, retention)
  {
    var all := ExpungedNames(before.users, now, retention);
    if name in all {
      assert all - (rest - {name}) == (all - rest) + {name};
      WithoutMore(before.tunnels, all - rest, name);
    } else {
      assert all - (rest - {name}) == all - rest;
    }
  }

  lemma SweepEnds(before: Db, db: Db, now: Time, retention: int)
    requires SweptUpTo(before, db, {}, now, retention) && now != 0
    ensures db == EnforceExpiry(before, now, retention)
    ensures TouchedOutside(before, {}, now, retention) <==> db != before
  {
    assert ExpungedNames(before.users, now, retention) - {} == ExpungedNames(before.users, now, retention);
    if !TouchedOutside(before, {}, now, retention) {
      assert ExpungedNames(before.users, now, retention) == {};
      assert db.users == before.users;
      assert db.tunnels == before.tunnels;
    } else {
      var n :| n in before.users && Touches(before.users[n], now, retention);
      assert n !in db.users || db.users[n] != before.users[n];
    }
  }

  lemma CreateKeepsIfOk(db: Db, input: Tunnel, now: Time, random: string)
    ensures RegistryOk(db) ==> RegistryOk(Apply(db, Create(input, random), now))
  {
    if RegistryOk(db) {
      CreateKeeps(db, input, now, random);
    }
  }

  lemma UpdateKeepsIfOk(db: Db, id: string, input: Tunnel, now: Time)
    ensures RegistryOk(db) ==> RegistryOk(Apply(db, Update(id, input), now))
  {
    if RegistryOk(db) {
      UpdateKeeps(db, id, input, now);
    }
  }
}
