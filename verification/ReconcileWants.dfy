/** The records that the tunnels of the control plane ask for: no two of them share a remark. */
module ReconcileWants {
  import opened Domains
  import opened Registry
  import opened Reconcile
  import opened ReconcileTables

  // ---------------------------------------------------------------- remarks

  lemma ManagedRemarks(id: string, domain: string)
    ensures IsManaged(TaskRemark(id)) && IsManaged(HostRemark(id, domain))
  {
    assert TaskRemark(id)[..3] == MANAGED;
    assert HostRemark(id, domain)[..3] == MANAGED;
  }

  lemma TaskRemarkInjective(a: string, b: string)
    requires TaskRemark(a) == TaskRemark(b)
    ensures a == b
  {
    assert TaskRemark(a)[3..] == a;
    assert TaskRemark(b)[3..] == b;
  }

  /** A text ending in a part without the separator splits in one way only. */
  lemma LastPart(a: string, d: string, b: string, e: string)
    requires a + ":" + d == b + ":" + e && ':' !in d && ':' !in e
    ensures a == b && d == e
  {
    var s := a + ":" + d;
    assert s[|a|] == ':' && s[|b|] == ':';
    assert forall i :: |a| < i < |s| ==> s[i] == d[i - |a| - 1];
    assert forall i :: |b| < i < |s| ==> s[i] == e[i - |b| - 1];
    assert |a| == |b|;
    assert a == s[..|a|] && b == s[..|b|];
    assert d == s[|a| + 1..] && e == s[|b| + 1..];
  }

  /** Host remarks are injective although tunnel identifiers may contain colons, because domains contain none. */
  lemma HostRemarkInjective(a: string, d: string, b: string, e: string)
    requires ':' !in d && ':' !in e && HostRemark(a, d) == HostRemark(b, e)
    ensures a == b && d == e
  {
    assert HostRemark(a, d)[3..] == a + ":" + d;
    assert HostRemark(b, e)[3..] == b + ":" + e;
    LastPart(a, d, b, e);
  }

  /** With a colon in a domain two different hosts could share a remark. */
  lemma ColonsWouldCollide()
    ensures HostRemark("a", "b:c") == HostRemark("a:b", "c")
  {
  }

  // ------------------------------------------------------------------ wants

  predicate SameRecord(v: Want, w: Want) { v.WantTask? == w.WantTask? && Remark(v) == Remark(w) }

  predicate DistinctWants(wants: seq<Want>) {
    forall i, j :: 0 <= i < j < |wants| ==> !SameRecord(wants[i], wants[j])
  }

  /** The tunnels as the registry hands them over. */
  predicate TunnelsListed(tunnels: seq<Tunnel>) {
    && (forall i, j :: 0 <= i < j < |tunnels| ==> tunnels[i].id != tunnels[j].id)
    && (forall i :: 0 <= i < |tunnels| ==> DomainsOk(tunnels[i].domains))
  }

  predicate UsersListed(users: seq<User>) {
    && (forall i, j :: 0 <= i < j < |users| ==> users[i].name != users[j].name)
    && (forall i :: 0 <= i < |users| ==> users[i].name != "")
  }

  predicate WantOf(w: Want, t: Tunnel) {
    w.tunnel == t && (w.WantHost? ==> w.domain in t.domains)
  }

  lemma {:induction false} HostWantsFacts(t: Tunnel, clientId: Id, domains: seq<string>)
    ensures |HostWants(t, clientId, domains)| == |domains|
    ensures forall i :: 0 <= i < |domains| ==> HostWants(t, clientId, domains)[i] == WantHost(t, domains[i], clientId)
  {
    if domains != [] {
      HostWantsFacts(t, clientId, domains[1..]);
    }
  }

  lemma WantsOfTunnel(owners: map<string, Id>, t: Tunnel)
    requires DomainsOk(t.domains)
    ensures forall w :: w in WantsOf(owners, t) ==> WantOf(w, t)
    ensures DistinctWants(WantsOf(owners, t))
  {
    if t.userName in owners && (t.mode == "http" || t.mode == "https") {
      var clientId := owners[t.userName];
      HostWantsFacts(t, clientId, t.domains);
      forall i, j | 0 <= i < j < |t.domains|
        ensures HostRemark(t.id, t.domains[i]) != HostRemark(t.id, t.domains[j])
      {
        NoColons(t.domains, i);
        NoColons(t.domains, j);
        DifferentDomains(t.id, t.domains[i], t.domains[j]);
      }
    }
  }

  lemma DifferentDomains(id: string, d: string, e: string)
    requires ':' !in d && ':' !in e && d != e
    ensures HostRemark(id, d) != HostRemark(id, e)
  {
    if HostRemark(id, d) == HostRemark(id, e) {
      HostRemarkInjective(id, d, id, e);
    }
  }

  lemma NoColons(domains: seq<string>, i: nat)
    requires DomainsOk(domains) && i < |domains|
    ensures ':' !in domains[i]
  {
    StoredHasNoColon(domains[i]);
  }

  lemma DifferentTunnels(v: Want, w: Want, s: Tunnel, t: Tunnel)
    requires WantOf(v, s) && WantOf(w, t) && s.id != t.id && DomainsOk(s.domains) && DomainsOk(t.domains)
    ensures !SameRecord(v, w)
  {
    if v.WantTask? && w.WantTask? && Remark(v) == Remark(w) {
      TaskRemarkInjective(s.id, t.id);
    }
    if v.WantHost? && w.WantHost? {
      var i :| 0 <= i < |s.domains| && s.domains[i] == v.domain;
      var j :| 0 <= j < |t.domains| && t.domains[j] == w.domain;
      NoColons(s.domains, i);
      NoColons(t.domains, j);
      if Remark(v) == Remark(w) {
        HostRemarkInjective(s.id, v.domain, t.id, w.domain);
      }
    }
  }

  lemma {:induction false} WantSource(owners: map<string, Id>, tunnels: seq<Tunnel>, w: Want) returns (i: nat)
    requires TunnelsListed(tunnels) && w in Wants(owners, tunnels)
    ensures i < |tunnels| && w in WantsOf(owners, tunnels[i]) && WantOf(w, tunnels[i])
  {
    if w in WantsOf(owners, tunnels[0]) {
      WantsOfTunnel(owners, tunnels[0]);
      i := 0;
    } else {
      i := WantSource(owners, tunnels[1..], w);
      i := i + 1;
    }
  }

  /** No record is asked for twice. */
  lemma {:induction false} WantsDistinct(owners: map<string, Id>, tunnels: seq<Tunnel>)
    requires TunnelsListed(tunnels)
    ensures DistinctWants(Wants(owners, tunnels))
  {
    if tunnels != [] {
      var here, rest := WantsOf(owners, tunnels[0]), Wants(owners, tunnels[1..]);
      WantsOfTunnel(owners, tunnels[0]);
      WantsDistinct(owners, tunnels[1..]);
      forall v, w | v in here && w in rest
        ensures !SameRecord(v, w)
      {
        var i := WantSource(owners, tunnels[1..], w);
        DifferentTunnels(v, w, tunnels[0], tunnels[1..][i]);
      }
    }
  }
}
