/** Domain names as the control plane accepts, normalizes and matches them. */
module Domains {
  import opened Basics
  import opened Text

  predicate LabelChar(c: char) { 'a' <= c <= 'z' || '0' <= c <= '9' || c == '-' }

  predicate ValidLabel(part: string) {
    && 0 < |part| <= 63
    && part[0] != '-' && part[|part| - 1] != '-'
    && (forall i :: 0 <= i < |part| ==> LabelChar(part[i]))
  }

  /**
  validateDomain succeeds. The code first accepts whatever net.ParseIP accepts;
  what reaches it holds no colon, so that is dotted decimal, whose parts are
  labels anyway.
  */
  predicate ValidDomain(domain: string) {
    && |domain| <= 253
    && (var labels := Split(domain, '.');
        |labels| >= 2 && forall i :: 0 <= i < |labels| ==> ValidLabel(labels[i]))
  }

  /** Cuts at the first slash or colon. */
  function CutPath(s: string): string {
    var i, j := IndexOf(s, '/'), IndexOf(s, ':');
    s[..if i < j then i else j]
  }

  /** The text that NormalizeDomain judges. */
  function Stripped(input: string): string {
    TrimSuffix(CutPath(TrimPrefix(TrimPrefix(TrimSpace(ToLower(input)), "http://"), "https://")), ".")
  }

  function Judge(domain: string): Result<string> {
    if domain == "" || domain == "*" then Ok(domain)
    else if HasPrefix(domain, "*.") then (if ValidDomain(domain[2..]) then Ok(domain) else Err)
    else if '*' in domain then Err
    else if ValidDomain(domain) then Ok(domain) else Err
  }

  function NormalizeDomain(input: string): Result<string> { Judge(Stripped(input)) }

  /** NormalizeDomains: the first error, or the distinct non-empty domains in order. */
  function NormalizeFrom(values: seq<string>, done: seq<string>): Result<seq<string>> {
    if values == [] then Ok(done)
    else
      match NormalizeDomain(values[0])
      case Err => Err
      case Ok(d) => NormalizeFrom(values[1..], if d == "" || d in done then done else done + [d])
  }

  method NormalizeDomains(values: seq<string>) returns (r: Result<seq<string>>)
    ensures r == NormalizeFrom(values, [])
  {
    var out: seq<string> := [];
    var seen: set<string> := {};
    for k := 0 to |values|
      invariant forall d :: d in seen <==> d in out
      invariant NormalizeFrom(values, []) == NormalizeFrom(values[k..], out)
    {
      assert values[k..][1..] == values[k + 1..];
      var domain := NormalizeDomain(values[k]);
      if domain.Err? {
        return Err;
      }
      if domain.value == "" || domain.value in seen {
        continue;
      }
      seen := seen + {domain.value};
      out := out + [domain.value];
    }
    return Ok(out);
  }

  /** domainInPools. */
  predicate DomainInPools(domain: string, pools: seq<string>) {
    exists i :: 0 <= i < |pools| && PoolMatches(domain, pools[i])
  }

  predicate PoolMatches(domain: string, pool: string) {
    || pool == "*" || pool == domain
    || (HasPrefix(pool, "*.") && domain != pool[2..] && HasSuffix(domain, "." + pool[2..]))
  }

  // ------------------------------------------------------ what a pool covers

  /** `d` is some text, a dot and `s`. */
  ghost predicate Below(d: string, s: string) { exists p: string :: d == p + ("." + s) }

  /** A star covers everything, a star and a dot what lies below the rest, and any other pool itself alone. */
  ghost predicate Covers(pool: string, d: string) {
    if pool == "*" then true
    else if HasPrefix(pool, "*.") then Below(d, pool[2..])
    else d == pool
  }

  lemma SuffixIsBelow(d: string, s: string)
    ensures HasSuffix(d, "." + s) <==> Below(d, s)
  {
    if HasSuffix(d, "." + s) {
      assert d == d[..|d| - |"." + s|] + ("." + s);
    }
    if Below(d, s) {
      var p: string :| d == p + ("." + s);
      assert d[|p|..] == "." + s;
    }
  }

  lemma StarIsBelow(pool: string)
    requires HasPrefix(pool, "*.")
    ensures Below(pool, pool[2..])
  {
    assert pool == "*" + ("." + pool[2..]);
  }

  /** The test of one pool accepts exactly the domains that the pool covers. */
  lemma PoolMatchesExact(d: string, pool: string)
    ensures PoolMatches(d, pool) <==> Covers(pool, d)
  {
    if pool != "*" && HasPrefix(pool, "*.") {
      SuffixIsBelow(d, pool[2..]);
      StarIsBelow(pool);
    }
  }

  /** In particular a wildcard covers exactly what lies below it, so not a name that merely ends like it. */
  lemma WildcardExact(d: string, s: string)
    ensures PoolMatches(d, "*." + s) <==> exists p: string :: d == p + ("." + s)
  {
    assert ("*." + s)[2..] == s;
    PoolMatchesExact(d, "*." + s);
    assert PoolMatches(d, "*." + s) <==> Below(d, s);
  }

  ghost predicate Granted(d: string, pools: seq<string>) { exists pool :: pool in pools && Covers(pool, d) }

  lemma DomainInPoolsExact(d: string, pools: seq<string>)
    ensures DomainInPools(d, pools) <==> Granted(d, pools)
  {
    forall i | 0 <= i < |pools|
      ensures PoolMatches(d, pools[i]) <==> Covers(pools[i], d)
    {
      PoolMatchesExact(d, pools[i]);
    }
  }

  // ------------------------------------------------------------ properties

  /** The characters of a normalized domain. */
  predicate Clean(d: string) {
    forall i :: 0 <= i < |d| ==> CleanChar(d[i])
  }

  /** Every character that is not the separator is in one of the parts. */
  lemma {:induction false} LabelOf(s: string, sep: char, i: nat) returns (j: nat)
    requires i < |s| && s[i] != sep
    ensures j < |Split(s, sep)| && s[i] in Split(s, sep)[j]
    decreases |s|
  {
    var k := IndexOf(s, sep);
    if i < k {
      j := 0;
      assert s[..k][i] == s[i];
    } else {
      j := LabelOf(s[k + 1..], sep, i - k - 1);
      j := j + 1;
    }
  }

  lemma {:induction false} TrailingSeparator(s: string, sep: char)
    requires s != [] && s[|s| - 1] == sep
    ensures Split(s, sep)[|Split(s, sep)| - 1] == []
    decreases |s|
  {
    var rest := s[IndexOf(s, sep) + 1..];
    if rest == [] {
      assert Split([], sep) == [[]];
    } else {
      TrailingSeparator(rest, sep);
    }
  }

  lemma ValidIsClean(d: string)
    requires ValidDomain(d)
    ensures d != [] && Clean(d) && '*' !in d && d[|d| - 1] != '.'
  {
    var labels := Split(d, '.');
    forall i | 0 <= i < |d|
      ensures LabelChar(d[i]) || d[i] == '.'
    {
      if d[i] != '.' {
        var j := LabelOf(d, '.', i);
        assert ValidLabel(labels[j]);
      }
    }
    assert Split([], '.') == [[]];
    assert ValidLabel(labels[|labels| - 1]);
    if d[|d| - 1] == '.' {
      TrailingSeparator(d, '.');
    }
  }

  lemma JudgedIsClean(d: string)
    requires Judge(d).Ok?
    ensures Judge(d).value == d && Clean(d) && (d != "" ==> d[|d| - 1] != '.')
  {
    if d != "" && d != "*" {
      if HasPrefix(d, "*.") {
        ValidIsClean(d[2..]);
        assert forall i :: 2 <= i < |d| ==> d[i] == d[2..][i - 2];
      } else {
        ValidIsClean(d);
      }
    }
  }

  /** What the normalizer lets through is lower case, without spaces, paths, ports or colons. */
  lemma NormalizedIsClean(input: string)
    requires NormalizeDomain(input).Ok?
    ensures Clean(NormalizeDomain(input).value)
    ensures ':' !in NormalizeDomain(input).value
    ensures NormalizeDomain(input).value != "" ==>
              NormalizeDomain(input).value[|NormalizeDomain(input).value| - 1] != '.'
  {
    var d := Stripped(input);
    JudgedIsClean(d);
    LowerClean(d);
  }

  lemma SuffixEnds(s: string, c: char)
    requires HasSuffix(s, [c])
    ensures s != [] && s[|s| - 1] == c
  {
    assert s[|s| - 1..][0] == c;
  }

  predicate CleanChar(c: char) { LabelChar(c) || c == '.' || c == '*' }

  lemma CleanCharIsPlain(c: char)
    requires CleanChar(c)
    ensures LowerChar(c) == c && !IsSpace(c) && c != ':' && c != '/'
  {
  }

  lemma LowerClean(d: string)
    requires Clean(d)
    ensures ToLower(d) == d && TrimSpace(d) == d && ':' !in d && '/' !in d
  {
    forall i | 0 <= i < |d|
      ensures LowerChar(d[i]) == d[i] && !IsSpace(d[i]) && d[i] != ':' && d[i] != '/'
    {
      CleanCharIsPlain(d[i]);
    }
    TrimNothing(d);
  }

  lemma PrefixAbsent(d: string, p: string, k: nat)
    requires k < |p| && p[k] !in d
    ensures TrimPrefix(d, p) == d
  {
    if HasPrefix(d, p) {
      PrefixMember(d, p, k);
    }
  }

  lemma PrefixMember(d: string, p: string, k: nat)
    requires HasPrefix(d, p) && k < |p|
    ensures p[k] in d
  {
    assert d[k] == p[k];
  }

  lemma CutNothing(d: string)
    requires ':' !in d && '/' !in d
    ensures CutPath(d) == d
  {
    IndexOfAbsent(d, '/');
    IndexOfAbsent(d, ':');
  }

  /** Stripping leaves clean text alone. */
  lemma StrippedClean(d: string)
    requires Clean(d) && (d == "" || d[|d| - 1] != '.')
    ensures Stripped(d) == d
  {
    LowerClean(d);
    PrefixAbsent(d, "http://", 4);
    PrefixAbsent(d, "https://", 5);
    CutNothing(d);
    if HasSuffix(d, ".") {
      SuffixEnds(d, '.');
    }
  }

  /** Normalizing twice is normalizing once. */
  lemma NormalizeIdempotent(input: string)
    requires NormalizeDomain(input).Ok?
    ensures NormalizeDomain(NormalizeDomain(input).value) == NormalizeDomain(input)
  {
    NormalizedIsClean(input);
    StrippedClean(NormalizeDomain(input).value);
  }

  predicate Distinct(s: seq<string>) {
    forall i, j :: 0 <= i < j < |s| ==> s[i] != s[j]
  }

  /** A domain list as the registry stores it: distinct, non-empty, normalized. */
  predicate DomainsOk(ds: seq<string>) {
    Distinct(ds) && forall i :: 0 <= i < |ds| ==> ds[i] != "" && NormalizeDomain(ds[i]) == Ok(ds[i])
  }

  /** What the loop of NormalizeDomains does with one more normalized domain. */
  lemma AppendDomain(done: seq<string>, d: string)
    requires DomainsOk(done) && NormalizeDomain(d) == Ok(d)
    ensures DomainsOk(if d == "" || d in done then done else done + [d])
  {
  }

  lemma {:induction false} NormalizedList(values: seq<string>, done: seq<string>)
    requires DomainsOk(done) && NormalizeFrom(values, done).Ok?
    ensures DomainsOk(NormalizeFrom(values, done).value)
  {
    if values != [] {
      var d := NormalizeDomain(values[0]).value;
      NormalizeIdempotent(values[0]);
      AppendDomain(done, d);
      NormalizedList(values[1..], if d == "" || d in done then done else done + [d]);
    }
  }

  /** `ds` are the non-empty domains that `values` normalize to. */
  ghost predicate SameDomains(ds: seq<string>, values: seq<string>) {
    forall d :: d in ds <==> d != "" && Among(values, d)
  }

  ghost predicate Among(values: seq<string>, d: string) {
    exists v :: v in values && NormalizeDomain(v) == Ok(d)
  }

  lemma AmongStep(values: seq<string>, d: string)
    requires values != []
    ensures Among(values, d) <==> NormalizeDomain(values[0]) == Ok(d) || Among(values[1..], d)
  {
    assert values == [values[0]] + values[1..];
  }

  function More(done: seq<string>, d: string): seq<string> { if d == "" || d in done then done else done + [d] }

  /** Each domain is accepted. */
  predicate AllAccepted(values: seq<string>) {
    forall v :: v in values ==> NormalizeDomain(v).Ok?
  }

  lemma AllAcceptedStep(values: seq<string>)
    requires values != []
    ensures AllAccepted(values) <==> NormalizeDomain(values[0]).Ok? && AllAccepted(values[1..])
  {
    assert values == [values[0]] + values[1..];
  }

  lemma {:induction false} AcceptedExact(values: seq<string>, done: seq<string>)
    ensures NormalizeFrom(values, done).Ok? <==> AllAccepted(values)
  {
    if values != [] {
      AllAcceptedStep(values);
      var r := NormalizeDomain(values[0]);
      if r.Ok? {
        AcceptedExact(values[1..], More(done, r.value));
      }
    }
  }

  lemma {:induction false} MembersExact(values: seq<string>, done: seq<string>, d: string)
    requires NormalizeFrom(values, done).Ok?
    ensures d in NormalizeFrom(values, done).value <==> d in done || (d != "" && Among(values, d))
  {
    if values != [] {
      AmongStep(values, d);
      MembersExact(values[1..], More(done, NormalizeDomain(values[0]).value), d);
    }
  }

  /** A list is accepted exactly if each of its domains is, and then it keeps each of them. */
  lemma NormalizedListExact(values: seq<string>)
    ensures NormalizeFrom(values, []).Ok? <==> AllAccepted(values)
    ensures NormalizeFrom(values, []).Ok? ==>
              DomainsOk(NormalizeFrom(values, []).value) && SameDomains(NormalizeFrom(values, []).value, values)
  {
    AcceptedExact(values, []);
    if NormalizeFrom(values, []).Ok? {
      NormalizedList(values, []);
      forall d
        ensures d in NormalizeFrom(values, []).value <==> d != "" && Among(values, d)
      {
        MembersExact(values, [], d);
      }
    }
  }

  lemma NewDomainStep(values: seq<string>, done: seq<string>)
    requires values != [] && values[0] != "" && NormalizeDomain(values[0]) == Ok(values[0]) && values[0] !in done
    ensures NormalizeFrom(values, done) == NormalizeFrom(values[1..], done + [values[0]])
  {
  }

  lemma CutAt(ds: seq<string>, k: nat)
    requires k < |ds| && Distinct(ds)
    ensures ds[k] !in ds[..k]
    ensures ds[k..] != [] && ds[k..][0] == ds[k] && ds[k..][1..] == ds[k + 1..] && ds[..k] + [ds[k]] == ds[..k + 1]
  {
  }

  lemma {:induction false} NormalizedFixed(ds: seq<string>, k: nat)
    requires k <= |ds| && DomainsOk(ds)
    ensures NormalizeFrom(ds[k..], ds[..k]) == Ok(ds)
    decreases |ds| - k
  {
    if k == |ds| {
      assert ds[..k] == ds;
    } else {
      CutAt(ds, k);
      NewDomainStep(ds[k..], ds[..k]);
      NormalizedFixed(ds, k + 1);
    }
  }

  /** A list that was normalized is left alone. */
  lemma NormalizedAgain(ds: seq<string>)
    requires DomainsOk(ds)
    ensures NormalizeFrom(ds, []) == Ok(ds)
  {
    NormalizedFixed(ds, 0);
    assert ds[0..] == ds && ds[..0] == [];
  }

  lemma StoredHasNoColon(d: string)
    requires NormalizeDomain(d) == Ok(d)
    ensures ':' !in d
  {
    NormalizedIsClean(d);
  }

  // ---------------------------------------------------- what is normalized

  /** Two or more labels with dots between them. */
  ghost predicate Hostname(d: string) {
    && |d| <= 253
    && exists labels: seq<string> :: |labels| >= 2 && LabelsOk(labels) && d == Join(labels, '.')
  }

  /** A label: letters, digits and hyphens, no hyphen at either end. */
  predicate Label(part: string) {
    && 1 <= |part| <= 63 && part[0] != '-' && part[|part| - 1] != '-'
    && forall i :: 0 <= i < |part| ==> part[i] in "abcdefghijklmnopqrstuvwxyz0123456789-"
  }

  predicate LabelsOk(labels: seq<string>) { forall i :: 0 <= i < |labels| ==> Label(labels[i]) }

  lemma LabelCharExact(c: char)
    ensures LabelChar(c) <==> c in "abcdefghijklmnopqrstuvwxyz0123456789-"
  {
  }

  lemma LabelExact(part: string)
    ensures ValidLabel(part) <==> Label(part)
  {
    forall i | 0 <= i < |part|
      ensures LabelChar(part[i]) <==> part[i] in "abcdefghijklmnopqrstuvwxyz0123456789-"
    {
      LabelCharExact(part[i]);
    }
  }

  lemma LabelsExact(labels: seq<string>)
    ensures LabelsOk(labels) <==> forall i :: 0 <= i < |labels| ==> ValidLabel(labels[i])
  {
    forall i | 0 <= i < |labels|
      ensures ValidLabel(labels[i]) <==> Label(labels[i])
    {
      LabelExact(labels[i]);
    }
  }

  lemma LabelHasNoDot(part: string)
    requires Label(part)
    ensures '.' !in part
  {
  }

  lemma HostnameExact(d: string)
    ensures ValidDomain(d) <==> Hostname(d)
  {
    if ValidDomain(d) {
      JoinSplit(d, '.');
      LabelsExact(Split(d, '.'));
    }
    if Hostname(d) {
      var labels: seq<string> :| |labels| >= 2 && LabelsOk(labels) && d == Join(labels, '.');
      forall i | 0 <= i < |labels|
        ensures '.' !in labels[i]
      {
        LabelHasNoDot(labels[i]);
      }
      LabelsExact(labels);
      SplitJoin(labels, '.');
    }
  }

  lemma JudgeExact(d: string)
    ensures Judge(d).Ok? <==> d == "" || d == "*" || Hostname(if HasPrefix(d, "*.") then d[2..] else d)
  {
    HostnameExact(if HasPrefix(d, "*.") then d[2..] else d);
    if !HasPrefix(d, "*.") && ValidDomain(d) {
      ValidIsClean(d);
    }
  }

  /** The texts that stay as they are: nothing, a star, and a host name with or without a star and a dot before it. */
  lemma NormalFormExact(d: string)
    ensures NormalizeDomain(d) == Ok(d)
            <==> d == "" || d == "*" || Hostname(if HasPrefix(d, "*.") then d[2..] else d)
  {
    JudgeExact(d);
    if Judge(d).Ok? {
      JudgedIsClean(d);
      StrippedClean(d);
    }
    if NormalizeDomain(d) == Ok(d) {
      assert Stripped(d) == d;
    }
  }

  /** What may stand before a host name in an address. */
  predicate Scheme(text: string) { text == "" || text == "http://" || text == "https://" }

  /** What may follow it: nothing, a dot at the end, or a path or port. */
  predicate Tail(text: string) { text == "" || text == "." || (text != "" && (text[0] == '/' || text[0] == ':')) }

  /** What cutting and trimming need to know of a host name. */
  predicate Solid(host: string) {
    && host != "" && '.' in host && '/' !in host && ':' !in host
    && !IsSpace(host[0]) && !IsSpace(host[|host| - 1]) && host[|host| - 1] != '.'
  }

  lemma HostnameIsSolid(host: string)
    requires Hostname(host)
    ensures Solid(host)
  {
    HostnameExact(host);
    ValidIsClean(host);
    LowerClean(host);
    CleanCharIsPlain(host[0]);
    CleanCharIsPlain(host[|host| - 1]);
    if '.' !in host {
      IndexOfAbsent(host, '.');
    }
  }

  lemma NoOtherScheme(host: string, tail: string, scheme: string)
    requires '.' in host && '/' !in host
    requires scheme != "" && '.' !in scheme && scheme[|scheme| - 1] == '/'
    ensures !HasPrefix(host + tail, scheme)
  {
    var s := host + tail;
    var j :| 0 <= j < |host| && host[j] == '.';
    if j < |scheme| {
      assert s[j] == '.' && scheme[j] in scheme;
    } else {
      var k := |scheme| - 1;
      assert s[k] == host[k] && host[k] in host;
    }
  }

  lemma NoDotAtEnd(host: string)
    requires host != "" && host[|host| - 1] != '.'
    ensures TrimSuffix(host, ".") == host && TrimSuffix(host + ".", ".") == host
  {
    if HasSuffix(host, ".") {
      SuffixEnds(host, '.');
    }
    assert (host + ".")[|host|..] == ".";
  }

  /** The index of the first `c` of a text whose beginning has none. */
  lemma IndexBeyond(host: string, tail: string, c: char)
    requires c !in host
    ensures IndexOf(host + tail, c) >= |host|
  {
    var s := host + tail;
    assert forall k :: 0 <= k < |host| ==> s[k] != c;
  }

  lemma CutAtTail(host: string, tail: string)
    requires '/' !in host && ':' !in host && tail != "" && (tail[0] == '/' || tail[0] == ':')
    ensures CutPath(host + tail) == host
  {
    var c := tail[0];
    assert host + tail == host + [c] + tail[1..];
    IndexOfAfter(host, c, tail[1..]);
    IndexBeyond(host, tail, '/');
    IndexBeyond(host, tail, ':');
  }

  lemma CutTail(host: string, tail: string)
    requires Solid(host) && Tail(tail)
    ensures TrimSuffix(CutPath(host + tail), ".") == host
  {
    NoDotAtEnd(host);
    if tail == "" {
      assert host + tail == host;
      CutNothing(host);
    } else if tail == "." {
      CutNothing(host + ".");
    } else {
      CutAtTail(host, tail);
    }
  }

  lemma SchemeOff(scheme: string, host: string, tail: string)
    requires Scheme(scheme) && Solid(host)
    ensures TrimPrefix(TrimPrefix(scheme + (host + tail), "http://"), "https://") == host + tail
  {
    var rest := host + tail;
    NoOtherScheme(host, tail, "http://");
    NoOtherScheme(host, tail, "https://");
    assert (scheme + rest)[|scheme|..] == rest;
    if scheme == "" {
      assert scheme + rest == rest;
    } else if scheme == "https://" {
      assert (scheme + rest)[4] == 's';
    }
  }

  /** Spaces at the end of what follows the host name go. */
  lemma SpacesOff(scheme: string, host: string, tail: string) returns (kept: string)
    requires Scheme(scheme) && Solid(host) && Tail(tail)
    ensures Tail(kept) && TrimSpace(scheme + (host + tail)) == scheme + (host + kept)
  {
    var front := scheme + host;
    kept := TrimRight(tail);
    Assoc(scheme, host, tail);
    Assoc(scheme, host, kept);
    FrontIsSolid(scheme, host);
    assert (front + tail)[0] == front[0];
    assert TrimLeft(front + tail) == front + tail;
    TrimRightAfter(front, tail);
    TailTrimmed(tail);
  }

  lemma FrontIsSolid(scheme: string, host: string)
    requires Scheme(scheme) && Solid(host)
    ensures var front := scheme + host;
      front != "" && !IsSpace(front[0]) && !IsSpace(front[|front| - 1])
  {
    var front := scheme + host;
    assert front[|front| - 1] == host[|host| - 1];
    assert front[0] == if scheme == "" then host[0] else 'h';
  }

  lemma TailTrimmed(tail: string)
    requires Tail(tail)
    ensures Tail(TrimRight(tail))
  {
    if tail != "" {
      var c := tail[0];
      assert tail == [c] + tail[1..];
      TrimRightAfter([c], tail[1..]);
    }
  }

  /**
  The host name is found in an address: in any case, with or without a scheme before it and a
  path, a port or a dot after it.
  */
  lemma AddressNormalizes(scheme: string, host: string, tail: string)
    requires Scheme(ToLower(scheme)) && Hostname(ToLower(host)) && Tail(ToLower(tail))
    ensures NormalizeDomain(scheme + (host + tail)) == Ok(ToLower(host))
  {
    var s, h, t := ToLower(scheme), ToLower(host), ToLower(tail);
    LowerAppend(host, tail);
    LowerAppend(scheme, host + tail);
    HostnameIsSolid(h);
    var kept := SpacesOff(s, h, t);
    SchemeOff(s, h, kept);
    CutTail(h, kept);
    JudgeExact(h);
    HostnameExact(h);
    ValidIsClean(h);
    JudgedIsClean(h);
  }
}
