/** The routing table and the redirects that are decided from it. */
module Route {
  import opened Basics

  type Host = string

  type Name = string

  datatype Upstream = Upstream(addrs: seq<int>, maxRetry: nat)

  datatype SiteConf = SiteConf(upstream: Upstream, certHost: Host)

  datatype Site = Site(upstream: Upstream, hosts: set<Host>)

  datatype Table = Table(hostConf: map<Host, SiteConf>, upstreamSite: map<Name, Site>)

  datatype Op = AddUpstream(name: Name, upstream: Upstream) | Set(host: Host, certHost: Host, name: Name)

  function Apply(t: Table, op: Op): Table {
    match op
    case AddUpstream(name, upstream) =>
      t.(upstreamSite := t.upstreamSite[name := Site(upstream, {})])
    case Set(host, certHost, name) =>
      if name !in t.upstreamSite then t else
      var site := t.upstreamSite[name];
      Table(t.hostConf[host := SiteConf(site.upstream, certHost)],
            t.upstreamSite[name := site.(hosts := site.hosts + {host})])
  }

  class Route {
    var hostConf: map<Host, SiteConf>
    var upstreamSite: map<Name, Site>

    function Contents(): Table
      reads this
    {
      Table(hostConf, upstreamSite)
    }

    constructor ()
      ensures Contents() == Table(map[], map[])
    {
      hostConf := map[];
      upstreamSite := map[];
    }

    method AddUpstream(name: Name, upstream: Upstream)
      modifies this
      ensures Contents() == Apply(old(Contents()), Op.AddUpstream(name, upstream))
      ensures hostConf == old(hostConf)
      ensures name in upstreamSite && upstreamSite[name] == Site(upstream, {})
    {
      upstreamSite := upstreamSite[name := Site(upstream, {})];
    }

    method Set(host: Host, certHost: Host, name: Name)
      modifies this
      ensures Contents() == Apply(old(Contents()), Op.Set(host, certHost, name))
      ensures name !in old(upstreamSite) ==> Contents() == old(Contents())
      ensures name in old(upstreamSite) ==>
                && hostConf == old(hostConf)[host := SiteConf(old(upstreamSite)[name].upstream, certHost)]
                && upstreamSite.Keys == old(upstreamSite).Keys && host in upstreamSite[name].hosts
                && (forall n | n in upstreamSite :: upstreamSite[n].upstream == old(upstreamSite)[n].upstream)
    {
      if name in upstreamSite {
        var t := upstreamSite[name];
        upstreamSite := upstreamSite[name := t.(hosts := t.hosts + {host})];
        hostConf := hostConf[host := SiteConf(t.upstream, certHost)];
      }
    }
  }

  // ---- History -------------------------------------------------------------------------------------------------

  function After(ops: seq<Op>): Table {
    if ops == [] then Table(map[], map[]) else Apply(After(ops[..|ops| - 1]), ops[|ops| - 1])
  }

  /** The latest definition of an upstream, if any: where it stands in the history. */
  function Defined(ops: seq<Op>, name: Name): Option<nat> {
    if ops == [] then None else
    var n := |ops| - 1;
    if ops[n].AddUpstream? && ops[n].name == name then Some(n) else Defined(ops[..n], name)
  }

  /** A `set` counts only if its upstream is defined by then. */
  predicate Effective(ops: seq<Op>, i: nat) {
    i < |ops| && ops[i].Set? && Defined(ops[..i], ops[i].name).Some?
  }

  /** The latest effective `set` of a host, if any. */
  function LatestSet(ops: seq<Op>, host: Host): (r: Option<nat>)
    ensures r.Some? ==> Effective(ops, r.value)
  {
    if ops == [] then None else
    var n := |ops| - 1;
    if ops[n].Set? && ops[n].host == host && Effective(ops, n) then Some(n) else
    var r := LatestSet(ops[..n], host);
    assert r.Some? ==> ops[..n][..r.value] == ops[..r.value];
    r
  }

  lemma {:induction false} DefinedIs(ops: seq<Op>, name: Name)
    ensures match Defined(ops, name)
            case None => name !in After(ops).upstreamSite
            case Some(d) =>
              && d < |ops| && ops[d].AddUpstream? && ops[d].name == name
              && (forall j | d < j < |ops| && ops[j].AddUpstream? :: ops[j].name != name)
              && name in After(ops).upstreamSite && After(ops).upstreamSite[name].upstream == ops[d].upstream
  {
    if ops != [] {
      DefinedIs(ops[..|ops| - 1], name);
    }
  }

  lemma {:induction false} LatestSetIs(ops: seq<Op>, host: Host, j: nat)
    requires Effective(ops, j) && ops[j].host == host
    ensures LatestSet(ops, host).Some? && j <= LatestSet(ops, host).value
    ensures ops[LatestSet(ops, host).value].host == host
  {
    var n := |ops| - 1;
    if j < n {
      assert ops[..n][..j] == ops[..j];
      LatestSetIs(ops[..n], host, j);
    }
  }

  /**
   `host_conf` is the history's latest effective `set` of each host, with the upstream as it was defined at that
   moment: later redefinitions do not touch it. A host is missing exactly if no `set` of it was effective.
   */
  lemma {:induction false} HostConfIsHistory(ops: seq<Op>, host: Host)
    ensures match LatestSet(ops, host)
            case None => host !in After(ops).hostConf && forall j: nat | Effective(ops, j) :: ops[j].host != host
            case Some(i) =>
              var d := Defined(ops[..i], ops[i].name);
              && d.Some? && d.value < i && ops[d.value].AddUpstream? && ops[i].host == host
              && (forall j: nat | Effective(ops, j) && ops[j].host == host :: j <= i)
              && host in After(ops).hostConf
              && After(ops).hostConf[host] == SiteConf(ops[d.value].upstream, ops[i].certHost)
  {
    forall j: nat | Effective(ops, j) && ops[j].host == host
      ensures LatestSet(ops, host).Some? && j <= LatestSet(ops, host).value
    {
      LatestSetIs(ops, host, j);
    }
    HostConfIsLatest(ops, host);
  }

  lemma {:induction false} HostConfIsLatest(ops: seq<Op>, host: Host)
    ensures match LatestSet(ops, host)
            case None => host !in After(ops).hostConf
            case Some(i) =>
              var d := Defined(ops[..i], ops[i].name);
              && d.Some? && d.value < i && ops[d.value].AddUpstream? && ops[i].host == host
              && host in After(ops).hostConf
              && After(ops).hostConf[host] == SiteConf(ops[d.value].upstream, ops[i].certHost)
  {
    if ops != [] {
      var n := |ops| - 1;
      HostConfIsLatest(ops[..n], host);
      if LatestSet(ops[..n], host).Some? {
        var i := LatestSet(ops[..n], host).value;
        assert ops[..n][..i] == ops[..i];
      }
      if ops[n].Set? {
        DefinedIs(ops[..n], ops[n].name);
      }
    }
  }

  /** The hosts of an upstream are those effectively set to it since its latest definition, and all are routed. */
  lemma {:induction false} HostSetIsHistory(ops: seq<Op>, name: Name, host: Host)
    requires name in After(ops).upstreamSite
    ensures Defined(ops, name).Some?
    ensures host in After(ops).upstreamSite[name].hosts <==>
            exists i :: Defined(ops, name).value < i < |ops|
                        && ops[i].Set? && ops[i].host == host && ops[i].name == name
    ensures host in After(ops).upstreamSite[name].hosts ==> host in After(ops).hostConf
  {
    DefinedIs(ops, name);
    var n := |ops| - 1;
    if !(ops[n].AddUpstream? && ops[n].name == name) {
      DefinedIs(ops[..n], name);
      HostSetIsHistory(ops[..n], name, host);
      assert forall j | 0 <= j < n :: ops[..n][j] == ops[j];
    }
  }

  // ---- Redirects -----------------------------------------------------------------------------------------------

  /** `sub` stands for the `sub_host` crate. */
  datatype Decision = Forward(conf: SiteConf) | Redirect(host: Host, location: string) | NotFound | BadLocation

  /** Port 80: everything goes to https; `headerOk` tells whether the location is a legal header value. */
  function OverHttp(conf: map<Host, SiteConf>, sub: Host -> Option<Host>, headerOk: string -> bool,
                    host: Host, pathAndQuery: Option<string>): Decision
  {
    var pq := if pathAndQuery.Some? then pathAndQuery.value else "/";
    if host in conf then
      var uri := "https://" + host + pq;
      if headerOk(uri) then Redirect(host, uri) else BadLocation
    else if sub(host).Some? && sub(host).value in conf then
      var uri := "https://" + sub(host).value + pq;
      if headerOk(uri) then Redirect(sub(host).value, uri) else BadLocation
    else
      NotFound
  }

  /** Port 443: a configured host is served, its parent redirected to. */
  function OverHttps(conf: map<Host, SiteConf>, sub: Host -> Option<Host>, headerOk: string -> bool,
                     host: Host, pathAndQuery: Option<string>): Decision
  {
    var pq := if pathAndQuery.Some? then pathAndQuery.value else "";
    if host in conf then
      Forward(conf[host])
    else if sub(host).Some? && sub(host).value in conf then
      var uri := "https://" + sub(host).value + pq;
      if headerOk(uri) then Redirect(sub(host).value, uri) else BadLocation
    else
      NotFound
  }

  /** Where a host is served: at itself, else at its parent. */
  ghost predicate ServedAt(conf: map<Host, SiteConf>, sub: Host -> Option<Host>, host: Host, target: Host) {
    target in conf && if host in conf then target == host else sub(host) == Some(target)
  }

  /** The decisions of both ports, said by where the host is served. */
  lemma DecisionsAre(conf: map<Host, SiteConf>, sub: Host -> Option<Host>, headerOk: string -> bool,
                     host: Host, pq: Option<string>)
    ensures var d := OverHttp(conf, sub, headerOk, host, pq);
            && (d.NotFound? <==> forall h :: !ServedAt(conf, sub, host, h)) && !d.Forward?
            && (d.Redirect? ==> ServedAt(conf, sub, host, d.host) && headerOk(d.location)
                                && d.location == "https://" + d.host + if pq.Some? then pq.value else "/")
            && (d.BadLocation? <==> exists h :: ServedAt(conf, sub, host, h)
                                                && !headerOk("https://" + h + if pq.Some? then pq.value else "/"))
    ensures var d := OverHttps(conf, sub, headerOk, host, pq);
            && (d.NotFound? <==> forall h :: !ServedAt(conf, sub, host, h))
            && (d.Forward? <==> host in conf) && (d.Forward? ==> d.conf == conf[host])
            && (d.Redirect? ==> ServedAt(conf, sub, host, d.host) && headerOk(d.location)
                                && d.location == "https://" + d.host + if pq.Some? then pq.value else "")
            && (d.BadLocation? <==>
                  host !in conf
                  && exists h :: ServedAt(conf, sub, host, h)
                                 && !headerOk("https://" + h + if pq.Some? then pq.value else ""))
  {
    if host in conf {
      assert ServedAt(conf, sub, host, host);
    } else if sub(host).Some? && sub(host).value in conf {
      assert ServedAt(conf, sub, host, sub(host).value);
    }
  }

  // ---- Following a redirect ------------------------------------------------------------------------------------

  /** What ends the authority of a URL (section 3.2 of RFC 3986). */
  predicate EndsHost(c: char) {
    c in {'/', '?', '#'}
  }

  /** The part of a URL in front of its path. */
  function Authority(s: string): (n: nat)
    ensures n <= |s| && (forall i | 0 <= i < n :: !EndsHost(s[i])) && (n < |s| ==> EndsHost(s[n]))
  {
    if s == "" || EndsHost(s[0]) then 0 else 1 + Authority(s[1..])
  }

  datatype Port = Http | Https

  datatype Target = Target(port: Port, host: Host, rest: Option<string>)

  function Scheme(port: Port): string {
    match port case Http => "http://" case Https => "https://"
  }

  /** Where a client goes with a location. */
  function Followed(location: string): Option<Target> {
    var port := if Scheme(Https) <= location then Https else Http;
    if !(Scheme(port) <= location) then None else
    var rest := location[|Scheme(port)|..];
    var k := Authority(rest);
    Some(Target(port, rest[..k], if k == |rest| then None else Some(rest[k..])))
  }

  /** A host that a URL can name. */
  predicate IsName(host: Host) {
    forall c | c in host :: !EndsHost(c)
  }

  /** A path that can follow a host, or none at all. */
  predicate IsPath(rest: string) {
    rest == "" || EndsHost(rest[0])
  }

  lemma {:induction false} AuthorityIs(host: Host, rest: string)
    ensures Authority(host + rest) == |host| <==> IsName(host) && IsPath(rest)
  {
    if host == "" {
      assert host + rest == rest;
    } else {
      assert (host + rest)[1..] == host[1..] + rest;
      AuthorityIs(host[1..], rest);
      assert IsName(host) <==> !EndsHost(host[0]) && IsName(host[1..]) by {
        assert forall c :: c in host <==> c == host[0] || c in host[1..];
      }
    }
  }

  lemma SchemeIs(port: Port, s: string)
    ensures Scheme(port) <= Scheme(port) + s && (Scheme(port) + s)[|Scheme(port)|..] == s
    ensures Scheme(Https) <= Scheme(port) + s <==> port == Https
  {
    if port == Http {
      assert (Scheme(port) + s)[4] == ':';
    }
  }

  /** A location leads back to the host and path that it was made of if and only if one can be told from the other. */
  lemma FollowedIff(port: Port, host: Host, rest: string)
    ensures Followed(Scheme(port) + (host + rest)) == Some(Target(port, host, if rest == "" then None else Some(rest)))
            <==> IsName(host) && IsPath(rest)
  {
    SchemeIs(port, host + rest);
    AuthorityIs(host, rest);
    var k := Authority(host + rest);
    assert k == |host| ==> (host + rest)[..k] == host && (host + rest)[k..] == rest;
  }

  function Decide(conf: map<Host, SiteConf>, sub: Host -> Option<Host>, headerOk: string -> bool, at: Target)
    : Decision
  {
    match at.port
    case Http => OverHttp(conf, sub, headerOk, at.host, at.rest)
    case Https => OverHttps(conf, sub, headerOk, at.host, at.rest)
  }

  /** How many redirects a client follows, of at most `patience`, until it is answered otherwise. */
  function Redirects(conf: map<Host, SiteConf>, sub: Host -> Option<Host>, headerOk: string -> bool,
                     at: Target, patience: nat): nat
    decreases patience
  {
    var d := Decide(conf, sub, headerOk, at);
    if patience == 0 || !d.Redirect? || Followed(d.location).None? then 0
    else 1 + Redirects(conf, sub, headerOk, Followed(d.location).value, patience - 1)
  }

  /** The location of a redirect leads to port 443 of a configured host, with path and query, and it is served there. */
  lemma RedirectLeads(conf: map<Host, SiteConf>, sub: Host -> Option<Host>, headerOk: string -> bool, at: Target)
    requires (forall h | h in conf :: IsName(h)) && (at.rest.Some? ==> IsPath(at.rest.value))
    requires Decide(conf, sub, headerOk, at).Redirect?
    ensures var d := Decide(conf, sub, headerOk, at);
            && Followed(d.location).Some? && ServedAt(conf, sub, at.host, d.host)
            && var next := Followed(d.location).value;
               && next.port == Https && next.host == d.host
               && (at.rest.Some? && at.rest.value != "" ==> next.rest == at.rest)
               && Decide(conf, sub, headerOk, next) == Decision.Forward(conf[d.host])
  {
    var d := Decide(conf, sub, headerOk, at);
    DecisionsAre(conf, sub, headerOk, at.host, at.rest);
    var rest := if at.rest.Some? then at.rest.value else if at.port == Http then "/" else "";
    assert d.location == Scheme(Https) + (d.host + rest);
    FollowedIff(Https, d.host, rest);
  }

  /**
   With routes fixed, a client that follows the location of any redirect is forwarded next. So no chain has more than
   one redirect, whatever `sub_host` does. It takes hosts that a URL can name, and a path that can follow one;
   `FollowedIff` says that nothing less will do.
   */
  lemma RedirectsEnd(conf: map<Host, SiteConf>, sub: Host -> Option<Host>, headerOk: string -> bool,
                     at: Target, patience: nat)
    requires (forall h | h in conf :: IsName(h)) && (at.rest.Some? ==> IsPath(at.rest.value))
    ensures Redirects(conf, sub, headerOk, at, patience) <= 1
  {
    var d := Decide(conf, sub, headerOk, at);
    if patience > 0 && d.Redirect? {
      RedirectLeads(conf, sub, headerOk, at);
      assert Redirects(conf, sub, headerOk, Followed(d.location).value, patience - 1) == 0;
    }
  }

  /** The target of `OPTIONS *` is no path: its redirect goes to a host that nobody asked for. */
  lemma StarGoesAstray(conf: map<Host, SiteConf>, sub: Host -> Option<Host>, headerOk: string -> bool, host: Host)
    requires host in conf && IsName(host) && headerOk("https://" + host + "*")
    ensures var d := OverHttp(conf, sub, headerOk, host, Some("*"));
            d.Redirect? && Followed(d.location) == Some(Target(Https, host + "*", None))
  {
    var astray := host + "*";
    assert astray + "" == astray && Scheme(Https) + astray == "https://" + host + "*";
    FollowedIff(Https, astray, "");
  }

  /** Both ports agree on where a host is served. */
  lemma PortsAgree(conf: map<Host, SiteConf>, sub: Host -> Option<Host>, headerOk: string -> bool,
                   host: Host, pq: Option<string>)
    ensures var http, https := OverHttp(conf, sub, headerOk, host, pq), OverHttps(conf, sub, headerOk, host, pq);
            && (http.NotFound? <==> https.NotFound?)
            && (http.Redirect? ==> OverHttps(conf, sub, headerOk, http.host, pq).Forward?)
            && (https.Redirect? ==> OverHttps(conf, sub, headerOk, https.host, pq).Forward?)
            && (http.Redirect? && https.Forward? ==> http.host == host)
            && (http.Redirect? && https.Redirect? ==> http.host == https.host)
            && (https.BadLocation? ==> host !in conf)
  {
    DecisionsAre(conf, sub, headerOk, host, pq);
  }
}
