/** Forward and reverse answers for cluster names, from the store. */
module KubeAnswers {
  import opened Names
  import opened KubeModel
  import opened KubeStore
  import opened DnsText

  datatype QType = QA | QAAAA | QANY | QSRV | QCNAME | QPTR | QOther

  datatype Answer =
    | Addr(name: Name, ip: Ip)
    | Srv(name: Name, port: nat, target: Name)
    | Alias(name: Name, external: string)
    | Ptr(name: Name, target: Name)

  /** `dash` is the label a bare address gets ("10-0-0-1"). */
  datatype Config = Config(
    zone: Name, namespaces: seq<string>, endpointPodNames: bool, ignoreEmptyService: bool, dash: Ip -> string)

  // ---------------------------------------------------------------- labels

  predicate Wild(s: string) { s == "*" || s == "any" }

  predicate Underscored(s: string) { s != "" && s[0] == '_' }

  function NameOf(cfg: Config, labels: seq<string>): Name { NonEmpty(labels) + cfg.zone }

  function ServiceName(cfg: Config, svc: Svc): Name { NameOf(cfg, [svc.name, svc.namespace, "svc"]) }

  function EndpointHost(cfg: Config, e: Endpoint): string {
    if e.hostname.Some? then e.hostname.value
    else if cfg.endpointPodNames && e.podName.Some? then e.podName.value
    else if e.ips != [] then cfg.dash(e.ips[0])
    else ""
  }

  function EndpointName(cfg: Config, svc: Svc, e: Endpoint): Name {
    NameOf(cfg, [EndpointHost(cfg, e), svc.name, svc.namespace, "svc"])
  }

  // -------------------------------------------------------------- questions

  datatype Parsed =
    | SvcName(namespace: string, service: string, endpoint: Option<string>, port: Option<string>, protocol: Option<string>)
    | OtherName
    | Invalid

  /** What the labels below the zone mean, leaf first. */
  function ParseName(rel: seq<string>): Parsed {
    if |rel| == 3 && rel[2] == "svc" then SvcName(rel[1], rel[0], None, None, None)
    else if |rel| == 4 && rel[3] == "svc" && !Underscored(rel[0]) then SvcName(rel[2], rel[1], Some(rel[0]), None, None)
    else if |rel| == 5 && rel[4] == "svc" && Underscored(rel[1]) && Underscored(rel[0]) then
      SvcName(rel[3], rel[2], None, Some(rel[0][1..]), Some(rel[1][1..]))
    else if |rel| == 5 && rel[4] == "svc" && Underscored(rel[1]) && Wild(rel[0]) then
      SvcName(rel[3], rel[2], None, Some("*"), Some(rel[1][1..]))
    else if rel == [] || rel == ["dns"] || rel == ["ns", "dns"] || rel == ["dns-version"]
         || rel == ["svc"] || (|rel| == 2 && rel[1] == "svc")
         || rel == ["pod"] || (2 <= |rel| <= 3 && rel[|rel| - 1] == "pod") then OtherName
    else Invalid
  }

  function Relative(cfg: Config, n: Name): seq<string>
    requires IsSubdomain(cfg.zone, n)
  {
    LowerAll(n[..|n| - |cfg.zone|])
  }

  predicate PortMatches(p: Port, port: Option<string>, protocol: Option<string>) {
    port.None? ||
    ((Wild(port.value) || Lower(p.name) == Lower(port.value)) &&
     (protocol.None? || Wild(protocol.value) || Lower(p.protocol) == Lower(protocol.value)))
  }

  predicate Exposed(cfg: Config, c: Cluster, ns: string) {
    (cfg.namespaces == [] || ns in cfg.namespaces) && ns in c.namespaces
  }

  // ----------------------------------------------- what the answers must be

  /** `e` is a ready endpoint of the service (any endpoint when it publishes all). */
  ghost predicate ReadyEndpoint(c: Cluster, svc: Svc, e: Endpoint) {
    && (e.ready || svc.publishNotReady)
    && var slices := SlicesOf(c.endpoints, (svc.namespace, svc.name));
       exists s, i :: s in slices && 0 <= i < |slices[s]| && slices[s][i] == e
  }

  predicate FamilyAsked(ip: Ip, qtype: QType) {
    qtype == QANY || (ip.V4? && qtype == QA) || (ip.V6? && qtype == QAAAA)
  }

  predicate AsksAddress(qtype: QType) { qtype == QA || qtype == QAAAA || qtype == QANY }

  predicate HostAsked(cfg: Config, p: Parsed, e: Endpoint)
    requires p.SvcName?
  {
    p.endpoint.None? || Wild(p.endpoint.value) || Lower(p.endpoint.value) == Lower(EndpointHost(cfg, e))
  }

  predicate ByEndpoint(p: Parsed, svc: Svc)
    requires p.SvcName?
  {
    svc.headless || p.endpoint.Some?
  }

  /** The service is ignored because it has no ready endpoint. */
  ghost predicate Ignored(cfg: Config, c: Cluster, p: Parsed, svc: Svc)
    requires p.SvcName?
  {
    cfg.ignoreEmptyService && (p.endpoint.None? || svc.headless) && forall e :: !ReadyEndpoint(c, svc, e)
  }

  /** The answers one endpoint gives. */
  ghost predicate EndpointGives(cfg: Config, p: Parsed, qname: Name, qtype: QType, svc: Svc, e: Endpoint, a: Answer)
    requires p.SvcName?
  {
    && HostAsked(cfg, p, e)
    && (match a
        case Srv(n, port, target) =>
          && qtype == QSRV && n == (if p.port.Some? then qname else ServiceName(cfg, svc))
          && target == EndpointName(cfg, svc, e)
          && exists i :: 0 <= i < |e.ports| && PortMatches(e.ports[i], p.port, p.protocol) && e.ports[i].port == port
        case Addr(n, ip) =>
          && AsksAddress(qtype) && p.port.None? && n == (if p.endpoint.Some? then qname else ServiceName(cfg, svc))
          && ip in e.ips && FamilyAsked(ip, qtype)
        case _ => false)
  }

  ghost predicate ClusterGives(cfg: Config, p: Parsed, qname: Name, qtype: QType, svc: Svc, a: Answer)
    requires p.SvcName?
  {
    match a
    case Srv(n, port, target) =>
      && qtype == QSRV && n == (if p.port.Some? then qname else ServiceName(cfg, svc)) && target == ServiceName(cfg, svc)
      && exists i :: 0 <= i < |svc.ports| && PortMatches(svc.ports[i], p.port, p.protocol) && svc.ports[i].port == port
    case Addr(n, ip) =>
      && AsksAddress(qtype) && p.port.None? && n == ServiceName(cfg, svc)
      && ip in svc.clusterIps && FamilyAsked(ip, qtype)
    case _ => false
  }

  ghost predicate ServiceGives(cfg: Config, c: Cluster, p: Parsed, qname: Name, qtype: QType, svc: Svc, a: Answer)
    requires p.SvcName?
  {
    if svc.externalName.Some? then
      && p.endpoint.None? && p.port.None? && (AsksAddress(qtype) || qtype == QCNAME)
      && a == Alias(qname, svc.externalName.value)
    else if Ignored(cfg, c, p, svc) then false
    else if ByEndpoint(p, svc) then
      exists e :: ReadyEndpoint(c, svc, e) && EndpointGives(cfg, p, qname, qtype, svc, e, a)
    else ClusterGives(cfg, p, qname, qtype, svc, a)
  }

  /** The name exists as far as this service is concerned. */
  ghost predicate ServiceKnows(cfg: Config, c: Cluster, p: Parsed, qname: Name, qtype: QType, svc: Svc)
    requires p.SvcName?
  {
    if svc.externalName.Some? then p.endpoint.None? && p.port.None?
    else if Ignored(cfg, c, p, svc) then false
    else if ByEndpoint(p, svc) then
      && (p.endpoint.Some? ==> exists e :: ReadyEndpoint(c, svc, e) && HostAsked(cfg, p, e))
      && (p.port.Some? && qtype == QSRV ==> exists a :: ServiceGives(cfg, c, p, qname, qtype, svc, a))
    else
      p.port.Some? ==> exists i :: 0 <= i < |svc.ports| && PortMatches(svc.ports[i], p.port, p.protocol)
  }

  /** The services a question is about. */
  ghost predicate AskedOf(cfg: Config, c: Cluster, p: Parsed, svc: Svc)
    requires p.SvcName?
  {
    && (exists k :: k in c.services && c.services[k] == svc)
    && Exposed(cfg, c, svc.namespace)
    && (Wild(p.namespace) || (svc.namespace == p.namespace && Exposed(cfg, c, p.namespace)))
    && (Wild(p.service) || svc.name == p.service)
  }

  /** `a` is among the answers to the question. */
  ghost predicate Answers(cfg: Config, c: Cluster, qname: Name, qtype: QType, a: Answer) {
    && IsSubdomain(cfg.zone, qname)
    && var p := ParseName(Relative(cfg, qname));
       p.SvcName? && exists svc :: AskedOf(cfg, c, p, svc) && ServiceGives(cfg, c, p, qname, qtype, svc, a)
  }

  // ------------------------------------------------------- reverse lookup

  /** `svc` is found by its cluster address. */
  ghost predicate PtrByCluster(cfg: Config, c: Cluster, ip: Ip, svc: Svc) {
    ip in c.svcByIp && c.svcByIp[ip] in c.services && c.services[c.svcByIp[ip]] == svc && Exposed(cfg, c, svc.namespace)
  }

  /** `e` is a ready endpoint with this address, of an exposed service the endpoint index lists. */
  ghost predicate PtrByEndpoint(cfg: Config, c: Cluster, ip: Ip, svc: Svc, e: Endpoint) {
    && ip in c.epByIp && (exists k :: k in c.epByIp[ip] && k in c.services && Exposed(cfg, c, k.0) && c.services[k] == svc)
    && ReadyEndpoint(c, svc, e) && ip in e.ips
  }

  ghost predicate PtrTarget(cfg: Config, c: Cluster, ip: Ip, target: Name) {
    if exists svc :: PtrByCluster(cfg, c, ip, svc) then
      exists svc :: PtrByCluster(cfg, c, ip, svc) && target == ServiceName(cfg, svc)
    else
      exists svc, e :: PtrByEndpoint(cfg, c, ip, svc, e) && target == EndpointName(cfg, svc, e)
  }

  // ------------------------------------------------------------- closure

  predicate LowerLabel(s: string) { s != "" && Lower(s) == s }

  /** What the cluster's naming rules give: service and namespace names are
      non-empty and lower case. */
  ghost predicate WellNamed(c: Cluster) {
    forall k :: k in c.services ==> LowerLabel(k.0) && LowerLabel(k.1)
  }

  ghost predicate Stored(c: Cluster, svc: Svc) { exists k :: k in c.services && c.services[k] == svc }

  /** The endpoint's label can be asked for. */
  predicate Nameable(cfg: Config, e: Endpoint) { EndpointHost(cfg, e) != "" && !Underscored(EndpointHost(cfg, e)) }

  /** Asking for `n` gives each of the addresses. */
  ghost predicate ResolvesTo(cfg: Config, c: Cluster, n: Name, ips: seq<Ip>) {
    forall ip :: ip in ips ==> Answers(cfg, c, n, AddressType(ip), Addr(n, ip))
  }

  function AddressType(ip: Ip): QType { if ip.V4? then QA else QAAAA }

  lemma ServiceNameParses(cfg: Config, svc: Svc)
    requires LowerLabel(svc.name) && LowerLabel(svc.namespace)
    ensures var n := ServiceName(cfg, svc);
      IsSubdomain(cfg.zone, n) && ParseName(Relative(cfg, n)) == SvcName(svc.namespace, svc.name, None, None, None)
  {
    var labels := [svc.name, svc.namespace, "svc"];
    AllNonEmpty(labels);
    var n := ServiceName(cfg, svc);
    assert n[..|n| - |cfg.zone|] == labels;
    assert Lower("svc") == "svc";
    assert LowerAll(labels) == labels;
  }

  /** An endpoint's name is read as that endpoint exactly when its label does not
      start with an underscore. */
  lemma EndpointNameParses(cfg: Config, svc: Svc, e: Endpoint)
    requires LowerLabel(svc.name) && LowerLabel(svc.namespace) && EndpointHost(cfg, e) != ""
    ensures var n, host := EndpointName(cfg, svc, e), EndpointHost(cfg, e);
      IsSubdomain(cfg.zone, n) && ParseName(Relative(cfg, n)) ==
        if Underscored(host) then Invalid else SvcName(svc.namespace, svc.name, Some(Lower(host)), None, None)
  {
    var host := EndpointHost(cfg, e);
    var labels := [host, svc.name, svc.namespace, "svc"];
    AllNonEmpty(labels);
    var n := EndpointName(cfg, svc, e);
    assert n[..|n| - |cfg.zone|] == labels;
    assert Lower("svc") == "svc";
    assert LowerAll(labels) == [Lower(host), svc.name, svc.namespace, "svc"];
    assert Underscored(Lower(host)) <==> Underscored(host) by {
      assert Lower(host)[0] == LowerChar(host[0]);
    }
  }

  /** The service answers for the address under its own name: it is no ExternalName
      service, it is not ignored for want of ready endpoints, and, if it is headless,
      a ready endpoint has the address. */
  ghost predicate Serves(cfg: Config, c: Cluster, svc: Svc, ip: Ip) {
    && svc.externalName.None?
    && (cfg.ignoreEmptyService ==> exists e :: ReadyEndpoint(c, svc, e))
    && (if svc.headless then exists e :: ReadyEndpoint(c, svc, e) && ip in e.ips else ip in svc.clusterIps)
  }

  lemma SameName(cfg: Config, c: Cluster, a: Svc, b: Svc)
    requires Consistent(c) && WellNamed(c) && Stored(c, a) && Stored(c, b) && ServiceName(cfg, a) == ServiceName(cfg, b)
    ensures a == b
  {
    var x, y := [a.name, a.namespace, "svc"], [b.name, b.namespace, "svc"];
    AllNonEmpty(x);
    AllNonEmpty(y);
    assert (x + cfg.zone)[..3] == x && (y + cfg.zone)[..3] == y;
    assert x[0] == y[0] && x[1] == y[1];
  }

  /** A service's name resolves to an address exactly when the service serves it. */
  lemma ServiceNameResolvesIff(cfg: Config, c: Cluster, svc: Svc, ip: Ip)
    requires Consistent(c) && WellNamed(c) && Stored(c, svc) && Exposed(cfg, c, svc.namespace)
    ensures Answers(cfg, c, ServiceName(cfg, svc), AddressType(ip), Addr(ServiceName(cfg, svc), ip)) <==> Serves(cfg, c, svc, ip)
  {
    ServiceNameParses(cfg, svc);
    var n, qtype, a := ServiceName(cfg, svc), AddressType(ip), Addr(ServiceName(cfg, svc), ip);
    var p := ParseName(Relative(cfg, n));
    assert AskedOf(cfg, c, p, svc);
    GivesIffServes(cfg, c, p, svc, ip);
    if Answers(cfg, c, n, qtype, a) {
      var other :| AskedOf(cfg, c, p, other) && ServiceGives(cfg, c, p, n, qtype, other, a);
      SameName(cfg, c, other, svc);
    }
  }

  lemma GivesIffServes(cfg: Config, c: Cluster, p: Parsed, svc: Svc, ip: Ip)
    requires p.SvcName? && p.endpoint.None? && p.port.None?
    ensures var n := ServiceName(cfg, svc);
      ServiceGives(cfg, c, p, n, AddressType(ip), svc, Addr(n, ip)) <==> Serves(cfg, c, svc, ip)
  {
    var n, qtype := ServiceName(cfg, svc), AddressType(ip);
    forall e ensures EndpointGives(cfg, p, n, qtype, svc, e, Addr(n, ip)) <==> ip in e.ips {
    }
  }

  /** An endpoint's name resolves to an address of it exactly when its label does
      not start with an underscore; under an ExternalName service never. */
  lemma EndpointNameResolves(cfg: Config, c: Cluster, svc: Svc, e: Endpoint, ip: Ip)
    requires Consistent(c) && WellNamed(c) && Stored(c, svc) && Exposed(cfg, c, svc.namespace)
    requires ReadyEndpoint(c, svc, e) && ip in e.ips && EndpointHost(cfg, e) != ""
    ensures var n := EndpointName(cfg, svc, e);
      var answered := Answers(cfg, c, n, AddressType(ip), Addr(n, ip));
      && (svc.externalName.None? ==> (answered <==> !Underscored(EndpointHost(cfg, e))))
      && (svc.externalName.Some? && !Wild(svc.name) && !Wild(svc.namespace) ==> !answered)
  {
    EndpointNameParses(cfg, svc, e);
    var n, host := EndpointName(cfg, svc, e), EndpointHost(cfg, e);
    var p := ParseName(Relative(cfg, n));
    if !Underscored(host) && svc.externalName.None? {
      LowerIdempotent(host);
      assert AskedOf(cfg, c, p, svc);
      assert EndpointGives(cfg, p, n, AddressType(ip), svc, e, Addr(n, ip));
      assert ServiceGives(cfg, c, p, n, AddressType(ip), svc, Addr(n, ip));
    }
    if !Underscored(host) && svc.externalName.Some? && !Wild(svc.name) && !Wild(svc.namespace) {
      forall other | AskedOf(cfg, c, p, other) ensures other == svc { }
    }
  }

  /** Every source of a name for this address answers for it: the service by its
      cluster address, or else each endpoint by a usable label. */
  ghost predicate GiversServe(cfg: Config, c: Cluster, ip: Ip) {
    && (forall svc :: PtrByCluster(cfg, c, ip, svc) ==> Serves(cfg, c, svc, ip))
    && ((forall svc :: !PtrByCluster(cfg, c, ip, svc)) ==>
          forall svc, e :: PtrByEndpoint(cfg, c, ip, svc, e) ==> svc.externalName.None? && Nameable(cfg, e))
  }

  /** Forward/reverse closure: every name a reverse lookup gives for an address
      resolves to that address, when those that give the names answer for them. */
  lemma PtrResolvesBack(cfg: Config, c: Cluster, ip: Ip, target: Name)
    requires Consistent(c) && WellNamed(c) && PtrTarget(cfg, c, ip, target) && GiversServe(cfg, c, ip)
    ensures Answers(cfg, c, target, AddressType(ip), Addr(target, ip))
  {
    if exists svc :: PtrByCluster(cfg, c, ip, svc) {
      var svc :| PtrByCluster(cfg, c, ip, svc) && target == ServiceName(cfg, svc);
      ServiceNameResolvesIff(cfg, c, svc, ip);
    } else {
      var svc, e :| PtrByEndpoint(cfg, c, ip, svc, e) && target == EndpointName(cfg, svc, e);
      EndpointNameResolves(cfg, c, svc, e, ip);
    }
  }

  /** For an address found as a cluster address, exactly when its service serves it. */
  lemma ClusterPtrResolvesIff(cfg: Config, c: Cluster, ip: Ip, svc: Svc)
    requires Consistent(c) && WellNamed(c) && PtrByCluster(cfg, c, ip, svc)
    ensures (forall target :: PtrTarget(cfg, c, ip, target) ==> Answers(cfg, c, target, AddressType(ip), Addr(target, ip))) <==>
      Serves(cfg, c, svc, ip)
  {
    ServiceNameResolvesIff(cfg, c, svc, ip);
    assert PtrTarget(cfg, c, ip, ServiceName(cfg, svc));
    forall target | PtrTarget(cfg, c, ip, target) ensures target == ServiceName(cfg, svc) { }
  }

  /** A cluster with one service and no endpoints. */
  function EmptyService(): Cluster {
    var svc := Svc("a", "ns", [V4(1)], false, None, [], false, []);
    Empty.(services := map[("ns", "a") := svc], svcByIp := map[V4(1) := ("ns", "a")], namespaces := {"ns"})
  }

  /** The failing case: with empty services ignored, the name a reverse lookup gives
      for its address does not resolve. */
  lemma IgnoredServiceHasPtr(cfg: Config)
    requires cfg.ignoreEmptyService && cfg.namespaces == []
    ensures var c := EmptyService();
      var n := ServiceName(cfg, c.services[("ns", "a")]);
      Consistent(c) && PtrTarget(cfg, c, V4(1), n) && !Answers(cfg, c, n, QA, Addr(n, V4(1)))
  {
    var c := EmptyService();
    var svc := c.services[("ns", "a")];
    forall ip, k ensures !Listed(c.epByIp, ip, k) && !ServiceHas(c.endpoints, k, ip) { }
    assert ClusterIps(c.services)[("ns", "a")] == [V4(1)];
    assert LowerLabel("ns") && LowerLabel("a");
    assert PtrByCluster(cfg, c, V4(1), svc);
    assert PtrTarget(cfg, c, V4(1), ServiceName(cfg, svc));
    ServiceNameResolvesIff(cfg, c, svc, V4(1));
  }

  /** Completeness of reverse lookup: a ready endpoint's address always yields a
      PTR when its service is stored and exposed. */
  lemma EndpointHasPtr(cfg: Config, c: Cluster, k: Key, e: Endpoint, ip: Ip)
    requires Consistent(c) && k in c.services && Exposed(cfg, c, k.0)
    requires ReadyEndpoint(c, c.services[k], e) && ip in e.ips
    ensures exists target :: PtrTarget(cfg, c, ip, target)
  {
    var svc := c.services[k];
    assert (svc.namespace, svc.name) == k;
    var slices := SlicesOf(c.endpoints, k);
    var s, i :| s in slices && 0 <= i < |slices[s]| && slices[s][i] == e;
    assert EndpointsHave(slices[s], ip);
    assert ServiceHas(c.endpoints, k, ip);
    assert Listed(c.epByIp, ip, k);
    if svc' :| PtrByCluster(cfg, c, ip, svc') {
      assert PtrTarget(cfg, c, ip, ServiceName(cfg, svc'));
    } else {
      assert PtrByEndpoint(cfg, c, ip, svc, e);
      assert PtrTarget(cfg, c, ip, EndpointName(cfg, svc, e));
    }
  }

  /** Every SRV target resolves: the target is the name of the very service or
      endpoint that gave the record, and that name answers with all its addresses,
      an endpoint's if and only if its label does not start with an underscore. */
  lemma SrvTargetResolves(cfg: Config, c: Cluster, qname: Name, port: nat, owner: Name, target: Name)
    requires Consistent(c) && WellNamed(c) && Answers(cfg, c, qname, QSRV, Srv(owner, port, target))
    ensures var p, srv := ParseName(Relative(cfg, qname)), Srv(owner, port, target);
      || (exists svc :: AskedOf(cfg, c, p, svc) && !ByEndpoint(p, svc) && ClusterGives(cfg, p, qname, QSRV, svc, srv) &&
            ResolvesTo(cfg, c, target, svc.clusterIps))
      || (exists svc, e :: AskedOf(cfg, c, p, svc) && ByEndpoint(p, svc) && ReadyEndpoint(c, svc, e) &&
            EndpointGives(cfg, p, qname, QSRV, svc, e, srv) && EndpointResolves(cfg, c, target, e))
  {
    var p, srv := ParseName(Relative(cfg, qname)), Srv(owner, port, target);
    var svc :| AskedOf(cfg, c, p, svc) && ServiceGives(cfg, c, p, qname, QSRV, svc, srv);
    assert Stored(c, svc);
    if ByEndpoint(p, svc) {
      var e :| ReadyEndpoint(c, svc, e) && EndpointGives(cfg, p, qname, QSRV, svc, e, srv);
      SrvEndpoint(cfg, c, svc, e);
    } else {
      forall ip | ip in svc.clusterIps ensures Answers(cfg, c, target, AddressType(ip), Addr(target, ip)) {
        assert Serves(cfg, c, svc, ip);
        ServiceNameResolvesIff(cfg, c, svc, ip);
      }
      assert ResolvesTo(cfg, c, target, svc.clusterIps);
    }
  }

  /** The name gives all addresses of an endpoint with a label and an address exactly
      when the label does not start with an underscore. */
  ghost predicate EndpointResolves(cfg: Config, c: Cluster, target: Name, e: Endpoint) {
    EndpointHost(cfg, e) != "" && e.ips != [] ==> (ResolvesTo(cfg, c, target, e.ips) <==> !Underscored(EndpointHost(cfg, e)))
  }

  lemma SrvEndpoint(cfg: Config, c: Cluster, svc: Svc, e: Endpoint)
    requires Consistent(c) && WellNamed(c) && Stored(c, svc) && Exposed(cfg, c, svc.namespace)
    requires svc.externalName.None? && ReadyEndpoint(c, svc, e)
    ensures EndpointResolves(cfg, c, EndpointName(cfg, svc, e), e)
  {
    var n := EndpointName(cfg, svc, e);
    if EndpointHost(cfg, e) != "" {
      forall ip | ip in e.ips
        ensures Answers(cfg, c, n, AddressType(ip), Addr(n, ip)) <==> !Underscored(EndpointHost(cfg, e))
      {
        EndpointNameResolves(cfg, c, svc, e, ip);
      }
      assert e.ips != [] ==> e.ips[0] in e.ips;
    }
  }

  // --------------------------------------------- the handlers as written

  /** Ready endpoints of a service, slices merged in any order. */
  method ReadyEndpoints(c: Cluster, svc: Svc) returns (eps: seq<Endpoint>)
    ensures forall e :: e in eps <==> ReadyEndpoint(c, svc, e)
  {
    var slices := SlicesOf(c.endpoints, (svc.namespace, svc.name));
    eps := [];
    var todo := slices.Keys;
    while todo != {}
      invariant todo <= slices.Keys
      invariant forall e :: e in eps <==> ((e.ready || svc.publishNotReady) &&
        exists s, i :: s in slices && s !in todo && 0 <= i < |slices[s]| && slices[s][i] == e)
      decreases todo
    {
      var s :| s in todo;
      var ready := FilterReady(slices[s], svc.publishNotReady);
      ghost var was := eps;
      eps := eps + ready;
      todo := todo - {s};
      forall e ensures e in eps <==> ((e.ready || svc.publishNotReady) &&
        exists t, i :: t in slices && t !in todo && 0 <= i < |slices[t]| && slices[t][i] == e)
      {
        if e in ready {
          var i :| 0 <= i < |slices[s]| && slices[s][i] == e;
          assert s in slices && s !in todo && slices[s][i] == e;
        }
        if e in was {
          var t, i :| t in slices && t !in todo + {s} && 0 <= i < |slices[t]| && slices[t][i] == e;
          assert t !in todo;
        }
      }
    }
  }

  method FilterReady(eps: seq<Endpoint>, all: bool) returns (out: seq<Endpoint>)
    ensures forall e :: e in out <==> (e.ready || all) && exists i :: 0 <= i < |eps| && eps[i] == e
  {
    out := [];
    for n := 0 to |eps|
      invariant forall e :: e in out <==> (e.ready || all) && exists i :: 0 <= i < n && eps[i] == e
    {
      if eps[n].ready || all {
        out := out + [eps[n]];
      }
    }
  }

  method AddrRecords(name: Name, ips: seq<Ip>, qtype: QType) returns (out: seq<Answer>)
    ensures forall a :: a in out <==> a.Addr? && a.name == name && a.ip in ips && FamilyAsked(a.ip, qtype)
  {
    out := [];
    for n := 0 to |ips|
      invariant forall a :: a in out <==> a.Addr? && a.name == name && a.ip in ips[..n] && FamilyAsked(a.ip, qtype)
    {
      assert forall ip :: ip in ips[..n + 1] <==> ip in ips[..n] || ip == ips[n];
      if FamilyAsked(ips[n], qtype) {
        out := out + [Addr(name, ips[n])];
      }
    }
    assert ips[..|ips|] == ips;
  }

  method SrvRecords(p: Parsed, owner: Name, ports: seq<Port>, target: Name) returns (out: seq<Answer>)
    requires p.SvcName?
    ensures forall a :: a in out <==> (a.Srv? && a.name == owner && a.target == target &&
      exists i :: 0 <= i < |ports| && PortMatches(ports[i], p.port, p.protocol) && ports[i].port == a.port)
  {
    out := [];
    for n := 0 to |ports|
      invariant forall a :: a in out <==> (a.Srv? && a.name == owner && a.target == target &&
        exists i :: 0 <= i < n && PortMatches(ports[i], p.port, p.protocol) && ports[i].port == a.port)
    {
      if PortMatches(ports[n], p.port, p.protocol) {
        out := out + [Srv(owner, ports[n].port, target)];
      }
    }
  }

  /** One endpoint's records. */
  method EndpointRecords(cfg: Config, p: Parsed, qname: Name, qtype: QType, svc: Svc, e: Endpoint)
    returns (out: seq<Answer>)
    requires p.SvcName? && HostAsked(cfg, p, e)
    ensures forall a :: a in out <==> EndpointGives(cfg, p, qname, qtype, svc, e, a)
  {
    if qtype == QSRV {
      out := SrvRecords(p, if p.port.Some? then qname else ServiceName(cfg, svc), e.ports, EndpointName(cfg, svc, e));
    } else if AsksAddress(qtype) && p.port.None? {
      out := AddrRecords(if p.endpoint.Some? then qname else ServiceName(cfg, svc), e.ips, qtype);
    } else {
      out := [];
    }
  }

  /** The loop over a headless service's endpoints, or those asked for by name. */
  method ByEndpointRecords(cfg: Config, c: Cluster, p: Parsed, qname: Name, qtype: QType, svc: Svc, eps: seq<Endpoint>)
    returns (answers: seq<Answer>, found: bool)
    requires p.SvcName? && forall e :: e in eps <==> ReadyEndpoint(c, svc, e)
    ensures forall a :: a in answers <==> exists e :: ReadyEndpoint(c, svc, e) && EndpointGives(cfg, p, qname, qtype, svc, e, a)
    ensures found <==> exists e :: ReadyEndpoint(c, svc, e) && HostAsked(cfg, p, e)
  {
    answers, found := [], false;
    for n := 0 to |eps|
      invariant forall a :: a in answers <==> exists e :: e in eps[..n] && EndpointGives(cfg, p, qname, qtype, svc, e, a)
      invariant found <==> exists e :: e in eps[..n] && HostAsked(cfg, p, e)
    {
      var e := eps[n];
      assert forall x :: x in eps[..n + 1] <==> x in eps[..n] || x == e;
      if !HostAsked(cfg, p, e) {
        continue;
      }
      found := true;
      var more := EndpointRecords(cfg, p, qname, qtype, svc, e);
      answers := answers + more;
    }
    assert eps[..|eps|] == eps;
  }

  /** Records for one service, and whether the name exists for it. */
  method ServiceRecords(cfg: Config, c: Cluster, p: Parsed, qname: Name, qtype: QType, svc: Svc)
    returns (answers: seq<Answer>, found: bool)
    requires p.SvcName?
    ensures forall a :: a in answers <==> ServiceGives(cfg, c, p, qname, qtype, svc, a)
    ensures found <==> ServiceKnows(cfg, c, p, qname, qtype, svc)
  {
    if svc.externalName.Some? {
      if p.endpoint.Some? || p.port.Some? {
        return [], false;
      }
      return if AsksAddress(qtype) || qtype == QCNAME then [Alias(qname, svc.externalName.value)] else [], true;
    }
    var eps := ReadyEndpoints(c, svc);
    assert (forall e :: !ReadyEndpoint(c, svc, e)) <==> eps == [] by {
      if eps != [] { assert eps[0] in eps; }
    }
    if cfg.ignoreEmptyService && eps == [] && (svc.headless || p.endpoint.None?) {
      return [], false;
    }
    if ByEndpoint(p, svc) {
      answers, found := ByEndpointRecords(cfg, c, p, qname, qtype, svc, eps);
      assert forall a :: a in answers <==> ServiceGives(cfg, c, p, qname, qtype, svc, a);
      if answers != [] {
        assert answers[0] in answers;
      }
      assert (answers != []) == exists a :: ServiceGives(cfg, c, p, qname, qtype, svc, a);
      found := !(p.endpoint.Some? && !found) && !(p.port.Some? && answers == [] && qtype == QSRV);
      return;
    }
    var known := AnyPort(p, svc.ports);
    if qtype == QSRV {
      answers := SrvRecords(p, if p.port.Some? then qname else ServiceName(cfg, svc), svc.ports, ServiceName(cfg, svc));
    } else if AsksAddress(qtype) && p.port.None? {
      answers := AddrRecords(ServiceName(cfg, svc), svc.clusterIps, qtype);
    } else {
      answers := [];
    }
    found := p.port.None? || known;
  }

  method AnyPort(p: Parsed, ports: seq<Port>) returns (any: bool)
    requires p.SvcName?
    ensures any <==> exists i :: 0 <= i < |ports| && PortMatches(ports[i], p.port, p.protocol)
  {
    any := false;
    for n := 0 to |ports|
      invariant any <==> exists i :: 0 <= i < n && PortMatches(ports[i], p.port, p.protocol)
    {
      if PortMatches(ports[n], p.port, p.protocol) {
        any := true;
      }
    }
  }

  /** The services a question names, wildcards included. */
  method AskedServices(cfg: Config, c: Cluster, p: Parsed) returns (out: seq<Svc>)
    requires p.SvcName? && Consistent(c)
    ensures forall svc :: svc in out <==> AskedOf(cfg, c, p, svc)
  {
    out := [];
    if !Wild(p.namespace) && !Exposed(cfg, c, p.namespace) {
      return;
    }
    if !Wild(p.namespace) && !Wild(p.service) {
      var key := (p.namespace, p.service);
      if key in c.services {
        out := [c.services[key]];
      }
      return;
    }
    var todo := c.services.Keys;
    while todo != {}
      invariant todo <= c.services.Keys
      invariant forall svc :: svc in out <==> AskedOf(cfg, c, p, svc) && exists k :: k in c.services && k !in todo && c.services[k] == svc
      decreases todo
    {
      var k :| k in todo;
      var svc := c.services[k];
      todo := todo - {k};
      if Exposed(cfg, c, svc.namespace) && (Wild(p.namespace) || svc.namespace == p.namespace)
         && (Wild(p.service) || svc.name == p.service) {
        out := out + [svc];
      }
    }
  }

  /** Forward lookup of a service name: `None` when the name does not exist. */
  method ServeForward(cfg: Config, c: Cluster, qname: Name, qtype: QType) returns (r: Option<seq<Answer>>)
    requires Consistent(c) && IsSubdomain(cfg.zone, qname) && !ParseName(Relative(cfg, qname)).OtherName?
    ensures var p := ParseName(Relative(cfg, qname));
      r.Some? <==> p.SvcName? && exists svc :: AskedOf(cfg, c, p, svc) && ServiceKnows(cfg, c, p, qname, qtype, svc)
    ensures r.Some? ==> forall a :: a in r.value <==> Answers(cfg, c, qname, qtype, a)
  {
    var p := ParseName(Relative(cfg, qname));
    if p.Invalid? {
      return None;
    }
    var services := AskedServices(cfg, c, p);
    var answers: seq<Answer> := [];
    var anyFound := false;
    for n := 0 to |services|
      invariant forall a :: a in answers <==> exists svc :: svc in services[..n] && ServiceGives(cfg, c, p, qname, qtype, svc, a)
      invariant anyFound <==> exists svc :: svc in services[..n] && ServiceKnows(cfg, c, p, qname, qtype, svc)
    {
      var svc := services[n];
      assert forall x :: x in services[..n + 1] <==> x in services[..n] || x == svc;
      var more, found := ServiceRecords(cfg, c, p, qname, qtype, svc);
      answers := answers + more;
      anyFound := anyFound || found;
    }
    assert services[..|services|] == services;
    r := if anyFound then Some(answers) else None;
  }

  /** Reverse lookup: the names for an address, `None` when there are none. */
  method ServeReverse(cfg: Config, c: Cluster, ip: Ip) returns (r: Option<seq<Name>>)
    requires Consistent(c)
    ensures r.None? <==> !exists t :: PtrTarget(cfg, c, ip, t)
    ensures r.Some? ==> forall t :: t in r.value <==> PtrTarget(cfg, c, ip, t)
  {
    var targets: seq<Name> := [];
    if ip in c.svcByIp && c.svcByIp[ip] in c.services {
      var svc := c.services[c.svcByIp[ip]];
      if Exposed(cfg, c, svc.namespace) {
        assert PtrByCluster(cfg, c, ip, svc);
        targets := [ServiceName(cfg, svc)];
      }
    }
    if targets == [] {
      targets := EndpointTargets(cfg, c, ip);
    }
    assert forall t :: t in targets <==> PtrTarget(cfg, c, ip, t);
    if targets == [] {
      r := None;
    } else {
      assert targets[0] in targets;
      r := Some(targets);
    }
  }

  method EndpointTargets(cfg: Config, c: Cluster, ip: Ip) returns (targets: seq<Name>)
    ensures forall t :: t in targets <==> exists svc, e :: PtrByEndpoint(cfg, c, ip, svc, e) && t == EndpointName(cfg, svc, e)
  {
    targets := [];
    var keys := if ip in c.epByIp then c.epByIp[ip] else {};
    ghost var all := keys;
    while keys != {}
      invariant keys <= all
      invariant forall t :: t in targets <==> exists k :: k in all - keys && TargetOf(cfg, c, ip, k, t)
      decreases keys
    {
      var k :| k in keys;
      ghost var was := keys;
      keys := keys - {k};
      assert forall x :: x in all - keys <==> x in all - was || x == k;
      if !Exposed(cfg, c, k.0) || k !in c.services {
        continue;
      }
      var more := ServiceTargets(cfg, c, ip, c.services[k]);
      targets := targets + more;
    }
    forall t ensures t in targets <==> (exists svc, e :: PtrByEndpoint(cfg, c, ip, svc, e) && t == EndpointName(cfg, svc, e))
    {
      TargetsByKey(cfg, c, ip, all, t);
    }
  }

  lemma TargetsByKey(cfg: Config, c: Cluster, ip: Ip, all: set<Key>, t: Name)
    requires all == if ip in c.epByIp then c.epByIp[ip] else {}
    ensures (exists k :: k in all && TargetOf(cfg, c, ip, k, t)) <==>
      (exists svc, e :: PtrByEndpoint(cfg, c, ip, svc, e) && t == EndpointName(cfg, svc, e))
  {
    if k :| k in all && TargetOf(cfg, c, ip, k, t) {
      var e :| ReadyEndpoint(c, c.services[k], e) && ip in e.ips && t == EndpointName(cfg, c.services[k], e);
      assert PtrByEndpoint(cfg, c, ip, c.services[k], e);
    }
    if svc, e :| PtrByEndpoint(cfg, c, ip, svc, e) && t == EndpointName(cfg, svc, e) {
      var k :| k in c.epByIp[ip] && k in c.services && Exposed(cfg, c, k.0) && c.services[k] == svc;
      assert TargetOf(cfg, c, ip, k, t);
    }
  }

  /** A name given for the address through the endpoints of service `k`. */
  ghost predicate TargetOf(cfg: Config, c: Cluster, ip: Ip, k: Key, t: Name) {
    k in c.services && Exposed(cfg, c, k.0) &&
    exists e :: ReadyEndpoint(c, c.services[k], e) && ip in e.ips && t == EndpointName(cfg, c.services[k], e)
  }

  method ServiceTargets(cfg: Config, c: Cluster, ip: Ip, svc: Svc) returns (out: seq<Name>)
    ensures forall t :: t in out <==> exists e :: ReadyEndpoint(c, svc, e) && ip in e.ips && t == EndpointName(cfg, svc, e)
  {
    var eps := ReadyEndpoints(c, svc);
    out := [];
    for n := 0 to |eps|
      invariant forall t :: t in out <==> exists e :: e in eps[..n] && ip in e.ips && t == EndpointName(cfg, svc, e)
    {
      assert forall x :: x in eps[..n + 1] <==> x in eps[..n] || x == eps[n];
      if ip in eps[n].ips {
        out := out + [EndpointName(cfg, svc, eps[n])];
      }
    }
    assert eps[..|eps|] == eps;
  }
}
