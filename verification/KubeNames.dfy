/** The cluster's names written out label by label, and what is answered for them. */
module KubeNames {
  import opened Names
  import opened KubeModel
  import opened KubeStore
  import opened KubeAnswers
  import opened DnsText

  /** A label asks for anything, or for this text in either case. */
  predicate AsksFor(l: string, text: string) { Lower(l) == "*" || Lower(l) == "any" || Lower(l) == Lower(text) }

  /** A port of that name, protocol and number. */
  predicate HasPort(ports: seq<Port>, port: string, proto: string, n: nat) {
    exists i :: 0 <= i < |ports| && AsksFor(port, ports[i].name) && AsksFor(proto, ports[i].protocol) && ports[i].port == n
  }

  /** An endpoint is called by its hostname, else by its pod if names of pods are used,
      else by its first address with dashes. */
  predicate Called(cfg: Config, e: Endpoint, h: string) {
    if e.hostname.Some? then h == e.hostname.value
    else if cfg.endpointPodNames && e.podName.Some? then h == e.podName.value
    else if e.ips != [] then h == cfg.dash(e.ips[0])
    else h == ""
  }

  /** The namespace is there and is one of those shown, all of them if none is named. */
  predicate Shown(cfg: Config, c: Cluster, ns: string) {
    ns in c.namespaces && (cfg.namespaces != [] ==> ns in cfg.namespaces)
  }

  /** One of the service's slices holds the endpoint, and it is ready or the service
      publishes those that are not. */
  ghost predicate ReadyIn(c: Cluster, svc: Svc, e: Endpoint) {
    && (e.ready || svc.publishNotReady) && (svc.namespace, svc.name) in c.endpoints
    && exists s :: s in c.endpoints[(svc.namespace, svc.name)] && e in c.endpoints[(svc.namespace, svc.name)][s]
  }

  lemma ReadyIff(c: Cluster, svc: Svc)
    ensures forall e :: ReadyEndpoint(c, svc, e) <==> ReadyIn(c, svc, e)
  {
    var k := (svc.namespace, svc.name);
    var slices := SlicesOf(c.endpoints, k);
    forall e ensures ReadyEndpoint(c, svc, e) <==> ReadyIn(c, svc, e) {
      if s :| s in slices && e in slices[s] {
        var i :| 0 <= i < |slices[s]| && slices[s][i] == e;
      }
    }
  }

  /** Nothing keeps the service's own answers back. */
  ghost predicate Open(cfg: Config, c: Cluster, svc: Svc) {
    && Consistent(c) && WellNamed(c) && Stored(c, svc) && Shown(cfg, c, svc.namespace)
    && svc.externalName.None? && (cfg.ignoreEmptyService ==> exists e :: ReadyIn(c, svc, e))
  }

  // -------------------------------------------------------- names as labels

  lemma ServiceWritten(cfg: Config, svc: Svc)
    requires LowerLabel(svc.name) && LowerLabel(svc.namespace)
    ensures ServiceName(cfg, svc) == [svc.name, svc.namespace, "svc"] + cfg.zone
  {
    AllNonEmpty([svc.name, svc.namespace, "svc"]);
  }

  lemma EndpointWritten(cfg: Config, svc: Svc, e: Endpoint, h: string)
    requires LowerLabel(svc.name) && LowerLabel(svc.namespace) && Called(cfg, e, h)
    ensures h != "" ==> EndpointName(cfg, svc, e) == [h, svc.name, svc.namespace, "svc"] + cfg.zone
    ensures h == "" ==> EndpointName(cfg, svc, e) == ServiceName(cfg, svc)
  {
    var own, all := [svc.name, svc.namespace, "svc"], [h, svc.name, svc.namespace, "svc"];
    assert EndpointHost(cfg, e) == h;
    AllNonEmpty(own);
    if h != "" {
      AllNonEmpty(all);
    } else {
      FirstEmpty(own);
      assert all == [""] + own;
    }
  }

  lemma {:induction false} FirstEmpty(labels: seq<string>)
    ensures NonEmpty([""] + labels) == NonEmpty(labels)
    decreases |labels|
  {
    var all := [""] + labels;
    if labels == [] {
      assert all[..0] == [];
    } else {
      assert all[..|all| - 1] == [""] + labels[..|labels| - 1];
      FirstEmpty(labels[..|labels| - 1]);
    }
  }

  lemma BelowZone(cfg: Config, labels: seq<string>)
    ensures IsSubdomain(cfg.zone, labels + cfg.zone) && Relative(cfg, labels + cfg.zone) == LowerAll(labels)
  {
    var n := labels + cfg.zone;
    assert Suffix(n, |cfg.zone|) == cfg.zone;
    assert n[..|n| - |cfg.zone|] == labels;
  }

  lemma LowerFirst(s: string)
    requires s != ""
    ensures Lower(s) != "" && Lower(s)[0] == LowerChar(s[0]) && Lower(s)[1..] == Lower(s[1..])
  {
  }

  /** `_port._proto.service.namespace.svc` is read as just that. */
  lemma PortNameParses(cfg: Config, svc: Svc, port: string, proto: string)
    requires LowerLabel(svc.name) && LowerLabel(svc.namespace)
    ensures var n := ["_" + port, "_" + proto, svc.name, svc.namespace, "svc"] + cfg.zone;
      && IsSubdomain(cfg.zone, n)
      && ParseName(Relative(cfg, n)) == SvcName(svc.namespace, svc.name, None, Some(Lower(port)), Some(Lower(proto)))
  {
    var labels := ["_" + port, "_" + proto, svc.name, svc.namespace, "svc"];
    BelowZone(cfg, labels);
    var rel := LowerAll(labels);
    LowerFirst("_" + port);
    LowerFirst("_" + proto);
    assert ("_" + port)[1..] == port && ("_" + proto)[1..] == proto;
    assert Lower("svc") == "svc";
    assert rel[0] == Lower("_" + port) && rel[1] == Lower("_" + proto) && rel[4] == "svc";
    assert Underscored(rel[0]) && Underscored(rel[1]);
  }

  /** And so is `*` or `any` in place of the port. */
  lemma AnyPortNameParses(cfg: Config, svc: Svc, star: string, proto: string)
    requires LowerLabel(svc.name) && LowerLabel(svc.namespace) && (Lower(star) == "*" || Lower(star) == "any")
    ensures var n := [star, "_" + proto, svc.name, svc.namespace, "svc"] + cfg.zone;
      && IsSubdomain(cfg.zone, n)
      && ParseName(Relative(cfg, n)) == SvcName(svc.namespace, svc.name, None, Some("*"), Some(Lower(proto)))
  {
    var labels := [star, "_" + proto, svc.name, svc.namespace, "svc"];
    BelowZone(cfg, labels);
    var rel := LowerAll(labels);
    LowerFirst("_" + proto);
    assert ("_" + proto)[1..] == proto;
    assert Lower("svc") == "svc";
    assert rel[0] == Lower(star) && rel[1] == Lower("_" + proto) && rel[4] == "svc";
    assert !Underscored(rel[0]) && Underscored(rel[1]);
  }

  // ------------------------------------------------------- ports of services

  /** `qname` asks for a port and a protocol of the service, the port as `_port`, or
      as `*` or `any` for every port. */
  predicate AsksPort(cfg: Config, svc: Svc, qname: Name, port: string, proto: string) {
    || qname == ["_" + port, "_" + proto, svc.name, svc.namespace, "svc"] + cfg.zone
    || ((Lower(port) == "*" || Lower(port) == "any") && qname == [port, "_" + proto, svc.name, svc.namespace, "svc"] + cfg.zone)
  }

  lemma PortQuestion(cfg: Config, svc: Svc, qname: Name, port: string, proto: string) returns (p: Parsed)
    requires LowerLabel(svc.name) && LowerLabel(svc.namespace) && AsksPort(cfg, svc, qname, port, proto)
    ensures IsSubdomain(cfg.zone, qname) && p == ParseName(Relative(cfg, qname))
    ensures p.SvcName? && p.namespace == svc.namespace && p.service == svc.name && p.endpoint.None? && p.port.Some?
    ensures forall q :: PortMatches(q, p.port, p.protocol) <==> AsksFor(port, q.name) && AsksFor(proto, q.protocol)
  {
    if qname == ["_" + port, "_" + proto, svc.name, svc.namespace, "svc"] + cfg.zone {
      PortNameParses(cfg, svc, port, proto);
    } else {
      AnyPortNameParses(cfg, svc, port, proto);
    }
    p := ParseName(Relative(cfg, qname));
    LowerIdempotent(port);
    LowerIdempotent(proto);
  }

  lemma EndpointIsNoService(cfg: Config, c: Cluster, svc: Svc, other: Svc, e: Endpoint)
    requires Consistent(c) && WellNamed(c) && Stored(c, svc) && Stored(c, other)
    requires EndpointName(cfg, other, e) == ServiceName(cfg, svc)
    ensures other == svc
  {
    var h := EndpointHost(cfg, e);
    EndpointWritten(cfg, other, e, h);
    ServiceWritten(cfg, svc);
    assert h == "";
    SameName(cfg, c, other, svc);
  }

  /** The name of an endpoint tells its service. */
  lemma EndpointTells(cfg: Config, c: Cluster, svc: Svc, other: Svc, e: Endpoint, h: string)
    requires Consistent(c) && WellNamed(c) && Stored(c, svc) && Stored(c, other) && h != ""
    requires EndpointName(cfg, other, e) == [h, svc.name, svc.namespace, "svc"] + cfg.zone
    ensures other == svc && Called(cfg, e, h)
  {
    var g := EndpointHost(cfg, e);
    var target, own := [h, svc.name, svc.namespace, "svc"] + cfg.zone, [g, other.name, other.namespace, "svc"] + cfg.zone;
    EndpointWritten(cfg, other, e, g);
    ServiceWritten(cfg, other);
    assert |ServiceName(cfg, other)| != |target|;
    assert target[0] == h && target[1] == svc.name && target[2] == svc.namespace;
    assert own[0] == g && own[1] == other.name && own[2] == other.namespace;
  }

  lemma ClusterPort(cfg: Config, p: Parsed, svc: Svc, qname: Name, port: string, proto: string, n: nat)
    requires p.SvcName? && p.port.Some?
    requires forall q :: PortMatches(q, p.port, p.protocol) <==> AsksFor(port, q.name) && AsksFor(proto, q.protocol)
    ensures ClusterGives(cfg, p, qname, QSRV, svc, Srv(qname, n, ServiceName(cfg, svc))) <==> HasPort(svc.ports, port, proto, n)
  {
  }

  lemma EndpointPort(cfg: Config, p: Parsed, svc: Svc, e: Endpoint, qname: Name, port: string, proto: string, n: nat)
    requires p.SvcName? && p.port.Some? && p.endpoint.None?
    requires forall q :: PortMatches(q, p.port, p.protocol) <==> AsksFor(port, q.name) && AsksFor(proto, q.protocol)
    ensures EndpointGives(cfg, p, qname, QSRV, svc, e, Srv(qname, n, EndpointName(cfg, svc, e))) <==> HasPort(e.ports, port, proto, n)
  {
  }

  /** Who gives an SRV record to the service's own name. */
  lemma OwnNameIsGiven(cfg: Config, c: Cluster, p: Parsed, svc: Svc, other: Svc, qname: Name, n: nat)
    requires Consistent(c) && WellNamed(c) && Stored(c, svc) && !svc.headless
    requires p.SvcName? && p.endpoint.None? && AskedOf(cfg, c, p, other)
    requires ServiceGives(cfg, c, p, qname, QSRV, other, Srv(qname, n, ServiceName(cfg, svc)))
    ensures other == svc && ClusterGives(cfg, p, qname, QSRV, svc, Srv(qname, n, ServiceName(cfg, svc)))
  {
    var a := Srv(qname, n, ServiceName(cfg, svc));
    if ByEndpoint(p, other) {
      var e :| ReadyEndpoint(c, other, e) && EndpointGives(cfg, p, qname, QSRV, other, e, a);
      EndpointIsNoService(cfg, c, svc, other, e);
    } else {
      SameName(cfg, c, other, svc);
    }
  }

  /** The SRV records of a service with cluster addresses: under the port's name there
      is one to the service's name with number `n` if and only if the service has a
      port of that name and protocol, in either case, and that number. */
  lemma ServicePortIff(cfg: Config, c: Cluster, svc: Svc, qname: Name, port: string, proto: string, n: nat)
    requires Open(cfg, c, svc) && !svc.headless && AsksPort(cfg, svc, qname, port, proto)
    ensures Answers(cfg, c, qname, QSRV, Srv(qname, n, [svc.name, svc.namespace, "svc"] + cfg.zone)) <==>
      HasPort(svc.ports, port, proto, n)
  {
    var p := PortQuestion(cfg, svc, qname, port, proto);
    ReadyIff(c, svc);
    ServiceWritten(cfg, svc);
    var a := Srv(qname, n, ServiceName(cfg, svc));
    ClusterPort(cfg, p, svc, qname, port, proto, n);
    if Answers(cfg, c, qname, QSRV, a) {
      var other :| AskedOf(cfg, c, p, other) && ServiceGives(cfg, c, p, qname, QSRV, other, a);
      OwnNameIsGiven(cfg, c, p, svc, other, qname, n);
    }
    if HasPort(svc.ports, port, proto, n) {
      assert AskedOf(cfg, c, p, svc);
      assert ServiceGives(cfg, c, p, qname, QSRV, svc, a);
    }
  }

  /** Who gives one to an endpoint's name. */
  lemma EndpointNameIsGiven(cfg: Config, c: Cluster, p: Parsed, svc: Svc, other: Svc, qname: Name, n: nat, h: string) returns (e: Endpoint)
    requires Consistent(c) && WellNamed(c) && Stored(c, svc) && p.SvcName? && AskedOf(cfg, c, p, other) && h != ""
    requires ServiceGives(cfg, c, p, qname, QSRV, other, Srv(qname, n, [h, svc.name, svc.namespace, "svc"] + cfg.zone))
    ensures ReadyEndpoint(c, svc, e) && Called(cfg, e, h)
    ensures EndpointGives(cfg, p, qname, QSRV, svc, e, Srv(qname, n, EndpointName(cfg, svc, e)))
  {
    var target := [h, svc.name, svc.namespace, "svc"] + cfg.zone;
    ServiceWritten(cfg, other);
    assert |ServiceName(cfg, other)| != |target|;
    e :| ReadyEndpoint(c, other, e) && EndpointGives(cfg, p, qname, QSRV, other, e, Srv(qname, n, target));
    EndpointTells(cfg, c, svc, other, e, h);
  }

  /** Of a headless service there is one to the name of each ready endpoint with such
      a port. */
  lemma EndpointPortIff(cfg: Config, c: Cluster, svc: Svc, qname: Name, port: string, proto: string, n: nat, h: string)
    requires Open(cfg, c, svc) && svc.headless && AsksPort(cfg, svc, qname, port, proto) && h != ""
    ensures Answers(cfg, c, qname, QSRV, Srv(qname, n, [h, svc.name, svc.namespace, "svc"] + cfg.zone)) <==>
      exists e :: ReadyIn(c, svc, e) && Called(cfg, e, h) && HasPort(e.ports, port, proto, n)
  {
    var p := PortQuestion(cfg, svc, qname, port, proto);
    ReadyIff(c, svc);
    var a := Srv(qname, n, [h, svc.name, svc.namespace, "svc"] + cfg.zone);
    if Answers(cfg, c, qname, QSRV, a) {
      var other :| AskedOf(cfg, c, p, other) && ServiceGives(cfg, c, p, qname, QSRV, other, a);
      var e := EndpointNameIsGiven(cfg, c, p, svc, other, qname, n, h);
      EndpointPort(cfg, p, svc, e, qname, port, proto, n);
    }
    if e :| ReadyIn(c, svc, e) && Called(cfg, e, h) && HasPort(e.ports, port, proto, n) {
      EndpointWritten(cfg, svc, e, h);
      EndpointPort(cfg, p, svc, e, qname, port, proto, n);
      HeadlessGives(cfg, c, p, svc, qname, a, e);
    }
  }

  // -------------------------------------------------------------- addresses

  lemma PatternParses(cfg: Config, l: string, ns: string)
    ensures var n := [l, ns, "svc"] + cfg.zone;
      IsSubdomain(cfg.zone, n) && ParseName(Relative(cfg, n)) == SvcName(Lower(ns), Lower(l), None, None, None)
  {
    var labels := [l, ns, "svc"];
    BelowZone(cfg, labels);
    assert Lower("svc") == "svc";
    assert LowerAll(labels) == [Lower(l), Lower(ns), "svc"];
  }

  /** The question is for addresses of this family. */
  predicate AsksFamily(qtype: QType, ip: Ip) { qtype == QANY || qtype == (if ip.V4? then QA else QAAAA) }

  /** The service has the address: as a cluster address or, if it is headless, at one of
      its ready endpoints. An ExternalName service has none, nor has one that is ignored
      for want of ready endpoints. */
  ghost predicate HasAddress(cfg: Config, c: Cluster, svc: Svc, ip: Ip) {
    && svc.externalName.None? && (cfg.ignoreEmptyService ==> exists e :: ReadyIn(c, svc, e))
    && if svc.headless then exists e :: ReadyIn(c, svc, e) && ip in e.ips else ip in svc.clusterIps
  }

  lemma GivesWhereverAsked(cfg: Config, c: Cluster, p: Parsed, svc: Svc, qname: Name, qtype: QType, ip: Ip)
    requires p.SvcName? && p.endpoint.None? && p.port.None?
    ensures ServiceGives(cfg, c, p, qname, qtype, svc, Addr(ServiceName(cfg, svc), ip)) <==>
      AsksFamily(qtype, ip) && HasAddress(cfg, c, svc, ip)
  {
    var a := Addr(ServiceName(cfg, svc), ip);
    ReadyIff(c, svc);
    forall e ensures EndpointGives(cfg, p, qname, qtype, svc, e, a) <==> AsksFamily(qtype, ip) && ip in e.ips { }
  }

  /** Whatever labels and types are asked for, `*` and `any` standing for all names: an
      address of a stored service is given under the service's own name if and only if
      it is of the family asked for, the labels fit the service's name and namespace,
      the namespace is shown and the service has the address. */
  lemma PatternAddressIff(cfg: Config, c: Cluster, svc: Svc, l: string, ns: string, qtype: QType, ip: Ip)
    requires Consistent(c) && WellNamed(c) && Stored(c, svc)
    ensures Answers(cfg, c, [l, ns, "svc"] + cfg.zone, qtype, Addr([svc.name, svc.namespace, "svc"] + cfg.zone, ip)) <==>
      && AsksFamily(qtype, ip) && AsksFor(l, svc.name) && AsksFor(ns, svc.namespace)
      && Shown(cfg, c, svc.namespace) && HasAddress(cfg, c, svc, ip)
  {
    PatternParses(cfg, l, ns);
    ServiceWritten(cfg, svc);
    var n, a := [l, ns, "svc"] + cfg.zone, Addr(ServiceName(cfg, svc), ip);
    var p := ParseName(Relative(cfg, n));
    GivesWhereverAsked(cfg, c, p, svc, n, qtype, ip);
    AskedIffFits(cfg, c, p, svc, l, ns);
    OnlyOwnAddress(cfg, c, p, svc, n, qtype, ip);
  }

  /** Only the service itself gives addresses under its name. */
  lemma OnlyOwnAddress(cfg: Config, c: Cluster, p: Parsed, svc: Svc, qname: Name, qtype: QType, ip: Ip)
    requires Consistent(c) && WellNamed(c) && Stored(c, svc) && p.SvcName? && p.endpoint.None?
    ensures var a := Addr(ServiceName(cfg, svc), ip);
      (exists other :: AskedOf(cfg, c, p, other) && ServiceGives(cfg, c, p, qname, qtype, other, a)) <==>
        AskedOf(cfg, c, p, svc) && ServiceGives(cfg, c, p, qname, qtype, svc, a)
  {
    var a := Addr(ServiceName(cfg, svc), ip);
    forall other | AskedOf(cfg, c, p, other) && ServiceGives(cfg, c, p, qname, qtype, other, a) ensures other == svc {
      SameName(cfg, c, other, svc);
    }
  }

  lemma AskedIffFits(cfg: Config, c: Cluster, p: Parsed, svc: Svc, l: string, ns: string)
    requires Consistent(c) && WellNamed(c) && Stored(c, svc) && p == SvcName(Lower(ns), Lower(l), None, None, None)
    ensures AskedOf(cfg, c, p, svc) <==> AsksFor(l, svc.name) && AsksFor(ns, svc.namespace) && Shown(cfg, c, svc.namespace)
  {
  }

  /** Under its own name a service gives every port of its own, or those of its ready
      endpoints if it is headless. */
  lemma OwnPortIff(cfg: Config, c: Cluster, svc: Svc, n: nat)
    requires Open(cfg, c, svc) && !svc.headless
    ensures var own := [svc.name, svc.namespace, "svc"] + cfg.zone;
      Answers(cfg, c, own, QSRV, Srv(own, n, own)) <==> exists i :: 0 <= i < |svc.ports| && svc.ports[i].port == n
  {
    ServiceWritten(cfg, svc);
    ServiceNameParses(cfg, svc);
    ReadyIff(c, svc);
    var own := ServiceName(cfg, svc);
    var p, a := ParseName(Relative(cfg, own)), Srv(own, n, own);
    if Answers(cfg, c, own, QSRV, a) {
      var other :| AskedOf(cfg, c, p, other) && ServiceGives(cfg, c, p, own, QSRV, other, a);
      OwnNameIsGiven(cfg, c, p, svc, other, own, n);
    }
    if i :| 0 <= i < |svc.ports| && svc.ports[i].port == n {
      assert PortMatches(svc.ports[i], p.port, p.protocol);
      assert AskedOf(cfg, c, p, svc) && ClusterGives(cfg, p, own, QSRV, svc, a);
      assert ServiceGives(cfg, c, p, own, QSRV, svc, a);
    }
  }

  lemma OwnEndpointPortIff(cfg: Config, c: Cluster, svc: Svc, n: nat, h: string)
    requires Open(cfg, c, svc) && svc.headless && h != ""
    ensures var own := [svc.name, svc.namespace, "svc"] + cfg.zone;
      Answers(cfg, c, own, QSRV, Srv(own, n, [h] + own)) <==>
        exists e :: ReadyIn(c, svc, e) && Called(cfg, e, h) && HasNumber(e.ports, n)
  {
    ServiceWritten(cfg, svc);
    ServiceNameParses(cfg, svc);
    ReadyIff(c, svc);
    var own, target := ServiceName(cfg, svc), [h, svc.name, svc.namespace, "svc"] + cfg.zone;
    assert [h] + own == target;
    var p, a := ParseName(Relative(cfg, own)), Srv(own, n, target);
    if Answers(cfg, c, own, QSRV, a) {
      var other :| AskedOf(cfg, c, p, other) && ServiceGives(cfg, c, p, own, QSRV, other, a);
      var e := EndpointNameIsGiven(cfg, c, p, svc, other, own, n, h);
    }
    if e :| ReadyIn(c, svc, e) && Called(cfg, e, h) && HasNumber(e.ports, n) {
      EndpointWritten(cfg, svc, e, h);
      NumberGiven(cfg, p, e, n);
      assert EndpointGives(cfg, p, own, QSRV, svc, e, a);
      HeadlessGives(cfg, c, p, svc, own, a, e);
    }
  }

  lemma HeadlessGives(cfg: Config, c: Cluster, p: Parsed, svc: Svc, qname: Name, a: Answer, e: Endpoint)
    requires Open(cfg, c, svc) && svc.headless && p.SvcName? && p.namespace == svc.namespace && p.service == svc.name
    requires IsSubdomain(cfg.zone, qname) && p == ParseName(Relative(cfg, qname))
    requires ReadyEndpoint(c, svc, e) && EndpointGives(cfg, p, qname, QSRV, svc, e, a)
    ensures Answers(cfg, c, qname, QSRV, a)
  {
    assert AskedOf(cfg, c, p, svc);
    assert ServiceGives(cfg, c, p, qname, QSRV, svc, a);
  }

  // -------------------------------------------------- which names there are

  /** The name exists. */
  ghost predicate NameExists(cfg: Config, c: Cluster, n: Name, qtype: QType) {
    && IsSubdomain(cfg.zone, n)
    && var p := ParseName(Relative(cfg, n));
       p.SvcName? && exists svc :: AskedOf(cfg, c, p, svc) && ServiceKnows(cfg, c, p, n, qtype, svc)
  }

  predicate Tame(svc: Svc) { !Wild(svc.name) && !Wild(svc.namespace) }

  lemma OnlyOneAsked(cfg: Config, c: Cluster, p: Parsed, svc: Svc, other: Svc)
    requires Consistent(c) && Stored(c, svc) && Tame(svc) && p.SvcName? && p.namespace == svc.namespace && p.service == svc.name
    requires AskedOf(cfg, c, p, other)
    ensures other == svc
  {
  }

  ghost predicate Asks(cfg: Config, c: Cluster, svc: Svc, qname: Name, p: Parsed) {
    && Consistent(c) && WellNamed(c) && Stored(c, svc) && Shown(cfg, c, svc.namespace) && Tame(svc)
    && IsSubdomain(cfg.zone, qname) && p == ParseName(Relative(cfg, qname)) && p.SvcName?
    && p.namespace == svc.namespace && p.service == svc.name
  }

  lemma ExistsIffKnown(cfg: Config, c: Cluster, svc: Svc, qname: Name, qtype: QType, p: Parsed)
    requires Asks(cfg, c, svc, qname, p)
    ensures NameExists(cfg, c, qname, qtype) <==> ServiceKnows(cfg, c, p, qname, qtype, svc)
  {
    assert AskedOf(cfg, c, p, svc);
    forall other | AskedOf(cfg, c, p, other) ensures other == svc { OnlyOneAsked(cfg, c, p, svc, other); }
  }

  /** A stored service's name exists unless the service is ignored for want of ready
      endpoints; an ExternalName service's always does. */
  lemma ServiceNameExistsIff(cfg: Config, c: Cluster, svc: Svc, qtype: QType)
    requires Consistent(c) && WellNamed(c) && Stored(c, svc) && Shown(cfg, c, svc.namespace) && Tame(svc)
    ensures NameExists(cfg, c, [svc.name, svc.namespace, "svc"] + cfg.zone, qtype) <==>
      svc.externalName.Some? || (cfg.ignoreEmptyService ==> exists e :: ReadyIn(c, svc, e))
  {
    ReadyIff(c, svc);
    ServiceWritten(cfg, svc);
    ServiceNameParses(cfg, svc);
    var n := ServiceName(cfg, svc);
    ExistsIffKnown(cfg, c, svc, n, qtype, ParseName(Relative(cfg, n)));
  }

  /** A port's name exists under a service with cluster addresses exactly if the
      service has the port, whatever is asked; under a headless one for SRV exactly if
      a ready endpoint has it. */
  lemma PortNameExistsIff(cfg: Config, c: Cluster, svc: Svc, qname: Name, port: string, proto: string, qtype: QType)
    requires Open(cfg, c, svc) && Tame(svc) && AsksPort(cfg, svc, qname, port, proto)
    ensures !svc.headless ==> (NameExists(cfg, c, qname, qtype) <==> exists n :: HasPort(svc.ports, port, proto, n))
    ensures svc.headless && qtype == QSRV ==>
      (NameExists(cfg, c, qname, qtype) <==> exists e, n :: ReadyIn(c, svc, e) && HasPort(e.ports, port, proto, n))
    ensures svc.headless && qtype != QSRV ==> NameExists(cfg, c, qname, qtype)
  {
    var p := PortQuestion(cfg, svc, qname, port, proto);
    ReadyIff(c, svc);
    ExistsIffKnown(cfg, c, svc, qname, qtype, p);
    if !svc.headless {
      if i :| 0 <= i < |svc.ports| && PortMatches(svc.ports[i], p.port, p.protocol) {
        assert HasPort(svc.ports, port, proto, svc.ports[i].port);
      }
    } else if qtype == QSRV {
      HeadlessPortExists(cfg, c, svc, qname, port, proto, p);
    }
  }

  lemma HeadlessPortExists(cfg: Config, c: Cluster, svc: Svc, qname: Name, port: string, proto: string, p: Parsed)
    requires Open(cfg, c, svc) && svc.headless && p.SvcName? && p.port.Some? && p.endpoint.None?
    requires forall q :: PortMatches(q, p.port, p.protocol) <==> AsksFor(port, q.name) && AsksFor(proto, q.protocol)
    ensures (exists a :: ServiceGives(cfg, c, p, qname, QSRV, svc, a)) <==>
      (exists e, n :: ReadyEndpoint(c, svc, e) && HasPort(e.ports, port, proto, n))
  {
    if a :| ServiceGives(cfg, c, p, qname, QSRV, svc, a) {
      var e :| ReadyEndpoint(c, svc, e) && EndpointGives(cfg, p, qname, QSRV, svc, e, a);
      assert a == Srv(qname, a.port, EndpointName(cfg, svc, e));
      EndpointPort(cfg, p, svc, e, qname, port, proto, a.port);
    }
    if e, n :| ReadyEndpoint(c, svc, e) && HasPort(e.ports, port, proto, n) {
      EndpointPort(cfg, p, svc, e, qname, port, proto, n);
      assert ServiceGives(cfg, c, p, qname, QSRV, svc, Srv(qname, n, EndpointName(cfg, svc, e)));
    }
  }

  lemma EndpointQuestion(cfg: Config, svc: Svc, h: string) returns (p: Parsed)
    requires LowerLabel(svc.name) && LowerLabel(svc.namespace) && h != "" && h[0] != '_'
    ensures var n := [h, svc.name, svc.namespace, "svc"] + cfg.zone;
      IsSubdomain(cfg.zone, n) && p == ParseName(Relative(cfg, n)) && p == SvcName(svc.namespace, svc.name, Some(Lower(h)), None, None)
  {
    var labels := [h, svc.name, svc.namespace, "svc"];
    BelowZone(cfg, labels);
    LowerFirst(h);
    assert Lower("svc") == "svc";
    var rel := LowerAll(labels);
    assert rel == [Lower(h), svc.name, svc.namespace, "svc"];
    p := ParseName(rel);
  }

  lemma OnlyOneAnswers(cfg: Config, c: Cluster, svc: Svc, n: Name, qtype: QType, p: Parsed, a: Answer)
    requires Asks(cfg, c, svc, n, p)
    ensures Answers(cfg, c, n, qtype, a) <==> ServiceGives(cfg, c, p, n, qtype, svc, a)
  {
    assert AskedOf(cfg, c, p, svc);
    forall other | AskedOf(cfg, c, p, other) ensures other == svc { OnlyOneAsked(cfg, c, p, svc, other); }
  }

  lemma NamedEndpointGives(cfg: Config, c: Cluster, svc: Svc, n: Name, qtype: QType, p: Parsed, a: Answer)
    requires svc.externalName.None? && p.SvcName? && p.endpoint.Some?
    ensures ServiceGives(cfg, c, p, n, qtype, svc, a) <==>
      exists e :: ReadyEndpoint(c, svc, e) && EndpointGives(cfg, p, n, qtype, svc, e, a)
  {
  }

  /** The endpoint is ready and called by the label asked for. */
  ghost predicate Meant(cfg: Config, c: Cluster, svc: Svc, h: string, e: Endpoint) {
    ReadyIn(c, svc, e) && exists g :: Called(cfg, e, g) && AsksFor(h, g)
  }

  lemma MeantIff(cfg: Config, c: Cluster, svc: Svc, h: string, e: Endpoint, p: Parsed)
    requires p.SvcName? && p.endpoint == Some(Lower(h))
    ensures Meant(cfg, c, svc, h, e) <==> ReadyEndpoint(c, svc, e) && HostAsked(cfg, p, e)
  {
    ReadyIff(c, svc);
    LowerIdempotent(h);
    assert Called(cfg, e, EndpointHost(cfg, e));
    assert forall g :: Called(cfg, e, g) ==> g == EndpointHost(cfg, e);
  }

  /** An endpoint's name gives exactly the addresses, of the family asked for, of the
      ready endpoints called so. */
  lemma EndpointAddressIff(cfg: Config, c: Cluster, svc: Svc, h: string, qtype: QType, ip: Ip)
    requires Open(cfg, c, svc) && Tame(svc) && h != "" && h[0] != '_'
    ensures var n := [h, svc.name, svc.namespace, "svc"] + cfg.zone;
      Answers(cfg, c, n, qtype, Addr(n, ip)) <==>
        AsksFamily(qtype, ip) && exists e :: Meant(cfg, c, svc, h, e) && ip in e.ips
  {
    var n := [h, svc.name, svc.namespace, "svc"] + cfg.zone;
    var p := EndpointQuestion(cfg, svc, h);
    OnlyOneAnswers(cfg, c, svc, n, qtype, p, Addr(n, ip));
    MeantGivesAddresses(cfg, c, svc, n, qtype, p, h, ip);
  }

  lemma MeantGivesAddresses(cfg: Config, c: Cluster, svc: Svc, n: Name, qtype: QType, p: Parsed, h: string, ip: Ip)
    requires svc.externalName.None? && p.SvcName? && p.endpoint == Some(Lower(h)) && p.port.None?
    ensures ServiceGives(cfg, c, p, n, qtype, svc, Addr(n, ip)) <==>
      AsksFamily(qtype, ip) && exists e :: Meant(cfg, c, svc, h, e) && ip in e.ips
  {
    NamedEndpointGives(cfg, c, svc, n, qtype, p, Addr(n, ip));
    forall e ensures ReadyEndpoint(c, svc, e) && EndpointGives(cfg, p, n, qtype, svc, e, Addr(n, ip)) <==>
      AsksFamily(qtype, ip) && Meant(cfg, c, svc, h, e) && ip in e.ips
    {
      MeantIff(cfg, c, svc, h, e, p);
    }
  }

  /** SRV for an endpoint's name gives the ports of the ready endpoints called so. */
  lemma EndpointOwnPortIff(cfg: Config, c: Cluster, svc: Svc, h: string, n: nat, target: Name)
    requires Open(cfg, c, svc) && Tame(svc) && h != "" && h[0] != '_'
    ensures var own := [svc.name, svc.namespace, "svc"] + cfg.zone;
      Answers(cfg, c, [h, svc.name, svc.namespace, "svc"] + cfg.zone, QSRV, Srv(own, n, target)) <==>
        exists e :: Meant(cfg, c, svc, h, e) && target == EndpointName(cfg, svc, e) && HasNumber(e.ports, n)
  {
    var q := [h, svc.name, svc.namespace, "svc"] + cfg.zone;
    var p := EndpointQuestion(cfg, svc, h);
    ServiceWritten(cfg, svc);
    OnlyOneAnswers(cfg, c, svc, q, QSRV, p, Srv(ServiceName(cfg, svc), n, target));
    MeantGivesPorts(cfg, c, svc, q, p, h, n, target);
  }

  lemma MeantGivesPorts(cfg: Config, c: Cluster, svc: Svc, q: Name, p: Parsed, h: string, n: nat, target: Name)
    requires svc.externalName.None? && p.SvcName? && p.endpoint == Some(Lower(h)) && p.port.None?
    ensures ServiceGives(cfg, c, p, q, QSRV, svc, Srv(ServiceName(cfg, svc), n, target)) <==>
      exists e :: Meant(cfg, c, svc, h, e) && target == EndpointName(cfg, svc, e) && HasNumber(e.ports, n)
  {
    var a := Srv(ServiceName(cfg, svc), n, target);
    NamedEndpointGives(cfg, c, svc, q, QSRV, p, a);
    forall e ensures ReadyEndpoint(c, svc, e) && EndpointGives(cfg, p, q, QSRV, svc, e, a) <==>
      Meant(cfg, c, svc, h, e) && target == EndpointName(cfg, svc, e) && HasNumber(e.ports, n)
    {
      MeantIff(cfg, c, svc, h, e, p);
      NumberGiven(cfg, p, e, n);
    }
  }

  /** An endpoint's name exists exactly if a ready endpoint is called so; `*` and `any`
      stand for every one. */
  lemma EndpointNameExistsIff(cfg: Config, c: Cluster, svc: Svc, h: string, qtype: QType)
    requires Open(cfg, c, svc) && Tame(svc) && h != "" && h[0] != '_'
    ensures NameExists(cfg, c, [h, svc.name, svc.namespace, "svc"] + cfg.zone, qtype) <==> exists e :: Meant(cfg, c, svc, h, e)
  {
    var n := [h, svc.name, svc.namespace, "svc"] + cfg.zone;
    var p := EndpointQuestion(cfg, svc, h);
    ExistsIffKnown(cfg, c, svc, n, qtype, p);
    forall e ensures Meant(cfg, c, svc, h, e) <==> ReadyEndpoint(c, svc, e) && HostAsked(cfg, p, e) { MeantIff(cfg, c, svc, h, e, p); }
  }

  predicate HasNumber(ports: seq<Port>, n: nat) { exists i :: 0 <= i < |ports| && ports[i].port == n }

  lemma NumberGiven(cfg: Config, p: Parsed, e: Endpoint, n: nat)
    requires p.SvcName? && p.port.None?
    ensures HasNumber(e.ports, n) <==> exists i :: 0 <= i < |e.ports| && PortMatches(e.ports[i], p.port, p.protocol) && e.ports[i].port == n
  {
    if i :| 0 <= i < |e.ports| && e.ports[i].port == n { assert PortMatches(e.ports[i], p.port, p.protocol); }
  }

  /** An ExternalName service answers for its own name, for addresses and CNAME only,
      with the alias it states, and for no port or endpoint. */
  lemma ExternalNameIff(cfg: Config, c: Cluster, svc: Svc, qtype: QType, a: Answer)
    requires Consistent(c) && WellNamed(c) && Stored(c, svc) && Shown(cfg, c, svc.namespace) && Tame(svc)
    requires svc.externalName.Some?
    ensures var n := [svc.name, svc.namespace, "svc"] + cfg.zone;
      Answers(cfg, c, n, qtype, a) <==>
        a == Alias(n, svc.externalName.value) && (qtype == QA || qtype == QAAAA || qtype == QANY || qtype == QCNAME)
  {
    ServiceWritten(cfg, svc);
    ServiceNameParses(cfg, svc);
    var n := ServiceName(cfg, svc);
    var p := ParseName(Relative(cfg, n));
    assert AskedOf(cfg, c, p, svc);
    forall other | AskedOf(cfg, c, p, other) ensures other == svc { OnlyOneAsked(cfg, c, p, svc, other); }
  }

  /** A name whose service is not stored, or whose namespace is not shown, does not
      exist and has no answers. */
  lemma UnknownIsMissing(cfg: Config, c: Cluster, name: string, ns: string, qtype: QType, a: Answer)
    requires Consistent(c) && LowerLabel(name) && LowerLabel(ns) && !Wild(name) && !Wild(ns)
    requires (ns, name) !in c.services || !Shown(cfg, c, ns)
    ensures var n := [name, ns, "svc"] + cfg.zone; !NameExists(cfg, c, n, qtype) && !Answers(cfg, c, n, qtype, a)
  {
    PatternParses(cfg, name, ns);
  }

  // ---------------------------------------------------------- reverse names

  /** A shown service with the address, by the cluster's own records. */
  ghost predicate Holds(cfg: Config, c: Cluster, ip: Ip, svc: Svc) {
    Stored(c, svc) && Shown(cfg, c, svc.namespace) && ip in svc.clusterIps
  }

  ghost predicate IsHeld(cfg: Config, c: Cluster, ip: Ip) { exists svc :: Holds(cfg, c, ip, svc) }

  /** The name of a shown service with the address. */
  ghost predicate HolderName(cfg: Config, c: Cluster, ip: Ip, t: Name) {
    exists svc :: Holds(cfg, c, ip, svc) && t == [svc.name, svc.namespace, "svc"] + cfg.zone
  }

  /** The name of a ready endpoint with the address, of a shown service. */
  ghost predicate ReadyName(cfg: Config, c: Cluster, ip: Ip, t: Name) {
    exists svc, e :: ReadyAt(cfg, c, ip, svc, e) && t == EndpointName(cfg, svc, e)
  }

  /** The names for an address, when every stored service is found by its addresses: that
      of the shown service with that cluster address or, without one, those of the ready
      endpoints with it of shown services. */
  lemma ReverseIff(cfg: Config, c: Cluster, ip: Ip, t: Name)
    requires Consistent(c) && WellNamed(c) && CompleteAt(ByClusterIp, c)
    ensures PtrTarget(cfg, c, ip, t) <==> if IsHeld(cfg, c, ip) then HolderName(cfg, c, ip, t) else ReadyName(cfg, c, ip, t)
  {
    HeldIff(cfg, c, ip);
    if IsHeld(cfg, c, ip) {
      NamesOfHolders(cfg, c, ip, t);
    } else {
      NamesOfReady(cfg, c, ip, t);
    }
  }

  lemma HeldIff(cfg: Config, c: Cluster, ip: Ip)
    requires Consistent(c) && CompleteAt(ByClusterIp, c)
    ensures IsHeld(cfg, c, ip) <==> exists svc :: PtrByCluster(cfg, c, ip, svc)
  {
    forall svc ensures PtrByCluster(cfg, c, ip, svc) <==> Holds(cfg, c, ip, svc) { HoldsIff(cfg, c, ip, svc); }
  }

  lemma NamesOfReady(cfg: Config, c: Cluster, ip: Ip, t: Name)
    requires Consistent(c)
    ensures (exists svc, e :: PtrByEndpoint(cfg, c, ip, svc, e) && t == EndpointName(cfg, svc, e)) <==> ReadyName(cfg, c, ip, t)
  {
    forall svc, e ensures PtrByEndpoint(cfg, c, ip, svc, e) <==> ReadyAt(cfg, c, ip, svc, e) { ReadyAtIff(cfg, c, ip, svc, e); }
  }

  lemma NamesOfHolders(cfg: Config, c: Cluster, ip: Ip, t: Name)
    requires Consistent(c) && WellNamed(c) && CompleteAt(ByClusterIp, c)
    ensures (exists svc :: PtrByCluster(cfg, c, ip, svc) && t == ServiceName(cfg, svc)) <==> HolderName(cfg, c, ip, t)
  {
    forall svc
      ensures PtrByCluster(cfg, c, ip, svc) <==> Holds(cfg, c, ip, svc)
      ensures Holds(cfg, c, ip, svc) ==> ServiceName(cfg, svc) == [svc.name, svc.namespace, "svc"] + cfg.zone
    {
      HoldsIff(cfg, c, ip, svc);
      if Holds(cfg, c, ip, svc) { ServiceWritten(cfg, svc); }
    }
  }

  lemma HoldsIff(cfg: Config, c: Cluster, ip: Ip, svc: Svc)
    requires Consistent(c) && CompleteAt(ByClusterIp, c)
    ensures PtrByCluster(cfg, c, ip, svc) <==> Holds(cfg, c, ip, svc)
  {
    if Holds(cfg, c, ip, svc) {
      var k :| k in c.services && c.services[k] == svc;
      assert k in ClusterIps(c.services) && ip in ClusterIps(c.services)[k];
    }
    if PtrByCluster(cfg, c, ip, svc) {
      var k := c.svcByIp[ip];
      assert k in ClusterIps(c.services) && ip in ClusterIps(c.services)[k];
    }
  }

  /** A ready endpoint with the address, of a shown service. */
  ghost predicate ReadyAt(cfg: Config, c: Cluster, ip: Ip, svc: Svc, e: Endpoint) {
    Stored(c, svc) && Shown(cfg, c, svc.namespace) && ReadyIn(c, svc, e) && ip in e.ips
  }

  lemma ReadyAtIff(cfg: Config, c: Cluster, ip: Ip, svc: Svc, e: Endpoint)
    requires Consistent(c)
    ensures PtrByEndpoint(cfg, c, ip, svc, e) <==> ReadyAt(cfg, c, ip, svc, e)
  {
    ReadyIff(c, svc);
    if ReadyAt(cfg, c, ip, svc, e) {
      var k :| k in c.services && c.services[k] == svc;
      var s :| s in c.endpoints[k] && e in c.endpoints[k][s];
      assert EndpointsHave(c.endpoints[k][s], ip);
      assert ServiceHas(c.endpoints, k, ip);
      assert Listed(c.epByIp, ip, k);
    }
  }
}
