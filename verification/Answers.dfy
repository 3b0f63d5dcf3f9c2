/** What a reply contains, outcome by outcome, and how aliases are followed. */
module Answers {
  import opened Names
  import opened Records
  import opened Zones
  import opened Denial
  import opened Lookups
  import opened Outcomes

  /** `s` is the step that outcome `o` stands for. No step refers elsewhere. */
  ghost predicate TakenFor(z: Zone, env: Env, q: Query, o: Outcome, s: Step) {
    match o
    case Delegated(_) => false
    case Redirected(d) => IsSubdomain(d, q.name) && s == RedirectStep(z, q.name, d, q.dnssec)
    case Exact => q.name in z.names && s == DataStep(env, z.names[q.name], q.name, q.qtype, q.dnssec, None)
    case Synthesized(ce) =>
      WildcardOf(ce) in z.names &&
      s == DataStep(env, z.names[WildcardOf(ce)], q.name, q.qtype, q.dnssec, Some(ce))
    case EmptyNonTerminal => s == Missing && q.name in z.nodes
    case NoSuchName => s == Missing && q.name !in z.nodes
  }

  /** The first hop does what the outcome says. */
  lemma FirstHop(z: Zone, env: Env, q: Query)
    requires IsSubdomain(z.origin, q.name) && ReferralCut(z, q.name, q.qtype).None?
    ensures TakenFor(z, env, q, OutcomeOf(z, q.name, q.qtype), StepAt(z, env, q.name, q.qtype, q.dnssec))
  {
    if DnameOwner(z, q.name).Some? {
      var d := DnameDepth(z, q.name);
    }
  }

  lemma ChainFacts(z: Zone, env: Env, q: Query)
    ensures IsChain(Word(z, env, q.qtype, q.dnssec), z.origin, q.qtype, Chain(z, env, q), MAX_HOPS)
    ensures !LeadsInside(z.origin, q.qtype, Chain(z, env, q)[0].step) ==> |Chain(z, env, q)| == 1
  {
    WalkIsChain(Word(z, env, q.qtype, q.dnssec), z.origin, q.qtype, q.name, MAX_HOPS);
    var hops := Chain(z, env, q);
    assert |hops| > 1 ==> Linked(z.origin, q.qtype, hops[0], hops[1]);
  }

  lemma ReplyCodeOf(z: Zone, env: Env, q: Query, hops: seq<Hop>)
    requires hops != []
    ensures var m := Reply(z, env, q, hops);
      var missing := |hops| == 1 && hops[0].step.Missing?;
      && m.authoritative
      && (m.rcode == NXDomain <==> missing && q.name !in z.nodes)
      && (missing && q.name in z.nodes ==> m.rcode == NoError)
  {
  }

  /** The reply is NXDOMAIN exactly when the records make the name non-existent
      without a wildcard to answer for it; it is unauthoritative exactly when
      the records delegate the name. */
  lemma ReplyCode(z: Zone, env: Env, q: Query)
    requires IsSubdomain(z.origin, q.name)
    ensures Answer(z, env, q).rcode == NXDomain <==> OutcomeOf(z, q.name, q.qtype) == NoSuchName
    ensures Answer(z, env, q).authoritative <==> !OutcomeOf(z, q.name, q.qtype).Delegated?
    ensures OutcomeOf(z, q.name, q.qtype) == EmptyNonTerminal ==> Answer(z, env, q).rcode == NoError
  {
    if ReferralCut(z, q.name, q.qtype).None? {
      var hops := Chain(z, env, q);
      assert Answer(z, env, q) == Reply(z, env, q, hops);
      ReplyCodeOf(z, env, q, hops);
      MissingHop(z, env, q);
    }
  }

  /** Only a name without data of any kind makes the chain end at once. */
  lemma MissingHop(z: Zone, env: Env, q: Query)
    requires IsSubdomain(z.origin, q.name) && ReferralCut(z, q.name, q.qtype).None?
    ensures var hops := Chain(z, env, q);
      var o := OutcomeOf(z, q.name, q.qtype);
      && !o.Delegated?
      && (|hops| == 1 && hops[0].step.Missing? && q.name !in z.nodes <==> o == NoSuchName)
      && (o == EmptyNonTerminal ==> |hops| == 1 && hops[0].step.Missing? && q.name in z.nodes)
  {
    FirstHop(z, env, q);
    ChainFacts(z, env, q);
  }

  /** A type asked for at a name with records: the answer is the record set and,
      for a client that wants them, its signatures. */
  ghost predicate PlainQuestion(q: Query, nd: NameData) {
    q.qtype != ANY && (q.qtype == CNAME || !nd.Has(CNAME))
  }

  lemma OneDataHop(z: Zone, env: Env, q: Query)
    requires IsSubdomain(z.origin, q.name) && ReferralCut(z, q.name, q.qtype).None?
    requires StepAt(z, env, q.name, q.qtype, q.dnssec).Data?
    ensures Answer(z, env, q).answers == StepAt(z, env, q.name, q.qtype, q.dnssec).records
    ensures Answer(z, env, q).rcode == NoError
  {
    var hops := Chain(z, env, q);
    ChainFacts(z, env, q);
    assert hops == [hops[0]];
    ReplyToData(z, env, q, hops[0]);
    assert Answer(z, env, q) == Reply(z, env, q, hops);
  }

  lemma ReplyToData(z: Zone, env: Env, q: Query, h: Hop)
    requires h.step.Data?
    ensures Reply(z, env, q, [h]).answers == h.step.records && Reply(z, env, q, [h]).rcode == NoError
  {
    AppendHop([], h);
    assert [] + [h] == [h];
    assert HopRecords([h]) == [] + h.step.records == h.step.records;
    assert h.step.records + [] == h.step.records;
  }

  /** Exact match, over the records. */
  lemma ExactAnswer(z: Zone, origin: Name, records: seq<Record>, env: Env, q: Query)
    requires BuiltFrom(z, origin, records) && IsSubdomain(origin, q.name)
    requires OutcomeOf(z, q.name, q.qtype) == Exact && PlainQuestion(q, DataAt(z.names, q.name))
    ensures Answer(z, env, q).rcode == NoError
    ensures Answer(z, env, q).answers ==
      var rrset := Selected(records, q.name, q.qtype);
      if rrset == [] then [] else rrset + (if q.dnssec then SelectedSigs(records, q.name, q.qtype) else [])
  {
    BuildGroups(origin, records, q.name, q.qtype);
    BuildNoHollow(origin, records);
    FirstHop(z, env, q);
    OneDataHop(z, env, q);
  }

  /** Wildcard match: the same record set, each record under the name asked. */
  lemma WildcardAnswer(z: Zone, origin: Name, records: seq<Record>, env: Env, q: Query, ce: Name)
    requires BuiltFrom(z, origin, records) && IsSubdomain(origin, q.name)
    requires OutcomeOf(z, q.name, q.qtype) == Synthesized(ce)
    requires PlainQuestion(q, DataAt(z.names, WildcardOf(ce)))
    ensures Answer(z, env, q).rcode == NoError
    ensures var rrset := Selected(records, WildcardOf(ce), q.qtype);
      Answer(z, env, q).answers == Renamed(
        if rrset == [] then [] else rrset + (if q.dnssec then SelectedSigs(records, WildcardOf(ce), q.qtype) else []),
        q.name, Some(ce))
  {
    BuildGroups(origin, records, WildcardOf(ce), q.qtype);
    BuildNoHollow(origin, records);
    BuildOwners(origin, records, WildcardOf(ce));
    FirstHop(z, env, q);
    OneDataHop(z, env, q);
  }

  // -------------------------------------------------------------- aliases

  lemma {:induction false} FirstDnameIsThere(rs: seq<Record>)
    ensures FirstDname(rs).Some? ==>
      exists r :: r in rs && r.data == DnameData(Some(FirstDname(rs).value.0)) && r.ttl == FirstDname(rs).value.1
  {
    if rs != [] && !(rs[0].data.DnameData? && rs[0].data.redirect.Some?) {
      FirstDnameIsThere(rs[1..]);
    } else if rs != [] {
      assert rs[0] in rs;
    }
  }

  /** A name whose first CNAME points at `to` leads there. */
  lemma AliasStep(env: Env, nd: NameData, n: Name, qtype: RType, dnssec: bool, wild: Option<Name>, to: Name)
    requires qtype != CNAME && nd.Has(CNAME) && nd.Set(CNAME)[0].data == CnameData(to)
    ensures var s := DataStep(env, nd, n, qtype, dnssec, wild); s.Alias? && s.to == to && s.wild == wild
  {
    var records := Renamed(nd.WithSigs(CNAME, dnssec), n, wild);
    assert records[0].data == CnameData(to);
  }

  /** A chain of an alias and the data it leads to. */
  lemma TwoHops(z: Zone, env: Env, q: Query, first: Step, second: Step)
    requires first == StepAt(z, env, q.name, q.qtype, q.dnssec) && first.Alias? && IsSubdomain(z.origin, first.to)
    requires second == StepAt(z, env, first.to, q.qtype, q.dnssec) && second.Data?
    ensures Chain(z, env, q) == [Hop(q.name, first), Hop(first.to, second)]
  {
    var word := Word(z, env, q.qtype, q.dnssec);
    assert Walk(word, z.origin, q.qtype, first.to, 7) == [Hop(first.to, second)] + [];
  }

  /** One redirection keeps the labels below the topmost DNAME owner and puts
      the target of one of its DNAME records in place of the owner's; it adds
      the DNAME set and one CNAME from the old to the new name, carrying the
      DNAME's TTL, and the new name fits in 255 octets. */
  ghost predicate RedirectsTo(z: Zone, n: Name, s: Step, dnssec: bool) {
    s.Redirect? &&
    exists d, r :: Uses(z, n, dnssec, d, r) && RedirectsBy(DataAt(z.names, d).WithSigs(DNAME, dnssec), n, d, r, s)
  }

  /** `r` is a readable DNAME of the topmost DNAME owner `d` strictly above `n`. */
  ghost predicate Uses(z: Zone, n: Name, dnssec: bool, d: Name, r: Record) {
    && DnameOwner(z, n) == Some(d) && IsProperSubdomain(d, n)
    && r in DataAt(z.names, d).WithSigs(DNAME, dnssec) && r.data.DnameData? && r.data.redirect.Some?
  }

  ghost predicate RedirectsBy(rrset: seq<Record>, n: Name, d: Name, r: Record, s: Step)
    requires s.Redirect? && IsSubdomain(d, n) && r.data.DnameData? && r.data.redirect.Some?
  {
    && n == n[..|n| - |d|] + d && s.to == n[..|n| - |d|] + r.data.redirect.value
    && s.records == rrset + [Record(n, r.ttl, CnameData(s.to))]
    && WireLength(s.to) <= 255
  }

  /** The target would not fit: only the DNAME set is given, and no CNAME. */
  ghost predicate Overflows(z: Zone, n: Name, s: Step, dnssec: bool) {
    s.TooLong? &&
    exists d, r :: Uses(z, n, dnssec, d, r) && OverflowsBy(DataAt(z.names, d).WithSigs(DNAME, dnssec), n, d, r, s)
  }

  ghost predicate OverflowsBy(rrset: seq<Record>, n: Name, d: Name, r: Record, s: Step)
    requires s.TooLong? && IsSubdomain(d, n) && r.data.DnameData? && r.data.redirect.Some?
  {
    WireLength(n[..|n| - |d|] + r.data.redirect.value) > 255 && s.records == rrset
  }

  lemma RedirectStepShape(z: Zone, n: Name, d: Name, dnssec: bool)
    requires DnameOwner(z, n) == Some(d) && IsProperSubdomain(d, n)
    ensures var s := RedirectStep(z, n, d, dnssec);
      && (s.Redirect? ==> RedirectsTo(z, n, s, dnssec))
      && (s.TooLong? ==> Overflows(z, n, s, dnssec))
  {
    var rrset := DataAt(z.names, d).WithSigs(DNAME, dnssec);
    FirstDnameIsThere(rrset);
    if FirstDname(rrset).Some? {
      var r :| r in rrset && r.data == DnameData(Some(FirstDname(rrset).value.0)) && r.ttl == FirstDname(rrset).value.1;
      assert Uses(z, n, dnssec, d, r);
      LabelsSplit(n, d);
    }
  }

  lemma LabelsSplit(n: Name, d: Name)
    requires IsSubdomain(d, n)
    ensures n == n[..|n| - |d|] + d
  {
  }

  /** Only a DNAME above the name makes a step a redirection. */
  lemma RedirectionComesFromDname(z: Zone, env: Env, n: Name, qtype: RType, dnssec: bool)
    ensures var s := StepAt(z, env, n, qtype, dnssec);
      s.Redirect? || s.TooLong? ==>
        && DnameOwner(z, n).Some? && IsProperSubdomain(DnameOwner(z, n).value, n)
        && s == RedirectStep(z, n, DnameOwner(z, n).value, dnssec)
  {
    if IsSubdomain(z.origin, n) && DnameOwner(z, n).Some? {
      var k := DnameDepth(z, n);
    } else if n in z.names {
      DataIsNoRedirection(env, z.names[n], n, qtype, dnssec, None);
    } else if WildcardSource(z, n).Some? {
      var ce := WildcardSource(z, n).value;
      DataIsNoRedirection(env, z.names[WildcardOf(ce)], n, qtype, dnssec, Some(ce));
    }
  }

  lemma DataIsNoRedirection(env: Env, nd: NameData, n: Name, qtype: RType, dnssec: bool, wild: Option<Name>)
    ensures var s := DataStep(env, nd, n, qtype, dnssec, wild); !s.Redirect? && !s.TooLong?
  {
  }

  lemma RedirectionStep(z: Zone, env: Env, n: Name, s: Step, qtype: RType, dnssec: bool)
    requires s == StepAt(z, env, n, qtype, dnssec)
    ensures s.Redirect? ==> RedirectsTo(z, n, s, dnssec)
    ensures s.TooLong? ==> Overflows(z, n, s, dnssec)
  {
    RedirectionComesFromDname(z, env, n, qtype, dnssec);
    if s.Redirect? || s.TooLong? {
      RedirectStepShape(z, n, DnameOwner(z, n).value, dnssec);
    }
  }

  /** The DNAME set of a built zone holds no CNAME. */
  lemma DnameSetHasNoCname(z: Zone, origin: Name, records: seq<Record>, d: Name, dnssec: bool)
    requires BuiltFrom(z, origin, records)
    ensures forall r :: r in DataAt(z.names, d).WithSigs(DNAME, dnssec) ==> !r.data.CnameData?
  {
    BuildGroups(origin, records, d, DNAME);
  }

  /** On every zone, cyclic ones included, a lookup visits at most eight names,
      all inside the zone, and every redirection along the way is a substitution. */
  lemma AliasChain(z: Zone, env: Env, q: Query)
    requires IsSubdomain(z.origin, q.name)
    ensures var hops := Chain(z, env, q);
      && 1 <= |hops| <= 8
      && (forall i :: 0 <= i < |hops| ==> IsSubdomain(z.origin, hops[i].at))
      && (forall i :: 0 <= i < |hops| && hops[i].step.Redirect? ==> RedirectsTo(z, hops[i].at, hops[i].step, q.dnssec))
  {
    var hops := Chain(z, env, q);
    ChainFacts(z, env, q);
    forall i | 0 <= i < |hops|
      ensures IsSubdomain(z.origin, hops[i].at)
      ensures hops[i].step.Redirect? ==> RedirectsTo(z, hops[i].at, hops[i].step, q.dnssec)
    {
      assert hops[i].step == StepAt(z, env, hops[i].at, q.qtype, q.dnssec);
      RedirectionStep(z, env, hops[i].at, hops[i].step, q.qtype, q.dnssec);
      if i > 0 { assert Linked(z.origin, q.qtype, hops[i - 1], hops[i]); }
    }
  }

  lemma YxdomainIffTooLong(z: Zone, env: Env, q: Query)
    requires IsSubdomain(z.origin, q.name) && ReferralCut(z, q.name, q.qtype).None?
    ensures var hops := Chain(z, env, q);
      Answer(z, env, q).rcode == YXDomain <==> hops[|hops| - 1].step.TooLong?
  {
  }

  /** The reply is YXDOMAIN exactly when the last substitution does not fit in
      255 octets, and then that hop contributes the DNAME set and no CNAME. */
  lemma OverlongRedirection(z: Zone, origin: Name, records: seq<Record>, env: Env, q: Query)
    requires BuiltFrom(z, origin, records) && IsSubdomain(origin, q.name) && ReferralCut(z, q.name, q.qtype).None?
    ensures var hops := Chain(z, env, q);
      var last := hops[|hops| - 1];
      && (Answer(z, env, q).rcode == YXDomain <==> last.step.TooLong?)
      && (last.step.TooLong? ==>
            && Overflows(z, last.at, last.step, q.dnssec)
            && forall r :: r in last.step.records ==> !r.data.CnameData?)
  {
    var hops := Chain(z, env, q);
    var last := hops[|hops| - 1];
    YxdomainIffTooLong(z, env, q);
    ChainFacts(z, env, q);
    RedirectionStep(z, env, last.at, last.step, q.qtype, q.dnssec);
    if last.step.TooLong? {
      DnameSetHasNoCname(z, origin, records, DnameOwner(z, last.at).value, q.dnssec);
    }
  }

  // ---------------------------------- a wildcard that is an empty non-terminal

  /** Section 2.2.3 of RFC 4592 lets an empty non-terminal wildcard name exist,
      so a name below its parent is no name error. The code answers NXDOMAIN
      there: its verdict is the standard's exactly when the wildcard name is not
      an empty non-terminal. */
  lemma NameErrorMatchesStandard(z: Zone, origin: Name, records: seq<Record>, env: Env, q: Query)
    requires BuiltFrom(z, origin, records) && IsSubdomain(origin, q.name)
    requires Local(origin, records, q.name, q.qtype) && !Exists(origin, records, q.name)
    ensures var source := WildcardOf(Encloser(z, q.name));
      (Answer(z, env, q).rcode == NXDomain <==> !Exists(origin, records, source)) <==>
        !(Exists(origin, records, source) && !HasRecords(origin, records, source))
  {
    var source := WildcardOf(Encloser(z, q.name));
    NodesExist(z, origin, records, q.name);
    NodesExist(z, origin, records, source);
    ZoneOwns(z, origin, records, source);
    ZoneOwns(z, origin, records, q.name);
    ReplyCode(z, env, q);
    OutcomeIsCalledFor(z, origin, records, q.name, q.qtype);
    if HasRecords(origin, records, source) {
      var r :| r in records && r.owner == source;
      assert Suffix(source, |source|) == source;
    }
  }

  /** A zone where `a.*.org.` exists and nothing else below `org.`. */
  function EmptyWildcardRecords(): seq<Record> {
    [Record(["org"], 60, SoaData(1, 1, 1, 1, 1)), Record(["a", "*", "org"], 60, Opaque(OtherType(16), 7))]
  }

  ghost predicate EmptyWildcardZone(records: seq<Record>, origin: Name, x: Name, source: Name) {
    records == EmptyWildcardRecords() && origin == ["org"] && x == ["x", "org"] && source == ["*", "org"]
  }

  lemma EmptyWildcardNames(records: seq<Record>, origin: Name, x: Name, source: Name)
    requires EmptyWildcardZone(records, origin, x, source)
    ensures IsSubdomain(origin, x) && x != origin && WildcardOf(origin) == source
    ensures records[0].owner == origin && Suffix(records[1].owner, 2) == source && |records[1].owner| == 3
    ensures !IsSubdomain(x, records[0].owner) && !IsSubdomain(x, records[1].owner)
    ensures forall n :: IsProperSubdomain(n, x) && IsSubdomain(origin, n) ==> n == origin
  {
    assert Suffix(x, 1) == origin && Suffix(x, 2) == x;
    assert Suffix(records[1].owner, 1) == origin && Suffix(records[1].owner, 2) == source;
    assert source[0] != x[0];
  }

  lemma EmptyWildcardFacts(records: seq<Record>, origin: Name, x: Name, source: Name)
    requires EmptyWildcardZone(records, origin, x, source)
    ensures IsSubdomain(origin, x) && x != origin && WildcardOf(origin) == source
    ensures !Exists(origin, records, x) && Exists(origin, records, source) && !HasRecords(origin, records, source)
    ensures Local(origin, records, x, A)
    ensures forall n :: IsProperSubdomain(n, x) && IsSubdomain(origin, n) ==> n == origin
  {
    EmptyWildcardNames(records, origin, x, source);
    assert forall r :: r in records ==> r == records[0] || r == records[1];
    assert records[1] in records && IsSubdomain(source, records[1].owner);
    assert records[0].Type() == SOA && records[1].Type() == OtherType(16);
  }

  /** The failing case, concretely: `x.org.` asked of that zone. */
  lemma NameErrorAtEmptyWildcard(z: Zone, env: Env)
    requires BuiltFrom(z, ["org"], EmptyWildcardRecords())
    ensures Answer(z, env, Query(["x", "org"], A, false)).rcode == NXDomain
    ensures WildcardOf(Encloser(z, ["x", "org"])) in z.nodes
  {
    var records := EmptyWildcardRecords();
    var origin: Name, x: Name, source: Name := ["org"], ["x", "org"], ["*", "org"];
    EmptyWildcardFacts(records, origin, x, source);
    EmptyWildcardVerdict(z, env, origin, records, Query(x, A, false), source);
  }

  lemma EmptyWildcardVerdict(z: Zone, env: Env, origin: Name, records: seq<Record>, q: Query, source: Name)
    requires BuiltFrom(z, origin, records) && IsSubdomain(origin, q.name) && q.name != origin
    requires source == WildcardOf(origin) && Local(origin, records, q.name, q.qtype)
    requires !Exists(origin, records, q.name) && Exists(origin, records, source) && !HasRecords(origin, records, source)
    requires forall n :: IsProperSubdomain(n, q.name) && IsSubdomain(origin, n) ==> n == origin
    ensures Answer(z, env, q).rcode == NXDomain && Encloser(z, q.name) == origin && source in z.nodes
  {
    NodesExist(z, origin, records, q.name);
    NodesExist(z, origin, records, source);
    EncloserIsClosest(z, origin, records, q.name);
    NameErrorMatchesStandard(z, origin, records, env, q);
  }
}
