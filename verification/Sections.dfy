/** The sections of a reply, over the records the zone was built from. */
module Sections {
  import opened Names
  import opened Records
  import opened Zones
  import opened Lookups
  import opened Outcomes
  import opened Answers

  /** `x` belongs to the set (n, t), or signs it where signatures are wanted. */
  ghost predicate InAnswerSet(records: seq<Record>, n: Name, t: RType, dnssec: bool, x: Record) {
    x in Selected(records, n, t) || (dnssec && Selected(records, n, t) != [] && x in SelectedSigs(records, n, t))
  }

  lemma WithSigsIs(z: Zone, origin: Name, records: seq<Record>, n: Name, t: RType, dnssec: bool, x: Record)
    requires BuiltFrom(z, origin, records)
    ensures x in DataAt(z.names, n).WithSigs(t, dnssec) <==> IsSubdomain(origin, n) && InAnswerSet(records, n, t, dnssec, x)
  {
    BuildGroups(origin, records, n, t);
    BuildNoHollow(origin, records);
  }

  // -------------------------------------------------------- additional data

  /** The record names host `t` as a name server, a service host or a mail exchange. */
  predicate PointsAt(r: Record, t: Name) {
    r.data == NsData(t) || (r.data.SrvData? && r.data.host == t) || (r.data.MxData? && r.data.exchange == t)
  }

  /** `x` is an address, or signs the addresses, of a host of the zone. */
  ghost predicate AddressOf(origin: Name, records: seq<Record>, t: Name, dnssec: bool, x: Record) {
    IsSubdomain(origin, t) && (InAnswerSet(records, t, A, dnssec, x) || InAnswerSet(records, t, AAAA, dnssec, x))
  }

  /** `x` is an address of a host that one of the records names. */
  ghost predicate IsGlue(origin: Name, records: seq<Record>, rs: seq<Record>, dnssec: bool, x: Record) {
    exists r, t :: r in rs && PointsAt(r, t) && AddressOf(origin, records, t, dnssec, x)
  }

  lemma GlueIs(z: Zone, origin: Name, records: seq<Record>, r: Record, dnssec: bool, x: Record)
    requires BuiltFrom(z, origin, records)
    ensures x in Glue(z, r, dnssec) <==> exists t :: PointsAt(r, t) && AddressOf(origin, records, t, dnssec, x)
  {
    forall t | PointsAt(r, t)
      ensures GlueTarget(r) == Some(t)
      ensures x in Glue(z, r, dnssec) <==> AddressOf(origin, records, t, dnssec, x)
    {
      WithSigsIs(z, origin, records, t, A, dnssec, x);
      WithSigsIs(z, origin, records, t, AAAA, dnssec, x);
    }
    assert GlueTarget(r).Some? ==> PointsAt(r, GlueTarget(r).value);
  }

  /** The additional data of a section is exactly the addresses of the hosts it names. */
  lemma {:induction false} AdditionalIs(z: Zone, origin: Name, records: seq<Record>, rs: seq<Record>, dnssec: bool, x: Record)
    requires BuiltFrom(z, origin, records)
    ensures x in Additional(z, rs, dnssec) <==> IsGlue(origin, records, rs, dnssec, x)
  {
    if rs != [] {
      var before, last := rs[..|rs| - 1], rs[|rs| - 1];
      AdditionalIs(z, origin, records, before, dnssec, x);
      GlueIs(z, origin, records, last, dnssec, x);
      assert forall r :: r in rs <==> r in before || r == last;
    }
  }

  // -------------------------------------------------------------- referrals

  lemma ReferralAuthority(z: Zone, origin: Name, records: seq<Record>, env: Env, c: Name, dnssec: bool)
    requires BuiltFrom(z, origin, records) && Owns(origin, records, c, NS)
    ensures var m, ns := Referral(z, env, c, dnssec), Selected(records, c, NS);
      ns != [] && ns <= m.authority && (!dnssec ==> m.authority == ns)
  {
    BuildGroups(origin, records, c, NS);
    SelectedNonempty(records, c, NS);
    var ns := Selected(records, c, NS);
    assert DataAt(z.names, c).WithSigs(NS, false) == ns + [] == ns;
  }

  lemma ReferralGlue(z: Zone, origin: Name, records: seq<Record>, env: Env, c: Name, dnssec: bool)
    requires BuiltFrom(z, origin, records)
    ensures var m := Referral(z, env, c, dnssec);
      forall x :: x in m.additional <==> IsGlue(origin, records, m.authority, dnssec, x)
  {
    var m := Referral(z, env, c, dnssec);
    forall x ensures x in m.additional <==> IsGlue(origin, records, m.authority, dnssec, x) {
      AdditionalIs(z, origin, records, m.authority, dnssec, x);
    }
  }

  lemma DelegatedAnswer(z: Zone, origin: Name, records: seq<Record>, env: Env, q: Query, c: Name)
    requires BuiltFrom(z, origin, records) && IsSubdomain(origin, q.name)
    requires Calls(origin, records, q.name, q.qtype, Delegated(c))
    ensures Answer(z, env, q) == Referral(z, env, c, q.dnssec) && Owns(origin, records, c, NS)
  {
    OutcomeIsCalledFor(z, origin, records, q.name, q.qtype);
    OutcomeIsUnique(origin, records, q.name, q.qtype, OutcomeOf(z, q.name, q.qtype), Delegated(c));
  }

  /** A referral, with or without DNSSEC: no answers and no authority; the NS set of
      the cut in the authority section, alone unless signatures are wanted; and in
      the additional section exactly the zone's addresses of the servers named. */
  lemma ReferralIs(z: Zone, origin: Name, records: seq<Record>, env: Env, q: Query, c: Name)
    requires BuiltFrom(z, origin, records) && IsSubdomain(origin, q.name)
    requires Calls(origin, records, q.name, q.qtype, Delegated(c))
    ensures var m, ns := Answer(z, env, q), Selected(records, c, NS);
      && m.rcode == NoError && !m.authoritative && m.answers == [] && ns != [] && ns <= m.authority
      && (!q.dnssec ==> m.authority == ns)
      && (forall x :: x in m.additional <==> IsGlue(origin, records, m.authority, q.dnssec, x))
  {
    DelegatedAnswer(z, origin, records, env, q, c);
    ReferralAuthority(z, origin, records, env, c, q.dnssec);
    ReferralGlue(z, origin, records, env, c, q.dnssec);
  }

  /** So every address the zone has of a server of the cut goes along. */
  lemma GlueGoesAlong(z: Zone, origin: Name, records: seq<Record>, env: Env, q: Query, c: Name, r: Record, t: Name, x: Record)
    requires BuiltFrom(z, origin, records) && IsSubdomain(origin, q.name)
    requires Calls(origin, records, q.name, q.qtype, Delegated(c))
    requires r in Selected(records, c, NS) && r.data == NsData(t) && IsSubdomain(origin, t)
    requires x in Selected(records, t, A) || x in Selected(records, t, AAAA)
    ensures x in Answer(z, env, q).additional
  {
    ReferralIs(z, origin, records, env, q, c);
    NamedIsGlue(origin, records, Answer(z, env, q).authority, Selected(records, c, NS), q.dnssec, r, t, x);
  }

  lemma NamedIsGlue(
    origin: Name, records: seq<Record>, rs: seq<Record>, ns: seq<Record>, dnssec: bool, r: Record, t: Name, x: Record)
    requires ns <= rs && r in ns && r.data == NsData(t) && IsSubdomain(origin, t)
    requires x in Selected(records, t, A) || x in Selected(records, t, AAAA)
    ensures IsGlue(origin, records, rs, dnssec, x)
  {
    assert r in rs && PointsAt(r, t) && AddressOf(origin, records, t, dnssec, x);
  }

  // ------------------------------------------------------- negative answers

  /** The SOA as negative answers carry it (section 3 of RFC 2308): the zone's first,
      its TTL the smaller of its own and the minimum it states. */
  ghost predicate IsNegativeSoa(origin: Name, records: seq<Record>, r: Record) {
    var set_ := Selected(records, origin, SOA);
    && set_ != [] && set_[0].data.SoaData? && r == set_[0].(ttl := r.ttl)
    && r.ttl <= set_[0].ttl && r.ttl <= set_[0].data.minimum && (r.ttl == set_[0].ttl || r.ttl == set_[0].data.minimum)
  }

  lemma NegativeSoaIs(z: Zone, origin: Name, records: seq<Record>, dnssec: bool) returns (soa: Record)
    requires BuiltFrom(z, origin, records)
    ensures IsNegativeSoa(origin, records, soa)
    ensures NegativeSoa(z, dnssec) == [soa] + (if dnssec then SelectedSigs(records, origin, SOA) else [])
  {
    BuildGroups(origin, records, origin, SOA);
    assert Suffix(origin, |origin|) == origin;
    soa := NegativeSoa(z, dnssec)[0];
  }

  /** NXDOMAIN or NODATA. */
  ghost predicate IsNegative(z: Zone, env: Env, q: Query) {
    var o := OutcomeOf(z, q.name, q.qtype);
    || o == NoSuchName || o == EmptyNonTerminal
    || ((o == Exact || o.Synthesized?) && StepAt(z, env, q.name, q.qtype, q.dnssec).Data? &&
        StepAt(z, env, q.name, q.qtype, q.dnssec).records == [])
  }

  /** A negative answer has no answers and no additional data; its authority section is
      the negative SOA or, for a client that wants them, starts with it and its
      signatures. */
  lemma NegativeIs(z: Zone, origin: Name, records: seq<Record>, env: Env, q: Query) returns (soa: Record)
    requires BuiltFrom(z, origin, records) && IsSubdomain(origin, q.name) && IsNegative(z, env, q)
    ensures IsNegativeSoa(origin, records, soa)
    ensures var m := Answer(z, env, q);
      && m.answers == [] && m.additional == []
      && (if q.dnssec then [soa] + SelectedSigs(records, origin, SOA) <= m.authority else m.authority == [soa])
  {
    soa := NegativeSoaIs(z, origin, records, q.dnssec);
    var hops := Chain(z, env, q);
    ChainFacts(z, env, q);
    FirstHop(z, env, q);
    assert hops == [hops[0]];
    if hops[0].step.Missing? {
      EndsNegative(z, env, q, hops[0]);
    } else {
      EndsNodata(z, env, q, hops[0]);
    }
  }

  /** A name or wildcard with records but none of the type asked for is NODATA. */
  lemma EmptySetIsNegative(z: Zone, origin: Name, records: seq<Record>, env: Env, q: Query, wild: Option<Name>)
    requires BuiltFrom(z, origin, records) && IsSubdomain(origin, q.name) && q.qtype != ANY
    requires OutcomeOf(z, q.name, q.qtype) == if wild.Some? then Synthesized(wild.value) else Exact
    requires var owner := if wild.Some? then WildcardOf(wild.value) else q.name;
      Selected(records, owner, q.qtype) == [] && Selected(records, owner, CNAME) == []
    ensures IsNegative(z, env, q)
  {
    var owner := if wild.Some? then WildcardOf(wild.value) else q.name;
    FirstHop(z, env, q);
    BuildGroups(origin, records, owner, q.qtype);
    BuildGroups(origin, records, owner, CNAME);
    BuildOwners(origin, records, owner);
    BuildNoHollow(origin, records);
    EmptyStep(env, z.names[owner], q, wild);
  }

  lemma EmptyStep(env: Env, nd: NameData, q: Query, wild: Option<Name>)
    requires q.qtype != ANY && nd.Set(CNAME) == [] && q.qtype !in nd.rrsets
    ensures DataStep(env, nd, q.name, q.qtype, q.dnssec, wild) == Data([], wild)
  {
  }

  // ------------------------------------------------------- positive answers

  /** The records of the steps, one after another. */
  function StepRecords(hops: seq<Hop>): seq<Record> {
    if hops == [] then [] else hops[0].step.Records() + StepRecords(hops[1..])
  }

  lemma {:induction false} StepsInOrder(hops: seq<Hop>)
    ensures HopRecords(hops) == StepRecords(hops)
  {
    if hops != [] {
      var front, last := hops[..|hops| - 1], hops[|hops| - 1];
      if front == [] {
        assert hops[1..] == [] && StepRecords(hops) == last.step.Records() + [];
        assert HopRecords(front) == [];
      } else {
        StepsInOrder(front);
        StepsInOrder(hops[1..]);
        assert front[1..] == hops[1..][..|hops| - 2];
        StepsInOrder(front[1..]);
        assert HopRecords(hops[1..]) == HopRecords(front[1..]) + last.step.Records();
      }
    }
  }

  /** How a lookup goes on: from an alias, and from a redirection unless the question
      is for the CNAME, to its target, if that is in the zone and fewer than eight
      names have been visited. */
  lemma ChainGoesOn(z: Zone, env: Env, q: Query, i: nat)
    requires i < |Chain(z, env, q)|
    ensures var hops := Chain(z, env, q);
      var s := hops[i].step;
      && (i + 1 < |hops| <==>
            i + 1 < 8 && (s.Alias? || (s.Redirect? && q.qtype != CNAME)) && IsSubdomain(z.origin, s.to))
      && (i + 1 < |hops| ==> hops[i + 1].at == s.to)
  {
    var hops := Chain(z, env, q);
    ChainFacts(z, env, q);
    if i + 1 < |hops| {
      assert Linked(z.origin, q.qtype, hops[i], hops[i + 1]);
    }
  }

  /** What is answered for a name outside the zone that the last step points at. */
  function FromOutside(z: Zone, env: Env, q: Query, last: Step): seq<Record> {
    if (last.Alias? || (last.Redirect? && q.qtype != CNAME)) && env.chase && !IsSubdomain(z.origin, last.to)
    then env.external(last.to) else []
  }

  /** A reply that is neither a referral nor negative has the records of the steps, one
      after another, and those from outside; exactly the zone's addresses of the hosts
      these name as additional data, but on YXDOMAIN; and nothing in the authority
      section unless DNSSEC is asked for. */
  lemma PositiveIs(z: Zone, origin: Name, records: seq<Record>, env: Env, q: Query)
    requires BuiltFrom(z, origin, records) && IsSubdomain(origin, q.name)
    requires ReferralCut(z, q.name, q.qtype).None? && !IsNegative(z, env, q)
    ensures var m, hops := Answer(z, env, q), Chain(z, env, q);
      && m.answers == StepRecords(hops) + FromOutside(z, env, q, hops[|hops| - 1].step)
      && (!q.dnssec ==> m.authority == [])
      && (if m.rcode == YXDomain then m.additional == []
          else forall x :: x in m.additional <==> IsGlue(origin, records, m.answers, q.dnssec, x))
  {
    var m, hops := Answer(z, env, q), Chain(z, env, q);
    var last := hops[|hops| - 1].step;
    StepsInOrder(hops);
    if last.TooLong? {
      EndsTooLong(z, env, q, hops);
      assert StepRecords(hops) + [] == StepRecords(hops);
    } else {
      GivesAnswers(z, env, q, hops);
      EndsPositive(z, env, q, hops, m.answers, LastWild(hops));
      forall x ensures x in m.additional <==> IsGlue(origin, records, m.answers, q.dnssec, x) {
        AdditionalIs(z, origin, records, m.answers, q.dnssec, x);
      }
    }
  }

  lemma RedirectionGives(z: Zone, n: Name, d: Name, dnssec: bool)
    requires IsSubdomain(d, n)
    ensures var s := RedirectStep(z, n, d, dnssec); !s.Missing? && !s.Data?
  {
  }

  lemma NothingIsNegative(z: Zone, env: Env, q: Query)
    requires IsSubdomain(z.origin, q.name) && ReferralCut(z, q.name, q.qtype).None? && !IsNegative(z, env, q)
    ensures var s := StepAt(z, env, q.name, q.qtype, q.dnssec); !s.Missing? && !(s.Data? && s.records == [])
  {
    FirstHop(z, env, q);
    var o, s := OutcomeOf(z, q.name, q.qtype), StepAt(z, env, q.name, q.qtype, q.dnssec);
    if o.Redirected? {
      RedirectionGives(z, q.name, o.owner, q.dnssec);
    } else {
      var nd := z.names[if o.Synthesized? then WildcardOf(o.encloser) else q.name];
      DataGives(env, nd, q, if o.Synthesized? then Some(o.encloser) else None);
    }
  }

  lemma DataGives(env: Env, nd: NameData, q: Query, wild: Option<Name>)
    ensures !DataStep(env, nd, q.name, q.qtype, q.dnssec, wild).Missing?
  {
  }

  lemma GivesAnswers(z: Zone, env: Env, q: Query, hops: seq<Hop>)
    requires IsSubdomain(z.origin, q.name) && ReferralCut(z, q.name, q.qtype).None? && !IsNegative(z, env, q)
    requires hops == Chain(z, env, q) && !hops[|hops| - 1].step.TooLong?
    ensures var last := hops[|hops| - 1].step; |hops| == 1 ==> !last.Missing? && !(last.Data? && last.records == [])
    ensures Answer(z, env, q).answers == HopRecords(hops) + ExternalAnswers(z, env, q.qtype, hops[|hops| - 1].step)
  {
    NothingIsNegative(z, env, q);
    var answers := HopRecords(hops) + ExternalAnswers(z, env, q.qtype, hops[|hops| - 1].step);
    EndsPositive(z, env, q, hops, answers, LastWild(hops));
  }

  // ---------------------------------------------------------------- aliases

  /** A name with a CNAME, asked for another type: the first step gives the CNAME set,
      signed if wanted and under the name asked, and leads to the target of the first
      record in it that has one. */
  lemma AliasIs(z: Zone, origin: Name, records: seq<Record>, env: Env, q: Query, wild: Option<Name>)
    requires BuiltFrom(z, origin, records) && IsSubdomain(origin, q.name) && q.qtype != CNAME
    requires OutcomeOf(z, q.name, q.qtype) == if wild.Some? then Synthesized(wild.value) else Exact
    requires Selected(records, if wild.Some? then WildcardOf(wild.value) else q.name, CNAME) != []
    ensures var owner := if wild.Some? then WildcardOf(wild.value) else q.name;
      var rrset, s := Selected(records, owner, CNAME), Chain(z, env, q)[0].step;
      && s.Records() == Renamed(rrset + (if q.dnssec then SelectedSigs(records, owner, CNAME) else []), q.name, wild)
      && (s.Alias? || s.BrokenAlias?)
      && (s.Alias? ==> exists i :: 0 <= i < |rrset| && rrset[i].data == CnameData(s.to) && forall j :: 0 <= j < i ==> !rrset[j].data.CnameData?)
      && (s.BrokenAlias? ==> forall i :: 0 <= i < |rrset| ==> !rrset[i].data.CnameData?)
  {
    var owner := if wild.Some? then WildcardOf(wild.value) else q.name;
    FirstHop(z, env, q);
    BuildGroups(origin, records, owner, CNAME);
    BuildOwners(origin, records, owner);
    BuildNoHollow(origin, records);
    AliasStepIs(env, z.names[owner], q, wild, Selected(records, owner, CNAME), SelectedSigs(records, owner, CNAME));
  }

  lemma AliasStepIs(env: Env, nd: NameData, q: Query, wild: Option<Name>, rrset: seq<Record>, sigs: seq<Record>)
    requires q.qtype != CNAME && nd.Set(CNAME) == rrset != [] && nd.Sigs(CNAME) == sigs
    requires forall x :: x in sigs ==> x.data.RrsigData?
    ensures var s := DataStep(env, nd, q.name, q.qtype, q.dnssec, wild);
      && (s.Alias? || s.BrokenAlias?) && s.Records() == Renamed(rrset + (if q.dnssec then sigs else []), q.name, wild)
      && (s.Alias? ==> exists i :: 0 <= i < |rrset| && rrset[i].data == CnameData(s.to) && forall j :: 0 <= j < i ==> !rrset[j].data.CnameData?)
      && (s.BrokenAlias? ==> forall i :: 0 <= i < |rrset| ==> !rrset[i].data.CnameData?)
  {
    var given := rrset + (if q.dnssec then sigs else []);
    var records := Renamed(given, q.name, wild);
    assert nd.WithSigs(CNAME, q.dnssec) == given;
    var i := FirstCnameIs(records);
    forall k | 0 <= k < |given|
      ensures records[k].data == given[k].data && (if k < |rrset| then given[k] == rrset[k] else !given[k].data.CnameData?)
    {
      if k >= |rrset| { assert given[k] in sigs; }
    }
    assert i < |given| ==> i < |rrset| && rrset[i].data == CnameData(FirstCname(records).value);
    assert i == |given| ==> forall k :: 0 <= k < |rrset| ==> rrset[k].data == records[k].data;
  }

  lemma {:induction false} FirstCnameIs(rs: seq<Record>) returns (i: nat)
    ensures i <= |rs| && (forall j :: 0 <= j < i ==> !rs[j].data.CnameData?)
    ensures if i < |rs| then rs[i].data.CnameData? && FirstCname(rs) == Some(rs[i].data.cname) else FirstCname(rs) == None
  {
    if rs == [] || rs[0].data.CnameData? {
      i := 0;
    } else {
      var k := FirstCnameIs(rs[1..]);
      i := k + 1;
    }
  }
}
