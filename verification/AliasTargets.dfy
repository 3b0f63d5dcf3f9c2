/** Aliases that lead below a zone cut: cuts are looked for on the path of the name
    asked and not again on the path of an alias target. */
module AliasTargets {
  import opened Names
  import opened Records
  import opened Zones
  import opened Lookups
  import opened Outcomes
  import opened Answers

  /** Some outcome the records call for at the hop's name is the one the hop takes. */
  ghost predicate AsCalledFor(z: Zone, origin: Name, records: seq<Record>, env: Env, q: Query, h: Hop) {
    exists o :: Calls(origin, records, h.at, q.qtype, o) && TakenFor(z, env, q.(name := h.at), o, h.step)
  }

  /** The records delegate the name. */
  ghost predicate IsDelegated(origin: Name, records: seq<Record>, n: Name, qtype: RType) {
    exists c :: Calls(origin, records, n, qtype, Delegated(c))
  }

  /** Every hop of a lookup, the first one or a later one, takes what the records call
      for at its name if and only if they do not delegate that name. */
  lemma HopIsCalledForIff(z: Zone, origin: Name, records: seq<Record>, env: Env, q: Query, i: nat)
    requires BuiltFrom(z, origin, records) && IsSubdomain(origin, q.name) && i < |Chain(z, env, q)|
    ensures var h := Chain(z, env, q)[i];
      AsCalledFor(z, origin, records, env, q, h) <==> !IsDelegated(origin, records, h.at, q.qtype)
  {
    var h := Chain(z, env, q)[i];
    AliasChain(z, env, q);
    ChainFacts(z, env, q);
    assert h.step == Word(z, env, q.qtype, q.dnssec)(h.at) == StepAt(z, env, h.at, q.qtype, q.dnssec);
    OutcomeIsCalledFor(z, origin, records, h.at, q.qtype);
    StepIsCalledForIff(z, origin, records, env, q, h);
  }

  lemma StepIsCalledForIff(z: Zone, origin: Name, records: seq<Record>, env: Env, q: Query, h: Hop)
    requires BuiltFrom(z, origin, records) && IsSubdomain(origin, h.at)
    requires h.step == StepAt(z, env, h.at, q.qtype, q.dnssec)
    ensures AsCalledFor(z, origin, records, env, q, h) <==> !IsDelegated(origin, records, h.at, q.qtype)
  {
    var o := OutcomeOf(z, h.at, q.qtype);
    OutcomeIsCalledFor(z, origin, records, h.at, q.qtype);
    if o.Delegated? {
      forall p | Calls(origin, records, h.at, q.qtype, p) ensures p == o {
        OutcomeIsUnique(origin, records, h.at, q.qtype, o, p);
      }
    } else {
      FirstHop(z, env, q.(name := h.at));
      forall c | Calls(origin, records, h.at, q.qtype, Delegated(c)) ensures false {
        OutcomeIsUnique(origin, records, h.at, q.qtype, o, Delegated(c));
      }
    }
  }

  // ------------------------------------------------------------ the failing case

  /** `alias` below the apex points at `target`, which lies below the cut. */
  datatype Scene = Scene(
    apex: Name, alias: Name, cut: Name, target: Name,
    soa: Record, cname: Record, ns: Record, address: Record)
  {
    function Records(): seq<Record> { [soa, cname, ns, address] }
  }

  ghost predicate Fits(s: Scene) {
    && |s.apex| == 1 && |s.alias| == |s.cut| == 2 && |s.target| == 3 && s.alias != s.cut
    && Parent(s.alias) == s.apex && Parent(s.cut) == s.apex && Parent(s.target) == s.cut
    && s.soa.owner == s.apex && s.soa.Type() == SOA
    && s.cname.owner == s.alias && s.cname.data == CnameData(s.target)
    && s.ns.owner == s.cut && s.ns.Type() == NS && s.address.owner == s.target && s.address.Type() == A
  }

  lemma SceneMember(s: Scene, r: Record)
    ensures r in s.Records() <==> r == s.soa || r == s.cname || r == s.ns || r == s.address
  {
    var records := s.Records();
    assert records[0] == s.soa && records[1] == s.cname && records[2] == s.ns && records[3] == s.address;
  }

  predicate OwnedInScene(s: Scene, n: Name, t: RType) {
    (n == s.apex && t == SOA) || (n == s.alias && t == CNAME) || (n == s.cut && t == NS) || (n == s.target && t == A)
  }

  lemma SceneInside(s: Scene)
    requires Fits(s)
    ensures IsSubdomain(s.apex, s.apex) && IsSubdomain(s.apex, s.alias) && IsSubdomain(s.apex, s.cut) && IsSubdomain(s.apex, s.target)
  {
    AtMostTwoBelow(s.apex, s.apex);
    AtMostTwoBelow(s.apex, s.alias);
    AtMostTwoBelow(s.apex, s.cut);
    AtMostTwoBelow(s.apex, s.target);
  }

  lemma SceneOwns(s: Scene, n: Name, t: RType)
    requires Fits(s)
    ensures Owns(s.apex, s.Records(), n, t) <==> OwnedInScene(s, n, t)
  {
    SceneInside(s);
    forall r ensures r in s.Records() <==> r == s.soa || r == s.cname || r == s.ns || r == s.address { SceneMember(s, r); }
    InSets(s, n, t);
  }

  lemma InSets(s: Scene, n: Name, t: RType)
    requires Fits(s)
    ensures InSet(s.soa, n, t) || InSet(s.cname, n, t) || InSet(s.ns, n, t) || InSet(s.address, n, t) <==> OwnedInScene(s, n, t)
  {
  }

  lemma SceneCuts(s: Scene, n: Name)
    requires Fits(s) && (n == s.alias || n == s.target)
    ensures forall a :: !DnameAbove(s.apex, s.Records(), n, a)
    ensures forall a :: Cut(s.apex, s.Records(), n, a) <==> n == s.target && a == s.cut
  {
    forall a ensures !DnameAbove(s.apex, s.Records(), n, a) { SceneOwns(s, a, DNAME); }
    forall a ensures Cut(s.apex, s.Records(), n, a) <==> n == s.target && a == s.cut {
      SceneOwns(s, a, NS);
      Up(s.cut, s.target);
      Up(s.cut, s.cut);
      Up(s.cut, s.alias);
    }
  }

  lemma SceneOutcomes(z: Zone, s: Scene)
    requires Fits(s) && BuiltFrom(z, s.apex, s.Records())
    ensures OutcomeOf(z, s.alias, A) == Exact && OutcomeOf(z, s.target, A) == Delegated(s.cut)
  {
    var records := s.Records();
    SceneCuts(s, s.alias);
    SceneCuts(s, s.target);
    AtMostTwoBelow(s.apex, s.alias);
    AtMostTwoBelow(s.apex, s.target);
    assert records[1] == s.cname;
    OutcomeIsCalledFor(z, s.apex, records, s.alias, A);
    OutcomeIsCalledFor(z, s.apex, records, s.target, A);
    OutcomeIsUnique(s.apex, records, s.alias, A, OutcomeOf(z, s.alias, A), Exact);
    OutcomeIsUnique(s.apex, records, s.target, A, OutcomeOf(z, s.target, A), Delegated(s.cut));
  }

  lemma OneAlias(z: Zone, s: Scene)
    requires Fits(s) && BuiltFrom(z, s.apex, s.Records())
    ensures s.alias in z.names && z.names[s.alias].Set(CNAME) == [s.cname]
  {
    var records := s.Records();
    AtMostTwoBelow(s.apex, s.alias);
    assert records[1] == s.cname;
    OnlyRecord(z, s.apex, records, s.cname);
  }

  lemma OneAddress(z: Zone, s: Scene)
    requires Fits(s) && BuiltFrom(z, s.apex, s.Records())
    ensures s.target in z.names && z.names[s.target].Set(A) == [s.address]
  {
    var records := s.Records();
    AtMostTwoBelow(s.apex, s.target);
    assert records[3] == s.address;
    OnlyRecord(z, s.apex, records, s.address);
  }

  lemma SceneFirstStep(z: Zone, env: Env, s: Scene, dnssec: bool)
    requires Fits(s) && BuiltFrom(z, s.apex, s.Records())
    ensures var step := StepAt(z, env, s.alias, A, dnssec); step.Alias? && step.to == s.target
  {
    SceneOutcomes(z, s);
    AtMostTwoBelow(s.apex, s.alias);
    FirstHop(z, env, Query(s.alias, A, dnssec));
    OneAlias(z, s);
    AliasStep(env, z.names[s.alias], s.alias, A, dnssec, None, s.target);
  }

  lemma SceneNoDname(z: Zone, s: Scene, n: Name)
    requires Fits(s) && BuiltFrom(z, s.apex, s.Records())
    ensures DnameOwner(z, n) == None
  {
    forall j: nat | |s.apex| <= j < |n| ensures !DnameAt(z, n, j) { SceneHasNoDname(z, s, Suffix(n, j)); }
    NoDnameOwner(z, n);
  }

  lemma SceneHasNoDname(z: Zone, s: Scene, n: Name)
    requires Fits(s) && BuiltFrom(z, s.apex, s.Records())
    ensures !z.Has(n, DNAME)
  {
    SceneOwns(s, n, DNAME);
    ZoneHas(z, s.apex, s.Records(), n, DNAME);
  }

  lemma SceneTargetNoAlias(z: Zone, s: Scene)
    requires Fits(s) && BuiltFrom(z, s.apex, s.Records())
    ensures !z.Has(s.target, CNAME)
  {
    assert |s.target| != |s.alias|;
    SceneOwns(s, s.target, CNAME);
    ZoneHas(z, s.apex, s.Records(), s.target, CNAME);
  }

  /** The step at the target takes its address, cut or no cut. */
  lemma SceneSecondStep(z: Zone, env: Env, s: Scene, dnssec: bool)
    requires Fits(s) && BuiltFrom(z, s.apex, s.Records())
    ensures var step := StepAt(z, env, s.target, A, dnssec); step.Data? && s.address in step.records
  {
    SceneNoDname(z, s, s.target);
    SceneTargetNoAlias(z, s);
    OneAddress(z, s);
    ExactStep(z, env, s.target, A, dnssec);
    AddressStep(env, z.names[s.target], s, dnssec);
  }

  lemma ExactStep(z: Zone, env: Env, n: Name, qtype: RType, dnssec: bool)
    requires DnameOwner(z, n) == None && n in z.names
    ensures StepAt(z, env, n, qtype, dnssec) == DataStep(env, z.names[n], n, qtype, dnssec, None)
  {
  }

  lemma AddressStep(env: Env, nd: NameData, s: Scene, dnssec: bool)
    requires !nd.Has(CNAME) && nd.Set(A) == [s.address]
    ensures var step := DataStep(env, nd, s.target, A, dnssec, None); step.Data? && s.address in step.records
  {
  }

  /** The address below the cut. */
  lemma SceneReplies(z: Zone, env: Env, s: Scene, dnssec: bool)
    requires Fits(s) && BuiltFrom(z, s.apex, s.Records())
    ensures var m := Answer(z, env, Query(s.alias, A, dnssec)); m.authoritative && s.address in m.answers
    ensures var m := Answer(z, env, Query(s.target, A, dnssec)); !m.authoritative && m.answers == []
  {
    var q := Query(s.alias, A, dnssec);
    SceneOutcomes(z, s);
    SceneFirstStep(z, env, s, dnssec);
    SceneSecondStep(z, env, s, dnssec);
    AtMostTwoBelow(s.apex, s.alias);
    AtMostTwoBelow(s.apex, s.target);
    var first, second := StepAt(z, env, s.alias, A, dnssec), StepAt(z, env, s.target, A, dnssec);
    TwoHops(z, env, q, first, second);
    ReplyToTwo(z, env, q, Hop(s.alias, first), Hop(s.target, second));
  }

  lemma ReplyToTwo(z: Zone, env: Env, q: Query, a: Hop, b: Hop)
    requires b.step.Data?
    ensures var m := Reply(z, env, q, [a, b]); m.authoritative && forall r :: r in b.step.records ==> r in m.answers
  {
    AppendHop([a], b);
    assert [a] + [b] == [a, b];
    var hops := [a, b];
    EndsPositive(z, env, q, hops, HopRecords(hops) + ExternalAnswers(z, env, q.qtype, b.step), LastWild(hops));
  }

  /** `x.org.` is an alias of `y.sub.org.`, and `sub.org.` is delegated. */
  function Example(): Scene {
    Scene(
      ["org"], ["x", "org"], ["sub", "org"], ["y", "sub", "org"],
      Record(["org"], 60, SoaData(1, 1, 1, 1, 1)),
      Record(["x", "org"], 60, CnameData(["y", "sub", "org"])),
      Record(["sub", "org"], 60, NsData(["ns", "net"])),
      Record(["y", "sub", "org"], 60, Opaque(A, 7)))
  }

  lemma ExampleFits()
    ensures Fits(Example())
  {
  }

  /** Asked for `x.org.`, the zone answers with authority from below its cut; asked for
      `y.sub.org.` itself, it refers. */
  lemma AliasCrossesCut(z: Zone, env: Env, dnssec: bool)
    requires BuiltFrom(z, ["org"], Example().Records())
    ensures var m := Answer(z, env, Query(["x", "org"], A, dnssec));
      m.authoritative && Record(["y", "sub", "org"], 60, Opaque(A, 7)) in m.answers
    ensures var m := Answer(z, env, Query(["y", "sub", "org"], A, dnssec)); !m.authoritative && m.answers == []
  {
    ExampleFits();
    SceneReplies(z, env, Example(), dnssec);
  }
}
