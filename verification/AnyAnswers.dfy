/** Answers to a query for every type of a name. */
module AnyAnswers {
  import opened Names
  import opened Records
  import opened Zones
  import opened Lookups
  import opened Outcomes
  import opened Answers

  /** The order in which a hash map yields its types: each of them once. */
  ghost predicate Enumerates(ts: seq<RType>, nd: NameData) {
    && (forall t :: t in ts <==> t in nd.rrsets)
    && (forall i, j :: 0 <= i < j < |ts| ==> ts[i] != ts[j])
  }

  /** The set a record is filed under. */
  function Filed(r: Record): RType { if r.data.RrsigData? then r.data.covered else r.Type() }

  ghost predicate FiledRight(nd: NameData) {
    forall t, r :: r in nd.Set(t) || r in nd.Sigs(t) ==> Filed(r) == t
  }

  lemma {:induction false} EachSetOnce(nd: NameData, ts: seq<RType>, dnssec: bool, r: Record)
    requires FiledRight(nd) && forall i, j :: 0 <= i < j < |ts| ==> ts[i] != ts[j]
    ensures multiset(OfTypes(nd, ts, dnssec))[r] == if Filed(r) in ts then multiset(nd.WithSigs(Filed(r), dnssec))[r] else 0
  {
    if ts != [] {
      EachSetOnce(nd, ts[1..], dnssec, r);
      assert Filed(r) != ts[0] ==> r !in nd.WithSigs(ts[0], dnssec);
      assert ts == [ts[0]] + ts[1..];
    }
  }

  /** `rs` holds every record the zone's records give `n`, as often as its set does:
      the signatures only for a client that wants them, and only those that sign a set. */
  ghost predicate AllSets(rs: seq<Record>, records: seq<Record>, n: Name, dnssec: bool) {
    forall r :: multiset(rs)[r] == SetCount(records, n, dnssec, r)
  }

  ghost function SetCount(records: seq<Record>, n: Name, dnssec: bool, r: Record): nat {
    if !r.data.RrsigData? then multiset(Selected(records, n, r.Type()))[r]
    else if dnssec && Selected(records, n, r.data.covered) != [] then multiset(SelectedSigs(records, n, r.data.covered))[r]
    else 0
  }

  lemma CountOf(z: Zone, origin: Name, records: seq<Record>, n: Name, dnssec: bool, r: Record)
    requires BuiltFrom(z, origin, records) && IsSubdomain(origin, n)
    ensures multiset(DataAt(z.names, n).WithSigs(Filed(r), dnssec))[r] == SetCount(records, n, dnssec, r)
  {
    var t := Filed(r);
    BuildGroups(origin, records, n, t);
    BuildNoHollow(origin, records);
    var rrset, sigs := Selected(records, n, t), SelectedSigs(records, n, t);
    if r.data.RrsigData? {
      assert r !in rrset;
    } else {
      assert r !in sigs;
    }
  }

  lemma ZoneFilesRight(z: Zone, origin: Name, records: seq<Record>, n: Name)
    requires BuiltFrom(z, origin, records)
    ensures FiledRight(DataAt(z.names, n))
  {
    forall t, r | r in DataAt(z.names, n).Set(t) || r in DataAt(z.names, n).Sigs(t) ensures Filed(r) == t {
      BuildGroups(origin, records, n, t);
    }
  }

  lemma FoundIsAll(z: Zone, origin: Name, records: seq<Record>, ts: seq<RType>, n: Name, dnssec: bool)
    requires BuiltFrom(z, origin, records) && IsSubdomain(origin, n) && Enumerates(ts, DataAt(z.names, n))
    ensures AllSets(OfTypes(DataAt(z.names, n), ts, dnssec), records, n, dnssec)
  {
    var nd := DataAt(z.names, n);
    ZoneFilesRight(z, origin, records, n);
    forall r ensures multiset(OfTypes(nd, ts, dnssec))[r] == SetCount(records, n, dnssec, r) {
      EachSetOnce(nd, ts, dnssec, r);
      CountOf(z, origin, records, n, dnssec, r);
    }
  }

  /** A query for every type, at a name with records or answered by a wildcard and
      without a CNAME: the answer is all the sets of that owner, each record as often
      as it is in its set, under the name asked. */
  lemma AnyAnswer(z: Zone, origin: Name, records: seq<Record>, env: Env, q: Query, wild: Option<Name>)
    requires BuiltFrom(z, origin, records) && IsSubdomain(origin, q.name) && q.qtype == ANY
    requires OutcomeOf(z, q.name, ANY) == if wild.Some? then Synthesized(wild.value) else Exact
    requires var nd := DataAt(z.names, if wild.Some? then WildcardOf(wild.value) else q.name);
      !nd.Has(CNAME) && Enumerates(env.order(nd), nd)
    ensures Answer(z, env, q).rcode == NoError
    ensures var owner := if wild.Some? then WildcardOf(wild.value) else q.name;
      exists sets ::
        Answer(z, env, q).answers == Renamed(sets, q.name, wild) && AllSets(sets, records, owner, q.dnssec)
  {
    var owner := if wild.Some? then WildcardOf(wild.value) else q.name;
    var nd := DataAt(z.names, owner);
    FirstHop(z, env, q);
    BuildOwners(origin, records, owner);
    FoundIsAll(z, origin, records, env.order(nd), owner, q.dnssec);
    OneDataHop(z, env, q);
  }
}
