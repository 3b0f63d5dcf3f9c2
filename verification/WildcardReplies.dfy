/** Wildcard expansions along a chain of aliases, and which of them a reply proves. */
module WildcardReplies {
  import opened Names
  import opened Records
  import opened Order
  import opened Zones
  import opened Denial
  import opened Lookups
  import opened Answers
  import opened DenialProofs
  import opened DenialReplies

  /** Data from a record set keeps the wildcard it came from. */
  lemma DataKeepsWild(env: Env, nd: NameData, n: Name, qtype: RType, dnssec: bool, wild: Option<Name>)
    ensures DataStep(env, nd, n, qtype, dnssec, wild).Wild() == wild
  {
  }

  /** A step that used a wildcard used the one at the closest encloser of a name
      that does not exist. */
  lemma WildStep(z: Zone, env: Env, n: Name, qtype: RType, dnssec: bool)
    ensures var s := StepAt(z, env, n, qtype, dnssec); s.Wild().Some? ==> s.Wild() == WildcardSource(z, n)
  {
    if IsSubdomain(z.origin, n) && DnameOwner(z, n).Some? {
      assert StepAt(z, env, n, qtype, dnssec) == RedirectStep(z, n, DnameOwner(z, n).value, dnssec);
    } else if n in z.names {
      DataKeepsWild(env, z.names[n], n, qtype, dnssec, None);
    } else if WildcardSource(z, n).Some? {
      var ce := WildcardSource(z, n).value;
      DataKeepsWild(env, z.names[WildcardOf(ce)], n, qtype, dnssec, Some(ce));
    }
  }

  /** The hop that expanded a wildcard last. */
  lemma {:induction false} LastExpansion(hops: seq<Hop>) returns (i: nat)
    requires LastWild(hops).Some?
    ensures i < |hops| && hops[i].step.Wild().Some? && LastWild(hops) == Some((hops[i].at, hops[i].step.Wild().value))
    ensures forall j :: i < j < |hops| ==> hops[j].step.Wild().None?
  {
    var n := |hops| - 1;
    if hops[n].step.Wild().Some? {
      i := n;
    } else {
      i := LastExpansion(hops[..n]);
      assert forall j :: 0 <= j < n ==> hops[..n][j] == hops[j];
    }
  }

  lemma ChainHop(z: Zone, env: Env, q: Query, i: nat)
    requires i < |Chain(z, env, q)|
    ensures var h := Chain(z, env, q)[i];
      h.step == StepAt(z, env, h.at, q.qtype, q.dnssec) && (h.step.Wild().Some? ==> h.step.Wild() == WildcardSource(z, h.at))
  {
    ChainFacts(z, env, q);
    var h := Chain(z, env, q)[i];
    assert h.step == Word(z, env, q.qtype, q.dnssec)(h.at);
    WildStep(z, env, h.at, q.qtype, q.dnssec);
  }

  /** The reply has data or aliases to give: no error and not the NODATA of one step. */
  predicate Gives(hops: seq<Hop>)
    requires hops != []
  {
    var last := hops[|hops| - 1].step;
    !last.TooLong? && (|hops| == 1 ==> !last.Missing? && !(last.Data? && last.records == []))
  }

  /** Of all the expansions of a chain, only the last is proved. */
  lemma OnlyLastIsProved(z: Zone, env: Env, q: Query)
    requires IsSubdomain(z.origin, q.name) && ReferralCut(z, q.name, q.qtype).None? && q.dnssec && Gives(Chain(z, env, q))
    ensures Answer(z, env, q).authority == match LastWild(Chain(z, env, q))
      case Some((n, ce)) => Once(ProveWildcardAnswer(z, env.hash, n, ce))
      case None => []
  {
    var hops := Chain(z, env, q);
    var answers := HopRecords(hops) + ExternalAnswers(z, env, q.qtype, hops[|hops| - 1].step);
    EndsPositive(z, env, q, hops, answers, LastWild(hops));
  }

  /** The proof of one expansion, once each record, covers its next closer name. */
  lemma ExpansionIsProved(z: Zone, origin: Name, records: seq<Record>, hash: Name -> Hash, n: Name, ce: Name)
    requires BuiltFrom(z, origin, records) && ChainComplete(z, hash)
    requires WildcardSource(z, n) == Some(ce) && !BelowNsec3Owner(z, n)
    requires NoCollision(hash, z.nodes + {NextCloser(n, ce)})
    ensures Covered(z, hash, NextCloser(n, ce), Once(ProveWildcardAnswer(z, hash, n, ce)))
    ensures forall soa :: Covered(z, hash, NextCloser(n, ce), soa + Once(ProveWildcardNodata(z, hash, n, ce)))
  {
    WildcardIsNode(z, origin, records, n, ce);
    WildcardProofs(z, origin, records, hash, n);
    var nc, proof := NextCloser(n, ce), ProveWildcardAnswer(z, hash, n, ce);
    InAuthority(z, hash, nc, [], proof);
    assert [] + Once(proof) == Once(proof);
    forall soa ensures Covered(z, hash, nc, soa + Once(ProveWildcardNodata(z, hash, n, ce))) {
      InAuthority(z, hash, nc, soa, ProveWildcardNodata(z, hash, n, ce));
    }
  }

  lemma NothingCovered(z: Zone, hash: Name -> Hash, n: Name)
    ensures !Covered(z, hash, n, [])
  {
    forall i | 0 <= i < |z.nsec3| ensures !Part(LinkRecords(z, i), []) {
      if LinkRecords(z, i) != [] { assert LinkRecords(z, i)[0] in LinkRecords(z, i); }
    }
  }

  lemma TooLongReply(z: Zone, env: Env, q: Query)
    requires IsSubdomain(z.origin, q.name) && ReferralCut(z, q.name, q.qtype).None?
    ensures Answer(z, env, q).rcode == YXDomain ==> Answer(z, env, q).authority == []
    ensures var hops := Chain(z, env, q); Answer(z, env, q).rcode == YXDomain <==> hops[|hops| - 1].step.TooLong?
  {
    var hops := Chain(z, env, q);
    YxdomainIffTooLong(z, env, q);
    if hops[|hops| - 1].step.TooLong? {
      EndsTooLong(z, env, q, hops);
    }
  }

  /** A reply that expanded wildcards anywhere along its aliases covers the next
      closer name of the last expansion if and only if it is no YXDOMAIN. */
  lemma WildcardReply(z: Zone, origin: Name, records: seq<Record>, env: Env, q: Query, n: Name, ce: Name)
    requires BuiltFrom(z, origin, records) && ChainComplete(z, env.hash)
    requires IsSubdomain(origin, q.name) && ReferralCut(z, q.name, q.qtype).None? && q.dnssec
    requires LastWild(Chain(z, env, q)) == Some((n, ce)) && !BelowNsec3Owner(z, n)
    requires NoCollision(env.hash, z.nodes + {NextCloser(n, ce)})
    ensures Covered(z, env.hash, NextCloser(n, ce), Answer(z, env, q).authority) <==> Answer(z, env, q).rcode != YXDomain
  {
    var hops := Chain(z, env, q);
    var i := LastExpansion(hops);
    ChainHop(z, env, q, i);
    ExpansionIsProved(z, origin, records, env.hash, n, ce);
    TooLongReply(z, env, q);
    if Answer(z, env, q).rcode == YXDomain {
      NothingCovered(z, env.hash, NextCloser(n, ce));
    } else if Gives(hops) {
      OnlyLastIsProved(z, env, q);
    } else {
      OneStepNodata(z, env, q, n, ce);
    }
  }

  lemma OneStepNodata(z: Zone, env: Env, q: Query, n: Name, ce: Name)
    requires IsSubdomain(z.origin, q.name) && ReferralCut(z, q.name, q.qtype).None? && q.dnssec
    requires !Gives(Chain(z, env, q)) && LastWild(Chain(z, env, q)) == Some((n, ce))
    requires var hops := Chain(z, env, q); !hops[|hops| - 1].step.TooLong?
    ensures Answer(z, env, q).authority == NegativeSoa(z, true) + Once(ProveWildcardNodata(z, env.hash, n, ce))
  {
    var hops := Chain(z, env, q);
    AppendHop([], hops[0]);
    assert hops == [] + [hops[0]] == [hops[0]];
    assert LastWild([]).None?;
    assert hops[0].step.Data? && n == q.name && hops[0].step.wild == Some(ce);
    EndsNodata(z, env, q, hops[0]);
  }

  // --------------------------------------------------- more than one expansion

  /** The records of one link are those of no other. */
  lemma LinksDiffer(z: Zone, origin: Name, records: seq<Record>, i: nat, j: nat)
    requires BuiltFrom(z, origin, records) && i < |z.nsec3| && j < |z.nsec3| && Part(LinkRecords(z, i), LinkRecords(z, j))
    ensures i == j
  {
    LinkHasRecords(z, origin, records, i);
    var r := LinkRecords(z, i)[0];
    assert r in LinkRecords(z, i) && r in LinkRecords(z, j);
    LinkOwner(z, origin, records, i, r);
    LinkOwner(z, origin, records, j, r);
    assert z.nsec3[i] in Elements(z.nsec3) && z.nsec3[j] in Elements(z.nsec3);
    assert z.nsec3[i] == z.nsec3[j];
    LinkOrderIsTotal();
  }

  lemma LinkOwner(z: Zone, origin: Name, records: seq<Record>, i: nat, r: Record)
    requires BuiltFrom(z, origin, records) && i < |z.nsec3| && r in LinkRecords(z, i)
    ensures r.owner == z.nsec3[i].owner
  {
    BuildGroups(origin, records, z.nsec3[i].owner, NSEC3);
  }

  /** Exactly when a name is covered by the proof of the last expansion: its hash lies
      in the interval picked for that one. */
  lemma CoveredIff(z: Zone, origin: Name, records: seq<Record>, hash: Name -> Hash, n: Name, last: Name)
    requires BuiltFrom(z, origin, records) && z.nsec3 != []
    ensures Covered(z, hash, n, Once(Nsec3Cover(z, hash, last))) <==>
      StrictlyCovers(Hashes(z.nsec3), CoverIndex(z, hash, last), hash(n), HashLess)
  {
    var j := CoverIndex(z, hash, last);
    var proof := Once(LinkRecords(z, j));
    if StrictlyCovers(Hashes(z.nsec3), j, hash(n), HashLess) {
      LinkHasRecords(z, origin, records, j);
      assert Part(LinkRecords(z, j), proof);
    }
    if Covered(z, hash, n, proof) {
      var i :| 0 <= i < |z.nsec3| && StrictlyCovers(Hashes(z.nsec3), i, hash(n), HashLess) && Part(LinkRecords(z, i), proof);
      assert Part(LinkRecords(z, i), LinkRecords(z, j));
      LinksDiffer(z, origin, records, i, j);
    }
  }

  /** The next closer name of an expanded hop. */
  function NextCloserOf(h: Hop): Name
    requires h.step.Wild().Some?
  {
    NextCloser(h.at, h.step.Wild().value)
  }

  ghost predicate AllExpansionsCovered(z: Zone, env: Env, q: Query) {
    var hops := Chain(z, env, q);
    forall i :: 0 <= i < |hops| && hops[i].step.Wild().Some? ==>
      Covered(z, env.hash, NextCloserOf(hops[i]), Answer(z, env, q).authority)
  }

  /** The hash of the next closer name lies in the interval picked for the last one. */
  ghost predicate SameInterval(z: Zone, hash: Name -> Hash, last: Name, h: Hop)
    requires z.nsec3 != [] && h.step.Wild().Some?
  {
    StrictlyCovers(Hashes(z.nsec3), CoverIndex(z, hash, last), hash(NextCloserOf(h)), HashLess)
  }

  lemma CoveredIffSameInterval(
    z: Zone, origin: Name, records: seq<Record>, hash: Name -> Hash, n: Name, ce: Name, h: Hop, authority: seq<Record>)
    requires BuiltFrom(z, origin, records) && z.nsec3 != [] && h.step.Wild().Some?
    requires authority == Once(ProveWildcardAnswer(z, hash, n, ce))
    ensures Covered(z, hash, NextCloserOf(h), authority) <==> SameInterval(z, hash, NextCloser(n, ce), h)
  {
    CoveredIff(z, origin, records, hash, NextCloserOf(h), NextCloser(n, ce));
  }

  /** Every expansion along the aliases is proved if and only if the next closer names
      of all of them hash into the one interval picked for the last. */
  lemma AllExpansionsCoveredIff(z: Zone, origin: Name, records: seq<Record>, env: Env, q: Query, n: Name, ce: Name)
    requires BuiltFrom(z, origin, records) && z.nsec3 != []
    requires IsSubdomain(origin, q.name) && ReferralCut(z, q.name, q.qtype).None? && q.dnssec && Gives(Chain(z, env, q))
    requires LastWild(Chain(z, env, q)) == Some((n, ce))
    ensures AllExpansionsCovered(z, env, q) <==>
      var hops := Chain(z, env, q);
      forall i :: 0 <= i < |hops| && hops[i].step.Wild().Some? ==> SameInterval(z, env.hash, NextCloser(n, ce), hops[i])
  {
    var hops, authority := Chain(z, env, q), Answer(z, env, q).authority;
    OnlyLastIsProved(z, env, q);
    forall i | 0 <= i < |hops| && hops[i].step.Wild().Some?
      ensures Covered(z, env.hash, NextCloserOf(hops[i]), authority) <==> SameInterval(z, env.hash, NextCloser(n, ce), hops[i])
    {
      CoveredIffSameInterval(z, origin, records, env.hash, n, ce, hops[i], authority);
    }
  }
}
