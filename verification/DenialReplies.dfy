/** The denial proofs reach the client: what the authority section of a reply to a
    query with the DNSSEC flag holds, outcome by outcome. */
module DenialReplies {
  import opened Names
  import opened Records
  import opened Order
  import opened Zones
  import opened Denial
  import opened Lookups
  import opened Outcomes
  import opened Answers
  import opened DenialProofs

  /** The proof is part of an authority section. */
  lemma InAuthority(z: Zone, hash: Name -> Hash, n: Name, soa: seq<Record>, proof: seq<Record>)
    ensures Matched(z, hash, n, proof) ==> Matched(z, hash, n, soa + Once(proof))
    ensures Covered(z, hash, n, proof) ==> Covered(z, hash, n, soa + Once(proof))
  {
    forall i | 0 <= i < |z.nsec3| && Part(LinkRecords(z, i), proof) ensures Part(LinkRecords(z, i), soa + Once(proof)) {
    }
  }

  lemma NegativeReplies(z: Zone, env: Env, q: Query)
    requires IsSubdomain(z.origin, q.name)
    requires var o := OutcomeOf(z, q.name, q.qtype); o == NoSuchName || o == EmptyNonTerminal
    ensures Answer(z, env, q) == Negative(z, env, q.name, q.dnssec)
    ensures q.name in z.nodes <==> OutcomeOf(z, q.name, q.qtype) == EmptyNonTerminal
  {
    MissingHop(z, env, q);
    FirstHop(z, env, q);
  }

  /** The authority section of a reply from one step, with or without data. */
  ghost function AuthorityFor(z: Zone, env: Env, q: Query, s: Step): seq<Record>
    requires s.Data?
  {
    if s.records == [] then Nodata(z, env, q.name, q.dnssec, s.wild).authority
    else Positive(z, env, [], if s.wild.Some? then Some((q.name, s.wild.value)) else None, q.dnssec).authority
  }

  lemma DataReplies(z: Zone, env: Env, q: Query, s: Step)
    requires IsSubdomain(z.origin, q.name) && ReferralCut(z, q.name, q.qtype).None?
    requires s == StepAt(z, env, q.name, q.qtype, q.dnssec) && s.Data?
    ensures Answer(z, env, q).authority == AuthorityFor(z, env, q, s)
  {
    var hops := Chain(z, env, q);
    ChainFacts(z, env, q);
    DataEnds(z, env, q, hops[0]);
    assert hops == [hops[0]];
  }

  lemma DataEnds(z: Zone, env: Env, q: Query, h: Hop)
    requires h.step.Data? && h.at == q.name
    ensures Reply(z, env, q, [h]).authority == AuthorityFor(z, env, q, h.step)
  {
    var hops := [h];
    AppendHop([], h);
    assert [] + [h] == hops;
    assert LastWild(hops) == if h.step.wild.Some? then Some((h.at, h.step.wild.value)) else None;
    if h.step.records == [] {
      EndsNodata(z, env, q, h);
    } else {
      var answers := HopRecords(hops) + ExternalAnswers(z, env, q.qtype, h.step);
      EndsPositive(z, env, q, hops, answers, LastWild(hops));
    }
  }

  /** An NXDOMAIN reply proves the denial: its authority section matches the closest
      encloser, strictly covers the next closer name, and strictly covers the
      wildcard if and only if that name does not exist. */
  lemma NxdomainReply(z: Zone, origin: Name, records: seq<Record>, env: Env, q: Query)
    requires BuiltFrom(z, origin, records) && ChainComplete(z, env.hash)
    requires IsSubdomain(origin, q.name) && q.dnssec && Answer(z, env, q).rcode == NXDomain && !BelowNsec3Owner(z, q.name)
    requires NoCollision(env.hash, z.nodes + {NextCloser(q.name, Encloser(z, q.name))})
    requires NoCollision(env.hash, z.nodes + {WildcardOf(Encloser(z, q.name))})
    ensures var ce, authority := Encloser(z, q.name), Answer(z, env, q).authority;
      && Matched(z, env.hash, ce, authority)
      && Covered(z, env.hash, NextCloser(q.name, ce), authority)
      && (Covered(z, env.hash, WildcardOf(ce), authority) <==> WildcardOf(ce) !in z.nodes)
  {
    ReplyCode(z, env, q);
    NegativeReplies(z, env, q);
    var ce := Encloser(z, q.name);
    var soa, proof := NegativeSoa(z, q.dnssec), ProveNxdomain(z, env.hash, q.name, ce);
    NxdomainProof(z, origin, records, env.hash, q.name);
    InAuthority(z, env.hash, ce, soa, proof);
    InAuthority(z, env.hash, NextCloser(q.name, ce), soa, proof);
    InAuthority(z, env.hash, WildcardOf(ce), soa, proof);
    if WildcardOf(ce) in z.nodes {
      ExistingIsNotCovered(z, env.hash, WildcardOf(ce), soa + Once(proof), ce);
    }
  }

  /** A NODATA reply for an existing signed name carries the NSEC3 that matches it. */
  lemma NodataReply(z: Zone, origin: Name, records: seq<Record>, env: Env, q: Query)
    requires BuiltFrom(z, origin, records) && ChainComplete(z, env.hash)
    requires IsSubdomain(origin, q.name) && q.dnssec && q.name in SignedNodes(z)
    requires var o := OutcomeOf(z, q.name, q.qtype);
      o == EmptyNonTerminal || (o == Exact && StepAt(z, env, q.name, q.qtype, q.dnssec) == Data([], None))
    ensures Matched(z, env.hash, q.name, Answer(z, env, q).authority)
  {
    NodataProof(z, origin, records, env.hash, q.name);
    InAuthority(z, env.hash, q.name, NegativeSoa(z, q.dnssec), ProveNodata(z, env.hash, q.name));
    if OutcomeOf(z, q.name, q.qtype) == EmptyNonTerminal {
      NegativeReplies(z, env, q);
    } else {
      DataReplies(z, env, q, Data([], None));
    }
  }

  /** A NODATA reply from a wildcard matches the encloser and the wildcard and covers
      the next closer name. */
  lemma WildcardNodataReply(z: Zone, origin: Name, records: seq<Record>, env: Env, q: Query, ce: Name)
    requires BuiltFrom(z, origin, records) && ChainComplete(z, env.hash)
    requires IsSubdomain(origin, q.name) && q.dnssec && !BelowNsec3Owner(z, q.name)
    requires OutcomeOf(z, q.name, q.qtype) == Synthesized(ce)
    requires StepAt(z, env, q.name, q.qtype, q.dnssec) == Data([], Some(ce))
    requires NoCollision(env.hash, z.nodes + {NextCloser(q.name, ce)})
    ensures var authority := Answer(z, env, q).authority;
      && Covered(z, env.hash, NextCloser(q.name, ce), authority)
      && Matched(z, env.hash, ce, authority) && Matched(z, env.hash, WildcardOf(ce), authority)
  {
    DataReplies(z, env, q, Data([], Some(ce)));
    WildcardIsNode(z, origin, records, q.name, ce);
    var nc, soa := NextCloser(q.name, ce), NegativeSoa(z, q.dnssec);
    var nodata := ProveWildcardNodata(z, env.hash, q.name, ce);
    WildcardProofs(z, origin, records, env.hash, q.name);
    InAuthority(z, env.hash, nc, soa, nodata);
    InAuthority(z, env.hash, ce, soa, nodata);
    InAuthority(z, env.hash, WildcardOf(ce), soa, nodata);
  }

  lemma WildcardIsNode(z: Zone, origin: Name, records: seq<Record>, n: Name, ce: Name)
    requires BuiltFrom(z, origin, records) && WildcardSource(z, n) == Some(ce)
    ensures ce == Encloser(z, n) && n !in z.nodes && IsSubdomain(origin, n) && WildcardOf(ce) in z.nodes
  {
    var wc := WildcardOf(ce);
    ZoneOwns(z, origin, records, wc);
    NodesExist(z, origin, records, wc);
    var r :| r in records && r.owner == wc;
    assert Suffix(wc, |wc|) == wc;
  }

  // ------------------------------------------------------------- referrals

  /** A referral carries the NS set of the cut and its signed DS set, if there is one.
      Without a DS it proves that the cut is insecure: the NSEC3 of the cut, or, when
      the signer left it out, those of its provable encloser and of the interval the
      name just below that one falls in (section 7.2.7 of RFC 5155). */
  lemma ReferralReply(z: Zone, origin: Name, records: seq<Record>, env: Env, q: Query, cut: Name)
    requires BuiltFrom(z, origin, records) && ChainDistinct(z) && Nsec3HashExists(z, env.hash, origin)
    requires IsSubdomain(origin, q.name) && q.dnssec && ReferralCut(z, q.name, q.qtype) == Some(cut)
    ensures var authority := Answer(z, env, q).authority;
      && IsProperSubdomain(origin, cut) && Part(DataAt(z.names, cut).WithSigs(NS, false), authority)
      && if z.Has(cut, DS) then Part(DataAt(z.names, cut).WithSigs(DS, true), authority)
         else if Nsec3HashExists(z, env.hash, cut) then Matched(z, env.hash, cut, authority)
         else
           var ce := ProvableEncloser(z, env.hash, cut);
           && IsProperSubdomain(ce, cut) && Matched(z, env.hash, ce, authority)
           && Covered(z, env.hash, NextCloser(cut, ce), authority)
  {
    CutIsBelow(z, q.name, q.qtype, cut);
    var nd := DataAt(z.names, cut);
    var ns := nd.WithSigs(NS, false);
    if !nd.Has(DS) {
      var proof := ProveNodata(z, env.hash, cut);
      assert Answer(z, env, q).authority == ns + proof == ns + proof + [];
      if Nsec3HashExists(z, env.hash, cut) {
        PlaceMatches(z, origin, records, env.hash, cut);
        Widen(z, env.hash, cut, ns, proof, []);
      } else {
        OptOutProof(z, origin, records, env.hash, cut);
        ProvableEncloserIsLongest(z, env.hash, cut);
        var ce := ProvableEncloser(z, env.hash, cut);
        Widen(z, env.hash, ce, ns, proof, []);
        Widen(z, env.hash, NextCloser(cut, ce), ns, proof, []);
      }
    }
  }

  lemma CutIsBelow(z: Zone, n: Name, qtype: RType, cut: Name)
    requires IsSubdomain(z.origin, n) && ReferralCut(z, n, qtype) == Some(cut)
    ensures IsProperSubdomain(z.origin, cut) && z.Has(cut, NS)
  {
    var k := EventDepth(z, n);
    SuffixOfSuffix(n, k.value, |z.origin|);
  }

  // ------------------------------------------------------------ NSEC chains

  /** An NSEC whose circular interval, in canonical order, strictly contains `n` is among the records. */
  ghost predicate NsecCovered(z: Zone, n: Name, rs: seq<Record>) {
    exists i :: 0 <= i < |z.nsecChain| && StrictlyCovers(z.nsecChain, i, n, CanonicalLess) &&
      Part(DataAt(z.names, z.nsecChain[i]).WithSigs(NSEC, true), rs)
  }

  lemma NsecFinds(z: Zone, origin: Name, records: seq<Record>, n: Name, rs: seq<Record>)
    requires BuiltFrom(z, origin, records) && z.nsecChain != [] && n !in z.names
    requires forall r :: r in NsecFor(z, n) ==> r in rs
    ensures NsecCovered(z, n, rs)
  {
    NsecIsPredecessor(z, origin, records, n);
  }

  /** In a zone with an NSEC chain an NXDOMAIN reply strictly covers both the name
      and the wildcard that could have answered for it (section 3.1.3.2 of RFC 4035). */
  lemma NsecNxdomainReply(z: Zone, origin: Name, records: seq<Record>, env: Env, q: Query)
    requires BuiltFrom(z, origin, records) && z.nsec3 == [] && z.nsecChain != []
    requires IsSubdomain(origin, q.name) && q.dnssec && Answer(z, env, q).rcode == NXDomain
    ensures NsecCovered(z, q.name, Answer(z, env, q).authority)
    ensures NsecCovered(z, WildcardOf(Encloser(z, q.name)), Answer(z, env, q).authority)
  {
    ReplyCode(z, env, q);
    NegativeReplies(z, env, q);
    var wc := WildcardOf(Encloser(z, q.name));
    NsecFinds(z, origin, records, q.name, Answer(z, env, q).authority);
    NsecFinds(z, origin, records, wc, Answer(z, env, q).authority);
  }

  /** A NODATA reply there carries the NSEC of the name, or covers an empty non-terminal. */
  lemma NsecNodataReply(z: Zone, origin: Name, records: seq<Record>, env: Env, q: Query)
    requires BuiltFrom(z, origin, records) && z.nsec3 == [] && z.nsecChain != [] && IsSubdomain(origin, q.name) && q.dnssec
    requires var o := OutcomeOf(z, q.name, q.qtype);
      o == EmptyNonTerminal || (o == Exact && StepAt(z, env, q.name, q.qtype, q.dnssec) == Data([], None))
    ensures var authority := Answer(z, env, q).authority;
      if z.Has(q.name, NSEC) then Part(DataAt(z.names, q.name).WithSigs(NSEC, true), authority)
      else NsecCovered(z, q.name, authority)
  {
    if OutcomeOf(z, q.name, q.qtype) == EmptyNonTerminal {
      NegativeReplies(z, env, q);
    } else {
      DataReplies(z, env, q, Data([], None));
    }
    NsecIsPredecessor(z, origin, records, q.name);
    assert forall r :: r in NsecFor(z, q.name) ==> r in Answer(z, env, q).authority;
  }
}
