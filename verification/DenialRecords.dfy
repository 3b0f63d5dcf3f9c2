/** What the denial proofs carry, over the records the zone was built from. */
module DenialRecords {
  import opened Names
  import opened Records
  import opened Order
  import opened Base32
  import opened Zones
  import opened Denial
  import opened Outcomes
  import opened DenialProofs
  import opened DenialReplies
  import opened Sections

  /** Going round from `h`, `g` comes before `x` or is it. */
  ghost predicate Passes<T(!new)>(h: T, g: T, x: T, less: (T, T) -> bool) {
    if less(h, x) then less(h, g) && !less(x, g) else less(h, g) || !less(x, g)
  }

  /** `x` lies strictly between `h` and the next of the keys, going round. */
  ghost predicate NextIsPast<T(!new)>(keys: set<T>, h: T, x: T, less: (T, T) -> bool) {
    h in keys && x != h && forall g :: g in keys ==> !Passes(h, g, x, less)
  }

  lemma CoversInside<T(!new)>(keys: seq<T>, i: nat, x: T, less: (T, T) -> bool)
    requires StrictTotal(less) && StrictlySorted(keys, less) && i + 1 < |keys|
    ensures StrictlyCovers(keys, i, x, less) <==> NextIsPast(Elements(keys), keys[i], x, less)
  {
    var h, next := keys[i], keys[i + 1];
    assert (i + 1) % |keys| == i + 1;
    assert less(h, next) && h in Elements(keys) && next in Elements(keys);
    if StrictlyCovers(keys, i, x, less) {
      forall j | 0 <= j < |keys| ensures !Passes(h, keys[j], x, less) {
        if j <= i { assert j == i || less(keys[j], h); } else { assert j == i + 1 || less(next, keys[j]); }
      }
    }
    if NextIsPast(Elements(keys), h, x, less) { assert !Passes(h, next, x, less); }
  }

  lemma CoversRound<T(!new)>(keys: seq<T>, i: nat, x: T, less: (T, T) -> bool)
    requires StrictTotal(less) && StrictlySorted(keys, less) && i + 1 == |keys|
    ensures StrictlyCovers(keys, i, x, less) <==> NextIsPast(Elements(keys), keys[i], x, less)
  {
    var h, first := keys[i], keys[0];
    assert (i + 1) % |keys| == 0;
    assert h == first || less(first, h);
    assert h in Elements(keys) && first in Elements(keys);
    if StrictlyCovers(keys, i, x, less) {
      forall j | 0 <= j < |keys| ensures !Passes(h, keys[j], x, less) {
        assert j == i || less(keys[j], h);
        assert j == 0 || less(first, keys[j]);
      }
    }
    if NextIsPast(Elements(keys), h, x, less) { assert !Passes(h, first, x, less); }
  }

  /** The interval an entry covers runs to the next entry, going round. */
  lemma CoversIff<T(!new)>(keys: seq<T>, i: nat, x: T, less: (T, T) -> bool)
    requires StrictTotal(less) && StrictlySorted(keys, less) && i < |keys|
    ensures StrictlyCovers(keys, i, x, less) <==> NextIsPast(Elements(keys), keys[i], x, less)
  {
    if i + 1 < |keys| { CoversInside(keys, i, x, less); } else { CoversRound(keys, i, x, less); }
  }

  // ------------------------------------------------------------------ NSEC3

  /** `o` owns NSEC3 records, and its first label encodes `h`. */
  ghost predicate ChainOwner(origin: Name, records: seq<Record>, o: Name, h: Hash) {
    Owns(origin, records, o, NSEC3) && Decoded(FirstLabel(o)) == Some(h)
  }

  /** The whole set and its signatures are among the records. */
  ghost predicate CarriesSet(records: seq<Record>, o: Name, t: RType, rs: seq<Record>) {
    forall x :: InAnswerSet(records, o, t, true, x) ==> x in rs
  }

  lemma LinkIff(z: Zone, origin: Name, records: seq<Record>, l: Link)
    requires BuiltFrom(z, origin, records)
    ensures l in z.nsec3 <==> ChainOwner(origin, records, l.owner, l.hash)
  {
    assert l in z.nsec3 <==> l in Elements(z.nsec3);
    assert l in Nsec3Links(z.names) <==> IsNsec3Owner(z.names, l.owner) && Decoded(FirstLabel(l.owner)) == Some(l.hash);
    ZoneHas(z, origin, records, l.owner, NSEC3);
  }

  lemma SetCarriedIff(z: Zone, origin: Name, records: seq<Record>, o: Name, t: RType, rs: seq<Record>)
    requires BuiltFrom(z, origin, records) && Owns(origin, records, o, t)
    ensures Part(DataAt(z.names, o).WithSigs(t, true), rs) <==> CarriesSet(records, o, t, rs)
  {
    var part := DataAt(z.names, o).WithSigs(t, true);
    forall x ensures x in part <==> InAnswerSet(records, o, t, true, x) { WithSigsIs(z, origin, records, o, t, true, x); }
    ZoneHas(z, origin, records, o, t);
    assert part != [];
  }

  /** A name is matched exactly if the records include the signed NSEC3 set of an owner
      whose label is the name's hash. */
  lemma MatchedIs(z: Zone, origin: Name, records: seq<Record>, hash: Name -> Hash, n: Name, rs: seq<Record>)
    requires BuiltFrom(z, origin, records)
    ensures Matched(z, hash, n, rs) <==>
      exists o :: ChainOwner(origin, records, o, hash(n)) && CarriesSet(records, o, NSEC3, rs)
  {
    if Matched(z, hash, n, rs) {
      var i :| 0 <= i < |z.nsec3| && z.nsec3[i].hash == hash(n) && Part(LinkRecords(z, i), rs);
      LinkIff(z, origin, records, z.nsec3[i]);
      SetCarriedIff(z, origin, records, z.nsec3[i].owner, NSEC3, rs);
    }
    if o :| ChainOwner(origin, records, o, hash(n)) && CarriesSet(records, o, NSEC3, rs) {
      LinkIff(z, origin, records, Link(hash(n), o));
      var i :| 0 <= i < |z.nsec3| && z.nsec3[i] == Link(hash(n), o);
      SetCarriedIff(z, origin, records, o, NSEC3, rs);
      assert Part(LinkRecords(z, i), rs);
    }
  }

  /** All the hashes of the chain. */
  ghost function ChainHashes(z: Zone): set<Hash> { Elements(Hashes(z.nsec3)) }

  lemma ChainHashIff(z: Zone, origin: Name, records: seq<Record>, h: Hash)
    requires BuiltFrom(z, origin, records)
    ensures h in ChainHashes(z) <==> exists o :: ChainOwner(origin, records, o, h)
  {
    if h in ChainHashes(z) {
      var i :| 0 <= i < |z.nsec3| && Hashes(z.nsec3)[i] == h;
      LinkIff(z, origin, records, z.nsec3[i]);
    }
    if o :| ChainOwner(origin, records, o, h) {
      LinkIff(z, origin, records, Link(h, o));
      var i :| 0 <= i < |z.nsec3| && z.nsec3[i] == Link(h, o);
      assert Hashes(z.nsec3)[i] == h;
    }
  }

  /** And covered exactly if they include the signed NSEC3 set of an owner whose hash is
      followed, going round, by the name's hash before any hash of the chain. */
  lemma CoveredIs(z: Zone, origin: Name, records: seq<Record>, hash: Name -> Hash, n: Name, rs: seq<Record>)
    requires BuiltFrom(z, origin, records) && ChainDistinct(z)
    ensures Covered(z, hash, n, rs) <==>
      exists o, h :: ChainOwner(origin, records, o, h) && CarriesSet(records, o, NSEC3, rs) && NextIsPast(ChainHashes(z), h, hash(n), HashLess)
  {
    if Covered(z, hash, n, rs) {
      var i :| 0 <= i < |z.nsec3| && StrictlyCovers(Hashes(z.nsec3), i, hash(n), HashLess) && Part(LinkRecords(z, i), rs);
      LinkCovers(z, origin, records, hash, n, rs, i);
    }
    if o, h :| ChainOwner(origin, records, o, h) && CarriesSet(records, o, NSEC3, rs) && NextIsPast(ChainHashes(z), h, hash(n), HashLess) {
      LinkIff(z, origin, records, Link(h, o));
      var i :| 0 <= i < |z.nsec3| && z.nsec3[i] == Link(h, o);
      LinkCovers(z, origin, records, hash, n, rs, i);
    }
  }

  /** One entry, in both vocabularies. */
  lemma LinkCovers(z: Zone, origin: Name, records: seq<Record>, hash: Name -> Hash, n: Name, rs: seq<Record>, i: nat)
    requires BuiltFrom(z, origin, records) && ChainDistinct(z) && i < |z.nsec3|
    ensures var l := z.nsec3[i];
      && ChainOwner(origin, records, l.owner, l.hash)
      && (StrictlyCovers(Hashes(z.nsec3), i, hash(n), HashLess) <==> NextIsPast(ChainHashes(z), l.hash, hash(n), HashLess))
      && (Part(LinkRecords(z, i), rs) <==> CarriesSet(records, l.owner, NSEC3, rs))
  {
    SortedHashes(z);
    CoversIff(Hashes(z.nsec3), i, hash(n), HashLess);
    LinkIff(z, origin, records, z.nsec3[i]);
    SetCarriedIff(z, origin, records, z.nsec3[i].owner, NSEC3, rs);
  }

  // ------------------------------------------------------------------- NSEC

  /** The same of a chain of NSEC records, in canonical order of the owners. */
  lemma NsecCoveredIs(z: Zone, origin: Name, records: seq<Record>, n: Name, rs: seq<Record>)
    requires BuiltFrom(z, origin, records)
    ensures NsecCovered(z, n, rs) <==>
      exists o :: Owns(origin, records, o, NSEC) && CarriesSet(records, o, NSEC, rs) && NextIsPast(NsecOwners(z.names), o, n, CanonicalLess)
  {
    CanonicalOrderIsTotal();
    var keys := z.nsecChain;
    if NsecCovered(z, n, rs) {
      var i :| 0 <= i < |keys| && StrictlyCovers(keys, i, n, CanonicalLess) && Part(DataAt(z.names, keys[i]).WithSigs(NSEC, true), rs);
      CoversIff(keys, i, n, CanonicalLess);
      NsecOwnerIff(z, origin, records, keys[i]);
      SetCarriedIff(z, origin, records, keys[i], NSEC, rs);
    }
    if o :| Owns(origin, records, o, NSEC) && CarriesSet(records, o, NSEC, rs) && NextIsPast(NsecOwners(z.names), o, n, CanonicalLess) {
      assert o in Elements(keys);
      var i :| 0 <= i < |keys| && keys[i] == o;
      CoversIff(keys, i, n, CanonicalLess);
      SetCarriedIff(z, origin, records, o, NSEC, rs);
    }
  }

  lemma NsecOwnerIff(z: Zone, origin: Name, records: seq<Record>, o: Name)
    requires BuiltFrom(z, origin, records)
    ensures o in Elements(z.nsecChain) <==> Owns(origin, records, o, NSEC)
  {
    ZoneHas(z, origin, records, o, NSEC);
  }
}
