/** The records a denial carries prove what they should (sections 7.2.1 to 7.2.5
    of RFC 5155; section 3.1.3 of RFC 4035 for NSEC). */
module DenialProofs {
  import opened Names
  import opened Records
  import opened Order
  import opened Base32
  import opened Zones
  import opened Denial
  import opened Outcomes

  /** Names the signer hashes: every existing name but the NSEC3 owners. */
  ghost function SignedNodes(z: Zone): set<Name> {
    set n | n in z.nodes && !IsNsec3Owner(z.names, n)
  }

  /** There is an NSEC3 chain, with one entry per hash. */
  ghost predicate ChainDistinct(z: Zone) {
    z.nsec3 != [] && StrictlySorted(Hashes(z.nsec3), HashLess)
  }

  /** The NSEC3 chain holds exactly the hashes of the signed names, each once. */
  ghost predicate ChainComplete(z: Zone, hash: Name -> Hash) {
    && ChainDistinct(z)
    && forall h :: h in Hashes(z.nsec3) <==> exists n :: n in SignedNodes(z) && hash(n) == h
  }

  ghost predicate NoCollision(hash: Name -> Hash, names: set<Name>) {
    forall a, b :: a in names && b in names && hash(a) == hash(b) ==> a == b
  }

  ghost predicate BelowNsec3Owner(z: Zone, n: Name) {
    exists o :: IsNsec3Owner(z.names, o) && IsSubdomain(o, n)
  }

  /** The chain entry the cover search picks for `n`. */
  ghost function CoverIndex(z: Zone, hash: Name -> Hash, n: Name): nat
    requires z.nsec3 != []
  {
    PredecessorIndex(Hashes(z.nsec3), hash(n), HashLess)
  }

  /** The NSEC3 owned by the hash of `n` is among the records. */
  ghost predicate Matched(z: Zone, hash: Name -> Hash, n: Name, rs: seq<Record>) {
    exists i :: 0 <= i < |z.nsec3| && z.nsec3[i].hash == hash(n) && Part(LinkRecords(z, i), rs)
  }

  /** An NSEC3 whose circular interval strictly contains the hash of `n` is among the records. */
  ghost predicate Covered(z: Zone, hash: Name -> Hash, n: Name, rs: seq<Record>) {
    exists i :: 0 <= i < |z.nsec3| && StrictlyCovers(Hashes(z.nsec3), i, hash(n), HashLess) && Part(LinkRecords(z, i), rs)
  }

  /** Every record of the (non-empty) part is present. */
  ghost predicate Part(part: seq<Record>, whole: seq<Record>) {
    part != [] && forall r :: r in part ==> r in whole
  }

  lemma LinkHasRecords(z: Zone, origin: Name, records: seq<Record>, i: nat)
    requires BuiltFrom(z, origin, records) && i < |z.nsec3|
    ensures LinkRecords(z, i) != []
  {
    assert z.nsec3[i] in Elements(z.nsec3);
    assert z.nsec3[i] in Nsec3Links(z.names);
  }

  lemma SortedHashes(z: Zone)
    requires StrictlySorted(Hashes(z.nsec3), HashLess)
    ensures StrictTotal(HashLess) && Sorted(Hashes(z.nsec3), HashLess)
  {
    HashOrderIsTotal();
    StrictIsSorted(Hashes(z.nsec3), HashLess);
  }

  /** A hash in the chain is matched. */
  lemma MatchFinds(z: Zone, origin: Name, records: seq<Record>, hash: Name -> Hash, n: Name)
    requires BuiltFrom(z, origin, records) && ChainComplete(z, hash) && n in SignedNodes(z)
    ensures Nsec3HashExists(z, hash, n)
    ensures Matched(z, hash, n, Nsec3Match(z, hash, n))
  {
    SortedHashes(z);
    var keys := Hashes(z.nsec3);
    assert hash(n) in keys;
    var p := Nsec3Place(z, hash(n));
    BinarySearchFinds(keys, hash(n), HashLess, 0, |keys|);
    assert !HashLess(hash(n), hash(n));
    assert p.At?;
    LinkHasRecords(z, origin, records, p.index);
  }

  /** A hash outside the chain is strictly covered by the entry the search picks. */
  lemma CoverFinds(z: Zone, origin: Name, records: seq<Record>, hash: Name -> Hash, n: Name)
    requires BuiltFrom(z, origin, records) && ChainDistinct(z) && hash(n) !in Hashes(z.nsec3)
    ensures Covered(z, hash, n, Nsec3Cover(z, hash, n))
  {
    SortedHashes(z);
    PredecessorCovers(Hashes(z.nsec3), hash(n), HashLess);
    LinkHasRecords(z, origin, records, CoverIndex(z, hash, n));
  }

  /** A hash in the chain is strictly covered by no entry at all. */
  lemma MemberIsNotCovered(keys: seq<Hash>, i: nat, j: nat)
    requires StrictTotal(HashLess) && StrictlySorted(keys, HashLess) && i < |keys| && j < |keys|
    ensures !StrictlyCovers(keys, i, keys[j], HashLess)
  {
    var n := |keys|;
    if i + 1 < n {
      assert (i + 1) % n == i + 1;
      assert HashLess(keys[i], keys[i + 1]);
      if j <= i {
        assert j == i || HashLess(keys[j], keys[i]);
      } else {
        assert j == i + 1 || HashLess(keys[i + 1], keys[j]);
      }
    } else {
      assert (i + 1) % n == 0;
      assert j == 0 || HashLess(keys[0], keys[j]);
      assert j == i || HashLess(keys[j], keys[i]);
      assert i == 0 || HashLess(keys[0], keys[i]);
    }
  }

  lemma PartOfConcat(part: seq<Record>, a: seq<Record>, b: seq<Record>, c: seq<Record>)
    requires Part(part, a) || Part(part, b) || Part(part, c)
    ensures Part(part, a + b + c)
  {
  }

  lemma Widen(z: Zone, hash: Name -> Hash, n: Name, a: seq<Record>, b: seq<Record>, c: seq<Record>)
    ensures Matched(z, hash, n, a) || Matched(z, hash, n, b) || Matched(z, hash, n, c) ==> Matched(z, hash, n, a + b + c)
    ensures Covered(z, hash, n, a) || Covered(z, hash, n, b) || Covered(z, hash, n, c) ==> Covered(z, hash, n, a + b + c)
  {
    forall i | 0 <= i < |z.nsec3| && (Part(LinkRecords(z, i), a) || Part(LinkRecords(z, i), b) || Part(LinkRecords(z, i), c))
      ensures Part(LinkRecords(z, i), a + b + c)
    {
      PartOfConcat(LinkRecords(z, i), a, b, c);
    }
  }

  /** A name absent from the zone has a hash absent from the chain. */
  lemma AbsentHash(z: Zone, hash: Name -> Hash, n: Name)
    requires ChainComplete(z, hash) && n !in z.nodes && NoCollision(hash, z.nodes + {n})
    ensures hash(n) !in Hashes(z.nsec3)
  {
    assert forall m :: m in SignedNodes(z) ==> hash(m) != hash(n);
  }

  lemma StarIsNoHash(z: Zone, ce: Name)
    ensures !IsNsec3Owner(z.names, WildcardOf(ce))
  {
    assert Digit('*').None?;
    assert STAR[0] == '*';
    assert !AllDigits(STAR);
    assert FirstLabel(WildcardOf(ce)) == STAR;
  }

  lemma EncloserIsSigned(z: Zone, origin: Name, records: seq<Record>, q: Name)
    requires BuiltFrom(z, origin, records) && IsSubdomain(origin, q) && q !in z.nodes && !BelowNsec3Owner(z, q)
    ensures Encloser(z, q) in SignedNodes(z)
  {
    EncloserIsClosest(z, origin, records, q);
  }

  /** NXDOMAIN (section 7.2.2 of RFC 5155): the proof matches the closest encloser
      and strictly covers the next closer name. The wildcard at the closest
      encloser is strictly covered exactly when that wildcard name does not
      exist. */
  lemma NxdomainProof(z: Zone, origin: Name, records: seq<Record>, hash: Name -> Hash, q: Name)
    requires BuiltFrom(z, origin, records) && ChainComplete(z, hash)
    requires IsSubdomain(origin, q) && q !in z.nodes && !BelowNsec3Owner(z, q)
    requires NoCollision(hash, z.nodes + {NextCloser(q, Encloser(z, q))})
    requires NoCollision(hash, z.nodes + {WildcardOf(Encloser(z, q))})
    ensures var ce := Encloser(z, q);
      var proof := ProveNxdomain(z, hash, q, ce);
      && Matched(z, hash, ce, proof)
      && Covered(z, hash, NextCloser(q, ce), proof)
      && (Covered(z, hash, WildcardOf(ce), proof) <==> WildcardOf(ce) !in z.nodes)
  {
    var ce := Encloser(z, q);
    var nc, wc := NextCloser(q, ce), WildcardOf(ce);
    var a, b, c := Nsec3Match(z, hash, ce), Nsec3Cover(z, hash, nc), Nsec3Cover(z, hash, wc);
    EncloserIsClosest(z, origin, records, q);
    EncloserIsSigned(z, origin, records, q);
    MatchFinds(z, origin, records, hash, ce);
    AbsentHash(z, hash, nc);
    CoverFinds(z, origin, records, hash, nc);
    Widen(z, hash, ce, a, b, c);
    Widen(z, hash, nc, a, b, c);
    if wc !in z.nodes {
      AbsentHash(z, hash, wc);
      CoverFinds(z, origin, records, hash, wc);
      Widen(z, hash, wc, a, b, c);
    } else {
      ExistingIsNotCovered(z, hash, wc, ProveNxdomain(z, hash, q, ce), ce);
    }
  }

  lemma ExistingIsNotCovered(z: Zone, hash: Name -> Hash, wc: Name, proof: seq<Record>, ce: Name)
    requires ChainComplete(z, hash) && wc in z.nodes && wc == WildcardOf(ce)
    ensures !Covered(z, hash, wc, proof)
  {
    StarIsNoHash(z, ce);
    SortedHashes(z);
    var keys := Hashes(z.nsec3);
    assert hash(wc) in keys;
    var j :| 0 <= j < |keys| && keys[j] == hash(wc);
    forall i | 0 <= i < |z.nsec3| ensures !StrictlyCovers(keys, i, hash(wc), HashLess) {
      MemberIsNotCovered(keys, i, j);
    }
  }

  /** NODATA at a signed name (section 7.2.3): the name's own NSEC3. */
  lemma NodataProof(z: Zone, origin: Name, records: seq<Record>, hash: Name -> Hash, n: Name)
    requires BuiltFrom(z, origin, records) && ChainComplete(z, hash) && n in SignedNodes(z)
    ensures Matched(z, hash, n, ProveNodata(z, hash, n))
  {
    MatchFinds(z, origin, records, hash, n);
  }

  /** The walk up from a name finds the longest proper ancestor whose hash is in the chain. */
  lemma ProvableEncloserIsLongest(z: Zone, hash: Name -> Hash, n: Name)
    requires IsProperSubdomain(z.origin, n) && !Nsec3HashExists(z, hash, n) && Nsec3HashExists(z, hash, z.origin)
    ensures var ce := ProvableEncloser(z, hash, n);
      && IsProperSubdomain(ce, n) && Nsec3HashExists(z, hash, ce)
      && (forall k :: |ce| < k <= |n| ==> !Nsec3HashExists(z, hash, Suffix(n, k)))
  {
    var d := ProvableDepth(z, hash, n, |n| - 1);
    assert Suffix(n, |z.origin|) == z.origin;
    assert Suffix(n, |n|) == n;
  }

  lemma PlaceMatches(z: Zone, origin: Name, records: seq<Record>, hash: Name -> Hash, n: Name)
    requires BuiltFrom(z, origin, records) && Nsec3HashExists(z, hash, n)
    ensures Matched(z, hash, n, Nsec3Match(z, hash, n))
  {
    LinkHasRecords(z, origin, records, Nsec3Place(z, hash(n)).index);
  }

  /** NODATA at a name the signer left out (opt-out, section 7.2.4): the proof
      matches the longest ancestor in the chain and strictly covers the name
      just below it. */
  lemma OptOutProof(z: Zone, origin: Name, records: seq<Record>, hash: Name -> Hash, n: Name)
    requires BuiltFrom(z, origin, records) && ChainDistinct(z)
    requires IsProperSubdomain(origin, n) && !Nsec3HashExists(z, hash, n) && Nsec3HashExists(z, hash, origin)
    ensures var ce := ProvableEncloser(z, hash, n);
      && Matched(z, hash, ce, ProveNodata(z, hash, n))
      && Covered(z, hash, NextCloser(n, ce), ProveNodata(z, hash, n))
  {
    var ce := ProvableEncloser(z, hash, n);
    ProvableEncloserIsLongest(z, hash, n);
    var nc := NextCloser(n, ce);
    assert nc == Suffix(n, |ce| + 1);
    AbsentPlace(z, hash, nc);
    OptOutPair(z, origin, records, hash, ce, nc);
  }

  lemma OptOutPair(z: Zone, origin: Name, records: seq<Record>, hash: Name -> Hash, ce: Name, nc: Name)
    requires BuiltFrom(z, origin, records) && ChainDistinct(z)
    requires Nsec3HashExists(z, hash, ce) && hash(nc) !in Hashes(z.nsec3)
    ensures var proof := Nsec3Match(z, hash, ce) + Nsec3Cover(z, hash, nc);
      Matched(z, hash, ce, proof) && Covered(z, hash, nc, proof)
  {
    var a, b := Nsec3Match(z, hash, ce), Nsec3Cover(z, hash, nc);
    PlaceMatches(z, origin, records, hash, ce);
    CoverFinds(z, origin, records, hash, nc);
    assert a + b + [] == a + b;
    Widen(z, hash, ce, a, b, []);
    Widen(z, hash, nc, a, b, []);
  }

  lemma AbsentPlace(z: Zone, hash: Name -> Hash, n: Name)
    requires ChainDistinct(z) && !Nsec3HashExists(z, hash, n)
    ensures hash(n) !in Hashes(z.nsec3)
  {
    SortedHashes(z);
    var keys := Hashes(z.nsec3);
    BinarySearchFinds(keys, hash(n), HashLess, 0, |keys|);
    assert !HashLess(hash(n), hash(n));
  }

  /** Wildcard answer and wildcard NODATA (sections 7.2.6 and 7.2.5): the next
      closer name is strictly covered; for NODATA the encloser and the wildcard
      are matched as well. */
  lemma WildcardProofs(z: Zone, origin: Name, records: seq<Record>, hash: Name -> Hash, q: Name)
    requires BuiltFrom(z, origin, records) && ChainComplete(z, hash)
    requires IsSubdomain(origin, q) && q !in z.nodes && !BelowNsec3Owner(z, q)
    requires WildcardOf(Encloser(z, q)) in z.nodes
    requires NoCollision(hash, z.nodes + {NextCloser(q, Encloser(z, q))})
    ensures var ce := Encloser(z, q);
      && Covered(z, hash, NextCloser(q, ce), ProveWildcardAnswer(z, hash, q, ce))
      && Matched(z, hash, ce, ProveWildcardNodata(z, hash, q, ce))
      && Covered(z, hash, NextCloser(q, ce), ProveWildcardNodata(z, hash, q, ce))
      && Matched(z, hash, WildcardOf(ce), ProveWildcardNodata(z, hash, q, ce))
  {
    var ce := Encloser(z, q);
    var nc, wc := NextCloser(q, ce), WildcardOf(ce);
    var a, b, c := Nsec3Match(z, hash, ce), Nsec3Cover(z, hash, nc), Nsec3Match(z, hash, wc);
    EncloserIsClosest(z, origin, records, q);
    EncloserIsSigned(z, origin, records, q);
    StarIsNoHash(z, ce);
    MatchFinds(z, origin, records, hash, ce);
    MatchFinds(z, origin, records, hash, wc);
    AbsentHash(z, hash, nc);
    CoverFinds(z, origin, records, hash, nc);
    Widen(z, hash, ce, a, b, c);
    Widen(z, hash, nc, a, b, c);
    Widen(z, hash, wc, a, b, c);
  }

  /** NSEC: the record chosen for `n` is owned by `n` itself or by its circular
      predecessor among the NSEC owners in canonical order (section 6.1 of
      RFC 4034). */
  lemma NsecIsPredecessor(z: Zone, origin: Name, records: seq<Record>, n: Name)
    requires BuiltFrom(z, origin, records) && z.nsecChain != []
    ensures exists i ::
      && 0 <= i < |z.nsecChain|
      && NsecFor(z, n) == DataAt(z.names, z.nsecChain[i]).WithSigs(NSEC, true) != []
      && (if n in NsecOwners(z.names) then z.nsecChain[i] == n
          else StrictlyCovers(z.nsecChain, i, n, CanonicalLess))
  {
    CanonicalOrderIsTotal();
    var keys := z.nsecChain;
    StrictIsSorted(keys, CanonicalLess);
    PredecessorCovers(keys, n, CanonicalLess);
    var i := PredecessorIndex(keys, n, CanonicalLess);
    assert keys[i] in Elements(keys);
    assert n in keys <==> n in Elements(keys);
  }
}
