/** Denial-of-existence proofs: which NSEC or NSEC3 records go with a negative
    or wildcard answer. */
module Denial {
  import opened Names
  import opened Records
  import opened Order
  import opened Zones

  // ------------------------------------------------- searching by depth

  /** The least k in [lo, hi) that satisfies P. */
  ghost function Least(lo: nat, hi: nat, P: nat -> bool): (r: Option<nat>)
    ensures r.Some? ==> lo <= r.value < hi && P(r.value) && forall j: nat :: lo <= j < r.value ==> !P(j)
    ensures r.None? ==> forall j: nat :: lo <= j < hi ==> !P(j)
    decreases hi - lo
  {
    if lo >= hi then None else if P(lo) then Some(lo) else Least(lo + 1, hi, P)
  }

  /** The greatest k in [lo, hi) that satisfies P. */
  ghost function Greatest(lo: nat, hi: nat, P: nat -> bool): (r: Option<nat>)
    ensures r.Some? ==> lo <= r.value < hi && P(r.value) && forall j: nat :: r.value < j < hi ==> !P(j)
    ensures r.None? ==> forall j: nat :: lo <= j < hi ==> !P(j)
    decreases hi
  {
    if lo >= hi then None else if P(hi - 1) then Some(hi - 1) else Greatest(lo, hi - 1, P)
  }

  // ---------------------------------------------------- closest encloser

  ghost function ExistsAt(z: Zone, name: Name): nat -> bool {
    (k: nat) => k <= |name| && Suffix(name, k) in z.nodes
  }

  /** The longest existing proper ancestor of `name`; the origin when there is none. */
  ghost function Encloser(z: Zone, name: Name): Name {
    match Greatest(0, |name|, ExistsAt(z, name))
    case Some(k) => Suffix(name, k)
    case None => z.origin
  }

  lemma EncloserIs(z: Zone, name: Name, k: nat)
    requires k < |name| && Suffix(name, k) in z.nodes
    requires forall j :: k < j < |name| ==> Suffix(name, j) !in z.nodes
    ensures Encloser(z, name) == Suffix(name, k)
  {
    var P := ExistsAt(z, name);
    assert P(k);
  }

  lemma EncloserDefaults(z: Zone, name: Name)
    requires forall j :: 0 <= j < |name| ==> Suffix(name, j) !in z.nodes
    ensures Encloser(z, name) == z.origin
  {
  }

  method ClosestEncloser(z: Zone, name: Name) returns (ce: Name)
    requires forall n :: n in z.nodes ==> IsSubdomain(z.origin, n)
    ensures ce == Encloser(z, name)
  {
    var n := name;
    ghost var k: nat := |name|;
    while n != z.origin && n != []
      invariant k <= |name| && n == Suffix(name, k)
      invariant forall j :: k <= j < |name| ==> Suffix(name, j) !in z.nodes
      decreases |n|
    {
      SuffixOfSuffix(name, k, k - 1);
      assert Parent(n) == Suffix(name, k - 1);
      n := Parent(n);
      k := k - 1;
      if n in z.nodes {
        EncloserIs(z, name, k);
        return n;
      }
    }
    assert forall j :: 0 <= j < |name| ==> Suffix(name, j) !in z.nodes;
    EncloserDefaults(z, name);
    ce := z.origin;
  }

  // -------------------------------------------------------------- NSEC

  /** The NSEC set (signed) at `name` or circularly before it. */
  function NsecFor(z: Zone, name: Name): seq<Record> {
    if z.nsecChain == [] then []
    else DataAt(z.names, z.nsecChain[PredecessorIndex(z.nsecChain, name, CanonicalLess)]).WithSigs(NSEC, true)
  }

  // ------------------------------------------------------------- NSEC3

  function Hashes(chain: seq<Link>): (h: seq<Hash>)
    ensures |h| == |chain|
    ensures forall i :: 0 <= i < |chain| ==> h[i] == chain[i].hash
  {
    if chain == [] then [] else [chain[0].hash] + Hashes(chain[1..])
  }

  function LinkRecords(z: Zone, i: nat): seq<Record>
    requires i < |z.nsec3|
  {
    DataAt(z.names, z.nsec3[i].owner).WithSigs(NSEC3, true)
  }

  function Nsec3Place(z: Zone, h: Hash): Place {
    BinarySearch(Hashes(z.nsec3), h, HashLess, 0, |z.nsec3|)
  }

  predicate Nsec3HashExists(z: Zone, hash: Name -> Hash, name: Name) {
    Nsec3Place(z, hash(name)).At?
  }

  /** The NSEC3 whose owner is the hash of `name`, if there is one. */
  function Nsec3Match(z: Zone, hash: Name -> Hash, name: Name): seq<Record> {
    match Nsec3Place(z, hash(name))
    case At(i) => LinkRecords(z, i)
    case Before(_) => []
  }

  /** The NSEC3 whose circular interval holds the hash of `name`. */
  function Nsec3Cover(z: Zone, hash: Name -> Hash, name: Name): seq<Record> {
    if z.nsec3 == [] then []
    else LinkRecords(z, PredecessorIndex(Hashes(z.nsec3), hash(name), HashLess))
  }

  // -------------------------------------------------------------- proofs

  function ProveNxdomain(z: Zone, hash: Name -> Hash, name: Name, ce: Name): seq<Record> {
    if z.nsec3 != [] then
      Nsec3Match(z, hash, ce) + Nsec3Cover(z, hash, NextCloser(name, ce)) + Nsec3Cover(z, hash, WildcardOf(ce))
    else NsecFor(z, name) + NsecFor(z, WildcardOf(ce))
  }

  /** Walking up from depth `k`: the first ancestor of `n` with an NSEC3 of its
      own, or where the walk must stop. */
  function ProvableDepth(z: Zone, hash: Name -> Hash, n: Name, k: nat): (d: nat)
    requires k <= |n|
    ensures d <= k
    ensures d == 0 || Suffix(n, d) == z.origin || Nsec3HashExists(z, hash, Suffix(n, d))
    ensures forall j :: d < j <= k ==> Suffix(n, j) != z.origin && !Nsec3HashExists(z, hash, Suffix(n, j))
  {
    if k == 0 || Suffix(n, k) == z.origin || Nsec3HashExists(z, hash, Suffix(n, k)) then k
    else ProvableDepth(z, hash, n, k - 1)
  }

  /** The closest provable encloser of `n` (section 1.3 of RFC 5155). */
  function ProvableEncloser(z: Zone, hash: Name -> Hash, n: Name): Name {
    if n == [] then [] else Suffix(n, ProvableDepth(z, hash, n, |n| - 1))
  }

  function ProveNodata(z: Zone, hash: Name -> Hash, name: Name): seq<Record> {
    if z.nsec3 != [] then
      if Nsec3HashExists(z, hash, name) then Nsec3Match(z, hash, name)
      else
        var ce := ProvableEncloser(z, hash, name);
        Nsec3Match(z, hash, ce) + Nsec3Cover(z, hash, NextCloser(name, ce))
    else NsecFor(z, name)
  }

  function ProveWildcardAnswer(z: Zone, hash: Name -> Hash, name: Name, ce: Name): seq<Record> {
    if z.nsec3 != [] then Nsec3Cover(z, hash, NextCloser(name, ce)) else NsecFor(z, name)
  }

  function ProveWildcardNodata(z: Zone, hash: Name -> Hash, name: Name, ce: Name): seq<Record> {
    if z.nsec3 != [] then
      Nsec3Match(z, hash, ce) + Nsec3Cover(z, hash, NextCloser(name, ce)) + Nsec3Match(z, hash, WildcardOf(ce))
    else NsecFor(z, name) + NsecFor(z, WildcardOf(ce))
  }

  /** Authority records, each once, in order of first appearance. */
  function Once(rs: seq<Record>): (out: seq<Record>)
    ensures forall r :: r in out <==> r in rs
    ensures forall i, j :: 0 <= i < j < |out| ==> out[i] != out[j]
  {
    if rs == [] then []
    else
      var before := Once(rs[..|rs| - 1]);
      var r := rs[|rs| - 1];
      assert rs == rs[..|rs| - 1] + [r];
      if r in before then before else before + [r]
  }
}
