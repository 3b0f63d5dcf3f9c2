/** A signed zone whose reply expands two wildcards and proves one of them. */
module TwoWildcards {
  import opened Names
  import opened Records
  import opened Order
  import opened Base32
  import opened Zones
  import opened Denial
  import opened Lookups
  import opened Outcomes
  import opened Answers
  import opened DenialProofs
  import opened WildcardReplies

  /** Below the apex, the wildcard at `left` is an alias of `target`, itself answered
      by the wildcard at `right`; `nsec3` holds the chain by hash. */
  datatype Scene = Scene(
    apex: Name, left: Name, right: Name, asked: Name, target: Name,
    soa: Record, cname: Record, address: Record, nsec3: map<nat, Record>)
  {
    predicate Holds(r: Record) { r == soa || r == cname || r == address || r in nsec3.Values }
  }

  predicate Under(n: Name, parent: Name) { n != [] && Parent(n) == parent && n[0] != STAR }

  ghost predicate Fits(s: Scene) {
    && |s.apex| == 1 && Under(s.left, s.apex) && Under(s.right, s.apex) && s.left != s.right
    && Under(s.asked, s.left) && Under(s.target, s.right)
    && s.soa.owner == s.apex && s.soa.Type() == SOA
    && s.cname.owner == WildcardOf(s.left) && s.cname.data == CnameData(s.target)
    && s.address.owner == WildcardOf(s.right) && s.address.Type() == A
    && (forall k :: k in s.nsec3 ==> Chained(s, s.nsec3[k]))
  }

  ghost predicate Chained(s: Scene, r: Record) {
    Under(r.owner, s.apex) && r.Type() == NSEC3 && r.owner != s.left && r.owner != s.right
  }

  ghost predicate Lists(s: Scene, records: seq<Record>) { forall r :: r in records <==> s.Holds(r) }

  // ----------------------------------------------------- what the records say

  predicate Signed(s: Scene, n: Name) {
    n == s.apex || n == s.left || n == s.right || n == s.cname.owner || n == s.address.owner
  }

  lemma Path(s: Scene, n: Name, mid: Name, wild: Name)
    requires |s.apex| == 1 && Under(mid, s.apex) && wild == WildcardOf(mid)
    ensures n != [] ==> (IsSubdomain(n, wild) <==> n == wild || n == mid || n == s.apex)
    ensures n != [] ==> (IsSubdomain(n, mid) <==> n == mid || n == s.apex)
  {
    if n != [] {
      assert Parent(wild) == mid;
      Up(n, wild);
      Up(n, mid);
      Up(n, s.apex);
    }
  }

  lemma OnPath(s: Scene, r: Record, n: Name)
    requires Fits(s) && s.Holds(r) && IsSubdomain(n, r.owner) && n != []
    ensures Signed(s, n) || (r in s.nsec3.Values && n == r.owner)
  {
    if r == s.soa {
      Up(n, s.apex);
    } else if r == s.cname {
      Path(s, n, s.left, r.owner);
    } else if r == s.address {
      Path(s, n, s.right, r.owner);
    } else {
      Up(n, r.owner);
      Up(n, s.apex);
    }
  }

  lemma ExistingHas(s: Scene, records: seq<Record>, n: Name)
    requires Fits(s) && Lists(s, records) && Exists(s.apex, records, n)
    ensures Signed(s, n) || exists k :: k in s.nsec3 && n == s.nsec3[k].owner
  {
    var r :| r in records && IsSubdomain(n, r.owner);
    OnPath(s, r, n);
  }

  lemma Existing(s: Scene, records: seq<Record>, n: Name)
    requires Fits(s) && Lists(s, records)
    ensures Exists(s.apex, records, n) <==> Signed(s, n) || exists k :: k in s.nsec3 && n == s.nsec3[k].owner
  {
    if Exists(s.apex, records, n) {
      ExistingHas(s, records, n);
    }
    if Signed(s, n) {
      AtMostTwoBelow(s.apex, n);
      Path(s, n, s.left, s.cname.owner);
      Path(s, n, s.right, s.address.owner);
      assert s.cname in records && s.address in records;
    } else if k :| k in s.nsec3 && n == s.nsec3[k].owner {
      AtMostTwoBelow(s.apex, n);
      Up(n, n);
      assert s.nsec3[k] in records;
    }
  }

  lemma NoneOf(s: Scene, records: seq<Record>, n: Name, t: RType)
    requires Fits(s) && Lists(s, records) && (t == NS || t == DNAME || (t == CNAME && n != s.cname.owner))
    ensures !Owns(s.apex, records, n, t)
  {
    forall r | r in records ensures !InSet(r, n, t) { assert s.Holds(r); }
  }

  /** Both names are answered by the wildcard next to them. */
  ghost predicate NextTo(s: Scene, n: Name, ce: Name) {
    (n == s.asked && ce == s.left) || (n == s.target && ce == s.right)
  }

  lemma TwoBelow(apex: Name, ce: Name, n: Name)
    requires Under(ce, apex) && Under(n, ce)
    ensures IsSubdomain(apex, n) && IsSubdomain(ce, n) && |n| == |ce| + 1 == |apex| + 2 && NextCloser(n, ce) == n
  {
    AtMostTwoBelow(apex, n);
    AtMostTwoBelow(ce, n);
    assert Suffix(n, |n|) == n;
  }

  lemma Unsigned(s: Scene, n: Name)
    requires Fits(s) && |n| == 3 && n[0] != STAR
    ensures !Signed(s, n) && forall k :: k in s.nsec3 ==> n != s.nsec3[k].owner
  {
    forall k | k in s.nsec3 ensures n != s.nsec3[k].owner { assert Chained(s, s.nsec3[k]); }
  }

  lemma BelowEncloser(s: Scene, n: Name, ce: Name)
    requires Fits(s) && NextTo(s, n, ce)
    ensures IsSubdomain(s.apex, n) && IsSubdomain(ce, n) && |n| == |ce| + 1 && NextCloser(n, ce) == n
    ensures !Signed(s, n) && forall k :: k in s.nsec3 ==> n != s.nsec3[k].owner
  {
    assert Under(ce, s.apex) && Under(n, ce) && |s.apex| == 1;
    TwoBelow(s.apex, ce, n);
    Unsigned(s, n);
  }

  lemma Absent(s: Scene, records: seq<Record>, n: Name, ce: Name)
    requires Fits(s) && Lists(s, records) && NextTo(s, n, ce)
    ensures !Exists(s.apex, records, n) && IsClosestEncloser(s.apex, records, n, ce)
    ensures HasRecords(s.apex, records, WildcardOf(ce))
  {
    BelowEncloser(s, n, ce);
    Existing(s, records, n);
    Existing(s, records, ce);
    AtMostTwoBelow(s.apex, WildcardOf(ce));
    assert s.cname in records && s.address in records;
    forall a | IsProperSubdomain(a, n) && Exists(s.apex, records, a) ensures |a| <= |ce| { Up(a, n); }
  }

  lemma Synthesizes(z: Zone, s: Scene, records: seq<Record>, n: Name, ce: Name)
    requires Fits(s) && Lists(s, records) && NextTo(s, n, ce) && BuiltFrom(z, s.apex, records)
    ensures OutcomeOf(z, n, A) == Synthesized(ce) && ReferralCut(z, n, A).None?
  {
    BelowEncloser(s, n, ce);
    Absent(s, records, n, ce);
    forall a ensures !Cut(s.apex, records, n, a) && !DnameAbove(s.apex, records, n, a) {
      NoneOf(s, records, a, NS);
      NoneOf(s, records, a, DNAME);
    }
    OutcomeIsCalledFor(z, s.apex, records, n, A);
    OutcomeIsUnique(s.apex, records, n, A, OutcomeOf(z, n, A), Synthesized(ce));
  }

  // -------------------------------------------------------------- two hops

  lemma OnlyAlias(s: Scene, r: Record)
    requires Fits(s) && s.Holds(r) && r.Type() == CNAME
    ensures r == s.cname
  {
    assert forall k :: k in s.nsec3 ==> s.nsec3[k].Type() == NSEC3;
  }

  lemma FirstStep(z: Zone, env: Env, s: Scene, records: seq<Record>)
    requires Fits(s) && Lists(s, records) && BuiltFrom(z, s.apex, records)
    ensures var step := StepAt(z, env, s.asked, A, true); step.Alias? && step.to == s.target && step.wild == Some(s.left)
  {
    BelowEncloser(s, s.asked, s.left);
    Synthesizes(z, s, records, s.asked, s.left);
    FirstHop(z, env, Query(s.asked, A, true));
    var owner := s.cname.owner;
    AtMostTwoBelow(s.apex, owner);
    assert s.cname in records;
    forall r | r in records && InSet(r, owner, CNAME) ensures r == s.cname { OnlyAlias(s, r); }
    OnlyRecord(z, s.apex, records, s.cname);
    AliasStep(env, z.names[owner], s.asked, A, true, Some(s.left), s.target);
  }

  lemma PlainStep(env: Env, nd: NameData, n: Name, wild: Option<Name>)
    requires !nd.Has(CNAME)
    ensures var s := DataStep(env, nd, n, A, true, wild); s.Data? && s.wild == wild
  {
  }

  lemma SecondStep(z: Zone, env: Env, s: Scene, records: seq<Record>)
    requires Fits(s) && Lists(s, records) && BuiltFrom(z, s.apex, records)
    ensures var step := StepAt(z, env, s.target, A, true); step.Data? && step.wild == Some(s.right)
  {
    BelowEncloser(s, s.target, s.right);
    Synthesizes(z, s, records, s.target, s.right);
    FirstHop(z, env, Query(s.target, A, true));
    assert s.address.owner[1..] == s.right && s.cname.owner[1..] == s.left;
    NoneOf(s, records, s.address.owner, CNAME);
    ZoneHas(z, s.apex, records, s.address.owner, CNAME);
    PlainStep(env, z.names[s.address.owner], s.target, Some(s.right));
  }

  // -------------------------------------------------------------- the hashes

  /** The owners' labels are the hashes. */
  ghost predicate Numbered(s: Scene) {
    forall k :: k in s.nsec3 ==> Decoded(FirstLabel(s.nsec3[k].owner)) == Some([k])
  }

  predicate Slot(k: nat) { k == 0 || k == 8 || k == 16 || k == 24 || k == 32 }

  /** The chain holds the hashes of the five names; the two names that do not exist
      hash into different intervals. */
  ghost predicate Hashed(s: Scene, hash: Name -> Hash) {
    && (forall k :: k in s.nsec3 <==> Slot(k))
    && hash(s.apex) == [0] && hash(s.left) == [8] && hash(s.cname.owner) == [16]
    && hash(s.right) == [24] && hash(s.address.owner) == [32]
    && hash(s.asked) == [4] && hash(s.target) == [20]
  }

  predicate Chains(s: Scene, k: nat, n: Name) { k in s.nsec3 && n == s.nsec3[k].owner }

  lemma ChainedIsListed(s: Scene, records: seq<Record>, k: nat, n: Name)
    requires Fits(s) && Lists(s, records) && Chains(s, k, n)
    ensures Owns(s.apex, records, n, NSEC3)
  {
    assert Chained(s, s.nsec3[k]);
    AtMostTwoBelow(s.apex, n);
    assert s.nsec3[k] in records;
  }

  lemma ListedIsChained(s: Scene, r: Record) returns (k: nat)
    requires Fits(s) && s.Holds(r) && r.Type() == NSEC3
    ensures Chains(s, k, r.owner)
  {
    k :| k in s.nsec3 && s.nsec3[k] == r;
  }

  lemma OwnersAre(z: Zone, s: Scene, records: seq<Record>, n: Name)
    requires Fits(s) && Lists(s, records) && BuiltFrom(z, s.apex, records)
    ensures z.Has(n, NSEC3) <==> exists k: nat :: Chains(s, k, n)
  {
    ZoneHas(z, s.apex, records, n, NSEC3);
    if z.Has(n, NSEC3) {
      var r :| r in records && InSet(r, n, NSEC3);
      var k := ListedIsChained(s, r);
    }
    if k: nat :| Chains(s, k, n) {
      ChainedIsListed(s, records, k, n);
    }
  }

  lemma Nsec3OwnersAre(z: Zone, s: Scene, records: seq<Record>, n: Name)
    requires Fits(s) && Lists(s, records) && BuiltFrom(z, s.apex, records) && Numbered(s)
    ensures IsNsec3Owner(z.names, n) <==> exists k: nat :: Chains(s, k, n)
  {
    OwnersAre(z, s, records, n);
  }

  lemma LinksAre(z: Zone, s: Scene, records: seq<Record>, l: Link)
    requires Fits(s) && Lists(s, records) && BuiltFrom(z, s.apex, records) && Numbered(s)
    ensures l in z.nsec3 <==> exists k: nat :: Chains(s, k, l.owner) && l.hash == [k]
  {
    Nsec3OwnersAre(z, s, records, l.owner);
    assert l in z.nsec3 <==> l in Elements(z.nsec3);
    assert l in Nsec3Links(z.names) <==> IsNsec3Owner(z.names, l.owner) && Decoded(FirstLabel(l.owner)) == Some(l.hash);
  }

  lemma HashesAre(z: Zone, s: Scene, records: seq<Record>, h: Hash)
    requires Fits(s) && Lists(s, records) && BuiltFrom(z, s.apex, records) && Numbered(s)
    ensures h in Hashes(z.nsec3) <==> exists k :: k in s.nsec3 && h == [k]
  {
    if h in Hashes(z.nsec3) {
      var i :| 0 <= i < |z.nsec3| && z.nsec3[i].hash == h;
      LinksAre(z, s, records, z.nsec3[i]);
    }
    if k :| k in s.nsec3 && h == [k] {
      var l := Link(h, s.nsec3[k].owner);
      assert Chains(s, k, l.owner);
      LinksAre(z, s, records, l);
      var i :| 0 <= i < |z.nsec3| && z.nsec3[i] == l;
      assert Hashes(z.nsec3)[i] == h;
    }
  }

  lemma Distinct(z: Zone, s: Scene, records: seq<Record>)
    requires Fits(s) && Lists(s, records) && BuiltFrom(z, s.apex, records) && Numbered(s) && 0 in s.nsec3
    ensures ChainDistinct(z)
  {
    LinkOrderIsTotal();
    HashesAre(z, s, records, [0]);
    forall i, j | 0 <= i < j < |z.nsec3| ensures HashLess(z.nsec3[i].hash, z.nsec3[j].hash) {
      LinksAre(z, s, records, z.nsec3[i]);
      LinksAre(z, s, records, z.nsec3[j]);
      assert LinkLess(z.nsec3[i], z.nsec3[j]);
      assert !LinkLess(z.nsec3[i], z.nsec3[i]);
    }
  }

  lemma SignedOwnNoNsec3(s: Scene, n: Name, k: nat)
    requires Fits(s) && Signed(s, n)
    ensures !Chains(s, k, n)
  {
    if k in s.nsec3 {
      assert Chained(s, s.nsec3[k]);
      assert |s.nsec3[k].owner| == 2;
    }
  }

  lemma SignedAre(z: Zone, s: Scene, records: seq<Record>, n: Name)
    requires Fits(s) && Lists(s, records) && BuiltFrom(z, s.apex, records) && Numbered(s)
    ensures n in SignedNodes(z) <==> Signed(s, n)
  {
    NodesExist(z, s.apex, records, n);
    Existing(s, records, n);
    Nsec3OwnersAre(z, s, records, n);
    if Signed(s, n) {
      forall k: nat ensures !Chains(s, k, n) { SignedOwnNoNsec3(s, n, k); }
    } else if n in z.nodes {
      var k :| k in s.nsec3 && n == s.nsec3[k].owner;
      assert Chains(s, k, n);
    }
  }

  lemma SignedHashes(s: Scene, hash: Name -> Hash, h: Hash)
    requires Fits(s) && Hashed(s, hash)
    ensures (exists k :: k in s.nsec3 && h == [k]) <==> exists n :: Signed(s, n) && hash(n) == h
  {
    assert Slot(0) && Slot(8) && Slot(16) && Slot(24) && Slot(32);
    assert Signed(s, s.apex) && Signed(s, s.left) && Signed(s, s.right) && Signed(s, s.cname.owner) && Signed(s, s.address.owner);
  }

  /** The zone is signed as it should be: the failure is none of the signer's. */
  lemma Complete(z: Zone, s: Scene, records: seq<Record>, hash: Name -> Hash)
    requires Fits(s) && Lists(s, records) && BuiltFrom(z, s.apex, records) && Numbered(s) && Hashed(s, hash)
    ensures ChainComplete(z, hash)
  {
    assert Slot(0);
    Distinct(z, s, records);
    forall n ensures n in SignedNodes(z) <==> Signed(s, n) { SignedAre(z, s, records, n); }
    forall h ensures h in Hashes(z.nsec3) <==> exists n :: n in SignedNodes(z) && hash(n) == h {
      HashesAre(z, s, records, h);
      SignedHashes(s, hash, h);
    }
  }

  /** The hashes [0] and [8] in a chain keep [4] and [20] in different intervals. */
  lemma Apart(keys: seq<Hash>, j: nat)
    requires StrictTotal(HashLess) && StrictlySorted(keys, HashLess) && j < |keys| && [0] in keys && [8] in keys
    ensures !(StrictlyCovers(keys, j, [4], HashLess) && StrictlyCovers(keys, j, [20], HashLess))
  {
    var a :| 0 <= a < |keys| && keys[a] == [0];
    var b :| 0 <= b < |keys| && keys[b] == [8];
    MemberIsNotCovered(keys, j, a);
    MemberIsNotCovered(keys, j, b);
    assert HashLess([0], [4]) && HashLess([4], [8]) && HashLess([8], [20]);
  }

  // -------------------------------------------------------------- the reply

  lemma Expansions(z: Zone, env: Env, s: Scene, records: seq<Record>) returns (hops: seq<Hop>)
    requires Fits(s) && Lists(s, records) && BuiltFrom(z, s.apex, records)
    ensures hops == Chain(z, env, Query(s.asked, A, true)) && Gives(hops) && LastWild(hops) == Some((s.target, s.right))
    ensures |hops| == 2 && hops[0].at == s.asked && hops[0].step.Wild() == Some(s.left)
  {
    var first, second := StepAt(z, env, s.asked, A, true), StepAt(z, env, s.target, A, true);
    FirstStep(z, env, s, records);
    SecondStep(z, env, s, records);
    BelowEncloser(s, s.target, s.right);
    hops := [Hop(s.asked, first), Hop(s.target, second)];
    TwoHops(z, env, Query(s.asked, A, true), first, second);
    AppendHop([hops[0]], hops[1]);
    assert [hops[0]] + [hops[1]] == hops;
  }

  lemma Picks(keys: seq<Hash>)
    requires StrictTotal(HashLess) && StrictlySorted(keys, HashLess) && [0] in keys && [8] in keys && [20] !in keys
    ensures var j := PredecessorIndex(keys, [20], HashLess);
      StrictlyCovers(keys, j, [20], HashLess) && !StrictlyCovers(keys, j, [4], HashLess)
  {
    StrictIsSorted(keys, HashLess);
    PredecessorCovers(keys, [20], HashLess);
    Apart(keys, PredecessorIndex(keys, [20], HashLess));
  }

  lemma HashIs(z: Zone, s: Scene, records: seq<Record>, k: nat)
    requires Fits(s) && Lists(s, records) && BuiltFrom(z, s.apex, records) && Numbered(s)
    ensures [k] in Hashes(z.nsec3) <==> k in s.nsec3
  {
    var h := [k];
    HashesAre(z, s, records, h);
    assert h[0] == k;
  }

  lemma ChainHas(z: Zone, s: Scene, records: seq<Record>)
    requires Fits(s) && Lists(s, records) && BuiltFrom(z, s.apex, records) && Numbered(s)
    requires 0 in s.nsec3 && 8 in s.nsec3 && 20 !in s.nsec3
    ensures ChainDistinct(z) && [0] in Hashes(z.nsec3) && [8] in Hashes(z.nsec3) && [20] !in Hashes(z.nsec3)
  {
    Distinct(z, s, records);
    HashIs(z, s, records, 0);
    HashIs(z, s, records, 8);
    HashIs(z, s, records, 20);
  }

  lemma TargetInterval(z: Zone, s: Scene, records: seq<Record>, hash: Name -> Hash)
    requires Fits(s) && Lists(s, records) && BuiltFrom(z, s.apex, records) && Numbered(s) && Hashed(s, hash)
    ensures z.nsec3 != []
    ensures StrictlyCovers(Hashes(z.nsec3), CoverIndex(z, hash, s.target), hash(s.target), HashLess)
    ensures !StrictlyCovers(Hashes(z.nsec3), CoverIndex(z, hash, s.target), hash(s.asked), HashLess)
  {
    assert Slot(0) && Slot(8) && !Slot(20);
    ChainHas(z, s, records);
    SortedHashes(z);
    Picks(Hashes(z.nsec3));
  }

  lemma OneOfTwo(z: Zone, env: Env, s: Scene, records: seq<Record>)
    requires Fits(s) && Lists(s, records) && BuiltFrom(z, s.apex, records) && Numbered(s) && Hashed(s, env.hash)
    ensures var authority := Answer(z, env, Query(s.asked, A, true)).authority;
      Covered(z, env.hash, s.target, authority) && !Covered(z, env.hash, s.asked, authority)
  {
    var hops := Expansions(z, env, s, records);
    TargetInterval(z, s, records, env.hash);
    BelowEncloser(s, s.asked, s.left);
    BelowEncloser(s, s.target, s.right);
    Synthesizes(z, s, records, s.asked, s.left);
    OnlyLastIsProved(z, env, Query(s.asked, A, true));
    CoveredIff(z, s.apex, records, env.hash, s.target, s.target);
    CoveredIff(z, s.apex, records, env.hash, s.asked, s.target);
  }

  // ------------------------------------------------------------ the zone file

  function Nsec3Of(k: nat): Record
    requires k < 256
  {
    Record([HashLabel([k]), "org"], 60, Opaque(NSEC3, k))
  }

  function Example(): Scene {
    Scene(
      ["org"], ["w", "org"], ["z", "org"], ["x", "w", "org"], ["y", "z", "org"],
      Record(["org"], 60, SoaData(1, 1, 1, 1, 1)),
      Record(["*", "w", "org"], 60, CnameData(["y", "z", "org"])),
      Record(["*", "z", "org"], 60, Opaque(A, 7)),
      map k: nat | k < 256 && Slot(k) :: Nsec3Of(k))
  }

  /** `*.w.org.` is an alias of `y.z.org.`, `*.z.org.` holds an address, and each of
      the five names has its NSEC3. */
  function Zonefile(): seq<Record> {
    [Record(["org"], 60, SoaData(1, 1, 1, 1, 1)),
     Record(["*", "w", "org"], 60, CnameData(["y", "z", "org"])),
     Record(["*", "z", "org"], 60, Opaque(A, 7))] + ExampleChain()
  }

  /** A hash label reads back, and is none of the zone's own labels. */
  lemma HashLabels(k: nat)
    requires k < 256
    ensures Decoded(HashLabel([k])) == Some([k])
    ensures HashLabel([k]) !in {"*", "w", "z"}
  {
    DecodeUndoesEncode([k]);
    assert HashLabel([k]) != [] ==> Digit(HashLabel([k])[0]).Some?;
  }

  lemma ExampleFits()
    ensures Fits(Example())
  {
    var s := Example();
    forall k | k in s.nsec3 ensures Chained(s, s.nsec3[k]) { ExampleChained(s, Nsec3Of(k), k); }
  }

  lemma ExampleChained(s: Scene, r: Record, k: nat)
    requires k < 256 && r == Nsec3Of(k)
    requires s.apex == ["org"] && s.left == ["w", "org"] && s.right == ["z", "org"]
    ensures Chained(s, r)
  {
    HashLabels(k);
  }

  lemma ExampleNumbered()
    ensures Numbered(Example())
  {
    var s := Example();
    forall k | k in s.nsec3 ensures Decoded(FirstLabel(s.nsec3[k].owner)) == Some([k]) { HashLabels(k); }
  }

  function ExampleChain(): seq<Record> {
    [Nsec3Of(0), Nsec3Of(8), Nsec3Of(16), Nsec3Of(24), Nsec3Of(32)]
  }

  lemma ExampleChainListed(m: map<nat, Record>, r: Record)
    requires forall k :: (k in m <==> Slot(k)) && (k in m ==> m[k] == Nsec3Of(k))
    ensures r in ExampleChain() <==> r in m.Values
  {
    assert r in ExampleChain() <==> exists k :: Slot(k) && r == Nsec3Of(k) by {
      assert Slot(0) && Slot(8) && Slot(16) && Slot(24) && Slot(32);
    }
  }

  lemma ExampleLists()
    ensures Lists(Example(), Zonefile())
  {
    var s, records := Example(), Zonefile();
    forall r ensures r in records <==> s.Holds(r) {
      ExampleChainListed(s.nsec3, r);
      assert r in [s.soa, s.cname, s.address] <==> r == s.soa || r == s.cname || r == s.address;
    }
  }

  /** Asked for `x.w.org.`, this completely signed zone proves the expansion of
      `y.z.org.` and does not prove that of `x.w.org.`. */
  lemma FirstExpansionUnproved(z: Zone, env: Env)
    requires BuiltFrom(z, ["org"], Zonefile()) && Hashed(Example(), env.hash)
    ensures ChainComplete(z, env.hash)
    ensures var authority := Answer(z, env, Query(["x", "w", "org"], A, true)).authority;
      Covered(z, env.hash, ["y", "z", "org"], authority) && !Covered(z, env.hash, ["x", "w", "org"], authority)
  {
    ExampleFits();
    ExampleNumbered();
    ExampleLists();
    var s, records := Example(), Zonefile();
    Complete(z, s, records, env.hash);
    OneOfTwo(z, env, s, records);
  }
}
