/** Construction of an in-memory zone: the owner map, the set of existing names
    and the denial chains. */
module Zones {
  import opened Names
  import opened Records
  import opened Order
  import DnsText
  import opened Base32

  /** One NSEC3 owner with the hash its first label encodes. */
  datatype Link = Link(hash: Hash, owner: Name)

  datatype Zone = Zone(
    origin: Name,
    names: Owners,
    nodes: set<Name>,
    nsecChain: seq<Name>,
    nsec3: seq<Link>,
    serial: nat,
    signed: bool)
  {
    predicate Has(n: Name, t: RType) { DataAt(names, n).Has(t) }
  }

  // -------------------------------------------------------- specification

  /** The owners and all their ancestors up to the origin. */
  function Closure(origin: Name, owners: set<Name>): set<Name> {
    set o, k | o in owners && |origin| <= k <= |o| :: Suffix(o, k)
  }

  function ApexSerial(origin: Name, names: Owners): Option<nat> {
    var soa := DataAt(names, origin).Set(SOA);
    if soa != [] && soa[0].data.SoaData? then Some(soa[0].data.serial) else None
  }

  /** Owners compare as text; names whose text is the same (none without escapes
      are) are told apart by canonical order. */
  predicate OwnerLess(a: Name, b: Name) {
    Lex(DnsText.Text(a), DnsText.Text(b), CharLess) || (DnsText.Text(a) == DnsText.Text(b) && CanonicalLess(a, b))
  }

  predicate LinkLess(a: Link, b: Link) {
    HashLess(a.hash, b.hash) || (a.hash == b.hash && OwnerLess(a.owner, b.owner))
  }

  function FirstLabel(n: Name): Label { if n == [] then "" else n[0] }

  ghost function NsecOwners(names: Owners): set<Name> {
    set n | n in names && names[n].Has(NSEC)
  }

  ghost predicate IsNsec3Owner(names: Owners, n: Name) {
    n in names && names[n].Has(NSEC3) && Decoded(FirstLabel(n)).Some?
  }

  ghost function Nsec3Links(names: Owners): set<Link> {
    set n | n in names && IsNsec3Owner(names, n) :: Link(Decoded(FirstLabel(n)).value, n)
  }

  ghost predicate IsSigned(origin: Name, records: seq<Record>) {
    exists r :: r in records && IsSubdomain(origin, r.owner) && r.data.RrsigData?
  }

  /** What a zone built from `records` holds. */
  ghost predicate BuiltFrom(z: Zone, origin: Name, records: seq<Record>) {
    && z.origin == origin
    && z.names == BuildNames(origin, records)
    && ApexSerial(origin, z.names) == Some(z.serial)
    && z.nodes == Closure(origin, z.names.Keys)
    && StrictlySorted(z.nsecChain, CanonicalLess)
    && Elements(z.nsecChain) == NsecOwners(z.names)
    && StrictlySorted(z.nsec3, LinkLess)
    && Elements(z.nsec3) == Nsec3Links(z.names)
    && z.signed == IsSigned(origin, records)
  }

  // ---------------------------------------------------------- construction

  method FromRecords(origin: Name, records: seq<Record>) returns (r: Option<Zone>)
    ensures r.None? <==> ApexSerial(origin, BuildNames(origin, records)).None?
    ensures r.Some? ==> BuiltFrom(r.value, origin, records)
  {
    var names: Owners := map[];
    var signed := false;
    for i := 0 to |records|
      invariant names == BuildNames(origin, records[..i])
      invariant signed == IsSigned(origin, records[..i])
    {
      var rec := records[i];
      assert records[..i + 1][..i] == records[..i];
      assert records[..i + 1] == records[..i] + [rec];
      if !IsSubdomain(origin, rec.owner) {
        continue;
      }
      if rec.data.RrsigData? {
        signed := true;
      }
      names := names[rec.owner := AddTo(DataAt(names, rec.owner), rec)];
    }
    assert records[..|records|] == records;
    var serial := ApexSerial(origin, names);
    if serial.None? {
      return None;
    }
    forall o | o in names.Keys ensures IsSubdomain(origin, o) { BuildOwners(origin, records, o); }
    var nodes := Nodes(origin, names.Keys);
    CanonicalOrderIsTotal();
    var nsecOwners := set n | n in names && names[n].Has(NSEC);
    var nsec := SortSet(nsecOwners, CanonicalLess);
    var nsec3 := Nsec3Chain(names);
    r := Some(Zone(origin, names, nodes, nsec, nsec3, serial.value, signed));
  }

  /** Every ancestor of a closed-off name is present. */
  ghost predicate ClosedAbove(origin: Name, nodes: set<Name>) {
    forall n :: n in nodes ==> IsSubdomain(origin, n) && (n != origin ==> Parent(n) in nodes)
  }

  lemma {:induction false} ClosedHasAncestors(origin: Name, nodes: set<Name>, n: Name, k: nat)
    requires ClosedAbove(origin, nodes) && n in nodes
    requires |origin| <= k <= |n|
    ensures Suffix(n, k) in nodes
    decreases |n| - k
  {
    if k < |n| {
      assert n != origin;
      ClosedHasAncestors(origin, nodes, Parent(n), k);
      assert Suffix(Parent(n), k) == Suffix(n, k);
    } else {
      assert Suffix(n, k) == n;
    }
  }

  /** The ancestors of `owner` deeper than `k` labels. */
  ghost function Below(owner: Name, k: nat): set<Name> { set j | k < j <= |owner| :: Suffix(owner, j) }

  lemma BelowNext(owner: Name, k: nat)
    requires 0 < k <= |owner|
    ensures Below(owner, k - 1) == Below(owner, k) + {Suffix(owner, k)}
    ensures Parent(Suffix(owner, k)) == Suffix(owner, k - 1)
  {
  }

  /** Walks up from one owner, adding names until one is already there. */
  method Climb(origin: Name, owner: Name, before: set<Name>) returns (nodes: set<Name>, ghost k: nat)
    requires IsSubdomain(origin, owner)
    ensures |origin| <= k <= |owner| && (Suffix(owner, k) in before || Suffix(owner, k) == origin)
    ensures nodes == before + Below(owner, k) + {Suffix(owner, k)}
  {
    var n := owner;
    nodes := before;
    k := |owner|;
    while n !in nodes && n != origin
      invariant |origin| <= k <= |owner| && n == Suffix(owner, k)
      invariant nodes == before + Below(owner, k)
      invariant forall j :: k < j <= |owner| ==> |Suffix(owner, j)| > k
      decreases k
    {
      BelowNext(owner, k);
      nodes := nodes + {n};
      n := Parent(n);
      k := k - 1;
    }
    nodes := nodes + {n};
  }

  /** Walks up from each owner and stops at the first ancestor already present:
      the result is still the whole closure. */
  method Nodes(origin: Name, owners: set<Name>) returns (nodes: set<Name>)
    requires forall o :: o in owners ==> IsSubdomain(origin, o)
    ensures nodes == Closure(origin, owners)
  {
    nodes := {};
    var rest := owners;
    while rest != {}
      invariant rest <= owners
      invariant nodes == Closure(origin, owners - rest)
      decreases rest
    {
      var owner :| owner in rest;
      ghost var before, done, k := nodes, owners - rest, 0;
      ClosureClosed(origin, done);
      nodes, k := Climb(origin, owner, nodes);
      PathAdded(origin, done, before, owner, k, nodes);
      rest := rest - {owner};
      assert owners - rest == done + {owner};
    }
    assert owners - rest == owners;
  }

  lemma ClosureClosed(origin: Name, owners: set<Name>)
    requires forall o :: o in owners ==> IsSubdomain(origin, o)
    ensures ClosedAbove(origin, Closure(origin, owners))
  {
    forall n | n in Closure(origin, owners)
      ensures IsSubdomain(origin, n) && (n != origin ==> Parent(n) in Closure(origin, owners))
    {
      var o, k :| o in owners && |origin| <= k <= |o| && n == Suffix(o, k);
      SuffixOfSuffix(o, k, |origin|);
      if n != origin {
        assert Parent(n) == Suffix(o, k - 1);
      }
    }
  }

  /** The walk from `owner` stopped at depth `k`, at the origin or at a name
      that was there before: all of the owner's path is present now. */
  lemma PathAdded(origin: Name, done: set<Name>, before: set<Name>, owner: Name, k: nat, after: set<Name>)
    requires IsSubdomain(origin, owner) && |origin| <= k <= |owner|
    requires before == Closure(origin, done) && ClosedAbove(origin, before)
    requires Suffix(owner, k) in before || Suffix(owner, k) == origin
    requires after == before + Below(owner, k) + {Suffix(owner, k)}
    ensures after == Closure(origin, done + {owner})
  {
    forall n | n in Closure(origin, done + {owner}) ensures n in after {
      var o, j :| o in done + {owner} && |origin| <= j <= |o| && n == Suffix(o, j);
      if o in done {
        assert n in before;
      } else if j < k {
        SuffixOfSuffix(owner, k, j);
        ClosedHasAncestors(origin, before, Suffix(owner, k), j);
      }
    }
  }

  method Nsec3Chain(names: Owners) returns (chain: seq<Link>)
    ensures StrictlySorted(chain, LinkLess)
    ensures Elements(chain) == Nsec3Links(names)
  {
    var links: set<Link> := {};
    var rest := names.Keys;
    while rest != {}
      invariant rest <= names.Keys
      invariant links == set n | n in names.Keys - rest && IsNsec3Owner(names, n) :: Link(Decoded(FirstLabel(n)).value, n)
      decreases rest
    {
      var owner :| owner in rest;
      ghost var was := links;
      if names[owner].Has(NSEC3) {
        var h := Base32Hex(FirstLabel(owner));
        if h.Some? {
          links := links + {Link(h.value, owner)};
        }
      }
      assert forall n :: n in names.Keys - (rest - {owner}) <==> n in names.Keys - rest || n == owner;
      rest := rest - {owner};
    }
    assert links == Nsec3Links(names);
    LinkOrderIsTotal();
    chain := SortSet(links, LinkLess);
  }

  lemma OwnerOrderIsTotal()
    ensures StrictTotal(OwnerLess)
  {
    CanonicalOrderIsTotal();
    LexStrictTotal(CharLess);
  }

  /** Without escapes the order of owners is the order of their text alone. */
  lemma OwnersCompareAsText(a: Name, b: Name)
    requires DnsText.Plain(a) && DnsText.Plain(b)
    ensures OwnerLess(a, b) <==> Lex(DnsText.Text(a), DnsText.Text(b), CharLess)
  {
    CanonicalOrderIsTotal();
    if DnsText.Text(a) == DnsText.Text(b) { DnsText.TextInjective(a, b); }
  }

  lemma LinkOrderIsTotal()
    ensures StrictTotal(LinkLess)
  {
    HashOrderIsTotal();
    OwnerOrderIsTotal();
  }
}
