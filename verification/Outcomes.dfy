/** The answer to a query, stated over the record list the zone was built from. */
module Outcomes {
  import opened Names
  import opened Records
  import opened Zones
  import opened Denial
  import opened Lookups

  // --------------------------------------------- what the records say

  ghost predicate Owns(origin: Name, records: seq<Record>, n: Name, t: RType) {
    IsSubdomain(origin, n) && exists r :: r in records && InSet(r, n, t)
  }

  ghost predicate HasRecords(origin: Name, records: seq<Record>, n: Name) {
    IsSubdomain(origin, n) && exists r :: r in records && r.owner == n
  }

  /** `n` exists: some in-zone record is owned at or below it. */
  ghost predicate Exists(origin: Name, records: seq<Record>, n: Name) {
    IsSubdomain(origin, n) && exists r :: r in records && IsSubdomain(n, r.owner)
  }

  /** A zone cut at or above `q`, below the apex. */
  ghost predicate Cut(origin: Name, records: seq<Record>, q: Name, c: Name) {
    IsSubdomain(c, q) && c != origin && Owns(origin, records, c, NS)
  }

  /** A DNAME strictly above `q`, the apex included. */
  ghost predicate DnameAbove(origin: Name, records: seq<Record>, q: Name, d: Name) {
    IsProperSubdomain(d, q) && Owns(origin, records, d, DNAME)
  }

  ghost predicate Topmost(origin: Name, records: seq<Record>, q: Name, n: Name) {
    forall a :: Cut(origin, records, q, a) || DnameAbove(origin, records, q, a) ==> |n| <= |a|
  }

  ghost predicate IsClosestEncloser(origin: Name, records: seq<Record>, q: Name, ce: Name) {
    && IsProperSubdomain(ce, q) && Exists(origin, records, ce)
    && forall a :: IsProperSubdomain(a, q) && Exists(origin, records, a) ==> |a| <= |ce|
  }

  /** Neither a referral nor a redirection applies to `q` (a DS query at the
      topmost cut is answered by this side of it). */
  ghost predicate Local(origin: Name, records: seq<Record>, q: Name, qtype: RType) {
    || (forall a :: !Cut(origin, records, q, a) && !DnameAbove(origin, records, q, a))
    || (qtype == DS && Cut(origin, records, q, q) && Topmost(origin, records, q, q))
  }

  datatype Outcome =
    | Delegated(cut: Name)
    | Redirected(owner: Name)
    | Exact
    | Synthesized(encloser: Name)
    | EmptyNonTerminal
    | NoSuchName

  /** The algorithm of section 4.3.2 of RFC 1034 with wildcards from the closest
      encloser only (section 3.3.1 of RFC 4592) and DNAME (RFC 6672), as a
      relation between records and outcome. */
  ghost predicate Calls(origin: Name, records: seq<Record>, q: Name, qtype: RType, o: Outcome) {
    match o
    case Delegated(c) =>
      Cut(origin, records, q, c) && Topmost(origin, records, q, c) && !(c == q && qtype == DS)
    case Redirected(d) =>
      DnameAbove(origin, records, q, d) && !Cut(origin, records, q, d) && Topmost(origin, records, q, d)
    case Exact =>
      Local(origin, records, q, qtype) && HasRecords(origin, records, q)
    case Synthesized(ce) =>
      && Local(origin, records, q, qtype) && !Exists(origin, records, q)
      && IsClosestEncloser(origin, records, q, ce) && HasRecords(origin, records, WildcardOf(ce))
    case EmptyNonTerminal =>
      Local(origin, records, q, qtype) && Exists(origin, records, q) && !HasRecords(origin, records, q)
    case NoSuchName =>
      && Local(origin, records, q, qtype) && !Exists(origin, records, q)
      && exists ce :: IsClosestEncloser(origin, records, q, ce) && !HasRecords(origin, records, WildcardOf(ce))
  }

  /** The outcome the zone's walks arrive at. */
  ghost function OutcomeOf(z: Zone, q: Name, qtype: RType): Outcome {
    if ReferralCut(z, q, qtype).Some? then Delegated(ReferralCut(z, q, qtype).value)
    else if DnameOwner(z, q).Some? then Redirected(DnameOwner(z, q).value)
    else if q in z.names then Exact
    else if WildcardSource(z, q).Some? then Synthesized(WildcardSource(z, q).value)
    else if q in z.nodes then EmptyNonTerminal
    else NoSuchName
  }

  // ------------------------------------------- the zone and its records

  lemma {:induction false} SelectedNonempty(records: seq<Record>, o: Name, t: RType)
    ensures Selected(records, o, t) != [] <==> exists r :: r in records && InSet(r, o, t)
  {
    if records != [] {
      var before, r := records[..|records| - 1], records[|records| - 1];
      SelectedNonempty(before, o, t);
      assert forall x :: x in records <==> x in before || x == r;
    }
  }

  /** A set of one record. */
  lemma OnlyRecord(z: Zone, origin: Name, records: seq<Record>, r: Record)
    requires BuiltFrom(z, origin, records) && IsSubdomain(origin, r.owner) && r in records && !r.data.RrsigData?
    requires forall x :: x in records && InSet(x, r.owner, r.Type()) ==> x == r
    ensures r.owner in z.names && z.names[r.owner].Set(r.Type()) == [r]
  {
    var rrset := Selected(records, r.owner, r.Type());
    SelectedNonempty(records, r.owner, r.Type());
    BuildGroups(origin, records, r.owner, r.Type());
    assert InSet(r, r.owner, r.Type());
    forall i | 0 <= i < |rrset| ensures rrset[i] == r { assert rrset[i] in rrset; }
    assert |rrset| > 1 ==> rrset[0].data != rrset[1].data;
  }

  lemma ZoneHas(z: Zone, origin: Name, records: seq<Record>, n: Name, t: RType)
    requires BuiltFrom(z, origin, records)
    ensures z.Has(n, t) <==> Owns(origin, records, n, t)
  {
    BuildGroups(origin, records, n, t);
    SelectedNonempty(records, n, t);
  }

  lemma ZoneOwns(z: Zone, origin: Name, records: seq<Record>, n: Name)
    requires BuiltFrom(z, origin, records)
    ensures n in z.names <==> HasRecords(origin, records, n)
  {
    BuildOwners(origin, records, n);
  }

  /** The set of existing names is exactly what the records make exist. */
  lemma NodesExist(z: Zone, origin: Name, records: seq<Record>, n: Name)
    requires BuiltFrom(z, origin, records)
    ensures n in z.nodes <==> Exists(origin, records, n)
  {
    if n in z.nodes {
      var o, k :| o in z.names.Keys && |origin| <= k <= |o| && n == Suffix(o, k);
      BuildOwners(origin, records, o);
      SuffixOfSuffix(o, k, |origin|);
    }
    if Exists(origin, records, n) {
      var r :| r in records && IsSubdomain(n, r.owner);
      SubdomainTransitive(origin, n, r.owner);
      BuildOwners(origin, records, r.owner);
      assert n == Suffix(r.owner, |n|);
    }
  }

  lemma OriginExists(z: Zone, origin: Name, records: seq<Record>)
    requires BuiltFrom(z, origin, records)
    ensures origin in z.names && origin in z.nodes
    ensures forall n :: n in z.nodes ==> IsSubdomain(origin, n)
  {
    assert Suffix(origin, |origin|) == origin;
    forall n | n in z.nodes ensures IsSubdomain(origin, n) { NodesExist(z, origin, records, n); }
  }

  /** The closest encloser is the longest existing proper ancestor, and the name
      one label below it does not exist. */
  lemma EncloserIsClosest(z: Zone, origin: Name, records: seq<Record>, q: Name)
    requires BuiltFrom(z, origin, records) && IsSubdomain(origin, q) && q !in z.nodes
    ensures var ce := Encloser(z, q);
      && IsClosestEncloser(origin, records, q, ce) && ce in z.nodes
      && NextCloser(q, ce) !in z.nodes && IsSubdomain(NextCloser(q, ce), q)
      && |NextCloser(q, ce)| == |ce| + 1 && IsSubdomain(ce, NextCloser(q, ce))
  {
    OriginExists(z, origin, records);
    var k := EncloserDepth(z, q);
    var ce := Encloser(z, q);
    NodesExist(z, origin, records, ce);
    forall a | IsProperSubdomain(a, q) && Exists(origin, records, a) ensures |a| <= |ce| {
      NodesExist(z, origin, records, a);
      assert a == Suffix(q, |a|);
    }
    assert Suffix(q, |q|) == q;
    AncestorsNest(ce, NextCloser(q, ce), q);
  }

  lemma EncloserDepth(z: Zone, q: Name) returns (k: nat)
    requires IsProperSubdomain(z.origin, q) && z.origin in z.nodes
    ensures k < |q| && Encloser(z, q) == Suffix(q, k) && Suffix(q, k) in z.nodes
    ensures forall j: nat :: k < j < |q| ==> Suffix(q, j) !in z.nodes
  {
    var P := ExistsAt(z, q);
    assert P(|z.origin|);
    k := Greatest(0, |q|, P).value;
    forall j: nat | k < j < |q| ensures Suffix(q, j) !in z.nodes { assert !P(j); }
  }

  /** A name's cut or DNAME at depth `k`, in both vocabularies. */
  lemma DepthsAgree(z: Zone, origin: Name, records: seq<Record>, q: Name, k: nat)
    requires BuiltFrom(z, origin, records) && IsSubdomain(origin, q) && |origin| <= k <= |q|
    ensures CutAt(z, q, k) <==> Cut(origin, records, q, Suffix(q, k))
    ensures DnameAt(z, q, k) <==> DnameAbove(origin, records, q, Suffix(q, k))
  {
    var n := Suffix(q, k);
    AncestorsNest(origin, n, q);
    ZoneHas(z, origin, records, n, NS);
    ZoneHas(z, origin, records, n, DNAME);
    assert n == q <==> k == |q|;
    assert n == origin <==> k == |origin|;
  }

  lemma TopmostAtDepth(z: Zone, origin: Name, records: seq<Record>, q: Name, k: nat)
    requires BuiltFrom(z, origin, records) && IsSubdomain(origin, q) && |origin| <= k <= |q|
    requires forall j: nat :: |origin| <= j < k ==> !CutAt(z, q, j) && !DnameAt(z, q, j)
    ensures Topmost(origin, records, q, Suffix(q, k))
  {
    forall a | Cut(origin, records, q, a) || DnameAbove(origin, records, q, a) ensures k <= |a| {
      assert a == Suffix(q, |a|);
      DepthsAgree(z, origin, records, q, |a|);
    }
  }

  /** The depth of the topmost cut or DNAME, if any. */
  lemma EventDepth(z: Zone, q: Name) returns (k: Option<nat>)
    ensures k == Least(|z.origin|, |q| + 1, CutOrDname(z, q))
    ensures k.Some? ==> |z.origin| <= k.value <= |q| && (CutAt(z, q, k.value) || DnameAt(z, q, k.value))
    ensures forall j: nat :: |z.origin| <= j <= |q| && (k.Some? ==> j < k.value) ==> !CutAt(z, q, j) && !DnameAt(z, q, j)
  {
    var P := CutOrDname(z, q);
    k := Least(|z.origin|, |q| + 1, P);
    forall j: nat | |z.origin| <= j <= |q| && (k.Some? ==> j < k.value)
      ensures !CutAt(z, q, j) && !DnameAt(z, q, j)
    {
      assert !P(j);
    }
  }

  lemma DnameDepth(z: Zone, q: Name) returns (d: Option<nat>)
    ensures DnameOwner(z, q) == if d.Some? && d.value <= |q| then Some(Suffix(q, d.value)) else None
    ensures d.Some? ==> DnameAt(z, q, d.value)
    ensures forall j: nat :: d.Some? && j < d.value ==> !DnameAt(z, q, j)
    ensures d.None? ==> forall j: nat :: !DnameAt(z, q, j)
  {
    var D := DnameTest(z, q);
    d := Least(|z.origin|, |q|, D);
    forall j: nat | |z.origin| <= j < |q| && (d.Some? ==> j < d.value) ensures !DnameAt(z, q, j) {
      assert !D(j);
    }
  }

  /** No cut and no DNAME at any depth. */
  lemma NothingAbove(z: Zone, origin: Name, records: seq<Record>, q: Name)
    requires BuiltFrom(z, origin, records) && IsSubdomain(origin, q)
    requires forall j: nat :: |origin| <= j <= |q| ==> !CutAt(z, q, j) && !DnameAt(z, q, j)
    ensures forall a :: !Cut(origin, records, q, a) && !DnameAbove(origin, records, q, a)
  {
    forall a ensures !Cut(origin, records, q, a) && !DnameAbove(origin, records, q, a) {
      if IsSubdomain(a, q) && IsSubdomain(origin, a) {
        assert a == Suffix(q, |a|);
        DepthsAgree(z, origin, records, q, |a|);
      }
    }
  }

  /** Where the walks find no referral and no redirection, the records call for none. */
  lemma LocalAgrees(z: Zone, origin: Name, records: seq<Record>, q: Name, qtype: RType)
    requires BuiltFrom(z, origin, records) && IsSubdomain(origin, q)
    requires ReferralCut(z, q, qtype).None? && DnameOwner(z, q).None?
    ensures Local(origin, records, q, qtype)
  {
    var k := EventDepth(z, q);
    if k.None? {
      NothingAbove(z, origin, records, q);
    } else {
      var d := DnameDepth(z, q);
      assert d.None?;
      TopmostAtDepth(z, origin, records, q, |q|);
      DepthsAgree(z, origin, records, q, |q|);
      assert Suffix(q, |q|) == q;
    }
  }

  lemma DelegatedAgrees(z: Zone, origin: Name, records: seq<Record>, q: Name, qtype: RType)
    requires BuiltFrom(z, origin, records) && IsSubdomain(origin, q)
    requires ReferralCut(z, q, qtype).Some?
    ensures Calls(origin, records, q, qtype, Delegated(ReferralCut(z, q, qtype).value))
  {
    var k := EventDepth(z, q);
    TopmostAtDepth(z, origin, records, q, k.value);
    DepthsAgree(z, origin, records, q, k.value);
    assert Suffix(q, k.value) == q <==> k.value == |q|;
  }

  lemma RedirectedAgrees(z: Zone, origin: Name, records: seq<Record>, q: Name, qtype: RType)
    requires BuiltFrom(z, origin, records) && IsSubdomain(origin, q)
    requires ReferralCut(z, q, qtype).None? && DnameOwner(z, q).Some?
    ensures Calls(origin, records, q, qtype, Redirected(DnameOwner(z, q).value))
  {
    var d := DnameDepth(z, q);
    var k := EventDepth(z, q);
    assert k.value <= d.value;
    assert !CutAt(z, q, k.value);
    assert k == d;
    TopmostAtDepth(z, origin, records, q, k.value);
    DepthsAgree(z, origin, records, q, k.value);
  }

  /** For every record set and every in-zone query the walks over the zone
      arrive at an outcome the records call for. */
  lemma OutcomeIsCalledFor(z: Zone, origin: Name, records: seq<Record>, q: Name, qtype: RType)
    requires BuiltFrom(z, origin, records) && IsSubdomain(origin, q)
    ensures Calls(origin, records, q, qtype, OutcomeOf(z, q, qtype))
  {
    if ReferralCut(z, q, qtype).Some? {
      DelegatedAgrees(z, origin, records, q, qtype);
    } else if DnameOwner(z, q).Some? {
      RedirectedAgrees(z, origin, records, q, qtype);
    } else {
      LocalAgrees(z, origin, records, q, qtype);
      ZoneOwns(z, origin, records, q);
      NodesExist(z, origin, records, q);
      if q !in z.names && q !in z.nodes {
        EncloserIsClosest(z, origin, records, q);
        ZoneOwns(z, origin, records, WildcardOf(Encloser(z, q)));
      }
    }
  }

  lemma SameAncestor(a: Name, b: Name, q: Name)
    requires IsSubdomain(a, q) && IsSubdomain(b, q) && |a| == |b|
    ensures a == b
  {
  }

  /** The records call for one outcome only. */
  lemma OutcomeIsUnique(origin: Name, records: seq<Record>, q: Name, qtype: RType, o: Outcome, p: Outcome)
    requires Calls(origin, records, q, qtype, o) && Calls(origin, records, q, qtype, p)
    ensures o == p
  {
    if (o.Delegated? || o.Redirected?) && (p.Delegated? || p.Redirected?) {
      var a := if o.Delegated? then o.cut else o.owner;
      var b := if p.Delegated? then p.cut else p.owner;
      SameAncestor(a, b, q);
    } else if o.Delegated? || o.Redirected? {
      var a := if o.Delegated? then o.cut else o.owner;
      LocalExcludes(origin, records, q, qtype, a);
      assert false;
    } else if p.Delegated? || p.Redirected? {
      var b := if p.Delegated? then p.cut else p.owner;
      LocalExcludes(origin, records, q, qtype, b);
      assert false;
    } else {
      EncloserIsUnique(origin, records, q);
      if HasRecords(origin, records, q) {
        var r :| r in records && r.owner == q;
        assert Suffix(q, |q|) == q;
        assert IsSubdomain(q, r.owner);
        assert Exists(origin, records, q);
      }
    }
  }

  lemma LocalExcludes(origin: Name, records: seq<Record>, q: Name, qtype: RType, a: Name)
    requires Local(origin, records, q, qtype) && IsSubdomain(a, q)
    requires Cut(origin, records, q, a) || DnameAbove(origin, records, q, a)
    requires Topmost(origin, records, q, a)
    ensures qtype == DS && a == q && Cut(origin, records, q, q)
  {
    assert Cut(origin, records, q, q) ==> |a| <= |q|;
    if |a| == |q| { SameAncestor(a, q, q); }
  }

  lemma EncloserIsUnique(origin: Name, records: seq<Record>, q: Name)
    ensures forall a, b ::
      IsClosestEncloser(origin, records, q, a) && IsClosestEncloser(origin, records, q, b) ==> a == b
  {
    forall a, b | IsClosestEncloser(origin, records, q, a) && IsClosestEncloser(origin, records, q, b)
      ensures a == b
    {
      SameAncestor(a, b, q);
    }
  }
}
