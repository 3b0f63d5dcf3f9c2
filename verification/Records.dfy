/** Resource records and the per-owner data of an in-memory zone. */
module Records {
  import opened Names

  datatype RType =
    | A | AAAA | NS | MX | SRV | SOA | CNAME | DNAME | DS
    | NSEC | NSEC3 | RRSIG | ANY | OtherType(code: nat)

  /** Record data. `DnameData` holds no target when its wire form does not decode. */
  datatype RData =
    | SoaData(serial: nat, refresh: int, retry: int, expire: int, minimum: nat)
    | CnameData(cname: Name)
    | DnameData(redirect: Option<Name>)
    | NsData(server: Name)
    | MxData(preference: nat, exchange: Name)
    | SrvData(port: nat, host: Name)
    | RrsigData(covered: RType, signature: nat)
    | Opaque(rtype: RType, bits: nat)
  {
    function Type(): RType {
      match this
      case SoaData(_, _, _, _, _) => SOA
      case CnameData(_) => CNAME
      case DnameData(_) => DNAME
      case NsData(_) => NS
      case MxData(_, _) => MX
      case SrvData(_, _) => SRV
      case RrsigData(_, _) => RRSIG
      case Opaque(t, _) => t
    }
  }

  datatype Record = Record(owner: Name, ttl: nat, data: RData) {
    function Type(): RType { data.Type() }
  }

  /** Record sets by type, and signatures by the type they cover. */
  datatype NameData = NameData(rrsets: map<RType, seq<Record>>, rrsigs: map<RType, seq<Record>>) {
    function Set(t: RType): seq<Record> { if t in rrsets then rrsets[t] else [] }
    function Sigs(t: RType): seq<Record> { if t in rrsigs then rrsigs[t] else [] }
    predicate Has(t: RType) { Set(t) != [] }

    /** A record set, followed by its signatures when the client wants them. */
    function WithSigs(t: RType, dnssec: bool): seq<Record> {
      if t in rrsets then Set(t) + (if dnssec then Sigs(t) else []) else []
    }
  }

  type Owners = map<Name, NameData>

  function DataAt(names: Owners, n: Name): NameData {
    if n in names then names[n] else NameData(map[], map[])
  }

  // ----------------------------------------------------------- building

  predicate SameDataIn(rs: seq<Record>, d: RData) {
    exists x :: x in rs && x.data == d
  }

  /** Adds one in-zone record; a record whose data is already present is dropped. */
  function AddTo(nd: NameData, r: Record): NameData {
    if r.data.RrsigData? then
      nd.(rrsigs := nd.rrsigs[r.data.covered := nd.Sigs(r.data.covered) + [r]])
    else
      nd.(rrsets := nd.rrsets[r.Type() :=
        if SameDataIn(nd.Set(r.Type()), r.data) then nd.Set(r.Type()) else nd.Set(r.Type()) + [r]])
  }

  function AddRecord(origin: Name, names: Owners, r: Record): Owners {
    if IsSubdomain(origin, r.owner) then names[r.owner := AddTo(DataAt(names, r.owner), r)] else names
  }

  function BuildNames(origin: Name, records: seq<Record>): Owners {
    if records == [] then map[]
    else AddRecord(origin, BuildNames(origin, records[..|records| - 1]), records[|records| - 1])
  }

  // ------------------------------------- what a build means, record by record

  predicate InSet(r: Record, o: Name, t: RType) {
    r.owner == o && !r.data.RrsigData? && r.Type() == t
  }

  predicate InSigs(r: Record, o: Name, t: RType) {
    r.owner == o && r.data.RrsigData? && r.data.covered == t
  }

  /** The records of set (o, t), in order, the first of each data value kept. */
  function Selected(records: seq<Record>, o: Name, t: RType): (s: seq<Record>)
    ensures forall x :: x in s ==> x in records && InSet(x, o, t)
    ensures forall i, j :: 0 <= i < j < |s| ==> s[i].data != s[j].data
  {
    if records == [] then []
    else
      var before := Selected(records[..|records| - 1], o, t);
      var r := records[|records| - 1];
      if InSet(r, o, t) && !SameDataIn(before, r.data) then before + [r] else before
  }

  function SelectedSigs(records: seq<Record>, o: Name, t: RType): (s: seq<Record>)
    ensures forall x :: x in s ==> x in records && InSigs(x, o, t)
  {
    if records == [] then []
    else
      var before := SelectedSigs(records[..|records| - 1], o, t);
      var r := records[|records| - 1];
      if InSigs(r, o, t) then before + [r] else before
  }

  /** The `i`th record is the first of its set with its data. */
  ghost predicate FirstOfItsData(records: seq<Record>, o: Name, t: RType, i: nat) {
    && i < |records| && InSet(records[i], o, t)
    && forall j :: 0 <= j < i && InSet(records[j], o, t) ==> records[j].data != records[i].data
  }

  /** A set holds just the records that are the first with their data; nothing is lost. */
  lemma {:induction false} SelectedIs(records: seq<Record>, o: Name, t: RType, x: Record)
    ensures x in Selected(records, o, t) <==> exists i: nat :: FirstOfItsData(records, o, t, i) && records[i] == x
  {
    if records != [] {
      var n := |records| - 1;
      var before := records[..n];
      SelectedIs(before, o, t, x);
      LastSelected(records, o, t);
      if i: nat :| FirstOfItsData(records, o, t, i) && records[i] == x {
        if i < n { FirstOfPrefix(records, o, t, i); }
      }
      if i: nat :| FirstOfItsData(before, o, t, i) && before[i] == x {
        FirstOfPrefix(records, o, t, i);
        assert records[i] == x;
      }
    }
  }

  lemma FirstOfPrefix(records: seq<Record>, o: Name, t: RType, i: nat)
    requires i < |records| - 1
    ensures FirstOfItsData(records[..|records| - 1], o, t, i) <==> FirstOfItsData(records, o, t, i)
    ensures records[..|records| - 1][i] == records[i]
  {
    assert forall j :: 0 <= j <= i ==> records[..|records| - 1][j] == records[j];
  }

  /** The last record is added exactly if it is the first with its data. */
  lemma LastSelected(records: seq<Record>, o: Name, t: RType)
    requires records != []
    ensures var n := |records| - 1;
      Selected(records, o, t) == Selected(records[..n], o, t) + (if FirstOfItsData(records, o, t, n) then [records[n]] else [])
  {
    var n := |records| - 1;
    var before := records[..n];
    DataSelected(before, o, t, records[n].data);
    assert forall j :: 0 <= j < n ==> before[j] == records[j];
    assert Selected(before, o, t) + [] == Selected(before, o, t);
  }

  lemma {:induction false} DataSelected(records: seq<Record>, o: Name, t: RType, d: RData)
    ensures SameDataIn(Selected(records, o, t), d) <==> exists j :: 0 <= j < |records| && InSet(records[j], o, t) && records[j].data == d
  {
    if records != [] {
      var n := |records| - 1;
      var before, r := records[..n], records[n];
      DataSelected(before, o, t, d);
      assert forall j :: 0 <= j < n ==> before[j] == records[j];
      var was, now := Selected(before, o, t), Selected(records, o, t);
      assert forall x :: x in was ==> x in now;
      assert forall x :: x in now ==> x in was || x == r;
      if InSet(r, o, t) && r.data == d {
        assert SameDataIn(was, d) || r in now;
      }
    }
  }

  /** And every signature of a set is kept, in order. */
  lemma {:induction false} SelectedSigsIs(records: seq<Record>, o: Name, t: RType, x: Record)
    ensures multiset(SelectedSigs(records, o, t))[x] == if InSigs(x, o, t) then multiset(records)[x] else 0
  {
    if records != [] {
      var before, r := records[..|records| - 1], records[|records| - 1];
      SelectedSigsIs(before, o, t, x);
      assert records == before + [r];
    }
  }

  /** Every stored set is non-empty, and so is the data of every owner. */
  ghost predicate NoHollow(names: Owners) {
    forall o :: o in names ==>
      && (forall t :: t in names[o].rrsets ==> names[o].rrsets[t] != [])
      && (forall t :: t in names[o].rrsigs ==> names[o].rrsigs[t] != [])
      && (names[o].rrsets != map[] || names[o].rrsigs != map[])
  }

  /** What adding one record does to the set and signatures at (o, t). */
  lemma AddRecordAt(origin: Name, names: Owners, r: Record, o: Name, t: RType)
    ensures var after := DataAt(AddRecord(origin, names, r), o);
      && after.Set(t) == (
           if IsSubdomain(origin, o) && InSet(r, o, t) && !SameDataIn(DataAt(names, o).Set(t), r.data)
           then DataAt(names, o).Set(t) + [r] else DataAt(names, o).Set(t))
      && after.Sigs(t) == (
           if IsSubdomain(origin, o) && InSigs(r, o, t)
           then DataAt(names, o).Sigs(t) + [r] else DataAt(names, o).Sigs(t))
  {
  }

  /** Pointwise, the owner map is the grouping of the in-zone records. */
  lemma {:induction false} BuildGroups(origin: Name, records: seq<Record>, o: Name, t: RType)
    ensures DataAt(BuildNames(origin, records), o).Set(t) ==
      if IsSubdomain(origin, o) then Selected(records, o, t) else []
    ensures DataAt(BuildNames(origin, records), o).Sigs(t) ==
      if IsSubdomain(origin, o) then SelectedSigs(records, o, t) else []
  {
    if records != [] {
      var before := records[..|records| - 1];
      BuildGroups(origin, before, o, t);
      AddRecordAt(origin, BuildNames(origin, before), records[|records| - 1], o, t);
    }
  }

  lemma {:induction false} BuildNoHollow(origin: Name, records: seq<Record>)
    ensures NoHollow(BuildNames(origin, records))
  {
    if records != [] {
      var before := BuildNames(origin, records[..|records| - 1]);
      BuildNoHollow(origin, records[..|records| - 1]);
      var r := records[|records| - 1];
      if IsSubdomain(origin, r.owner) {
        var nd := AddTo(DataAt(before, r.owner), r);
        if r.data.RrsigData? {
          assert r.data.covered in nd.rrsigs;
        } else {
          assert r.Type() in nd.rrsets;
        }
      }
    }
  }

  /** An owner has data exactly when some in-zone record names it. */
  lemma {:induction false} BuildOwners(origin: Name, records: seq<Record>, o: Name)
    ensures o in BuildNames(origin, records) <==>
      IsSubdomain(origin, o) && exists i :: 0 <= i < |records| && records[i].owner == o
  {
    if records != [] {
      var last := |records| - 1;
      BuildOwners(origin, records[..last], o);
      if o in BuildNames(origin, records) && o in BuildNames(origin, records[..last]) {
        var i :| 0 <= i < last && records[..last][i].owner == o;
        assert records[i].owner == o;
      }
      if exists i :: 0 <= i < |records| && records[i].owner == o {
        var i :| 0 <= i < |records| && records[i].owner == o;
        if i < last { assert records[..last][i].owner == o; }
      }
    }
  }

  /** An owner map without hollow parts is fixed by its sets and signatures. */
  lemma NamesExtensional(a: Owners, b: Owners)
    requires NoHollow(a) && NoHollow(b)
    requires forall o, t :: DataAt(a, o).Set(t) == DataAt(b, o).Set(t)
    requires forall o, t :: DataAt(a, o).Sigs(t) == DataAt(b, o).Sigs(t)
    ensures a == b
  {
    forall o | o in a ensures o in b { OwnerShared(a, b, o); }
    forall o | o in b ensures o in a { OwnerShared(b, a, o); }
    forall o | o in a ensures a[o] == b[o] {
      forall t ensures t in a[o].rrsets <==> t in b[o].rrsets {
        assert DataAt(a, o).Set(t) == DataAt(b, o).Set(t);
      }
      forall t ensures t in a[o].rrsigs <==> t in b[o].rrsigs {
        assert DataAt(a, o).Sigs(t) == DataAt(b, o).Sigs(t);
      }
      forall t | t in a[o].rrsets ensures a[o].rrsets[t] == b[o].rrsets[t] {
        assert DataAt(a, o).Set(t) == DataAt(b, o).Set(t);
      }
      forall t | t in a[o].rrsigs ensures a[o].rrsigs[t] == b[o].rrsigs[t] {
        assert DataAt(a, o).Sigs(t) == DataAt(b, o).Sigs(t);
      }
      assert a[o].rrsets == b[o].rrsets;
      assert a[o].rrsigs == b[o].rrsigs;
    }
  }

  lemma OwnerShared(a: Owners, b: Owners, o: Name)
    requires NoHollow(a) && o in a
    requires forall t :: DataAt(a, o).Set(t) == DataAt(b, o).Set(t)
    requires forall t :: DataAt(a, o).Sigs(t) == DataAt(b, o).Sigs(t)
    ensures o in b
  {
    if a[o].rrsets != map[] {
      var t :| t in a[o].rrsets;
      assert DataAt(a, o).Set(t) == DataAt(b, o).Set(t);
    } else {
      var t :| t in a[o].rrsigs;
      assert DataAt(a, o).Sigs(t) == DataAt(b, o).Sigs(t);
    }
  }
}
