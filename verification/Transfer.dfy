/** Full zone transfer (AXFR, section 2.2 of RFC 5936): dumping a zone, splitting
    it into messages, collecting the messages and rebuilding the zone. */
module Transfer {
  import opened Names
  import opened Records
  import opened Order
  import opened Zones

  // ------------------------------------------------------------- filters

  /** The records of set (o, t), in order. */
  ghost function Filter(rs: seq<Record>, o: Name, t: RType): seq<Record> {
    if rs == [] then []
    else Filter(rs[..|rs| - 1], o, t) + (if InSet(rs[|rs| - 1], o, t) then [rs[|rs| - 1]] else [])
  }

  /** The signatures of set (o, t), in order. */
  ghost function FilterSigs(rs: seq<Record>, o: Name, t: RType): seq<Record> {
    if rs == [] then []
    else FilterSigs(rs[..|rs| - 1], o, t) + (if InSigs(rs[|rs| - 1], o, t) then [rs[|rs| - 1]] else [])
  }

  lemma {:induction false} FilterMember(rs: seq<Record>, o: Name, t: RType, i: nat)
    requires i < |rs| && InSet(rs[i], o, t)
    ensures rs[i] in Filter(rs, o, t)
  {
    if i < |rs| - 1 {
      FilterMember(rs[..|rs| - 1], o, t, i);
    }
  }

  lemma {:induction false} FilterConcat(a: seq<Record>, b: seq<Record>, o: Name, t: RType)
    ensures Filter(a + b, o, t) == Filter(a, o, t) + Filter(b, o, t)
    ensures FilterSigs(a + b, o, t) == FilterSigs(a, o, t) + FilterSigs(b, o, t)
  {
    if b == [] {
      assert a + b == a;
    } else {
      assert (a + b)[..|a + b| - 1] == a + b[..|b| - 1];
      FilterConcat(a, b[..|b| - 1], o, t);
    }
  }

  /** A record set is all of itself and nothing of any other set. */
  lemma {:induction false} FilterOfSet(rs: seq<Record>, o: Name, t: RType, o': Name, t': RType)
    requires forall i :: 0 <= i < |rs| ==> InSet(rs[i], o, t)
    ensures Filter(rs, o', t') == (if o == o' && t == t' then rs else [])
    ensures FilterSigs(rs, o', t') == []
  {
    if rs != [] {
      var before, r := rs[..|rs| - 1], rs[|rs| - 1];
      assert rs == before + [r] && InSet(r, o, t);
      FilterOfSet(before, o, t, o', t');
    }
  }

  lemma {:induction false} FilterOfSigs(rs: seq<Record>, o: Name, t: RType, o': Name, t': RType)
    requires forall i :: 0 <= i < |rs| ==> InSigs(rs[i], o, t)
    ensures Filter(rs, o', t') == []
    ensures FilterSigs(rs, o', t') == (if o == o' && t == t' then rs else [])
  {
    if rs != [] {
      var before, r := rs[..|rs| - 1], rs[|rs| - 1];
      assert rs == before + [r] && InSigs(r, o, t);
      FilterOfSigs(before, o, t, o', t');
    }
  }

  ghost predicate DistinctData(rs: seq<Record>) {
    forall i, j :: 0 <= i < j < |rs| ==> rs[i].data != rs[j].data
  }

  lemma {:induction false} SelectedIsFilter(rs: seq<Record>, o: Name, t: RType)
    requires DistinctData(Filter(rs, o, t))
    ensures Selected(rs, o, t) == Filter(rs, o, t)
  {
    if rs != [] {
      var before, r := rs[..|rs| - 1], rs[|rs| - 1];
      var f := Filter(before, o, t);
      assert Filter(rs, o, t) == f + (if InSet(r, o, t) then [r] else []);
      assert forall i :: 0 <= i < |f| ==> f[i] == Filter(rs, o, t)[i];
      SelectedIsFilter(before, o, t);
      if InSet(r, o, t) {
        assert Filter(rs, o, t)[|f|] == r;
        assert !SameDataIn(f, r.data);
      }
    }
  }

  lemma {:induction false} SelectedSigsIsFilter(rs: seq<Record>, o: Name, t: RType)
    ensures SelectedSigs(rs, o, t) == FilterSigs(rs, o, t)
  {
    if rs != [] { SelectedSigsIsFilter(rs[..|rs| - 1], o, t); }
  }

  // ------------------------------------------------------------- the dump

  function ApexSoa(z: Zone): seq<Record> { DataAt(z.names, z.origin).Set(SOA) }

  /** What the dump holds beyond its first record at (o, t). */
  function Dumped(z: Zone, o: Name, t: RType): seq<Record> {
    if o == z.origin && t == SOA then [] else DataAt(z.names, o).Set(t)
  }

  /** The apex SOA first, then every other set and every signature, in some order. */
  ghost predicate IsDump(z: Zone, out: seq<Record>) {
    && ApexSoa(z) != [] && out != [] && out[0] == ApexSoa(z)[0]
    && (forall o, t :: Filter(out[1..], o, t) == Dumped(z, o, t))
    && (forall o, t :: FilterSigs(out[1..], o, t) == DataAt(z.names, o).Sigs(t))
  }

  ghost predicate FiledAt(names: Owners, o: Name, t: RType) {
    var rrset, sigs := DataAt(names, o).Set(t), DataAt(names, o).Sigs(t);
    && (forall i :: 0 <= i < |rrset| ==> InSet(rrset[i], o, t))
    && (forall i :: 0 <= i < |sigs| ==> InSigs(sigs[i], o, t))
    && DistinctData(rrset)
  }

  /** Sets and signatures are filed under their own owner and type. */
  ghost predicate Filed(names: Owners) {
    forall o, t :: FiledAt(names, o, t)
  }

  lemma BuiltIsFiled(z: Zone, origin: Name, records: seq<Record>)
    requires BuiltFrom(z, origin, records)
    ensures Filed(z.names) && NoHollow(z.names) && ApexSoa(z) != []
  {
    forall o, t ensures FiledAt(z.names, o, t) {
      BuildGroups(origin, records, o, t);
    }
    BuildNoHollow(origin, records);
  }

  /** `out` holds, at every (o, t), the sets `S` and the signatures `G` say. */
  ghost predicate Holds(out: seq<Record>, S: (Name, RType) -> seq<Record>, G: (Name, RType) -> seq<Record>) {
    forall o, t {:trigger Filter(out, o, t)} {:trigger FilterSigs(out, o, t)} ::
      Filter(out, o, t) == S(o, t) && FilterSigs(out, o, t) == G(o, t)
  }

  ghost function SetsOf(z: Zone, owners: set<Name>, last: Name, types: set<RType>): (Name, RType) -> seq<Record> {
    (o, t) => if o in owners || (o == last && t in types) then Dumped(z, o, t) else []
  }

  ghost function SigsOf(z: Zone, owners: set<Name>, last: Name, types: set<RType>): (Name, RType) -> seq<Record> {
    (o, t) => if o in owners || (o == last && t in types) then DataAt(z.names, o).Sigs(t) else []
  }

  lemma HoldsAt(out: seq<Record>, S: (Name, RType) -> seq<Record>, G: (Name, RType) -> seq<Record>, o: Name, t: RType)
    requires Holds(out, S, G)
    ensures Filter(out, o, t) == S(o, t) && FilterSigs(out, o, t) == G(o, t)
  {
  }

  lemma AppendSet(z: Zone, out: seq<Record>, owners: set<Name>, name: Name, types: set<RType>, sigs: set<RType>, t: RType)
    requires Filed(z.names) && name !in owners && t !in types
    requires Holds(out, SetsOf(z, owners, name, types), SigsOf(z, owners, name, sigs))
    ensures Holds(out + Dumped(z, name, t), SetsOf(z, owners, name, types + {t}), SigsOf(z, owners, name, sigs))
  {
    assert FiledAt(z.names, name, t);
    var more := Dumped(z, name, t);
    forall o', t'
      ensures Filter(out + more, o', t') == SetsOf(z, owners, name, types + {t})(o', t')
      ensures FilterSigs(out + more, o', t') == SigsOf(z, owners, name, sigs)(o', t')
    {
      AppendSetAt(out, more, name, t, o', t');
      HoldsAt(out, SetsOf(z, owners, name, types), SigsOf(z, owners, name, sigs), o', t');
      assert o' == name && t' == t ==> Filter(out, o', t') == [] && [] + more == more;
    }
  }

  lemma AppendSetAt(out: seq<Record>, more: seq<Record>, name: Name, t: RType, o: Name, u: RType)
    requires forall i :: 0 <= i < |more| ==> InSet(more[i], name, t)
    ensures Filter(out + more, o, u) == (if o == name && u == t then Filter(out, o, u) + more else Filter(out, o, u))
    ensures FilterSigs(out + more, o, u) == FilterSigs(out, o, u)
  {
    FilterConcat(out, more, o, u);
    FilterOfSet(more, name, t, o, u);
  }

  lemma AppendSigs(z: Zone, out: seq<Record>, owners: set<Name>, name: Name, types: set<RType>, sigs: set<RType>, t: RType)
    requires Filed(z.names) && name !in owners && t !in sigs
    requires Holds(out, SetsOf(z, owners, name, types), SigsOf(z, owners, name, sigs))
    ensures Holds(out + DataAt(z.names, name).Sigs(t), SetsOf(z, owners, name, types), SigsOf(z, owners, name, sigs + {t}))
  {
    assert FiledAt(z.names, name, t);
    var more := DataAt(z.names, name).Sigs(t);
    forall o', t'
      ensures Filter(out + more, o', t') == SetsOf(z, owners, name, types)(o', t')
      ensures FilterSigs(out + more, o', t') == SigsOf(z, owners, name, sigs + {t})(o', t')
    {
      AppendSigsAt(out, more, name, t, o', t');
      HoldsAt(out, SetsOf(z, owners, name, types), SigsOf(z, owners, name, sigs), o', t');
      assert o' == name && t' == t ==> FilterSigs(out, o', t') == [] && [] + more == more;
    }
  }

  lemma AppendSigsAt(out: seq<Record>, more: seq<Record>, name: Name, t: RType, o: Name, u: RType)
    requires forall i :: 0 <= i < |more| ==> InSigs(more[i], name, t)
    ensures FilterSigs(out + more, o, u) == (if o == name && u == t then FilterSigs(out, o, u) + more else FilterSigs(out, o, u))
    ensures Filter(out + more, o, u) == Filter(out, o, u)
  {
    FilterConcat(out, more, o, u);
    FilterOfSigs(more, name, t, o, u);
  }

  /** Appends the record sets of one owner, its types taken in any order. */
  method PushSets(z: Zone, before: seq<Record>, ghost owners: set<Name>, name: Name) returns (out: seq<Record>)
    requires Filed(z.names) && name in z.names && name !in owners
    requires Holds(before, SetsOf(z, owners, name, {}), SigsOf(z, owners, name, {}))
    ensures Holds(out, SetsOf(z, owners, name, z.names[name].rrsets.Keys), SigsOf(z, owners, name, {}))
  {
    out := before;
    var types := z.names[name].rrsets.Keys;
    ghost var done: set<RType> := {};
    while types != {}
      invariant types <= z.names[name].rrsets.Keys && done == z.names[name].rrsets.Keys - types
      invariant Holds(out, SetsOf(z, owners, name, done), SigsOf(z, owners, name, {}))
      decreases types
    {
      var t :| t in types;
      types := types - {t};
      AppendSet(z, out, owners, name, done, {}, t);
      done := done + {t};
      if t == SOA && name == z.origin {
        assert out + [] == out;
        continue;
      }
      out := out + z.names[name].rrsets[t];
    }
    assert done == z.names[name].rrsets.Keys;
  }

  /** Appends the signatures of one owner. */
  method PushSigs(z: Zone, before: seq<Record>, ghost owners: set<Name>, name: Name) returns (out: seq<Record>)
    requires Filed(z.names) && name in z.names && name !in owners
    requires Holds(before, SetsOf(z, owners, name, z.names[name].rrsets.Keys), SigsOf(z, owners, name, {}))
    ensures Holds(out, SetsOf(z, owners, name, z.names[name].rrsets.Keys), SigsOf(z, owners, name, z.names[name].rrsigs.Keys))
  {
    out := before;
    var covered := z.names[name].rrsigs.Keys;
    ghost var done: set<RType> := {};
    while covered != {}
      invariant covered <= z.names[name].rrsigs.Keys && done == z.names[name].rrsigs.Keys - covered
      invariant Holds(out, SetsOf(z, owners, name, z.names[name].rrsets.Keys), SigsOf(z, owners, name, done))
      decreases covered
    {
      var t :| t in covered;
      covered := covered - {t};
      AppendSigs(z, out, owners, name, z.names[name].rrsets.Keys, done, t);
      done := done + {t};
      out := out + z.names[name].rrsigs[t];
    }
    assert done == z.names[name].rrsigs.Keys;
  }

  /** With all its types done, an owner joins the finished ones. */
  lemma OwnerDone(z: Zone, out: seq<Record>, owners: set<Name>, name: Name, next: Name)
    requires name in z.names
    requires Holds(out, SetsOf(z, owners, name, z.names[name].rrsets.Keys), SigsOf(z, owners, name, z.names[name].rrsigs.Keys))
    ensures Holds(out, SetsOf(z, owners + {name}, next, {}), SigsOf(z, owners + {name}, next, {}))
  {
    forall o, t
      ensures Filter(out, o, t) == SetsOf(z, owners + {name}, next, {})(o, t)
      ensures FilterSigs(out, o, t) == SigsOf(z, owners + {name}, next, {})(o, t)
    {
      assert Filter(out, o, t) == SetsOf(z, owners, name, z.names[name].rrsets.Keys)(o, t);
      assert FilterSigs(out, o, t) == SigsOf(z, owners, name, z.names[name].rrsigs.Keys)(o, t);
      if o == name && t !in z.names[name].rrsigs { assert DataAt(z.names, o).Sigs(t) == []; }
      if o == name && t !in z.names[name].rrsets { assert Dumped(z, o, t) == []; }
    }
  }

  method AllRecords(z: Zone) returns (out: seq<Record>)
    requires Filed(z.names) && ApexSoa(z) != []
    ensures IsDump(z, out)
  {
    var rest: seq<Record> := [];
    var todo := z.names.Keys;
    ghost var owners: set<Name> := {};
    while todo != {}
      invariant todo <= z.names.Keys && owners == z.names.Keys - todo
      invariant forall next {:trigger SetsOf(z, owners, next, {})} ::
        Holds(rest, SetsOf(z, owners, next, {}), SigsOf(z, owners, next, {}))
      decreases todo
    {
      var name :| name in todo;
      assert Holds(rest, SetsOf(z, owners, name, {}), SigsOf(z, owners, name, {}));
      rest := PushSets(z, rest, owners, name);
      rest := PushSigs(z, rest, owners, name);
      forall next ensures Holds(rest, SetsOf(z, owners + {name}, next, {}), SigsOf(z, owners + {name}, next, {})) {
        OwnerDone(z, rest, owners, name, next);
      }
      todo := todo - {name};
      owners := owners + {name};
    }
    assert owners == z.names.Keys;
    DumpIsWhole(z, rest, owners);
    out := [ApexSoa(z)[0]] + rest;
    assert out[1..] == rest;
  }

  lemma DumpIsWhole(z: Zone, rest: seq<Record>, owners: set<Name>)
    requires owners == z.names.Keys
    requires Holds(rest, SetsOf(z, owners, [], {}), SigsOf(z, owners, [], {}))
    ensures forall o, t :: Filter(rest, o, t) == Dumped(z, o, t)
    ensures forall o, t :: FilterSigs(rest, o, t) == DataAt(z.names, o).Sigs(t)
  {
  }

  // -------------------------------------------------------- the messages

  /** One transfer message; only the first carries the question. */
  datatype Part = Part(answers: seq<Record>, question: bool, noError: bool)

  const MSG_LIMIT := 60_000
  const EMPTY_SIZE := 76

  function Joined(parts: seq<Part>): seq<Record> {
    if parts == [] then [] else Joined(parts[..|parts| - 1]) + parts[|parts| - 1].answers
  }

  function Estimate(rs: seq<Record>, size: Record -> nat): nat {
    if rs == [] then EMPTY_SIZE else Estimate(rs[..|rs| - 1], size) + size(rs[|rs| - 1])
  }

  /** A message is never empty, and stays under the limit unless one record alone exceeds it. */
  ghost predicate Fits(p: Part, size: Record -> nat) {
    p.answers != [] && (|p.answers| > 1 ==> Estimate(p.answers, size) <= MSG_LIMIT)
  }

  function FirstSoa(rs: seq<Record>): (i: nat)
    ensures i <= |rs|
    ensures i < |rs| ==> rs[i].Type() == SOA
    ensures forall j :: 0 <= j < i ==> rs[j].Type() != SOA
  {
    if rs == [] then 0 else if rs[0].Type() == SOA then 0 else 1 + FirstSoa(rs[1..])
  }

  /** SOA, the other records in order, SOA again. */
  function Stream(rs: seq<Record>): seq<Record>
    requires FirstSoa(rs) < |rs|
  {
    var i := FirstSoa(rs);
    [rs[i]] + (rs[..i] + rs[i + 1..]) + [rs[i]]
  }

  /** The messages carry the stream, in order, under the limit. */
  ghost predicate Carries(parts: seq<Part>, stream: seq<Record>, size: Record -> nat) {
    && Joined(parts) == stream
    && (forall i :: 0 <= i < |parts| ==> Fits(parts[i], size) && parts[i].noError && parts[i].question == (i == 0))
  }

  lemma CarriesOneMore(out: seq<Part>, cur: seq<Record>, size: Record -> nat)
    requires Carries(out, Joined(out), size) && Fits(Part(cur, |out| == 0, true), size)
    ensures var next := out + [Part(cur, |out| == 0, true)];
      Joined(next) == Joined(out) + cur && Carries(next, Joined(next), size)
  {
    var next := out + [Part(cur, |out| == 0, true)];
    assert next[..|out|] == out;
  }

  lemma EstimatePush(rs: seq<Record>, r: Record, size: Record -> nat)
    ensures Estimate(rs + [r], size) == Estimate(rs, size) + size(r)
  {
    assert (rs + [r])[..|rs|] == rs;
  }

  /** The first record of `next` would not have fitted into `p`. */
  ghost predicate Overfull(p: Part, next: seq<Record>, size: Record -> nat) {
    next != [] && Estimate(p.answers, size) + size(next[0]) > MSG_LIMIT
  }

  /** No message was closed early. */
  ghost predicate Packed(parts: seq<Part>, size: Record -> nat) {
    forall i, j :: 0 <= i && j == i + 1 < |parts| ==> Overfull(parts[i], parts[j].answers, size)
  }

  ghost predicate Packing(out: seq<Part>, cur: seq<Record>, size: Record -> nat) {
    Packed(out, size) && (out != [] ==> Overfull(out[|out| - 1], cur, size))
  }

  lemma PackedEnd(out: seq<Part>, cur: seq<Record>, size: Record -> nat)
    requires Packing(out, cur, size)
    ensures Packed(out + [Part(cur, |out| == 0, true)], size)
  {
    var next := out + [Part(cur, |out| == 0, true)];
    forall i, j | 0 <= i && j == i + 1 < |next| ensures Overfull(next[i], next[j].answers, size) {
      if j < |out| { assert Overfull(out[i], out[j].answers, size); }
    }
  }

  lemma PackingNext(out: seq<Part>, cur: seq<Record>, r: Record, size: Record -> nat)
    requires Packing(out, cur, size)
    ensures cur != [] && Estimate(cur, size) + size(r) > MSG_LIMIT ==> Packing(out + [Part(cur, |out| == 0, true)], [r], size)
    ensures (cur != [] || out == []) ==> Packing(out, cur + [r], size)
  {
    PackedEnd(out, cur, size);
    if cur != [] { assert (cur + [r])[0] == cur[0]; }
  }

  method Push(cur: seq<Record>, used: nat, out: seq<Part>, r: Record, size: Record -> nat)
    returns (cur': seq<Record>, used': nat, out': seq<Part>)
    requires used == Estimate(cur, size) && (|cur| > 1 ==> used <= MSG_LIMIT) && (cur == [] ==> out == [])
    requires Carries(out, Joined(out), size)
    ensures cur' != [] && used' == Estimate(cur', size) && (|cur'| > 1 ==> used' <= MSG_LIMIT)
    ensures Carries(out', Joined(out'), size)
    ensures Joined(out') + cur' == Joined(out) + cur + [r]
    ensures out' == out <==> cur == [] || used + size(r) <= MSG_LIMIT
    ensures Packing(out, cur, size) ==> Packing(out', cur', size)
  {
    if Packing(out, cur, size) { PackingNext(out, cur, r, size); }
    cur', used', out' := cur, used, out;
    if used + size(r) > MSG_LIMIT && cur != [] {
      CarriesOneMore(out, cur, size);
      out' := out + [Part(cur, |out| == 0, true)];
      cur', used' := [], EMPTY_SIZE;
    }
    assert Joined(out') + cur' == Joined(out) + cur;
    EstimatePush(cur', r, size);
    JoinedPush(Joined(out'), cur', r);
    cur', used' := cur' + [r], used' + size(r);
  }

  lemma JoinedPush(a: seq<Record>, b: seq<Record>, r: Record)
    ensures a + (b + [r]) == a + b + [r]
  {
  }

  /** The messages so far, the last still open, carry `sofar`. */
  ghost predicate Building(out: seq<Part>, cur: seq<Record>, used: nat, size: Record -> nat, sofar: seq<Record>) {
    && cur != [] && used == Estimate(cur, size) && (|cur| > 1 ==> used <= MSG_LIMIT)
    && Carries(out, Joined(out), size) && Packing(out, cur, size) && Joined(out) + cur == sofar
  }

  method PushAll(cur: seq<Record>, used: nat, out: seq<Part>, rs: seq<Record>, size: Record -> nat, ghost sofar: seq<Record>)
    returns (cur': seq<Record>, used': nat, out': seq<Part>)
    requires Building(out, cur, used, size, sofar)
    ensures Building(out', cur', used', size, sofar + rs)
  {
    cur', used', out' := cur, used, out;
    assert sofar + rs[..0] == sofar;
    for k := 0 to |rs|
      invariant Building(out', cur', used', size, sofar + rs[..k])
    {
      cur', used', out' := Push(cur', used', out', rs[k], size);
      assert sofar + rs[..k + 1] == sofar + rs[..k] + [rs[k]];
    }
    assert rs[..|rs|] == rs;
  }

  lemma BuildingDone(out: seq<Part>, cur: seq<Record>, used: nat, size: Record -> nat, stream: seq<Record>)
    requires Building(out, cur, used, size, stream)
    ensures var parts := out + [Part(cur, |out| == 0, true)]; Carries(parts, stream, size) && Packed(parts, size)
  {
    CarriesOneMore(out, cur, size);
    PackedEnd(out, cur, size);
  }

  method BuildMessages(records: seq<Record>, size: Record -> nat) returns (parts: seq<Part>)
    ensures FirstSoa(records) == |records| ==> parts == []
    ensures FirstSoa(records) < |records| ==> parts != [] && Carries(parts, Stream(records), size) && Packed(parts, size)
  {
    var i := FirstSoa(records);
    if i == |records| {
      return [];
    }
    var soa := records[i];
    var rest := records[..i] + records[i + 1..];
    var cur, used, out := Push([], EMPTY_SIZE, [], soa, size);
    cur, used, out := PushAll(cur, used, out, rest, size, [soa]);
    cur, used, out := PushAll(cur, used, out, [soa], size, [soa] + rest);
    BuildingDone(out, cur, used, size, Stream(records));
    parts := out + [Part(cur, |out| == 0, true)];
  }

  function TotalSize(rs: seq<Record>, size: Record -> nat): nat {
    if rs == [] then 0 else size(rs[0]) + TotalSize(rs[1..], size)
  }

  lemma {:induction false} EstimateIsSum(rs: seq<Record>, size: Record -> nat)
    ensures Estimate(rs, size) == 76 + TotalSize(rs, size)
    decreases |rs|
  {
    if rs != [] {
      var front, last := rs[..|rs| - 1], rs[|rs| - 1];
      EstimateIsSum(front, size);
      TotalSizePush(front, last, size);
      assert front + [last] == rs;
    }
  }

  lemma {:induction false} TotalSizePush(rs: seq<Record>, r: Record, size: Record -> nat)
    ensures TotalSize(rs + [r], size) == TotalSize(rs, size) + size(r)
    decreases |rs|
  {
    if rs == [] {
      assert [] + [r] == [r] && [r][1..] == [];
    } else {
      TotalSizePush(rs[1..], r, size);
      assert (rs + [r])[1..] == rs[1..] + [r];
    }
  }

  /** What that means in octets, with 76 for an empty message: a message of more than
      one record keeps within 60000, and with the first record of the next it would not. */
  lemma MessagesFit(parts: seq<Part>, stream: seq<Record>, size: Record -> nat, i: nat)
    requires Carries(parts, stream, size) && Packed(parts, size) && i < |parts|
    ensures var rs := parts[i].answers;
      && rs != [] && (|rs| > 1 ==> 76 + TotalSize(rs, size) <= 60_000)
      && (i + 1 < |parts| ==> parts[i + 1].answers != [] && 76 + TotalSize(rs, size) + size(parts[i + 1].answers[0]) > 60_000)
  {
    EstimateIsSum(parts[i].answers, size);
    assert Fits(parts[i], size);
    if i + 1 < |parts| { assert Overfull(parts[i], parts[i + 1].answers, size); }
  }

  // ------------------------------------------------------- the collector

  datatype Scan = Done(records: seq<Record>) | More(records: seq<Record>, soas: nat)

  /** Records up to, and not including, the second SOA. */
  function ScanFrom(rs: seq<Record>, acc: seq<Record>, soas: nat): Scan {
    if rs == [] then More(acc, soas)
    else if rs[0].Type() == SOA && soas == 1 then Done(acc)
    else ScanFrom(rs[1..], acc + [rs[0]], if rs[0].Type() == SOA then soas + 1 else soas)
  }

  /** What the transfer client makes of the messages it reads. */
  function Collected(parts: seq<Part>, acc: seq<Record>, soas: nat): Option<seq<Record>> {
    if parts == [] || !parts[0].noError then None
    else match ScanFrom(parts[0].answers, acc, soas)
      case Done(records) => Some(records)
      case More(records, n) => if parts[0].answers == [] then None else Collected(parts[1..], records, n)
  }

  method Collect(parts: seq<Part>) returns (r: Option<seq<Record>>)
    ensures r == Collected(parts, [], 0)
  {
    var records: seq<Record> := [];
    var soas: nat := 0;
    for i := 0 to |parts|
      invariant Collected(parts, [], 0) == Collected(parts[i..], records, soas)
    {
      assert parts[i..][0] == parts[i] && parts[i..][1..] == parts[i + 1..];
      if !parts[i].noError {
        return None;
      }
      var answers := parts[i].answers;
      ghost var scan := ScanFrom(answers, records, soas);
      for k := 0 to |answers|
        invariant scan == ScanFrom(answers[k..], records, soas)
      {
        assert answers[k..][0] == answers[k] && answers[k..][1..] == answers[k + 1..];
        if answers[k].Type() == SOA {
          if soas == 1 {
            return Some(records);
          }
          soas := soas + 1;
        }
        records := records + [answers[k]];
      }
      if answers == [] {
        return None;
      }
    }
    r := None;
  }

  lemma {:induction false} ScanConcat(a: seq<Record>, b: seq<Record>, acc: seq<Record>, soas: nat)
    ensures ScanFrom(a + b, acc, soas) == match ScanFrom(a, acc, soas)
      case Done(r) => Done(r)
      case More(r, n) => ScanFrom(b, r, n)
  {
    if a == [] {
      assert a + b == b;
    } else {
      assert (a + b)[0] == a[0] && (a + b)[1..] == a[1..] + b;
      if !(a[0].Type() == SOA && soas == 1) {
        ScanConcat(a[1..], b, acc + [a[0]], if a[0].Type() == SOA then soas + 1 else soas);
      }
    }
  }

  lemma {:induction false} JoinedCons(p: Part, parts: seq<Part>)
    ensures Joined([p] + parts) == p.answers + Joined(parts)
  {
    var all := [p] + parts;
    if parts == [] {
      assert all[..0] == [] && all[0] == p;
      assert Joined(all) == Joined(all[..0]) + p.answers;
    } else {
      assert all[..|all| - 1] == [p] + parts[..|parts| - 1];
      JoinedCons(p, parts[..|parts| - 1]);
    }
  }

  /** Message boundaries do not matter to the collector. */
  lemma {:induction false} CollectIsScan(parts: seq<Part>, acc: seq<Record>, soas: nat)
    requires forall i :: 0 <= i < |parts| ==> parts[i].noError && parts[i].answers != []
    ensures Collected(parts, acc, soas) == match ScanFrom(Joined(parts), acc, soas)
      case Done(r) => Some(r)
      case More(_, _) => None
  {
    if parts != [] {
      assert parts == [parts[0]] + parts[1..];
      JoinedCons(parts[0], parts[1..]);
      ScanConcat(parts[0].answers, Joined(parts[1..]), acc, soas);
      var s := ScanFrom(parts[0].answers, acc, soas);
      if s.More? {
        CollectIsScan(parts[1..], s.records, s.soas);
      }
    }
  }

  lemma {:induction false} ScanPlain(rs: seq<Record>, acc: seq<Record>, soas: nat)
    requires forall i :: 0 <= i < |rs| ==> rs[i].Type() != SOA
    ensures ScanFrom(rs, acc, soas) == More(acc + rs, soas)
  {
    if rs == [] {
      assert acc + rs == acc;
    } else {
      ScanPlain(rs[1..], acc + [rs[0]], soas);
      assert acc + [rs[0]] + rs[1..] == acc + rs;
    }
  }

  // ------------------------------------------------------- the round trip

  /** What arrives: the dump up to its second SOA record, if it has one. */
  function Arrived(out: seq<Record>): seq<Record>
    requires out != []
  {
    out[..1 + FirstSoa(out[1..])]
  }

  /** For every way of dumping and splitting, the collector gets the dump up to
      a second SOA record. */
  lemma TransferDelivers(z: Zone, out: seq<Record>, parts: seq<Part>, size: Record -> nat)
    requires IsDump(z, out) && out[0].Type() == SOA
    requires Carries(parts, Stream(out), size)
    ensures Collected(parts, [], 0) == Some(Arrived(out))
  {
    var soa, rest := out[0], out[1..];
    assert FirstSoa(out) == 0;
    assert Stream(out) == [soa] + (rest + [soa]) by {
      assert out[..0] + out[1..] == rest;
      assert [soa] + rest + [soa] == [soa] + (rest + [soa]);
    }
    CollectIsScan(parts, [], 0);
    ScanFirst(soa, rest + [soa]);
    ScanToSoa(rest, soa);
    assert [soa] + rest[..FirstSoa(rest)] == Arrived(out);
  }

  lemma ScanFirst(soa: Record, more: seq<Record>)
    requires soa.Type() == SOA
    ensures ScanFrom([soa] + more, [], 0) == ScanFrom(more, [soa], 1)
  {
    var all := [soa] + more;
    assert all[0] == soa && all[1..] == more;
    assert [] + [soa] == [soa];
  }

  lemma ScanToSoa(rest: seq<Record>, soa: Record)
    requires soa.Type() == SOA
    ensures ScanFrom(rest + [soa], [soa], 1) == Done([soa] + rest[..FirstSoa(rest)])
  {
    var k := FirstSoa(rest);
    var plain, tail := rest[..k], rest[k..] + [soa];
    assert rest + [soa] == plain + tail;
    ScanConcat(plain, tail, [soa], 1);
    ScanPlain(plain, [soa], 1);
    assert tail[0].Type() == SOA;
  }

  /** Exactly one SOA record in the zone, at the apex. */
  ghost predicate OneSoa(z: Zone) {
    |ApexSoa(z)| == 1 && forall o :: o != z.origin ==> !z.Has(o, SOA)
  }

  lemma FilterOne(r: Record, o: Name, t: RType)
    ensures Filter([r], o, t) == (if InSet(r, o, t) then [r] else [])
    ensures FilterSigs([r], o, t) == (if InSigs(r, o, t) then [r] else [])
  {
    var one := [r];
    assert one[..|one| - 1] == [];
    assert Filter(one, o, t) == Filter([], o, t) + (if InSet(r, o, t) then [r] else []);
    assert FilterSigs(one, o, t) == FilterSigs([], o, t) + (if InSigs(r, o, t) then [r] else []);
  }

  lemma FilterCons(r: Record, rs: seq<Record>, o: Name, t: RType)
    ensures Filter([r] + rs, o, t) == (if InSet(r, o, t) then [r] else []) + Filter(rs, o, t)
    ensures FilterSigs([r] + rs, o, t) == (if InSigs(r, o, t) then [r] else []) + FilterSigs(rs, o, t)
  {
    FilterConcat([r], rs, o, t);
    FilterOne(r, o, t);
  }

  /** With one SOA the whole dump arrives. */
  lemma WholeDumpArrives(z: Zone, out: seq<Record>)
    requires IsDump(z, out) && OneSoa(z)
    ensures Arrived(out) == out
  {
    var rest := out[1..];
    forall o ensures Filter(rest, o, SOA) == [] {
      assert o != z.origin ==> !z.Has(o, SOA);
      assert Filter(rest, o, SOA) == Dumped(z, o, SOA);
    }
    if FirstSoa(rest) < |rest| {
      FilterMember(rest, rest[FirstSoa(rest)].owner, SOA, FirstSoa(rest));
      assert false;
    }
    assert out[..|out|] == out;
  }

  /** Rebuilding from the whole dump gives back the owner map. */
  lemma DumpRebuilds(z: Zone, origin: Name, records: seq<Record>, out: seq<Record>)
    requires BuiltFrom(z, origin, records) && IsDump(z, out) && OneSoa(z)
    ensures BuildNames(origin, out) == z.names
  {
    BuiltIsFiled(z, origin, records);
    BuildNoHollow(origin, out);
    forall o, t
      ensures DataAt(BuildNames(origin, out), o).Set(t) == DataAt(z.names, o).Set(t)
      ensures DataAt(BuildNames(origin, out), o).Sigs(t) == DataAt(z.names, o).Sigs(t)
    {
      RebuiltAt(z, origin, records, out, o, t);
    }
    NamesExtensional(BuildNames(origin, out), z.names);
  }

  /** The dump holds every set and every signature as the zone does. */
  lemma DumpHolds(z: Zone, out: seq<Record>, o: Name, t: RType)
    requires IsDump(z, out) && OneSoa(z) && Filed(z.names)
    ensures Filter(out, o, t) == DataAt(z.names, o).Set(t) && FilterSigs(out, o, t) == DataAt(z.names, o).Sigs(t)
  {
    var soa := out[0];
    assert out == [soa] + out[1..];
    FilterCons(soa, out[1..], o, t);
    assert Filter(out[1..], o, t) == Dumped(z, o, t);
    assert FilterSigs(out[1..], o, t) == DataAt(z.names, o).Sigs(t);
    assert FiledAt(z.names, z.origin, SOA);
    assert ApexSoa(z) == [soa];
  }

  lemma RebuiltAt(z: Zone, origin: Name, records: seq<Record>, out: seq<Record>, o: Name, t: RType)
    requires BuiltFrom(z, origin, records) && IsDump(z, out) && OneSoa(z) && Filed(z.names)
    ensures DataAt(BuildNames(origin, out), o).Set(t) == DataAt(z.names, o).Set(t)
    ensures DataAt(BuildNames(origin, out), o).Sigs(t) == DataAt(z.names, o).Sigs(t)
  {
    DumpHolds(z, out, o, t);
    assert FiledAt(z.names, o, t);
    SelectedIsFilter(out, o, t);
    SelectedSigsIsFilter(out, o, t);
    BuildGroups(origin, out, o, t);
    BuildOwners(origin, records, o);
  }

  /** With more than one SOA, some SOA is lost. */
  lemma SoaIsLost(z: Zone, origin: Name, records: seq<Record>, out: seq<Record>)
    requires BuiltFrom(z, origin, records) && IsDump(z, out) && !OneSoa(z)
    ensures BuildNames(origin, Arrived(out)) != z.names
  {
    BuiltIsFiled(z, origin, records);
    var got := Arrived(out);
    assert got == [out[0]] + got[1..];
    assert forall i :: 0 <= i < |got[1..]| ==> got[1..][i].Type() != SOA;
    var o := if |ApexSoa(z)| != 1 then z.origin else var o :| o != z.origin && z.Has(o, SOA); o;
    assert FiledAt(z.names, origin, SOA);
    SelectedSoa(out[0], got[1..], o);
    BuildGroups(origin, got, o, SOA);
  }

  /** After the first record, no SOA means none selected. */
  lemma SelectedSoa(r: Record, rs: seq<Record>, o: Name)
    requires forall i :: 0 <= i < |rs| ==> rs[i].Type() != SOA
    ensures Selected([r] + rs, o, SOA) == (if InSet(r, o, SOA) then [r] else [])
    decreases |rs|
  {
    var all := [r] + rs;
    if rs == [] {
      assert all[..0] == [] && all[0] == r;
      assert Selected(all[..0], o, SOA) == [];
    } else {
      assert all[..|all| - 1] == [r] + rs[..|rs| - 1];
      assert all[|all| - 1] == rs[|rs| - 1];
      SelectedSoa(r, rs[..|rs| - 1], o);
    }
  }

  /** The AXFR round trip, for every zone, every order of its hash maps and every
      size estimate: splitting, collecting and rebuilding gives back the owner
      map exactly when the zone has one SOA record. */
  lemma AxfrRoundTrip(z: Zone, origin: Name, records: seq<Record>, out: seq<Record>, parts: seq<Part>, size: Record -> nat)
    requires BuiltFrom(z, origin, records) && IsDump(z, out)
    requires FirstSoa(out) < |out| && Carries(parts, Stream(out), size)
    ensures Collected(parts, [], 0).Some?
    ensures BuildNames(origin, Collected(parts, [], 0).value) == z.names <==> OneSoa(z)
  {
    BuiltIsFiled(z, origin, records);
    assert FiledAt(z.names, origin, SOA);
    TransferDelivers(z, out, parts, size);
    if OneSoa(z) {
      WholeDumpArrives(z, out);
      DumpRebuilds(z, origin, records, out);
    } else {
      SoaIsLost(z, origin, records, out);
    }
  }

  /** ... and then the rebuilt zone is the same zone: serial, existing names,
      denial chains and the signed flag included. */
  lemma SecondaryEqualsPrimary(z: Zone, origin: Name, records: seq<Record>, out: seq<Record>, copy: Zone)
    requires BuiltFrom(z, origin, records) && IsDump(z, out) && OneSoa(z)
    requires BuiltFrom(copy, origin, out)
    ensures copy == z
  {
    DumpRebuilds(z, origin, records, out);
    CanonicalOrderIsTotal();
    LinkOrderIsTotal();
    SortedUnique(copy.nsecChain, z.nsecChain, CanonicalLess);
    SortedUnique(copy.nsec3, z.nsec3, LinkLess);
    assert BuildNames(origin, records) == BuildNames(origin, out);
    SignedIffSigs(origin, records);
    SignedIffSigs(origin, out);
    assert copy.signed == z.signed && copy.serial == z.serial;
    assert copy.names == z.names && copy.nodes == z.nodes;
  }

  /** A zone is signed when some owner has signatures. */
  lemma SignedIffSigs(origin: Name, records: seq<Record>)
    ensures IsSigned(origin, records) <==> exists o, t :: DataAt(BuildNames(origin, records), o).Sigs(t) != []
  {
    if IsSigned(origin, records) {
      var r :| r in records && IsSubdomain(origin, r.owner) && r.data.RrsigData?;
      var i :| 0 <= i < |records| && records[i] == r;
      BuildGroups(origin, records, r.owner, r.data.covered);
      SigIsSelected(records, i);
    }
    if exists o, t :: DataAt(BuildNames(origin, records), o).Sigs(t) != [] {
      var o, t :| DataAt(BuildNames(origin, records), o).Sigs(t) != [];
      BuildGroups(origin, records, o, t);
      var s := SelectedSigs(records, o, t)[0];
      assert s in SelectedSigs(records, o, t);
    }
  }

  lemma {:induction false} SigIsSelected(records: seq<Record>, i: nat)
    requires i < |records| && records[i].data.RrsigData?
    ensures SelectedSigs(records, records[i].owner, records[i].data.covered) != []
  {
    if i < |records| - 1 { SigIsSelected(records[..|records| - 1], i); }
  }

  /** A zone with a second SOA record at its apex. */
  function TwoSoas(): seq<Record> {
    [Record(["org"], 60, SoaData(1, 1, 1, 1, 1)), Record(["org"], 60, SoaData(2, 1, 1, 1, 1))]
  }

  /** The failing case: however it is dumped and split, that zone does not come
      back the same. */
  lemma SecondSoaIsLost(z: Zone, out: seq<Record>, parts: seq<Part>, size: Record -> nat)
    requires BuiltFrom(z, ["org"], TwoSoas()) && IsDump(z, out)
    requires FirstSoa(out) < |out| && Carries(parts, Stream(out), size)
    ensures Collected(parts, [], 0).Some? && BuildNames(["org"], Collected(parts, [], 0).value) != z.names
  {
    var origin: Name, rs := ["org"], TwoSoas();
    TwoSelected(rs, origin);
    BuildGroups(origin, rs, origin, SOA);
    assert IsSubdomain(origin, origin) by { assert Suffix(origin, 1) == origin; }
    AxfrRoundTrip(z, origin, rs, out, parts, size);
  }

  lemma TwoSelected(rs: seq<Record>, origin: Name)
    requires rs == TwoSoas() && origin == ["org"]
    ensures |Selected(rs, origin, SOA)| == 2
  {
    var one := [rs[0]];
    assert rs[..1] == one && one[..0] == [];
    assert Selected(one, origin, SOA) == [rs[0]];
    assert rs[1].data != rs[0].data;
  }
}
