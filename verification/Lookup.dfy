/** Answering a query from a zone: referral, DNAME redirection, exact match,
    wildcard, NODATA and NXDOMAIN, following aliases inside the zone. */
module Lookups {
  import opened Names
  import opened Records
  import opened Order
  import opened Zones
  import opened Denial

  datatype RCode = NoError | NXDomain | YXDomain | ServFail

  datatype Message = Message(
    rcode: RCode,
    authoritative: bool,
    answers: seq<Record>,
    authority: seq<Record>,
    additional: seq<Record>)

  datatype Query = Query(name: Name, qtype: RType, dnssec: bool)

  /** What the zone code takes from outside: the order in which a hash map
      yields its types, the NSEC3 hash, and the answers the server itself gives
      for a name outside the zone (followed only when `chase` is set). */
  datatype Env = Env(
    order: NameData -> seq<RType>,
    hash: Name -> Hash,
    external: Name -> seq<Record>,
    chase: bool)

  const MAX_HOPS := 8
  const MAX_WIRE := 255

  // ----------------------------------------- referral or redirection above

  /** A zone cut below the apex, at or above `q`, at depth `k`. */
  predicate CutAt(z: Zone, q: Name, k: nat) {
    |z.origin| < k <= |q| && z.Has(Suffix(q, k), NS)
  }

  /** A DNAME strictly above `q`, the apex included, at depth `k`. */
  predicate DnameAt(z: Zone, q: Name, k: nat) {
    |z.origin| <= k < |q| && z.Has(Suffix(q, k), DNAME)
  }

  ghost function CutOrDname(z: Zone, q: Name): nat -> bool {
    (k: nat) => CutAt(z, q, k) || DnameAt(z, q, k)
  }

  ghost function DnameTest(z: Zone, q: Name): nat -> bool {
    (k: nat) => DnameAt(z, q, k)
  }

  /** The cut that makes the answer to `q` a referral: the topmost cut or DNAME
      on the path is a cut, and the query is not for the DS at that very cut. */
  ghost function ReferralCut(z: Zone, q: Name, qtype: RType): Option<Name> {
    match Least(|z.origin|, |q| + 1, CutOrDname(z, q))
    case Some(k) => if CutAt(z, q, k) && !(k == |q| && qtype == DS) then Some(Suffix(q, k)) else None
    case None => None
  }

  /** The owner of the topmost DNAME strictly above `n`. */
  ghost function DnameOwner(z: Zone, n: Name): Option<Name> {
    match Least(|z.origin|, |n|, DnameTest(z, n))
    case Some(k) => Some(Suffix(n, k))
    case None => None
  }

  lemma ReferralDecidedAt(z: Zone, q: Name, qtype: RType, k: nat)
    requires CutAt(z, q, k) || DnameAt(z, q, k)
    requires forall j: nat :: |z.origin| <= j < k ==> !CutAt(z, q, j) && !DnameAt(z, q, j)
    ensures ReferralCut(z, q, qtype) ==
      if CutAt(z, q, k) && !(k == |q| && qtype == DS) then Some(Suffix(q, k)) else None
  {
    var P := CutOrDname(z, q);
    assert P(k);
  }

  lemma NoReferral(z: Zone, q: Name, qtype: RType)
    requires forall j: nat :: |z.origin| <= j <= |q| ==> !CutAt(z, q, j) && !DnameAt(z, q, j)
    ensures ReferralCut(z, q, qtype) == None
  {
  }

  lemma DnameOwnerAt(z: Zone, n: Name, k: nat)
    requires DnameAt(z, n, k)
    requires forall j: nat :: |z.origin| <= j < k ==> !DnameAt(z, n, j)
    ensures DnameOwner(z, n) == Some(Suffix(n, k))
  {
    var P := DnameTest(z, n);
    assert P(k);
  }

  lemma NoDnameOwner(z: Zone, n: Name)
    requires forall j: nat :: |z.origin| <= j < |n| ==> !DnameAt(z, n, j)
    ensures DnameOwner(z, n) == None
  {
  }

  method Delegation(z: Zone, q: Name, qtype: RType) returns (r: Option<Name>)
    ensures r == if IsSubdomain(z.origin, q) then ReferralCut(z, q, qtype) else None
  {
    if !IsSubdomain(z.origin, q) {
      return None;
    }
    if q == z.origin {
      NoReferral(z, q, qtype);
      return None;
    }
    if z.Has(z.origin, DNAME) {
      ReferralDecidedAt(z, q, qtype, |z.origin|);
      return None;
    }
    var k: nat := |z.origin| + 1;
    while k <= |q|
      invariant |z.origin| < k <= |q| + 1
      invariant forall j: nat :: |z.origin| <= j < k ==> !CutAt(z, q, j) && !DnameAt(z, q, j)
    {
      var candidate := Suffix(q, k);
      assert candidate == q <==> k == |q|;
      if z.Has(candidate, NS) {
        ReferralDecidedAt(z, q, qtype, k);
        if candidate == q && qtype == DS {
          return None;
        }
        return Some(candidate);
      }
      if candidate != q && z.Has(candidate, DNAME) {
        ReferralDecidedAt(z, q, qtype, k);
        return None;
      }
      k := k + 1;
    }
    NoReferral(z, q, qtype);
    r := None;
  }

  method DnameFor(z: Zone, n: Name) returns (r: Option<Name>)
    ensures r == if IsSubdomain(z.origin, n) then DnameOwner(z, n) else None
  {
    if !IsSubdomain(z.origin, n) || n == z.origin {
      return None;
    }
    if z.Has(z.origin, DNAME) {
      DnameOwnerAt(z, n, |z.origin|);
      return Some(z.origin);
    }
    var k: nat := |z.origin| + 1;
    while k < |n|
      invariant |z.origin| < k <= |n|
      invariant forall j: nat :: |z.origin| <= j < k ==> !DnameAt(z, n, j)
    {
      if z.Has(Suffix(n, k), DNAME) {
        DnameOwnerAt(z, n, k);
        return Some(Suffix(n, k));
      }
      k := k + 1;
    }
    NoDnameOwner(z, n);
    r := None;
  }

  // ------------------------------------------------------ one step of a lookup

  /** What the zone says about one name. `wild` is the closest encloser when the
      data came from its wildcard. */
  datatype Step =
    | Undecodable
    | TooLong(records: seq<Record>)
    | Redirect(records: seq<Record>, to: Name)
    | Alias(records: seq<Record>, to: Name, wild: Option<Name>)
    | BrokenAlias(records: seq<Record>, wild: Option<Name>)
    | Data(records: seq<Record>, wild: Option<Name>)
    | Missing
  {
    function Records(): seq<Record> { if Undecodable? || Missing? then [] else records }
    function Wild(): Option<Name> { if Alias? || BrokenAlias? || Data? then wild else None }
  }

  function FirstDname(rs: seq<Record>): Option<(Name, nat)> {
    if rs == [] then None
    else if rs[0].data.DnameData? && rs[0].data.redirect.Some? then Some((rs[0].data.redirect.value, rs[0].ttl))
    else FirstDname(rs[1..])
  }

  function FirstCname(rs: seq<Record>): Option<Name> {
    if rs == [] then None
    else if rs[0].data.CnameData? then Some(rs[0].data.cname)
    else FirstCname(rs[1..])
  }

  /** Wildcard data is presented under the name asked for. */
  function Renamed(rs: seq<Record>, n: Name, wild: Option<Name>): (out: seq<Record>)
    ensures |out| == |rs|
    ensures forall i :: 0 <= i < |rs| ==>
      out[i] == if wild.None? then rs[i] else rs[i].(owner := n)
  {
    if wild.None? then rs else seq(|rs|, i requires 0 <= i < |rs| => rs[i].(owner := n))
  }

  function OfTypes(nd: NameData, ts: seq<RType>, dnssec: bool): seq<Record> {
    if ts == [] then [] else nd.WithSigs(ts[0], dnssec) + OfTypes(nd, ts[1..], dnssec)
  }

  function Found(env: Env, nd: NameData, qtype: RType, dnssec: bool): seq<Record> {
    if qtype == ANY then OfTypes(nd, env.order(nd), dnssec) else nd.WithSigs(qtype, dnssec)
  }

  /** Replace the labels of the DNAME owner by the target's. */
  function Substituted(n: Name, owner: Name, target: Name): Name
    requires IsSubdomain(owner, n)
  {
    n[..|n| - |owner|] + target
  }

  function RedirectStep(z: Zone, n: Name, owner: Name, dnssec: bool): Step
    requires IsSubdomain(owner, n)
  {
    var records := DataAt(z.names, owner).WithSigs(DNAME, dnssec);
    match FirstDname(records)
    case None => Undecodable
    case Some((target, ttl)) =>
      var to := Substituted(n, owner, target);
      if WireLength(to) > MAX_WIRE then TooLong(records)
      else Redirect(records + [Record(n, ttl, CnameData(to))], to)
  }

  function DataStep(env: Env, nd: NameData, n: Name, qtype: RType, dnssec: bool, wild: Option<Name>): Step {
    if qtype != CNAME && nd.Has(CNAME) then
      var records := Renamed(nd.WithSigs(CNAME, dnssec), n, wild);
      match FirstCname(records)
      case Some(to) => Alias(records, to, wild)
      case None => BrokenAlias(records, wild)
    else Data(Renamed(Found(env, nd, qtype, dnssec), n, wild), wild)
  }

  /** The closest encloser whose wildcard answers for `n`: only when `n` does not exist. */
  ghost function WildcardSource(z: Zone, n: Name): Option<Name> {
    if n in z.nodes || !IsSubdomain(z.origin, n) || WildcardOf(Encloser(z, n)) !in z.names then None
    else Some(Encloser(z, n))
  }

  ghost function StepAt(z: Zone, env: Env, n: Name, qtype: RType, dnssec: bool): Step {
    var owner := if IsSubdomain(z.origin, n) then DnameOwner(z, n) else None;
    if owner.Some? then RedirectStep(z, n, owner.value, dnssec)
    else if n in z.names then DataStep(env, z.names[n], n, qtype, dnssec, None)
    else match WildcardSource(z, n)
      case Some(ce) => DataStep(env, z.names[WildcardOf(ce)], n, qtype, dnssec, Some(ce))
      case None => Missing
  }

  // ------------------------------------------------------------- the chain

  datatype Hop = Hop(at: Name, step: Step)

  /** Does the lookup go on to `s.to`? */
  predicate Leads(qtype: RType, s: Step) {
    s.Alias? || (s.Redirect? && qtype != CNAME)
  }

  predicate LeadsInside(origin: Name, qtype: RType, s: Step) {
    Leads(qtype, s) && IsSubdomain(origin, s.to)
  }

  predicate Linked(origin: Name, qtype: RType, h: Hop, next: Hop) {
    LeadsInside(origin, qtype, h.step) && next.at == h.step.to
  }

  /** The names visited from `n`, at most `fuel` of them, when `step` is the
      zone's word on each name. */
  ghost function Walk(step: Name -> Step, origin: Name, qtype: RType, n: Name, fuel: nat): (hops: seq<Hop>)
    ensures |hops| <= fuel
    ensures fuel > 0 ==> hops != [] && hops[0] == Hop(n, step(n))
    decreases fuel, n
  {
    if fuel == 0 then []
    else
      [Hop(n, step(n))] +
      (if LeadsInside(origin, qtype, step(n)) then Walk(step, origin, qtype, step(n).to, fuel - 1) else [])
  }

  ghost function Word(z: Zone, env: Env, qtype: RType, dnssec: bool): Name -> Step {
    n => StepAt(z, env, n, qtype, dnssec)
  }

  /** The hops of a lookup. */
  ghost function Chain(z: Zone, env: Env, q: Query): (hops: seq<Hop>)
    ensures 1 <= |hops| <= MAX_HOPS
    ensures hops[0] == Hop(q.name, StepAt(z, env, q.name, q.qtype, q.dnssec))
  {
    Walk(Word(z, env, q.qtype, q.dnssec), z.origin, q.qtype, q.name, MAX_HOPS)
  }

  /** Every hop is the zone's word on its name, each hop leads to the next, and a
      chain that still leads on inside the zone has used up its allowance. */
  ghost predicate IsChain(step: Name -> Step, origin: Name, qtype: RType, hops: seq<Hop>, fuel: nat) {
    && (forall i :: 0 <= i < |hops| ==> hops[i].step == step(hops[i].at))
    && (forall i, j :: 0 <= i && j == i + 1 < |hops| ==> Linked(origin, qtype, hops[i], hops[j]))
    && (hops != [] && LeadsInside(origin, qtype, hops[|hops| - 1].step) ==> |hops| == fuel)
  }

  lemma {:induction false} WalkIsChain(step: Name -> Step, origin: Name, qtype: RType, n: Name, fuel: nat)
    ensures IsChain(step, origin, qtype, Walk(step, origin, qtype, n, fuel), fuel)
    decreases fuel
  {
    if fuel > 0 && LeadsInside(origin, qtype, step(n)) {
      WalkIsChain(step, origin, qtype, step(n).to, fuel - 1);
    }
  }

  function HopRecords(hops: seq<Hop>): seq<Record> {
    if hops == [] then [] else HopRecords(hops[..|hops| - 1]) + hops[|hops| - 1].step.Records()
  }

  /** The last wildcard expansion along the chain: the name it answered and its encloser. */
  function LastWild(hops: seq<Hop>): Option<(Name, Name)> {
    if hops == [] then None
    else
      var h := hops[|hops| - 1];
      if h.step.Wild().Some? then Some((h.at, h.step.Wild().value)) else LastWild(hops[..|hops| - 1])
  }

  // ------------------------------------------------------------ the answers

  function NegativeSoa(z: Zone, dnssec: bool): seq<Record> {
    var apex := DataAt(z.names, z.origin);
    if !apex.Has(SOA) then []
    else
      var soa := apex.Set(SOA)[0];
      var clamped := if soa.data.SoaData? && soa.data.minimum < soa.ttl then soa.(ttl := soa.data.minimum) else soa;
      [clamped] + (if dnssec then apex.Sigs(SOA) else [])
  }

  function GlueTarget(r: Record): Option<Name> {
    match r.data
    case NsData(t) => Some(t)
    case SrvData(_, t) => Some(t)
    case MxData(_, t) => Some(t)
    case _ => None
  }

  function Glue(z: Zone, r: Record, dnssec: bool): seq<Record> {
    match GlueTarget(r)
    case Some(t) => DataAt(z.names, t).WithSigs(A, dnssec) + DataAt(z.names, t).WithSigs(AAAA, dnssec)
    case None => []
  }

  function Additional(z: Zone, rs: seq<Record>, dnssec: bool): seq<Record> {
    if rs == [] then [] else Additional(z, rs[..|rs| - 1], dnssec) + Glue(z, rs[|rs| - 1], dnssec)
  }

  function Referral(z: Zone, env: Env, cut: Name, dnssec: bool): Message {
    var nd := DataAt(z.names, cut);
    var ns := nd.WithSigs(NS, false) + (
      if !dnssec then []
      else if nd.Has(DS) then nd.WithSigs(DS, true)
      else ProveNodata(z, env.hash, cut));
    Message(NoError, false, [], ns, Additional(z, ns, dnssec))
  }

  /** NXDOMAIN, or NODATA for an empty non-terminal. */
  ghost function Negative(z: Zone, env: Env, n: Name, dnssec: bool): Message {
    var proof :=
      if n in z.nodes then ProveNodata(z, env.hash, n)
      else ProveNxdomain(z, env.hash, n, Encloser(z, n));
    Message(if n in z.nodes then NoError else NXDomain, true, [],
            NegativeSoa(z, dnssec) + (if dnssec then Once(proof) else []), [])
  }

  function Nodata(z: Zone, env: Env, n: Name, dnssec: bool, wild: Option<Name>): Message {
    var proof := match wild
      case Some(ce) => ProveWildcardNodata(z, env.hash, n, ce)
      case None => ProveNodata(z, env.hash, n);
    Message(NoError, true, [], NegativeSoa(z, dnssec) + (if dnssec then Once(proof) else []), [])
  }

  function Positive(z: Zone, env: Env, answers: seq<Record>, wild: Option<(Name, Name)>, dnssec: bool): Message {
    var proof := if wild.Some? && dnssec then ProveWildcardAnswer(z, env.hash, wild.value.0, wild.value.1) else [];
    Message(NoError, true, answers, Once(proof), Additional(z, answers, dnssec))
  }

  function ExternalAnswers(z: Zone, env: Env, qtype: RType, last: Step): seq<Record> {
    if Leads(qtype, last) && !IsSubdomain(z.origin, last.to) && env.chase then env.external(last.to) else []
  }

  /** The reply to a chain of hops. */
  ghost function Reply(z: Zone, env: Env, q: Query, hops: seq<Hop>): Message
    requires hops != []
  {
    var last := hops[|hops| - 1].step;
    if last.TooLong? then Message(YXDomain, true, HopRecords(hops), [], [])
    else if |hops| == 1 && last.Missing? then Negative(z, env, q.name, q.dnssec)
    else if |hops| == 1 && last.Data? && last.records == [] then Nodata(z, env, q.name, q.dnssec, last.wild)
    else Positive(z, env, HopRecords(hops) + ExternalAnswers(z, env, q.qtype, last), LastWild(hops), q.dnssec)
  }

  /** The whole answer. */
  ghost function Answer(z: Zone, env: Env, q: Query): Message {
    var cut := ReferralCut(z, q.name, q.qtype);
    if IsSubdomain(z.origin, q.name) && cut.Some? then Referral(z, env, cut.value, q.dnssec)
    else Reply(z, env, q, Chain(z, env, q))
  }

  // ------------------------------------------------------- the lookup loop

  lemma AppendHop(hops: seq<Hop>, h: Hop)
    ensures HopRecords(hops + [h]) == HopRecords(hops) + h.step.Records()
    ensures LastWild(hops + [h]) ==
      if h.step.Wild().Some? then Some((h.at, h.step.Wild().value)) else LastWild(hops)
  {
    assert (hops + [h])[..|hops|] == hops;
  }

  /** Every hop that leads on adds at least one answer. */
  lemma LeadingHopAnswers(z: Zone, env: Env, n: Name, qtype: RType, dnssec: bool)
    ensures Leads(qtype, StepAt(z, env, n, qtype, dnssec)) ==> StepAt(z, env, n, qtype, dnssec).Records() != []
  {
    if IsSubdomain(z.origin, n) && DnameOwner(z, n).Some? {
      assert StepAt(z, env, n, qtype, dnssec) == RedirectStep(z, n, DnameOwner(z, n).value, dnssec);
    } else if n in z.names {
      AliasHasRecords(env, z.names[n], n, qtype, dnssec, None);
    } else if WildcardSource(z, n).Some? {
      var ce := WildcardSource(z, n).value;
      AliasHasRecords(env, z.names[WildcardOf(ce)], n, qtype, dnssec, Some(ce));
    }
  }

  lemma AliasHasRecords(env: Env, nd: NameData, n: Name, qtype: RType, dnssec: bool, wild: Option<Name>)
    ensures var s := DataStep(env, nd, n, qtype, dnssec, wild); Leads(qtype, s) ==> s.Records() != []
  {
  }

  lemma EndsNegative(z: Zone, env: Env, q: Query, h: Hop)
    requires h.step.Missing?
    ensures Reply(z, env, q, [h]) == Negative(z, env, q.name, q.dnssec)
  {
  }

  lemma EndsNodata(z: Zone, env: Env, q: Query, h: Hop)
    requires h.step.Data? && h.step.records == []
    ensures Reply(z, env, q, [h]) == Nodata(z, env, q.name, q.dnssec, h.step.wild)
  {
  }

  lemma EndsTooLong(z: Zone, env: Env, q: Query, hops: seq<Hop>)
    requires hops != [] && hops[|hops| - 1].step.TooLong?
    ensures Reply(z, env, q, hops) == Message(YXDomain, true, HopRecords(hops), [], [])
  {
  }

  /** When the chain has ended without an error, the reply is positive. */
  lemma EndsPositive(z: Zone, env: Env, q: Query, hops: seq<Hop>, answers: seq<Record>, wild: Option<(Name, Name)>)
    requires hops != []
    requires var last := hops[|hops| - 1].step;
      !last.TooLong? && (|hops| == 1 ==> !last.Missing? && !(last.Data? && last.records == []))
    requires answers == HopRecords(hops) + ExternalAnswers(z, env, q.qtype, hops[|hops| - 1].step)
    requires wild == LastWild(hops)
    ensures Reply(z, env, q, hops) == Positive(z, env, answers, wild, q.dnssec)
  {
  }

  method WildcardFor(z: Zone, n: Name) returns (r: Option<Name>)
    requires forall n :: n in z.nodes ==> IsSubdomain(z.origin, n)
    ensures r == WildcardSource(z, n)
  {
    if n in z.nodes || !IsSubdomain(z.origin, n) {
      return None;
    }
    var ce := ClosestEncloser(z, n);
    if WildcardOf(ce) in z.names {
      r := Some(ce);
    } else {
      r := None;
    }
  }

  method NegativeReply(z: Zone, env: Env, n: Name, dnssec: bool) returns (m: Message)
    requires forall n :: n in z.nodes ==> IsSubdomain(z.origin, n)
    ensures m == Negative(z, env, n, dnssec)
  {
    var ce := ClosestEncloser(z, n);
    var exists_ := n in z.nodes;
    var authority := NegativeSoa(z, dnssec);
    if dnssec {
      if exists_ {
        authority := authority + Once(ProveNodata(z, env.hash, n));
      } else {
        authority := authority + Once(ProveNxdomain(z, env.hash, n, ce));
      }
    }
    m := Message(if exists_ then NoError else NXDomain, true, [], authority, []);
  }

  /** One pass of the lookup loop at `current`. */
  method TakeStep(z: Zone, env: Env, current: Name, qtype: RType, dnssec: bool) returns (s: Step)
    requires forall n :: n in z.nodes ==> IsSubdomain(z.origin, n)
    ensures s == StepAt(z, env, current, qtype, dnssec)
  {
    var owner := DnameFor(z, current);
    if owner.Some? {
      s := RedirectStep(z, current, owner.value, dnssec);
    } else if current in z.names {
      s := DataStep(env, z.names[current], current, qtype, dnssec, None);
    } else {
      var ce := WildcardFor(z, current);
      if ce.Some? {
        s := DataStep(env, z.names[WildcardOf(ce.value)], current, qtype, dnssec, ce);
      } else {
        s := Missing;
      }
    }
  }

  /** `step` is the zone's word, as far as anyone asks `StepAt`. */
  ghost predicate Tabulates(step: Name -> Step, z: Zone, env: Env, qtype: RType, dnssec: bool) {
    forall n {:trigger StepAt(z, env, n, qtype, dnssec)} :: StepAt(z, env, n, qtype, dnssec) == step(n)
  }

  method NextStep(z: Zone, env: Env, n: Name, qtype: RType, dnssec: bool, ghost step: Name -> Step) returns (s: Step)
    requires forall n :: n in z.nodes ==> IsSubdomain(z.origin, n)
    requires Tabulates(step, z, env, qtype, dnssec)
    ensures s == step(n)
    ensures Leads(qtype, s) ==> s.Records() != []
  {
    s := TakeStep(z, env, n, qtype, dnssec);
    LeadingHopAnswers(z, env, n, qtype, dnssec);
  }

  /** Follows the aliases: answers, current name, last wildcard and hop count are
      updated in place. `bare` tells that no answer had been
      collected before the last step. */
  method Chase(z: Zone, env: Env, q: Query, ghost step: Name -> Step)
    returns (answers: seq<Record>, synthesized: Option<(Name, Name)>, at: Name, last: Step, bare: bool)
    requires forall n :: n in z.nodes ==> IsSubdomain(z.origin, n)
    requires Tabulates(step, z, env, q.qtype, q.dnssec)
    ensures var hops := Walk(step, z.origin, q.qtype, q.name, MAX_HOPS);
      && answers == HopRecords(hops) && synthesized == LastWild(hops)
      && hops[|hops| - 1] == Hop(at, last)
      && (bare <==> |hops| == 1) && (bare ==> at == q.name)
  {
    answers, synthesized, at := [], None, q.name;
    var hops := 0;
    ghost var done: seq<Hop> := [];
    while true
      invariant |done| == hops < MAX_HOPS
      invariant Walk(step, z.origin, q.qtype, q.name, MAX_HOPS) ==
        done + Walk(step, z.origin, q.qtype, at, MAX_HOPS - hops)
      invariant hops == 0 ==> at == q.name
      invariant answers == HopRecords(done) && synthesized == LastWild(done)
      invariant answers == [] <==> hops == 0
      decreases MAX_HOPS - hops
    {
      last := NextStep(z, env, at, q.qtype, q.dnssec, step);
      bare := answers == [];
      AppendHop(done, Hop(at, last));
      NextHop(step, z.origin, q.qtype, done, at, MAX_HOPS - hops);
      hops := hops + 1;
      done := done + [Hop(at, last)];
      if last.Wild().Some? {
        synthesized := Some((at, last.Wild().value));
      }
      answers := answers + last.Records();
      if !LeadsInside(z.origin, q.qtype, last) || hops == MAX_HOPS {
        break;
      }
      at := last.to;
    }
  }

  lemma NextHop(step: Name -> Step, origin: Name, qtype: RType, done: seq<Hop>, at: Name, fuel: nat)
    requires fuel > 0
    ensures done + Walk(step, origin, qtype, at, fuel) == (done + [Hop(at, step(at))]) +
      if LeadsInside(origin, qtype, step(at)) then Walk(step, origin, qtype, step(at).to, fuel - 1) else []
  {
    var rest := if LeadsInside(origin, qtype, step(at)) then Walk(step, origin, qtype, step(at).to, fuel - 1) else [];
    assert done + ([Hop(at, step(at))] + rest) == (done + [Hop(at, step(at))]) + rest;
  }

  method Lookup(z: Zone, env: Env, q: Query) returns (m: Message)
    requires forall n :: n in z.nodes ==> IsSubdomain(z.origin, n)
    ensures m == Answer(z, env, q)
  {
    var cut := Delegation(z, q.name, q.qtype);
    if cut.Some? {
      return Referral(z, env, cut.value, q.dnssec);
    }
    var answers, synthesized, at, last, bare := Chase(z, env, q, Word(z, env, q.qtype, q.dnssec));
    ghost var hops := Chain(z, env, q);
    if last.TooLong? {
      EndsTooLong(z, env, q, hops);
      return Message(YXDomain, true, answers, [], []);
    }
    if bare && last.Missing? {
      m := NegativeReply(z, env, at, q.dnssec);
      EndsNegative(z, env, q, hops[0]);
      assert hops == [hops[0]];
      return;
    }
    if bare && last.Data? && last.records == [] {
      EndsNodata(z, env, q, hops[0]);
      assert hops == [hops[0]];
      return Nodata(z, env, at, q.dnssec, last.wild);
    }
    if Leads(q.qtype, last) && !IsSubdomain(z.origin, last.to) && env.chase {
      answers := answers + env.external(last.to);
    } else {
      assert answers == answers + [];
    }
    EndsPositive(z, env, q, hops, answers, synthesized);
    m := Positive(z, env, answers, synthesized, q.dnssec);
  }
}
