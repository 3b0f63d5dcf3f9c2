/** Lookups that leave the zone go through the server's own chain again, with a
    bound on how deep they nest. */
module Server {
  import opened Names
  import opened Records
  import opened Order
  import opened Zones
  import opened Lookups

  const MAX_DEPTH := 8

  /** `i` is the first of the longest origins at or above `name`. */
  ghost predicate LongestMatch(origins: seq<Name>, name: Name, i: nat) {
    && i < |origins| && IsSubdomain(origins[i], name)
    && (forall j :: 0 <= j < |origins| && IsSubdomain(origins[j], name) ==> |origins[j]| <= |origins[i]|)
    && (forall j :: 0 <= j < i && IsSubdomain(origins[j], name) ==> |origins[j]| < |origins[i]|)
  }

  function Pick(origins: seq<Name>, name: Name): (r: Option<nat>)
    ensures r.Some? ==> r.value < |origins| && IsSubdomain(origins[r.value], name)
  {
    if origins == [] then None
    else
      var last := |origins| - 1;
      var best := Pick(origins[..last], name);
      if IsSubdomain(origins[last], name) && (best.None? || |origins[best.value]| < |origins[last]|)
      then Some(last) else best
  }

  lemma {:induction false} PickIsLongest(origins: seq<Name>, name: Name)
    ensures match Pick(origins, name)
      case Some(i) => LongestMatch(origins, name, i)
      case None => forall j :: 0 <= j < |origins| ==> !IsSubdomain(origins[j], name)
  {
    if origins != [] {
      var last := |origins| - 1;
      var before := origins[..last];
      PickIsLongest(before, name);
      assert forall j :: 0 <= j < last ==> origins[j] == before[j];
    }
  }

  method ZonesMatch(origins: seq<Name>, name: Name) returns (best: Option<nat>)
    ensures best == Pick(origins, name)
  {
    best := None;
    for i := 0 to |origins|
      invariant best == Pick(origins[..i], name)
    {
      assert origins[..i + 1][..i] == origins[..i];
      if IsSubdomain(origins[i], name) {
        if !(best.Some? && |origins[best.value]| >= |origins[i]|) {
          best := Some(i);
        }
      }
    }
    assert origins[..|origins|] == origins;
  }

  function Origins(zones: seq<Zone>): (o: seq<Name>)
    ensures |o| == |zones| && forall i :: 0 <= i < |zones| ==> o[i] == zones[i].origin
  {
    seq(|zones|, i requires 0 <= i < |zones| => zones[i].origin)
  }

  datatype Host = Host(zones: seq<Zone>, order: NameData -> seq<RType>, hash: Name -> Hash)

  const Unserved := Message(ServFail, false, [], [], [])

  /** The answer at nesting depth `depth`; names outside the zone are looked up
      again one level deeper, and not at all once the limit is reached. */
  ghost function Serve(host: Host, q: Query, depth: nat): Message
    requires depth <= MAX_DEPTH
    decreases MAX_DEPTH - depth
  {
    match Pick(Origins(host.zones), q.name)
    case None => Unserved
    case Some(i) => Answer(host.zones[i], EnvAt(host, q, depth), q)
  }

  ghost function EnvAt(host: Host, q: Query, depth: nat): Env
    requires depth <= MAX_DEPTH
    decreases MAX_DEPTH - depth, 0
  {
    Env(host.order, host.hash,
        (n: Name) => if depth < MAX_DEPTH then Serve(host, Query(n, q.qtype, q.dnssec), depth + 1).answers else [],
        true)
  }

  /** Where a lookup is answered: the zone and the chain of names it follows there;
      nowhere if no zone serves the name or the answer is a referral. */
  ghost function ServedBy(host: Host, q: Query, depth: nat): (r: Option<(Zone, seq<Hop>)>)
    requires depth <= MAX_DEPTH
    ensures r.Some? ==> 1 <= |r.value.1| <= MAX_HOPS
  {
    match Pick(Origins(host.zones), q.name)
    case None => None
    case Some(i) =>
      if ReferralCut(host.zones[i], q.name, q.qtype).Some? then None
      else Some((host.zones[i], Chain(host.zones[i], EnvAt(host, q, depth), q)))
  }

  /** Does the lookup of `q` go on outside its zone, and where? */
  ghost function Outside(host: Host, q: Query, depth: nat): Option<Name>
    requires depth <= MAX_DEPTH
  {
    match ServedBy(host, q, depth)
    case None => None
    case Some((z, hops)) =>
      var last := hops[|hops| - 1].step;
      if Leads(q.qtype, last) && !IsSubdomain(z.origin, last.to) then Some(last.to) else None
  }

  /** The names the lookup itself visits. */
  ghost function NamesAt(host: Host, q: Query, depth: nat): (names: seq<Name>)
    requires depth <= MAX_DEPTH
    ensures 1 <= |names| <= MAX_HOPS
  {
    match ServedBy(host, q, depth)
    case None => [q.name]
    case Some((_, hops)) => At(hops)
  }

  /** The answers the lookup finds in its own zone. */
  ghost function LocalAnswers(host: Host, q: Query, depth: nat): seq<Record>
    requires depth <= MAX_DEPTH
  {
    match ServedBy(host, q, depth)
    case None => []
    case Some((_, hops)) => HopRecords(hops)
  }

  function At(hops: seq<Hop>): (names: seq<Name>)
    ensures |names| == |hops|
  {
    seq(|hops|, i requires 0 <= i < |hops| => hops[i].at)
  }

  // ------------------------------------------------------- nested lookups

  /** A lookup at a depth. */
  datatype Level = Level(q: Query, depth: nat)

  /** The nested lookups, outermost first. */
  ghost function Nest(host: Host, q: Query, depth: nat): (ls: seq<Level>)
    requires depth <= MAX_DEPTH
    ensures 1 <= |ls| <= MAX_DEPTH + 1 - depth
    ensures forall i :: 0 <= i < |ls| ==> ls[i].depth <= MAX_DEPTH
    decreases MAX_DEPTH - depth
  {
    var n := Outside(host, q, depth);
    if n.Some? && depth < MAX_DEPTH then [Level(q, depth)] + Nest(host, Query(n.value, q.qtype, q.dnssec), depth + 1)
    else [Level(q, depth)]
  }

  /** The names visited by each of the nested lookups. */
  ghost function Visits(host: Host, q: Query, depth: nat): (v: seq<seq<Name>>)
    requires depth <= MAX_DEPTH
    ensures |v| == |Nest(host, q, depth)|
    ensures forall i :: 0 <= i < |v| ==> 1 <= |v[i]| <= MAX_HOPS
  {
    var ls := Nest(host, q, depth);
    seq(|ls|, i requires 0 <= i < |ls| => NamesAt(host, ls[i].q, ls[i].depth))
  }

  function Total(v: seq<seq<Name>>): nat {
    if v == [] then 0 else |v[0]| + Total(v[1..])
  }

  lemma {:induction false} TotalBounded(v: seq<seq<Name>>)
    requires forall i :: 0 <= i < |v| ==> |v[i]| <= MAX_HOPS
    ensures Total(v) <= MAX_HOPS * |v|
  {
    if v != [] { TotalBounded(v[1..]); }
  }

  /** Alias following ends on every set of zones, however they point at each
      other: at most nine nested lookups of at most eight names each. */
  lemma NestingIsBounded(host: Host, q: Query, depth: nat)
    requires depth <= 8
    ensures var v := Visits(host, q, depth);
      && 1 <= |v| <= 9 - depth
      && (forall i :: 0 <= i < |v| ==> 1 <= |v[i]| <= 8)
      && Total(v) <= 8 * (9 - depth)
  {
    TotalBounded(Visits(host, q, depth));
  }

  // ------------------------------------------------- what a lookup answers

  /** A reply's answers are those of its hops and then those from outside. */
  lemma ReplyAnswers(z: Zone, env: Env, q: Query, hops: seq<Hop>)
    requires hops != []
    ensures Reply(z, env, q, hops).answers == HopRecords(hops) + ExternalAnswers(z, env, q.qtype, hops[|hops| - 1].step)
  {
    var last := hops[|hops| - 1];
    if last.step.TooLong? {
      EndsTooLong(z, env, q, hops);
      assert HopRecords(hops) + [] == HopRecords(hops);
    } else if |hops| == 1 && (last.step.Missing? || (last.step.Data? && last.step.records == [])) {
      assert hops == [last];
      NothingFound(z, env, q, last);
    } else {
      var answers := HopRecords(hops) + ExternalAnswers(z, env, q.qtype, last.step);
      EndsPositive(z, env, q, hops, answers, LastWild(hops));
    }
  }

  lemma NothingFound(z: Zone, env: Env, q: Query, h: Hop)
    requires h.step.Missing? || (h.step.Data? && h.step.records == [])
    ensures Reply(z, env, q, [h]).answers == [] && HopRecords([h]) == [] && ExternalAnswers(z, env, q.qtype, h.step) == []
  {
    OneHop(h);
    if h.step.Missing? {
      EndsNegative(z, env, q, h);
      assert Negative(z, env, q.name, q.dnssec).answers == [];
    } else {
      EndsNodata(z, env, q, h);
      assert Nodata(z, env, q.name, q.dnssec, h.step.wild).answers == [];
    }
  }

  lemma OneHop(h: Hop)
    ensures HopRecords([h]) == h.step.Records()
  {
    AppendHop([], h);
    assert [] + [h] == [h];
    assert HopRecords([]) + h.step.Records() == h.step.Records();
  }

  lemma ZoneAnswers(z: Zone, env: Env, q: Query)
    requires IsSubdomain(z.origin, q.name) && ReferralCut(z, q.name, q.qtype).None?
    ensures var hops := Chain(z, env, q);
      Answer(z, env, q).answers == HopRecords(hops) + ExternalAnswers(z, env, q.qtype, hops[|hops| - 1].step)
  {
    ReplyAnswers(z, env, q, Chain(z, env, q));
  }

  lemma OutsideAnswers(host: Host, q: Query, depth: nat, z: Zone, last: Step)
    requires depth <= MAX_DEPTH
    ensures ExternalAnswers(z, EnvAt(host, q, depth), q.qtype, last) ==
      if Leads(q.qtype, last) && !IsSubdomain(z.origin, last.to) && depth < MAX_DEPTH
      then Serve(host, Query(last.to, q.qtype, q.dnssec), depth + 1).answers else []
  {
  }

  /** The answer of a lookup, in terms of where it is answered. */
  lemma ServedAnswers(host: Host, q: Query, depth: nat)
    requires depth <= MAX_DEPTH
    ensures match ServedBy(host, q, depth)
      case None => Serve(host, q, depth).answers == []
      case Some((z, hops)) =>
        Serve(host, q, depth).answers == HopRecords(hops) + ExternalAnswers(z, EnvAt(host, q, depth), q.qtype, hops[|hops| - 1].step)
  {
    var pick := Pick(Origins(host.zones), q.name);
    if pick.Some? && ReferralCut(host.zones[pick.value], q.name, q.qtype).None? {
      ZoneAnswers(host.zones[pick.value], EnvAt(host, q, depth), q);
    }
  }

  /** A lookup that stays in its zone, or is at the depth limit, answers with what
      it finds there. */
  lemma ServeEnds(host: Host, q: Query, depth: nat)
    requires depth <= 8 && (Outside(host, q, depth).None? || depth == 8)
    ensures Serve(host, q, depth).answers == LocalAnswers(host, q, depth)
  {
    ServeStays(host, q, depth);
  }

  lemma ServeStays(host: Host, q: Query, depth: nat)
    requires depth <= MAX_DEPTH && (Outside(host, q, depth).None? || depth == MAX_DEPTH)
    ensures Serve(host, q, depth).answers == LocalAnswers(host, q, depth)
  {
    var served := ServedBy(host, q, depth);
    if served.Some? {
      var (z, hops) := served.value;
      OutsideIs(host, q, depth, z, hops);
      NothingOutside(host, q, depth, z, hops[|hops| - 1].step);
      ServedHere(host, q, depth, z, hops);
    } else {
      ServedAnswers(host, q, depth);
    }
  }

  lemma OutsideIs(host: Host, q: Query, depth: nat, z: Zone, hops: seq<Hop>)
    requires depth <= MAX_DEPTH && ServedBy(host, q, depth) == Some((z, hops))
    ensures var last := hops[|hops| - 1].step;
      Outside(host, q, depth).Some? <==> Leads(q.qtype, last) && !IsSubdomain(z.origin, last.to)
  {
  }

  lemma ServedHere(host: Host, q: Query, depth: nat, z: Zone, hops: seq<Hop>)
    requires depth <= MAX_DEPTH && ServedBy(host, q, depth) == Some((z, hops))
    requires ExternalAnswers(z, EnvAt(host, q, depth), q.qtype, hops[|hops| - 1].step) == []
    ensures Serve(host, q, depth).answers == HopRecords(hops)
  {
    ServedAnswers(host, q, depth);
    assert HopRecords(hops) + [] == HopRecords(hops);
  }

  lemma NothingOutside(host: Host, q: Query, depth: nat, z: Zone, last: Step)
    requires depth <= MAX_DEPTH && (!(Leads(q.qtype, last) && !IsSubdomain(z.origin, last.to)) || depth == MAX_DEPTH)
    ensures ExternalAnswers(z, EnvAt(host, q, depth), q.qtype, last) == []
  {
    OutsideAnswers(host, q, depth, z, last);
  }

  /** A lookup that goes on outside its zone answers with what it finds in the zone
      and then with all the lookup nested in it answers. */
  lemma ServeGoesOn(host: Host, q: Query, depth: nat, n: Name)
    requires depth < 8 && Outside(host, q, depth) == Some(n)
    ensures Serve(host, q, depth).answers ==
      LocalAnswers(host, q, depth) + Serve(host, Query(n, q.qtype, q.dnssec), depth + 1).answers
  {
    ServedAnswers(host, q, depth);
    var (z, hops) := ServedBy(host, q, depth).value;
    OutsideAnswers(host, q, depth, z, hops[|hops| - 1].step);
  }

  /** The answers of each lookup, one after another. */
  ghost function Gathered(host: Host, ls: seq<Level>): seq<Record>
    requires forall i :: 0 <= i < |ls| ==> ls[i].depth <= MAX_DEPTH
  {
    if ls == [] then [] else LocalAnswers(host, ls[0].q, ls[0].depth) + Gathered(host, ls[1..])
  }

  lemma GatheredCons(host: Host, l: Level, ls: seq<Level>)
    requires l.depth <= MAX_DEPTH && forall i :: 0 <= i < |ls| ==> ls[i].depth <= MAX_DEPTH
    ensures Gathered(host, [l] + ls) == LocalAnswers(host, l.q, l.depth) + Gathered(host, ls)
  {
    assert ([l] + ls)[1..] == ls;
  }

  lemma GatheredStep(host: Host, q: Query, depth: nat, n: Name, inner: seq<Level>)
    requires depth < 8 && Outside(host, q, depth) == Some(n)
    requires inner == Nest(host, Query(n, q.qtype, q.dnssec), depth + 1)
    ensures Gathered(host, Nest(host, q, depth)) == LocalAnswers(host, q, depth) + Gathered(host, inner)
  {
    GatheredCons(host, Level(q, depth), inner);
  }

  lemma GatheredEnd(host: Host, q: Query, depth: nat)
    requires depth <= 8 && (Outside(host, q, depth).None? || depth == 8)
    ensures Gathered(host, Nest(host, q, depth)) == LocalAnswers(host, q, depth)
  {
    GatheredCons(host, Level(q, depth), []);
    assert [Level(q, depth)] + [] == [Level(q, depth)];
  }

  lemma ServeParts(host: Host, q: Query, depth: nat, n: Name) returns (own: seq<Record>)
    requires depth < 8 && Outside(host, q, depth) == Some(n)
    ensures var inner := Query(n, q.qtype, q.dnssec);
      && Serve(host, q, depth).answers == own + Serve(host, inner, depth + 1).answers
      && Gathered(host, Nest(host, q, depth)) == own + Gathered(host, Nest(host, inner, depth + 1))
  {
    own := LocalAnswers(host, q, depth);
    ServeGoesOn(host, q, depth, n);
    GatheredStep(host, q, depth, n, Nest(host, Query(n, q.qtype, q.dnssec), depth + 1));
  }

  /** The lookups that are counted are the lookups that are made: the whole answer
      is the answers of each nested lookup, in order, and nothing else. */
  lemma {:induction false} ServeIsNested(host: Host, q: Query, depth: nat)
    requires depth <= MAX_DEPTH
    ensures Serve(host, q, depth).answers == Gathered(host, Nest(host, q, depth))
    decreases MAX_DEPTH - depth
  {
    var n := Outside(host, q, depth);
    if n.None? || depth == MAX_DEPTH {
      ServeEnds(host, q, depth);
      GatheredEnd(host, q, depth);
    } else {
      var own := ServeParts(host, q, depth, n.value);
      ServeIsNested(host, Query(n.value, q.qtype, q.dnssec), depth + 1);
    }
  }
}
