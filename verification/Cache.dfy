/** The response cache: two sharded least-recently-used stores, one for answers
    and one for denials. Times are in nanoseconds. */
module Cache {
  import opened Names
  import opened Records
  import Server

  const SECOND := 1_000_000_000
  const U32_RANGE := 0x1_0000_0000
  const SHARDS := 256
  const OPT: RType := OtherType(41)

  function Secs(d: nat): nat { d / SECOND }

  function U32(n: nat): nat { n % U32_RANGE }

  datatype Code = NoErrorCode | NameErrorCode | FailureCode

  /** A response; `edns` is the DO bit of its OPT record, if it has one. */
  datatype Response = Response(
    id: nat, isQuery: bool, code: Code, truncated: bool, authoritative: bool, rd: bool, cd: bool,
    question: Option<Name>, answers: seq<Record>, servers: seq<Record>, extra: seq<Record>, edns: Option<bool>)
  {
    function All(): seq<Record> { answers + servers + extra }
  }

  datatype Request = Request(id: nat, name: Name, qtype: RType, rd: bool, cd: bool, edns: Option<bool>) {
    function CacheKey(): Key { Key(name, qtype, edns == Some(true), cd) }
  }

  datatype Key = Key(name: Name, qtype: RType, dnssec: bool, cd: bool)

  datatype Config = Config(
    successCap: nat, maxTtl: nat, minTtl: nat,
    denialCap: nat, maxDenialTtl: nat, minDenialTtl: nat,
    staleUpTo: nat, failTtl: nat, keepTtl: bool,
    disableSuccess: Option<seq<Name>>, disableDenial: Option<seq<Name>>,
    hash: Key -> nat)
  {
    /** The clamps panic otherwise. */
    predicate Valid() { minTtl <= maxTtl && minDenialTtl <= maxDenialTtl }

    function Cap(which: Which): nat {
      var cap := (if which == Success then successCap else denialCap) / SHARDS;
      if cap < 1 then 1 else cap
    }
  }

  datatype Which = Success | Denial

  // ------------------------------------------------------ classification

  datatype Class = Answered | NoData | NameError | Delegation | OtherError | Meta

  predicate HasType(rs: seq<Record>, t: RType) { exists r :: r in rs && r.Type() == t }

  function Typify(m: Response): Class {
    if !m.isQuery then Meta
    else if m.code == NameErrorCode then NameError
    else if m.code == FailureCode then OtherError
    else if m.answers != [] then Answered
    else if HasType(m.servers, SOA) then NoData
    else if HasType(m.servers, NS) && !m.authoritative then Delegation
    else NoData
  }

  /** The record ends the scan of a negative answer. */
  predicate Settles(r: Record, negative: bool) { negative && r.data.SoaData? }

  function Min(a: nat, b: nat): nat { if a < b then a else b }

  /** The lifetime, in seconds, of a message with these records. */
  ghost predicate IsLifetime(rs: seq<Record>, negative: bool, t: nat) {
    if exists i :: 0 <= i < |rs| && Settles(rs[i], negative) then
      exists i :: 0 <= i < |rs| && Settles(rs[i], negative) && t == Min(rs[i].ttl, rs[i].data.minimum) &&
        forall j :: 0 <= j < i ==> !Settles(rs[j], negative)
    else if exists i :: 0 <= i < |rs| && rs[i].Type() != OPT then
      && (exists i :: 0 <= i < |rs| && rs[i].Type() != OPT && t == rs[i].ttl)
      && forall i :: 0 <= i < |rs| && rs[i].Type() != OPT ==> t <= rs[i].ttl
    else t == 5
  }

  predicate TtlsFit(rs: seq<Record>) { forall i :: 0 <= i < |rs| ==> rs[i].ttl < U32_RANGE }

  /** `acc` is the smallest TTL so far, if any record counted. */
  function Lifetime(rs: seq<Record>, negative: bool, acc: Option<nat>): nat {
    if rs == [] then (if acc.Some? then acc.value else 5)
    else if rs[0].Type() == OPT then Lifetime(rs[1..], negative, acc)
    else if Settles(rs[0], negative) then Min(rs[0].ttl, rs[0].data.minimum)
    else Lifetime(rs[1..], negative, Some(if acc.Some? then Min(acc.value, rs[0].ttl) else Min(U32_RANGE - 1, rs[0].ttl)))
  }

  method MinimalTtl(m: Response, negative: bool) returns (t: nat)
    ensures t == Lifetime(m.All(), negative, None)
  {
    var rs := m.All();
    var min, found := U32_RANGE - 1, false;
    for i := 0 to |rs|
      invariant 0 <= min < U32_RANGE
      invariant !found ==> min == U32_RANGE - 1
      invariant Lifetime(rs, negative, None) == Lifetime(rs[i..], negative, if found then Some(min) else None)
    {
      var r := rs[i];
      assert rs[i..][1..] == rs[i + 1..];
      if r.Type() == OPT {
        continue;
      }
      if negative && r.data.SoaData? {
        return Min(r.ttl, r.data.minimum);
      }
      found := true;
      if r.ttl < min {
        min := r.ttl;
      }
    }
    return if found then min else 5;
  }

  /** The scan is right for every continuation of a scanned prefix. */
  lemma {:induction false} LifetimeFrom(rs: seq<Record>, negative: bool, k: nat, acc: Option<nat>)
    requires TtlsFit(rs) && k <= |rs|
    requires forall i :: 0 <= i < k ==> !Settles(rs[i], negative)
    requires acc.None? <==> forall i :: 0 <= i < k ==> rs[i].Type() == OPT
    requires acc.Some? ==> (exists i :: 0 <= i < k && rs[i].Type() != OPT && acc.value == rs[i].ttl)
    requires acc.Some? ==> forall i :: 0 <= i < k && rs[i].Type() != OPT ==> acc.value <= rs[i].ttl
    ensures IsLifetime(rs, negative, Lifetime(rs[k..], negative, acc))
    decreases |rs| - k
  {
    if k < |rs| {
      assert rs[k..][1..] == rs[k + 1..];
      var r := rs[k];
      if r.Type() == OPT {
        LifetimeFrom(rs, negative, k + 1, acc);
      } else if !Settles(r, negative) {
        LifetimeFrom(rs, negative, k + 1, Some(if acc.Some? then Min(acc.value, r.ttl) else r.ttl));
      }
    }
  }

  /** What the scan computes: the first SOA of a negative answer settles it, else
      the smallest TTL does, OPT aside, else five seconds. */
  lemma LifetimeIsLeast(m: Response, negative: bool)
    requires TtlsFit(m.All())
    ensures IsLifetime(m.All(), negative, Lifetime(m.All(), negative, None))
  {
    LifetimeFrom(m.All(), negative, 0, None);
    assert m.All()[0..] == m.All();
  }

  function Clamp(t: nat, lo: nat, hi: nat): (r: nat)
    requires lo <= hi
    ensures lo <= r <= hi
  {
    if t < lo then lo else if t > hi then hi else t
  }

  predicate Disabled(zones: Option<seq<Name>>, name: Name) {
    zones.Some? && Server.Pick(zones.value, name).Some?
  }

  /** Caching is switched off for the names at or below the zones listed. */
  lemma DisabledIff(zones: Option<seq<Name>>, name: Name)
    ensures Disabled(zones, name) <==> zones.Some? && exists i :: 0 <= i < |zones.value| && IsSubdomain(zones.value[i], name)
  {
    if zones.Some? { Server.PickIsLongest(zones.value, name); }
  }

  /** Where a response is kept and for how long; `None` if it is not kept. */
  function Placement(cfg: Config, name: Name, m: Response): Option<(Which, nat)>
    requires cfg.Valid()
  {
    if m.truncated || m.question != Some(name) then None
    else
      match Typify(m)
      case Answered => SuccessPlacement(cfg, name, m)
      case Delegation => SuccessPlacement(cfg, name, m)
      case NoData => DenialPlacement(cfg, name, m)
      case NameError => DenialPlacement(cfg, name, m)
      case OtherError => if cfg.failTtl == 0 then None else Some((Denial, cfg.failTtl))
      case Meta => None
  }

  function SuccessPlacement(cfg: Config, name: Name, m: Response): Option<(Which, nat)>
    requires cfg.Valid()
  {
    if Disabled(cfg.disableSuccess, name) then None
    else
      var ttl := if m.answers == [] && m.servers == [] then cfg.minTtl else Lifetime(m.All(), false, None) * SECOND;
      Some((Success, Clamp(ttl, cfg.minTtl, cfg.maxTtl)))
  }

  function DenialPlacement(cfg: Config, name: Name, m: Response): Option<(Which, nat)>
    requires cfg.Valid()
  {
    if Disabled(cfg.disableDenial, name) then None
    else
      var ttl := if m.servers == [] && m.answers == [] then cfg.minDenialTtl else Lifetime(m.All(), true, None) * SECOND;
      Some((Denial, Clamp(ttl, cfg.minDenialTtl, cfg.maxDenialTtl)))
  }

  /** What is kept where, over the message itself: answers and referrals among the
      successes; name errors, empty answers and (if they are kept at all) failures
      among the denials; lifetimes within the configured bounds. */
  lemma KeptWhere(cfg: Config, name: Name, m: Response)
    requires cfg.Valid()
    ensures var kept := Placement(cfg, name, m);
      var asked := !m.truncated && m.question == Some(name) && m.isQuery;
      var positive := m.answers != [] || (!HasType(m.servers, SOA) && HasType(m.servers, NS) && !m.authoritative);
      && (kept.Some? && kept.value.0 == Success <==>
            asked && m.code == NoErrorCode && positive && !Disabled(cfg.disableSuccess, name))
      && (kept.Some? && kept.value.0 == Denial <==>
            asked && if m.code == FailureCode then cfg.failTtl > 0
                     else (m.code == NameErrorCode || !positive) && !Disabled(cfg.disableDenial, name))
      && (kept.Some? && kept.value.0 == Success ==> cfg.minTtl <= kept.value.1 <= cfg.maxTtl)
      && (kept.Some? && kept.value.0 == Denial && m.code != FailureCode ==> cfg.minDenialTtl <= kept.value.1 <= cfg.maxDenialTtl)
  {
  }

  /** For how long: the message's lifetime, raised to the least and cut to the most
      configured for its kind; the least for a message without answers and name
      servers; failures for the time set for them. */
  lemma KeptHowLong(cfg: Config, name: Name, m: Response, t: nat)
    requires cfg.Valid() && TtlsFit(m.All()) && Placement(cfg, name, m).Some?
    requires IsLifetime(m.All(), Placement(cfg, name, m).value.0 == Denial, t)
    ensures var (which, ttl) := Placement(cfg, name, m).value;
      var least, most := if which == Success then cfg.minTtl else cfg.minDenialTtl, if which == Success then cfg.maxTtl else cfg.maxDenialTtl;
      if m.code == FailureCode then ttl == cfg.failTtl
      else if m.answers == [] && m.servers == [] then ttl == least
      else if t * SECOND <= least then ttl == least
      else if t * SECOND >= most then ttl == most
      else ttl == t * SECOND
  {
    var negative := Placement(cfg, name, m).value.0 == Denial;
    LifetimeIsLeast(m, negative);
    LifetimeIsUnique(m.All(), negative, t, Lifetime(m.All(), negative, None));
  }

  lemma LifetimeIsUnique(rs: seq<Record>, negative: bool, t: nat, u: nat)
    requires IsLifetime(rs, negative, t) && IsLifetime(rs, negative, u)
    ensures t == u
  {
    if exists i :: 0 <= i < |rs| && Settles(rs[i], negative) {
      var i :| 0 <= i < |rs| && Settles(rs[i], negative) && t == Min(rs[i].ttl, rs[i].data.minimum) &&
        forall j :: 0 <= j < i ==> !Settles(rs[j], negative);
      var k :| 0 <= k < |rs| && Settles(rs[k], negative) && u == Min(rs[k].ttl, rs[k].data.minimum) &&
        forall j :: 0 <= j < k ==> !Settles(rs[j], negative);
      assert i == k;
    }
  }

  /** Two requests share an entry exactly if they ask for the same name and type and
      agree on the DO bit, unset without EDNS, and on the CD bit. */
  lemma SharesEntryIff(a: Request, b: Request)
    ensures a.CacheKey() == b.CacheKey() <==>
      && a.name == b.name && a.qtype == b.qtype && a.cd == b.cd
      && (a.edns.Some? && a.edns.value <==> b.edns.Some? && b.edns.value)
  {
  }

  /** Each of the 256 shards has its share of the capacity, at least one entry. */
  lemma CapacityIsShared(cfg: Config, which: Which)
    ensures var whole, each := if which == Success then cfg.successCap else cfg.denialCap, cfg.Cap(which);
      each >= 1 && 256 * (each + 1) > whole && (whole >= 256 ==> 256 * each <= whole) && (whole < 256 ==> each == 1)
  {
  }

  // ---------------------------------------------------------------- items

  /** `ttl` in whole seconds, as 32 bits. */
  datatype Item = Item(msg: Response, stored: nat, ttl: nat) {
    function Age(now: nat): nat { if now < stored then 0 else Secs(now - stored) }

    function Remaining(now: nat): int { ttl - Age(now) }

    predicate Stale(now: nat) { Remaining(now) <= 0 }

    /** Too old even to be served stale. */
    predicate Dead(now: nat, staleUpTo: nat) { Stale(now) && Age(now) > ttl + Secs(staleUpTo) }
  }

  function MakeItem(m: Response, now: nat, ttl: nat): Item {
    Item(m.(edns := None), now, U32(Secs(ttl)))
  }

  function Aged(r: Record, age: nat): Record {
    if r.Type() == OPT then r else r.(ttl := if r.ttl < age then 0 else r.ttl - age)
  }

  function Zeroed(r: Record): Record { if r.Type() == OPT then r else r.(ttl := 0) }

  function Mapped(rs: seq<Record>, f: Record -> Record): (out: seq<Record>)
    ensures |out| == |rs| && forall i :: 0 <= i < |rs| ==> out[i] == f(rs[i])
  {
    seq(|rs|, i requires 0 <= i < |rs| => f(rs[i]))
  }

  function Adjusted(m: Response, f: Record -> Record): Response {
    m.(answers := Mapped(m.answers, f), servers := Mapped(m.servers, f), extra := Mapped(m.extra, f))
  }

  /** The stored message aged and re-addressed; the age is truncated to 32 bits. */
  function ToMessage(item: Item, req: Request, now: nat, keepTtl: bool): Response {
    var m := item.msg.(id := req.id, rd := req.rd, cd := req.cd);
    var aged := if keepTtl then m else Adjusted(m, r => Aged(r, U32(item.Age(now))));
    aged.(edns := req.edns)
  }

  // --------------------------------------------------------------- shards

  datatype Entry = Entry(key: Key, item: Item)

  /** Most recently used first. */
  type Shard = seq<Entry>
  type Store = seq<Shard>

  function Find(s: Shard, k: Key): (r: Option<Item>)
    ensures r.Some? <==> exists i :: 0 <= i < |s| && s[i].key == k
    ensures r.Some? ==> Entry(k, r.value) in s
  {
    if s == [] then None
    else if s[0].key == k then Some(s[0].item)
    else Find(s[1..], k)
  }

  function Without(s: Shard, k: Key): (r: Shard)
    ensures |r| <= |s| && (Find(s, k).Some? ==> |r| < |s|)
    ensures forall e :: e in r ==> e in s
  {
    if s == [] then []
    else if s[0].key == k then s[1..]
    else [s[0]] + Without(s[1..], k)
  }

  function Promote(s: Shard, k: Key): Shard {
    if Find(s, k).None? then s else [Entry(k, Find(s, k).value)] + Without(s, k)
  }

  function Put(s: Shard, k: Key, item: Item, cap: nat): Shard {
    var t := [Entry(k, item)] + Without(s, k);
    if |t| > cap then t[..cap] else t
  }

  ghost predicate Distinct(s: Shard) { forall i, j :: 0 <= i < j < |s| ==> s[i].key != s[j].key }

  function Slot(cfg: Config, k: Key): (n: nat)
    ensures n < SHARDS
  {
    cfg.hash(k) % SHARDS
  }

  /** Within capacity, one entry per key, each in its own shard. */
  ghost predicate ValidShard(cfg: Config, which: Which, n: nat, s: Shard) {
    |s| <= cfg.Cap(which) && Distinct(s) && forall e :: e in s ==> Slot(cfg, e.key) == n
  }

  ghost predicate ValidStore(cfg: Config, which: Which, s: Store) {
    |s| == SHARDS && forall n :: 0 <= n < SHARDS ==> ValidShard(cfg, which, n, s[n])
  }

  lemma {:induction false} WithoutKeeps(s: Shard, k: Key)
    requires Distinct(s)
    ensures Distinct(Without(s, k))
    ensures forall e :: e in Without(s, k) <==> e in s && e.key != k
  {
    if s != [] {
      WithoutKeeps(s[1..], k);
      assert forall e :: e in s <==> e == s[0] || e in s[1..];
      assert forall e :: e in s[1..] ==> e.key != s[0].key;
    }
  }

  lemma {:induction false} FindUnique(s: Shard, e: Entry)
    requires Distinct(s) && e in s
    ensures Find(s, e.key) == Some(e.item)
  {
    var i :| 0 <= i < |s| && s[i] == e;
    if i > 0 {
      assert s[1..][i - 1] == e;
      FindUnique(s[1..], e);
    }
  }

  lemma PutKeeps(cfg: Config, which: Which, s: Shard, k: Key, item: Item)
    requires ValidShard(cfg, which, Slot(cfg, k), s)
    ensures var t := Put(s, k, item, cfg.Cap(which));
      ValidShard(cfg, which, Slot(cfg, k), t) && Find(t, k) == Some(item) &&
      forall k' :: k' != k && Find(t, k').Some? ==> Find(t, k') == Find(s, k')
  {
    WithoutKeeps(s, k);
    var t := Put(s, k, item, cfg.Cap(which));
    assert t[0] == Entry(k, item);
    forall k' | k' != k && Find(t, k').Some? ensures Find(t, k') == Find(s, k') {
      FindUnique(s, Entry(k', Find(t, k').value));
    }
  }

  lemma PromoteKeeps(cfg: Config, which: Which, s: Shard, k: Key)
    requires ValidShard(cfg, which, Slot(cfg, k), s)
    ensures ValidShard(cfg, which, Slot(cfg, k), Promote(s, k))
    ensures forall k' :: Find(Promote(s, k), k') == Find(s, k')
  {
    WithoutKeeps(s, k);
    var t := Promote(s, k);
    forall k' ensures Find(t, k') == Find(s, k') {
      if Find(s, k).Some? && k' != k {
        if Find(s, k').Some? {
          var e := Entry(k', Find(s, k').value);
          assert e in Without(s, k);
          assert e in t;
          FindUnique(t, e);
        }
        if Find(t, k').Some? {
          FindUnique(s, Entry(k', Find(t, k').value));
        }
      }
    }
  }

  lemma RemoveKeeps(cfg: Config, which: Which, s: Shard, k: Key)
    requires ValidShard(cfg, which, Slot(cfg, k), s)
    ensures var t := Without(s, k);
      ValidShard(cfg, which, Slot(cfg, k), t) && Find(t, k).None? && forall k' :: k' != k ==> Find(t, k') == Find(s, k')
  {
    WithoutKeeps(s, k);
    var t := Without(s, k);
    forall k' | k' != k ensures Find(t, k') == Find(s, k') {
      if Find(s, k').Some? {
        assert Entry(k', Find(s, k').value) in t;
        FindUnique(t, Entry(k', Find(s, k').value));
      }
      if Find(t, k').Some? {
        FindUnique(s, Entry(k', Find(t, k').value));
      }
    }
  }

  // ----------------------------------------------------------- operations

  datatype State = State(success: Store, denial: Store) {
    function Of(which: Which): Store { if which == Success then success else denial }

    function With(which: Which, s: Store): State { if which == Success then this.(success := s) else this.(denial := s) }
  }

  function EmptyStore(): (s: Store)
    ensures |s| == SHARDS && forall n :: 0 <= n < SHARDS ==> s[n] == []
  {
    seq(SHARDS, n => [])
  }

  predicate Shaped(st: State) { |st.success| == SHARDS && |st.denial| == SHARDS }

  ghost predicate ValidState(cfg: Config, st: State) {
    ValidStore(cfg, Success, st.success) && ValidStore(cfg, Denial, st.denial)
  }

  function FindIn(cfg: Config, st: State, which: Which, k: Key): Option<Item>
    requires Shaped(st)
  {
    Find(st.Of(which)[Slot(cfg, k)], k)
  }

  function Inserted(cfg: Config, st: State, req: Request, m: Response, now: nat): State
    requires cfg.Valid() && Shaped(st)
  {
    match Placement(cfg, req.name, m)
    case None => st
    case Some((which, ttl)) =>
      var k := req.CacheKey();
      var n, store := Slot(cfg, k), st.Of(which);
      st.With(which, store[n := Put(store[n], k, MakeItem(m, now, ttl), cfg.Cap(which))])
  }

  datatype Hit = Hit(msg: Response, which: Which, stale: bool)

  function HitOf(cfg: Config, item: Item, which: Which, req: Request, now: nat): Hit {
    var m := ToMessage(item, req, now, cfg.keepTtl);
    Hit(if item.Stale(now) then Adjusted(m, Zeroed) else m, which, item.Stale(now))
  }

  /** The store that answers for the key: success whenever it holds the key. */
  function Answering(cfg: Config, st: State, k: Key): Option<Which>
    requires Shaped(st)
  {
    if FindIn(cfg, st, Success, k).Some? then Some(Success)
    else if FindIn(cfg, st, Denial, k).Some? then Some(Denial)
    else None
  }

  function Looked(cfg: Config, st: State, req: Request, now: nat): (State, Option<Hit>)
    requires Shaped(st)
  {
    var k := req.CacheKey();
    match Answering(cfg, st, k)
    case None => (st, None)
    case Some(which) =>
      var n, store, item := Slot(cfg, k), st.Of(which), FindIn(cfg, st, which, k).value;
      if item.Dead(now, cfg.staleUpTo) then (st.With(which, store[n := Without(store[n], k)]), None)
      else (st.With(which, store[n := Promote(store[n], k)]), Some(HitOf(cfg, item, which, req, now)))
  }

  class ResponseCache {
    const cfg: Config
    var success: Store
    var denial: Store

    ghost predicate Valid()
      reads this
    {
      cfg.Valid() && ValidState(cfg, Current())
    }

    function Current(): State
      reads this
    {
      State(success, denial)
    }

    constructor (c: Config)
      requires c.Valid()
      ensures Valid() && cfg == c && Current() == State(EmptyStore(), EmptyStore())
    {
      cfg := c;
      success, denial := EmptyStore(), EmptyStore();
    }

    method Insert(req: Request, m: Response, now: nat) returns (kept: Option<nat>)
      requires Valid()
      modifies this
      ensures Valid() && Current() == Inserted(cfg, old(Current()), req, m, now)
      ensures kept == match Placement(cfg, req.name, m) { case Some((_, ttl)) => Some(ttl) case None => None }
    {
      if m.truncated {
        return None;
      }
      var kind := Typify(m);
      if m.question != Some(req.name) {
        return None;
      }
      var which, ttl;
      if kind == Answered || kind == Delegation {
        if cfg.disableSuccess.Some? {
          var z := Server.ZonesMatch(cfg.disableSuccess.value, req.name);
          if z.Some? {
            return None;
          }
        }
        var t := MinimalTtl(m, false);
        ttl := Clamp(if m.answers == [] && m.servers == [] then cfg.minTtl else t * SECOND, cfg.minTtl, cfg.maxTtl);
        which := Success;
      } else if kind == NoData || kind == NameError {
        if cfg.disableDenial.Some? {
          var z := Server.ZonesMatch(cfg.disableDenial.value, req.name);
          if z.Some? {
            return None;
          }
        }
        var t := MinimalTtl(m, true);
        ttl := Clamp(if m.servers == [] && m.answers == [] then cfg.minDenialTtl else t * SECOND, cfg.minDenialTtl, cfg.maxDenialTtl);
        which := Denial;
      } else if kind == OtherError {
        if cfg.failTtl == 0 {
          return None;
        }
        ttl := cfg.failTtl;
        which := Denial;
      } else {
        return None;
      }
      Store(which, req.CacheKey(), MakeItem(m, now, ttl));
      kept := Some(ttl);
    }

    method Store(which: Which, k: Key, item: Item)
      requires Valid()
      modifies this
      ensures Valid()
      ensures Current() == var n, s := Slot(cfg, k), old(Current()).Of(which);
        old(Current()).With(which, s[n := Put(s[n], k, item, cfg.Cap(which))])
    {
      var n := Slot(cfg, k);
      ghost var s := Current().Of(which);
      PutKeeps(cfg, which, s[n], k, item);
      if which == Success {
        success := success[n := Put(success[n], k, item, cfg.Cap(which))];
      } else {
        denial := denial[n := Put(denial[n], k, item, cfg.Cap(which))];
      }
    }

    method Get(req: Request, now: nat) returns (hit: Option<Hit>)
      requires Valid()
      modifies this
      ensures Valid() && (Current(), hit) == Looked(cfg, old(Current()), req, now)
    {
      var k := req.CacheKey();
      var n := Slot(cfg, k);
      var item := Find(success[n], k);
      if item.Some? {
        PromoteKeeps(cfg, Success, success[n], k);
        RemoveKeeps(cfg, Success, success[n], k);
        if item.value.Dead(now, cfg.staleUpTo) {
          success := success[n := Without(success[n], k)];
          return None;
        }
        success := success[n := Promote(success[n], k)];
        return Some(HitOf(cfg, item.value, Success, req, now));
      }
      item := Find(denial[n], k);
      if item.Some? {
        PromoteKeeps(cfg, Denial, denial[n], k);
        RemoveKeeps(cfg, Denial, denial[n], k);
        if item.value.Dead(now, cfg.staleUpTo) {
          denial := denial[n := Without(denial[n], k)];
          return None;
        }
        denial := denial[n := Promote(denial[n], k)];
        return Some(HitOf(cfg, item.value, Denial, req, now));
      }
      return None;
    }
  }
}
