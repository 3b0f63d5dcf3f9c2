/** What the cache guarantees over every sequence of inserts and lookups. */
module CacheRuns {
  import opened Names
  import opened Records
  import opened Cache

  datatype Op = Insert(now: nat, req: Request, m: Response) | Lookup(now: nat, req: Request)

  ghost predicate Ordered(h: seq<Op>) { forall i, j :: 0 <= i < j < |h| ==> h[i].now <= h[j].now }

  function Step(cfg: Config, st: State, op: Op): (r: State)
    requires cfg.Valid() && Shaped(st)
    ensures Shaped(r)
  {
    match op
    case Insert(now, req, m) => Inserted(cfg, st, req, m, now)
    case Lookup(now, req) => Looked(cfg, st, req, now).0
  }

  /** The state after a history, from empty stores. */
  function Play(cfg: Config, h: seq<Op>): (st: State)
    requires cfg.Valid()
    ensures Shaped(st)
  {
    if h == [] then State(EmptyStore(), EmptyStore())
    else Step(cfg, Play(cfg, h[..|h| - 1]), h[|h| - 1])
  }

  /** The operation puts a response under `k` in that store. */
  predicate Puts(cfg: Config, op: Op, which: Which, k: Key)
    requires cfg.Valid()
  {
    && op.Insert? && op.req.CacheKey() == k
    && Placement(cfg, op.req.name, op.m).Some? && Placement(cfg, op.req.name, op.m).value.0 == which
  }

  function ItemPut(cfg: Config, op: Op, which: Which, k: Key): Item
    requires cfg.Valid() && Puts(cfg, op, which, k)
  {
    MakeItem(op.m, op.now, Placement(cfg, op.req.name, op.m).value.1)
  }

  ghost predicate LastPut(cfg: Config, h: seq<Op>, which: Which, k: Key, i: int)
    requires cfg.Valid()
  {
    0 <= i < |h| && Puts(cfg, h[i], which, k) && forall j :: i < j < |h| ==> !Puts(cfg, h[j], which, k)
  }

  lemma InsertFinds(cfg: Config, st: State, op: Op, which: Which, k: Key)
    requires cfg.Valid() && Shaped(st) && ValidState(cfg, st) && op.Insert?
    ensures ValidState(cfg, Step(cfg, st, op))
    ensures var found := FindIn(cfg, Step(cfg, st, op), which, k);
      if Puts(cfg, op, which, k) then found == Some(ItemPut(cfg, op, which, k))
      else found.None? || found == FindIn(cfg, st, which, k)
  {
    var k' := op.req.CacheKey();
    if Placement(cfg, op.req.name, op.m).Some? {
      var (w, ttl) := Placement(cfg, op.req.name, op.m).value;
      PutKeeps(cfg, w, st.Of(w)[Slot(cfg, k')], k', MakeItem(op.m, op.now, ttl));
    }
  }

  lemma LookupFinds(cfg: Config, st: State, op: Op, which: Which, k: Key)
    requires cfg.Valid() && Shaped(st) && ValidState(cfg, st) && op.Lookup?
    ensures ValidState(cfg, Step(cfg, st, op))
    ensures var found := FindIn(cfg, Step(cfg, st, op), which, k);
      found.None? || found == FindIn(cfg, st, which, k)
  {
    var k' := op.req.CacheKey();
    if Answering(cfg, st, k').Some? {
      var w := Answering(cfg, st, k').value;
      PromoteKeeps(cfg, w, st.Of(w)[Slot(cfg, k')], k');
      RemoveKeeps(cfg, w, st.Of(w)[Slot(cfg, k')], k');
    }
  }

  /** One operation: validity is kept, and what is found under a key was either
      just put there or was there before. */
  lemma StepFinds(cfg: Config, st: State, op: Op, which: Which, k: Key)
    requires cfg.Valid() && Shaped(st) && ValidState(cfg, st)
    ensures ValidState(cfg, Step(cfg, st, op))
    ensures var found := FindIn(cfg, Step(cfg, st, op), which, k);
      if Puts(cfg, op, which, k) then found == Some(ItemPut(cfg, op, which, k))
      else found.None? || found == FindIn(cfg, st, which, k)
  {
    match op
    case Insert(_, _, _) => InsertFinds(cfg, st, op, which, k);
    case Lookup(_, _) => LookupFinds(cfg, st, op, which, k);
  }

  lemma {:induction false} PlayIsValid(cfg: Config, h: seq<Op>)
    requires cfg.Valid()
    ensures ValidState(cfg, Play(cfg, h))
  {
    if h != [] {
      PlayIsValid(cfg, h[..|h| - 1]);
      var st := Play(cfg, h[..|h| - 1]);
      StepFinds(cfg, st, h[|h| - 1], Success, h[|h| - 1].req.CacheKey());
    }
  }

  function Held(cfg: Config, h: seq<Op>, which: Which, k: Key): Option<Item>
    requires cfg.Valid()
  {
    FindIn(cfg, Play(cfg, h), which, k)
  }

  lemma HeldStep(cfg: Config, h: seq<Op>, op: Op, which: Which, k: Key)
    requires cfg.Valid()
    ensures Puts(cfg, op, which, k) ==> Held(cfg, h + [op], which, k) == Some(ItemPut(cfg, op, which, k))
    ensures !Puts(cfg, op, which, k) && Held(cfg, h + [op], which, k).Some? ==>
      Held(cfg, h + [op], which, k) == Held(cfg, h, which, k)
  {
    PlayIsValid(cfg, h);
    StepFinds(cfg, Play(cfg, h), op, which, k);
    assert (h + [op])[..|h|] == h;
  }

  ghost predicate HoldsFrom(cfg: Config, h: seq<Op>, which: Which, k: Key, i: int)
    requires cfg.Valid()
  {
    LastPut(cfg, h, which, k, i) && Held(cfg, h, which, k) == Some(ItemPut(cfg, h[i], which, k))
  }

  /** Whatever a store holds under a key is what was put there last. */
  lemma {:induction false} HeldIsLastPut(cfg: Config, h: seq<Op>, which: Which, k: Key)
    requires cfg.Valid() && Held(cfg, h, which, k).Some?
    ensures exists i :: HoldsFrom(cfg, h, which, k, i)
  {
    if h != [] {
      var n := |h| - 1;
      var before, op := h[..n], h[n];
      assert h == before + [op];
      HeldStep(cfg, before, op, which, k);
      if Puts(cfg, op, which, k) {
        assert HoldsFrom(cfg, h, which, k, n);
      } else {
        HeldIsLastPut(cfg, before, which, k);
        var i :| HoldsFrom(cfg, before, which, k, i);
        assert HoldsFrom(cfg, h, which, k, i);
      }
    }
  }

  // ------------------------------------------------------------- a hit

  /** `out` is `orig` with other TTLs, OPT records aside. */
  predicate SameButTtl(orig: seq<Record>, out: seq<Record>) {
    |out| == |orig| && forall i :: 0 <= i < |out| ==>
      out[i].owner == orig[i].owner && out[i].data == orig[i].data && (orig[i].Type() == OPT ==> out[i] == orig[i])
  }

  /** The hit is that message, re-addressed to the request. */
  predicate SameMessage(m: Response, req: Request, out: Response) {
    && SameButTtl(m.answers, out.answers) && SameButTtl(m.servers, out.servers) && SameButTtl(m.extra, out.extra)
    && out.id == req.id && out.rd == req.rd && out.cd == req.cd && out.edns == req.edns
    && out.code == m.code && out.question == m.question && out.authoritative == m.authoritative
    && out.isQuery == m.isQuery && out.truncated == m.truncated
  }

  /** The record expires, seen from the hit, less than a second after it would
      have seen from the insert, unless it is served with no lifetime at all. */
  predicate LifetimeKept(orig: Record, stored: nat, out: Record, now: nat) {
    out.ttl == 0 || now + out.ttl * SECOND < stored + orig.ttl * SECOND + SECOND
  }

  lemma AgedLifetime(item: Item, r: Record, now: nat)
    requires item.stored <= now && r.Type() != OPT && item.Age(now) < U32_RANGE
    ensures LifetimeKept(r, item.stored, Aged(r, U32(item.Age(now))), now)
  {
    var age := item.Age(now);
    assert now - item.stored < (age + 1) * SECOND;
  }

  function Left(ttl: nat, age: nat): nat { if ttl < age then 0 else ttl - age }

  /** One section of a hit against the section that was stored. */
  ghost predicate SectionKept(cfg: Config, orig: seq<Record>, stored: nat, out: seq<Record>, now: nat, stale: bool)
    requires stored <= now
  {
    forall i :: 0 <= i < |orig| && i < |out| && orig[i].Type() != OPT ==>
      && (stale ==> out[i].ttl == 0)
      && (!cfg.keepTtl ==> LifetimeKept(orig[i], stored, out[i], now))
      && (!stale ==> out[i].ttl == if cfg.keepTtl then orig[i].ttl else Left(orig[i].ttl, Secs(now - stored)))
  }

  lemma SectionServed(cfg: Config, item: Item, rs: seq<Record>, now: nat)
    requires item.stored <= now && item.ttl < U32_RANGE
    ensures var aged := if cfg.keepTtl then rs else Mapped(rs, r => Aged(r, U32(item.Age(now))));
      var out := if item.Stale(now) then Mapped(aged, Zeroed) else aged;
      SameButTtl(rs, out) && SectionKept(cfg, rs, item.stored, out, now, item.Stale(now))
  {
    var f := r => Aged(r, U32(item.Age(now)));
    forall i | 0 <= i < |rs| && rs[i].Type() != OPT && !item.Stale(now)
      ensures LifetimeKept(rs[i], item.stored, Aged(rs[i], U32(item.Age(now))), now)
    {
      AgedLifetime(item, rs[i], now);
    }
  }

  /** `hit` is `m`, put at time `stored` for `ttl` seconds: at most `ttl +
      stale_upto` whole seconds old, stale records with TTL 0, and without
      `keepttl` no record outliving its original lifetime by a full second. */
  ghost predicate GoodHit(cfg: Config, m: Response, stored: nat, ttl: nat, req: Request, now: nat, hit: Hit) {
    && stored <= now && SameMessage(m, req, hit.msg)
    && Secs(now - stored) <= ttl + Secs(cfg.staleUpTo)
    && (hit.stale <==> Secs(now - stored) >= ttl)
    && SectionKept(cfg, m.answers, stored, hit.msg.answers, now, hit.stale)
    && SectionKept(cfg, m.servers, stored, hit.msg.servers, now, hit.stale)
    && SectionKept(cfg, m.extra, stored, hit.msg.extra, now, hit.stale)
  }

  lemma ItemServed(cfg: Config, m: Response, item: Item, which: Which, req: Request, now: nat)
    requires item.msg == m.(edns := None) && item.stored <= now && item.ttl < U32_RANGE && !item.Dead(now, cfg.staleUpTo)
    ensures GoodHit(cfg, m, item.stored, item.ttl, req, now, HitOf(cfg, item, which, req, now))
  {
    SectionServed(cfg, item, m.answers, now);
    SectionServed(cfg, item, m.servers, now);
    SectionServed(cfg, item, m.extra, now);
  }

  /** The whole seconds for which a put is kept, as 32 bits. */
  function KeptFor(cfg: Config, op: Op): nat
    requires cfg.Valid() && op.Insert? && Placement(cfg, op.req.name, op.m).Some?
  {
    U32(Secs(Placement(cfg, op.req.name, op.m).value.1))
  }

  /** The main guarantee: after every history, a hit is the message last put under
      that key in the answering store, neither too old nor kept alive too long. */
  lemma HitIsLastPut(cfg: Config, h: seq<Op>, req: Request, now: nat)
    requires cfg.Valid() && Ordered(h + [Lookup(now, req)])
    requires Looked(cfg, Play(cfg, h), req, now).1.Some?
    ensures var hit := Looked(cfg, Play(cfg, h), req, now).1.value;
      exists i :: LastPut(cfg, h, hit.which, req.CacheKey(), i) &&
        GoodHit(cfg, h[i].m, h[i].now, KeptFor(cfg, h[i]), req, now, hit)
  {
    var k, st := req.CacheKey(), Play(cfg, h);
    var hit := Looked(cfg, st, req, now).1.value;
    HeldIsLastPut(cfg, h, hit.which, k);
    var i :| HoldsFrom(cfg, h, hit.which, k, i);
    var item := ItemPut(cfg, h[i], hit.which, k);
    assert h[i].now <= now by {
      var whole := h + [Lookup(now, req)];
      assert whole[i] == h[i] && whole[|h|].now == now;
    }
    ItemServed(cfg, h[i].m, item, hit.which, req, now);
  }

  // -------------------------------------------------------------- capacity

  function Total(s: Store): nat { if s == [] then 0 else |s[0]| + Total(s[1..]) }

  lemma {:induction false} TotalBounded(s: Store, cap: nat)
    requires forall n :: 0 <= n < |s| ==> |s[n]| <= cap
    ensures Total(s) <= |s| * cap
  {
    if s != [] { TotalBounded(s[1..], cap); }
  }

  /** A store never holds more than `256 * max(cap / 256, 1)` items. */
  lemma CapacityHolds(cfg: Config, h: seq<Op>, which: Which)
    requires cfg.Valid()
    ensures Total(Play(cfg, h).Of(which)) <= SHARDS * cfg.Cap(which)
  {
    PlayIsValid(cfg, h);
    TotalBounded(Play(cfg, h).Of(which), cfg.Cap(which));
  }

  // ------------------------------------------------------------- residency

  /** The keys used more recently than `k`. */
  ghost function Ahead(s: Shard, k: Key): set<Key> {
    if s == [] || s[0].key == k then {} else {s[0].key} + Ahead(s[1..], k)
  }

  lemma {:induction false} AheadAmong(s: Shard, k: Key)
    ensures forall x :: x in Ahead(s, k) ==> Find(s, x).Some?
  {
    if s != [] && s[0].key != k { AheadAmong(s[1..], k); }
  }

  lemma {:induction false} AheadWithout(s: Shard, gone: Key, k: Key)
    requires gone != k
    ensures Ahead(Without(s, gone), k) <= Ahead(s, k)
  {
    if s != [] && s[0].key != gone { AheadWithout(s[1..], gone, k); }
  }

  function Position(s: Shard, k: Key): nat {
    if s == [] || s[0].key == k then 0 else 1 + Position(s[1..], k)
  }

  lemma {:induction false} PositionCounts(s: Shard, k: Key)
    requires Distinct(s)
    ensures Position(s, k) == |Ahead(s, k)|
  {
    if s != [] && s[0].key != k {
      PositionCounts(s[1..], k);
      AheadAmong(s[1..], k);
      assert s[0].key !in Ahead(s[1..], k);
    }
  }

  /** Cutting a shard off leaves `k` in place when it comes before the cut. */
  lemma {:induction false} CutKeeps(s: Shard, k: Key, cap: nat)
    requires Find(s, k).Some? && Position(s, k) < cap <= |s|
    ensures Find(s[..cap], k) == Find(s, k) && Ahead(s[..cap], k) == Ahead(s, k)
  {
    if s[0].key != k {
      CutKeeps(s[1..], k, cap - 1);
      assert s[..cap][1..] == s[1..][..cap - 1];
    }
  }

  lemma PutResident(s: Shard, k': Key, item: Item, cap: nat, k: Key, used: set<Key>)
    requires Distinct(s) && |s| <= cap && Find(s, k).Some? && k != k'
    requires Ahead(s, k) <= used && k' in used && |used| < cap
    ensures var t := Put(s, k', item, cap); Find(t, k) == Find(s, k) && Ahead(t, k) <= used
  {
    var w := Without(s, k');
    var t := [Entry(k', item)] + w;
    WithoutKeeps(s, k');
    AheadWithout(s, k', k);
    assert Entry(k, Find(s, k).value) in w;
    FindUnique(w, Entry(k, Find(s, k).value));
    assert t[1..] == w;
    assert Ahead(t, k) == {k'} + Ahead(w, k);
    if |t| > cap {
      SizeOfSubset(Ahead(t, k), used);
      PositionCounts(t, k);
      CutKeeps(t, k, cap);
    }
  }

  lemma {:induction false} SizeOfSubset<T>(a: set<T>, b: set<T>)
    requires a <= b
    ensures |a| <= |b|
  {
    if a != {} {
      var x :| x in a;
      SizeOfSubset(a - {x}, b - {x});
    }
  }

  lemma PromoteResident(s: Shard, k': Key, k: Key, used: set<Key>)
    requires Ahead(s, k) <= used && (k' == k || k' in used)
    ensures Ahead(Promote(s, k'), k) <= used
  {
    if Find(s, k').Some? && k' != k {
      AheadWithout(s, k', k);
      assert Promote(s, k')[1..] == Without(s, k');
    }
  }

  function ShardOf(cfg: Config, st: State, which: Which, k: Key): Shard
    requires Shaped(st)
  {
    st.Of(which)[Slot(cfg, k)]
  }

  /** `item` is held under `k`, and only keys in `used` were used since. */
  ghost predicate Resident(cfg: Config, st: State, which: Which, k: Key, item: Item, used: set<Key>)
    requires Shaped(st)
  {
    FindIn(cfg, st, which, k) == Some(item) && Ahead(ShardOf(cfg, st, which, k), k) <= used
  }

  lemma InsertResident(cfg: Config, st: State, op: Op, which: Which, k: Key, item: Item, used: set<Key>)
    requires cfg.Valid() && Shaped(st) && ValidState(cfg, st) && op.Insert? && !Puts(cfg, op, which, k)
    requires Resident(cfg, st, which, k, item, used) && |used| < cfg.Cap(which)
    requires var k' := op.req.CacheKey(); k' != k && Slot(cfg, k') == Slot(cfg, k) ==> k' in used
    ensures Resident(cfg, Step(cfg, st, op), which, k, item, used)
  {
    var k' := op.req.CacheKey();
    if Puts(cfg, op, which, k') && Slot(cfg, k') == Slot(cfg, k) {
      PutResident(ShardOf(cfg, st, which, k), k', ItemPut(cfg, op, which, k'), cfg.Cap(which), k, used);
    }
  }

  /** What a lookup under `k'` does to the shard of `k` in one store. */
  lemma LookupShard(cfg: Config, st: State, op: Op, which: Which, k: Key)
    requires cfg.Valid() && Shaped(st) && op.Lookup?
    ensures var k', s, t := op.req.CacheKey(), ShardOf(cfg, st, which, k), ShardOf(cfg, Step(cfg, st, op), which, k);
      || t == s
      || (Slot(cfg, k') == Slot(cfg, k) && t == Promote(s, k'))
      || (Slot(cfg, k') == Slot(cfg, k) && Find(s, k').Some? && Find(s, k').value.Dead(op.now, cfg.staleUpTo) && t == Without(s, k'))
  {
  }

  lemma LookupResident(cfg: Config, st: State, op: Op, which: Which, k: Key, item: Item, used: set<Key>)
    requires cfg.Valid() && Shaped(st) && ValidState(cfg, st) && op.Lookup? && !item.Dead(op.now, cfg.staleUpTo)
    requires Resident(cfg, st, which, k, item, used)
    requires var k' := op.req.CacheKey(); k' != k && Slot(cfg, k') == Slot(cfg, k) ==> k' in used
    ensures Resident(cfg, Step(cfg, st, op), which, k, item, used)
  {
    var k', s, t := op.req.CacheKey(), ShardOf(cfg, st, which, k), ShardOf(cfg, Step(cfg, st, op), which, k);
    LookupShard(cfg, st, op, which, k);
    if t != s {
      if t == Promote(s, k') {
        PromoteKeeps(cfg, which, s, k');
        PromoteResident(s, k', k, used);
      } else {
        RemoveKeeps(cfg, which, s, k');
        AheadWithout(s, k', k);
      }
    }
  }

  /** The other keys of the same shard that operations after the `i`th mention. */
  ghost function UsedSince(cfg: Config, h: seq<Op>, i: int, k: Key): set<Key>
    requires 0 <= i
  {
    set j | i < j < |h| && h[j].req.CacheKey() != k && cfg.hash(h[j].req.CacheKey()) % 256 == cfg.hash(k) % 256 :: h[j].req.CacheKey()
  }

  /** A put stays while it is young enough and fewer other keys of its shard than
      the shard's capacity have been used since. */
  lemma {:induction false} PutStays(cfg: Config, h: seq<Op>, which: Which, k: Key, i: int, now: nat, used: set<Key>)
    requires cfg.Valid() && LastPut(cfg, h, which, k, i)
    requires UsedSince(cfg, h, i, k) <= used && |used| < cfg.Cap(which)
    requires forall j :: 0 <= j < |h| ==> h[j].now <= now
    requires !ItemPut(cfg, h[i], which, k).Dead(now, cfg.staleUpTo)
    ensures Resident(cfg, Play(cfg, h), which, k, ItemPut(cfg, h[i], which, k), used)
  {
    var n := |h| - 1;
    var before, op, item := h[..n], h[n], ItemPut(cfg, h[i], which, k);
    assert h == before + [op];
    PlayIsValid(cfg, before);
    var st := Play(cfg, before);
    if i == n {
      StepFinds(cfg, st, op, which, k);
      assert ShardOf(cfg, Step(cfg, st, op), which, k)[0].key == k;
    } else {
      assert LastPut(cfg, before, which, k, i);
      assert UsedSince(cfg, before, i, k) <= used by {
        assert forall j :: i < j < n ==> before[j] == h[j];
      }
      PutStays(cfg, before, which, k, i, now, used);
      var k' := op.req.CacheKey();
      assert k' != k && Slot(cfg, k') == Slot(cfg, k) ==> k' in UsedSince(cfg, h, i, k);
      if op.Insert? {
        InsertResident(cfg, st, op, which, k, item, used);
      } else {
        assert item.Age(op.now) <= item.Age(now);
        LookupResident(cfg, st, op, which, k, item, used);
      }
    }
  }

  /** When a lookup must hit: the key's last answer is young enough and has not
      been crowded out. Nothing that was put in the denial store can hide it. */
  lemma FreshAnswerHits(cfg: Config, h: seq<Op>, req: Request, now: nat, i: int)
    requires cfg.Valid() && Ordered(h + [Lookup(now, req)])
    requires LastPut(cfg, h, Success, req.CacheKey(), i)
    requires |UsedSince(cfg, h, i, req.CacheKey())| < cfg.Cap(Success)
    requires h[i].now <= now && Secs(now - h[i].now) <= KeptFor(cfg, h[i]) + Secs(cfg.staleUpTo)
    ensures var hit := Looked(cfg, Play(cfg, h), req, now).1;
      hit.Some? && hit.value.which == Success && GoodHit(cfg, h[i].m, h[i].now, KeptFor(cfg, h[i]), req, now, hit.value)
  {
    var k := req.CacheKey();
    InOrder(h, req, now);
    PutStays(cfg, h, Success, k, i, now, UsedSince(cfg, h, i, k));
    ItemServed(cfg, h[i].m, ItemPut(cfg, h[i], Success, k), Success, req, now);
  }

  lemma InOrder(h: seq<Op>, req: Request, now: nat)
    requires Ordered(h + [Lookup(now, req)])
    ensures forall j :: 0 <= j < |h| ==> h[j].now <= now
  {
    var whole := h + [Lookup(now, req)];
    assert forall j :: 0 <= j < |h| ==> whole[j] == h[j];
    assert whole[|h|].now == now;
  }

  /** The denial store answers exactly when the success store does not hold the
      key, however much later the denial came. */
  lemma DenialHits(cfg: Config, h: seq<Op>, req: Request, now: nat, i: int)
    requires cfg.Valid() && Ordered(h + [Lookup(now, req)])
    requires LastPut(cfg, h, Denial, req.CacheKey(), i)
    requires |UsedSince(cfg, h, i, req.CacheKey())| < cfg.Cap(Denial)
    requires h[i].now <= now && Secs(now - h[i].now) <= KeptFor(cfg, h[i]) + Secs(cfg.staleUpTo)
    ensures var hit := Looked(cfg, Play(cfg, h), req, now).1;
      (hit.Some? && hit.value.which == Denial) <==> Held(cfg, h, Success, req.CacheKey()).None?
  {
    var k := req.CacheKey();
    InOrder(h, req, now);
    PutStays(cfg, h, Denial, k, i, now, UsedSince(cfg, h, i, k));
  }

  /** An hour for answers, half an hour for denials, one shard in use. */
  function PlainConfig(): Config {
    Config(9984, 3600 * SECOND, 5 * SECOND, 9984, 1800 * SECOND, 5 * SECOND, 0, 5 * SECOND, false, None, None, _ => 0)
  }

  /** The failing case: an answer is cached, the name is then denied, and a second
      later the cache still gives the answer, not the latest insert. */
  lemma LaterDenialIsHidden(req: Request, a: Record)
    requires a.data.CnameData? && a.ttl == 60
    ensures var m := Response(0, true, NoErrorCode, false, true, false, false, Some(req.name), [a], [], [], None);
      var denial := m.(code := NameErrorCode, answers := []);
      var h := [Insert(0, req, m), Insert(SECOND, req, denial)];
      && LastPut(PlainConfig(), h, Success, req.CacheKey(), 0)
      && LastPut(PlainConfig(), h, Denial, req.CacheKey(), 1)
      && Looked(PlainConfig(), Play(PlainConfig(), h), req, 2 * SECOND).1.Some?
      && Looked(PlainConfig(), Play(PlainConfig(), h), req, 2 * SECOND).1.value.which == Success
  {
    var cfg := PlainConfig();
    var m := Response(0, true, NoErrorCode, false, true, false, false, Some(req.name), [a], [], [], None);
    var denial := m.(code := NameErrorCode, answers := []);
    var h := [Insert(0, req, m), Insert(SECOND, req, denial)];
    var k := req.CacheKey();
    KeptWhere(cfg, req.name, m);
    KeptWhere(cfg, req.name, denial);
    assert Puts(cfg, h[0], Success, k) && Puts(cfg, h[1], Denial, k);
    assert UsedSince(cfg, h, 0, k) == {};
    LongEnough(cfg, Placement(cfg, req.name, m).value.1);
    FreshAnswerHits(cfg, h, req, 2 * SECOND, 0);
  }

  lemma LongEnough(cfg: Config, ttl: nat)
    requires 5 * SECOND <= ttl <= 3600 * SECOND
    ensures Secs(2 * SECOND) <= U32(Secs(ttl))
  {
  }
}
