/** List-then-watch: a relist brings the store to what the list says, and the
    by-address indexes follow every history of updates. */
module KubeWatch {
  import opened Names
  import opened KubeModel
  import opened KubeStore

  function Listing(objs: seq<Object>): seq<Event> {
    if objs == [] then [] else Listing(objs[..|objs| - 1]) + [InitApply(objs[|objs| - 1])]
  }

  /** The events of one relist. */
  function Relist(objs: seq<Object>): seq<Event> {
    [Init] + Listing(objs) + [InitDone]
  }

  function AppliedAll(b: Base, objs: seq<Object>): Base {
    if objs == [] then b else Affect(AppliedAll(b, objs[..|objs| - 1]), ApplyEffect(objs[|objs| - 1]))
  }

  function SeenIn(objs: seq<Object>): set<Key> {
    if objs == [] then {} else SeenIn(objs[..|objs| - 1]) + {KeyOf(objs[|objs| - 1])}
  }

  predicate Touches(e: Effect, i: Item) { !e.Nothing? && e.item == i }

  predicate TouchedBy(objs: seq<Object>, i: Item) {
    exists n :: 0 <= n < |objs| && Touches(ApplyEffect(objs[n]), i)
  }

  ghost predicate AllOfKind(kind: Kind, objs: seq<Object>) {
    forall n :: 0 <= n < |objs| ==> KindOf(objs[n]) == kind
  }

  /** The stored items a watch of `kind` looks after. */
  function OnKind(kind: Kind, b: Base): Base { map i | i in b && OfKind(kind, i) :: b[i] }

  // ------------------------------------------------------ one relist, unfolded

  lemma RunOneMore(kind: Kind, w: Watch, events: seq<Event>, ev: Event)
    ensures WatchRun(kind, w, events + [ev]) == WatchStep(kind, WatchRun(kind, w, events), ev)
  {
    assert (events + [ev])[..|events|] == events;
  }

  lemma {:induction false} ListingRuns(kind: Kind, w: Watch, objs: seq<Object>)
    ensures WatchRun(kind, w, [Init] + Listing(objs)) == Watch(AppliedAll(w.base, objs), SeenIn(objs))
  {
    if objs == [] {
      assert [Init] + Listing(objs) == [] + [Init];
      RunOneMore(kind, w, [], Init);
    } else {
      var before, o := objs[..|objs| - 1], objs[|objs| - 1];
      ListingRuns(kind, w, before);
      assert [Init] + Listing(objs) == ([Init] + Listing(before)) + [InitApply(o)];
      RunOneMore(kind, w, [Init] + Listing(before), InitApply(o));
    }
  }

  lemma RelistRuns(kind: Kind, w: Watch, objs: seq<Object>)
    ensures WatchRun(kind, w, Relist(objs)).base == Kept(AppliedAll(w.base, objs), kind, SeenIn(objs))
  {
    ListingRuns(kind, w, objs);
    RunOneMore(kind, w, [Init] + Listing(objs), InitDone);
  }

  // ----------------------------------------------------- what a list settles

  /** An object of a kind touches only items of that kind, under its own key. */
  lemma EffectIsTagged(kind: Kind, o: Object, i: Item)
    requires KindOf(o) == kind && Touches(ApplyEffect(o), i)
    ensures OfKind(kind, i) && Tag(kind, i) == KeyOf(o)
  {
  }

  /** Touched items end up the same whatever was stored before; the others keep
      their value. */
  lemma {:induction false} AppliedAt(b: Base, objs: seq<Object>, i: Item)
    ensures if TouchedBy(objs, i) then
        (i in AppliedAll(b, objs) <==> i in AppliedAll(map[], objs)) &&
        (i in AppliedAll(b, objs) ==> AppliedAll(b, objs)[i] == AppliedAll(map[], objs)[i])
      else
        (i in AppliedAll(b, objs) <==> i in b) && (i in b ==> AppliedAll(b, objs)[i] == b[i]) &&
        i !in AppliedAll(map[], objs)
  {
    if objs != [] {
      var before, o := objs[..|objs| - 1], objs[|objs| - 1];
      AppliedAt(b, before, i);
      if TouchedBy(before, i) {
        var n :| 0 <= n < |before| && Touches(ApplyEffect(before[n]), i);
        assert Touches(ApplyEffect(objs[n]), i);
      }
      if TouchedBy(objs, i) && !Touches(ApplyEffect(o), i) {
        var n :| 0 <= n < |objs| && Touches(ApplyEffect(objs[n]), i);
        assert Touches(ApplyEffect(before[n]), i);
      }
      assert objs[|objs| - 1] == o;
    }
  }

  lemma {:induction false} SeenMember(objs: seq<Object>, n: nat)
    requires n < |objs|
    ensures KeyOf(objs[n]) in SeenIn(objs)
  {
    if n < |objs| - 1 { SeenMember(objs[..|objs| - 1], n); }
  }

  lemma TouchedIsSeen(kind: Kind, objs: seq<Object>, i: Item)
    requires AllOfKind(kind, objs) && TouchedBy(objs, i)
    ensures OfKind(kind, i) && Tag(kind, i) in SeenIn(objs)
  {
    var n :| 0 <= n < |objs| && Touches(ApplyEffect(objs[n]), i);
    EffectIsTagged(kind, objs[n], i);
    SeenMember(objs, n);
  }

  /** An item the relist would wrongly keep: its key was listed, but no listed
      object spoke of the item itself. */
  predicate Stale(kind: Kind, b: Base, objs: seq<Object>, i: Item) {
    i in b && OfKind(kind, i) && Tag(kind, i) in SeenIn(objs) && !TouchedBy(objs, i)
  }

  lemma RelistAt(kind: Kind, b: Base, objs: seq<Object>, i: Item)
    requires AllOfKind(kind, objs) && OfKind(kind, i)
    ensures var r := Kept(AppliedAll(b, objs), kind, SeenIn(objs));
      var replay := Kept(AppliedAll(map[], objs), kind, SeenIn(objs));
      && (Stale(kind, b, objs, i) ==> i in r && i !in replay)
      && (!Stale(kind, b, objs, i) ==> (i in r <==> i in replay) && (i in r ==> r[i] == replay[i]))
  {
    AppliedAt(b, objs, i);
    if TouchedBy(objs, i) { TouchedIsSeen(kind, objs, i); }
  }

  /** From any earlier state, a relist leaves the watched items as a replay of the
      list from nothing would, exactly when none is stale. */
  lemma RelistConverges(kind: Kind, w: Watch, objs: seq<Object>)
    requires AllOfKind(kind, objs)
    ensures
      (OnKind(kind, WatchRun(kind, w, Relist(objs)).base) ==
       OnKind(kind, WatchRun(kind, Watch(map[], {}), Relist(objs)).base))
      <==> !exists i :: Stale(kind, w.base, objs, i)
  {
    RelistRuns(kind, w, objs);
    RelistRuns(kind, Watch(map[], {}), objs);
    var r := WatchRun(kind, w, Relist(objs)).base;
    var replay := WatchRun(kind, Watch(map[], {}), Relist(objs)).base;
    var x, y := OnKind(kind, r), OnKind(kind, replay);
    if i :| Stale(kind, w.base, objs, i) {
      RelistAt(kind, w.base, objs, i);
      assert i in x && i !in y;
    } else {
      forall i ensures (i in x <==> i in y) && (i in x ==> x[i] == y[i]) {
        if OfKind(kind, i) { RelistAt(kind, w.base, objs, i); }
      }
      assert x == y;
    }
  }

  /** Items of other kinds are left alone. */
  lemma RelistSparesOthers(kind: Kind, w: Watch, objs: seq<Object>, i: Item)
    requires AllOfKind(kind, objs) && !OfKind(kind, i)
    ensures var r := WatchRun(kind, w, Relist(objs)).base;
      (i in r <==> i in w.base) && (i in r ==> r[i] == w.base[i])
  {
    RelistRuns(kind, w, objs);
    AppliedAt(w.base, objs, i);
    if TouchedBy(objs, i) { TouchedIsSeen(kind, objs, i); }
  }

  /** Pods, namespaces and core Endpoints always converge: every listed object
      speaks of the one item its key stands for. */
  lemma NothingStale(kind: Kind, b: Base, objs: seq<Object>, i: Item)
    requires AllOfKind(kind, objs) && (kind == Pods || kind == Namespaces || kind == CoreEndpoints)
    ensures !Stale(kind, b, objs, i)
  {
    if OfKind(kind, i) && Tag(kind, i) in SeenIn(objs) {
      var n := SeenFrom(objs, Tag(kind, i));
      assert Touches(ApplyEffect(objs[n]), i);
    }
  }

  lemma {:induction false} SeenFrom(objs: seq<Object>, k: Key) returns (n: nat)
    requires k in SeenIn(objs)
    ensures n < |objs| && KeyOf(objs[n]) == k
  {
    if KeyOf(objs[|objs| - 1]) == k {
      n := |objs| - 1;
    } else {
      n := SeenFrom(objs[..|objs| - 1], k);
    }
  }

  /** Services converge when every listed service converts, and slices when every
      listed slice has the service label it is stored under. */
  lemma ServicesConverge(b: Base, objs: seq<Object>, i: Item)
    requires AllOfKind(Services, objs)
    requires forall n :: 0 <= n < |objs| ==> Converted(objs[n]).Some?
    ensures !Stale(Services, b, objs, i)
  {
    if OfKind(Services, i) && Tag(Services, i) in SeenIn(objs) {
      var n := SeenFrom(objs, Tag(Services, i));
      assert Touches(ApplyEffect(objs[n]), i);
    }
  }

  lemma SlicesConverge(b: Base, objs: seq<Object>, i: Item)
    requires AllOfKind(EndpointSlices, objs)
    requires forall n, j :: 0 <= n < |objs| && j in b && j.SliceItem? && Tag(EndpointSlices, j) == KeyOf(objs[n]) ==>
      objs[n].service == Some(j.key.1)
    ensures !Stale(EndpointSlices, b, objs, i)
  {
    if i in b && OfKind(EndpointSlices, i) && Tag(EndpointSlices, i) in SeenIn(objs) {
      var n := SeenFrom(objs, Tag(EndpointSlices, i));
      assert Touches(ApplyEffect(objs[n]), i);
    }
  }

  /** A relist leaves what it lists: an item the list sets, as it sets it last; and an
      item of the watched kind that no listed object stands for is gone. */
  lemma {:induction false} ListedIsApplied(b: Base, objs: seq<Object>, n: nat)
    requires n < |objs| && ApplyEffect(objs[n]).Set?
    requires forall m :: n < m < |objs| ==> !Touches(ApplyEffect(objs[m]), ApplyEffect(objs[n]).item)
    ensures var e := ApplyEffect(objs[n]); e.item in AppliedAll(b, objs) && AppliedAll(b, objs)[e.item] == e.val
    decreases |objs|
  {
    if n < |objs| - 1 {
      var before := objs[..|objs| - 1];
      assert forall m :: 0 <= m < |before| ==> before[m] == objs[m];
      ListedIsApplied(b, before, n);
    }
  }

  lemma RelistStores(kind: Kind, w: Watch, objs: seq<Object>, n: nat)
    requires AllOfKind(kind, objs) && n < |objs| && ApplyEffect(objs[n]).Set?
    requires forall m :: n < m < |objs| ==> !Touches(ApplyEffect(objs[m]), ApplyEffect(objs[n]).item)
    ensures var e, b := ApplyEffect(objs[n]), WatchRun(kind, w, Relist(objs)).base; e.item in b && b[e.item] == e.val
  {
    RelistRuns(kind, w, objs);
    ListedIsApplied(w.base, objs, n);
    SeenMember(objs, n);
    assert KindOf(objs[n]) == kind;
    assert Tag(kind, ApplyEffect(objs[n]).item) == KeyOf(objs[n]);
  }

  lemma RelistDrops(kind: Kind, w: Watch, objs: seq<Object>, i: Item)
    requires OfKind(kind, i) && Tag(kind, i) !in SeenIn(objs)
    ensures i !in WatchRun(kind, w, Relist(objs)).base
  {
    RelistRuns(kind, w, objs);
  }

  /** The failing case: a slice moved to another service keeps its old entry. */
  lemma RelabelledSliceIsStale(eps: seq<Endpoint>)
    requires eps != []
    ensures Stale(EndpointSlices, map[SliceItem(("ns", "old"), "s") := EpsVal(eps)],
                  [SliceObject(("ns", "s"), Some("new"), eps)], SliceItem(("ns", "old"), "s"))
  {
    var objs := [SliceObject(("ns", "s"), Some("new"), eps)];
    SeenMember(objs, 0);
    assert "new" != "old" by { assert "new"[0] != "old"[0]; }
  }

  /** The watch need not have been down: after an event that moves the slice the old
      entry is stored beside the new one. */
  lemma RelabellingEventLeavesEntry(w: Watch, eps: seq<Endpoint>)
    requires eps != []
    ensures var events := [Applied(SliceObject(("ns", "s"), Some("old"), eps)), Applied(SliceObject(("ns", "s"), Some("new"), eps))];
      var b := WatchRun(EndpointSlices, w, events).base;
      && SliceItem(("ns", "old"), "s") in b && b[SliceItem(("ns", "old"), "s")] == EpsVal(eps)
      && SliceItem(("ns", "new"), "s") in b && b[SliceItem(("ns", "new"), "s")] == EpsVal(eps)
  {
    var first, second := Applied(SliceObject(("ns", "s"), Some("old"), eps)), Applied(SliceObject(("ns", "s"), Some("new"), eps));
    var events := [first, second];
    assert events[..1] == [first] && events[..1][..0] == [];
    assert WatchRun(EndpointSlices, w, [first]) == WatchStep(EndpointSlices, w, first);
    assert WatchRun(EndpointSlices, w, events) == WatchStep(EndpointSlices, WatchStep(EndpointSlices, w, first), second);
    assert "new" != "old" by { assert "new"[0] != "old"[0]; }
  }

  // -------------------------------------------------------- events after it

  lemma OnKindAffect(kind: Kind, b: Base, e: Effect)
    ensures OnKind(kind, Affect(b, e)) ==
      if !e.Nothing? && OfKind(kind, e.item) then Affect(OnKind(kind, b), e) else OnKind(kind, b)
  {
    var x := OnKind(kind, Affect(b, e));
    var y := if !e.Nothing? && OfKind(kind, e.item) then Affect(OnKind(kind, b), e) else OnKind(kind, b);
    assert x.Keys == y.Keys;
  }

  /** Two watches that agree on their items and seen keys go on agreeing. */
  lemma {:induction false} AgreementLasts(kind: Kind, v: Watch, w: Watch, events: seq<Event>)
    requires OnKind(kind, v.base) == OnKind(kind, w.base) && v.seen == w.seen
    ensures OnKind(kind, WatchRun(kind, v, events).base) == OnKind(kind, WatchRun(kind, w, events).base)
    ensures WatchRun(kind, v, events).seen == WatchRun(kind, w, events).seen
  {
    if events != [] {
      var before, ev := events[..|events| - 1], events[|events| - 1];
      AgreementLasts(kind, v, w, before);
      StepAgrees(kind, WatchRun(kind, v, before), WatchRun(kind, w, before), ev);
    }
  }

  lemma StepAgrees(kind: Kind, v: Watch, w: Watch, ev: Event)
    requires OnKind(kind, v.base) == OnKind(kind, w.base) && v.seen == w.seen
    ensures OnKind(kind, WatchStep(kind, v, ev).base) == OnKind(kind, WatchStep(kind, w, ev).base)
    ensures WatchStep(kind, v, ev).seen == WatchStep(kind, w, ev).seen
  {
    match ev {
      case Init =>
      case InitApply(o) => OnKindAffect(kind, v.base, ApplyEffect(o)); OnKindAffect(kind, w.base, ApplyEffect(o));
      case InitDone => KeptOnKind(kind, v.base, v.seen); KeptOnKind(kind, w.base, w.seen);
      case Applied(o) => OnKindAffect(kind, v.base, ApplyEffect(o)); OnKindAffect(kind, w.base, ApplyEffect(o));
      case Deleted(o) => OnKindAffect(kind, v.base, DeleteEffect(o)); OnKindAffect(kind, w.base, DeleteEffect(o));
    }
  }

  lemma KeptOnKind(kind: Kind, b: Base, seen: set<Key>)
    ensures OnKind(kind, Kept(b, kind, seen)) == Kept(OnKind(kind, b), kind, seen)
  {
    assert OnKind(kind, Kept(b, kind, seen)).Keys == Kept(OnKind(kind, b), kind, seen).Keys;
  }

  lemma {:induction false} RunConcat(kind: Kind, w: Watch, a: seq<Event>, b: seq<Event>)
    ensures WatchRun(kind, w, a + b) == WatchRun(kind, WatchRun(kind, w, a), b)
  {
    if b == [] {
      assert a + b == a;
    } else {
      assert (a + b)[..|a + b| - 1] == a + b[..|b| - 1];
      RunConcat(kind, w, a, b[..|b| - 1]);
    }
  }

  /** A run that ends in a relist and later events holds what replaying just those
      from an empty store would, whatever came before, unless something is stale. */
  lemma RunEqualsReplay(kind: Kind, w: Watch, history: seq<Event>, objs: seq<Object>, later: seq<Event>)
    requires AllOfKind(kind, objs)
    requires !exists i :: Stale(kind, WatchRun(kind, w, history).base, objs, i)
    ensures OnKind(kind, WatchRun(kind, w, history + (Relist(objs) + later)).base) ==
      OnKind(kind, WatchRun(kind, Watch(map[], {}), Relist(objs) + later).base)
  {
    var mid, empty := WatchRun(kind, w, history), Watch(map[], {});
    RunConcat(kind, w, history, Relist(objs) + later);
    RunConcat(kind, mid, Relist(objs), later);
    RunConcat(kind, empty, Relist(objs), later);
    RelistConverges(kind, mid, objs);
    ListingRuns(kind, mid, objs);
    ListingRuns(kind, empty, objs);
    RunOneMore(kind, mid, [Init] + Listing(objs), InitDone);
    RunOneMore(kind, empty, [Init] + Listing(objs), InitDone);
    AgreementLasts(kind, WatchRun(kind, mid, Relist(objs)), WatchRun(kind, empty, Relist(objs)), later);
  }

  /** Consistent stores that agree on slices agree on the endpoint index. */
  lemma SameSlicesSameIndex(c: Cluster, d: Cluster)
    requires Consistent(c) && Consistent(d)
    requires OnKind(EndpointSlices, BaseOf(c)) == OnKind(EndpointSlices, BaseOf(d))
    ensures c.endpoints == d.endpoints && c.epByIp == d.epByIp
  {
    var x, y := OnKind(EndpointSlices, BaseOf(c)), OnKind(EndpointSlices, BaseOf(d));
    forall k, s
      ensures Stores(c, SliceItem(k, s)) <==> Stores(d, SliceItem(k, s))
      ensures Stores(c, SliceItem(k, s)) ==> ValueAt(c, SliceItem(k, s)) == ValueAt(d, SliceItem(k, s))
    {
      assert Stores(c, SliceItem(k, s)) <==> SliceItem(k, s) in x;
      assert Stores(d, SliceItem(k, s)) <==> SliceItem(k, s) in y;
      if Stores(c, SliceItem(k, s)) {
        assert x[SliceItem(k, s)] == ValueAt(c, SliceItem(k, s));
        assert y[SliceItem(k, s)] == ValueAt(d, SliceItem(k, s));
      }
    }
    FlatSlicesInjective(c, d);
    ExactIsUnique(c.epByIp, d.epByIp, c.endpoints);
  }

  // --------------------------------------- address indexes over whole histories

  function AfterOps(ops: seq<StoreOp>): Cluster {
    if ops == [] then Empty else Performed(AfterOps(ops[..|ops| - 1]), ops[|ops| - 1])
  }

  /** What the updates that concern an index do to it. */
  function Changes(which: Which, ops: seq<StoreOp>): seq<Change> {
    if ops == [] then []
    else
      var before, op := Changes(which, ops[..|ops| - 1]), ops[|ops| - 1];
      if Concerns(which, op) then before + [ChangeOf(which, op)] else before
  }

  /** After every mixed history of updates, each index of the store is the one its
      own changes make: services never disturb the pod index, nor pods the others. */
  lemma {:induction false} StoreFollowsHistory(which: Which, ops: seq<StoreOp>)
    ensures IndexOf(which, AfterOps(ops)) == After(Changes(which, ops))
  {
    if ops != [] {
      var before, op := ops[..|ops| - 1], ops[|ops| - 1];
      StoreFollowsHistory(which, before);
      PerformedIndex(which, AfterOps(before), op);
      if Concerns(which, op) {
        AfterOneMore(Changes(which, before), ChangeOf(which, op));
      }
    } else {
      assert ClusterIps(map[]) == map[] && ExternalIps(map[]) == map[] && PodIps(map[]) == map[];
    }
  }

  ghost predicate HeldDisjoint(which: Which, ops: seq<StoreOp>) { Disjoint(IndexOf(which, AfterOps(ops)).held) }

  /** In every history, services and pods mixed, an object is found by each of its
      addresses at every moment exactly when no two stored objects share one at
      any moment. */
  lemma IndexCompleteIffDisjoint(which: Which, ops: seq<StoreOp>)
    ensures (forall n :: 0 <= n <= |ops| ==> CompleteAt(which, AfterOps(ops[..n]))) <==>
            (forall n :: 0 <= n <= |ops| ==> HeldDisjoint(which, ops[..n]))
  {
    if forall n :: 0 <= n <= |ops| ==> CompleteAt(which, AfterOps(ops[..n])) {
      forall n | 0 <= n <= |ops| ensures HeldDisjoint(which, ops[..n]) {
        var x := IndexOf(which, AfterOps(ops[..n]));
        CompleteIsDisjoint(x.idx, x.held);
      }
    }
    if forall n :: 0 <= n <= |ops| ==> HeldDisjoint(which, ops[..n]) {
      forall n | 0 <= n <= |ops| ensures CompleteAt(which, AfterOps(ops[..n])) {
        CompleteSoFar(which, ops, n);
      }
    }
  }

  lemma {:induction false} CompleteSoFar(which: Which, ops: seq<StoreOp>, n: nat)
    requires n <= |ops| && forall m :: 0 <= m <= |ops| ==> HeldDisjoint(which, ops[..m])
    ensures CompleteAt(which, AfterOps(ops[..n]))
  {
    if n > 0 {
      CompleteSoFar(which, ops, n - 1);
      assert ops[..n][..n - 1] == ops[..n - 1];
      PerformedComplete(which, AfterOps(ops[..n - 1]), ops[n - 1]);
      assert HeldDisjoint(which, ops[..n]);
    } else {
      assert ops[..n] == [];
    }
  }

  // --------------------------------------------- several watches, interleaved

  /** An event of the watch of `kind` speaks of objects of that kind. */
  predicate Typed(ev: (Kind, Event)) {
    (ev.1.InitApply? || ev.1.Applied? || ev.1.Deleted?) ==> KindOf(ev.1.o) == ev.0
  }

  /** Every event is of its watch's kind, and slices and core Endpoints, which
      share their items, are not both watched beside `kind`. */
  ghost predicate Apart(kind: Kind, events: seq<(Kind, Event)>) {
    forall n :: 0 <= n < |events| ==> Typed(events[n]) && (events[n].0 == kind || !SameItems(kind, events[n].0))
  }

  /** The events of one watch, in order. */
  function EventsOf(kind: Kind, events: seq<(Kind, Event)>): seq<Event> {
    if events == [] then []
    else
      var before, ev := EventsOf(kind, events[..|events| - 1]), events[|events| - 1];
      if ev.0 == kind then before + [ev.1] else before
  }

  predicate SameItems(kind: Kind, other: Kind) {
    kind == other || (kind == EndpointSlices && other == CoreEndpoints) || (kind == CoreEndpoints && other == EndpointSlices)
  }

  lemma EffectsOfKind(o: Object, i: Item)
    requires Touches(ApplyEffect(o), i) || Touches(DeleteEffect(o), i)
    ensures OfKind(KindOf(o), i)
  {
  }

  lemma KindsApart(kind: Kind, other: Kind, i: Item)
    requires !SameItems(kind, other) && OfKind(other, i)
    ensures !OfKind(kind, i)
  {
  }

  /** An event of another watch leaves this one's items alone. */
  lemma OtherStepSpares(kind: Kind, w: Watch, ev: (Kind, Event))
    requires Typed(ev) && !SameItems(kind, ev.0)
    ensures OnKind(kind, WatchStep(ev.0, w, ev.1).base) == OnKind(kind, w.base)
  {
    var next := WatchStep(ev.0, w, ev.1).base;
    forall i | OfKind(kind, i) ensures (i in next <==> i in w.base) && (i in next ==> next[i] == w.base[i]) {
      if OfKind(ev.0, i) {
        KindsApart(kind, ev.0, i);
      }
      if (ev.1.InitApply? || ev.1.Applied?) && Touches(ApplyEffect(ev.1.o), i) {
        EffectsOfKind(ev.1.o, i);
      }
      if ev.1.Deleted? && Touches(DeleteEffect(ev.1.o), i) {
        EffectsOfKind(ev.1.o, i);
      }
    }
  }

  /** However the watches interleave on one store, each has its items as if it ran
      alone: so what is proved of one watch holds of each of several. */
  lemma {:induction false} EachWatchAlone(kind: Kind, w: Watches, events: seq<(Kind, Event)>)
    requires Apart(kind, events)
    ensures var alone := WatchRun(kind, Watch(w.base, w.seen(kind)), EventsOf(kind, events));
      OnKind(kind, RunAll(w, events).base) == OnKind(kind, alone.base) && RunAll(w, events).seen(kind) == alone.seen
  {
    if events != [] {
      var before, ev := events[..|events| - 1], events[|events| - 1];
      EachWatchAlone(kind, w, before);
      var all, mine := RunAll(w, before), EventsOf(kind, before);
      var alone := WatchRun(kind, Watch(w.base, w.seen(kind)), mine);
      if ev.0 == kind {
        StepAgrees(kind, Watch(all.base, all.seen(kind)), alone, ev.1);
        RunOneMore(kind, Watch(w.base, w.seen(kind)), mine, ev.1);
      } else {
        OtherStepSpares(kind, Watch(all.base, all.seen(ev.0)), ev);
      }
    }
  }

  /** Convergence with other watches running: if the events of one watch end in a
      relist and later events, its items are those a replay of just these gives. */
  lemma InterleavedEqualsReplay(
    kind: Kind, w: Watches, events: seq<(Kind, Event)>, history: seq<Event>, objs: seq<Object>, later: seq<Event>)
    requires Apart(kind, events)
    requires EventsOf(kind, events) == history + (Relist(objs) + later) && AllOfKind(kind, objs)
    requires !exists i :: Stale(kind, WatchRun(kind, Watch(w.base, w.seen(kind)), history).base, objs, i)
    ensures OnKind(kind, RunAll(w, events).base) ==
      OnKind(kind, WatchRun(kind, Watch(map[], {}), Relist(objs) + later).base)
  {
    EachWatchAlone(kind, w, events);
    RunEqualsReplay(kind, Watch(w.base, w.seen(kind)), history, objs, later);
  }
}
