/** The in-memory store of Kubernetes objects: four base maps updated by watch
    events, with four by-address indexes maintained beside them. */
module KubeStore {
  import opened Names
  import opened KubeModel

  // ------------------------------------------------ the objects that arrive

  /** An object from the API. A service converts only when it has a namespace and
      a spec; a slice may lack its service label. */
  datatype Object =
    | ServiceObject(key: Key, converted: Option<Svc>)
    | SliceObject(key: Key, service: Option<string>, eps: seq<Endpoint>)
    | EndpointsObject(key: Key, eps: seq<Endpoint>)
    | PodObject(key: Key, ips: seq<Ip>, finished: bool)
    | NamespaceObject(name: string)

  function Converted(o: Object): Option<Svc>
    requires o.ServiceObject?
  {
    if o.converted.Some? then Some(o.converted.value.(namespace := o.key.0, name := o.key.1)) else None
  }

  // ---------------------------------------------------------- what is stored

  datatype Cluster = Cluster(
    services: map<Key, Svc>, svcByIp: map<Ip, Key>, extByIp: map<Ip, Key>,
    endpoints: map<Key, Slices>, epByIp: map<Ip, set<Key>>,
    pods: map<Key, Pod>, podByIp: map<Ip, Key>,
    namespaces: set<string>)

  const Empty := Cluster(map[], map[], map[], map[], map[], map[], map[], {})

  function ClusterIps(services: map<Key, Svc>): map<Key, seq<Ip>> { map k | k in services :: services[k].clusterIps }
  function ExternalIps(services: map<Key, Svc>): map<Key, seq<Ip>> { map k | k in services :: services[k].externalIps }
  function PodIps(pods: map<Key, Pod>): map<Key, seq<Ip>> { map k | k in pods :: pods[k].ips }

  /** Every index agrees with the maps beside it. */
  ghost predicate Consistent(c: Cluster) {
    && Sound(c.svcByIp, ClusterIps(c.services))
    && Sound(c.extByIp, ExternalIps(c.services))
    && Sound(c.podByIp, PodIps(c.pods))
    && Exact(c.epByIp, c.endpoints)
    && NoHusks(c.endpoints)
    && (forall k :: k in c.services ==> (c.services[k].namespace, c.services[k].name) == k)
  }

  // ------------------------------------ everything stored, as one flat map

  datatype Item =
    | SvcItem(key: Key) | SliceItem(key: Key, slice: string) | PodItem(key: Key) | NsItem(name: string)

  datatype Val = SvcVal(svc: Svc) | EpsVal(eps: seq<Endpoint>) | PodVal(pod: Pod) | NsVal

  type Base = map<Item, Val>

  predicate Stores(c: Cluster, i: Item) {
    match i
    case SvcItem(k) => k in c.services
    case SliceItem(k, s) => k in c.endpoints && s in c.endpoints[k]
    case PodItem(k) => k in c.pods
    case NsItem(n) => n in c.namespaces
  }

  function ValueAt(c: Cluster, i: Item): Val
    requires Stores(c, i)
  {
    match i
    case SvcItem(k) => SvcVal(c.services[k])
    case SliceItem(k, s) => EpsVal(c.endpoints[k][s])
    case PodItem(k) => PodVal(c.pods[k])
    case NsItem(_) => NsVal
  }

  ghost function Items(c: Cluster): (items: set<Item>)
    ensures forall i :: i in items <==> Stores(c, i)
  {
    (set k | k in c.services :: SvcItem(k)) +
    (set k, s | k in c.endpoints && s in c.endpoints[k] :: SliceItem(k, s)) +
    (set k | k in c.pods :: PodItem(k)) +
    (set n | n in c.namespaces :: NsItem(n))
  }

  ghost function BaseOf(c: Cluster): Base {
    map i | i in Items(c) :: ValueAt(c, i)
  }

  datatype Effect = Set(item: Item, val: Val) | Clear(item: Item) | Nothing

  function Affect(b: Base, e: Effect): Base {
    match e
    case Set(i, v) => b[i := v]
    case Clear(i) => b - {i}
    case Nothing => b
  }

  function SliceEffect(key: Key, slice: string, eps: seq<Endpoint>): Effect {
    if eps == [] then Clear(SliceItem(key, slice)) else Set(SliceItem(key, slice), EpsVal(eps))
  }

  function ApplyEffect(o: Object): Effect {
    match o
    case ServiceObject(k, _) => if Converted(o).Some? then Set(SvcItem(k), SvcVal(Converted(o).value)) else Nothing
    case SliceObject(k, service, eps) => if service.Some? then SliceEffect((k.0, service.value), k.1, eps) else Nothing
    case EndpointsObject(k, eps) => SliceEffect(k, "endpoints", eps)
    case PodObject(k, ips, finished) =>
      if ips == [] || finished then Clear(PodItem(k)) else Set(PodItem(k), PodVal(Pod(k.1, k.0, ips)))
    case NamespaceObject(n) => Set(NsItem(n), NsVal)
  }

  function DeleteEffect(o: Object): Effect {
    match o
    case ServiceObject(k, _) => Clear(SvcItem(k))
    case SliceObject(k, service, _) => if service.Some? then Clear(SliceItem((k.0, service.value), k.1)) else Nothing
    case EndpointsObject(k, _) => Clear(SliceItem(k, "endpoints"))
    case PodObject(k, _, _) => Clear(PodItem(k))
    case NamespaceObject(n) => Clear(NsItem(n))
  }

  // ------------------------------------------------------- kinds of watches

  datatype Kind = Services | EndpointSlices | CoreEndpoints | Pods | Namespaces

  function KindOf(o: Object): Kind {
    match o
    case ServiceObject(_, _) => Services
    case SliceObject(_, _, _) => EndpointSlices
    case EndpointsObject(_, _) => CoreEndpoints
    case PodObject(_, _, _) => Pods
    case NamespaceObject(_) => Namespaces
  }

  predicate OfKind(kind: Kind, i: Item) {
    match kind
    case Services => i.SvcItem?
    case EndpointSlices => i.SliceItem?
    case CoreEndpoints => i.SliceItem? && i.slice == "endpoints"
    case Pods => i.PodItem?
    case Namespaces => i.NsItem?
  }

  /** What the relist bookkeeping remembers a stored item by. */
  function Tag(kind: Kind, i: Item): Key {
    match i
    case SvcItem(k) => k
    case SliceItem(k, s) => if kind == EndpointSlices then (k.0, s) else k
    case PodItem(k) => k
    case NsItem(n) => ("", n)
  }

  function Kept(b: Base, kind: Kind, seen: set<Key>): Base {
    map i | i in b && (OfKind(kind, i) ==> Tag(kind, i) in seen) :: b[i]
  }

  // ------------------------------------------------------ the watch protocol

  datatype Event = Init | InitApply(o: Object) | InitDone | Applied(o: Object) | Deleted(o: Object)

  function KeyOf(o: Object): Key {
    if o.NamespaceObject? then ("", o.name) else o.key
  }

  /** What the watch of one kind knows: the stored items and, during a relist, the
      keys seen so far. */
  datatype Watch = Watch(base: Base, seen: set<Key>)

  function WatchStep(kind: Kind, w: Watch, ev: Event): Watch {
    match ev
    case Init => w.(seen := {})
    case InitApply(o) => Watch(Affect(w.base, ApplyEffect(o)), w.seen + {KeyOf(o)})
    case InitDone => w.(base := Kept(w.base, kind, w.seen))
    case Applied(o) => w.(base := Affect(w.base, ApplyEffect(o)))
    case Deleted(o) => w.(base := Affect(w.base, DeleteEffect(o)))
  }

  function WatchRun(kind: Kind, w: Watch, events: seq<Event>): Watch {
    if events == [] then w else WatchStep(kind, WatchRun(kind, w, events[..|events| - 1]), events[|events| - 1])
  }

  /** Stored addresses are disjoint at every moment of the run. */
  ghost predicate DisjointThroughout(kind: Kind, w: Watch, events: seq<Event>) {
    forall n :: 0 <= n <= |events| ==> AllDisjoint(WatchRun(kind, w, events[..n]).base)
  }

  /** Several watches on one store, each with its own seen keys. */
  datatype Watches = Watches(base: Base, seen: Kind -> set<Key>)

  const NoneSeen: Kind -> set<Key> := _ => {}

  function SeenBy(seen: Kind -> set<Key>, kind: Kind, keys: set<Key>): Kind -> set<Key> {
    k => if k == kind then keys else seen(k)
  }

  function StepAll(w: Watches, ev: (Kind, Event)): Watches {
    var next := WatchStep(ev.0, Watch(w.base, w.seen(ev.0)), ev.1);
    Watches(next.base, SeenBy(w.seen, ev.0, next.seen))
  }

  function RunAll(w: Watches, events: seq<(Kind, Event)>): Watches {
    if events == [] then w else StepAll(RunAll(w, events[..|events| - 1]), events[|events| - 1])
  }

  lemma RunAllStep(w: Watches, events: seq<(Kind, Event)>, n: nat)
    requires n < |events|
    ensures RunAll(w, events[..n + 1]) == StepAll(RunAll(w, events[..n]), events[n])
  {
    assert events[..n + 1][..n] == events[..n];
  }

  ghost predicate AllDisjointThroughout(w: Watches, events: seq<(Kind, Event)>) {
    forall n :: 0 <= n <= |events| ==> AllDisjoint(RunAll(w, events[..n]).base)
  }

  // ------------------------------------------------- how the maps read flat

  /** Item by item, `c'` is `c` after the effect. */
  ghost predicate Follows(c: Cluster, c': Cluster, e: Effect) {
    forall i :: FollowsAt(c, c', e, i)
  }

  ghost predicate FollowsAt(c: Cluster, c': Cluster, e: Effect, i: Item) {
    if e.Set? && i == e.item then Stores(c', i) && ValueAt(c', i) == e.val
    else if e.Clear? && i == e.item then !Stores(c', i)
    else (Stores(c', i) <==> Stores(c, i)) && (Stores(c, i) ==> ValueAt(c', i) == ValueAt(c, i))
  }

  lemma FollowsAffects(c: Cluster, c': Cluster, e: Effect)
    requires Follows(c, c', e)
    ensures BaseOf(c') == Affect(BaseOf(c), e)
  {
    var b, b' := Affect(BaseOf(c), e), BaseOf(c');
    forall i ensures i in b' <==> i in b { assert FollowsAt(c, c', e, i); }
    forall i | i in b' ensures b'[i] == b[i] { assert FollowsAt(c, c', e, i); }
  }

  /** With no husks, the flat map fixes the nested one. */
  lemma FlatSlicesInjective(c: Cluster, d: Cluster)
    requires NoHusks(c.endpoints) && NoHusks(d.endpoints)
    requires forall k, s :: Stores(c, SliceItem(k, s)) <==> Stores(d, SliceItem(k, s))
    requires forall k, s :: Stores(c, SliceItem(k, s)) ==> ValueAt(c, SliceItem(k, s)) == ValueAt(d, SliceItem(k, s))
    ensures c.endpoints == d.endpoints
  {
    var a, b := c.endpoints, d.endpoints;
    forall k | k in a ensures k in b {
      var s :| s in a[k];
      assert Stores(c, SliceItem(k, s));
    }
    forall k | k in b ensures k in a {
      var s :| s in b[k];
      assert Stores(d, SliceItem(k, s));
    }
    forall k | k in a ensures a[k] == b[k] {
      forall s ensures s in a[k] <==> s in b[k] {
        assert Stores(c, SliceItem(k, s)) <==> Stores(d, SliceItem(k, s));
      }
      forall s | s in a[k] ensures a[k][s] == b[k][s] {
        assert ValueAt(c, SliceItem(k, s)) == ValueAt(d, SliceItem(k, s));
      }
    }
  }

  // -------------------------------------------- one event, field by field

  /** Slice `slice` of service `key` is now `eps`, gone if that is empty, and every
      other slice of every service is as before. */
  ghost predicate SliceIsNow(before: map<Key, Slices>, after: map<Key, Slices>, key: Key, slice: string, eps: seq<Endpoint>) {
    forall k :: SlicesOf(after, k) ==
      if k != key then SlicesOf(before, k)
      else if eps == [] then SlicesOf(before, k) - {slice}
      else SlicesOf(before, k)[slice := eps]
  }

  ghost predicate SameSlices(before: map<Key, Slices>, after: map<Key, Slices>) {
    forall k :: SlicesOf(after, k) == SlicesOf(before, k)
  }

  /** The object is out of the store, and nothing else is. */
  ghost predicate Removed(c: Cluster, c': Cluster, o: Object) {
    && c'.services == (if o.ServiceObject? then c.services - {o.key} else c.services)
    && c'.pods == (if o.PodObject? then c.pods - {o.key} else c.pods)
    && c'.namespaces == (if o.NamespaceObject? then c.namespaces - {o.name} else c.namespaces)
    && (if o.SliceObject? && o.service.Some? then SliceIsNow(c.endpoints, c'.endpoints, (o.key.0, o.service.value), o.key.1, [])
        else if o.EndpointsObject? then SliceIsNow(c.endpoints, c'.endpoints, o.key, "endpoints", [])
        else SameSlices(c.endpoints, c'.endpoints))
  }

  /** The object is in the store as it came, under its own key, and nothing else has
      changed. A service that does not convert and a slice without a label leave the
      store alone; a pod that has finished or has no address is out. */
  ghost predicate Taken(c: Cluster, c': Cluster, o: Object) {
    && c'.services == (
         if o.ServiceObject? && o.converted.Some?
         then c.services[o.key := o.converted.value.(namespace := o.key.0, name := o.key.1)] else c.services)
    && c'.pods == (
         if !o.PodObject? then c.pods
         else if o.finished || o.ips == [] then c.pods - {o.key}
         else c.pods[o.key := Pod(o.key.1, o.key.0, o.ips)])
    && c'.namespaces == (if o.NamespaceObject? then c.namespaces + {o.name} else c.namespaces)
    && (if o.SliceObject? && o.service.Some? then SliceIsNow(c.endpoints, c'.endpoints, (o.key.0, o.service.value), o.key.1, o.eps)
        else if o.EndpointsObject? then SliceIsNow(c.endpoints, c'.endpoints, o.key, "endpoints", o.eps)
        else SameSlices(c.endpoints, c'.endpoints))
  }

  /** Items come with values of their kind. */
  predicate WellTyped(e: Effect) {
    e.Set? ==> (match e.item
                case SvcItem(_) => e.val.SvcVal?
                case SliceItem(_, _) => e.val.EpsVal?
                case PodItem(_) => e.val.PodVal?
                case NsItem(_) => e.val.NsVal?)
  }

  lemma AffectsFollows(c: Cluster, c': Cluster, e: Effect)
    requires BaseOf(c') == Affect(BaseOf(c), e)
    ensures Follows(c, c', e)
  {
    forall i ensures FollowsAt(c, c', e, i) {
      assert i in BaseOf(c) <==> Stores(c, i);
      assert i in BaseOf(c') <==> Stores(c', i);
    }
  }

  lemma ServicesAfter(c: Cluster, c': Cluster, e: Effect)
    requires Follows(c, c', e) && WellTyped(e)
    ensures c'.services == (
      if e.Nothing? || !e.item.SvcItem? then c.services
      else if e.Clear? then c.services - {e.item.key} else c.services[e.item.key := e.val.svc])
  {
    forall k
      ensures k in c.services <==> Stores(c, SvcItem(k))
      ensures k in c'.services <==> Stores(c', SvcItem(k))
    {
    }
    forall k ensures FollowsAt(c, c', e, SvcItem(k)) { }
  }

  lemma PodsAfter(c: Cluster, c': Cluster, e: Effect)
    requires Follows(c, c', e) && WellTyped(e)
    ensures c'.pods == (
      if e.Nothing? || !e.item.PodItem? then c.pods
      else if e.Clear? then c.pods - {e.item.key} else c.pods[e.item.key := e.val.pod])
  {
    forall k
      ensures k in c.pods <==> Stores(c, PodItem(k))
      ensures k in c'.pods <==> Stores(c', PodItem(k))
    {
    }
    forall k ensures FollowsAt(c, c', e, PodItem(k)) { }
  }

  lemma NamespacesAfter(c: Cluster, c': Cluster, e: Effect)
    requires Follows(c, c', e)
    ensures c'.namespaces == (
      if e.Nothing? || !e.item.NsItem? then c.namespaces
      else if e.Clear? then c.namespaces - {e.item.name} else c.namespaces + {e.item.name})
  {
    forall n
      ensures n in c.namespaces <==> Stores(c, NsItem(n))
      ensures n in c'.namespaces <==> Stores(c', NsItem(n))
    {
    }
    forall n ensures FollowsAt(c, c', e, NsItem(n)) { }
  }

  lemma SlicesAfter(c: Cluster, c': Cluster, e: Effect, k: Key)
    requires Follows(c, c', e) && WellTyped(e)
    ensures SlicesOf(c'.endpoints, k) == (
      if e.Nothing? || !e.item.SliceItem? || e.item.key != k then SlicesOf(c.endpoints, k)
      else if e.Clear? then SlicesOf(c.endpoints, k) - {e.item.slice}
      else SlicesOf(c.endpoints, k)[e.item.slice := e.val.eps])
  {
    var before, after := SlicesOf(c.endpoints, k), SlicesOf(c'.endpoints, k);
    forall s
      ensures s in before <==> Stores(c, SliceItem(k, s))
      ensures s in after <==> Stores(c', SliceItem(k, s))
    {
    }
    forall s ensures FollowsAt(c, c', e, SliceItem(k, s)) { }
  }

  lemma AllSlicesAfter(c: Cluster, c': Cluster, e: Effect)
    requires Follows(c, c', e) && WellTyped(e) && (e.Set? && e.item.SliceItem? ==> e.val.eps != [])
    ensures if e.Nothing? || !e.item.SliceItem? then SameSlices(c.endpoints, c'.endpoints)
      else SliceIsNow(c.endpoints, c'.endpoints, e.item.key, e.item.slice, if e.Clear? then [] else e.val.eps)
  {
    forall k ensures SlicesOf(c'.endpoints, k) == (
      if e.Nothing? || !e.item.SliceItem? || e.item.key != k then SlicesOf(c.endpoints, k)
      else if e.Clear? then SlicesOf(c.endpoints, k) - {e.item.slice}
      else SlicesOf(c.endpoints, k)[e.item.slice := e.val.eps])
    {
      SlicesAfter(c, c', e, k);
    }
  }

  /** What a delete event does to the stored objects. */
  lemma DeletedIsRemoved(c: Cluster, c': Cluster, kind: Kind, seen: set<Key>, o: Object)
    requires BaseOf(c') == WatchStep(kind, Watch(BaseOf(c), seen), Deleted(o)).base
    ensures Removed(c, c', o)
  {
    var e := DeleteEffect(o);
    AffectsFollows(c, c', e);
    ServicesAfter(c, c', e);
    PodsAfter(c, c', e);
    NamespacesAfter(c, c', e);
    AllSlicesAfter(c, c', e);
  }

  /** And what an object that comes, in a list or as an event, does to them. */
  lemma AppliedIsTaken(c: Cluster, c': Cluster, kind: Kind, seen: set<Key>, o: Object)
    requires
      || BaseOf(c') == WatchStep(kind, Watch(BaseOf(c), seen), Applied(o)).base
      || BaseOf(c') == WatchStep(kind, Watch(BaseOf(c), seen), InitApply(o)).base
    ensures Taken(c, c', o)
  {
    var e := ApplyEffect(o);
    AffectsFollows(c, c', e);
    ServicesAfter(c, c', e);
    PodsAfter(c, c', e);
    NamespacesAfter(c, c', e);
    AllSlicesAfter(c, c', e);
  }

  // ------------------------------------------------------ the four updates

  function PutService(c: Cluster, key: Key, svc: Svc): Cluster {
    c.(services := c.services[key := svc],
       svcByIp := Reindexed(c.svcByIp, ClusterIps(c.services), key, svc.clusterIps),
       extByIp := Reindexed(c.extByIp, ExternalIps(c.services), key, svc.externalIps))
  }

  function WithoutService(c: Cluster, key: Key): Cluster {
    c.(services := c.services - {key},
       svcByIp := Without(c.svcByIp, IpsAt(ClusterIps(c.services), key)),
       extByIp := Without(c.extByIp, IpsAt(ExternalIps(c.services), key)))
  }

  function PutPod(c: Cluster, key: Key, pod: Pod): Cluster {
    c.(pods := c.pods[key := pod], podByIp := Reindexed(c.podByIp, PodIps(c.pods), key, pod.ips))
  }

  function DropPod(c: Cluster, key: Key): Cluster {
    c.(pods := c.pods - {key}, podByIp := Without(c.podByIp, IpsAt(PodIps(c.pods), key)))
  }

  lemma PutAfterDrop(c: Cluster, key: Key, pod: Pod)
    ensures var mid := DropPod(c, key);
      PutPod(c, key, pod) == mid.(pods := mid.pods[key := pod], podByIp := With(mid.podByIp, pod.ips, key))
  {
    assert (c.pods - {key})[key := pod] == c.pods[key := pod];
  }

  lemma PutServiceKeeps(c: Cluster, key: Key, svc: Svc)
    requires Consistent(c) && (svc.namespace, svc.name) == key
    ensures Consistent(PutService(c, key, svc))
  {
    ReindexKeepsSound(c.svcByIp, ClusterIps(c.services), key, svc.clusterIps);
    ReindexKeepsSound(c.extByIp, ExternalIps(c.services), key, svc.externalIps);
    assert ClusterIps(c.services[key := svc]) == ClusterIps(c.services)[key := svc.clusterIps];
    assert ExternalIps(c.services[key := svc]) == ExternalIps(c.services)[key := svc.externalIps];
  }

  lemma PutServiceFlat(c: Cluster, key: Key, svc: Svc)
    ensures BaseOf(PutService(c, key, svc)) == Affect(BaseOf(c), Set(SvcItem(key), SvcVal(svc)))
  {
    var c', e := PutService(c, key, svc), Set(SvcItem(key), SvcVal(svc));
    forall i ensures FollowsAt(c, c', e, i) {
      assert i != e.item ==> (Stores(c', i) <==> Stores(c, i));
    }
    FollowsAffects(c, c', e);
  }

  lemma DropServiceKeeps(c: Cluster, key: Key)
    requires Consistent(c)
    ensures Consistent(WithoutService(c, key))
  {
    ReindexKeepsSound(c.svcByIp, ClusterIps(c.services), key, []);
    ReindexKeepsSound(c.extByIp, ExternalIps(c.services), key, []);
    assert ClusterIps(c.services - {key}) == ClusterIps(c.services) - {key};
    assert ExternalIps(c.services - {key}) == ExternalIps(c.services) - {key};
  }

  lemma DropServiceFlat(c: Cluster, key: Key)
    ensures BaseOf(WithoutService(c, key)) == Affect(BaseOf(c), Clear(SvcItem(key)))
  {
    var c', e := WithoutService(c, key), Clear(SvcItem(key));
    forall i ensures FollowsAt(c, c', e, i) {
      assert i != e.item ==> (Stores(c', i) <==> Stores(c, i));
    }
    FollowsAffects(c, c', e);
  }

  lemma PutPodKeeps(c: Cluster, key: Key, pod: Pod)
    requires Consistent(c)
    ensures Consistent(PutPod(c, key, pod))
  {
    ReindexKeepsSound(c.podByIp, PodIps(c.pods), key, pod.ips);
    assert PodIps(c.pods[key := pod]) == PodIps(c.pods)[key := pod.ips];
  }

  lemma PutPodFlat(c: Cluster, key: Key, pod: Pod)
    ensures BaseOf(PutPod(c, key, pod)) == Affect(BaseOf(c), Set(PodItem(key), PodVal(pod)))
  {
    var c', e := PutPod(c, key, pod), Set(PodItem(key), PodVal(pod));
    forall i ensures FollowsAt(c, c', e, i) {
      assert i != e.item ==> (Stores(c', i) <==> Stores(c, i));
    }
    FollowsAffects(c, c', e);
  }

  lemma DropPodKeeps(c: Cluster, key: Key)
    requires Consistent(c)
    ensures Consistent(DropPod(c, key))
  {
    ReindexKeepsSound(c.podByIp, PodIps(c.pods), key, []);
    assert PodIps(c.pods - {key}) == PodIps(c.pods) - {key};
  }

  lemma DropPodFlat(c: Cluster, key: Key)
    ensures BaseOf(DropPod(c, key)) == Affect(BaseOf(c), Clear(PodItem(key)))
  {
    var c', e := DropPod(c, key), Clear(PodItem(key));
    forall i ensures FollowsAt(c, c', e, i) {
      assert i != e.item ==> (Stores(c', i) <==> Stores(c, i));
    }
    FollowsAffects(c, c', e);
  }

  lemma NamespaceFlat(c: Cluster, n: string)
    ensures BaseOf(c.(namespaces := c.namespaces + {n})) == Affect(BaseOf(c), Set(NsItem(n), NsVal))
    ensures BaseOf(c.(namespaces := c.namespaces - {n})) == Affect(BaseOf(c), Clear(NsItem(n)))
  {
    var more, less := c.(namespaces := c.namespaces + {n}), c.(namespaces := c.namespaces - {n});
    forall i
      ensures FollowsAt(c, more, Set(NsItem(n), NsVal), i)
      ensures FollowsAt(c, less, Clear(NsItem(n)), i)
    {
      assert i != NsItem(n) ==> (Stores(more, i) <==> Stores(c, i)) && (Stores(less, i) <==> Stores(c, i));
    }
    FollowsAffects(c, more, Set(NsItem(n), NsVal));
    FollowsAffects(c, less, Clear(NsItem(n)));
  }

  lemma SliceSetNoHusks(endpoints: map<Key, Slices>, key: Key, slice: string, eps: seq<Endpoint>)
    requires NoHusks(endpoints)
    ensures NoHusks(SliceSet(endpoints, key, slice, eps))
  {
    assert forall s :: s in SlicesOf(endpoints, key) ==> SlicesOf(endpoints, key)[s] != [];
  }

  /** Replacing a slice, item by item. */
  lemma SliceSetFlat(c: Cluster, c': Cluster, key: Key, slice: string, eps: seq<Endpoint>)
    requires c' == c.(endpoints := SliceSet(c.endpoints, key, slice, eps), epByIp := c'.epByIp)
    ensures BaseOf(c') == Affect(BaseOf(c), SliceEffect(key, slice, eps))
  {
    var e := SliceEffect(key, slice, eps);
    var others := SlicesOf(c.endpoints, key) - {slice};
    forall i ensures FollowsAt(c, c', e, i) {
      if i.SliceItem? && i.key == key {
        assert i.slice in others <==> i.slice != slice && Stores(c, i);
      }
    }
    FollowsAffects(c, c', e);
  }

  // --------------------------------------------------------- the store itself

  lemma PrefixGrows(ips: seq<Ip>, i: nat)
    requires i < |ips|
    ensures forall ip :: ip in ips[..i + 1] <==> ip in ips[..i] || ip == ips[i]
  {
  }

  lemma WithOneMore(idx: map<Ip, Key>, ips: seq<Ip>, i: nat, key: Key)
    requires i < |ips|
    ensures With(idx, ips[..i], key)[ips[i] := key] == With(idx, ips[..i + 1], key)
  {
    PrefixGrows(ips, i);
  }

  method Remove(idx: map<Ip, Key>, ips: seq<Ip>) returns (idx': map<Ip, Key>)
    ensures idx' == Without(idx, ips)
  {
    idx' := idx;
    for i := 0 to |ips|
      invariant idx' == Without(idx, ips[..i])
    {
      PrefixGrows(ips, i);
      idx' := idx' - {ips[i]};
    }
    assert ips[..|ips|] == ips;
  }

  method Insert(idx: map<Ip, Key>, ips: seq<Ip>, key: Key) returns (idx': map<Ip, Key>)
    ensures idx' == With(idx, ips, key)
  {
    idx' := idx;
    for i := 0 to |ips|
      invariant idx' == With(idx, ips[..i], key)
    {
      WithOneMore(idx, ips, i, key);
      idx' := idx'[ips[i] := key];
    }
    assert ips[..|ips|] == ips;
  }

  /** Where the endpoint index stands while a slice of `key` is being replaced:
      other services are untouched and `key` is listed under `mine`. */
  ghost predicate Relisting(idx: map<Ip, set<Key>>, endpoints: map<Key, Slices>, key: Key, mine: Ip -> bool) {
    && (forall ip :: ip in idx ==> idx[ip] != {})
    && (forall ip, k :: k != key ==> (Listed(idx, ip, k) <==> ServiceHas(endpoints, k, ip)))
    && (forall ip :: Listed(idx, ip, key) <==> mine(ip))
  }

  /** Addresses the old slice gives up, unless another slice or the new one holds them. */
  method Unlist(idx: map<Ip, set<Key>>, ghost endpoints: map<Key, Slices>, key: Key, ips: seq<Ip>,
                others: Slices, eps: seq<Endpoint>, ghost before: Ip -> bool)
    returns (idx': map<Ip, set<Key>>)
    requires Relisting(idx, endpoints, key, before)
    ensures Relisting(idx', endpoints, key,
      ip => before(ip) && (ip !in ips || SlicesHave(others, ip) || EndpointsHave(eps, ip)))
  {
    idx' := idx;
    for i := 0 to |ips|
      invariant Relisting(idx', endpoints, key,
        ip => before(ip) && (ip !in ips[..i] || SlicesHave(others, ip) || EndpointsHave(eps, ip)))
    {
      var ip := ips[i];
      assert forall x :: x in ips[..i + 1] <==> x in ips[..i] || x == ip;
      if SlicesHave(others, ip) || EndpointsHave(eps, ip) {
        continue;
      }
      if ip in idx' {
        ghost var was := idx';
        var rest := idx'[ip] - {key};
        assert forall k :: k in idx'[ip] ==> k in rest || k == key;
        if rest == {} {
          idx' := idx' - {ip};
        } else {
          idx' := idx'[ip := rest];
        }
        assert forall x, k :: Listed(idx', x, k) <==> Listed(was, x, k) && !(x == ip && k == key);
      }
    }
    assert ips[..|ips|] == ips;
  }

  method List(idx: map<Ip, set<Key>>, ghost endpoints: map<Key, Slices>, key: Key, ips: seq<Ip>, ghost before: Ip -> bool)
    returns (idx': map<Ip, set<Key>>)
    requires Relisting(idx, endpoints, key, before)
    ensures Relisting(idx', endpoints, key, ip => before(ip) || ip in ips)
  {
    idx' := idx;
    for i := 0 to |ips|
      invariant Relisting(idx', endpoints, key, ip => before(ip) || ip in ips[..i])
    {
      var ip := ips[i];
      assert forall x :: x in ips[..i + 1] <==> x in ips[..i] || x == ip;
      ghost var was := idx';
      idx' := idx'[ip := (if ip in idx' then idx'[ip] else {}) + {key}];
      assert forall x, k :: Listed(idx', x, k) <==> Listed(was, x, k) || (x == ip && k == key);
    }
    assert ips[..|ips|] == ips;
  }

  lemma SameListing(idx: map<Ip, set<Key>>, endpoints: map<Key, Slices>, key: Key, f: Ip -> bool, g: Ip -> bool)
    requires Relisting(idx, endpoints, key, f) && forall ip :: f(ip) == g(ip)
    ensures Relisting(idx, endpoints, key, g)
  {
  }

  /** What stays listed once the first `n` endpoints of the old slice are gone. */
  ghost function Left(before: Ip -> bool, old_: seq<Endpoint>, n: nat, others: Slices, eps: seq<Endpoint>): Ip -> bool {
    ip => before(ip) && (!HaveSome(old_, n, ip) || SlicesHave(others, ip) || EndpointsHave(eps, ip))
  }

  ghost function Joined(before: Ip -> bool, eps: seq<Endpoint>, n: nat): Ip -> bool {
    ip => before(ip) || HaveSome(eps, n, ip)
  }

  /** One of the first `n` endpoints holds the address. */
  predicate HaveSome(eps: seq<Endpoint>, n: nat, ip: Ip) {
    exists i :: 0 <= i < n && i < |eps| && ip in eps[i].ips
  }

  method UnlistAll(idx: map<Ip, set<Key>>, ghost endpoints: map<Key, Slices>, key: Key, old_: seq<Endpoint>,
                   others: Slices, eps: seq<Endpoint>, ghost before: Ip -> bool)
    returns (idx': map<Ip, set<Key>>)
    requires Relisting(idx, endpoints, key, before)
    ensures Relisting(idx', endpoints, key, Left(before, old_, |old_|, others, eps))
  {
    idx' := idx;
    SameListing(idx', endpoints, key, before, Left(before, old_, 0, others, eps));
    for i := 0 to |old_|
      invariant Relisting(idx', endpoints, key, Left(before, old_, i, others, eps))
    {
      ghost var now := Left(before, old_, i, others, eps);
      idx' := Unlist(idx', endpoints, key, old_[i].ips, others, eps, now);
      ghost var then_ := Left(before, old_, i + 1, others, eps);
      assert forall ip :: HaveSome(old_, i + 1, ip) <==> HaveSome(old_, i, ip) || ip in old_[i].ips;
      SameListing(idx', endpoints, key,
        ip => now(ip) && (ip !in old_[i].ips || SlicesHave(others, ip) || EndpointsHave(eps, ip)), then_);
    }
  }

  method ListAll(idx: map<Ip, set<Key>>, ghost endpoints: map<Key, Slices>, key: Key, eps: seq<Endpoint>, ghost before: Ip -> bool)
    returns (idx': map<Ip, set<Key>>)
    requires Relisting(idx, endpoints, key, before)
    ensures Relisting(idx', endpoints, key, Joined(before, eps, |eps|))
  {
    idx' := idx;
    SameListing(idx', endpoints, key, before, Joined(before, eps, 0));
    for i := 0 to |eps|
      invariant Relisting(idx', endpoints, key, Joined(before, eps, i))
    {
      ghost var now := Joined(before, eps, i);
      idx' := List(idx', endpoints, key, eps[i].ips, now);
      assert forall ip :: HaveSome(eps, i + 1, ip) <==> HaveSome(eps, i, ip) || ip in eps[i].ips;
      SameListing(idx', endpoints, key, ip => now(ip) || ip in eps[i].ips, Joined(before, eps, i + 1));
    }
  }

  ghost function Having(slices: Slices): Ip -> bool { ip => SlicesHave(slices, ip) }

  lemma StartsExact(idx: map<Ip, set<Key>>, endpoints: map<Key, Slices>, key: Key)
    requires Exact(idx, endpoints)
    ensures Relisting(idx, endpoints, key, Having(SlicesOf(endpoints, key)))
  {
    forall ip ensures Listed(idx, ip, key) <==> Having(SlicesOf(endpoints, key))(ip) {
      assert Listed(idx, ip, key) <==> ServiceHas(endpoints, key, ip);
    }
  }

  /** After the exchange the service is listed exactly under what its slices hold. */
  lemma EndsExact(idx: map<Ip, set<Key>>, endpoints: map<Key, Slices>, key: Key, slice: string, eps: seq<Endpoint>, mine: Ip -> bool)
    requires Relisting(idx, endpoints, key, mine)
    requires forall ip :: mine(ip) <==> SlicesHave(SlicesOf(endpoints, key) - {slice}, ip) || EndpointsHave(eps, ip)
    ensures Exact(idx, SliceSet(endpoints, key, slice, eps))
  {
    var others, after := SlicesOf(endpoints, key) - {slice}, SliceSet(endpoints, key, slice, eps);
    forall ip, k ensures Listed(idx, ip, k) <==> ServiceHas(after, k, ip) {
      if k == key {
        NewSlicesHave(others, slice, eps, ip);
      } else {
        assert ServiceHas(after, k, ip) <==> ServiceHas(endpoints, k, ip);
      }
    }
  }

  lemma NewSlicesHave(others: Slices, slice: string, eps: seq<Endpoint>, ip: Ip)
    requires slice !in others
    ensures SlicesHave(others[slice := eps], ip) <==> SlicesHave(others, ip) || EndpointsHave(eps, ip)
    ensures SlicesHave(map[], ip) == false
  {
    if SlicesHave(others, ip) {
      var s :| s in others && EndpointsHave(others[s], ip);
      assert s in others[slice := eps] && EndpointsHave(others[slice := eps][s], ip);
    }
    if EndpointsHave(eps, ip) {
      assert EndpointsHave(others[slice := eps][slice], ip);
    }
  }

  /** Giving up the old slice and taking on the new one, as sets of addresses. */
  lemma ExchangedAddresses(slices: Slices, slice: string, eps: seq<Endpoint>, ip: Ip)
    ensures var others := slices - {slice};
      var kept := if slice in slices
        then Left(Having(slices), slices[slice], |slices[slice]|, others, eps) else Having(slices);
      Joined(kept, eps, |eps|)(ip) <==> SlicesHave(others, ip) || EndpointsHave(eps, ip)
  {
    var others := slices - {slice};
    assert HaveSome(eps, |eps|, ip) <==> EndpointsHave(eps, ip);
    if slice in slices {
      assert HaveSome(slices[slice], |slices[slice]|, ip) <==> EndpointsHave(slices[slice], ip);
      NewSlicesHave(others, slice, slices[slice], ip);
      assert others[slice := slices[slice]] == slices;
    } else {
      assert others == slices;
    }
  }

  method ReplaceSlice(endpoints: map<Key, Slices>, epByIp: map<Ip, set<Key>>, key: Key, slice: string, eps: seq<Endpoint>)
    returns (endpoints': map<Key, Slices>, epByIp': map<Ip, set<Key>>)
    requires Exact(epByIp, endpoints)
    ensures endpoints' == SliceSet(endpoints, key, slice, eps) && Exact(epByIp', endpoints')
  {
    var slices := SlicesOf(endpoints, key);
    var others := slices - {slice};
    var idx := epByIp;
    StartsExact(idx, endpoints, key);
    ghost var kept := Having(slices);
    if slice in slices {
      idx := UnlistAll(idx, endpoints, key, slices[slice], others, eps, kept);
      kept := Left(kept, slices[slice], |slices[slice]|, others, eps);
    }
    idx := ListAll(idx, endpoints, key, eps, kept);
    forall ip ensures Joined(kept, eps, |eps|)(ip) <==> SlicesHave(others, ip) || EndpointsHave(eps, ip) {
      ExchangedAddresses(slices, slice, eps, ip);
    }
    EndsExact(idx, endpoints, key, slice, eps, Joined(kept, eps, |eps|));
    epByIp' := idx;
    if eps == [] {
      if others == map[] {
        endpoints' := endpoints - {key};
      } else {
        endpoints' := endpoints[key := others];
      }
    } else {
      endpoints' := endpoints[key := others[slice := eps]];
    }
  }

  /** Takes the old addresses of an object out and puts its new ones in. */
  method Swap(idx: map<Ip, Key>, old_: seq<Ip>, ips: seq<Ip>, key: Key) returns (idx': map<Ip, Key>)
    ensures idx' == With(Without(idx, old_), ips, key)
  {
    idx' := Remove(idx, old_);
    idx' := Insert(idx', ips, key);
  }

  /** What a finished relist of `kind` no longer holds. */
  function Gone(services: map<Key, Svc>, endpoints: map<Key, Slices>, pods: map<Key, Pod>, namespaces: set<string>,
                kind: Kind, seen: set<Key>): set<Item> {
    match kind
    case Services => set k | k in services && k !in seen :: SvcItem(k)
    case EndpointSlices => set k, s | k in endpoints && s in endpoints[k] && (k.0, s) !in seen :: SliceItem(k, s)
    case CoreEndpoints => set k | k in endpoints && k !in seen :: SliceItem(k, "endpoints")
    case Pods => set k | k in pods && k !in seen :: PodItem(k)
    case Namespaces => set n | n in namespaces && ("", n) !in seen :: NsItem(n)
  }

  lemma GoneIsNotKept(c: Cluster, kind: Kind, seen: set<Key>)
    ensures BaseOf(c) - Gone(c.services, c.endpoints, c.pods, c.namespaces, kind, seen) == Kept(BaseOf(c), kind, seen)
  {
    var gone := Gone(c.services, c.endpoints, c.pods, c.namespaces, kind, seen);
    forall i | i in BaseOf(c) ensures i in gone <==> OfKind(kind, i) && Tag(kind, i) !in seen {
      assert Stores(c, i);
    }
    assert (BaseOf(c) - gone).Keys == Kept(BaseOf(c), kind, seen).Keys;
  }

  /** The addresses an update must take out of the two service indexes. */
  function ServiceIps(services: map<Key, Svc>, key: Key): (ips: (seq<Ip>, seq<Ip>))
    ensures ips.0 == IpsAt(ClusterIps(services), key) && ips.1 == IpsAt(ExternalIps(services), key)
  {
    if key in services then (services[key].clusterIps, services[key].externalIps) else ([], [])
  }

  // ----------------------------------------- the indexes with one owner

  datatype Which = ByClusterIp | ByExternalIp | ByPodIp

  function IndexOf(which: Which, c: Cluster): Indexed {
    match which
    case ByClusterIp => Indexed(c.svcByIp, ClusterIps(c.services))
    case ByExternalIp => Indexed(c.extByIp, ExternalIps(c.services))
    case ByPodIp => Indexed(c.podByIp, PodIps(c.pods))
  }

  ghost predicate CompleteAt(which: Which, c: Cluster) { Complete(IndexOf(which, c).idx, IndexOf(which, c).held) }

  /** Every stored object is found by each of its addresses. */
  ghost predicate AllComplete(c: Cluster) { forall which :: CompleteAt(which, c) }

  /** The addresses an item holds for one of the indexes. */
  function AddressesIn(which: Which, v: Val): seq<Ip> {
    match v
    case SvcVal(svc) =>
      if which == ByClusterIp then svc.clusterIps else if which == ByExternalIp then svc.externalIps else []
    case PodVal(pod) => if which == ByPodIp then pod.ips else []
    case _ => []
  }

  /** No two stored items hold the same address for the same index. */
  ghost predicate DisjointAt(which: Which, b: Base) {
    forall i, j, ip :: i in b && j in b && ip in AddressesIn(which, b[i]) && ip in AddressesIn(which, b[j]) ==> i == j
  }

  ghost predicate AllDisjoint(b: Base) { forall which :: DisjointAt(which, b) }

  /** The item that stands for `k` in an index. */
  function HolderItem(which: Which, k: Key): Item { if which == ByPodIp then PodItem(k) else SvcItem(k) }

  lemma HolderHolds(which: Which, c: Cluster, k: Key)
    ensures var i, held := HolderItem(which, k), IndexOf(which, c).held;
      (k in held <==> i in BaseOf(c)) && (k in held ==> AddressesIn(which, BaseOf(c)[i]) == held[k])
  {
    var i := HolderItem(which, k);
    assert i in BaseOf(c) <==> Stores(c, i);
  }

  lemma OnlyHoldersHold(which: Which, c: Cluster, i: Item, ip: Ip)
    requires i in BaseOf(c) && ip in AddressesIn(which, BaseOf(c)[i])
    ensures (i.SvcItem? || i.PodItem?) && i == HolderItem(which, i.key)
  {
    assert Stores(c, i);
  }

  /** Disjoint addresses, in both vocabularies. */
  lemma DisjointAgrees(which: Which, c: Cluster)
    ensures DisjointAt(which, BaseOf(c)) <==> Disjoint(IndexOf(which, c).held)
  {
    var b, held := BaseOf(c), IndexOf(which, c).held;
    if DisjointAt(which, b) {
      forall k, j, ip | k in held && j in held && ip in held[k] && ip in held[j] ensures k == j {
        HolderHolds(which, c, k);
        HolderHolds(which, c, j);
        assert HolderItem(which, k) == HolderItem(which, j);
      }
    }
    if Disjoint(held) {
      forall i, j, ip | i in b && j in b && ip in AddressesIn(which, b[i]) && ip in AddressesIn(which, b[j]) ensures i == j {
        OnlyHoldersHold(which, c, i, ip);
        OnlyHoldersHold(which, c, j, ip);
        HolderHolds(which, c, i.key);
        HolderHolds(which, c, j.key);
      }
    }
  }

  lemma CompleteMeansDisjoint(c: Cluster)
    requires AllComplete(c)
    ensures AllDisjoint(BaseOf(c))
  {
    forall which ensures DisjointAt(which, BaseOf(c)) {
      assert CompleteAt(which, c);
      CompleteIsDisjoint(IndexOf(which, c).idx, IndexOf(which, c).held);
      DisjointAgrees(which, c);
    }
  }

  /** An update of the services or of the pods. */
  datatype StoreOp = AddService(key: Key, svc: Svc) | GoneService(key: Key) | AddPod(key: Key, pod: Pod) | GonePod(key: Key)

  predicate Concerns(which: Which, op: StoreOp) {
    if which == ByPodIp then op.AddPod? || op.GonePod? else op.AddService? || op.GoneService?
  }

  function Performed(c: Cluster, op: StoreOp): Cluster {
    match op
    case AddService(k, svc) => PutService(c, k, svc)
    case GoneService(k) => WithoutService(c, k)
    case AddPod(k, pod) => PutPod(c, k, pod)
    case GonePod(k) => DropPod(c, k)
  }

  function ChangeOf(which: Which, op: StoreOp): Change {
    match op
    case AddService(k, svc) => Put(k, if which == ByClusterIp then svc.clusterIps else svc.externalIps)
    case GoneService(k) => Del(k)
    case AddPod(k, pod) => Put(k, pod.ips)
    case GonePod(k) => Del(k)
  }

  lemma PutServiceIndex(which: Which, c: Cluster, k: Key, svc: Svc)
    ensures IndexOf(which, PutService(c, k, svc)) == match which
      case ByClusterIp => Changed(IndexOf(which, c), Put(k, svc.clusterIps))
      case ByExternalIp => Changed(IndexOf(which, c), Put(k, svc.externalIps))
      case ByPodIp => IndexOf(which, c)
  {
    assert ClusterIps(c.services[k := svc]) == ClusterIps(c.services)[k := svc.clusterIps];
    assert ExternalIps(c.services[k := svc]) == ExternalIps(c.services)[k := svc.externalIps];
  }

  lemma DropServiceIndex(which: Which, c: Cluster, k: Key)
    ensures IndexOf(which, WithoutService(c, k)) == if which == ByPodIp then IndexOf(which, c) else Changed(IndexOf(which, c), Del(k))
  {
    assert ClusterIps(c.services - {k}) == ClusterIps(c.services) - {k};
    assert ExternalIps(c.services - {k}) == ExternalIps(c.services) - {k};
  }

  lemma PutPodIndex(which: Which, c: Cluster, k: Key, pod: Pod)
    ensures IndexOf(which, PutPod(c, k, pod)) == if which == ByPodIp then Changed(IndexOf(which, c), Put(k, pod.ips)) else IndexOf(which, c)
  {
    assert PodIps(c.pods[k := pod]) == PodIps(c.pods)[k := pod.ips];
  }

  lemma DropPodIndex(which: Which, c: Cluster, k: Key)
    ensures IndexOf(which, DropPod(c, k)) == if which == ByPodIp then Changed(IndexOf(which, c), Del(k)) else IndexOf(which, c)
  {
    assert PodIps(c.pods - {k}) == PodIps(c.pods) - {k};
  }

  /** One update changes the indexes it concerns and leaves the others as they were. */
  lemma PerformedIndex(which: Which, c: Cluster, op: StoreOp)
    ensures IndexOf(which, Performed(c, op)) ==
      if Concerns(which, op) then Changed(IndexOf(which, c), ChangeOf(which, op)) else IndexOf(which, c)
  {
    match op {
      case AddService(k, svc) => PutServiceIndex(which, c, k, svc);
      case GoneService(k) => DropServiceIndex(which, c, k);
      case AddPod(k, pod) => PutPodIndex(which, c, k, pod);
      case GonePod(k) => DropPodIndex(which, c, k);
    }
  }

  /** From a complete index, an update leaves a complete one exactly when the
      addresses then stored are disjoint; a removal always does. */
  lemma PerformedComplete(which: Which, c: Cluster, op: StoreOp)
    requires CompleteAt(which, c)
    ensures CompleteAt(which, Performed(c, op)) <==> Disjoint(IndexOf(which, Performed(c, op)).held)
    ensures op.GoneService? || op.GonePod? ==> CompleteAt(which, Performed(c, op))
  {
    var s := IndexOf(which, c);
    PerformedIndex(which, c, op);
    CompleteIsDisjoint(s.idx, s.held);
    if Concerns(which, op) {
      var change := ChangeOf(which, op);
      ReindexComplete(s.idx, s.held, change.key, if change.Put? then change.ips else []);
      if change.Del? { CompleteIsDisjoint(Changed(s, change).idx, Changed(s, change).held); }
    }
  }

  /** What every update of the store owes its indexes: complete before, they are
      complete after exactly when no two stored objects share an address. */
  ghost predicate Owes(before: Cluster, after: Cluster) {
    AllComplete(before) ==> (AllComplete(after) <==> AllDisjoint(BaseOf(after)))
  }

  /** What a removal owes them. */
  ghost predicate Spares(before: Cluster, after: Cluster) { AllComplete(before) ==> AllComplete(after) }

  lemma PerformedOwes(c: Cluster, op: StoreOp)
    ensures Owes(c, Performed(c, op)) && (op.GoneService? || op.GonePod? ==> Spares(c, Performed(c, op)))
  {
    if AllComplete(c) {
      var next := Performed(c, op);
      forall which ensures CompleteAt(which, next) <==> DisjointAt(which, BaseOf(next))
      {
        assert CompleteAt(which, c);
        PerformedComplete(which, c, op);
        DisjointAgrees(which, next);
      }
      forall which | op.GoneService? || op.GonePod? ensures CompleteAt(which, next) {
        assert CompleteAt(which, c);
        PerformedComplete(which, c, op);
      }
    }
  }

  lemma SameIndexesOwe(before: Cluster, after: Cluster)
    requires forall which :: IndexOf(which, after) == IndexOf(which, before)
    ensures Owes(before, after) && Spares(before, after)
  {
    if AllComplete(before) {
      forall which ensures CompleteAt(which, after) {
        assert CompleteAt(which, before);
        assert IndexOf(which, after) == IndexOf(which, before);
      }
      CompleteMeansDisjoint(after);
    }
  }

  lemma SparingOwes(before: Cluster, after: Cluster)
    requires Spares(before, after)
    ensures Owes(before, after)
  {
    if AllComplete(before) { CompleteMeansDisjoint(after); }
  }

  class Store {
    var services: map<Key, Svc>
    var svcByIp: map<Ip, Key>
    var extByIp: map<Ip, Key>
    var endpoints: map<Key, Slices>
    var epByIp: map<Ip, set<Key>>
    var pods: map<Key, Pod>
    var podByIp: map<Ip, Key>
    var namespaces: set<string>
    var synced: set<Kind>

    ghost function Content(): Cluster
      reads this
    {
      Cluster(services, svcByIp, extByIp, endpoints, epByIp, pods, podByIp, namespaces)
    }

    ghost predicate Valid()
      reads this
    {
      Consistent(Content())
    }

    constructor ()
      ensures Valid() && Content() == Empty && synced == {}
    {
      services, svcByIp, extByIp := map[], map[], map[];
      endpoints, epByIp := map[], map[];
      pods, podByIp, namespaces, synced := map[], map[], {}, {};
    }

    method ApplyService(o: Object)
      requires Valid() && o.ServiceObject?
      modifies this
      ensures Valid() && synced == old(synced)
      ensures Content() == if Converted(o).Some? then PutService(old(Content()), o.key, Converted(o).value) else old(Content())
    {
      var svc := Converted(o);
      if svc.None? {
        return;
      }
      ghost var before := Content();
      PutServiceKeeps(before, o.key, svc.value);
      var key := (svc.value.namespace, svc.value.name);
      var old_ := ServiceIps(services, key);
      svcByIp := Swap(svcByIp, old_.0, svc.value.clusterIps, key);
      extByIp := Swap(extByIp, old_.1, svc.value.externalIps, key);
      services := services[key := svc.value];
      assert Content() == PutService(before, o.key, svc.value);
    }

    method DeleteService(key: Key)
      requires Valid()
      modifies this
      ensures Valid() && synced == old(synced)
      ensures Content() == WithoutService(old(Content()), key)
    {
      ghost var before := Content();
      DropServiceKeeps(before, key);
      var old_ := ServiceIps(services, key);
      svcByIp := Remove(svcByIp, old_.0);
      extByIp := Remove(extByIp, old_.1);
      services := services - {key};
      assert Content() == WithoutService(before, key);
    }

    method SetSlice(key: Key, slice: string, eps: seq<Endpoint>)
      requires Valid()
      modifies this`endpoints, this`epByIp
      ensures Valid()
      ensures endpoints == SliceSet(old(endpoints), key, slice, eps)
      ensures BaseOf(Content()) == Affect(old(BaseOf(Content())), SliceEffect(key, slice, eps))
      ensures Owes(old(Content()), Content()) && Spares(old(Content()), Content())
    {
      ghost var before := Content();
      endpoints, epByIp := ReplaceSlice(endpoints, epByIp, key, slice, eps);
      SliceSetNoHusks(before.endpoints, key, slice, eps);
      SliceSetFlat(before, Content(), key, slice, eps);
      SameIndexesOwe(before, Content());
    }

    method ApplyPod(o: Object)
      requires Valid() && o.PodObject?
      modifies this`pods, this`podByIp
      ensures Valid()
      ensures Content() == if o.ips == [] || o.finished then DropPod(old(Content()), o.key)
        else PutPod(old(Content()), o.key, Pod(o.key.1, o.key.0, o.ips))
    {
      ghost var before := Content();
      var key := o.key;
      var pod := Pod(key.1, key.0, o.ips);
      DeletePod(key);
      if o.ips == [] || o.finished {
        return;
      }
      PutPodKeeps(before, key, pod);
      PutAfterDrop(before, key, pod);
      podByIp := Insert(podByIp, o.ips, key);
      pods := pods[key := pod];
    }

    method DeletePod(key: Key)
      requires Valid()
      modifies this`pods, this`podByIp
      ensures Valid() && Content() == DropPod(old(Content()), key)
    {
      ghost var before := Content();
      DropPodKeeps(before, key);
      podByIp := Remove(podByIp, IpsAt(PodIps(pods), key));
      pods := pods - {key};
      assert Content() == DropPod(before, key);
    }

    /** One watched object, dispatched as the watch of its kind does. */
    method Apply(o: Object)
      requires Valid()
      modifies this
      ensures Valid() && synced == old(synced)
      ensures BaseOf(Content()) == Affect(old(BaseOf(Content())), ApplyEffect(o))
      ensures Owes(old(Content()), Content())
    {
      ghost var before := Content();
      SameIndexesOwe(before, before);
      match o {
        case ServiceObject(k, _) =>
          ApplyService(o);
          if Converted(o).Some? {
            PutServiceFlat(before, k, Converted(o).value);
            PerformedOwes(before, AddService(k, Converted(o).value));
          }
        case SliceObject(k, service, eps) =>
          if service.Some? { SetSlice((k.0, service.value), k.1, eps); }
        case EndpointsObject(k, eps) => SetSlice(k, "endpoints", eps);
        case PodObject(k, ips, _) =>
          ApplyPod(o);
          PutPodFlat(before, k, Pod(k.1, k.0, ips));
          DropPodFlat(before, k);
          PerformedOwes(before, AddPod(k, Pod(k.1, k.0, ips)));
          PerformedOwes(before, GonePod(k));
        case NamespaceObject(n) =>
          AddNamespace(n);
      }
    }

    method Delete(o: Object)
      requires Valid()
      modifies this
      ensures Valid() && synced == old(synced)
      ensures BaseOf(Content()) == Affect(old(BaseOf(Content())), DeleteEffect(o))
      ensures Spares(old(Content()), Content())
    {
      match o {
        case ServiceObject(k, _) => Discard(SvcItem(k));
        case SliceObject(k, service, _) =>
          if service.Some? { Discard(SliceItem((k.0, service.value), k.1)); }
        case EndpointsObject(k, _) => Discard(SliceItem(k, "endpoints"));
        case PodObject(k, _, _) => Discard(PodItem(k));
        case NamespaceObject(n) => Discard(NsItem(n));
      }
    }

    method AddNamespace(n: string)
      requires Valid()
      modifies this`namespaces
      ensures Valid() && Content() == old(Content()).(namespaces := old(namespaces) + {n})
      ensures BaseOf(Content()) == Affect(old(BaseOf(Content())), Set(NsItem(n), NsVal))
      ensures Owes(old(Content()), Content())
    {
      ghost var before := Content();
      namespaces := namespaces + {n};
      NamespaceFlat(before, n);
      SameIndexesOwe(before, Content());
    }

    method Discard(i: Item)
      requires Valid()
      modifies this
      ensures Valid() && synced == old(synced)
      ensures BaseOf(Content()) == Affect(old(BaseOf(Content())), Clear(i))
      ensures Spares(old(Content()), Content())
    {
      ghost var before := Content();
      match i {
        case SvcItem(k) =>
          DeleteService(k);
          DropServiceFlat(before, k);
          PerformedOwes(before, GoneService(k));
        case SliceItem(k, s) => SetSlice(k, s, []);
        case PodItem(k) =>
          DeletePod(k);
          DropPodFlat(before, k);
          PerformedOwes(before, GonePod(k));
        case NsItem(n) =>
          namespaces := namespaces - {n};
          NamespaceFlat(before, n);
          SameIndexesOwe(before, Content());
      }
    }

    method Retain(kind: Kind, seen: set<Key>)
      requires Valid()
      modifies this
      ensures Valid() && synced == old(synced)
      ensures BaseOf(Content()) == Kept(old(BaseOf(Content())), kind, seen)
      ensures Spares(old(Content()), Content())
    {
      GoneIsNotKept(Content(), kind, seen);
      var gone := Gone(services, endpoints, pods, namespaces, kind, seen);
      DiscardAll(gone);
    }

    method DiscardAll(items: set<Item>)
      requires Valid()
      modifies this
      ensures Valid() && synced == old(synced)
      ensures BaseOf(Content()) == old(BaseOf(Content())) - items
      ensures Spares(old(Content()), Content())
      decreases items
    {
      ghost var before := BaseOf(Content());
      var rest := items;
      while rest != {}
        invariant rest <= items && Valid() && synced == old(synced)
        invariant BaseOf(Content()) == before - (items - rest)
        invariant Spares(old(Content()), Content())
        decreases rest
      {
        var i :| i in rest;
        Discard(i);
        assert Affect(before - (items - rest), Clear(i)) == before - (items - (rest - {i}));
        rest := rest - {i};
      }
      assert items - rest == items;
    }

    /** One event of the watch of one kind, with the keys it has seen listed. */
    method HandleEvent(kind: Kind, ev: Event, seen: set<Key>) returns (seen': set<Key>)
      requires Valid()
      modifies this
      ensures Valid() && Owes(old(Content()), Content())
      ensures Watch(BaseOf(Content()), seen') == WatchStep(kind, Watch(old(BaseOf(Content())), seen), ev)
      ensures ev.Deleted? ==> Removed(old(Content()), Content(), ev.o)
      ensures ev.Applied? || ev.InitApply? ==> Taken(old(Content()), Content(), ev.o)
      ensures synced == old(synced) + (if ev.InitDone? then {kind} else {})
    {
      ghost var before := Content();
      seen' := seen;
      match ev {
        case Init =>
          seen' := {};
          SameIndexesOwe(before, Content());
        case InitApply(o) =>
          seen' := seen' + {KeyOf(o)};
          Apply(o);
          AppliedIsTaken(before, Content(), kind, seen, o);
        case InitDone =>
          Retain(kind, seen');
          SparingOwes(before, Content());
          synced := synced + {kind};
        case Applied(o) =>
          Apply(o);
          AppliedIsTaken(before, Content(), kind, seen, o);
        case Deleted(o) =>
          Delete(o);
          DeletedIsRemoved(before, Content(), kind, seen, o);
          SparingOwes(before, Content());
      }
    }

    /** The watch loop of one kind, over the events the API delivers. */
    method WatchLoop(kind: Kind, events: seq<Event>)
      requires Valid()
      modifies this
      ensures Valid()
      ensures BaseOf(Content()) == WatchRun(kind, Watch(old(BaseOf(Content())), {}), events).base
      ensures synced == old(synced) + (if InitDone in events then {kind} else {})
      ensures old(AllComplete(Content())) && DisjointThroughout(kind, Watch(old(BaseOf(Content())), {}), events) ==>
        AllComplete(Content())
      ensures AllComplete(Content()) ==> AllDisjoint(BaseOf(Content()))
    {
      ghost var start := Watch(BaseOf(Content()), {});
      var seen: set<Key> := {};
      for n := 0 to |events|
        invariant Valid()
        invariant Watch(BaseOf(Content()), seen) == WatchRun(kind, start, events[..n])
        invariant synced == old(synced) + (if InitDone in events[..n] then {kind} else {})
        invariant old(AllComplete(Content())) && DisjointThroughout(kind, start, events) ==> AllComplete(Content())
      {
        assert events[..n + 1][..n] == events[..n];
        assert forall e :: e in events[..n + 1] <==> e in events[..n] || e == events[n];
        seen := HandleEvent(kind, events[n], seen);
        assert DisjointThroughout(kind, start, events) ==> AllDisjoint(WatchRun(kind, start, events[..n + 1]).base);
      }
      assert events[..|events|] == events;
      if AllComplete(Content()) { CompleteMeansDisjoint(Content()); }
    }

    /** Watches of several kinds side by side, their events in any order. */
    method WatchAll(events: seq<(Kind, Event)>)
      requires Valid()
      modifies this
      ensures Valid()
      ensures BaseOf(Content()) == RunAll(Watches(old(BaseOf(Content())), NoneSeen), events).base
      ensures old(AllComplete(Content())) && AllDisjointThroughout(Watches(old(BaseOf(Content())), NoneSeen), events) ==>
        AllComplete(Content())
    {
      ghost var start := Watches(BaseOf(Content()), NoneSeen);
      var seen: Kind -> set<Key> := NoneSeen;
      for n := 0 to |events|
        invariant Valid()
        invariant Watches(BaseOf(Content()), seen) == RunAll(start, events[..n])
        invariant old(AllComplete(Content())) && AllDisjointThroughout(start, events) ==> AllComplete(Content())
      {
        RunAllStep(start, events, n);
        var kind := events[n].0;
        var now := HandleEvent(kind, events[n].1, seen(kind));
        seen := SeenBy(seen, kind, now);
        assert AllDisjointThroughout(start, events) ==> AllDisjoint(RunAll(start, events[..n + 1]).base);
      }
      assert events[..|events|] == events;
    }
  }
}
