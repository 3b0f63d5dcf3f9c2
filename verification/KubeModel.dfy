/** The Kubernetes objects the DNS schema needs, and the two kinds of by-address
    index kept beside them. */
module KubeModel {
  import opened Names

  datatype Ip = V4(value: nat) | V6(value: nat)

  datatype Port = Port(name: string, protocol: string, port: nat)

  datatype Endpoint = Endpoint(
    ips: seq<Ip>, hostname: Option<string>, podName: Option<string>, ready: bool, ports: seq<Port>)

  datatype Svc = Svc(
    name: string, namespace: string, clusterIps: seq<Ip>, headless: bool, externalName: Option<string>,
    ports: seq<Port>, publishNotReady: bool, externalIps: seq<Ip>)

  datatype Pod = Pod(name: string, namespace: string, ips: seq<Ip>)

  /** Namespace and name. */
  type Key = (string, string)

  type Slices = map<string, seq<Endpoint>>

  // ------------------------------------------- one owner per address

  function Without(idx: map<Ip, Key>, ips: seq<Ip>): map<Ip, Key> {
    map ip | ip in idx && ip !in ips :: idx[ip]
  }

  function With(idx: map<Ip, Key>, ips: seq<Ip>, key: Key): map<Ip, Key> {
    idx + map ip | ip in ips :: key
  }

  function IpsAt(held: map<Key, seq<Ip>>, key: Key): seq<Ip> { if key in held then held[key] else [] }

  /** Entries point only to objects that hold the address. */
  ghost predicate Sound(idx: map<Ip, Key>, held: map<Key, seq<Ip>>) {
    forall ip :: ip in idx ==> idx[ip] in held && ip in held[idx[ip]]
  }

  /** Every address held is indexed, under its holder. */
  ghost predicate Complete(idx: map<Ip, Key>, held: map<Key, seq<Ip>>) {
    forall k, ip :: k in held && ip in held[k] ==> ip in idx && idx[ip] == k
  }

  /** No two objects hold the same address. */
  ghost predicate Disjoint(held: map<Key, seq<Ip>>) {
    forall k, j, ip :: k in held && j in held && ip in held[k] && ip in held[j] ==> k == j
  }

  /** What an update does: the object's old entries go unconditionally. */
  function Reindexed(idx: map<Ip, Key>, held: map<Key, seq<Ip>>, key: Key, ips: seq<Ip>): map<Ip, Key> {
    With(Without(idx, IpsAt(held, key)), ips, key)
  }

  lemma ReindexKeepsSound(idx: map<Ip, Key>, held: map<Key, seq<Ip>>, key: Key, ips: seq<Ip>)
    requires Sound(idx, held)
    ensures Sound(Reindexed(idx, held, key, ips), held[key := ips])
    ensures Sound(Without(idx, IpsAt(held, key)), held - {key})
  {
  }

  /** From a complete index, an update leaves a complete one exactly when the
      addresses then held are disjoint; a removal always does. */
  lemma ReindexComplete(idx: map<Ip, Key>, held: map<Key, seq<Ip>>, key: Key, ips: seq<Ip>)
    requires Complete(idx, held)
    ensures Complete(Reindexed(idx, held, key, ips), held[key := ips]) <==> Disjoint(held[key := ips])
    ensures Complete(Without(idx, IpsAt(held, key)), held - {key})
  {
    var idx', held' := Reindexed(idx, held, key, ips), held[key := ips];
    if Complete(idx', held') {
      forall k, j, ip | k in held' && j in held' && ip in held'[k] && ip in held'[j] ensures k == j {
        assert idx'[ip] == k && idx'[ip] == j;
      }
    }
    if Disjoint(held') {
      forall k, ip | k in held' && ip in held'[k] ensures ip in idx' && idx'[ip] == k {
        if k != key {
          assert ip in idx && idx[ip] == k;
          assert ip !in IpsAt(held, key);
          assert key in held' && held'[key] == ips;
          assert ip !in ips;
        }
      }
    }
    var gone := Without(idx, IpsAt(held, key));
    forall k, ip | k in held - {key} && ip in (held - {key})[k] ensures ip in gone && gone[ip] == k {
      assert ip in idx && idx[ip] == k;
    }
  }

  // ------------------------------------------------------ whole histories

  datatype Change = Put(key: Key, ips: seq<Ip>) | Del(key: Key)

  datatype Indexed = Indexed(idx: map<Ip, Key>, held: map<Key, seq<Ip>>)

  function Changed(s: Indexed, c: Change): Indexed {
    match c
    case Put(key, ips) => Indexed(Reindexed(s.idx, s.held, key, ips), s.held[key := ips])
    case Del(key) => Indexed(Without(s.idx, IpsAt(s.held, key)), s.held - {key})
  }

  function After(cs: seq<Change>): Indexed {
    if cs == [] then Indexed(map[], map[]) else Changed(After(cs[..|cs| - 1]), cs[|cs| - 1])
  }

  /** In every history the index is sound. */
  lemma {:induction false} HistorySound(cs: seq<Change>)
    ensures Sound(After(cs).idx, After(cs).held)
  {
    if cs != [] {
      var s, c := After(cs[..|cs| - 1]), cs[|cs| - 1];
      HistorySound(cs[..|cs| - 1]);
      ReindexKeepsSound(s.idx, s.held, c.key, if c.Put? then c.ips else []);
    }
  }

  /** It is complete throughout a history exactly when the addresses held are
      disjoint throughout. */
  lemma {:induction false} HistoryComplete(cs: seq<Change>)
    ensures (forall i :: 0 <= i <= |cs| ==> Complete(After(cs[..i]).idx, After(cs[..i]).held)) <==>
            (forall i :: 0 <= i <= |cs| ==> Disjoint(After(cs[..i]).held))
  {
    if forall i :: 0 <= i <= |cs| ==> Complete(After(cs[..i]).idx, After(cs[..i]).held) {
      forall i | 0 <= i <= |cs| ensures Disjoint(After(cs[..i]).held) {
        var s := After(cs[..i]);
        CompleteIsDisjoint(s.idx, s.held);
      }
    }
    if forall i :: 0 <= i <= |cs| ==> Disjoint(After(cs[..i]).held) {
      forall i | 0 <= i <= |cs| ensures Complete(After(cs[..i]).idx, After(cs[..i]).held) {
        DisjointSoFar(cs, i);
      }
    }
  }

  lemma CompleteIsDisjoint(idx: map<Ip, Key>, held: map<Key, seq<Ip>>)
    requires Complete(idx, held)
    ensures Disjoint(held)
  {
    forall k, j, ip | k in held && j in held && ip in held[k] && ip in held[j] ensures k == j {
      assert idx[ip] == k && idx[ip] == j;
    }
  }

  lemma {:induction false} DisjointSoFar(cs: seq<Change>, i: nat)
    requires i <= |cs| && forall j :: 0 <= j <= |cs| ==> Disjoint(After(cs[..j]).held)
    ensures Complete(After(cs[..i]).idx, After(cs[..i]).held)
  {
    if i > 0 {
      DisjointSoFar(cs, i - 1);
      assert cs[..i][..i - 1] == cs[..i - 1];
      var s, c := After(cs[..i - 1]), cs[i - 1];
      assert After(cs[..i]) == Changed(s, c);
      assert Disjoint(After(cs[..i]).held);
      ReindexComplete(s.idx, s.held, c.key, if c.Put? then c.ips else []);
    }
  }

  /** Why disjointness is needed: two services share an address, one goes, and the
      other is no longer found by it. */
  lemma SharedAddressIsLost()
    ensures var a, b := ("ns", "a"), ("ns", "b");
      var s := After([Put(a, [V4(1)]), Put(b, [V4(1)]), Del(b)]);
      a in s.held && V4(1) in s.held[a] && V4(1) !in s.idx
  {
    var a, b := ("ns", "a"), ("ns", "b");
    var none: seq<Change> := [];
    AfterOneMore(none, Put(a, [V4(1)]));
    AfterOneMore(none + [Put(a, [V4(1)])], Put(b, [V4(1)]));
    AfterOneMore(none + [Put(a, [V4(1)])] + [Put(b, [V4(1)])], Del(b));
    assert none + [Put(a, [V4(1)])] + [Put(b, [V4(1)])] + [Del(b)] == [Put(a, [V4(1)]), Put(b, [V4(1)]), Del(b)];
  }

  lemma AfterOneMore(cs: seq<Change>, c: Change)
    ensures After(cs + [c]) == Changed(After(cs), c)
  {
    assert (cs + [c])[..|cs|] == cs;
  }

  // ---------------------------------------- many services per endpoint address

  predicate EndpointsHave(eps: seq<Endpoint>, ip: Ip) {
    exists i :: 0 <= i < |eps| && ip in eps[i].ips
  }

  predicate SlicesHave(slices: Slices, ip: Ip) {
    exists s :: s in slices && EndpointsHave(slices[s], ip)
  }

  ghost predicate ServiceHas(endpoints: map<Key, Slices>, k: Key, ip: Ip) {
    k in endpoints && SlicesHave(endpoints[k], ip)
  }

  ghost predicate Listed(idx: map<Ip, set<Key>>, ip: Ip, k: Key) { ip in idx && k in idx[ip] }

  /** A service is listed under an address exactly when one of its slices holds
      it, and no empty set is kept. */
  ghost predicate Exact(idx: map<Ip, set<Key>>, endpoints: map<Key, Slices>) {
    && (forall ip, k :: Listed(idx, ip, k) <==> ServiceHas(endpoints, k, ip))
    && (forall ip :: ip in idx ==> idx[ip] != {})
  }

  /** No empty slice and no service without slices is kept. */
  ghost predicate NoHusks(endpoints: map<Key, Slices>) {
    forall k :: k in endpoints ==> endpoints[k] != map[] && forall s :: s in endpoints[k] ==> endpoints[k][s] != []
  }

  /** The endpoint index is a function of the slices. */
  lemma ExactIsUnique(a: map<Ip, set<Key>>, b: map<Ip, set<Key>>, endpoints: map<Key, Slices>)
    requires Exact(a, endpoints) && Exact(b, endpoints)
    ensures a == b
  {
    forall ip | ip in a ensures ip in b {
      var k :| k in a[ip];
      assert Listed(a, ip, k);
      assert Listed(b, ip, k);
    }
    forall ip | ip in b ensures ip in a {
      var k :| k in b[ip];
      assert Listed(b, ip, k);
      assert Listed(a, ip, k);
    }
    forall ip | ip in a ensures a[ip] == b[ip] {
      forall k ensures k in a[ip] <==> k in b[ip] {
        assert Listed(a, ip, k) <==> Listed(b, ip, k);
      }
    }
  }

  function SlicesOf(endpoints: map<Key, Slices>, k: Key): Slices { if k in endpoints then endpoints[k] else map[] }

  /** Replacing one slice of one service; an empty one disappears, and with the
      last slice the service. */
  function SliceSet(endpoints: map<Key, Slices>, key: Key, slice: string, eps: seq<Endpoint>): map<Key, Slices> {
    var others := SlicesOf(endpoints, key) - {slice};
    if eps != [] then endpoints[key := others[slice := eps]]
    else if others == map[] then endpoints - {key}
    else endpoints[key := others]
  }
}
