/** Strict total orders, lexicographic order, sorting a set, and binary search
    with wrap-around, as the zone's denial chains use them. */
module Order {
  import opened Names

  ghost predicate StrictTotal<T(!new)>(less: (T, T) -> bool) {
    && (forall a :: !less(a, a))
    && (forall a, b, c :: less(a, b) && less(b, c) ==> less(a, c))
    && (forall a, b :: a == b || less(a, b) || less(b, a))
  }

  /** Equal keys may repeat; used for chains that binary search walks. */
  ghost predicate Sorted<T>(keys: seq<T>, less: (T, T) -> bool) {
    forall i, j :: 0 <= i < j < |keys| ==> !less(keys[j], keys[i])
  }

  ghost predicate StrictlySorted<T>(keys: seq<T>, less: (T, T) -> bool) {
    forall i, j :: 0 <= i < j < |keys| ==> less(keys[i], keys[j])
  }

  lemma StrictIsSorted<T(!new)>(keys: seq<T>, less: (T, T) -> bool)
    requires StrictTotal(less) && StrictlySorted(keys, less)
    ensures Sorted(keys, less)
  {
    forall i, j | 0 <= i < j < |keys| ensures !less(keys[j], keys[i]) {
      assert less(keys[i], keys[j]) && !less(keys[i], keys[i]);
    }
  }

  // ------------------------------------------------------- lexicographic

  predicate Lex<T(==)>(a: seq<T>, b: seq<T>, less: (T, T) -> bool) {
    if b == [] then false
    else if a == [] then true
    else if a[0] == b[0] then Lex(a[1..], b[1..], less)
    else less(a[0], b[0])
  }

  lemma {:induction false} LexIrreflexive<T(!new)>(a: seq<T>, less: (T, T) -> bool)
    ensures !Lex(a, a, less)
  {
    if a != [] { LexIrreflexive(a[1..], less); }
  }

  lemma {:induction false} LexTransitive<T(!new)>(a: seq<T>, b: seq<T>, c: seq<T>, less: (T, T) -> bool)
    requires StrictTotal(less)
    requires Lex(a, b, less) && Lex(b, c, less)
    ensures Lex(a, c, less)
  {
    if a != [] && a[0] == b[0] && b[0] == c[0] { LexTransitive(a[1..], b[1..], c[1..], less); }
  }

  lemma {:induction false} LexConnected<T(!new)>(a: seq<T>, b: seq<T>, less: (T, T) -> bool)
    requires StrictTotal(less)
    ensures a == b || Lex(a, b, less) || Lex(b, a, less)
  {
    if a != [] && b != [] && a[0] == b[0] {
      LexConnected(a[1..], b[1..], less);
      assert a == [a[0]] + a[1..] && b == [b[0]] + b[1..];
    }
  }

  /** The first difference decides, and a proper prefix comes first. */
  lemma {:induction false} LexIff<T(!new)>(a: seq<T>, b: seq<T>, less: (T, T) -> bool)
    ensures Lex(a, b, less) <==> exists k: nat :: DecidedAt(a, b, k, less)
  {
    forall k: nat | k > 0 && DecidedAt(a, b, k, less) ensures a[0] == b[0] { SameStart(a, b, k, less); }
    if a != [] && b != [] && a[0] == b[0] {
      LexIff(a[1..], b[1..], less);
      if k: nat :| DecidedAt(a[1..], b[1..], k, less) {
        assert a[..k + 1] == [a[0]] + a[1..][..k] && b[..k + 1] == [b[0]] + b[1..][..k];
        assert DecidedAt(a, b, k + 1, less);
      }
      if k: nat :| DecidedAt(a, b, k, less) {
        assert a[1..][..k - 1] == a[..k][1..] && b[1..][..k - 1] == b[..k][1..];
        assert DecidedAt(a[1..], b[1..], k - 1, less);
      }
    } else if Lex(a, b, less) {
      assert DecidedAt(a, b, 0, less);
    }
  }

  lemma SameStart<T>(a: seq<T>, b: seq<T>, k: nat, less: (T, T) -> bool)
    requires DecidedAt(a, b, k, less) && k > 0
    ensures a[0] == b[0]
  {
    assert a[..k][0] == a[0] && b[..k][0] == b[0];
  }

  /** `a` and `b` agree on the first `k` elements and are told apart by the next. */
  predicate DecidedAt<T(==)>(a: seq<T>, b: seq<T>, k: nat, less: (T, T) -> bool) {
    && k <= |a| && k < |b| && a[..k] == b[..k]
    && (k < |a| ==> a[k] != b[k] && less(a[k], b[k]))
  }

  // ------------------------------------------ canonical order, hash order

  predicate CharLess(a: char, b: char) { a < b }

  predicate LabelLess(a: Label, b: Label) { Lex(a, b, CharLess) }

  function FromRoot(n: Name): (r: Name)
    ensures |r| == |n|
  {
    if n == [] then [] else FromRoot(n[1..]) + [n[0]]
  }

  /** Canonical order of names (section 6.1 of RFC 4034): labels are compared
      from the root down, each as a string of octets. */
  predicate CanonicalLess(a: Name, b: Name) { Lex(FromRoot(a), FromRoot(b), LabelLess) }

  type Hash = seq<nat>

  predicate OctetLess(a: nat, b: nat) { a < b }

  predicate HashLess(a: Hash, b: Hash) { Lex(a, b, OctetLess) }

  lemma LexStrictTotal<T(!new)>(less: (T, T) -> bool)
    requires StrictTotal(less)
    ensures forall a :: !Lex(a, a, less)
    ensures forall a, b, c :: Lex(a, b, less) && Lex(b, c, less) ==> Lex(a, c, less)
    ensures forall a, b :: a == b || Lex(a, b, less) || Lex(b, a, less)
  {
    forall a ensures !Lex(a, a, less) { LexIrreflexive(a, less); }
    forall a, b, c | Lex(a, b, less) && Lex(b, c, less) ensures Lex(a, c, less) {
      LexTransitive(a, b, c, less);
    }
    forall a, b ensures a == b || Lex(a, b, less) || Lex(b, a, less) { LexConnected(a, b, less); }
  }

  lemma {:induction false} FromRootInjective(a: Name, b: Name)
    requires FromRoot(a) == FromRoot(b)
    ensures a == b
  {
    if a != [] {
      var x, y := FromRoot(a), FromRoot(b);
      assert x[..|x| - 1] == FromRoot(a[1..]) && y[..|y| - 1] == FromRoot(b[1..]);
      assert x[|x| - 1] == a[0] && y[|y| - 1] == b[0];
      FromRootInjective(a[1..], b[1..]);
      assert a == [a[0]] + a[1..] && b == [b[0]] + b[1..];
    }
  }

  lemma {:induction false} FromRootAt(n: Name, i: nat)
    requires i < |n|
    ensures FromRoot(n)[i] == n[|n| - 1 - i]
  {
    if i < |n| - 1 { FromRootAt(n[1..], i); }
  }

  /** Canonical order over the names themselves: below their longest common ancestor, of
      `k` labels, `a` has no further label, or one whose octets come first. */
  ghost predicate ComesFirst(a: Name, b: Name, k: nat) {
    && k <= |a| && k < |b| && Suffix(a, k) == Suffix(b, k)
    && (k < |a| ==> a[|a| - 1 - k] != b[|b| - 1 - k] && LabelFirst(a[|a| - 1 - k], b[|b| - 1 - k]))
  }

  ghost predicate LabelFirst(l: Label, m: Label) {
    exists j: nat :: j <= |l| && j < |m| && l[..j] == m[..j] && (j < |l| ==> l[j] < m[j])
  }

  lemma LabelFirstIff(l: Label, m: Label)
    ensures LabelLess(l, m) <==> LabelFirst(l, m)
  {
    LexIff(l, m, CharLess);
    if j: nat :| DecidedAt(l, m, j, CharLess) { assert l[..j] == m[..j]; }
    if j: nat :| j <= |l| && j < |m| && l[..j] == m[..j] && (j < |l| ==> l[j] < m[j]) { assert DecidedAt(l, m, j, CharLess); }
  }

  lemma CommonAncestor(a: Name, b: Name, k: nat)
    requires k <= |a| && k <= |b|
    ensures FromRoot(a)[..k] == FromRoot(b)[..k] <==> Suffix(a, k) == Suffix(b, k)
  {
    forall i: nat | i < k ensures FromRoot(a)[i] == Suffix(a, k)[k - 1 - i] && FromRoot(b)[i] == Suffix(b, k)[k - 1 - i] {
      FromRootAt(a, i);
      FromRootAt(b, i);
    }
    if Suffix(a, k) == Suffix(b, k) {
      assert forall i :: 0 <= i < k ==> FromRoot(a)[..k][i] == FromRoot(b)[..k][i];
    }
    if FromRoot(a)[..k] == FromRoot(b)[..k] {
      forall i | 0 <= i < k ensures Suffix(a, k)[i] == Suffix(b, k)[i] {
        assert FromRoot(a)[..k][k - 1 - i] == FromRoot(b)[..k][k - 1 - i];
      }
    }
  }

  lemma DecidedIff(a: Name, b: Name, k: nat)
    ensures DecidedAt(FromRoot(a), FromRoot(b), k, LabelLess) <==> ComesFirst(a, b, k)
  {
    if k <= |a| && k < |b| {
      CommonAncestor(a, b, k);
      FromRootAt(b, k);
      if k < |a| {
        FromRootAt(a, k);
        LabelFirstIff(a[|a| - 1 - k], b[|b| - 1 - k]);
      }
    }
  }

  lemma CanonicalOrderIs(a: Name, b: Name)
    ensures CanonicalLess(a, b) <==> exists k: nat :: ComesFirst(a, b, k)
  {
    LexIff(FromRoot(a), FromRoot(b), LabelLess);
    if k: nat :| DecidedAt(FromRoot(a), FromRoot(b), k, LabelLess) { DecidedIff(a, b, k); }
    if k: nat :| ComesFirst(a, b, k) { DecidedIff(a, b, k); }
  }

  lemma HashOrderIsTotal()
    ensures StrictTotal(HashLess)
  {
    LexStrictTotal(OctetLess);
  }

  lemma CanonicalOrderIsTotal()
    ensures StrictTotal(CanonicalLess)
  {
    LexStrictTotal(CharLess);
    assert StrictTotal(LabelLess);
    LexStrictTotal(LabelLess);
    forall a, b ensures a == b || CanonicalLess(a, b) || CanonicalLess(b, a) {
      if FromRoot(a) == FromRoot(b) { FromRootInjective(a, b); }
    }
  }

  // ------------------------------------------------------ sorting a set

  function Elements<T>(s: seq<T>): set<T> { set x | x in s }

  /** The elements of `s`, each once, in increasing order. */
  method SortSet<T(!new, ==)>(s: set<T>, less: (T, T) -> bool) returns (r: seq<T>)
    requires StrictTotal(less)
    ensures StrictlySorted(r, less)
    ensures Elements(r) == s
  {
    r := [];
    var rest := s;
    while rest != {}
      invariant rest <= s
      invariant StrictlySorted(r, less)
      invariant Elements(r) == s - rest
      decreases rest
    {
      var x :| x in rest;
      var i := |r|;
      while i > 0 && less(x, r[i - 1])
        invariant 0 <= i <= |r|
        invariant forall j :: i <= j < |r| ==> less(x, r[j])
      {
        i := i - 1;
      }
      ghost var old_r := r;
      assert forall j :: 0 <= j < i ==> r[j] in Elements(r);
      assert i > 0 ==> less(r[i - 1], x);
      r := InsertAt(r, i, x, less);
      rest := rest - {x};
      assert Elements(r) == Elements(old_r) + {x};
    }
  }

  function InsertAt<T(!new)>(r: seq<T>, i: nat, x: T, less: (T, T) -> bool): (r': seq<T>)
    requires StrictTotal(less) && StrictlySorted(r, less)
    requires i <= |r|
    requires i > 0 ==> less(r[i - 1], x)
    requires forall j :: i <= j < |r| ==> less(x, r[j])
    ensures StrictlySorted(r', less)
    ensures forall y :: y in r' <==> y in r || y == x
  {
    assert forall y :: y in r ==> y in r[..i] || y in r[i..];
    r[..i] + [x] + r[i..]
  }

  /** A set has only one increasing enumeration. */
  lemma {:induction false} SortedUnique<T(!new)>(a: seq<T>, b: seq<T>, less: (T, T) -> bool)
    requires StrictTotal(less)
    requires StrictlySorted(a, less) && StrictlySorted(b, less)
    requires Elements(a) == Elements(b)
    ensures a == b
  {
    assert a != [] ==> a[0] in Elements(b);
    assert b != [] ==> b[0] in Elements(a);
    if a != [] {
      assert a[0] in Elements(b) && b[0] in Elements(a);
      var i :| 0 <= i < |b| && b[i] == a[0];
      var j :| 0 <= j < |a| && a[j] == b[0];
      assert a[0] == b[0];
      assert Elements(a[1..]) == Elements(b[1..]) by {
        forall x ensures x in Elements(a[1..]) <==> x in Elements(b[1..]) {
          assert x in Elements(a[1..]) ==> x in Elements(a);
          assert x in Elements(b[1..]) ==> x in Elements(b);
          assert Elements(a) == {a[0]} + Elements(a[1..]);
          assert Elements(b) == {b[0]} + Elements(b[1..]);
        }
      }
      SortedUnique(a[1..], b[1..], less);
      assert a == [a[0]] + a[1..] && b == [b[0]] + b[1..];
    }
  }

  // ---------------------------------------------------- binary search

  datatype Place = At(index: nat) | Before(index: nat)

  function BinarySearch<T(==)>(keys: seq<T>, x: T, less: (T, T) -> bool, lo: nat, hi: nat): (p: Place)
    requires lo <= hi <= |keys|
    ensures lo <= p.index <= hi
    ensures p.At? ==> p.index < hi && keys[p.index] == x
    decreases hi - lo
  {
    if lo == hi then Before(lo)
    else
      var mid := lo + (hi - lo) / 2;
      if keys[mid] == x then At(mid)
      else if less(keys[mid], x) then BinarySearch(keys, x, less, mid + 1, hi)
      else BinarySearch(keys, x, less, lo, mid)
  }

  /** Everything before index `i` is below `x`, everything from it on above. */
  ghost predicate Splits<T>(keys: seq<T>, i: nat, x: T, less: (T, T) -> bool) {
    && i <= |keys|
    && (forall j :: 0 <= j < i ==> less(keys[j], x))
    && (forall j :: i <= j < |keys| ==> less(x, keys[j]))
  }

  lemma {:induction false} BinarySearchFinds<T(!new)>(keys: seq<T>, x: T, less: (T, T) -> bool, lo: nat, hi: nat)
    requires lo <= hi <= |keys|
    requires StrictTotal(less) && Sorted(keys, less)
    requires forall i :: 0 <= i < lo ==> less(keys[i], x)
    requires forall i :: hi <= i < |keys| ==> less(x, keys[i])
    ensures var p := BinarySearch(keys, x, less, lo, hi);
      p.Before? ==> Splits(keys, p.index, x, less)
    decreases hi - lo
  {
    if lo < hi {
      var mid := lo + (hi - lo) / 2;
      if keys[mid] == x {
      } else if less(keys[mid], x) {
        forall i | 0 <= i < mid + 1 ensures less(keys[i], x) {
          if i < mid { assert !less(keys[mid], keys[i]); }
        }
        BinarySearchFinds(keys, x, less, mid + 1, hi);
      } else {
        forall i | mid <= i < |keys| ensures less(x, keys[i]) {
          if mid < i { assert !less(keys[i], keys[mid]); }
        }
        BinarySearchFinds(keys, x, less, lo, mid);
      }
    }
  }

  /** The entry at or circularly before `x`; an `x` before the first wraps to the last. */
  function PredecessorIndex<T(==)>(keys: seq<T>, x: T, less: (T, T) -> bool): (i: nat)
    requires keys != []
    ensures i < |keys|
  {
    match BinarySearch(keys, x, less, 0, |keys|)
    case At(i) => i
    case Before(i) => if i == 0 then |keys| - 1 else i - 1
  }

  /** `x` lies strictly inside the circular interval that starts at entry `i`. */
  ghost predicate StrictlyCovers<T>(keys: seq<T>, i: nat, x: T, less: (T, T) -> bool)
    requires i < |keys|
  {
    var next := keys[(i + 1) % |keys|];
    if less(keys[i], next) then less(keys[i], x) && less(x, next)
    else less(keys[i], x) || less(x, next)
  }

  lemma SplitCovers<T>(keys: seq<T>, p: nat, x: T, less: (T, T) -> bool)
    requires keys != [] && Sorted(keys, less) && Splits(keys, p, x, less)
    requires !less(keys[0], keys[0])
    ensures StrictlyCovers(keys, if p == 0 then |keys| - 1 else p - 1, x, less)
  {
    var n := |keys|;
    if p == 0 || p == n {
      assert (n - 1 + 1) % n == 0;
      assert !less(keys[n - 1], keys[0]);
    } else {
      assert (p - 1 + 1) % n == p;
    }
  }

  /** Of a sorted chain, binary search with wrap-around returns the entry equal
      to `x` when there is one, and otherwise one whose circular interval
      strictly contains `x`. */
  lemma PredecessorCovers<T(!new)>(keys: seq<T>, x: T, less: (T, T) -> bool)
    requires keys != [] && StrictTotal(less) && Sorted(keys, less)
    ensures var i := PredecessorIndex(keys, x, less);
      if x in keys then keys[i] == x else StrictlyCovers(keys, i, x, less)
  {
    BinarySearchFinds(keys, x, less, 0, |keys|);
    var p := BinarySearch(keys, x, less, 0, |keys|);
    if p.Before? {
      SplitCovers(keys, p.index, x, less);
    }
  }
}
