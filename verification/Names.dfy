/** Domain names as the server compares them: lowercase labels, leaf first,
    the root being the empty sequence. */
module Names {

  datatype Option<+T> = None | Some(value: T)

  type Label = string
  type Name = seq<Label>

  const STAR: Label := "*"

  /** The ancestor of `name` that keeps its last `k` labels. */
  function Suffix(name: Name, k: nat): (s: Name)
    requires k <= |name|
    ensures |s| == k
  {
    name[|name| - k..]
  }

  /** Is `name` at or below `zone`? */
  predicate IsSubdomain(zone: Name, name: Name) {
    |zone| <= |name| && Suffix(name, |zone|) == zone
  }

  predicate IsProperSubdomain(zone: Name, name: Name) {
    IsSubdomain(zone, name) && zone != name
  }

  function Parent(name: Name): Name {
    if name == [] then [] else name[1..]
  }

  function WildcardOf(name: Name): Name {
    [STAR] + name
  }

  /** The ancestor of `name` one label below its closest encloser `ce`. */
  function NextCloser(name: Name, ce: Name): Name {
    if |ce| + 1 > |name| then name else Suffix(name, |ce| + 1)
  }

  /** Octets of `name` in wire form: a length octet per label and the root's. */
  function WireLength(name: Name): nat {
    if name == [] then 1 else |name[0]| + 1 + WireLength(name[1..])
  }

  lemma SuffixOfSuffix(name: Name, j: nat, k: nat)
    requires k <= j <= |name|
    ensures Suffix(Suffix(name, j), k) == Suffix(name, k)
  {
  }

  lemma SubdomainTransitive(a: Name, b: Name, c: Name)
    requires IsSubdomain(a, b) && IsSubdomain(b, c)
    ensures IsSubdomain(a, c)
  {
    SuffixOfSuffix(c, |b|, |a|);
  }

  /** Two ancestors of one name are themselves nested. */
  lemma AncestorsNest(a: Name, b: Name, c: Name)
    requires IsSubdomain(a, c) && IsSubdomain(b, c) && |a| <= |b|
    ensures IsSubdomain(a, b)
  {
    SuffixOfSuffix(c, |b|, |a|);
  }

  /** The ancestors of a name are itself and those of its parent. */
  lemma Up(m: Name, n: Name)
    requires n != []
    ensures IsSubdomain(m, n) <==> m == n || IsSubdomain(m, Parent(n))
  {
    assert |m| <= |Parent(n)| ==> Suffix(n, |m|) == Suffix(Parent(n), |m|);
    assert Suffix(n, |n|) == n;
  }

  lemma AtMostTwoBelow(apex: Name, n: Name)
    requires n == apex || (n != [] && (Parent(n) == apex || (Parent(n) != [] && Parent(Parent(n)) == apex)))
    ensures IsSubdomain(apex, n)
  {
    if n != apex {
      Up(apex, n);
      if Parent(n) != apex { Up(apex, Parent(n)); }
    }
    assert Suffix(apex, |apex|) == apex;
  }

  // ASCII case

  function LowerChar(c: char): char {
    if 'A' <= c <= 'Z' then ((c as int - 'A' as int) + 'a' as int) as char else c
  }

  function Lower(s: string): (r: string)
    ensures |r| == |s| && forall i :: 0 <= i < |s| ==> r[i] == LowerChar(s[i])
  {
    seq(|s|, i requires 0 <= i < |s| => LowerChar(s[i]))
  }

  function LowerAll(n: Name): (r: Name)
    ensures |r| == |n| && forall i :: 0 <= i < |n| ==> r[i] == Lower(n[i])
  {
    seq(|n|, i requires 0 <= i < |n| => Lower(n[i]))
  }

  lemma LowerIdempotent(s: string)
    ensures Lower(Lower(s)) == Lower(s)
  {
  }
}
