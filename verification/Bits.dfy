/** Bit strings, most significant bit first, and their values. */
module Bits {

  type BitString = seq<bool>

  function Pow2(n: nat): (p: nat)
    ensures p >= 1
  {
    if n == 0 then 1 else 2 * Pow2(n - 1)
  }

  function ToNat(b: BitString): (n: nat)
    ensures n < Pow2(|b|)
  {
    if b == [] then 0 else 2 * ToNat(b[..|b| - 1]) + (if b[|b| - 1] then 1 else 0)
  }

  function FromNat(n: nat, width: nat): (b: BitString)
    ensures |b| == width
  {
    if width == 0 then [] else FromNat(n / 2, width - 1) + [n % 2 == 1]
  }

  lemma {:induction false} ToNatFromNat(n: nat, width: nat)
    requires n < Pow2(width)
    ensures ToNat(FromNat(n, width)) == n
  {
    if width > 0 {
      var b := FromNat(n, width);
      ToNatFromNat(n / 2, width - 1);
      assert b[..|b| - 1] == FromNat(n / 2, width - 1);
    }
  }

  lemma {:induction false} ToNatInjective(a: BitString, b: BitString)
    requires |a| == |b| && ToNat(a) == ToNat(b)
    ensures a == b
  {
    if a != [] {
      ToNatInjective(a[..|a| - 1], b[..|b| - 1]);
      assert a == a[..|a| - 1] + [a[|a| - 1]] && b == b[..|b| - 1] + [b[|b| - 1]];
    }
  }

  lemma {:induction false} ToNatConcat(a: BitString, b: BitString)
    ensures ToNat(a + b) == ToNat(a) * Pow2(|b|) + ToNat(b)
  {
    if b == [] {
      assert a + b == a;
    } else {
      var b' := b[..|b| - 1];
      assert (a + b)[..|a + b| - 1] == a + b';
      ToNatConcat(a, b');
      ShiftOne(ToNat(a), Pow2(|b'|), ToNat(b'), if b[|b| - 1] then 1 else 0);
    }
  }

  lemma ShiftOne(hi: nat, p: nat, lo: nat, bit: nat)
    ensures 2 * (hi * p + lo) + bit == hi * (2 * p) + (2 * lo + bit)
  {
  }

  /** Drop the low `k` bits. */
  function ShiftRight(n: nat, k: nat): nat {
    if k == 0 then n else ShiftRight(n / 2, k - 1)
  }

  /** Keep only the low `k` bits. */
  function LowBits(n: nat, k: nat): nat {
    if k == 0 then 0 else 2 * LowBits(n / 2, k - 1) + n % 2
  }

  lemma {:induction false} ToNatSplit(a: BitString, b: BitString)
    ensures ShiftRight(ToNat(a + b), |b|) == ToNat(a)
    ensures LowBits(ToNat(a + b), |b|) == ToNat(b)
  {
    if b == [] {
      assert a + b == a;
    } else {
      var b', bit := b[..|b| - 1], if b[|b| - 1] then 1 else 0;
      assert (a + b)[..|a + b| - 1] == a + b';
      assert ToNat(a + b) == 2 * ToNat(a + b') + bit;
      ToNatSplit(a, b');
    }
  }

  // ---------------------------------------------------------------- groups

  /** A whole number of groups. */
  predicate Whole(n: nat, w: nat)
    requires w > 0
  {
    n == 0 || (n >= w && Whole(n - w, w))
  }

  lemma {:induction false} WholeIfDivides(n: nat, w: nat)
    requires (w == 4 || w == 8) && n % w == 0
    ensures Whole(n, w)
  {
    if n > 0 {
      assert n >= w && (n - w) % w == 0;
      WholeIfDivides(n - w, w);
    }
  }

  /** The bits in groups of `w`; what is left over is dropped. */
  function Grouped(b: BitString, w: nat): (ds: seq<nat>)
    requires w > 0
    ensures forall i :: 0 <= i < |ds| ==> ds[i] < Pow2(w)
  {
    if |b| < w then [] else [ToNat(b[..w])] + Grouped(b[w..], w)
  }

  lemma GroupedStep(first: BitString, rest: BitString, w: nat)
    requires w > 0 && |first| == w
    ensures Grouped(first + rest, w) == [ToNat(first)] + Grouped(rest, w)
  {
    assert (first + rest)[..w] == first && (first + rest)[w..] == rest;
  }

  lemma GroupedConcatStep(first: BitString, rest: BitString, b: BitString, w: nat)
    requires w > 0 && |first| == w && Grouped(rest + b, w) == Grouped(rest, w) + Grouped(b, w)
    ensures Grouped((first + rest) + b, w) == Grouped(first + rest, w) + Grouped(b, w)
  {
    GroupedStep(first, rest, w);
    GroupedStep(first, rest + b, w);
    assert (first + rest) + b == first + (rest + b);
  }

  lemma {:induction false} GroupedConcat(a: BitString, b: BitString, w: nat)
    requires w > 0 && Whole(|a|, w)
    ensures Grouped(a + b, w) == Grouped(a, w) + Grouped(b, w)
    decreases |a|
  {
    if a == [] {
      assert a + b == b;
    } else {
      var first, rest := a[..w], a[w..];
      GroupedConcat(rest, b, w);
      GroupedConcatStep(first, rest, b, w);
      assert a == first + rest;
    }
  }

  lemma {:induction false} GroupedInjective(a: BitString, b: BitString, w: nat)
    requires w > 0 && Whole(|a|, w) && |a| == |b| && Grouped(a, w) == Grouped(b, w)
    ensures a == b
    decreases |a|
  {
    if a != [] {
      assert Grouped(a, w)[0] == Grouped(b, w)[0] && Grouped(a, w)[1..] == Grouped(b, w)[1..];
      ToNatInjective(a[..w], b[..w]);
      GroupedInjective(a[w..], b[w..], w);
      assert a == a[..w] + a[w..] && b == b[..w] + b[w..];
    }
  }

  lemma {:induction false} GroupedSize(b: BitString, w: nat)
    requires w == 4 || w == 8
    ensures |Grouped(b, w)| == |b| / w
    decreases |b|
  {
    if |b| >= w { GroupedSize(b[w..], w); }
  }

  lemma {:induction false} SameGroupCount(a: BitString, b: BitString, w: nat)
    requires w > 0 && |a| == |b|
    ensures |Grouped(a, w)| == |Grouped(b, w)|
    decreases |a|
  {
    if |a| >= w { SameGroupCount(a[w..], b[w..], w); }
  }

  function OctetBits(octets: seq<nat>): (b: BitString)
    ensures |b| == 8 * |octets|
  {
    if octets == [] then [] else FromNat(octets[0], 8) + OctetBits(octets[1..])
  }

  lemma {:induction false} OctetsOfBits(octets: seq<nat>)
    requires forall i :: 0 <= i < |octets| ==> octets[i] < 256
    ensures Grouped(OctetBits(octets), 8) == octets
  {
    if octets != [] {
      OctetsOfBits(octets[1..]);
      Pow2Of8();
      ToNatFromNat(octets[0], 8);
      var b := OctetBits(octets);
      assert b[..8] == FromNat(octets[0], 8) && b[8..] == OctetBits(octets[1..]);
    }
  }

  lemma Pow2Of8()
    ensures Pow2(8) == 256 && Pow2(5) == 32 && Pow2(4) == 16
  {
    assert Pow2(4) == 16;
    assert Pow2(6) == 64;
  }

  // -------------------------------------------------------------- division

  lemma AtLeastOnce(k: int, d: nat)
    requires k >= 1
    ensures k * d >= d
  {
    assert k * d == (k - 1) * d + d;
  }

  lemma DivModUnique(q: nat, d: nat, r: nat)
    requires r < d
    ensures (q * d + r) / d == q && (q * d + r) % d == r
  {
    var k, m := (q * d + r) / d, (q * d + r) % d;
    assert q * d + r == k * d + m;
    assert (q - k) * d == m - r;
    assert (k - q) * d == r - m;
    if k < q {
      AtLeastOnce(q - k, d);
    } else if k > q {
      AtLeastOnce(k - q, d);
    }
  }
}
