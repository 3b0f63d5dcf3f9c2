/** Reverse names and the reverse zones of address ranges. */
module Reverse {
  import opened Names
  import opened Bits

  datatype Family = Ip4 | Ip6 {
    /** Bits per label of a reverse name. */
    function Width(): nat { if this == Ip4 then 8 else 4 }
    function Octets(): nat { if this == Ip4 then 4 else 16 }
    function Root(): Name { if this == Ip4 then ["in-addr", "arpa"] else ["ip6", "arpa"] }
    function Base(): nat { if this == Ip4 then 256 else 16 }
  }

  datatype Address = Address(family: Family, octets: seq<nat>) {
    predicate Valid() { |octets| == family.Octets() && forall i :: 0 <= i < |octets| ==> octets[i] < 256 }
  }

  // -------------------------------------------------------------- numerals

  function DigitChar(d: nat): char
    requires d < 16
  {
    if d < 10 then ('0' as int + d) as char else ('a' as int + d - 10) as char
  }

  function CharValue(c: char, base: nat): (r: Option<nat>)
    requires base <= 16
    ensures r.Some? ==> r.value < base && DigitChar(r.value) == c
  {
    if '0' <= c <= '9' && c as int - '0' as int < base then Some(c as int - '0' as int)
    else if 'a' <= c <= 'f' && c as int - 'a' as int + 10 < base then Some(c as int - 'a' as int + 10)
    else None
  }

  lemma CharValueOfDigit(d: nat, base: nat)
    requires d < base <= 16
    ensures CharValue(DigitChar(d), base) == Some(d)
  {
  }

  function Decimal(n: nat): (s: string)
    ensures |s| > 0
  {
    (if n < 10 then "" else Decimal(n / 10)) + [DigitChar(n % 10)]
  }

  /** The value of a string of decimal digits. */
  function DigitsValue(s: string): Option<nat> {
    if s == "" then Some(0)
    else
      match (DigitsValue(s[..|s| - 1]), CharValue(s[|s| - 1], 10))
      case (Some(n), Some(d)) => Some(10 * n + d)
      case _ => None
  }

  /** Reading an octet: an optional plus sign, then digits, leading zeros included. */
  function ParseOctet(s: string): (r: Option<nat>)
    ensures r.Some? ==> r.value < 256
  {
    var digits := if s != "" && s[0] == '+' then s[1..] else s;
    if digits == "" then None
    else match DigitsValue(digits)
      case Some(n) => if n < 256 then Some(n) else None
      case None => None
  }

  lemma ValuePush(front: string, d: nat)
    requires d < 10 && DigitsValue(front).Some?
    ensures DigitsValue(front + [DigitChar(d)]) == Some(10 * DigitsValue(front).value + d)
  {
    CharValueOfDigit(d, 10);
    assert (front + [DigitChar(d)])[..|front|] == front;
  }

  lemma {:induction false} DecimalReadsBack(n: nat)
    ensures DigitsValue(Decimal(n)) == Some(n) && Decimal(n)[0] != '+'
  {
    var hi, d := n / 10, n % 10;
    DecimalOf(hi, d);
    if hi == 0 {
      ValuePush("", d);
    } else {
      DecimalReadsBack(hi);
      ValuePush(Decimal(hi), d);
    }
  }

  predicate Canonical(s: string) { s != "" && s[0] != '+' && (|s| > 1 ==> s[0] != '0') }

  lemma DecimalOf(hi: nat, d: nat)
    requires d < 10
    ensures Decimal(10 * hi + d) == (if hi == 0 then "" else Decimal(hi)) + [DigitChar(d)]
  {
    var n := 10 * hi + d;
    assert n / 10 == hi && n % 10 == d;
  }

  lemma {:induction false} CanonicalIsDecimal(s: string)
    requires s != "" && DigitsValue(s).Some? && (|s| > 1 ==> s[0] != '0')
    ensures Decimal(DigitsValue(s).value) == s
    ensures s[0] != '0' ==> DigitsValue(s).value > 0
  {
    var front, last := s[..|s| - 1], s[|s| - 1];
    var hi, d := DigitsValue(front).value, CharValue(last, 10).value;
    assert s == front + [last];
    DecimalOf(hi, d);
    if front != "" {
      assert s[0] == front[0];
      CanonicalIsDecimal(front);
    }
  }

  lemma {:induction false} DecimalIsCanonical(n: nat)
    ensures Canonical(Decimal(n)) && (n > 0 ==> Decimal(n)[0] != '0')
  {
    DecimalReadsBack(n);
    if n >= 10 {
      DecimalIsCanonical(n / 10);
      assert Decimal(n)[0] == Decimal(n / 10)[0];
    }
  }

  // ----------------------------------------------------------------- names

  /** One label of a reverse name. */
  function LabelOf(f: Family, d: nat): Label
    requires d < f.Base()
  {
    if f == Ip4 then Decimal(d) else [DigitChar(d)]
  }

  function ReadLabel(f: Family, s: Label): (r: Option<nat>)
    ensures r.Some? ==> r.value < f.Base()
  {
    if f == Ip4 then ParseOctet(s)
    else if |s| == 1 then CharValue(s[0], 16)
    else None
  }

  lemma LabelReadsBack(f: Family, d: nat)
    requires d < f.Base()
    ensures ReadLabel(f, LabelOf(f, d)) == Some(d)
  {
    if f == Ip4 { DecimalReadsBack(d); } else { CharValueOfDigit(d, 16); }
  }

  ghost predicate InBase(f: Family, ds: seq<nat>) { forall i :: 0 <= i < |ds| ==> ds[i] < f.Base() }

  /** The labels of the digits, the last digit's first. */
  function Spelled(f: Family, ds: seq<nat>): (parts: seq<Label>)
    requires forall i :: 0 <= i < |ds| ==> ds[i] < f.Base()
    ensures |parts| == |ds|
  {
    seq(|ds|, i requires 0 <= i < |ds| => LabelOf(f, ds[|ds| - 1 - i]))
  }

  lemma SpelledStep(f: Family, ds: seq<nat>, d: nat)
    requires InBase(f, ds) && d < f.Base()
    ensures Spelled(f, ds + [d]) == [LabelOf(f, d)] + Spelled(f, ds)
  {
  }

  /** The name for the leading digits of an address, least significant label first. */
  function DigitsName(f: Family, ds: seq<nat>): (n: Name)
    requires forall i :: 0 <= i < |ds| ==> ds[i] < f.Base()
    ensures |n| == |ds| + 2
  {
    Spelled(f, ds) + f.Root()
  }

  lemma DigitsNameAt(f: Family, ds: seq<nat>, i: nat)
    requires InBase(f, ds) && i < |ds|
    ensures DigitsName(f, ds)[|ds| - 1 - i] == LabelOf(f, ds[i])
  {
  }

  lemma ExtensionIsBelow(f: Family, ds: seq<nat>, es: seq<nat>)
    requires InBase(f, ds) && InBase(f, es) && ds <= es
    ensures IsSubdomain(DigitsName(f, ds), DigitsName(f, es))
  {
    var n, m := DigitsName(f, ds), DigitsName(f, es);
    var tail := Suffix(m, |n|);
    forall k | 0 <= k < |n| ensures tail[k] == n[k] {
      if k < |ds| {
        DigitsNameAt(f, ds, |ds| - 1 - k);
        DigitsNameAt(f, es, |ds| - 1 - k);
      }
    }
  }

  lemma BelowIsExtension(f: Family, ds: seq<nat>, es: seq<nat>, i: nat)
    requires InBase(f, ds) && InBase(f, es) && IsSubdomain(DigitsName(f, ds), DigitsName(f, es)) && i < |ds|
    ensures |ds| <= |es| && ds[i] == es[i]
  {
    var n, m := DigitsName(f, ds), DigitsName(f, es);
    var k := |ds| - 1 - i;
    assert Suffix(m, |n|)[k] == m[|m| - |n| + k];
    DigitsNameAt(f, ds, i);
    DigitsNameAt(f, es, i);
    LabelReadsBack(f, ds[i]);
    LabelReadsBack(f, es[i]);
  }

  /** Names nest exactly as the digit strings extend each other. */
  lemma NamesNest(f: Family, ds: seq<nat>, es: seq<nat>)
    requires InBase(f, ds) && InBase(f, es)
    ensures IsSubdomain(DigitsName(f, ds), DigitsName(f, es)) <==> ds <= es
  {
    if IsSubdomain(DigitsName(f, ds), DigitsName(f, es)) {
      assert |ds| <= |es|;
      forall i | 0 <= i < |ds| ensures ds[i] == es[i] {
        BelowIsExtension(f, ds, es, i);
      }
    } else if ds <= es {
      ExtensionIsBelow(f, ds, es);
    }
  }

  // ----------------------------------------------------------- half-octets

  /** The half-octets, high first. */
  function Nibbles(octets: seq<nat>): (ds: seq<nat>)
    ensures |ds| == 2 * |octets|
  {
    if octets == [] then [] else [octets[0] / 16, octets[0] % 16] + Nibbles(octets[1..])
  }

  lemma {:induction false} NibbleAt(octets: seq<nat>, i: nat)
    requires i < |octets|
    ensures Nibbles(octets)[2 * i] == octets[i] / 16 && Nibbles(octets)[2 * i + 1] == octets[i] % 16
  {
    if i > 0 {
      NibbleAt(octets[1..], i - 1);
      assert Nibbles(octets)[2 * i] == Nibbles(octets[1..])[2 * (i - 1)];
      assert Nibbles(octets)[2 * i + 1] == Nibbles(octets[1..])[2 * (i - 1) + 1];
    }
  }

  lemma Shift4(n: nat)
    ensures ShiftRight(n, 4) == n / 16 && LowBits(n, 4) == n % 16
  {
    var h := n / 2;
    assert ShiftRight(n, 4) == ShiftRight(h, 3) == ShiftRight(h / 2, 2) == ShiftRight(h / 2 / 2, 1);
    assert LowBits(n, 4) == 2 * LowBits(h, 3) + n % 2;
    assert LowBits(h, 3) == 2 * LowBits(h / 2, 2) + h % 2;
    assert LowBits(h / 2, 2) == 2 * LowBits(h / 2 / 2, 1) + h / 2 % 2;
    assert LowBits(h / 2 / 2, 1) == h / 2 / 2 % 2;
  }

  lemma OctetSplits(b: BitString)
    requires |b| == 8
    ensures ToNat(b) / 16 == ToNat(b[..4]) && ToNat(b) % 16 == ToNat(b[4..])
  {
    assert b == b[..4] + b[4..];
    ToNatSplit(b[..4], b[4..]);
    Shift4(ToNat(b));
  }

  lemma {:induction false} GroupedNibbles(b: BitString)
    requires |b| % 8 == 0
    ensures Nibbles(Grouped(b, 8)) == Grouped(b, 4)
    decreases |b|
  {
    if b != [] {
      assert |b| >= 8;
      GroupedNibbles(b[8..]);
      OctetSplits(b[..8]);
      assert b[..8][..4] == b[..4] && b[..8][4..] == b[4..][..4] && b[4..][4..] == b[8..];
      assert Grouped(b, 8)[1..] == Grouped(b[8..], 8);
      assert Grouped(b, 4) == [ToNat(b[..4])] + Grouped(b[4..], 4);
      assert Grouped(b[4..], 4) == [ToNat(b[4..][..4])] + Grouped(b[8..], 4);
    }
  }

  // ------------------------------------------------------------- addresses

  /** The digits of an address as its reverse name spells them. */
  function AddressDigits(a: Address): (ds: seq<nat>)
    requires a.Valid()
    ensures |ds| == 8 * |a.octets| / a.family.Width()
  {
    if a.family == Ip4 then a.octets else Nibbles(a.octets)
  }

  lemma DigitsOfAddress(a: Address)
    requires a.Valid()
    ensures AddressDigits(a) == Grouped(OctetBits(a.octets), a.family.Width()) && InBase(a.family, AddressDigits(a))
  {
    OctetsOfBits(a.octets);
    GroupedNibbles(OctetBits(a.octets));
    BaseIsPower(a.family);
  }

  lemma BaseIsPower(f: Family)
    ensures f.Base() == Pow2(f.Width())
  {
    Pow2Of8();
  }

  ghost function ReverseName(a: Address): Name
    requires a.Valid()
  {
    DigitsOfAddress(a);
    DigitsName(a.family, AddressDigits(a))
  }

  /** The name is written octet by octet, or half-octet by half-octet, backwards. */
  method ReverseNameOf(a: Address) returns (n: Name)
    requires a.Valid()
    ensures n == ReverseName(a)
  {
    DigitsOfAddress(a);
    var o := a.octets;
    if a.family == Ip4 {
      FourLabels(o);
      n := [Decimal(o[3]), Decimal(o[2]), Decimal(o[1]), Decimal(o[0])] + ["in-addr", "arpa"];
    } else {
      var parts := NibbleLabels(o);
      n := parts + ["ip6", "arpa"];
    }
  }

  lemma FourLabels(o: seq<nat>)
    requires |o| == 4 && InBase(Ip4, o)
    ensures Spelled(Ip4, o) == [Decimal(o[3]), Decimal(o[2]), Decimal(o[1]), Decimal(o[0])]
  {
    var parts, four := Spelled(Ip4, o), [Decimal(o[3]), Decimal(o[2]), Decimal(o[1]), Decimal(o[0])];
    assert parts[0] == LabelOf(Ip4, o[3]) && parts[1] == LabelOf(Ip4, o[2]);
    assert parts[2] == LabelOf(Ip4, o[1]) && parts[3] == LabelOf(Ip4, o[0]);
    assert |parts| == |four|;
  }

  method NibbleLabels(o: seq<nat>) returns (parts: seq<Label>)
    requires InBase(Ip6, Nibbles(o))
    ensures parts == Spelled(Ip6, Nibbles(o))
  {
    parts := [];
    for i := |o| downto 0
      invariant |parts| == 2 * |o| - 2 * i
      invariant forall k :: 0 <= k < |parts| ==> parts[k] == LabelOf(Ip6, Nibbles(o)[2 * |o| - 1 - k])
    {
      NibbleAt(o, i);
      parts := parts + [[DigitChar(o[i] % 16)], [DigitChar(o[i] / 16)]];
    }
  }

  /** The name label by label: the octets in decimal from the last to the first, */
  lemma ReverseNameLabels4(a: Address)
    requires a.Valid() && a.family == Ip4
    ensures var o := a.octets;
      ReverseName(a) == [Decimal(o[3]), Decimal(o[2]), Decimal(o[1]), Decimal(o[0]), "in-addr", "arpa"]
  {
    DigitsOfAddress(a);
    FourLabels(a.octets);
  }

  /** or the half-octets in hexadecimal, the low one of each octet first. */
  lemma ReverseNameLabels6(a: Address, j: nat)
    requires a.Valid() && a.family == Ip6 && j < 16
    ensures var n, o := ReverseName(a), a.octets[15 - j];
      && |n| == 34 && n[32..] == ["ip6", "arpa"]
      && n[2 * j] == ["0123456789abcdef"[o % 16]] && n[2 * j + 1] == ["0123456789abcdef"[o / 16]]
  {
    DigitsOfAddress(a);
    var ds := Nibbles(a.octets);
    NibbleAt(a.octets, 15 - j);
    HexDigit(a.octets[15 - j] % 16);
    HexDigit(a.octets[15 - j] / 16);
    SpelledAt(ds, 2 * j);
    SpelledAt(ds, 2 * j + 1);
  }

  lemma SpelledAt(ds: seq<nat>, i: nat)
    requires |ds| == 32 && InBase(Ip6, ds) && i < 32
    ensures var n := DigitsName(Ip6, ds); |n| == 34 && n[32..] == ["ip6", "arpa"] && n[i] == [DigitChar(ds[31 - i])]
  {
    assert Spelled(Ip6, ds)[i] == LabelOf(Ip6, ds[31 - i]);
  }

  lemma HexDigit(d: nat)
    requires d < 16
    ensures DigitChar(d) == "0123456789abcdef"[d]
  {
  }

  // ---------------------------------------------------------------- ranges

  /** The prefix length rounded up to a whole number of labels. */
  function Boundary(f: Family, prefix: nat): (b: nat)
    ensures prefix <= b && b % f.Width() == 0 && b - prefix < f.Width()
  {
    if f == Ip4 then (prefix + 7) / 8 * 8 else (prefix + 3) / 4 * 4
  }

  ghost predicate InRange(net: Address, prefix: nat, a: Address)
    requires prefix <= 8 * |net.octets|
  {
    a.family == net.family && |a.octets| == |net.octets| && OctetBits(a.octets)[..prefix] == OctetBits(net.octets)[..prefix]
  }

  /** The leading bits of the `k`th subnet of the range on the label boundary. */
  function SubnetBits(net: Address, prefix: nat, k: nat): (b: BitString)
    requires prefix <= 8 * |net.octets|
    ensures |b| == Boundary(net.family, prefix)
  {
    OctetBits(net.octets)[..prefix] + FromNat(k, Boundary(net.family, prefix) - prefix)
  }

  ghost function ZoneAt(net: Address, prefix: nat, k: nat): (z: Name)
    requires prefix <= 8 * |net.octets|
  {
    BaseIsPower(net.family);
    DigitsName(net.family, Grouped(SubnetBits(net, prefix, k), net.family.Width()))
  }

  function ZoneCount(net: Address, prefix: nat): nat { Pow2(Boundary(net.family, prefix) - prefix) }

  /** An address lies below the `k`th zone exactly when it lies in the `k`th subnet. */
  lemma ZoneHolds(net: Address, prefix: nat, k: nat, a: Address)
    requires net.Valid() && prefix <= 8 * |net.octets| && a.Valid() && a.family == net.family
    ensures var b := Boundary(net.family, prefix);
      b <= 8 * |a.octets| && (IsSubdomain(ZoneAt(net, prefix, k), ReverseName(a)) <==> SubnetBits(net, prefix, k) == OctetBits(a.octets)[..b])
  {
    var f, b, bits, sub := net.family, Boundary(net.family, prefix), OctetBits(a.octets), SubnetBits(net, prefix, k);
    assert b <= |bits|;
    DigitsOfAddress(a);
    BaseIsPower(f);
    NamesNest(f, Grouped(sub, f.Width()), AddressDigits(a));
    WholeIfDivides(b, f.Width());
    LeadingGroups(sub, bits, b, f.Width());
  }

  /** Grouped digits agree at the front exactly when the bits do. */
  lemma LeadingGroups(sub: BitString, bits: BitString, b: nat, w: nat)
    requires w > 0 && |sub| == b <= |bits| && Whole(b, w)
    ensures Grouped(sub, w) <= Grouped(bits, w) <==> sub == bits[..b]
  {
    var front, back := bits[..b], bits[b..];
    assert bits == front + back;
    GroupsAgree(sub, front, back, w);
  }

  lemma GroupsAgree(sub: BitString, front: BitString, back: BitString, w: nat)
    requires w > 0 && |sub| == |front| && Whole(|sub|, w)
    ensures Grouped(sub, w) <= Grouped(front + back, w) <==> sub == front
  {
    GroupedConcat(front, back, w);
    SameGroupCount(sub, front, w);
    PrefixOfSum(Grouped(sub, w), Grouped(front, w), Grouped(back, w));
    if Grouped(sub, w) == Grouped(front, w) { GroupedInjective(sub, front, w); }
  }

  lemma PrefixOfSum(a: seq<nat>, b: seq<nat>, c: seq<nat>)
    requires |a| == |b|
    ensures a <= b + c <==> a == b
  {
    assert (b + c)[..|b|] == b;
  }

  lemma FromNatToNat(b: BitString)
    ensures FromNat(ToNat(b), |b|) == b
  {
    ToNatFromNat(ToNat(b), |b|);
    ToNatInjective(FromNat(ToNat(b), |b|), b);
  }

  lemma SubnetOf(bits: BitString, prefix: nat, b: nat)
    requires prefix <= b <= |bits|
    ensures ToNat(bits[prefix..b]) < Pow2(b - prefix)
    ensures bits[..b] == bits[..prefix] + FromNat(ToNat(bits[prefix..b]), b - prefix)
  {
    FromNatToNat(bits[prefix..b]);
  }

  lemma InRangeHasZone(net: Address, prefix: nat, a: Address) returns (k: nat)
    requires net.Valid() && prefix <= 8 * |net.octets| && a.Valid() && InRange(net, prefix, a)
    ensures k < ZoneCount(net, prefix) && IsSubdomain(ZoneAt(net, prefix, k), ReverseName(a))
  {
    var b, bits := Boundary(net.family, prefix), OctetBits(a.octets);
    ZoneHolds(net, prefix, 0, a);
    SubnetOf(bits, prefix, b);
    k := ToNat(bits[prefix..b]);
    ZoneHolds(net, prefix, k, a);
  }

  lemma BelowZoneInRange(net: Address, prefix: nat, k: nat, a: Address)
    requires net.Valid() && prefix <= 8 * |net.octets| && a.Valid()
    requires IsSubdomain(ZoneAt(net, prefix, k), ReverseName(a))
    ensures InRange(net, prefix, a)
  {
    if a.family != net.family {
      OtherFamily(net, prefix, k, a);
    } else {
      ZoneHolds(net, prefix, k, a);
      var b, bits := Boundary(net.family, prefix), OctetBits(a.octets);
      assert bits[..b][..prefix] == bits[..prefix];
    }
  }

  /** An address is in the range exactly when its reverse name is at or below one
      of the generated zones. */
  lemma InRangeIffBelowZone(net: Address, prefix: nat, a: Address)
    requires net.Valid() && prefix <= 8 * |net.octets| && a.Valid()
    ensures InRange(net, prefix, a) <==>
      exists k :: 0 <= k < ZoneCount(net, prefix) && IsSubdomain(ZoneAt(net, prefix, k), ReverseName(a))
  {
    if InRange(net, prefix, a) {
      var k := InRangeHasZone(net, prefix, a);
    }
    if k :| 0 <= k < ZoneCount(net, prefix) && IsSubdomain(ZoneAt(net, prefix, k), ReverseName(a)) {
      BelowZoneInRange(net, prefix, k, a);
    }
  }

  lemma OtherFamily(net: Address, prefix: nat, k: nat, a: Address)
    requires net.Valid() && prefix <= 8 * |net.octets| && a.Valid() && a.family != net.family
    ensures !IsSubdomain(ZoneAt(net, prefix, k), ReverseName(a))
  {
    var z, n := ZoneAt(net, prefix, k), ReverseName(a);
    assert z[|z| - 2] == net.family.Root()[0];
    assert n[|n| - 2] == a.family.Root()[0];
    assert |z| <= |n| ==> Suffix(n, |z|)[|z| - 2] == n[|n| - 2];
  }

  /** No name lies below two of the zones. */
  lemma ZonesAreDisjoint(net: Address, prefix: nat, j: nat, k: nat, n: Name)
    requires net.Valid() && prefix <= 8 * |net.octets|
    requires j < ZoneCount(net, prefix) && k < ZoneCount(net, prefix)
    requires IsSubdomain(ZoneAt(net, prefix, j), n) && IsSubdomain(ZoneAt(net, prefix, k), n)
    ensures j == k
  {
    assert ZoneAt(net, prefix, j) == ZoneAt(net, prefix, k) by {
      GroupedSize(SubnetBits(net, prefix, j), net.family.Width());
      GroupedSize(SubnetBits(net, prefix, k), net.family.Width());
    }
    SameZoneSameSubnet(net, prefix, j, k);
    SubnetsDiffer(net, prefix, j, k);
  }

  lemma SameZoneSameSubnet(net: Address, prefix: nat, j: nat, k: nat)
    requires net.Valid() && prefix <= 8 * |net.octets| && ZoneAt(net, prefix, j) == ZoneAt(net, prefix, k)
    ensures SubnetBits(net, prefix, j) == SubnetBits(net, prefix, k)
  {
    var f, w := net.family, net.family.Width();
    var a, b := SubnetBits(net, prefix, j), SubnetBits(net, prefix, k);
    BaseIsPower(f);
    GroupedSize(a, w);
    GroupedSize(b, w);
    NamesNest(f, Grouped(a, w), Grouped(b, w));
    WholeIfDivides(|a|, w);
    GroupedInjective(a, b, w);
  }

  lemma SubnetsDiffer(net: Address, prefix: nat, j: nat, k: nat)
    requires prefix <= 8 * |net.octets| && j < ZoneCount(net, prefix) && k < ZoneCount(net, prefix)
    requires SubnetBits(net, prefix, j) == SubnetBits(net, prefix, k)
    ensures j == k
  {
    var extra := Boundary(net.family, prefix) - prefix;
    assert SubnetBits(net, prefix, j)[prefix..] == FromNat(j, extra);
    assert SubnetBits(net, prefix, k)[prefix..] == FromNat(k, extra);
    ToNatFromNat(j, extra);
    ToNatFromNat(k, extra);
  }

  /** The subnet's own address, host bits zero. */
  function SubnetOctets(net: Address, prefix: nat, k: nat): seq<nat>
    requires net.Valid() && prefix <= 8 * |net.octets|
  {
    var sub := SubnetBits(net, prefix, k);
    Grouped(sub + seq(8 * |net.octets| - |sub|, i => false), 8)
  }

  /** Its leading digits are those of the subnet's leading bits. */
  lemma SubnetDigits(net: Address, prefix: nat, k: nat)
    requires net.Valid() && prefix <= 8 * |net.octets|
    ensures var o, ds := SubnetOctets(net, prefix, k), Grouped(SubnetBits(net, prefix, k), net.family.Width());
      && |o| == |net.octets| && |ds| == Boundary(net.family, prefix) / net.family.Width()
      && ds <= DigitsOf(net.family, o)
  {
    var sub := SubnetBits(net, prefix, k);
    var zeros := seq(8 * |net.octets| - |sub|, i => false);
    var w := net.family.Width();
    WholeIfDivides(|sub|, w);
    GroupedConcat(sub, zeros, w);
    GroupedSize(sub, w);
    GroupedSize(sub + zeros, 8);
    GroupedNibbles(sub + zeros);
  }

  /** Expands an address range into its reverse zones. */
  method ReverseZones(net: Address, prefix: nat) returns (zones: seq<Name>)
    requires net.Valid() && prefix <= 8 * |net.octets|
    ensures |zones| == ZoneCount(net, prefix) && forall k :: 0 <= k < |zones| ==> zones[k] == ZoneAt(net, prefix, k)
  {
    var boundary := Boundary(net.family, prefix);
    zones := [];
    for k := 0 to ZoneCount(net, prefix)
      invariant |zones| == k && forall j :: 0 <= j < k ==> zones[j] == ZoneAt(net, prefix, j)
    {
      var o := SubnetOctets(net, prefix, k);
      ghost var ds := Grouped(SubnetBits(net, prefix, k), net.family.Width());
      SubnetDigits(net, prefix, k);
      BaseIsPower(net.family);
      var z := ZoneOf(net.family, o, boundary / net.family.Width(), ds);
      zones := zones + [z];
    }
  }

  /** The `i`th digit of an address: an octet, or a half of one. */
  function DigitAt(f: Family, o: seq<nat>, i: nat): nat
    requires i < |DigitsOf(f, o)|
  {
    if f == Ip4 then o[i] else if i % 2 == 0 then o[i / 2] / 16 else o[i / 2] % 16
  }

  function DigitsOf(f: Family, o: seq<nat>): seq<nat> { if f == Ip4 then o else Nibbles(o) }

  lemma DigitAtIs(f: Family, o: seq<nat>, i: nat)
    requires i < |DigitsOf(f, o)|
    ensures DigitAt(f, o, i) == DigitsOf(f, o)[i]
  {
    if f == Ip6 {
      var h := i / 2;
      NibbleAt(o, h);
      assert i == 2 * h || i == 2 * h + 1;
    }
  }

  /** The zone named by the first `count` digits of an address. */
  method ZoneOf(f: Family, o: seq<nat>, count: nat, ghost ds: seq<nat>) returns (z: Name)
    requires |ds| == count && InBase(f, ds) && ds <= DigitsOf(f, o)
    ensures z == DigitsName(f, ds)
  {
    var parts: seq<Label> := [];
    for i := 0 to count
      invariant |parts| == i && forall j :: 0 <= j < i ==> parts[j] == LabelOf(f, ds[j])
    {
      DigitAtIs(f, o, i);
      assert DigitAt(f, o, i) == ds[i];
      parts := parts + [LabelOf(f, DigitAt(f, o, i))];
    }
    var reversed := seq(count, i requires 0 <= i < count => parts[count - 1 - i]);
    assert reversed == Spelled(f, ds);
    z := reversed + f.Root();
  }

  // -------------------------------------------------------------- decoding

  /** The digits the labels spell, the last label's first. */
  function ReadDigits(f: Family, labels: seq<Label>): (r: Option<seq<nat>>)
    ensures r.Some? ==> |r.value| == |labels| && forall i :: 0 <= i < |labels| ==> r.value[i] < f.Base()
  {
    if labels == [] then Some([])
    else
      match (ReadDigits(f, labels[1..]), ReadLabel(f, labels[0]))
      case (Some(ds), Some(d)) => Some(ds + [d])
      case _ => None
  }

  function JoinNibbles(ds: seq<nat>): (o: seq<nat>)
    ensures |o| == |ds| / 2
  {
    if |ds| < 2 then [] else [16 * ds[0] + ds[1]] + JoinNibbles(ds[2..])
  }

  predicate HasRoot(f: Family, n: Name) { |n| > 2 && n[|n| - 2..] == f.Root() }

  function DecodeAs(f: Family, labels: seq<Label>): Option<Address> {
    if |labels| != 8 * f.Octets() / f.Width() then None
    else match ReadDigits(f, labels)
      case Some(ds) => Some(FromDigits(f, ds))
      case None => None
  }

  /** The address a complete reverse name stands for. */
  function Decode(name: Name): Option<Address> {
    var n := LowerAll(name);
    if HasRoot(Ip4, n) then DecodeAs(Ip4, n[..|n| - 2])
    else if HasRoot(Ip6, n) then DecodeAs(Ip6, n[..|n| - 2])
    else None
  }

  lemma {:induction false} SpelledDigitsRead(f: Family, ds: seq<nat>)
    requires InBase(f, ds)
    ensures ReadDigits(f, Spelled(f, ds)) == Some(ds)
  {
    if ds != [] {
      var before, d := ds[..|ds| - 1], ds[|ds| - 1];
      assert ds == before + [d];
      SpelledDigitsRead(f, before);
      LabelReadsBack(f, d);
      SpelledStep(f, before, d);
      assert Spelled(f, ds)[1..] == Spelled(f, before);
    }
  }

  lemma {:induction false} NibblesJoin(o: seq<nat>)
    ensures JoinNibbles(Nibbles(o)) == o
  {
    if o != [] {
      NibblesJoin(o[1..]);
      assert Nibbles(o)[2..] == Nibbles(o[1..]);
    }
  }

  lemma {:induction false} DecimalIsLower(n: nat)
    ensures Lower(Decimal(n)) == Decimal(n)
  {
    if n >= 10 { DecimalIsLower(n / 10); }
  }

  lemma LabelIsLower(f: Family, d: nat)
    requires d < f.Base()
    ensures Lower(LabelOf(f, d)) == LabelOf(f, d)
  {
    DecimalIsLower(d);
  }

  lemma DigitsNameIsLower(f: Family, ds: seq<nat>)
    requires InBase(f, ds)
    ensures LowerAll(DigitsName(f, ds)) == DigitsName(f, ds)
  {
    var n := DigitsName(f, ds);
    forall i | 0 <= i < |n| ensures Lower(n[i]) == n[i] {
      if i < |ds| {
        LabelIsLower(f, ds[|ds| - 1 - i]);
      } else {
        assert n[i] == f.Root()[i - |ds|];
        RootIsLower(f, i - |ds|);
      }
    }
  }

  lemma RootIsLower(f: Family, i: nat)
    requires i < 2
    ensures Lower(f.Root()[i]) == f.Root()[i]
  {
  }

  /** Decoding undoes encoding, for every address. */
  lemma DecodeUndoesEncode(a: Address)
    requires a.Valid()
    ensures Decode(ReverseName(a)) == Some(a)
  {
    DigitsOfAddress(a);
    var f, ds, n := a.family, AddressDigits(a), ReverseName(a);
    DigitsNameIsLower(f, ds);
    assert n[|n| - 2..] == f.Root();
    assert Ip4.Root()[0] != Ip6.Root()[0];
    assert n[..|n| - 2] == Spelled(f, ds);
    SpelledDigitsRead(f, ds);
    NibblesJoin(a.octets);
  }

  lemma LabelIsCanonical(f: Family, s: Label)
    requires ReadLabel(f, s).Some?
    ensures s == LabelOf(f, ReadLabel(f, s).value) <==> (f == Ip4 ==> Canonical(s))
  {
    if f == Ip4 {
      var d := ParseOctet(s).value;
      DecimalIsCanonical(d);
      if Canonical(s) { CanonicalIsDecimal(s); }
    }
  }

  predicate AllCanonical(f: Family, labels: seq<Label>) {
    f == Ip4 ==> forall i :: 0 <= i < |labels| ==> Canonical(labels[i])
  }

  lemma {:induction false} ReadDigitsSpell(f: Family, labels: seq<Label>)
    requires ReadDigits(f, labels).Some?
    ensures labels == Spelled(f, ReadDigits(f, labels).value) <==> AllCanonical(f, labels)
  {
    if labels != [] {
      var rest, d := labels[1..], ReadLabel(f, labels[0]).value;
      var before := ReadDigits(f, rest).value;
      ReadDigitsSpell(f, rest);
      LabelIsCanonical(f, labels[0]);
      SpelledStep(f, before, d);
      assert labels == [labels[0]] + rest;
      assert AllCanonical(f, labels) <==> AllCanonical(f, [labels[0]]) && AllCanonical(f, rest);
      assert labels == Spelled(f, before + [d]) <==> labels[0] == LabelOf(f, d) && rest == Spelled(f, before);
    }
  }

  lemma {:induction false} JoinedNibbles(ds: seq<nat>)
    requires InBase(Ip6, ds) && |ds| % 2 == 0
    ensures Nibbles(JoinNibbles(ds)) == ds && forall i :: 0 <= i < |JoinNibbles(ds)| ==> JoinNibbles(ds)[i] < 256
  {
    if ds != [] {
      JoinedNibbles(ds[2..]);
      var o := JoinNibbles(ds);
      assert o[1..] == JoinNibbles(ds[2..]) && o[0] / 16 == ds[0] && o[0] % 16 == ds[1];
      assert ds == [ds[0], ds[1]] + ds[2..];
    }
  }

  lemma NameFromLabels(f: Family, labels: seq<Label>, ds: seq<nat>)
    requires InBase(f, ds)
    ensures labels + f.Root() == DigitsName(f, ds) <==> labels == Spelled(f, ds)
  {
    var m, n := DigitsName(f, ds), labels + f.Root();
    assert m[..|m| - 2] == Spelled(f, ds) && n[..|n| - 2] == labels;
  }

  function FromDigits(f: Family, ds: seq<nat>): Address { Address(f, if f == Ip4 then ds else JoinNibbles(ds)) }

  lemma FromDigitsDigits(f: Family, ds: seq<nat>)
    requires InBase(f, ds) && |ds| == 8 * f.Octets() / f.Width()
    ensures FromDigits(f, ds).Valid() && AddressDigits(FromDigits(f, ds)) == ds
  {
    if f == Ip6 { JoinedNibbles(ds); }
  }

  lemma DecodedDigits(f: Family, labels: seq<Label>)
    requires DecodeAs(f, labels).Some?
    ensures var a := DecodeAs(f, labels).value;
      a.family == f && a.Valid() && ReadDigits(f, labels) == Some(AddressDigits(a))
  {
    var ds := ReadDigits(f, labels).value;
    FromDigitsDigits(f, ds);
    assert DecodeAs(f, labels).value == FromDigits(f, ds);
  }

  /** What decodes is an address, and the name is that address's own reverse name
      exactly when no octet is written with a plus sign or a leading zero. */
  lemma DecodedName(name: Name)
    requires Decode(name).Some?
    ensures var a, n := Decode(name).value, LowerAll(name);
      a.Valid() && (n == ReverseName(a) <==> AllCanonical(a.family, n[..|n| - 2]))
  {
    var n := LowerAll(name);
    var f := if HasRoot(Ip4, n) then Ip4 else Ip6;
    var labels := n[..|n| - 2];
    assert n == labels + f.Root();
    DecodedDigits(f, labels);
    ReadDigitsSpell(f, labels);
    NameFromLabels(f, labels, AddressDigits(Decode(name).value));
  }

  lemma {:induction false} ReadFails(f: Family, labels: seq<Label>, k: nat)
    requires k <= |labels| && ReadDigits(f, labels[k..]).None?
    ensures ReadDigits(f, labels).None?
  {
    if k > 0 {
      assert labels[1..][k - 1..] == labels[k..];
      ReadFails(f, labels[1..], k - 1);
    } else {
      assert labels[k..] == labels;
    }
  }

  lemma {:induction false} JoinAt(ds: seq<nat>, j: nat)
    requires 2 * j + 1 < |ds|
    ensures JoinNibbles(ds)[j] == 16 * ds[2 * j] + ds[2 * j + 1]
  {
    if j > 0 { JoinAt(ds[2..], j - 1); }
  }

  /** Reading a reverse name label by label, from the end. */
  method Extract(name: Name) returns (r: Option<Address>)
    ensures r == Decode(name)
  {
    var n := LowerAll(name);
    if HasRoot(Ip4, n) {
      var parts := n[..|n| - 2];
      if |parts| != 4 {
        return None;
      }
      var o := ReadOctets(parts);
      return if o.Some? then Some(Address(Ip4, o.value)) else None;
    }
    if HasRoot(Ip6, n) {
      var parts := n[..|n| - 2];
      if |parts| != 32 {
        return None;
      }
      var o := ReadNibbles(parts);
      return if o.Some? then Some(Address(Ip6, o.value)) else None;
    }
    r := None;
  }

  method ReadOctets(parts: seq<Label>) returns (r: Option<seq<nat>>)
    ensures r == ReadDigits(Ip4, parts)
  {
    var o: seq<nat> := [];
    for i := 0 to |parts|
      invariant ReadDigits(Ip4, parts[|parts| - i..]) == Some(o)
    {
      var at := |parts| - 1 - i;
      assert parts[at..][1..] == parts[|parts| - i..];
      var v := ParseOctet(parts[at]);
      if v.None? {
        ReadFails(Ip4, parts, at);
        return None;
      }
      o := o + [v.value];
    }
    assert parts[0..] == parts;
    r := Some(o);
  }

  /** `o` after `i` half-octets of `ds` have been put in. */
  ghost predicate Filled(o: seq<nat>, ds: seq<nat>) {
    && (forall j :: 0 <= j < |ds| / 2 && j < |o| ==> o[j] == 16 * ds[2 * j] + ds[2 * j + 1])
    && (forall j :: |ds| / 2 <= j < |o| ==> o[j] == if 2 * j < |ds| then 16 * ds[2 * j] else 0)
  }

  lemma FillNext(o: seq<nat>, ds: seq<nat>, v: nat)
    requires Filled(o, ds) && |ds| / 2 < |o|
    ensures var h := |ds| / 2; Filled(o[h := if |ds| % 2 == 0 then o[h] + 16 * v else o[h] + v], ds + [v])
  {
    var next := ds + [v];
    assert forall j :: 0 <= j < |ds| ==> next[j] == ds[j];
  }

  method ReadNibbles(parts: seq<Label>) returns (r: Option<seq<nat>>)
    requires |parts| == 32
    ensures match ReadDigits(Ip6, parts) { case Some(ds) => r == Some(JoinNibbles(ds)) case None => r == None }
  {
    var o: seq<nat> := seq(16, i => 0);
    ghost var ds: seq<nat> := [];
    for i := 0 to 32
      invariant |o| == 16 && |ds| == i && Filled(o, ds)
      invariant ReadDigits(Ip6, parts[32 - i..]) == Some(ds)
    {
      var at := 31 - i;
      assert parts[at..][1..] == parts[32 - i..];
      var v := ReadLabel(Ip6, parts[at]);
      if v.None? {
        ReadFails(Ip6, parts, at);
        return None;
      }
      FillNext(o, ds, v.value);
      o := o[i / 2 := if i % 2 == 0 then o[i / 2] + 16 * v.value else o[i / 2] + v.value];
      ds := ds + [v.value];
    }
    assert parts[0..] == parts;
    FilledIsJoined(o, ds);
    r := Some(o);
  }

  lemma FilledIsJoined(o: seq<nat>, ds: seq<nat>)
    requires Filled(o, ds) && |ds| == 2 * |o|
    ensures o == JoinNibbles(ds)
  {
    forall j | 0 <= j < |o| ensures o[j] == JoinNibbles(ds)[j] {
      JoinAt(ds, j);
    }
  }

  /** The failing case: `01`, `+1` and `1` all read as the octet 1, so these names
      decode to 10.0.0.1 and are not its reverse name. */
  lemma PaddedNamesDecode(odd: Label)
    requires odd == "01" || odd == "+1"
    ensures var name, a := [odd, "0", "0", "10", "in-addr", "arpa"], Address(Ip4, [10, 0, 0, 1]);
      Decode(name) == Some(a) && a.Valid() && LowerAll(name) != ReverseName(a)
  {
    var labels: Name, name: Name := [odd, "0", "0", "10"], [odd, "0", "0", "10", "in-addr", "arpa"];
    PaddedDigits(odd, labels);
    PlainRuns(odd);
    assert LowerAll(name) == name;
    assert HasRoot(Ip4, name) && name[..4] == labels;
    DecodedName(name);
    assert !Canonical(labels[0]);
  }

  lemma PaddedDigits(odd: Label, labels: seq<Label>)
    requires (odd == "01" || odd == "+1") && labels == [odd, "0", "0", "10"]
    ensures ReadDigits(Ip4, labels) == Some([10, 0, 0, 1])
  {
    DigitLabels(odd);
    var three: seq<Label>, two: seq<Label>, one: seq<Label> := ["0", "0", "10"], ["0", "10"], ["10"];
    ReadPush(one, [], [], 10, [10]);
    ReadPush(two, one, [10], 0, [10, 0]);
    ReadPush(three, two, [10, 0], 0, [10, 0, 0]);
    ReadPush(labels, three, [10, 0, 0], 1, [10, 0, 0, 1]);
  }

  lemma ReadPush(labels: seq<Label>, rest: seq<Label>, before: seq<nat>, d: nat, ds: seq<nat>)
    requires labels != [] && labels[1..] == rest && ds == before + [d]
    requires ParseOctet(labels[0]) == Some(d) && ReadDigits(Ip4, rest) == Some(before)
    ensures ReadDigits(Ip4, labels) == Some(ds)
  {
  }

  lemma DigitLabels(odd: Label)
    requires odd == "01" || odd == "+1"
    ensures ParseOctet(odd) == Some(1) && ParseOctet("0") == Some(0) && ParseOctet("10") == Some(10)
  {
    ReadsAs("", '0', 0);
    ReadsAs("", '1', 1);
    ReadsAs("0", '1', 1);
    ReadsAs("1", '0', 0);
    assert "+1"[1..] == "1" && "" + ['1'] == "1" && "0" + ['1'] == "01" && "1" + ['0'] == "10" && "" + ['0'] == "0";
  }

  lemma ReadsAs(front: string, c: char, d: nat)
    requires d < 10 && c == DigitChar(d) && DigitsValue(front).Some?
    ensures DigitsValue(front + [c]) == Some(10 * DigitsValue(front).value + d)
  {
    ValuePush(front, d);
  }

  lemma PlainRuns(odd: Label)
    requires odd == "01" || odd == "+1"
    ensures Lower(odd) == odd && Lower("0") == "0" && Lower("10") == "10"
    ensures Lower("in-addr") == "in-addr" && Lower("arpa") == "arpa"
  {
  }
}
