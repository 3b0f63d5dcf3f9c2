/** Decoding of the hash in an NSEC3 owner label: base32hex without padding
    (section 7 of RFC 4648), either case. */
module Base32 {
  import opened Names
  import opened Bits
  import opened Order

  function Digit(c: char): Option<nat> {
    if '0' <= c <= '9' then Some(c as nat - '0' as nat)
    else if 'a' <= c <= 'v' then Some(c as nat - 'a' as nat + 10)
    else if 'A' <= c <= 'V' then Some(c as nat - 'A' as nat + 10)
    else None
  }

  predicate AllDigits(s: string) { forall i :: 0 <= i < |s| ==> Digit(s[i]).Some? }

  /** Each character stands for five bits. */
  ghost function BitsOf(s: string): (b: BitString)
    requires AllDigits(s)
    ensures |b| == 5 * |s|
  {
    if s == [] then [] else BitsOf(s[..|s| - 1]) + FromNat(Digit(s[|s| - 1]).value, 5)
  }

  /** The octets of the digits' bits; fewer than eight bits at the end are dropped. */
  ghost function Decoded(s: string): Option<Hash> {
    if AllDigits(s) then Some(Grouped(BitsOf(s), 8)) else None
  }

  lemma OctetsIgnoreTail(done: BitString, rest: BitString)
    requires Whole(|done|, 8) && |rest| < 8
    ensures Grouped(done + rest, 8) == Grouped(done, 8)
  {
    GroupedConcat(done, rest, 8);
  }

  lemma OctetsAppend(done: BitString, octet: BitString)
    requires Whole(|done|, 8) && |octet| == 8
    ensures Grouped(done + octet, 8) == Grouped(done, 8) + [ToNat(octet)]
  {
    GroupedConcat(done, octet, 8);
    assert octet[..8] == octet && octet[8..] == [];
  }

  lemma AddDigit(pending: BitString, v: nat)
    requires v < 32
    ensures ToNat(pending + FromNat(v, 5)) == ToNat(pending) * 32 + v
  {
    Pow2Of8();
    ToNatFromNat(v, 5);
    ToNatConcat(pending, FromNat(v, 5));
  }

  lemma BitsOfPrefix(s: string, i: nat)
    requires i < |s| && AllDigits(s[..i]) && Digit(s[i]).Some?
    ensures AllDigits(s[..i + 1])
    ensures BitsOf(s[..i + 1]) == BitsOf(s[..i]) + FromNat(Digit(s[i]).value, 5)
  {
    assert s[..i + 1][..i] == s[..i];
  }

  /** What the decoder holds after `i` characters: the octets already output
      and the bits still in its accumulator are the bits read so far. */
  ghost predicate Decoding(s: string, i: nat, out: Hash, acc: nat, bits: nat, done: BitString, pending: BitString) {
    && i <= |s| && AllDigits(s[..i])
    && BitsOf(s[..i]) == done + pending
    && Whole(|done|, 8) && |pending| == bits
    && acc == ToNat(pending) && out == Grouped(done, 8)
  }

  lemma Reassociate(a: BitString, b: BitString, c: BitString)
    ensures (a + b) + c == a + (b + c)
  {
  }

  lemma ReadDigit(s: string, i: nat, out: Hash, acc: nat, bits: nat, done: BitString, pending: BitString)
    requires i < |s| && Decoding(s, i, out, acc, bits, done, pending)
    requires Digit(s[i]).Some?
    ensures var v := Digit(s[i]).value;
      Decoding(s, i + 1, out, acc * 32 + v, bits + 5, done, pending + FromNat(v, 5))
  {
    var v := Digit(s[i]).value;
    BitsOfPrefix(s, i);
    AddDigit(pending, v);
    Reassociate(done, pending, FromNat(v, 5));
  }

  lemma {:induction false} WholePlus(n: nat)
    requires Whole(n, 8)
    ensures Whole(n + 8, 8)
  {
  }

  lemma WriteOctet(s: string, i: nat, out: Hash, acc: nat, bits: nat, done: BitString, pending: BitString)
    requires bits >= 8 && Decoding(s, i, out, acc, bits, done, pending)
    ensures Decoding(s, i, out + [ShiftRight(acc, bits - 8)], LowBits(acc, bits - 8), bits - 8, done + pending[..8], pending[8..])
  {
    var octet, rest := pending[..8], pending[8..];
    assert pending == octet + rest;
    Reassociate(done, octet, rest);
    ToNatSplit(octet, rest);
    OctetsAppend(done, octet);
    WholePlus(|done|);
  }

  lemma DecodingDone(s: string, out: Hash, acc: nat, bits: nat, done: BitString, pending: BitString)
    requires Decoding(s, |s|, out, acc, bits, done, pending) && bits < 8
    ensures Decoded(s) == Some(out)
  {
    assert s[..|s|] == s;
    OctetsIgnoreTail(done, pending);
  }

  /** An octet is written out once the accumulator holds eight bits. */
  method Flush(ghost s: string, ghost i: nat, out: Hash, acc: nat, bits: nat, ghost done: BitString, ghost pending: BitString)
    returns (out': Hash, acc': nat, bits': nat, ghost done': BitString, ghost pending': BitString)
    requires Decoding(s, i, out, acc, bits, done, pending) && bits < 13
    ensures Decoding(s, i, out', acc', bits', done', pending') && bits' < 8
  {
    if bits < 8 {
      return out, acc, bits, done, pending;
    }
    WriteOctet(s, i, out, acc, bits, done, pending);
    bits' := bits - 8;
    out' := out + [ShiftRight(acc, bits')];
    acc' := LowBits(acc, bits');
    done', pending' := done + pending[..8], pending[8..];
  }

  /** The accumulator loop groups the five-bit digits into octets. */
  method Base32Hex(s: string) returns (r: Option<Hash>)
    ensures r == Decoded(s)
  {
    var out: Hash := [];
    var acc: nat, bits: nat := 0, 0;
    ghost var done: BitString, pending: BitString := [], [];
    for i := 0 to |s|
      invariant Decoding(s, i, out, acc, bits, done, pending) && bits < 8
    {
      var v := Digit(s[i]);
      if v.None? {
        return None;
      }
      ReadDigit(s, i, out, acc, bits, done, pending);
      out, acc, bits, done, pending := Flush(s, i + 1, out, acc * 32 + v.value, bits + 5, done, pending + FromNat(v.value, 5));
    }
    DecodingDone(s, out, acc, bits, done, pending);
    r := Some(out);
  }

  // ----------------------------------------------------------- round trip

  function DigitChar(v: nat): (c: char)
    requires v < 32
    ensures Digit(c) == Some(v)
  {
    if v < 10 then '0' + v as char else 'a' + (v - 10) as char
  }

  function Encode(b: BitString): (s: string)
    ensures AllDigits(s)
    decreases |b|
  {
    Pow2Of8();
    if b == [] then []
    else if |b| < 5 then [DigitChar(ToNat(b + seq(5 - |b|, i => false)))]
    else [DigitChar(ToNat(b[..5]))] + Encode(b[5..])
  }

  /** The label a zone signer gives a hash. */
  function HashLabel(h: Hash): (s: string)
    requires forall i :: 0 <= i < |h| ==> h[i] < 256
    ensures AllDigits(s)
  {
    Encode(OctetBits(h))
  }

  lemma {:induction false} BitsOfCons(c: char, s: string)
    requires Digit(c).Some? && AllDigits(s)
    ensures AllDigits([c] + s) && BitsOf([c] + s) == FromNat(Digit(c).value, 5) + BitsOf(s)
    decreases |s|
  {
    var all := [c] + s;
    if s == [] {
      assert all == [c] && all[..0] == [];
      assert BitsOf(all) == BitsOf(all[..0]) + FromNat(Digit(c).value, 5);
    } else {
      var s', five := s[..|s| - 1], FromNat(Digit(s[|s| - 1]).value, 5);
      assert all[..|all| - 1] == [c] + s';
      BitsOfCons(c, s');
      assert BitsOf(all) == (FromNat(Digit(c).value, 5) + BitsOf(s')) + five;
    }
  }

  /** A digit's bits are the five bits it was made from. */
  lemma DigitBits(five: BitString)
    requires |five| == 5
    ensures ToNat(five) < 32 && FromNat(Digit(DigitChar(ToNat(five))).value, 5) == five
  {
    Pow2Of8();
    ToNatFromNat(ToNat(five), 5);
    ToNatInjective(FromNat(ToNat(five), 5), five);
  }

  lemma EncodeShort(b: BitString) returns (pad: BitString)
    requires 0 < |b| < 5
    ensures |pad| < 5 && BitsOf(Encode(b)) == b + pad
  {
    pad := seq(5 - |b|, i => false);
    DigitBits(b + pad);
    var c := DigitChar(ToNat(b + pad));
    BitsOfCons(c, []);
    assert Encode(b) == [c] == [c] + [];
    assert BitsOf("") == [];
  }

  /** Encoding pads with at most four bits. */
  lemma {:induction false} EncodeBits(b: BitString) returns (pad: BitString)
    ensures |pad| < 5
    ensures BitsOf(Encode(b)) == b + pad
    decreases |b|
  {
    if b == [] {
      pad := [];
    } else if |b| < 5 {
      pad := EncodeShort(b);
    } else {
      var five, rest := b[..5], b[5..];
      pad := EncodeBits(rest);
      DigitBits(five);
      BitsOfCons(DigitChar(ToNat(five)), Encode(rest));
      Reassociate(five, rest, pad);
      assert five + rest == b;
    }
  }

  lemma PaddingIsDropped(b: BitString, pad: BitString)
    requires |b| % 8 == 0 && |pad| < 5
    ensures Grouped(b + pad, 8) == Grouped(b, 8)
  {
    WholeIfDivides(|b|, 8);
    OctetsIgnoreTail(b, pad);
  }

  /** Decoding a hash label gives back the hash, for hashes of every length. */
  lemma DecodeUndoesEncode(h: Hash)
    requires forall i :: 0 <= i < |h| ==> h[i] < 256
    ensures Decoded(HashLabel(h)) == Some(h)
  {
    var b := OctetBits(h);
    var pad := EncodeBits(b);
    PaddingIsDropped(b, pad);
    OctetsOfBits(h);
  }
}
