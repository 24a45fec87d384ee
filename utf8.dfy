/**
 * Re-encoding of an escaped code point into the original UTF-8 of section 2 of
 * RFC 2279: one to six bytes, for code points up to 0x7FFFFFFF (beyond the
 * 0x10FFFF limit of section 3 of RFC 3629).  `unicode_char` is a `uint32_t`.
 */
module Utf8 {
  import opened Basics

  /** The largest code point that is re-encoded; anything above emits nothing. */
  const MaxCodePoint: bv32 := 0x7FFF_FFFF

  function Byte(x: bv32): byte
    requires x < 256
  {
    x as byte
  }

  /** A continuation byte `10xxxxxx` carrying bits `shift .. shift+5` of `c`. */
  function Cont(c: bv32, shift: bv32): byte
    requires shift <= 24
  {
    Byte(((c >> shift) & 0x3F) | 0x80)
  }

  /** Number of bytes the encoder emits for `c` (0 above MaxCodePoint). */
  function Width(c: bv32): nat {
    if c <= 0x7F then 1
    else if c <= 0x7FF then 2
    else if c <= 0xFFFF then 3
    else if c <= 0x1F_FFFF then 4
    else if c <= 0x3FF_FFFF then 5
    else if c <= MaxCodePoint then 6
    else 0
  }

  /** The encoder as it is intended: the same as the source except that the
      six-byte lead carries bit 30 alone. */
  function Encode(c: bv32): (r: seq<byte>)
    ensures |r| == Width(c)
    ensures c > MaxCodePoint <==> r == []
  {
    if c <= 0x7F then [Byte(c)]
    else if c <= 0x7FF then [Byte((c >> 6) | 0xC0), Cont(c, 0)]
    else if c <= 0xFFFF then [Byte((c >> 12) | 0xE0), Cont(c, 6), Cont(c, 0)]
    else if c <= 0x1F_FFFF then
      [Byte((c >> 18) | 0xF0), Cont(c, 12), Cont(c, 6), Cont(c, 0)]
    else if c <= 0x3FF_FFFF then
      [Byte((c >> 24) | 0xF8), Cont(c, 18), Cont(c, 12), Cont(c, 6), Cont(c, 0)]
    else if c <= MaxCodePoint then
      [Byte((c >> 30) | 0xFC), Cont(c, 24), Cont(c, 18), Cont(c, 12), Cont(c, 6), Cont(c, 0)]
    else []
  }

  /** The encoder as the source writes it: the six-byte lead ORs `c >> 28`
      (three payload bits) into `0xFC`. */
  function EncodeAsWritten(c: bv32): (r: seq<byte>)
    ensures |r| == Width(c)
    ensures c > MaxCodePoint <==> r == []
    ensures |r| == 6 ==> (IsLead(r[0], 6) <==> c & 0x2000_0000 == 0)
  {
    if c <= 0x7F then [Byte(c)]
    else if c <= 0x7FF then [Byte((c >> 6) | 0xC0), Cont(c, 0)]
    else if c <= 0xFFFF then [Byte((c >> 12) | 0xE0), Cont(c, 6), Cont(c, 0)]
    else if c <= 0x1F_FFFF then
      [Byte((c >> 18) | 0xF0), Cont(c, 12), Cont(c, 6), Cont(c, 0)]
    else if c <= 0x3FF_FFFF then
      [Byte((c >> 24) | 0xF8), Cont(c, 18), Cont(c, 12), Cont(c, 6), Cont(c, 0)]
    else if c <= MaxCodePoint then
      [Byte((c >> 28) | 0xFC), Cont(c, 24), Cont(c, 18), Cont(c, 12), Cont(c, 6), Cont(c, 0)]
    else []
  }

  /** Mask selecting the length prefix of a lead byte of an `n`-byte sequence. */
  function PrefixMask(n: nat): bv8
    requires 1 <= n <= 6
  {
    match n
    case 1 => 0x80
    case 2 => 0xE0
    case 3 => 0xF0
    case 4 => 0xF8
    case 5 => 0xFC
    case 6 => 0xFE
  }

  /** The prefix itself: 0, 110, 1110, 11110, 111110, 1111110. */
  function PrefixBits(n: nat): bv8
    requires 1 <= n <= 6
  {
    match n
    case 1 => 0x00
    case 2 => 0xC0
    case 3 => 0xE0
    case 4 => 0xF0
    case 5 => 0xF8
    case 6 => 0xFC
  }

  predicate IsLead(b: byte, n: nat)
    requires 1 <= n <= 6
  {
    b & PrefixMask(n) == PrefixBits(n)
  }

  predicate IsContinuation(b: byte) {
    b & 0xC0 == 0x80
  }

  /** A well-formed sequence in the sense of RFC 2279: a lead byte whose prefix
      announces the length, then continuation bytes. */
  predicate WellFormed(r: seq<byte>) {
    1 <= |r| <= 6 && IsLead(r[0], |r|)
    && forall i :: 1 <= i < |r| ==> IsContinuation(r[i])
  }

  /** The six payload bits of a continuation byte. */
  function Bits(b: byte): bv32 {
    (b & 0x3F) as bv32
  }

  /** Reads the payload bits of a sequence back: the lead byte's bits below its
      prefix, then six bits per continuation byte, most significant first. */
  function Decode(r: seq<byte>): bv32
    requires 1 <= |r| <= 6
  {
    var lead := (r[0] & !PrefixMask(|r|)) as bv32;
    match |r|
    case 1 => lead
    case 2 => (lead << 6) | Bits(r[1])
    case 3 => (lead << 12) | (Bits(r[1]) << 6) | Bits(r[2])
    case 4 => (lead << 18) | (Bits(r[1]) << 12) | (Bits(r[2]) << 6) | Bits(r[3])
    case 5 => (lead << 24) | (Bits(r[1]) << 18) | (Bits(r[2]) << 12) | (Bits(r[3]) << 6) | Bits(r[4])
    case 6 => (lead << 30) | (Bits(r[1]) << 24) | (Bits(r[2]) << 18) | (Bits(r[3]) << 12) | (Bits(r[4]) << 6) | Bits(r[5])
  }

  /** Every code point up to MaxCodePoint is encoded as a well-formed sequence
      whose payload bits give the code point back. */
  lemma EncodeRoundTrip(c: bv32)
    requires c <= MaxCodePoint
    ensures WellFormed(Encode(c))
    ensures Decode(Encode(c)) == c
  {
    if c <= 0x7F { RoundTrip1(c); }
    else if c <= 0x7FF { RoundTrip2(c); }
    else if c <= 0xFFFF { RoundTrip3(c); }
    else if c <= 0x1F_FFFF { RoundTrip4(c); }
    else if c <= 0x3FF_FFFF { RoundTrip5(c); }
    else { RoundTrip6(c); }
  }

  lemma Decode1(b0: byte)
    ensures Decode([b0]) == (b0 & 0x7F) as bv32
  {
  }

  lemma RoundTrip1(c: bv32)
    requires c <= 0x7F
    ensures WellFormed(Encode(c)) && Decode(Encode(c)) == c
  {
    var b0 := Byte(c);
    assert Encode(c) == [b0];
    assert IsLead(b0, 1);
    Decode1(b0);
    assert (b0 & 0x7F) as bv32 == c;
  }

  lemma Decode2(b0: byte, b1: byte)
    ensures Decode([b0, b1]) == ((b0 & 0x1F) as bv32 << 6) | Bits(b1)
  {
  }

  lemma RoundTrip2(c: bv32)
    requires 0x7F < c <= 0x7FF
    ensures WellFormed(Encode(c)) && Decode(Encode(c)) == c
  {
    var b0 := Byte((c >> 6) | 0xC0);
    var b1 := Cont(c, 0);
    assert Encode(c) == [b0, b1];
    assert IsLead(b0, 2) && IsContinuation(b1);
    Decode2(b0, b1);
    assert ((b0 & 0x1F) as bv32 << 6) | Bits(b1) == c;
  }

  lemma Decode3(b0: byte, b1: byte, b2: byte)
    ensures Decode([b0, b1, b2]) == ((b0 & 0x0F) as bv32 << 12) | (Bits(b1) << 6) | Bits(b2)
  {
  }

  lemma RoundTrip3(c: bv32)
    requires 0x7FF < c <= 0xFFFF
    ensures WellFormed(Encode(c)) && Decode(Encode(c)) == c
  {
    var b0 := Byte((c >> 12) | 0xE0);
    var b1 := Cont(c, 6);
    var b2 := Cont(c, 0);
    assert Encode(c) == [b0, b1, b2];
    assert IsLead(b0, 3) && IsContinuation(b1) && IsContinuation(b2);
    Decode3(b0, b1, b2);
    assert ((b0 & 0x0F) as bv32 << 12) | (Bits(b1) << 6) | Bits(b2) == c;
  }

  lemma Decode4(b0: byte, b1: byte, b2: byte, b3: byte)
    ensures Decode([b0, b1, b2, b3]) == ((b0 & 0x07) as bv32 << 18) | (Bits(b1) << 12) | (Bits(b2) << 6) | Bits(b3)
  {
  }

  lemma RoundTrip4(c: bv32)
    requires 0xFFFF < c <= 0x1F_FFFF
    ensures WellFormed(Encode(c)) && Decode(Encode(c)) == c
  {
    var b0 := Byte((c >> 18) | 0xF0);
    var b1 := Cont(c, 12);
    var b2 := Cont(c, 6);
    var b3 := Cont(c, 0);
    assert Encode(c) == [b0, b1, b2, b3];
    assert IsLead(b0, 4) && IsContinuation(b1) && IsContinuation(b2) && IsContinuation(b3);
    Decode4(b0, b1, b2, b3);
    assert ((b0 & 0x07) as bv32 << 18) | (Bits(b1) << 12) | (Bits(b2) << 6) | Bits(b3) == c;
  }

  lemma Decode5(b0: byte, b1: byte, b2: byte, b3: byte, b4: byte)
    ensures Decode([b0, b1, b2, b3, b4]) == ((b0 & 0x03) as bv32 << 24) | (Bits(b1) << 18) | (Bits(b2) << 12) | (Bits(b3) << 6) | Bits(b4)
  {
  }

  lemma RoundTrip5(c: bv32)
    requires 0x1F_FFFF < c <= 0x3FF_FFFF
    ensures WellFormed(Encode(c)) && Decode(Encode(c)) == c
  {
    var b0 := Byte((c >> 24) | 0xF8);
    var b1 := Cont(c, 18);
    var b2 := Cont(c, 12);
    var b3 := Cont(c, 6);
    var b4 := Cont(c, 0);
    assert Encode(c) == [b0, b1, b2, b3, b4];
    assert IsLead(b0, 5) && IsContinuation(b1) && IsContinuation(b2) && IsContinuation(b3) && IsContinuation(b4);
    Decode5(b0, b1, b2, b3, b4);
    assert ((b0 & 0x03) as bv32 << 24) | (Bits(b1) << 18) | (Bits(b2) << 12) | (Bits(b3) << 6) | Bits(b4) == c;
  }

  lemma Decode6(b0: byte, b1: byte, b2: byte, b3: byte, b4: byte, b5: byte)
    ensures Decode([b0, b1, b2, b3, b4, b5]) == ((b0 & 0x01) as bv32 << 30) | (Bits(b1) << 24) | (Bits(b2) << 18) | (Bits(b3) << 12) | (Bits(b4) << 6) | Bits(b5)
  {
  }

  lemma RoundTrip6(c: bv32)
    requires 0x3FF_FFFF < c <= MaxCodePoint
    ensures WellFormed(Encode(c)) && Decode(Encode(c)) == c
  {
    var b0 := Byte((c >> 30) | 0xFC);
    var b1 := Cont(c, 24);
    var b2 := Cont(c, 18);
    var b3 := Cont(c, 12);
    var b4 := Cont(c, 6);
    var b5 := Cont(c, 0);
    assert Encode(c) == [b0, b1, b2, b3, b4, b5];
    assert IsLead(b0, 6) && IsContinuation(b1) && IsContinuation(b2) && IsContinuation(b3) && IsContinuation(b4) && IsContinuation(b5);
    Decode6(b0, b1, b2, b3, b4, b5);
    assert ((b0 & 0x01) as bv32 << 30) | (Bits(b1) << 24) | (Bits(b2) << 18) | (Bits(b3) << 12) | (Bits(b4) << 6) | Bits(b5) == c;
  }

  /** Below the six-byte range the source's encoder is the intended one. */
  lemma AsWrittenAgreesOutsideSixBytes(c: bv32)
    requires c <= 0x3FF_FFFF || c > MaxCodePoint
    ensures EncodeAsWritten(c) == Encode(c)
  {
  }

  /** In the six-byte range the source's lead byte also carries bits 28 and 29
      of the code point in its two low bits, where the intended lead byte holds
      bit 30 alone: the two agree only when bit 29 is clear and bit 28 equals
      bit 30. */
  lemma AsWrittenSixBytes(c: bv32)
    requires 0x3FF_FFFF < c <= MaxCodePoint
    ensures EncodeAsWritten(c)[1..] == Encode(c)[1..]
    ensures EncodeAsWritten(c)[0] == 0xFC | (((c >> 28) & 0x3) as byte)
    ensures EncodeAsWritten(c) == Encode(c) <==> (c >> 28) & 0x3 == c >> 30
  {
    var w, e := EncodeAsWritten(c), Encode(c);
    assert w[0] == Byte((c >> 28) | 0xFC) && e[0] == Byte((c >> 30) | 0xFC);
    assert w[0] == e[0] <==> (c >> 28) & 0x3 == c >> 30;
    if w == e {
      assert w[0] == e[0];
    }
  }

  /** The escape `\U10000000` shows the discrepancy: the source writes FD 90 80 80 80 80,
      whose payload is 0x50000000, where the intended lead byte is FC. */
  lemma AsWrittenCounterexample()
    ensures EncodeAsWritten(0x1000_0000) == [0xFD, 0x90, 0x80, 0x80, 0x80, 0x80]
    ensures Encode(0x1000_0000) == [0xFC, 0x90, 0x80, 0x80, 0x80, 0x80]
    ensures Decode(EncodeAsWritten(0x1000_0000)) == 0x5000_0000
  {
    Decode6(0xFD, 0x90, 0x80, 0x80, 0x80, 0x80);
  }
}
