/**
 * The escape decoder of read_json (json.c:351-477): what happens to each byte
 * that arrives while `escape_char` is set.  The flags `hex_char`, `hex_unicode`
 * and `oct_char` count the digits still expected, and `char_buf` collects their
 * values, the most significant digit in the highest slot.
 */
module Escape {
  import opened Basics
  import Utf8

  datatype State = State(escape: bool, hex: nat, unicode: nat, oct: nat, charBuf: seq<bv8>)

  /** What one byte does: the new flags, the bytes appended to the token, and
      whether the line counter advances (an escaped line feed). */
  datatype Effect = Effect(state: State, out: seq<byte>, newline: bool)

  /** At most one digit counter runs, each within its width, and `char_buf`
      holds eight digit values. */
  predicate Valid(s: State) {
    && |s.charBuf| == 8
    && s.hex <= 2 && s.unicode <= 8 && s.oct <= 2
    && (s.hex > 0 ==> s.unicode == 0 && s.oct == 0)
    && (s.unicode > 0 ==> s.oct == 0)
    && (s.hex > 0 || s.unicode > 0 || s.oct > 0 ==> s.escape)
    && forall i :: 0 <= i < 8 ==> s.charBuf[i] < 16
  }

  /** The state right after a backslash: escaping, no digits pending. */
  predicate Fresh(s: State) {
    Valid(s) && s.escape && s.hex == 0 && s.unicode == 0 && s.oct == 0
  }

  /** The value of a hexadecimal digit as the source reads it ('0'-'9', 'A'-'F', 'a'-'f'). */
  function HexDigit(b: byte): (d: Option<bv8>)
    ensures d.Some? ==> d.value < 16
  {
    if 0x30 <= b <= 0x39 then Some(b - 0x30)
    else if 0x41 <= b <= 0x46 then Some(b - 0x41 + 10)
    else if 0x61 <= b <= 0x66 then Some(b - 0x61 + 10)
    else None
  }

  predicate IsOctalDigit(b: byte) {
    0x30 <= b <= 0x37
  }

  /** `unicode_char`: the eight slots of `char_buf` as nibbles of a `uint32_t`,
      slot 0 the least significant (json.c:393). The slots hold values below 16,
      so the source's ORs of shifted slots are these. */
  function CodePoint(cb: seq<bv8>): bv32
    requires |cb| == 8
  {
    (cb[0] as bv32) | ((cb[1] as bv32) << 4) | ((cb[2] as bv32) << 8) | ((cb[3] as bv32) << 12)
    | ((cb[4] as bv32) << 16) | ((cb[5] as bv32) << 20) | ((cb[6] as bv32) << 24) | ((cb[7] as bv32) << 28)
  }

  /** The byte a completed `\xHH` escape appends (json.c:371); `buff_add`
      takes a `uint8_t`, so the computation is modulo 256. */
  function HexByte(cb: seq<bv8>): byte
    requires |cb| == 8
  {
    cb[0] | (cb[1] << 4)
  }

  /** The byte a completed octal escape appends (json.c:429), modulo 256 as above. */
  function OctalByte(cb: seq<bv8>): byte
    requires |cb| == 8
  {
    cb[0] | (cb[1] << 3) | (cb[2] << 6)
  }

  /** The control byte a one-letter escape stands for, if `b` is one. */
  function SimpleEscape(b: byte): Option<byte> {
    if b == 0x6e then Some(0x0A)
    else if b == 0x74 then Some(0x09)
    else if b == 0x72 then Some(0x0D)
    else if b == 0x61 then Some(0x07)
    else if b == 0x62 then Some(0x08)
    else if b == 0x76 then Some(0x0B)
    else if b == 0x66 then Some(0x0C)
    else if b == 0x30 then Some(0x00)
    else None
  }

  /** Records one digit value at slot `k` of `char_buf`. */
  function Put(s: State, k: nat, d: bv8): (r: State)
    requires Valid(s) && k < 8 && d < 16
    ensures r.charBuf == s.charBuf[k := d]
    ensures |r.charBuf| == 8 && forall i :: 0 <= i < 8 ==> r.charBuf[i] < 16
  {
    s.(charBuf := s.charBuf[k := d])
  }

  /** A byte of a `\xHH` escape (json.c:352-373). */
  function HexStep(s: State, b: byte): (e: Effect)
    requires Valid(s) && s.escape && s.hex > 0
    ensures Valid(e.state) && !e.newline
    ensures HexDigit(b).None? ==> e == Effect(s, [], false)
    ensures HexDigit(b).Some? ==> e.state.hex == s.hex - 1 && e.state.charBuf[s.hex - 1] == HexDigit(b).value
    ensures e.state.escape <==> e.state.hex > 0
    ensures e.state.escape ==> e.out == []
    ensures !e.state.escape ==> e.out == [HexByte(e.state.charBuf)]
  {
    var s1 := match HexDigit(b)
      case Some(d) => Put(s, s.hex - 1, d).(hex := s.hex - 1)
      case None => s;
    if s1.hex == 0 then Effect(s1.(escape := false), [HexByte(s1.charBuf)], false)
    else Effect(s1, [], false)
  }

  /** A byte of a `\uHHHH` or `\UHHHHHHHH` escape (json.c:374-424). */
  function UnicodeStep(s: State, b: byte): (e: Effect)
    requires Valid(s) && s.escape && s.hex == 0 && s.unicode > 0
    ensures Valid(e.state) && !e.newline
    ensures HexDigit(b).None? ==> e == Effect(s, [], false)
    ensures HexDigit(b).Some? ==> e.state.unicode == s.unicode - 1 && e.state.charBuf[s.unicode - 1] == HexDigit(b).value
    ensures e.state.escape <==> e.state.unicode > 0
    ensures e.state.escape ==> e.out == []
    ensures !e.state.escape ==> e.out == Utf8.Encode(CodePoint(e.state.charBuf))
    ensures !e.state.escape && CodePoint(e.state.charBuf) <= 0x3FF_FFFF ==>
      e.out == Utf8.EncodeAsWritten(CodePoint(e.state.charBuf))
  {
    var s1 := match HexDigit(b)
      case Some(d) => Put(s, s.unicode - 1, d).(unicode := s.unicode - 1)
      case None => s;
    if s1.unicode == 0 then
      var c := CodePoint(s1.charBuf);
      if c <= 0x3FF_FFFF then Utf8.AsWrittenAgreesOutsideSixBytes(c); Effect(s1.(escape := false), Utf8.Encode(c), false)
      else Effect(s1.(escape := false), Utf8.Encode(c), false)
    else Effect(s1, [], false)
  }

  /** A byte of an octal escape after its first digit (json.c:425-433). */
  function OctalStep(s: State, b: byte): (e: Effect)
    requires Valid(s) && s.escape && s.hex == 0 && s.unicode == 0 && s.oct > 0
    ensures Valid(e.state) && !e.newline
    ensures !IsOctalDigit(b) ==> e == Effect(s, [], false)
    ensures IsOctalDigit(b) ==> e.state.oct == s.oct - 1 && e.state.charBuf[s.oct - 1] == b - 0x30
    ensures e.state.escape <==> e.state.oct > 0
    ensures e.state.escape ==> e.out == []
    ensures !e.state.escape ==> e.out == [OctalByte(e.state.charBuf)]
  {
    if IsOctalDigit(b) then
      var s1 := Put(s, s.oct - 1, b - 0x30).(oct := s.oct - 1);
      if s1.oct == 0 then Effect(s1.(escape := false), [OctalByte(s1.charBuf)], false)
      else Effect(s1, [], false)
    else Effect(s, [], false)
  }

  /** The byte right after the backslash (json.c:434-476). */
  function FirstStep(s: State, b: byte): (e: Effect)
    requires Fresh(s)
    ensures Valid(e.state)
    ensures e.newline <==> b == 0x0A
    ensures e.state.escape <==> e.out == []
    ensures SimpleEscape(b).Some? ==> e.out == [SimpleEscape(b).value]
    ensures e.state.hex == 2 <==> b == 0x78
    ensures e.state.oct == 2 <==> 0x31 <= b <= 0x33
    ensures e.state.unicode == 4 <==> b == 0x75
    ensures e.state.unicode == 8 <==> b == 0x55
    ensures 0x31 <= b <= 0x33 ==> e.state.charBuf[2] == b - 0x30
    ensures e.state.unicode == 4 ==> e.state.charBuf[4..] == [0, 0, 0, 0]
    ensures SimpleEscape(b).None? && b !in {0x78, 0x31, 0x32, 0x33, 0x75, 0x55} ==> e.out == [b]
  {
    match SimpleEscape(b)
    case Some(c) => Effect(s.(escape := false), [c], false)
    case None =>
      if b == 0x78 then Effect(s.(hex := 2), [], false)
      else if 0x30 <= b <= 0x33 then
        Effect(Put(s, 2, b - 0x30).(oct := 2), [], false)
      else if b == 0x75 then
        Effect(Put(Put(Put(Put(s, 7, 0), 6, 0), 5, 0), 4, 0).(unicode := 4), [], false)
      else if b == 0x55 then Effect(s.(unicode := 8), [], false)
      else Effect(s.(escape := false), [b], b == 0x0A)
  }

  /** One byte with `escape_char` set: the digit counters are examined in the
      source's order, hexadecimal, then Unicode, then octal. */
  function Step(s: State, b: byte): (e: Effect)
    requires Valid(s) && s.escape
    ensures Valid(e.state)
    ensures |e.out| <= 6
  {
    if s.hex > 0 then HexStep(s, b)
    else if s.unicode > 0 then UnicodeStep(s, b)
    else if s.oct > 0 then OctalStep(s, b)
    else FirstStep(s, b)
  }

  /** Feeds bytes for as long as the escape lasts; the bytes after it are not consumed. */
  function Run(s: State, bs: seq<byte>): (e: Effect)
    requires Valid(s)
    ensures Valid(e.state)
    decreases |bs|
  {
    if bs == [] || !s.escape then Effect(s, [], false)
    else
      var e1 := Step(s, bs[0]);
      var e2 := Run(e1.state, bs[1..]);
      Effect(e2.state, e1.out + e2.out, e1.newline || e2.newline)
  }

  /** The value of a byte known to be a hexadecimal digit. */
  function Nibble(b: byte): bv32
    requires HexDigit(b).Some?
  {
    HexDigit(b).value as bv32
  }

  /** Feeding a byte that ends the escape leaves the rest unconsumed. */
  lemma RunFirst(s: State, b: byte, rest: seq<byte>)
    requires Valid(s) && s.escape
    ensures Run(s, [b] + rest) == (
      var e1 := Step(s, b);
      var e2 := Run(e1.state, rest);
      Effect(e2.state, e1.out + e2.out, e1.newline || e2.newline))
  {
    assert ([b] + rest)[0] == b && ([b] + rest)[1..] == rest;
  }

  /** `n t r a b v f` become their C control bytes and `0` becomes byte 0;
      `0` is matched first, so `\012` is a NUL followed by the text `12`. */
  lemma SimpleEscapes(s: State, rest: seq<byte>)
    requires Fresh(s)
    ensures Run(s, [0x6e]).out == [0x0A] && Run(s, [0x74]).out == [0x09]
    ensures Run(s, [0x72]).out == [0x0D] && Run(s, [0x61]).out == [0x07]
    ensures Run(s, [0x62]).out == [0x08] && Run(s, [0x76]).out == [0x0B]
    ensures Run(s, [0x66]).out == [0x0C]
    ensures Run(s, [0x30] + rest) == Effect(s.(escape := false), [0x00], false)
  {
    RunFirst(s, 0x30, rest);
  }

  /** Any other byte after a backslash, `"`, `\\` and `/` among them, is stored
      as it is; an escaped line feed still counts as a new line. */
  lemma LiteralEscape(s: State, b: byte, rest: seq<byte>)
    requires Fresh(s) && SimpleEscape(b).None?
    requires b != 0x78 && b != 0x75 && b != 0x55
    requires !(0x31 <= b <= 0x33)
    ensures Run(s, [b] + rest) == Effect(s.(escape := false), [b], b == 0x0A)
  {
    RunFirst(s, b, rest);
  }

  /** `\xHH` appends the byte 16·H + L. */
  lemma HexEscape(s: State, h: byte, l: byte)
    requires Fresh(s) && HexDigit(h).Some? && HexDigit(l).Some?
    ensures Run(s, [0x78, h, l]).out == [(HexDigit(h).value << 4) | HexDigit(l).value]
    ensures !Run(s, [0x78, h, l]).state.escape
  {
    var s1 := Step(s, 0x78).state;
    var s2 := Step(s1, h).state;
    assert s2.charBuf[1] == HexDigit(h).value;
    RunFirst(s, 0x78, [h, l]);
    RunFirst(s1, h, [l]);
    RunFirst(s2, l, []);
  }

  /** A byte that appends nothing and keeps the escape open hands the rest on. */
  lemma RunQuiet(s: State, b: byte, rest: seq<byte>, t: State)
    requires Valid(s) && s.escape && Valid(t) && t.escape
    requires Step(s, b) == Effect(t, [], false)
    ensures Run(s, [b] + rest) == Run(t, rest)
  {
    RunFirst(s, b, rest);
    var e2 := Run(t, rest);
    assert [] + e2.out == e2.out;
  }

  /** The last digit of an octal escape closes it with the byte of the
      three slots. */
  lemma OctalLast(s: State, c: byte)
    requires Valid(s) && s.escape && s.hex == 0 && s.unicode == 0 && s.oct == 1 && IsOctalDigit(c)
    ensures Run(s, [c]) == Effect(s.(oct := 0, charBuf := s.charBuf[0 := c - 0x30], escape := false),
                                  [OctalByte(s.charBuf[0 := c - 0x30])], false)
  {
    RunFirst(s, c, []);
    assert [OctalByte(s.charBuf[0 := c - 0x30])] + [] == [OctalByte(s.charBuf[0 := c - 0x30])];
  }

  /** The first two digits of an octal escape fill the upper slots and
      append nothing. */
  lemma OctalOpen(s: State, a: byte, b: byte, c: byte) returns (s2: State)
    requires Fresh(s) && 0x31 <= a <= 0x33 && IsOctalDigit(b)
    ensures s2 == s.(charBuf := s.charBuf[2 := a - 0x30][1 := b - 0x30], oct := 1)
    ensures Valid(s2) && Run(s, [a, b, c]) == Run(s2, [c])
  {
    var s1 := s.(charBuf := s.charBuf[2 := a - 0x30], oct := 2);
    s2 := s1.(charBuf := s1.charBuf[1 := b - 0x30], oct := 1);
    assert Step(s, a) == Effect(s1, [], false);
    RunQuiet(s, a, [b, c], s1);
    assert Step(s1, b) == Effect(s2, [], false);
    RunQuiet(s1, b, [c], s2);
  }

  /** The OR of three octal digits shifted into place is their base-8 value. */
  lemma OctalValue(x: bv8, y: bv8, z: bv8)
    requires x < 4 && y < 8 && z < 8
    ensures (z | (y << 3) | (x << 6)) as int == x as int * 64 + y as int * 8 + z as int
  {
    assert z | (y << 3) | (x << 6) == x * 64 + y * 8 + z;
  }

  /** A completed octal escape `\abc` (first digit 1-3) appends 64·a + 8·b + c,
      which is at most 255. */
  lemma OctalEscape(s: State, a: byte, b: byte, c: byte)
    requires Fresh(s) && 0x31 <= a <= 0x33 && IsOctalDigit(b) && IsOctalDigit(c)
    ensures Run(s, [a, b, c]).out
         == [(c - 0x30) | ((b - 0x30) << 3) | ((a - 0x30) << 6)]
    ensures (a - 0x30) as int * 64 + (b - 0x30) as int * 8 + (c - 0x30) as int <= 255
    ensures Run(s, [a, b, c]).out[0] as int == (a - 0x30) as int * 64 + (b - 0x30) as int * 8 + (c - 0x30) as int
    ensures !Run(s, [a, b, c]).state.escape
  {
    OctalValue(a - 0x30, b - 0x30, c - 0x30);
    var s2 := OctalOpen(s, a, b, c);
    OctalLast(s2, c);
    var cb := s2.charBuf[0 := c - 0x30];
    assert cb[0] == c - 0x30 && cb[1] == b - 0x30 && cb[2] == a - 0x30;
  }

  /** `u` after a backslash zeroes the upper four slots and expects four digits. */
  lemma ShortUnicodeStart(s: State, rest: seq<byte>)
    requires Fresh(s)
    ensures Run(s, [0x75] + rest)
         == Run(s.(unicode := 4, charBuf := s.charBuf[7 := 0][6 := 0][5 := 0][4 := 0]), rest)
  {
    RunQuiet(s, 0x75, rest, s.(unicode := 4, charBuf := s.charBuf[7 := 0][6 := 0][5 := 0][4 := 0]));
  }

  /** `U` after a backslash expects eight digits and keeps `char_buf` as it is. */
  lemma LongUnicodeStart(s: State, rest: seq<byte>)
    requires Fresh(s)
    ensures Run(s, [0x55] + rest) == Run(s.(unicode := 8), rest)
  {
    RunQuiet(s, 0x55, rest, s.(unicode := 8));
  }

  predicate AllHexDigits(ds: seq<byte>) {
    forall i :: 0 <= i < |ds| ==> HexDigit(ds[i]).Some?
  }

  /** `char_buf` after the digits `ds` of a Unicode escape with `|ds|` digits
      pending: the first digit lands in the highest pending slot. */
  function Fill(cb: seq<bv8>, ds: seq<byte>): (r: seq<bv8>)
    requires |ds| <= |cb| && AllHexDigits(ds)
    ensures |r| == |cb|
    ensures forall i :: 0 <= i < |ds| ==> r[|ds| - 1 - i] == HexDigit(ds[i]).value
    ensures forall j :: |ds| <= j < |cb| ==> r[j] == cb[j]
    decreases |ds|
  {
    if ds == [] then cb
    else Fill(cb[|ds| - 1 := HexDigit(ds[0]).value], ds[1..])
  }

  /** With as many digits as are pending, a Unicode escape stores each of them,
      closes, appends the UTF-8 form of the assembled code point, and leaves the
      bytes after it unconsumed. */
  lemma {:induction false} UnicodeDigits(s: State, ds: seq<byte>, rest: seq<byte>)
    requires Valid(s) && s.escape && s.hex == 0 && s.unicode == |ds| > 0 && AllHexDigits(ds)
    ensures Run(s, ds + rest)
         == Effect(s.(escape := false, unicode := 0, charBuf := Fill(s.charBuf, ds)),
                   Utf8.Encode(CodePoint(Fill(s.charBuf, ds))), false)
    decreases |ds|
  {
    assert ds + rest == [ds[0]] + (ds[1..] + rest);
    var d := HexDigit(ds[0]).value;
    if |ds| == 1 {
      RunFirst(s, ds[0], rest);
      assert ds[1..] == [];
      assert Fill(s.charBuf, ds) == s.charBuf[0 := d];
    } else {
      var t := s.(unicode := s.unicode - 1, charBuf := s.charBuf[s.unicode - 1 := d]);
      RunQuiet(s, ds[0], ds[1..] + rest, t);
      assert AllHexDigits(ds[1..]) by {
        forall i | 0 <= i < |ds[1..]| ensures HexDigit(ds[1..][i]).Some? {
          assert ds[1..][i] == ds[i + 1];
        }
      }
      UnicodeDigits(t, ds[1..], rest);
    }
  }

  /** With slots 4 to 7 zero, `unicode_char` is the four low slots read
      most significant first, and at most 0xFFFF. */
  lemma ShortCodePoint(cb: seq<bv8>, n0: bv8, n1: bv8, n2: bv8, n3: bv8)
    requires n0 < 16 && n1 < 16 && n2 < 16 && n3 < 16
    requires cb == [n3, n2, n1, n0, 0, 0, 0, 0]
    ensures CodePoint(cb) == ((n0 as bv32) << 12) | ((n1 as bv32) << 8) | ((n2 as bv32) << 4) | (n3 as bv32)
    ensures CodePoint(cb) <= 0xFFFF
  {
  }

  /** The code point of a `\uHHHH` escape: the four digits over four zero slots. */
  lemma ShortFill(cb: seq<bv8>, d0: byte, d1: byte, d2: byte, d3: byte)
    requires |cb| == 8
    requires HexDigit(d0).Some? && HexDigit(d1).Some? && HexDigit(d2).Some? && HexDigit(d3).Some?
    ensures AllHexDigits([d0, d1, d2, d3])
    ensures CodePoint(Fill(cb[7 := 0][6 := 0][5 := 0][4 := 0], [d0, d1, d2, d3]))
         == (Nibble(d0) << 12) | (Nibble(d1) << 8) | (Nibble(d2) << 4) | Nibble(d3)
    ensures (Nibble(d0) << 12) | (Nibble(d1) << 8) | (Nibble(d2) << 4) | Nibble(d3) <= 0xFFFF
  {
    var ds := [d0, d1, d2, d3];
    assert AllHexDigits(ds);
    var f := Fill(cb[7 := 0][6 := 0][5 := 0][4 := 0], ds);
    assert f == [HexDigit(d3).value, HexDigit(d2).value, HexDigit(d1).value, HexDigit(d0).value, 0, 0, 0, 0] by {
      assert f[0] == HexDigit(ds[3]).value && f[1] == HexDigit(ds[2]).value;
      assert f[2] == HexDigit(ds[1]).value && f[3] == HexDigit(ds[0]).value;
    }
    ShortCodePoint(f, HexDigit(d0).value, HexDigit(d1).value, HexDigit(d2).value, HexDigit(d3).value);
  }

  /** `\uHHHH` reads four digits, most significant first, into the low four
      nibbles and zeroes the upper four, whatever `char_buf` held before; the
      code point, at most 0xFFFF, is appended in UTF-8 and the bytes after
      the escape are left for plain text. */
  lemma ShortUnicodeEscape(s: State, d0: byte, d1: byte, d2: byte, d3: byte, rest: seq<byte>)
    requires Fresh(s)
    requires HexDigit(d0).Some? && HexDigit(d1).Some? && HexDigit(d2).Some? && HexDigit(d3).Some?
    ensures (Nibble(d0) << 12) | (Nibble(d1) << 8) | (Nibble(d2) << 4) | Nibble(d3) <= 0xFFFF
    ensures Run(s, [0x75, d0, d1, d2, d3] + rest).out
         == Utf8.Encode((Nibble(d0) << 12) | (Nibble(d1) << 8) | (Nibble(d2) << 4) | Nibble(d3))
    ensures !Run(s, [0x75, d0, d1, d2, d3] + rest).state.escape
  {
    var ds := [d0, d1, d2, d3];
    assert [0x75, d0, d1, d2, d3] + rest == [0x75] + (ds + rest);
    ShortUnicodeStart(s, ds + rest);
    ShortFill(s.charBuf, d0, d1, d2, d3);
    UnicodeDigits(s.(unicode := 4, charBuf := s.charBuf[7 := 0][6 := 0][5 := 0][4 := 0]), ds, rest);
  }

  /** `unicode_char` is the eight slots read most significant first. */
  lemma LongCodePoint(cb: seq<bv8>, d0: byte, d1: byte, d2: byte, d3: byte, d4: byte, d5: byte, d6: byte, d7: byte)
    requires HexDigit(d0).Some? && HexDigit(d1).Some? && HexDigit(d2).Some? && HexDigit(d3).Some?
    requires HexDigit(d4).Some? && HexDigit(d5).Some? && HexDigit(d6).Some? && HexDigit(d7).Some?
    requires cb == [HexDigit(d7).value, HexDigit(d6).value, HexDigit(d5).value, HexDigit(d4).value,
                    HexDigit(d3).value, HexDigit(d2).value, HexDigit(d1).value, HexDigit(d0).value]
    ensures CodePoint(cb)
         == (Nibble(d0) << 28) | (Nibble(d1) << 24) | (Nibble(d2) << 20) | (Nibble(d3) << 16)
          | (Nibble(d4) << 12) | (Nibble(d5) << 8) | (Nibble(d6) << 4) | Nibble(d7)
  {
  }

  /** Eight digits overwrite every slot, the first digit in slot 7. */
  lemma FillEight(cb: seq<bv8>, ds: seq<byte>)
    requires |cb| == 8 && |ds| == 8 && AllHexDigits(ds)
    ensures Fill(cb, ds)
         == [HexDigit(ds[7]).value, HexDigit(ds[6]).value, HexDigit(ds[5]).value, HexDigit(ds[4]).value,
             HexDigit(ds[3]).value, HexDigit(ds[2]).value, HexDigit(ds[1]).value, HexDigit(ds[0]).value]
  {
    var f := Fill(cb, ds);
    assert f[0] == HexDigit(ds[7]).value && f[1] == HexDigit(ds[6]).value;
    assert f[2] == HexDigit(ds[5]).value && f[3] == HexDigit(ds[4]).value;
    assert f[4] == HexDigit(ds[3]).value && f[5] == HexDigit(ds[2]).value;
    assert f[6] == HexDigit(ds[1]).value && f[7] == HexDigit(ds[0]).value;
  }

  /** The code point of a `\UHHHHHHHH` escape: eight digits, most significant first. */
  lemma LongFill(cb: seq<bv8>, d0: byte, d1: byte, d2: byte, d3: byte, d4: byte, d5: byte, d6: byte, d7: byte)
    requires |cb| == 8
    requires HexDigit(d0).Some? && HexDigit(d1).Some? && HexDigit(d2).Some? && HexDigit(d3).Some?
    requires HexDigit(d4).Some? && HexDigit(d5).Some? && HexDigit(d6).Some? && HexDigit(d7).Some?
    ensures AllHexDigits([d0, d1, d2, d3, d4, d5, d6, d7])
    ensures CodePoint(Fill(cb, [d0, d1, d2, d3, d4, d5, d6, d7]))
         == (Nibble(d0) << 28) | (Nibble(d1) << 24) | (Nibble(d2) << 20) | (Nibble(d3) << 16)
          | (Nibble(d4) << 12) | (Nibble(d5) << 8) | (Nibble(d6) << 4) | Nibble(d7)
  {
    var ds := [d0, d1, d2, d3, d4, d5, d6, d7];
    assert AllHexDigits(ds);
    FillEight(cb, ds);
    LongCodePoint(Fill(cb, ds), d0, d1, d2, d3, d4, d5, d6, d7);
  }

  /** `\UHHHHHHHH` reads eight digits, most significant first, and appends the
      code point in UTF-8; for a code point above 0x7FFFFFFF it appends nothing. */
  lemma LongUnicodeEscape(s: State, d0: byte, d1: byte, d2: byte, d3: byte,
                          d4: byte, d5: byte, d6: byte, d7: byte, rest: seq<byte>)
    requires Fresh(s)
    requires HexDigit(d0).Some? && HexDigit(d1).Some? && HexDigit(d2).Some? && HexDigit(d3).Some?
    requires HexDigit(d4).Some? && HexDigit(d5).Some? && HexDigit(d6).Some? && HexDigit(d7).Some?
    ensures Run(s, [0x55, d0, d1, d2, d3, d4, d5, d6, d7] + rest).out
         == Utf8.Encode((Nibble(d0) << 28) | (Nibble(d1) << 24) | (Nibble(d2) << 20) | (Nibble(d3) << 16)
                      | (Nibble(d4) << 12) | (Nibble(d5) << 8) | (Nibble(d6) << 4) | Nibble(d7))
    ensures !Run(s, [0x55, d0, d1, d2, d3, d4, d5, d6, d7] + rest).state.escape
    ensures var c := (Nibble(d0) << 28) | (Nibble(d1) << 24) | (Nibble(d2) << 20) | (Nibble(d3) << 16)
                   | (Nibble(d4) << 12) | (Nibble(d5) << 8) | (Nibble(d6) << 4) | Nibble(d7);
      c <= 0x3FF_FFFF || c > Utf8.MaxCodePoint ==>
        Run(s, [0x55, d0, d1, d2, d3, d4, d5, d6, d7] + rest).out == Utf8.EncodeAsWritten(c)
  {
    var c := (Nibble(d0) << 28) | (Nibble(d1) << 24) | (Nibble(d2) << 20) | (Nibble(d3) << 16)
           | (Nibble(d4) << 12) | (Nibble(d5) << 8) | (Nibble(d6) << 4) | Nibble(d7);
    if c <= 0x3FF_FFFF || c > Utf8.MaxCodePoint {
      Utf8.AsWrittenAgreesOutsideSixBytes(c);
    }
    var ds := [d0, d1, d2, d3, d4, d5, d6, d7];
    assert [0x55, d0, d1, d2, d3, d4, d5, d6, d7] + rest == [0x55] + (ds + rest);
    LongUnicodeStart(s, ds + rest);
    LongFill(s.charBuf, d0, d1, d2, d3, d4, d5, d6, d7);
    UnicodeDigits(s.(unicode := 8), ds, rest);
  }

  /** A byte that is not a digit of the kind expected is consumed without
      effect: the escape stays open with the same digits pending. */
  predicate Junk(s: State, b: byte) {
    if s.hex > 0 || s.unicode > 0 then HexDigit(b).None?
    else s.oct > 0 && !IsOctalDigit(b)
  }

  /** Stray bytes inside a numeric escape are dropped: feeding them before
      the rest is the same as feeding the rest alone. */
  lemma {:induction false} JunkSkipped(s: State, junk: seq<byte>, rest: seq<byte>)
    requires Valid(s) && s.escape
    requires forall i :: 0 <= i < |junk| ==> Junk(s, junk[i])
    ensures Run(s, junk + rest) == Run(s, rest)
    decreases |junk|
  {
    if junk != [] {
      assert junk + rest == [junk[0]] + (junk[1..] + rest);
      assert Junk(s, junk[0]);
      RunQuiet(s, junk[0], junk[1..] + rest, s);
      assert forall i :: 0 <= i < |junk[1..]| ==> Junk(s, junk[1..][i]) by {
        forall i | 0 <= i < |junk[1..]| ensures Junk(s, junk[1..][i]) {
          assert junk[1..][i] == junk[i + 1];
        }
      }
      JunkSkipped(s, junk[1..], rest);
    } else {
      assert junk + rest == rest;
    }
  }
}
