/** Shared vocabulary: bytes, C strings and the two failure-carrying wrappers. */
module Basics {

  /** An unsigned 8-bit value (`uint8_t`, and the `char` bytes of names and strings). */
  type byte = bv8

  datatype Option<+T> = None | Some(value: T)

  datatype Result<+T, +E> = Success(value: T) | Failure(error: E)

  /** Space, tab, carriage return and line feed: the bytes the reader treats as whitespace. */
  predicate IsWhitespace(b: byte) {
    b == 0x20 || b == 0x09 || b == 0x0D || b == 0x0A
  }

  /** What `strcmp` and `printf("%s")` see of a byte array: the bytes before its first NUL. */
  function CString(s: seq<byte>): (r: seq<byte>)
    ensures r <= s
    ensures 0 !in r
    ensures |r| < |s| ==> s[|r|] == 0
  {
    if s == [] || s[0] == 0 then [] else [s[0]] + CString(s[1..])
  }

  /** The bytes that steer the reader and the printer. */
  const Quote: byte := 0x22
  const Backslash: byte := 0x5C
  const Colon: byte := 0x3A
  const Comma: byte := 0x2C
  const OpenBrace: byte := 0x7B
  const CloseBrace: byte := 0x7D
  const OpenBracket: byte := 0x5B
  const CloseBracket: byte := 0x5D
  const Newline: byte := 0x0A

  /** A sequence is its prefix without the last element, then that element. */
  lemma AppendLast<T>(a: seq<T>, bs: seq<T>)
    requires bs != []
    ensures bs[..|bs| - 1] + [bs[|bs| - 1]] == bs
    ensures a + bs[..|bs| - 1] + [bs[|bs| - 1]] == a + bs
  {
    assert bs[..|bs| - 1] + [bs[|bs| - 1]] == bs;
  }
}
