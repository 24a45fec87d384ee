/**
 * What read_json does with a byte outside quotes that is neither structural
 * nor a quote or backslash (json.c:594-615): whitespace is buffered only when
 * the pending token already has content, and `end_whitespace` counts the
 * run of whitespace at its end; any other byte is buffered and ends the run.
 * `value_str` and `object_str` then store the token without that run.
 */
module Token {
  import opened Basics
  import Accumulator

  /** The token being accumulated and `end_whitespace`. */
  datatype Pending = Pending(bytes: seq<byte>, trailing: nat)

  const Empty := Pending([], 0)

  /** The counted run is whitespace at the end of the token, and it never
      covers the whole of a non-empty token. */
  predicate Valid(p: Pending) {
    && p.trailing <= |p.bytes|
    && (p.trailing > 0 ==> p.trailing < |p.bytes|)
    && forall i :: |p.bytes| - p.trailing <= i < |p.bytes| ==> IsWhitespace(p.bytes[i])
  }

  /** What `value_str`/`object_str` store: `buff_toarray(str_value_p, end_whitespace)`. */
  function Flush(p: Pending): (r: seq<byte>)
    requires Valid(p)
    ensures r <= p.bytes && |r| == |p.bytes| - p.trailing
    ensures forall i :: |r| <= i < |p.bytes| ==> IsWhitespace(p.bytes[i])
    ensures r == [] <==> !HasContent(p)
  {
    p.bytes[..|p.bytes| - p.trailing]
  }

  /** The emptiness test `buff_length(…, end_whitespace) > 0` taken over the
      whole token: there is a byte before the trailing run. */
  predicate HasContent(p: Pending) {
    |p.bytes| != p.trailing
  }

  /** The same test as json.c:603 and 608 write it, on the tail block
      `str_value` only: its byte count less `end_whitespace`, in `size_t`. */
  predicate TailHasContent(p: Pending) {
    (Accumulator.TailCount(|p.bytes|) - p.trailing) % Accumulator.SizeModulus != 0
  }

  /** The tail test never reports content in a token that has none. */
  lemma TailImpliesContent(p: Pending)
    requires Valid(p)
    ensures TailHasContent(p) ==> HasContent(p)
  {
  }

  /** While the token fits in its first block, the tail test and the
      whole-token test agree. */
  lemma TailAgreesInFirstBlock(p: Pending)
    requires Valid(p) && |p.bytes| <= Accumulator.BlockSize
    ensures TailHasContent(p) <==> HasContent(p)
  {
  }

  /** One plain byte, with the emptiness test over the whole token. */
  function Plain(p: Pending, b: byte): (r: Pending)
    requires Valid(p)
    ensures Valid(r)
  {
    if IsWhitespace(b) then
      if HasContent(p) then Pending(p.bytes + [b], p.trailing + 1) else p
    else Pending(p.bytes + [b], 0)
  }

  /** A solid byte is stored together with the whole run before it; a space
      is stored by nothing until a solid byte follows, and only after content. */
  lemma PlainStores(p: Pending, b: byte)
    requires Valid(p)
    ensures HasContent(Plain(p, b)) <==> HasContent(p) || !IsWhitespace(b)
    ensures !IsWhitespace(b) ==> Flush(Plain(p, b)) == p.bytes + [b]
    ensures IsWhitespace(b) ==> Flush(Plain(p, b)) == Flush(p)
    ensures IsWhitespace(b) && HasContent(p) ==> Plain(p, b).bytes == p.bytes + [b]
  {
  }

  /** One plain byte as json.c:594-615 write it, with the tail-block test. */
  function PlainAsWritten(p: Pending, b: byte): (r: Pending)
    requires Valid(p)
    ensures Valid(r)
    ensures !IsWhitespace(b) || TailHasContent(p) == HasContent(p) ==> r == Plain(p, b)
    ensures IsWhitespace(b) && TailHasContent(p) != HasContent(p) ==> r == p && Plain(p, b) != p
  {
    TailImpliesContent(p);
    if IsWhitespace(b) then
      if TailHasContent(p) then Pending(p.bytes + [b], p.trailing + 1) else p
    else Pending(p.bytes + [b], 0)
  }

  /** A run of plain bytes, the last one fed last. */
  function Feed(p: Pending, bs: seq<byte>): (r: Pending)
    requires Valid(p)
    ensures Valid(r)
  {
    if bs == [] then p else Plain(Feed(p, bs[..|bs| - 1]), bs[|bs| - 1])
  }

  function FeedAsWritten(p: Pending, bs: seq<byte>): Pending
    requires Valid(p)
  {
    if bs == [] then p
    else
      var q := FeedAsWritten(p, bs[..|bs| - 1]);
      if Valid(q) then PlainAsWritten(q, bs[|bs| - 1]) else q
  }

  /** `bs` without its leading whitespace. */
  function TrimLeading(bs: seq<byte>): (r: seq<byte>)
    ensures r == [] || !IsWhitespace(r[0])
    ensures |r| <= |bs| && r == bs[|bs| - |r|..]
    ensures forall i :: 0 <= i < |bs| - |r| ==> IsWhitespace(bs[i])
  {
    if bs == [] then []
    else if IsWhitespace(bs[0]) then TrimLeading(bs[1..])
    else bs
  }

  /** The length of the whitespace run at the end of `bs`. */
  function TrailingRun(bs: seq<byte>): (n: nat)
    ensures n <= |bs|
    ensures forall i :: |bs| - n <= i < |bs| ==> IsWhitespace(bs[i])
    ensures n < |bs| ==> !IsWhitespace(bs[|bs| - n - 1])
  {
    if bs == [] then 0
    else if IsWhitespace(bs[|bs| - 1]) then 1 + TrailingRun(bs[..|bs| - 1])
    else 0
  }

  /** `bs` without leading and trailing whitespace. */
  function Trim(bs: seq<byte>): seq<byte> {
    var t := TrimLeading(bs);
    t[..|t| - TrailingRun(t)]
  }

  lemma TrimLeadingSnoc(bs: seq<byte>, b: byte)
    ensures TrimLeading(bs + [b]) == if TrimLeading(bs) == [] && IsWhitespace(b) then [] else TrimLeading(bs) + [b]
  {
    if bs != [] {
      assert (bs + [b])[1..] == bs[1..] + [b];
      if IsWhitespace(bs[0]) {
        TrimLeadingSnoc(bs[1..], b);
      }
    }
  }

  /** A token that starts with a non-whitespace byte, with its whole trailing
      whitespace run counted, is valid, and one plain byte gives the same
      shape again. */
  lemma PlainTrimmed(t: seq<byte>, b: byte)
    requires t == [] || !IsWhitespace(t[0])
    ensures Valid(Pending(t, TrailingRun(t)))
    ensures var u := if t == [] && IsWhitespace(b) then [] else t + [b];
      Plain(Pending(t, TrailingRun(t)), b) == Pending(u, TrailingRun(u))
  {
    if t != [] {
      assert (t + [b])[..|t + [b]| - 1] == t;
    } else {
      assert [b][..0] == [];
    }
  }

  /** From an empty token, plain bytes leave exactly the input without its
      leading whitespace, with its trailing whitespace run counted. */
  lemma {:induction false} FeedState(bs: seq<byte>)
    ensures Feed(Empty, bs) == Pending(TrimLeading(bs), TrailingRun(TrimLeading(bs)))
  {
    if bs != [] {
      var xs, b := bs[..|bs| - 1], bs[|bs| - 1];
      assert bs == xs + [b];
      FeedState(xs);
      TrimLeadingSnoc(xs, b);
      PlainTrimmed(TrimLeading(xs), b);
    }
  }

  /** A token in the shape `FeedState` gives stores `t` without its trailing
      run, which neither starts nor ends with whitespace. */
  lemma FlushShape(t: seq<byte>)
    requires t == [] || !IsWhitespace(t[0])
    ensures Valid(Pending(t, TrailingRun(t)))
    ensures var f := Flush(Pending(t, TrailingRun(t)));
      f == t[..|t| - TrailingRun(t)] && (f == [] || (!IsWhitespace(f[0]) && !IsWhitespace(f[|f| - 1])))
  {
    PlainTrimmed(t, 0x20);
  }

  /** The stored token is the plain input with its leading and trailing
      whitespace removed: no unquoted edge whitespace reaches a name or value. */
  lemma {:induction false} FlushTrims(bs: seq<byte>)
    ensures Flush(Feed(Empty, bs)) == Trim(bs)
    ensures Trim(bs) == [] || (!IsWhitespace(Trim(bs)[0]) && !IsWhitespace(Trim(bs)[|Trim(bs)| - 1]))
  {
    var t := TrimLeading(bs);
    FeedState(bs);
    FlushShape(t);
    assert Trim(bs) == t[..|t| - TrailingRun(t)];
  }

  /** Bytes that are not whitespace are all kept, by either test. */
  lemma {:induction false} SolidRun(bs: seq<byte>)
    requires forall i :: 0 <= i < |bs| ==> !IsWhitespace(bs[i])
    ensures Feed(Empty, bs) == Pending(bs, 0)
    ensures FeedAsWritten(Empty, bs) == Pending(bs, 0)
  {
    if bs != [] {
      SolidRun(bs[..|bs| - 1]);
      assert bs[..|bs| - 1] + [bs[|bs| - 1]] == bs;
    }
  }

  /** With a full first block, the tail test sees the block opened by the
      first space and drops the second: `1000 × 'a'`, two spaces and `x` are
      stored with one space, while the whole-token test keeps both. */
  lemma TailTestDropsSpace()
    ensures var solid := seq(1000, _ => 0x61);
      && Flush(Feed(Empty, solid + [0x20, 0x20, 0x78])) == solid + [0x20, 0x20, 0x78]
      && FeedAsWritten(Empty, solid + [0x20, 0x20, 0x78]) == Pending(solid + [0x20, 0x78], 0)
  {
    var solid := seq(1000, _ => 0x61);
    SolidRun(solid);
    var s1 := solid + [0x20];
    var s2 := s1 + [0x20];
    var s3 := s2 + [0x78];
    assert s3[..|s3| - 1] == s2 && s2[..|s2| - 1] == s1 && s1[..|s1| - 1] == solid;
    assert s3 == solid + [0x20, 0x20, 0x78];
    assert Accumulator.TailCount(1000) == 1000 && Accumulator.TailCount(1001) == 1;
    assert FeedAsWritten(Empty, s1) == Pending(s1, 1);
    assert FeedAsWritten(Empty, s2) == Pending(s1, 1);
    assert solid + [0x20] + [0x78] == solid + [0x20, 0x78];
    assert Feed(Empty, s2) == Pending(s2, 2);
  }
}
