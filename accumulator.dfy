/**
 * The chunked accumulator of json.c (lines 43-118): the token being read is
 * kept in a chain of fixed-size blocks.  `buff_add` appends at the tail block
 * and opens a fresh block only when the tail is full, `buff_delete` cuts the
 * chain back to its empty head, `buff_length` counts bytes (in `size_t`) and
 * `buff_toarray` flattens the chain into a NUL-terminated string.
 */
module Accumulator {
  import opened Basics

  /** `str_value_n`: the capacity of one block. */
  const BlockSize: nat := 1000

  /** `size_t` arithmetic is modulo 2^64. */
  const SizeModulus: nat := 0x1_0000_0000_0000_0000

  /** The number of bytes in the tail block of a chain that holds `total`
      bytes and was filled from an empty head: every block but the last is
      full, and a block is opened only to receive a byte. */
  function TailCount(total: nat): (k: nat)
    ensures k <= BlockSize
    ensures total > 0 ==> 0 < k && (total - k) % BlockSize == 0
    ensures total <= BlockSize ==> k == total
  {
    if total == 0 then 0 else (total - 1) % BlockSize + 1
  }

  /** `struct buffer`: one block of the chain. */
  class Block {
    var n: nat
    const s: array<byte>
    var next: Block?

    /** `buffer_new` (json.c:59-67): an empty block at the end of a chain. */
    constructor ()
      ensures n == 0 && next == null && fresh(s) && s.Length == BlockSize
    {
      n := 0;
      next := null;
      s := new byte[BlockSize];
    }
  }

  /** No block, and no block's array, occurs twice in `chain`. */
  predicate Distinct(chain: seq<Block>) {
    forall i, j :: 0 <= i < j < |chain| ==> chain[i] != chain[j] && chain[i].s != chain[j].s
  }

  /** A block new to the chain, with a new array, keeps it distinct. */
  lemma DistinctSnoc(chain: seq<Block>, b: Block)
    requires Distinct(chain)
    requires forall i :: 0 <= i < |chain| ==> chain[i] != b && chain[i].s != b.s
    ensures Distinct(chain + [b])
  {
  }

  /** The total of the `n` fields from block `k` to the end of the chain. */
  ghost function Span(chain: seq<Block>, k: nat): nat
    requires k <= |chain|
    reads set i | 0 <= i < |chain| :: chain[i]
    decreases |chain| - k
  {
    if k == |chain| then 0 else chain[k].n + Span(chain, k + 1)
  }

  /** The accumulator: `head` is `str_value_p`, the block the token starts in,
      and `tail` is `str_value`, the block that receives the next byte. */
  class Buffer {
    const head: Block
    var tail: Block
    ghost var chain: seq<Block>
    ghost var contents: seq<byte>
    ghost var Repr: set<object>

    /** The chain runs from `head` to `tail`, every block before the tail is
        full, and the blocks and their arrays are distinct. */
    ghost predicate Chained()
      reads this, Repr
    {
      && this in Repr
      && |chain| > 0 && chain[0] == head && chain[|chain| - 1] == tail
      && (forall i :: 0 <= i < |chain| ==> chain[i] in Repr && chain[i].s in Repr)
      && (forall i :: 0 <= i < |chain| ==> chain[i].s.Length == BlockSize && chain[i].n <= BlockSize)
      && (forall i :: 0 <= i < |chain| - 1 ==> chain[i].next == chain[i + 1] && chain[i].n == BlockSize)
      && tail.next == null
      && Distinct(chain)
    }

    /** Block `k` holds bytes `k * BlockSize` onwards of the token: the whole
        rest of it for the tail. */
    ghost predicate Indexed()
      reads this, Repr
      requires Chained()
    {
      forall k :: 0 <= k < |chain| ==> Holds(chain[k], k, |chain| - 1, contents)
    }

    /** A chain in which a block is opened only to receive a byte. */
    ghost predicate Valid()
      reads this, Repr
    {
      Chained() && Indexed() && (|chain| > 1 ==> tail.n > 0)
    }

    /** The token accumulated so far. */
    ghost function Contents(): seq<byte>
      reads this, Repr
      requires Valid()
    {
      contents
    }

    /** `str_value = buffer_new(); str_value_p = str_value` (json.c:338-340). */
    constructor ()
      ensures Valid() && fresh(Repr)
      ensures Contents() == [] && tail == head && head.n == 0
    {
      var b := new Block();
      head := b;
      tail := b;
      chain := [b];
      contents := [];
      Repr := {this, b, b.s};
    }

    /** `buff_add` (json.c:69-79): appends `c`; a new block is chained on
        only when the tail already holds `BlockSize` bytes. */
    method BuffAdd(c: byte)
      requires Valid()
      modifies Repr
      ensures Valid() && fresh(Repr - old(Repr))
      ensures Contents() == old(Contents()) + [c]
      ensures old(tail.n) < BlockSize ==> tail == old(tail) && chain == old(chain)
      ensures old(tail.n) == BlockSize ==> fresh(tail) && chain == old(chain) + [tail]
      ensures tail.n == TailCount(|Contents()|)
    {
      if tail.n >= BlockSize {
        Open();
      }
      Put(c);
      TailCountAgrees();
    }

    /** `(*A)->next = buffer_new(); *A = (*A)->next`: chains an empty block on
        after a full tail. */
    method Open()
      requires Valid() && tail.n == BlockSize
      modifies this, tail
      ensures Chained() && Indexed() && tail.n == 0
      ensures fresh(tail) && fresh(tail.s) && chain == old(chain) + [tail]
      ensures Repr == old(Repr) + {tail, tail.s} && contents == old(contents)
    {
      var b := new Block();
      DistinctSnoc(chain, b);
      tail.next := b;
      tail := b;
      chain := chain + [b];
      Repr := Repr + {b, b.s};
      ghost var last := |chain| - 1;
      forall k | 0 <= k < last
        ensures Holds(chain[k], k, last, contents)
      {
        assert Holds(chain[k], k, last - 1, contents);
      }
      assert Holds(b, last, last, contents);
      assert Chained();
    }

    /** `(*A)->s[((*A)->n)++] = c` on a tail with room. */
    method Put(c: byte)
      requires Chained() && Indexed() && tail.n < BlockSize
      modifies tail, tail.s, this
      ensures Valid() && contents == old(contents) + [c]
      ensures tail == old(tail) && chain == old(chain) && Repr == old(Repr)
    {
      ghost var last := |chain| - 1;
      assert forall k :: 0 <= k < last ==> chain[k] != tail && chain[k].s != tail.s;
      label before:
      tail.s[tail.n] := c;
      tail.n := tail.n + 1;
      contents := contents + [c];
      forall k | 0 <= k < last
        ensures Holds(chain[k], k, last, contents)
      {
        assert old@before(Holds(chain[k], k, last, contents));
      }
      assert Holds(tail, last, last, contents);
      assert forall i :: 0 <= i < last ==> chain[i].n == BlockSize && chain[i].next == chain[i + 1];
      assert Chained();
    }
  
    /** The tail holds as many bytes as `TailCount` says: the test of
        `buff_length(str_value, w)` sees only these. */
    lemma TailCountAgrees()
      requires Valid()
      ensures tail.n == TailCount(|Contents()|)
    {
      var m := |chain| - 1;
      if m > 0 {
        assert |contents| - 1 == BlockSize * m + (tail.n - 1);
        assert (BlockSize * m + (tail.n - 1)) % BlockSize == tail.n - 1;
      }
    }

    /** The blocks from the head hold the whole token. */
    lemma {:induction false} SpanCounts(k: nat)
      requires Valid() && k < |chain|
      ensures Span(chain, k) == |Contents()| - BlockSize * k
      decreases |chain| - k
    {
      if k < |chain| - 1 {
        SpanCounts(k + 1);
      }
    }

    /** `buff_delete` (json.c:81-93): the head becomes the only, empty block
        and the cursor returns to it. */
    method BuffDelete()
      requires Valid()
      modifies this, head
      ensures Valid() && Repr <= old(Repr)
      ensures Contents() == [] && tail == head && head.n == 0 && head.next == null && chain == [head]
    {
      head.next := null;
      head.n := 0;
      tail := head;
      chain := [head];
      contents := [];
      Repr := {this, head, head.s};
    }

    /** `buff_length` (json.c:95-103): the bytes from block `P` on, less `w`,
        in `size_t` arithmetic. */
    method BuffLength(P: Block, w: nat, ghost k: nat) returns (n: nat)
      requires Valid() && k < |chain| && chain[k] == P
      ensures n == (Span(chain, k) - w) % SizeModulus
      ensures P == head ==> n == (|Contents()| - w) % SizeModulus
      ensures P == tail ==> n == (tail.n - w) % SizeModulus
    {
      n := Total(P, k);
      ModAdd(Span(chain, k), -(w as int));
      n := (n - w) % SizeModulus;
      if P == head {
        SpanCounts(0);
      }
      if P == tail {
        assert k == |chain| - 1;
      }
    }

    /** The loop of `buff_length`: the `n` fields from block `P` on, summed in
        `size_t`. */
    method Total(P: Block, ghost k: nat) returns (n: nat)
      requires Valid() && k < |chain| && chain[k] == P
      ensures n == Span(chain, k) % SizeModulus
    {
      n := 0;
      var p: Block? := P;
      ghost var i := k;
      while p != null
        invariant k <= i <= |chain|
        invariant i < |chain| ==> p == chain[i]
        invariant i == |chain| ==> p == null
        invariant n == (Span(chain, k) - Span(chain, i)) % SizeModulus
        decreases |chain| - i
      {
        ModAdd(Span(chain, k) - Span(chain, i), p.n);
        n := (n + p.n) % SizeModulus;
        p := p.next;
        i := i + 1;
      }
    }

    /** `buff_toarray` (json.c:105-118): a fresh NUL-terminated string holding
        the token without its last `w` bytes. */
    method BuffToArray(w: nat) returns (str: array<byte>)
      requires Valid() && w <= |Contents()| < SizeModulus
      ensures fresh(str)
      ensures str[..] == Contents()[..|Contents()| - w] + [0]
    {
      var n := BuffLength(head, w, 0);
      assert n == |contents| - w;
      forall k | 0 <= k < |chain|
        ensures Holds(chain[k], k, |chain| - 1, contents)
        ensures chain[k].next == if k < |chain| - 1 then chain[k + 1] else null
      {
        BlockFacts(k);
      }
      str := Flatten(head, n, chain, contents);
    }

    /** What `Valid` says about block `b`: it holds the `n` bytes of the
        token from `BlockSize * b` on, all of them unless it is the tail. */
    lemma BlockFacts(b: nat)
      requires Valid() && b < |chain|
      ensures chain[b].n <= chain[b].s.Length && BlockSize * b + chain[b].n <= |Contents()|
      ensures forall j :: 0 <= j < chain[b].n ==> chain[b].s[j] == Contents()[BlockSize * b + j]
      ensures b + 1 < |chain| ==> chain[b].n == BlockSize
      ensures b + 1 == |chain| ==> BlockSize * b + chain[b].n == |Contents()|
    {
    }
  }

  /** Block `p`, number `k` of a chain whose tail is number `last`, holds
      the bytes of `whole` from `BlockSize * k` on: all that remain if it is
      the tail, `BlockSize` of them otherwise. */
  ghost predicate Holds(p: Block, k: nat, last: nat, whole: seq<byte>)
    reads p, p.s
  {
    && p.n <= p.s.Length && BlockSize * k + p.n <= |whole|
    && (k < last ==> p.n == BlockSize)
    && (k == last ==> BlockSize * k + p.n == |whole|)
    && forall j :: 0 <= j < p.n ==> p.s[j] == whole[BlockSize * k + j]
  }

  /** The loops of `buff_toarray`: the chain `blocks` from `head`, which
      holds `whole`, copied into a fresh array up to `n` bytes, then the NUL. */
  method Flatten(head: Block, n: nat, ghost blocks: seq<Block>, ghost whole: seq<byte>) returns (str: array<byte>)
    requires |blocks| > 0 && blocks[0] == head && n <= |whole|
    requires forall k :: 0 <= k < |blocks| ==> Holds(blocks[k], k, |blocks| - 1, whole)
    requires forall k :: 0 <= k < |blocks| ==> blocks[k].next == if k < |blocks| - 1 then blocks[k + 1] else null
    ensures fresh(str) && str[..] == whole[..n] + [0]
  {
    str := new byte[n + 1];
    assert forall k :: 0 <= k < |blocks| ==> blocks[k].s != str;
    var i := 0;
    var p: Block? := head;
    ghost var b := 0;
    while p != null
      invariant b <= |blocks| && i <= n && str.Length == n + 1
      invariant forall k :: 0 <= k < |blocks| ==> Holds(blocks[k], k, |blocks| - 1, whole) && blocks[k].s != str
      invariant forall k :: 0 <= k < |blocks| ==> blocks[k].next == if k < |blocks| - 1 then blocks[k + 1] else null
      invariant b < |blocks| ==> p == blocks[b] && i == Min(n, BlockSize * b)
      invariant b == |blocks| ==> p == null && i == n
      invariant str[..i] == whole[..i]
      decreases |blocks| - b
    {
      ghost var e := BlockSize * b + p.n;
      assert b == |blocks| - 1 ==> e == |whole|;
      label copied:
      i := CopyBlock(p, str, i, n, whole, BlockSize * b);
      assert forall k :: 0 <= k < |blocks| ==> blocks[k].next == old@copied(blocks[k].next);
      assert i == Min(n, e);
      assert blocks[b].next == if b < |blocks| - 1 then blocks[b + 1] else null;
      p := p.next;
      b := b + 1;
    }
    str[n] := 0;
    assert str[..] == str[..n] + [str[n]];
  }

  /** The inner loop of `buff_toarray`: the `n` bytes of block `p`, which are
      bytes `lo` onwards of `whole`, are copied to `str` from `i0` on,
      stopping at `n`. */
  method CopyBlock(p: Block, str: array<byte>, i0: nat, n: nat, ghost whole: seq<byte>, ghost lo: nat) returns (i: nat)
    requires p.n <= p.s.Length && str != p.s && str.Length == n + 1 && n <= |whole|
    requires lo + p.n <= |whole| && forall j :: 0 <= j < p.n ==> p.s[j] == whole[lo + j]
    requires i0 == Min(n, lo) && str[..i0] == whole[..i0]
    modifies str
    ensures i == Min(n, lo + p.n) && str[..i] == whole[..i]
  {
    i := i0;
    var j := 0;
    while j < p.n && i < n
      invariant j <= p.n && i == Min(n, lo + j)
      invariant str[..i] == whole[..i]
    {
      str[i] := p.s[j];
      i := i + 1;
      j := j + 1;
    }
  }

  function Min(a: nat, b: nat): nat {
    if a <= b then a else b
  }

  /** Reducing before an addition does not change the residue. */
  lemma ModAdd(x: int, y: int)
    ensures ((x % SizeModulus) + y) % SizeModulus == (x + y) % SizeModulus
  {
  }
}
