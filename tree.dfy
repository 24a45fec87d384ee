/**
 * The parse tree of json.h:35-60 as an arena: node `i` is the `i`-th
 * `json_object` or `json_value` allocated, and every pointer is a `Link` to an
 * index.  Seen from the walks, a node has two out-edges: the child edge
 * (`object->value`, or a value's nested `object`/`value`) and the sibling edge
 * (`next`).
 */
module Tree {
  import opened Basics

  datatype Link = Null | To(index: nat)

  /** The tagged union of `json_value`, tags 0 to 6 of json.h:42. */
  datatype Payload =
    | NoData                    // 0
    | ObjectOf(members: Link)   // 1
    | Nested(element: Link)     // 2
    | Str(text: seq<byte>)      // 3
    | Int(number: int)          // 4
    | Double(bits: bv64)        // 5
    | Boolean(flag: byte)       // 6

  /** `json_object` (a member: name, value, next member) or `json_value`. */
  datatype Node =
    | Member(name: Option<seq<byte>>, value: Link, next: Link)
    | Value(payload: Payload, next: Link)

  /** The `type` of a `sequence` position or of `json_start`: 0, 1 or 2. */
  datatype Kind = Untyped | ObjectKind | ValueKind

  /** `json_start`: the kind of the root and, unless untyped, its node. */
  datatype Start = Start(kind: Kind, root: nat)

  function KindOf(n: Node): Kind {
    if n.Member? then ObjectKind else ValueKind
  }

  /** The child edge of a node. */
  function Child(n: Node): Link {
    match n
    case Member(_, v, _) => v
    case Value(p, _) => if p.ObjectOf? then p.members else if p.Nested? then p.element else Null
  }

  /** The child edge (`sibling == false`) or the sibling edge of node `i`. */
  function Edge(nodes: seq<Node>, i: nat, sibling: bool): Link
    requires i < |nodes|
  {
    if sibling then nodes[i].next else Child(nodes[i])
  }

  predicate LinkIn(nodes: seq<Node>, l: Link) {
    l.Null? || l.index < |nodes|
  }

  /** Every edge leads to a later node: the arena is acyclic by creation order. */
  predicate Forward(nodes: seq<Node>) {
    forall i, s :: 0 <= i < |nodes| && Edge(nodes, i, s).To? ==> i < Edge(nodes, i, s).index < |nodes|
  }

  /** No node is the target of two edges. */
  predicate Owned(nodes: seq<Node>) {
    forall i, j, a, b :: 0 <= i < |nodes| && 0 <= j < |nodes| && Edge(nodes, i, a).To? && Edge(nodes, i, a) == Edge(nodes, j, b)
      ==> i == j && a == b
  }

  /** The node an edge leads to has the type its pointer declares. */
  function EdgeKind(n: Node, sibling: bool): Kind {
    match n
    case Member(_, _, _) => if sibling then ObjectKind else ValueKind
    case Value(p, _) => if !sibling && p.ObjectOf? then ObjectKind else ValueKind
  }

  predicate Typed(nodes: seq<Node>) {
    forall i, s :: 0 <= i < |nodes| && Edge(nodes, i, s).To? && Edge(nodes, i, s).index < |nodes|
      ==> KindOf(nodes[Edge(nodes, i, s).index]) == EdgeKind(nodes[i], s)
  }

  predicate WellFormed(nodes: seq<Node>) {
    Forward(nodes) && Owned(nodes) && Typed(nodes)
  }

  predicate StartOk(nodes: seq<Node>, a: Start) {
    a.kind != Untyped ==> a.root < |nodes| && KindOf(nodes[a.root]) == a.kind
  }

  function Rank(nodes: seq<Node>, l: Link): nat {
    if l.To? && l.index < |nodes| then |nodes| - l.index else 0
  }

  /** The nodes reachable through `l`, each before its child's and then its
      sibling's: the order in which the walks push positions. */
  function Pre(nodes: seq<Node>, l: Link): (r: seq<nat>)
    requires Forward(nodes) && LinkIn(nodes, l)
    ensures forall x :: x in r ==> l.To? && l.index <= x < |nodes|
    ensures l.To? ==> |r| > 0 && r[0] == l.index
    decreases Rank(nodes, l)
  {
    match l
    case Null => []
    case To(i) => [i] + Pre(nodes, Edge(nodes, i, false)) + Pre(nodes, Edge(nodes, i, true))
  }

  /** The same nodes, each after its child's and its sibling's: the order in
      which `free_json` releases them. */
  function Post(nodes: seq<Node>, l: Link): (r: seq<nat>)
    requires Forward(nodes) && LinkIn(nodes, l)
    decreases Rank(nodes, l)
  {
    match l
    case Null => []
    case To(i) => Post(nodes, Edge(nodes, i, false)) + Post(nodes, Edge(nodes, i, true)) + [i]
  }

  function Size(nodes: seq<Node>, l: Link): nat
    requires Forward(nodes) && LinkIn(nodes, l)
  {
    |Pre(nodes, l)|
  }

  predicate NoDuplicates(s: seq<nat>) {
    forall i, j :: 0 <= i < j < |s| ==> s[i] != s[j]
  }

  /** A reachable node other than the start has a parent edge inside the walk. */
  lemma {:induction false} ParentIn(nodes: seq<Node>, l: Link, y: nat) returns (p: nat, k: bool)
    requires Forward(nodes) && LinkIn(nodes, l) && y in Pre(nodes, l) && y != l.index
    ensures p in Pre(nodes, l) && p < |nodes| && Edge(nodes, p, k) == To(y)
    decreases Rank(nodes, l)
  {
    var i := l.index;
    var c, s := Edge(nodes, i, false), Edge(nodes, i, true);
    if y in Pre(nodes, c) {
      if c == To(y) {
        p, k := i, false;
      } else {
        p, k := ParentIn(nodes, c, y);
      }
    } else {
      if s == To(y) {
        p, k := i, true;
      } else {
        p, k := ParentIn(nodes, s, y);
      }
    }
  }

  /** Two walks that share a node are nested: one starts inside the other. */
  lemma {:induction false} Subtrees(nodes: seq<Node>, a: Link, b: Link, x: nat)
    requires WellFormed(nodes) && LinkIn(nodes, a) && LinkIn(nodes, b)
    requires x in Pre(nodes, a) && x in Pre(nodes, b)
    ensures a.index in Pre(nodes, b) || b.index in Pre(nodes, a)
    decreases Rank(nodes, a)
  {
    var i := a.index;
    if x != i {
      var k := !(x in Pre(nodes, Edge(nodes, i, false)));
      var a' := Edge(nodes, i, k);
      Subtrees(nodes, a', b, x);
      if a'.index in Pre(nodes, b) && a'.index != b.index {
        var p, k' := ParentIn(nodes, b, a'.index);
      }
    }
  }

  /** On a well-formed arena every walk pushes each reachable node once. */
  lemma {:induction false} PreNoDuplicates(nodes: seq<Node>, l: Link)
    requires WellFormed(nodes) && LinkIn(nodes, l)
    ensures NoDuplicates(Pre(nodes, l))
    decreases Rank(nodes, l)
  {
    if l.To? {
      var i := l.index;
      var c, s := Edge(nodes, i, false), Edge(nodes, i, true);
      PreNoDuplicates(nodes, c);
      PreNoDuplicates(nodes, s);
      var pc, ps := Pre(nodes, c), Pre(nodes, s);
      forall x | x in pc && x in ps ensures false {
        Subtrees(nodes, c, s, x);
        if c.index in ps {
          var p, k := ParentIn(nodes, s, c.index);
        } else {
          var p, k := ParentIn(nodes, c, s.index);
        }
      }
      var r := [i] + pc + ps;
      forall m, n | 0 <= m < n < |r| ensures r[m] != r[n] {
        if m == 0 {
          assert r[n] in pc || r[n] in ps;
        } else if n <= |pc| {
          assert r[m] == pc[m - 1] && r[n] == pc[n - 1];
        } else if m > |pc| {
          assert r[m] == ps[m - 1 - |pc|] && r[n] == ps[n - 1 - |pc|];
        } else {
          assert r[m] in pc && r[n] in ps;
        }
      }
    }
  }

  /** The release order holds exactly the nodes of the push order. */
  lemma {:induction false} PostPermutesPre(nodes: seq<Node>, l: Link)
    requires Forward(nodes) && LinkIn(nodes, l)
    ensures multiset(Post(nodes, l)) == multiset(Pre(nodes, l))
    decreases Rank(nodes, l)
  {
    if l.To? {
      var c, s := Edge(nodes, l.index, false), Edge(nodes, l.index, true);
      PostPermutesPre(nodes, c);
      PostPermutesPre(nodes, s);
      assert Post(nodes, l) == Post(nodes, c) + Post(nodes, s) + [l.index];
      assert Pre(nodes, l) == [l.index] + Pre(nodes, c) + Pre(nodes, s);
      assert multiset(Post(nodes, l)) == multiset(Post(nodes, c)) + multiset(Post(nodes, s)) + multiset{l.index};
    }
  }

  /** `object_new` and `value_new` (json.c:120-145): a node with no name, no
      data and no links. */
  function NewNode(k: Kind): (n: Node)
    requires k != Untyped
    ensures KindOf(n) == k && Child(n) == Null && n.next == Null
  {
    match k
    case ObjectKind => Member(None, Null, Null)
    case ValueKind => Value(NoData, Null)
  }

  /** Node `n` after `seq_next_new` stores the new node `t`, of kind `k`, in its
      sibling pointer `next` or in its child pointer: a member's `value`, or a
      value's `object` (type 1) or `value` (type 2). */
  function Relink(n: Node, sibling: bool, t: nat, k: Kind): (r: Node)
    requires k != Untyped
    requires sibling ==> EdgeKind(n, true) == k
    requires !sibling && n.Member? ==> k == ValueKind
    ensures KindOf(r) == KindOf(n) && r.Member? == n.Member?
    ensures (if sibling then r.next else Child(r)) == To(t)
    ensures if sibling then Child(r) == Child(n) else r.next == n.next
    ensures EdgeKind(r, sibling) == k && EdgeKind(r, true) == EdgeKind(n, true)
  {
    if sibling then n.(next := To(t))
    else match n
      case Member(name, _, next) => Member(name, To(t), next)
      case Value(_, next) => Value(if k == ObjectKind then ObjectOf(To(t)) else Nested(To(t)), next)
  }

  /** A new unlinked node keeps the arena well formed. */
  lemma Grow(nodes: seq<Node>, k: Kind)
    requires WellFormed(nodes) && k != Untyped
    ensures WellFormed(nodes + [NewNode(k)])
  {
    var m := nodes + [NewNode(k)];
    assert forall i, s :: 0 <= i < |nodes| ==> Edge(m, i, s) == Edge(nodes, i, s);
  }

  /** The arena after `seq_next_new` has stored the fresh node `t` in pointer
      `sibling` of node `i`. */
  function Attached(nodes: seq<Node>, i: nat, sibling: bool, k: Kind): seq<Node>
    requires i < |nodes| && k != Untyped
    requires sibling ==> EdgeKind(nodes[i], true) == k
    requires !sibling && nodes[i].Member? ==> k == ValueKind
  {
    (nodes + [NewNode(k)])[i := Relink(nodes[i], sibling, |nodes|, k)]
  }

  /** Every edge of the attached arena but the new one is an edge of the grown
      arena, and that one leads to the new node. */
  lemma AttachEdges(nodes: seq<Node>, i: nat, sibling: bool, k: Kind)
    requires WellFormed(nodes) && i < |nodes| && k != Untyped
    requires sibling ==> EdgeKind(nodes[i], true) == k
    requires !sibling && nodes[i].Member? ==> k == ValueKind
    ensures var g := nodes + [NewNode(k)]; var m := Attached(nodes, i, sibling, k);
      && WellFormed(g)
      && (forall j, s :: 0 <= j < |m| && (j, s) != (i, sibling) ==> Edge(m, j, s) == Edge(g, j, s))
      && Edge(m, i, sibling) == To(|nodes|)
      && (forall j, s :: 0 <= j < |g| && Edge(g, j, s).To? ==> Edge(g, j, s).index < |nodes|)
  {
    Grow(nodes, k);
  }

  /** Storing a fresh node in one pointer keeps the arena well formed: the
      target had no other parent, and the old target loses its only one. */
  lemma Attach(nodes: seq<Node>, i: nat, sibling: bool, k: Kind)
    requires WellFormed(nodes) && i < |nodes| && k != Untyped
    requires sibling ==> EdgeKind(nodes[i], true) == k
    requires !sibling && nodes[i].Member? ==> k == ValueKind
    ensures WellFormed((nodes + [NewNode(k)])[i := Relink(nodes[i], sibling, |nodes|, k)])
  {
    var m := Attached(nodes, i, sibling, k);
    AttachEdges(nodes, i, sibling, k);
    assert Forward(m);
    assert Owned(m);
    assert Typed(m);
  }

  /** Storing a string in a value drops whatever its payload pointed to. */
  lemma StoreString(nodes: seq<Node>, i: nat, text: seq<byte>)
    requires WellFormed(nodes) && i < |nodes| && nodes[i].Value?
    ensures WellFormed(nodes[i := Value(Str(text), nodes[i].next)])
  {
    var m := nodes[i := Value(Str(text), nodes[i].next)];
    assert forall j, s :: 0 <= j < |m| && Edge(m, j, s).To? ==> Edge(m, j, s) == Edge(nodes, j, s);
  }

  /** Naming a member changes no edge. */
  lemma StoreName(nodes: seq<Node>, i: nat, name: seq<byte>)
    requires WellFormed(nodes) && i < |nodes| && nodes[i].Member?
    ensures WellFormed(nodes[i := nodes[i].(name := Some(name))])
  {
    var m := nodes[i := nodes[i].(name := Some(name))];
    assert forall j, s :: 0 <= j < |m| ==> Edge(m, j, s) == Edge(nodes, j, s);
  }

  /** The nodes allocated by one parse. */
  class Heap {
    var nodes: seq<Node>

    constructor ()
      ensures nodes == []
    {
      nodes := [];
    }

    /** `object_new` or `value_new`: allocates the next node. */
    method Alloc(k: Kind) returns (t: nat)
      requires k != Untyped
      modifies this
      ensures t == |old(nodes)| && nodes == old(nodes) + [NewNode(k)]
    {
      t := |nodes|;
      nodes := nodes + [NewNode(k)];
    }

    /** `value_str` (json.c:147-151): value `i` becomes the string `text`. */
    method ValueStr(i: nat, text: seq<byte>)
      requires i < |nodes| && nodes[i].Value?
      modifies this
      ensures nodes == old(nodes)[i := Value(Str(text), old(nodes)[i].next)]
    {
      nodes := nodes[i := Value(Str(text), nodes[i].next)];
    }

    /** `object_str` (json.c:131-134): member `i` is named `text`. */
    method ObjectStr(i: nat, text: seq<byte>)
      requires i < |nodes| && nodes[i].Member?
      modifies this
      ensures nodes == old(nodes)[i := old(nodes)[i].(name := Some(text))]
    {
      nodes := nodes[i := nodes[i].(name := Some(text))];
    }
  }
}
