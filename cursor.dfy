/**
 * The cursor stack of json.c (lines 49-57 and 153-314): `struct sequence` is
 * a doubly linked list of positions from the root to the node being worked
 * on.  Here the list is a sequence whose last element is the top (`*seq`);
 * `prev` is the element below it.  The nodes the positions point into are the
 * arena of the `Tree` module.
 */
module Cursor {
  import opened Basics
  import opened Tree

  /** One `struct sequence`: its `type`, the node in its union, the two
      `visited` bits (0x1 for the child edge, 0x2 for the sibling edge) and the
      `array` marker. */
  datatype Position = Position(kind: Kind, node: nat, child: bool, sibling: bool, inArray: bool)

  /** A typed position points at a node of its own type. */
  predicate PosOk(nodes: seq<Node>, p: Position) {
    p.kind != Untyped ==> p.node < |nodes| && KindOf(nodes[p.node]) == p.kind
  }

  predicate StackOk(nodes: seq<Node>, stack: seq<Position>) {
    forall i :: 0 <= i < |stack| ==> PosOk(nodes, stack[i])
  }

  function Top(stack: seq<Position>): Position
    requires stack != []
  {
    stack[|stack| - 1]
  }

  /** The edge `seq_next` reads from a position: an untyped one reads none. */
  function PosEdge(nodes: seq<Node>, p: Position, sibling: bool): (l: Link)
    requires PosOk(nodes, p)
    ensures l.To? ==> p.kind != Untyped && l == Edge(nodes, p.node, sibling)
    ensures Forward(nodes) ==> LinkIn(nodes, l)
  {
    if p.kind == Untyped then Null else Edge(nodes, p.node, sibling)
  }

  /** The position `seq_next_new` pushes for a new node `t`: `array` is set
      exactly for a value that follows another value. */
  function Fresh(kind: Kind, t: nat, next: bool): (p: Position)
    ensures p.kind == kind && p.node == t && !p.child && !p.sibling
    ensures p.inArray <==> kind == ValueKind && next
  {
    Position(kind, t, false, false, kind == ValueKind && next)
  }

  /** The result of `seq_next_new` under a top of kind `top`: 3 for an object
      after a value, 4 for an object in a member's value slot, 6 for a value
      after an object, and 0 when the new node can be linked. */
  function LinkCode(top: Kind, kind: Kind, next: bool): (ret: nat)
    requires top != Untyped && kind != Untyped
    ensures ret in {0, 3, 4, 6}
    ensures ret == 0 <==> (if next then top == kind else kind == ValueKind || top == ValueKind)
  {
    match kind
    case ObjectKind =>
      if next then (if top == ObjectKind then 0 else 3)
      else (if top == ValueKind then 0 else 4)
    case ValueKind =>
      if next then (if top == ValueKind then 0 else 6)
      else 0
  }

  /** The stack with the top's child (`sibling == false`) or sibling bit set. */
  function Mark(stack: seq<Position>, sibling: bool): (r: seq<Position>)
    requires stack != []
    ensures |r| == |stack| && r[..|r| - 1] == stack[..|stack| - 1]
    ensures Top(r) == if sibling then Top(stack).(sibling := true) else Top(stack).(child := true)
  {
    stack[|stack| - 1 := if sibling then Top(stack).(sibling := true) else Top(stack).(child := true)]
  }

  /** Marking a bit changes neither the kind nor the node of any position. */
  lemma MarkOk(nodes: seq<Node>, stack: seq<Position>, sibling: bool)
    requires stack != [] && StackOk(nodes, stack)
    ensures StackOk(nodes, Mark(stack, sibling))
  {
    var r := Mark(stack, sibling);
    assert forall i :: 0 <= i < |r| - 1 ==> r[i] == stack[i];
  }

  /** What `seq_next_new` leaves behind: the arena, the stack and its code. */
  datatype Linked = Linked(nodes: seq<Node>, stack: seq<Position>, ret: nat)

  /** `seq_next_new` (json.c:164-218) on values: a node of kind `kind` is
      allocated and, unless the code says otherwise, stored in the top's `next`
      (`next` set) or child slot and pushed.  On an error the top does not
      move and the new node stays unlinked; on an empty stack the node
      becomes the only position and nothing is linked. */
  function NextNewOp(nodes: seq<Node>, stack: seq<Position>, kind: Kind, next: bool): (r: Linked)
    requires kind != Untyped && WellFormed(nodes) && StackOk(nodes, stack)
    requires stack != [] ==> Top(stack).kind != Untyped
    ensures WellFormed(r.nodes) && StackOk(r.nodes, r.stack) && r.stack != []
    ensures |r.nodes| == |nodes| + 1 && r.nodes[|nodes|] == NewNode(kind)
    ensures forall j :: 0 <= j < |nodes| ==> KindOf(r.nodes[j]) == KindOf(nodes[j])
    ensures stack == [] ==> r.ret == 0
    ensures stack != [] ==> r.ret == LinkCode(Top(stack).kind, kind, next)
    ensures r.ret != 0 ==> r.stack == stack && r.nodes == nodes + [NewNode(kind)]
    ensures r.ret == 0 ==> r.stack == stack + [Fresh(kind, |nodes|, next)]
    ensures r.ret == 0 && stack != [] ==>
      r.nodes == (nodes + [NewNode(kind)])[Top(stack).node := Relink(nodes[Top(stack).node], next, |nodes|, kind)]
    ensures r.ret == 0 && stack != [] ==> Edge(r.nodes, Top(stack).node, next) == To(|nodes|)
    ensures forall j, s :: 0 <= j < |nodes| && Edge(r.nodes, j, s) != Edge(nodes, j, s) ==>
      r.ret == 0 && stack != [] && j == Top(stack).node && s == next
  {
    var t := |nodes|;
    var grown := nodes + [NewNode(kind)];
    Grow(nodes, kind);
    assert forall j, s :: 0 <= j < |nodes| ==> Edge(grown, j, s) == Edge(nodes, j, s);
    if stack == [] then Linked(grown, [Fresh(kind, t, next)], 0)
    else
      var i := Top(stack).node;
      var ret := LinkCode(Top(stack).kind, kind, next);
      if ret != 0 then Linked(grown, stack, ret)
      else
        Attach(nodes, i, next, kind);
        var linked := grown[i := Relink(nodes[i], next, t, kind)];
        assert forall j, s :: 0 <= j < |nodes| && (j, s) != (i, next) ==> Edge(linked, j, s) == Edge(nodes, j, s);
        Linked(linked, stack + [Fresh(kind, t, next)], 0)
  }

  /** What `seq_next` and `seq_prev` leave behind: the stack and the code. */
  datatype Moved = Moved(stack: seq<Position>, ret: nat)

  /** `seq_next` (json.c:220-271) on values: follows the top's child edge
      (`next` unset) or sibling edge at most once.  A repeated attempt returns
      2 or 1, a missing target returns 4 with the bit still set, an empty stack
      returns 5; only 0 pushes, and the pushed position has the type of the
      pointer it came through. */
  function NextOp(nodes: seq<Node>, stack: seq<Position>, next: bool): (r: Moved)
    requires WellFormed(nodes) && StackOk(nodes, stack)
    ensures StackOk(nodes, r.stack)
    ensures |stack| <= |r.stack| <= |stack| + 1
    ensures r.ret == 5 <==> stack == []
    ensures r.ret in {0, 1, 2, 4, 5}
    ensures r.ret in {1, 2, 5} ==> r.stack == stack
    ensures stack != [] && (if next then Top(stack).sibling else Top(stack).child) ==>
      r.ret == (if next then 1 else 2)
    ensures stack != [] && !(if next then Top(stack).sibling else Top(stack).child) ==>
      r.ret == (if PosEdge(nodes, Top(stack), next).To? then 0 else 4) &&
      r.stack[..|stack|] == Mark(stack, next)
    ensures r.ret == 4 ==> r.stack == Mark(stack, next)
    ensures r.ret == 0 <==> |r.stack| == |stack| + 1
    ensures r.ret == 0 ==>
      var e := PosEdge(nodes, Top(stack), next);
      e.To? && Top(r.stack) == Position(EdgeKind(nodes[Top(stack).node], next), e.index, false, false, false)
  {
    if stack == [] then Moved(stack, 5)
    else
      var top := Top(stack);
      if (if next then top.sibling else top.child) then Moved(stack, if next then 1 else 2)
      else
        var e := PosEdge(nodes, top, next);
        MarkOk(nodes, stack, next);
        if e.To? then
          var pushed := Mark(stack, next) + [Position(EdgeKind(nodes[top.node], next), e.index, false, false, false)];
          assert pushed[..|stack|] == Mark(stack, next);
          Moved(pushed, 0)
        else Moved(Mark(stack, next), 4)
  }

  /** `seq_prev` (json.c:273-287) on values: pops exactly the top, unless
      `kind` is given and differs from the top's type (1) or the stack is
      already empty (3); 2 says the pop emptied the stack. */
  function PrevOp(stack: seq<Position>, kind: Kind): (r: Moved)
    ensures r.stack <= stack && |stack| - 1 <= |r.stack|
    ensures r.ret in {0, 1, 2, 3}
    ensures r.ret == 3 <==> stack == []
    ensures r.ret == 1 <==> stack != [] && kind != Untyped && Top(stack).kind != kind
    ensures r.ret == 0 || r.ret == 2 <==> |r.stack| == |stack| - 1
    ensures r.ret == 2 <==> |r.stack| == |stack| - 1 && r.stack == []
  {
    if stack == [] then Moved(stack, 3)
    else if kind != Untyped && Top(stack).kind != kind then Moved(stack, 1)
    else
      var rest := stack[..|stack| - 1];
      Moved(rest, if rest == [] then 2 else 0)
  }

  /** Popping keeps the rest of the stack well typed. */
  lemma PopOk(nodes: seq<Node>, stack: seq<Position>, kind: Kind)
    requires StackOk(nodes, stack)
    ensures StackOk(nodes, PrevOp(stack, kind).stack)
  {
    var r := PrevOp(stack, kind).stack;
    assert forall i :: 0 <= i < |r| ==> r[i] == stack[i];
  }

  /** Every position on the stack has a type: `seq_prev_free` reads the node
      through the union member the type names, and `seq_next_new` the top. */
  predicate AllTyped(stack: seq<Position>) {
    forall i :: 0 <= i < |stack| ==> stack[i].kind != Untyped
  }

  /** `seq_next` pushes only typed positions. */
  lemma StepTyped(nodes: seq<Node>, stack: seq<Position>, next: bool)
    requires WellFormed(nodes) && StackOk(nodes, stack) && AllTyped(stack)
    ensures AllTyped(NextOp(nodes, stack, next).stack)
  {
    var r := NextOp(nodes, stack, next);
    if stack != [] && r.ret in {0, 4} {
      var m := Mark(stack, next);
      assert forall i :: 0 <= i < |m| ==> m[i].kind == stack[i].kind by {
        assert m[..|m| - 1] == stack[..|stack| - 1];
      }
      assert r.stack[..|stack|] == m;
    }
  }

  class Cursor {
    var stack: seq<Position>

    /** `read_sequence = 0`. */
    constructor ()
      ensures stack == []
    {
      stack := [];
    }

    /** The root position of `print_json` and `free_json` (json.c:677-688,
        718-724): the type and the pointer of `json_start`, nothing visited. */
    constructor Root(a: Start)
      ensures stack == [Position(a.kind, a.root, false, false, false)]
    {
      stack := [Position(a.kind, a.root, false, false, false)];
    }

    /** `seq_next_new` (json.c:164-218), updating the arena and the stack in place. */
    method NextNew(h: Heap, kind: Kind, next: bool) returns (ret: nat)
      requires kind != Untyped && WellFormed(h.nodes) && StackOk(h.nodes, stack)
      requires stack != [] ==> Top(stack).kind != Untyped
      modifies this, h
      ensures Linked(h.nodes, stack, ret) == NextNewOp(old(h.nodes), old(stack), kind, next)
    {
      var t := h.Alloc(kind);
      ret := 0;
      if stack != [] {
        var top := Top(stack);
        var i := top.node;
        if kind == ObjectKind {
          if next {
            if top.kind == ObjectKind {
              h.nodes := h.nodes[i := Relink(h.nodes[i], true, t, kind)];
            } else {
              ret := 3;
            }
          } else {
            if top.kind == ValueKind {
              h.nodes := h.nodes[i := Relink(h.nodes[i], false, t, kind)];
            } else {
              ret := 4;
            }
          }
        } else {
          if next {
            if top.kind == ValueKind {
              h.nodes := h.nodes[i := Relink(h.nodes[i], true, t, kind)];
            } else {
              ret := 6;
            }
          } else {
            h.nodes := h.nodes[i := Relink(h.nodes[i], false, t, kind)];
          }
        }
      }
      if ret == 0 {
        stack := stack + [Fresh(kind, t, next)];
      }
    }

    /** `seq_next` (json.c:220-271), setting the visited bit in place. */
    method Next(nodes: seq<Node>, next: bool) returns (ret: nat)
      requires WellFormed(nodes) && StackOk(nodes, stack)
      modifies this
      ensures Moved(stack, ret) == NextOp(nodes, old(stack), next)
    {
      if stack == [] {
        return 5;
      }
      var top := Top(stack);
      if next {
        if top.sibling {
          return 1;
        }
        stack := stack[|stack| - 1 := top.(sibling := true)];
      } else {
        if top.child {
          return 2;
        }
        stack := stack[|stack| - 1 := top.(child := true)];
      }
      var e := PosEdge(nodes, top, next);
      if e.To? {
        stack := stack + [Position(EdgeKind(nodes[top.node], next), e.index, false, false, false)];
        ret := 0;
      } else {
        ret := 4;
      }
    }

    /** `seq_prev` (json.c:273-287). */
    method Prev(kind: Kind) returns (ret: nat)
      modifies this
      ensures Moved(stack, ret) == PrevOp(old(stack), kind)
    {
      if stack == [] {
        return 3;
      }
      if kind != Untyped && Top(stack).kind != kind {
        return 1;
      }
      stack := stack[..|stack| - 1];
      ret := if stack == [] then 2 else 0;
    }

    /** `seq_prev_free` (json.c:289-314): `seq_prev` that also releases the
        popped position's node, returned in `released`.  The node is read
        through the union member of the position's type, so the top must not
        be untyped. */
    method PrevFree(kind: Kind) returns (ret: nat, released: Option<nat>)
      requires stack != [] ==> Top(stack).kind != Untyped
      modifies this
      ensures Moved(stack, ret) == PrevOp(old(stack), kind)
      ensures released == if ret in {0, 2} then Some(Top(old(stack)).node) else None
    {
      if stack == [] {
        return 3, None;
      }
      var top := Top(stack);
      if kind != Untyped && top.kind != kind {
        return 1, None;
      }
      stack := stack[..|stack| - 1];
      released := Some(top.node);
      ret := if stack == [] then 2 else 0;
    }
  }
}
