/**
 * The two walks over a finished tree (json.c:627-747).  `print_json` and
 * `free_json` drive the cursor stack with the same three nested loops: follow
 * child edges while they lead somewhere, then try the sibling edge, and pop
 * when both are spent.  `print_json` writes a piece of text for every position
 * it pushes; `free_json` releases every position it pops.
 */
module Walk {
  import opened Basics
  import opened Tree
  import opened Cursor

  /** Undefined behaviour met by a walk. */
  datatype Fault =
    | RootWithoutPrev     // print_struct reads `A->prev->type` of a root value that has `next` (json.c:639)
    | UninitializedRoot   // free_json on an untyped root frees the never-set union of `json_start` (json.c:301-303)

  const True: seq<byte> := [0x74, 0x72, 0x75, 0x65]
  const False: seq<byte> := [0x66, 0x61, 0x6C, 0x73, 0x65]

  /** The text of a scalar payload: a string between quotes up to its first
      NUL, `true` or `false`.  Integers and doubles are written by `printf`
      conversions that are not part of this model, so they write nothing here. */
  function Scalar(p: Payload): (r: seq<byte>)
    ensures p.Str? ==> |r| >= 2 && r[0] == Quote && r[|r| - 1] == Quote
    ensures p.Str? ==> var inner := r[1..|r| - 1];
      && inner <= p.text && 0 !in inner && (|inner| < |p.text| ==> p.text[|inner|] == 0)
    ensures p.Boolean? ==> (r == True <==> p.flag != 0) && (r == False <==> p.flag == 0)
    ensures !p.Str? && !p.Boolean? ==> r == []
  {
    match p
    case Str(t) => [Quote] + CString(t) + [Quote]
    case Boolean(f) => if f != 0 then True else False
    case _ => []
  }

  /** What follows a scalar (json.c:656-667): a comma inside a `next` chain;
      at the end of one, a comma when the enclosing member has a successor, a
      brace when it has none, and a bracket under a value or at the root. */
  function Closing(nodes: seq<Node>, next: Link, prev: Option<nat>): (r: seq<byte>)
    requires prev.Some? ==> prev.value < |nodes|
    ensures |r| == 1 && r[0] in {Comma, CloseBrace, CloseBracket}
    ensures r == [Comma] <==> next.To? || (prev.Some? && nodes[prev.value].Member? && nodes[prev.value].next.To?)
  {
    if next.To? then [Comma]
    else match prev
      case None => [CloseBracket]
      case Some(q) =>
        if nodes[q].Member? then (if nodes[q].next.To? then [Comma] else [CloseBrace])
        else [CloseBracket]
  }

  /** The root value with a `next` is the one case in which `print_struct`
      follows the null `prev` of the root position. */
  predicate Faults(nodes: seq<Node>, i: nat, prev: Option<nat>)
    requires i < |nodes|
  {
    prev.None? && nodes[i].Value? && nodes[i].next.To?
  }

  /** `print_struct` (json.c:627-671) for a freshly pushed position on node
      `i` whose `prev` is the position on node `prev`.  Such a position's own
      `next` pointer is always null, so a member without a name writes `}`. */
  function PrintStruct(nodes: seq<Node>, i: nat, prev: Option<nat>): (r: seq<byte>)
    requires i < |nodes| && (prev.Some? ==> prev.value < |nodes|)
    requires !Faults(nodes, i, prev)
    ensures r != []
    ensures nodes[i].Member? ==> (r == [CloseBrace] <==> nodes[i].name.None?)
    ensures nodes[i].Member? && nodes[i].name.Some? ==> r == Scalar(Str(nodes[i].name.value)) + [Colon]
    ensures nodes[i].Value? ==>
      var piece := ValuePiece(nodes, nodes[i].payload, nodes[i].next, prev);
      && |piece| <= |r| <= |piece| + 1 && r[|r| - |piece|..] == piece
      && (|r| > |piece| <==> nodes[i].next.To? && nodes[prev.value].Member?)
      && (|r| > |piece| ==> r[0] == OpenBracket)
  {
    match nodes[i]
    case Member(name, _, _) =>
      if name.Some? then Scalar(Str(name.value)) + [Colon] else [CloseBrace]
    case Value(p, next) =>
      (if next.To? && nodes[prev.value].Member? then [OpenBracket] else []) + ValuePiece(nodes, p, next, prev)
  }

  /** The part of a value's piece after a possible `[`: the opening bracket
      of an object or array, or a scalar's text and what follows it. */
  function ValuePiece(nodes: seq<Node>, p: Payload, next: Link, prev: Option<nat>): (r: seq<byte>)
    requires prev.Some? ==> prev.value < |nodes|
    ensures p.ObjectOf? ==> r == [OpenBrace]
    ensures p.Nested? ==> r == [OpenBracket]
    ensures !p.ObjectOf? && !p.Nested? ==>
      |r| == |Scalar(p)| + 1 && r[..|Scalar(p)|] == Scalar(p) && r[|r| - 1] in {Comma, CloseBrace, CloseBracket}
  {
    match p
    case ObjectOf(_) => [OpenBrace]
    case Nested(_) => [OpenBracket]
    case _ => Scalar(p) + Closing(nodes, next, prev)
  }

  /** The text written for the walk through `l`, entered from node `parent`:
      each node's piece, then its child's text, then its sibling's. */
  function Out(nodes: seq<Node>, l: Link, parent: nat): seq<byte>
    requires Forward(nodes) && LinkIn(nodes, l) && (l.To? ==> parent < |nodes|)
    decreases Rank(nodes, l)
  {
    match l
    case Null => []
    case To(i) => PrintStruct(nodes, i, Some(parent)) + Out(nodes, Edge(nodes, i, false), i) + Out(nodes, Edge(nodes, i, true), i)
  }

  /** What is still to be written for one position: the edges it has not
      followed yet. */
  function Rem(nodes: seq<Node>, p: Position): seq<byte>
    requires Forward(nodes) && PosOk(nodes, p)
  {
    (if p.child then [] else Out(nodes, PosEdge(nodes, p, false), p.node))
    + (if p.sibling then [] else Out(nodes, PosEdge(nodes, p, true), p.node))
  }

  /** What is still to be written for a whole stack, top first. */
  function Pending(nodes: seq<Node>, stack: seq<Position>): seq<byte>
    requires Forward(nodes) && StackOk(nodes, stack)
  {
    if stack == [] then [] else Rem(nodes, Top(stack)) + Pending(nodes, stack[..|stack| - 1])
  }

  /** The nodes still to be pushed for one position, and for a whole stack. */
  function RemPre(nodes: seq<Node>, p: Position): seq<nat>
    requires Forward(nodes) && PosOk(nodes, p)
  {
    (if p.child then [] else Pre(nodes, PosEdge(nodes, p, false)))
    + (if p.sibling then [] else Pre(nodes, PosEdge(nodes, p, true)))
  }

  function PendingPre(nodes: seq<Node>, stack: seq<Position>): seq<nat>
    requires Forward(nodes) && StackOk(nodes, stack)
  {
    if stack == [] then [] else RemPre(nodes, Top(stack)) + PendingPre(nodes, stack[..|stack| - 1])
  }

  /** The nodes still to be released for one position, itself last, and for
      a whole stack. */
  function RemPost(nodes: seq<Node>, p: Position): seq<nat>
    requires Forward(nodes) && PosOk(nodes, p)
  {
    (if p.child then [] else Post(nodes, PosEdge(nodes, p, false)))
    + (if p.sibling then [] else Post(nodes, PosEdge(nodes, p, true)))
    + [p.node]
  }

  function PendingPost(nodes: seq<Node>, stack: seq<Position>): seq<nat>
    requires Forward(nodes) && StackOk(nodes, stack)
  {
    if stack == [] then [] else RemPost(nodes, Top(stack)) + PendingPost(nodes, stack[..|stack| - 1])
  }

  /** A bound on the `seq_next` and `seq_prev` calls still to come for one
      position: one for itself, and for each edge not yet tried, one for the
      attempt and three for every node behind it. */
  function Weight(nodes: seq<Node>, p: Position): nat
    requires Forward(nodes) && PosOk(nodes, p)
  {
    1 + (if p.child then 0 else 1 + 3 * Size(nodes, PosEdge(nodes, p, false)))
    + (if p.sibling then 0 else 1 + 3 * Size(nodes, PosEdge(nodes, p, true)))
  }

  function Measure(nodes: seq<Node>, stack: seq<Position>): nat
    requires Forward(nodes) && StackOk(nodes, stack)
  {
    if stack == [] then 0 else Weight(nodes, Top(stack)) + Measure(nodes, stack[..|stack| - 1])
  }

  /** A position no edge has been tried from. */
  function Unvisited(kind: Kind, i: nat): Position {
    Position(kind, i, false, false, false)
  }

  /** Marking the top and pushing the node behind the edge: the position
      below the new top is the marked old top. */
  lemma Pushed(nodes: seq<Node>, stack: seq<Position>, next: bool)
    requires WellFormed(nodes) && StackOk(nodes, stack) && stack != []
    requires NextOp(nodes, stack, next).ret == 0
    ensures var r := NextOp(nodes, stack, next);
      var m := Mark(stack, next);
      var t := Top(r.stack);
      && r.stack[..|r.stack| - 1] == m && m[..|m| - 1] == stack[..|stack| - 1]
      && t.kind != Untyped && t.node < |nodes| && Top(stack).kind != Untyped && Top(stack).node < |nodes|
      && PosEdge(nodes, Top(stack), next) == To(t.node)
      && PosEdge(nodes, t, false) == Edge(nodes, t.node, false) && PosEdge(nodes, t, true) == Edge(nodes, t.node, true)
      && !t.child && !t.sibling
      && !(if next then Top(stack).sibling else Top(stack).child)
  {
  }

  /** The top's remaining text, once the node behind one of its edges is
      pushed: that node's piece, its own remaining text, and the rest of the
      top's. */
  lemma SplitText(nodes: seq<Node>, top: Position, t: Position, next: bool)
    requires Forward(nodes) && PosOk(nodes, top) && PosOk(nodes, t)
    requires t.kind != Untyped && !t.child && !t.sibling && top.node < |nodes|
    requires PosEdge(nodes, top, next) == To(t.node)
    requires !(if next then top.sibling else top.child) && (next ==> top.child)
    ensures var marked := if next then top.(sibling := true) else top.(child := true);
      Rem(nodes, top) == PrintStruct(nodes, t.node, Some(top.node)) + Rem(nodes, t) + Rem(nodes, marked)
  {
    OutUnvisited(nodes, t, top.node);
    SplitEdge(nodes, top, t.node, next);
  }

  /** The top's remaining text is that behind the edge being followed, then
      what remains once that edge is marked. */
  lemma SplitEdge(nodes: seq<Node>, top: Position, i: nat, next: bool)
    requires Forward(nodes) && PosOk(nodes, top) && top.node < |nodes|
    requires PosEdge(nodes, top, next) == To(i)
    requires !(if next then top.sibling else top.child) && (next ==> top.child)
    ensures LinkIn(nodes, To(i))
    ensures var marked := if next then top.(sibling := true) else top.(child := true);
      PosOk(nodes, marked) && Rem(nodes, top) == Out(nodes, To(i), top.node) + Rem(nodes, marked)
  {
    var marked := if next then top.(sibling := true) else top.(child := true);
    var here := Out(nodes, To(i), top.node);
    if next {
      assert marked == top.(sibling := true);
      assert Rem(nodes, marked) == [];
      assert Rem(nodes, top) == here;
      assert here + [] == here;
    } else {
      var rest := if top.sibling then [] else Out(nodes, PosEdge(nodes, top, true), top.node);
      assert marked == top.(child := true);
      assert PosEdge(nodes, marked, true) == PosEdge(nodes, top, true);
      assert Rem(nodes, marked) == rest;
      assert Rem(nodes, top) == here + rest;
    }
  }

  /** The text behind an edge to a fresh position: its piece, then the text
      of both its edges. */
  lemma OutUnvisited(nodes: seq<Node>, t: Position, parent: nat)
    requires Forward(nodes) && PosOk(nodes, t) && parent < |nodes|
    requires t.kind != Untyped && !t.child && !t.sibling
    ensures LinkIn(nodes, To(t.node))
    ensures Out(nodes, To(t.node), parent) == PrintStruct(nodes, t.node, Some(parent)) + Rem(nodes, t)
  {
    assert PosEdge(nodes, t, false) == Edge(nodes, t.node, false) && PosEdge(nodes, t, true) == Edge(nodes, t.node, true);
  }

  /** The same split for the nodes still to be pushed. */
  lemma SplitPre(nodes: seq<Node>, top: Position, t: Position, next: bool)
    requires Forward(nodes) && PosOk(nodes, top) && PosOk(nodes, t)
    requires t.kind != Untyped && !t.child && !t.sibling && top.node < |nodes|
    requires PosEdge(nodes, top, next) == To(t.node)
    requires !(if next then top.sibling else top.child) && (next ==> top.child)
    ensures var marked := if next then top.(sibling := true) else top.(child := true);
      RemPre(nodes, top) == [t.node] + RemPre(nodes, t) + RemPre(nodes, marked)
  {
    var marked := if next then top.(sibling := true) else top.(child := true);
    assert PosEdge(nodes, t, false) == Edge(nodes, t.node, false) && PosEdge(nodes, t, true) == Edge(nodes, t.node, true);
    assert PosEdge(nodes, marked, !next) == PosEdge(nodes, top, !next);
    assert Pre(nodes, To(t.node)) == [t.node] + RemPre(nodes, t);
  }

  /** The same split for the nodes still to be released. */
  lemma SplitPost(nodes: seq<Node>, top: Position, t: Position, next: bool)
    requires Forward(nodes) && PosOk(nodes, top) && PosOk(nodes, t)
    requires t.kind != Untyped && !t.child && !t.sibling && top.node < |nodes|
    requires PosEdge(nodes, top, next) == To(t.node)
    requires !(if next then top.sibling else top.child) && (next ==> top.child)
    ensures var marked := if next then top.(sibling := true) else top.(child := true);
      RemPost(nodes, top) == RemPost(nodes, t) + RemPost(nodes, marked)
  {
    var marked := if next then top.(sibling := true) else top.(child := true);
    assert PosEdge(nodes, t, false) == Edge(nodes, t.node, false) && PosEdge(nodes, t, true) == Edge(nodes, t.node, true);
    assert PosEdge(nodes, marked, !next) == PosEdge(nodes, top, !next);
    assert Post(nodes, To(t.node)) == RemPost(nodes, t);
  }

  /** Pushing a position puts its remainders in front of the stack's: the
      text, the nodes still to be pushed and the nodes still to be released. */
  lemma AppendText(nodes: seq<Node>, m: seq<Position>, t: Position)
    requires Forward(nodes) && StackOk(nodes, m) && PosOk(nodes, t)
    ensures StackOk(nodes, m + [t])
    ensures Pending(nodes, m + [t]) == Rem(nodes, t) + Pending(nodes, m)
  {
    assert (m + [t])[..|m|] == m;
  }

  lemma AppendPre(nodes: seq<Node>, m: seq<Position>, t: Position)
    requires Forward(nodes) && StackOk(nodes, m) && PosOk(nodes, t)
    ensures StackOk(nodes, m + [t])
    ensures PendingPre(nodes, m + [t]) == RemPre(nodes, t) + PendingPre(nodes, m)
  {
    assert (m + [t])[..|m|] == m;
  }

  lemma AppendPost(nodes: seq<Node>, m: seq<Position>, t: Position)
    requires Forward(nodes) && StackOk(nodes, m) && PosOk(nodes, t)
    ensures StackOk(nodes, m + [t])
    ensures PendingPost(nodes, m + [t]) == RemPost(nodes, t) + PendingPost(nodes, m)
  {
    assert (m + [t])[..|m|] == m;
  }

  /** Replacing the top replaces its remainders, in each of the three. */
  lemma ReplaceText(nodes: seq<Node>, stack: seq<Position>, marked: Position)
    requires Forward(nodes) && stack != [] && StackOk(nodes, stack) && PosOk(nodes, marked)
    ensures StackOk(nodes, stack[|stack| - 1 := marked])
    ensures Pending(nodes, stack[|stack| - 1 := marked]) == Rem(nodes, marked) + Pending(nodes, stack[..|stack| - 1])
  {
    var m := stack[|stack| - 1 := marked];
    assert m[..|m| - 1] == stack[..|stack| - 1];
  }

  lemma ReplacePre(nodes: seq<Node>, stack: seq<Position>, marked: Position)
    requires Forward(nodes) && stack != [] && StackOk(nodes, stack) && PosOk(nodes, marked)
    ensures StackOk(nodes, stack[|stack| - 1 := marked])
    ensures PendingPre(nodes, stack[|stack| - 1 := marked]) == RemPre(nodes, marked) + PendingPre(nodes, stack[..|stack| - 1])
  {
    var m := stack[|stack| - 1 := marked];
    assert m[..|m| - 1] == stack[..|stack| - 1];
  }

  lemma ReplacePost(nodes: seq<Node>, stack: seq<Position>, marked: Position)
    requires Forward(nodes) && stack != [] && StackOk(nodes, stack) && PosOk(nodes, marked)
    ensures StackOk(nodes, stack[|stack| - 1 := marked])
    ensures PendingPost(nodes, stack[|stack| - 1 := marked]) == RemPost(nodes, marked) + PendingPost(nodes, stack[..|stack| - 1])
  {
    var m := stack[|stack| - 1 := marked];
    assert m[..|m| - 1] == stack[..|stack| - 1];
  }

  /** The conditions under which `seq_next` pushes `t` over the top's edge. */
  predicate PushesOver(nodes: seq<Node>, stack: seq<Position>, t: Position, next: bool)
    requires StackOk(nodes, stack) && stack != []
  {
    && PosOk(nodes, t) && t.kind != Untyped && !t.child && !t.sibling && Top(stack).node < |nodes|
    && PosEdge(nodes, Top(stack), next) == To(t.node)
    && !(if next then Top(stack).sibling else Top(stack).child) && (next ==> Top(stack).child)
  }

  /** After a push the text still to come starts with the pushed node's piece. */
  lemma PushText(nodes: seq<Node>, stack: seq<Position>, t: Position, next: bool)
    requires Forward(nodes) && StackOk(nodes, stack) && stack != [] && PushesOver(nodes, stack, t, next)
    ensures StackOk(nodes, Mark(stack, next) + [t])
    ensures Pending(nodes, stack) == PrintStruct(nodes, t.node, Some(Top(stack).node)) + Pending(nodes, Mark(stack, next) + [t])
  {
    var top := Top(stack);
    var marked := if next then top.(sibling := true) else top.(child := true);
    var m := Mark(stack, next);
    assert m == stack[|stack| - 1 := marked];
    SplitText(nodes, top, t, next);
    ReplaceText(nodes, stack, marked);
    AppendText(nodes, m, t);
    Regroup(PrintStruct(nodes, t.node, Some(top.node)), Rem(nodes, t), Rem(nodes, marked), Pending(nodes, stack[..|stack| - 1]),
      Rem(nodes, top), Pending(nodes, stack), Pending(nodes, m + [t]));
  }

  /** After a push the nodes still to be pushed start with the pushed one. */
  lemma PushPre(nodes: seq<Node>, stack: seq<Position>, t: Position, next: bool)
    requires Forward(nodes) && StackOk(nodes, stack) && stack != [] && PushesOver(nodes, stack, t, next)
    ensures StackOk(nodes, Mark(stack, next) + [t])
    ensures PendingPre(nodes, stack) == [t.node] + PendingPre(nodes, Mark(stack, next) + [t])
  {
    var top := Top(stack);
    var marked := if next then top.(sibling := true) else top.(child := true);
    var m := Mark(stack, next);
    assert m == stack[|stack| - 1 := marked];
    SplitPre(nodes, top, t, next);
    ReplacePre(nodes, stack, marked);
    AppendPre(nodes, m, t);
    Regroup([t.node], RemPre(nodes, t), RemPre(nodes, marked), PendingPre(nodes, stack[..|stack| - 1]),
      RemPre(nodes, top), PendingPre(nodes, stack), PendingPre(nodes, m + [t]));
  }

  /** A push releases nothing. */
  lemma PushPost(nodes: seq<Node>, stack: seq<Position>, t: Position, next: bool)
    requires Forward(nodes) && StackOk(nodes, stack) && stack != [] && PushesOver(nodes, stack, t, next)
    ensures StackOk(nodes, Mark(stack, next) + [t])
    ensures PendingPost(nodes, stack) == PendingPost(nodes, Mark(stack, next) + [t])
  {
    var top := Top(stack);
    var marked := if next then top.(sibling := true) else top.(child := true);
    var m := Mark(stack, next);
    assert m == stack[|stack| - 1 := marked];
    SplitPost(nodes, top, t, next);
    ReplacePost(nodes, stack, marked);
    AppendPost(nodes, m, t);
    Associate(RemPost(nodes, t), RemPost(nodes, marked), PendingPost(nodes, stack[..|stack| - 1]),
      RemPost(nodes, top), PendingPost(nodes, stack), PendingPost(nodes, m + [t]));
  }

  /** Writing the first piece of what remains keeps the whole in view. */
  lemma Advance<T>(text: seq<T>, piece: seq<T>, rest: seq<T>, before: seq<T>, total: seq<T>)
    requires text + before == total && before == piece + rest
    ensures (text + piece) + rest == total
  {
  }

  /** `x` split as `r + d` with `r == a + b + c` is `a` before `b + (c + d)`. */
  lemma Regroup<T>(a: seq<T>, b: seq<T>, c: seq<T>, d: seq<T>, r: seq<T>, x: seq<T>, y: seq<T>)
    requires x == r + d && r == a + b + c && y == b + (c + d)
    ensures x == a + y
  {
  }

  /** `x` split as `r + d` with `r == b + c` is `b + (c + d)`. */
  lemma Associate<T>(b: seq<T>, c: seq<T>, d: seq<T>, r: seq<T>, x: seq<T>, y: seq<T>)
    requires x == r + d && r == b + c && y == b + (c + d)
    ensures x == y
  {
  }

  /** A node counts itself and the nodes behind its two edges. */
  lemma SizeStep(nodes: seq<Node>, i: nat)
    requires Forward(nodes) && i < |nodes|
    ensures Size(nodes, To(i)) == 1 + Size(nodes, Edge(nodes, i, false)) + Size(nodes, Edge(nodes, i, true))
  {
    assert Pre(nodes, To(i)) == [i] + Pre(nodes, Edge(nodes, i, false)) + Pre(nodes, Edge(nodes, i, true));
  }

  /** A push spends one unit of the measure. */
  lemma PushMeasure(nodes: seq<Node>, stack: seq<Position>, next: bool)
    requires WellFormed(nodes) && StackOk(nodes, stack) && stack != []
    requires NextOp(nodes, stack, next).ret == 0
    ensures Measure(nodes, NextOp(nodes, stack, next).stack) < Measure(nodes, stack)
  {
    Pushed(nodes, stack, next);
    var r := NextOp(nodes, stack, next);
    var top, t, m := Top(stack), Top(r.stack), Mark(stack, next);
    var e := PosEdge(nodes, top, next);
    SizeStep(nodes, t.node);
    assert Weight(nodes, t) == 3 * Size(nodes, e);
    WeightMarked(nodes, top, next);
    MarkOk(nodes, stack, next);
    assert r.stack == m + [t];
    MeasureAppend(nodes, m, t);
    MeasureTop(nodes, m);
    MeasureTop(nodes, stack);
  }

  /** Marking the edge a push follows takes that edge's share off the weight. */
  lemma WeightMarked(nodes: seq<Node>, top: Position, next: bool)
    requires Forward(nodes) && PosOk(nodes, top) && !(if next then top.sibling else top.child)
    ensures var marked := if next then top.(sibling := true) else top.(child := true);
      PosOk(nodes, marked) && Weight(nodes, top) == Weight(nodes, marked) + 1 + 3 * Size(nodes, PosEdge(nodes, top, next))
  {
    var marked := if next then top.(sibling := true) else top.(child := true);
    assert PosEdge(nodes, marked, !next) == PosEdge(nodes, top, !next);
  }

  /** The measure of a stack with one more position on top. */
  lemma MeasureAppend(nodes: seq<Node>, m: seq<Position>, t: Position)
    requires Forward(nodes) && StackOk(nodes, m) && PosOk(nodes, t)
    ensures StackOk(nodes, m + [t]) && Measure(nodes, m + [t]) == Weight(nodes, t) + Measure(nodes, m)
  {
    assert (m + [t])[..|m|] == m;
  }

  /** The measure of a non-empty stack: its top's weight and the rest's. */
  lemma MeasureTop(nodes: seq<Node>, s: seq<Position>)
    requires Forward(nodes) && StackOk(nodes, s) && s != []
    ensures Measure(nodes, s) == Weight(nodes, Top(s)) + Measure(nodes, s[..|s| - 1])
  {
  }

  /** A `seq_next` that pushes nothing leaves everything still to come as it
      was and does not raise the measure. */
  lemma NoPush(nodes: seq<Node>, stack: seq<Position>, next: bool)
    requires WellFormed(nodes) && StackOk(nodes, stack) && stack != []
    requires NextOp(nodes, stack, next).ret != 0
    ensures var r := NextOp(nodes, stack, next);
      && Pending(nodes, r.stack) == Pending(nodes, stack)
      && PendingPre(nodes, r.stack) == PendingPre(nodes, stack)
      && PendingPost(nodes, r.stack) == PendingPost(nodes, stack)
      && Measure(nodes, r.stack) <= Measure(nodes, stack)
  {
    var r := NextOp(nodes, stack, next);
    if r.ret == 4 {
      var m := Mark(stack, next);
      assert m[..|m| - 1] == stack[..|stack| - 1];
      assert PosEdge(nodes, Top(stack), next) == Null;
      assert Rem(nodes, Top(m)) == Rem(nodes, Top(stack));
      assert RemPre(nodes, Top(m)) == RemPre(nodes, Top(stack));
      assert RemPost(nodes, Top(m)) == RemPost(nodes, Top(stack));
      assert Weight(nodes, Top(m)) < Weight(nodes, Top(stack));
    }
  }

  /** A `seq_next` that pushes nothing leaves the top's edge marked. */
  lemma NoPushMarks(nodes: seq<Node>, stack: seq<Position>, next: bool)
    requires WellFormed(nodes) && StackOk(nodes, stack) && stack != [] && (next ==> Top(stack).child)
    requires NextOp(nodes, stack, next).ret != 0
    ensures var r := NextOp(nodes, stack, next);
      r.stack != [] && Top(r.stack).child && (next ==> Top(r.stack).sibling)
  {
    var r := NextOp(nodes, stack, next);
    if r.ret == 4 {
      assert Top(r.stack) == Top(Mark(stack, next));
    }
  }

  /** Popping a position with both edges spent writes nothing, pushes
      nothing, releases that position's node and spends the measure. */
  lemma PopStep(nodes: seq<Node>, stack: seq<Position>)
    requires Forward(nodes) && StackOk(nodes, stack) && stack != []
    requires Top(stack).child && Top(stack).sibling
    ensures StackOk(nodes, stack[..|stack| - 1])
    ensures Pending(nodes, stack) == Pending(nodes, stack[..|stack| - 1])
    ensures PendingPre(nodes, stack) == PendingPre(nodes, stack[..|stack| - 1])
    ensures PendingPost(nodes, stack) == [Top(stack).node] + PendingPost(nodes, stack[..|stack| - 1])
    ensures Measure(nodes, stack[..|stack| - 1]) < Measure(nodes, stack)
  {
    var top := Top(stack);
    assert Rem(nodes, top) == [] && RemPre(nodes, top) == [] && RemPost(nodes, top) == [top.node];
  }

  /** One `seq_next` inside the walks, gathering the lemmas above. */
  lemma Steps(nodes: seq<Node>, stack: seq<Position>, next: bool)
    requires WellFormed(nodes) && StackOk(nodes, stack) && stack != [] && (next ==> Top(stack).child)
    ensures var r := NextOp(nodes, stack, next);
      if r.ret == 0 then
        Top(r.stack).node < |nodes| && Top(stack).node < |nodes| &&
        Pending(nodes, stack) == PrintStruct(nodes, Top(r.stack).node, Some(Top(stack).node)) + Pending(nodes, r.stack) &&
        PendingPre(nodes, stack) == [Top(r.stack).node] + PendingPre(nodes, r.stack) &&
        PendingPost(nodes, stack) == PendingPost(nodes, r.stack) &&
        Measure(nodes, r.stack) < Measure(nodes, stack)
      else
        Pending(nodes, r.stack) == Pending(nodes, stack) &&
        PendingPre(nodes, r.stack) == PendingPre(nodes, stack) &&
        PendingPost(nodes, r.stack) == PendingPost(nodes, stack) &&
        Measure(nodes, r.stack) <= Measure(nodes, stack)
  {
    if NextOp(nodes, stack, next).ret == 0 {
      Pushed(nodes, stack, next);
      var r := NextOp(nodes, stack, next);
      assert r.stack == Mark(stack, next) + [Top(r.stack)];
      PushText(nodes, stack, Top(r.stack), next);
      PushPre(nodes, stack, Top(r.stack), next);
      PushPost(nodes, stack, Top(r.stack), next);
      PushMeasure(nodes, stack, next);
    } else {
      NoPush(nodes, stack, next);
    }
  }

  /** A `seq_next` of `print_json` that pushes: the pushed node's piece,
      written under the position below it, begins the text still to come. */
  lemma PrintPush(nodes: seq<Node>, stack: seq<Position>, next: bool)
    requires WellFormed(nodes) && StackOk(nodes, stack) && stack != [] && (next ==> Top(stack).child)
    requires NextOp(nodes, stack, next).ret == 0
    ensures var r := NextOp(nodes, stack, next);
      && |r.stack| >= 2 && r.stack[|r.stack| - 2].node == Top(stack).node
      && Top(r.stack).node < |nodes| && Top(stack).node < |nodes|
      && Pending(nodes, stack) == PrintStruct(nodes, Top(r.stack).node, Some(Top(stack).node)) + Pending(nodes, r.stack)
      && PendingPre(nodes, stack) == [Top(r.stack).node] + PendingPre(nodes, r.stack)
      && Measure(nodes, r.stack) < Measure(nodes, stack)
  {
    Pushed(nodes, stack, next);
    var r := NextOp(nodes, stack, next);
    assert r.stack == Mark(stack, next) + [Top(r.stack)];
    assert r.stack[|r.stack| - 2] == Top(Mark(stack, next));
    PushText(nodes, stack, Top(r.stack), next);
    PushPre(nodes, stack, Top(r.stack), next);
    PushMeasure(nodes, stack, next);
  }

  /** What remains for the stack a walk starts from: the root's child and
      sibling walks, or nothing at all below an untyped root. */
  lemma RootPending(nodes: seq<Node>, a: Start)
    requires WellFormed(nodes) && StartOk(nodes, a)
    ensures StackOk(nodes, [Unvisited(a.kind, a.root)])
    ensures a.kind == Untyped ==> Pending(nodes, [Unvisited(a.kind, a.root)]) == []
    ensures a.kind != Untyped ==>
      && Pending(nodes, [Unvisited(a.kind, a.root)]) == Out(nodes, Edge(nodes, a.root, false), a.root) + Out(nodes, Edge(nodes, a.root, true), a.root)
      && [a.root] + PendingPre(nodes, [Unvisited(a.kind, a.root)]) == Pre(nodes, To(a.root))
      && PendingPost(nodes, [Unvisited(a.kind, a.root)]) == Post(nodes, To(a.root))
  {
    var u := Unvisited(a.kind, a.root);
    var s := [u];
    assert s[..0] == [];
    if a.kind != Untyped {
      assert PosEdge(nodes, u, false) == Edge(nodes, a.root, false);
      assert PosEdge(nodes, u, true) == Edge(nodes, a.root, true);
      RootText(nodes, u);
      RootPre(nodes, u);
      RootReleases(nodes, a);
      assert [a.root] + PendingPre(nodes, s) == Pre(nodes, To(a.root));
    }
  }

  /** What remains to be released from the stack `free_json` starts from:
      the whole tree under a typed root, in `Post` order. */
  lemma RootReleases(nodes: seq<Node>, a: Start)
    requires WellFormed(nodes) && StartOk(nodes, a) && a.kind != Untyped
    ensures StackOk(nodes, [Unvisited(a.kind, a.root)])
    ensures PendingPost(nodes, [Unvisited(a.kind, a.root)]) == Post(nodes, To(a.root))
  {
    var u := Unvisited(a.kind, a.root);
    assert PosEdge(nodes, u, false) == Edge(nodes, a.root, false);
    assert PosEdge(nodes, u, true) == Edge(nodes, a.root, true);
    RootPost(nodes, u);
  }

  /** The text still to be written for a single unvisited position. */
  lemma RootText(nodes: seq<Node>, u: Position)
    requires Forward(nodes) && StackOk(nodes, [u]) && PosOk(nodes, u) && !u.child && !u.sibling
    ensures Pending(nodes, [u]) == Out(nodes, PosEdge(nodes, u, false), u.node) + Out(nodes, PosEdge(nodes, u, true), u.node)
  {
    assert [u][..0] == [];
    assert Pending(nodes, [u]) == Rem(nodes, u) + [];
  }

  /** The nodes still to be pushed for a single unvisited position. */
  lemma RootPre(nodes: seq<Node>, u: Position)
    requires Forward(nodes) && StackOk(nodes, [u]) && PosOk(nodes, u) && !u.child && !u.sibling
    ensures PendingPre(nodes, [u]) == Pre(nodes, PosEdge(nodes, u, false)) + Pre(nodes, PosEdge(nodes, u, true))
  {
    assert [u][..0] == [];
    assert PendingPre(nodes, [u]) == RemPre(nodes, u) + [];
  }

  /** The nodes still to be released for a single unvisited position, itself last. */
  lemma RootPost(nodes: seq<Node>, u: Position)
    requires Forward(nodes) && StackOk(nodes, [u]) && PosOk(nodes, u) && !u.child && !u.sibling
    ensures PendingPost(nodes, [u]) == Post(nodes, PosEdge(nodes, u, false)) + Post(nodes, PosEdge(nodes, u, true)) + [u.node]
  {
    assert [u][..0] == [];
    assert PendingPost(nodes, [u]) == RemPost(nodes, u) + [];
  }

  /** The text `print_json` writes (json.c:673-712) for `a`, where `None` is
      a null `json_start`: an opening brace or bracket chosen by the root's
      type, the root's piece and the walk below it, and a line feed. */
  function Emit(nodes: seq<Node>, a: Option<Start>): (r: Result<seq<byte>, Fault>)
    requires Forward(nodes) && (a.Some? ==> StartOk(nodes, a.value))
  {
    match a
    case None => Success([Newline])
    case Some(Start(kind, root)) =>
      if kind == Untyped then Success([OpenBracket, Newline])
      else if Faults(nodes, root, None) then Failure(RootWithoutPrev)
      else
        var open := if kind == ObjectKind then OpenBrace else OpenBracket;
        Success([open] + PrintStruct(nodes, root, None)
                + Out(nodes, Edge(nodes, root, false), root) + Out(nodes, Edge(nodes, root, true), root)
                + [Newline])
  }

  /** What `print_json` writes before its loops, followed by all that remains
      for the root position and a line feed, is `Emit`. */
  lemma EmitsPending(nodes: seq<Node>, a: Start, text: seq<byte>)
    requires WellFormed(nodes) && StartOk(nodes, a)
    requires a.kind != Untyped ==> !Faults(nodes, a.root, None)
    requires text == [if a.kind == ObjectKind then OpenBrace else OpenBracket]
      + (if a.kind != Untyped then PrintStruct(nodes, a.root, None) else [])
    ensures Emit(nodes, Some(a)) == Success(text + Pending(nodes, [Unvisited(a.kind, a.root)]) + [Newline])
  {
    RootPending(nodes, a);
    var rest := Pending(nodes, [Unvisited(a.kind, a.root)]);
    if a.kind == Untyped {
      assert text + rest + [Newline] == [OpenBracket, Newline];
    } else {
      var open := if a.kind == ObjectKind then OpenBrace else OpenBracket;
      var piece := PrintStruct(nodes, a.root, None);
      var first := Out(nodes, Edge(nodes, a.root, false), a.root);
      var second := Out(nodes, Edge(nodes, a.root, true), a.root);
      assert text == [open] + piece;
      assert Emit(nodes, Some(a)) == Success(text + first + second + [Newline]);
      Reassociate(text, first, second, [Newline], rest);
    }
  }

  /** `t + f + s + n` with `f + s` taken as one piece. */
  lemma Reassociate<T>(t: seq<T>, f: seq<T>, s: seq<T>, n: seq<T>, fs: seq<T>)
    requires fs == f + s
    ensures t + f + s + n == t + fs + n
  {
  }


  /** One `seq_next` of `print_json` (json.c:697 and json.c:701), writing the
      piece of the position it pushes; it writes nothing when it pushes
      nothing. */
  method PrintStep(nodes: seq<Node>, c: Cursor, next: bool) returns (ret: nat, text: seq<byte>, ghost pushed: seq<nat>)
    requires WellFormed(nodes) && StackOk(nodes, c.stack) && c.stack != [] && (next ==> Top(c.stack).child)
    modifies c
    ensures StackOk(nodes, c.stack) && c.stack != []
    ensures ret != 0 ==> Top(c.stack).child && (next ==> Top(c.stack).sibling)
    ensures Pending(nodes, old(c.stack)) == text + Pending(nodes, c.stack)
    ensures PendingPre(nodes, old(c.stack)) == pushed + PendingPre(nodes, c.stack)
    ensures ret == 0 ==> Measure(nodes, c.stack) < Measure(nodes, old(c.stack))
    ensures Measure(nodes, c.stack) <= Measure(nodes, old(c.stack))
  {
    ghost var before := c.stack;
    ghost var r := NextOp(nodes, before, next);
    ret := c.Next(nodes, next);
    assert c.stack == r.stack && ret == r.ret;
    text, pushed := [], [];
    if ret == 0 {
      PrintPush(nodes, before, next);
      var node, parent := Top(c.stack).node, c.stack[|c.stack| - 2].node;
      assert parent == Top(before).node;
      text := PrintStruct(nodes, node, Some(parent));
      pushed := [node];
    } else {
      NoPush(nodes, before, next);
      NoPushMarks(nodes, before, next);
      assert Pending(nodes, before) == [] + Pending(nodes, r.stack);
      assert PendingPre(nodes, before) == [] + PendingPre(nodes, r.stack);
    }
  }

  /** The innermost loop of `print_json` (json.c:696-700): follow child
      edges, writing each position pushed, until `seq_next(…, 0)` fails. */
  method PrintChildren(nodes: seq<Node>, c: Cursor) returns (piece: seq<byte>, ghost pushed: seq<nat>)
    requires WellFormed(nodes) && StackOk(nodes, c.stack) && c.stack != []
    modifies c
    ensures StackOk(nodes, c.stack) && c.stack != [] && Top(c.stack).child
    ensures Pending(nodes, old(c.stack)) == piece + Pending(nodes, c.stack)
    ensures PendingPre(nodes, old(c.stack)) == pushed + PendingPre(nodes, c.stack)
    ensures Measure(nodes, c.stack) <= Measure(nodes, old(c.stack))
  {
    piece, pushed := [], [];
    ghost var total, order := Pending(nodes, c.stack), PendingPre(nodes, c.stack);
    var ret := 0;
    while ret == 0
      invariant StackOk(nodes, c.stack) && c.stack != []
      invariant ret != 0 ==> Top(c.stack).child
      invariant piece + Pending(nodes, c.stack) == total
      invariant pushed + PendingPre(nodes, c.stack) == order
      invariant Measure(nodes, c.stack) <= Measure(nodes, old(c.stack))
      decreases Measure(nodes, c.stack), if ret == 0 then 1 else 0
    {
      ghost var before := c.stack;
      var text;
      ghost var below;
      ret, text, below := PrintStep(nodes, c, false);
      Advance(piece, text, Pending(nodes, c.stack), Pending(nodes, before), total);
      Advance(pushed, below, PendingPre(nodes, c.stack), PendingPre(nodes, before), order);
      piece, pushed := piece + text, pushed + below;
    }
  }

  /** The middle loop of `print_json` (json.c:694-704): after the child
      edges, try the sibling edge, until both are spent at the top. */
  method PrintLevel(nodes: seq<Node>, c: Cursor) returns (piece: seq<byte>, ghost pushed: seq<nat>)
    requires WellFormed(nodes) && StackOk(nodes, c.stack) && c.stack != []
    modifies c
    ensures StackOk(nodes, c.stack) && c.stack != [] && Top(c.stack).child && Top(c.stack).sibling
    ensures Pending(nodes, old(c.stack)) == piece + Pending(nodes, c.stack)
    ensures PendingPre(nodes, old(c.stack)) == pushed + PendingPre(nodes, c.stack)
    ensures Measure(nodes, c.stack) <= Measure(nodes, old(c.stack))
  {
    piece, pushed := [], [];
    ghost var total, order := Pending(nodes, c.stack), PendingPre(nodes, c.stack);
    var ret1 := 0;
    while ret1 == 0
      invariant StackOk(nodes, c.stack) && c.stack != []
      invariant ret1 != 0 ==> Top(c.stack).child && Top(c.stack).sibling
      invariant piece + Pending(nodes, c.stack) == total
      invariant pushed + PendingPre(nodes, c.stack) == order
      invariant Measure(nodes, c.stack) <= Measure(nodes, old(c.stack))
      decreases Measure(nodes, c.stack), if ret1 == 0 then 1 else 0
    {
      ghost var entry := c.stack;
      var down, below := PrintChildren(nodes, c);
      Advance(piece, down, Pending(nodes, c.stack), Pending(nodes, entry), total);
      Advance(pushed, below, PendingPre(nodes, c.stack), PendingPre(nodes, entry), order);
      piece, pushed := piece + down, pushed + below;
      ghost var before := c.stack;
      var text;
      ghost var across;
      ret1, text, across := PrintStep(nodes, c, true);
      Advance(piece, text, Pending(nodes, c.stack), Pending(nodes, before), total);
      Advance(pushed, across, PendingPre(nodes, c.stack), PendingPre(nodes, before), order);
      piece, pushed := piece + text, pushed + across;
    }
  }

  /** `print_json` (json.c:673-712): the output is `Emit`, and the positions
      pushed are the nodes reachable from the root in `Pre` order, so every
      one of them is written exactly once (`PreNoDuplicates`). */
  method PrintJson(nodes: seq<Node>, a: Option<Start>) returns (out: Result<seq<byte>, Fault>, ghost pushed: seq<nat>)
    requires WellFormed(nodes) && (a.Some? ==> StartOk(nodes, a.value))
    ensures out == Emit(nodes, a)
    ensures a.Some? && a.value.kind != Untyped && out.Success? ==> pushed == Pre(nodes, To(a.value.root))
  {
    pushed := [];
    if a.None? {
      return Success([Newline]), pushed;
    }
    var start := a.value;
    var c := new Cursor.Root(start);
    var text: seq<byte>;
    if start.kind == ObjectKind {
      text := [OpenBrace];
    } else {
      text := [OpenBracket];
    }
    if start.kind != Untyped {
      if Faults(nodes, start.root, None) {
        return Failure(RootWithoutPrev), pushed;
      }
      text := text + PrintStruct(nodes, start.root, None);
      pushed := [start.root];
    }
    RootPending(nodes, start);
    assert c.stack == [Unvisited(start.kind, start.root)];
    ghost var total := text + Pending(nodes, c.stack);
    ghost var order := pushed + PendingPre(nodes, c.stack);
    EmitsPending(nodes, start, text);
    var ret2 := 0;
    while ret2 == 0
      invariant StackOk(nodes, c.stack)
      invariant ret2 == 0 <==> c.stack != []
      invariant text + Pending(nodes, c.stack) == total
      invariant pushed + PendingPre(nodes, c.stack) == order
      decreases Measure(nodes, c.stack)
    {
      ghost var entry := c.stack;
      var piece, below := PrintLevel(nodes, c);
      Advance(text, piece, Pending(nodes, c.stack), Pending(nodes, entry), total);
      Advance(pushed, below, PendingPre(nodes, c.stack), PendingPre(nodes, entry), order);
      text, pushed := text + piece, pushed + below;
      PopStep(nodes, c.stack);
      ret2 := c.Prev(Untyped);
    }
    assert text == total;
    out := Success(text + [Newline]);
  }

  /** The nodes `free_json` releases (json.c:714-747), in order; `None` is a
      null `json_start`, which releases nothing. */
  function Released(nodes: seq<Node>, a: Option<Start>): (r: Result<seq<nat>, Fault>)
    requires Forward(nodes) && (a.Some? ==> StartOk(nodes, a.value))
  {
    match a
    case None => Success([])
    case Some(Start(kind, root)) =>
      if kind == Untyped then Failure(UninitializedRoot) else Success(Post(nodes, To(root)))
  }

  /** The innermost loop of `free_json` (json.c:731-734): follow child
      edges until `seq_next(…, 0)` fails. */
  method FollowChildren(nodes: seq<Node>, c: Cursor)
    requires WellFormed(nodes) && StackOk(nodes, c.stack) && c.stack != []
    requires AllTyped(c.stack)
    modifies c
    ensures StackOk(nodes, c.stack) && c.stack != [] && Top(c.stack).child
    ensures AllTyped(c.stack)
    ensures PendingPost(nodes, c.stack) == PendingPost(nodes, old(c.stack))
    ensures Measure(nodes, c.stack) <= Measure(nodes, old(c.stack))
  {
    var ret := 0;
    while ret == 0
      invariant StackOk(nodes, c.stack) && c.stack != []
      invariant AllTyped(c.stack)
      invariant ret != 0 ==> Top(c.stack).child
      invariant PendingPost(nodes, c.stack) == PendingPost(nodes, old(c.stack))
      invariant Measure(nodes, c.stack) <= Measure(nodes, old(c.stack))
      decreases Measure(nodes, c.stack), if ret == 0 then 1 else 0
    {
      Steps(nodes, c.stack, false);
      StepTyped(nodes, c.stack, false);
      ret := c.Next(nodes, false);
    }
  }

  /** The middle loop of `free_json` (json.c:729-737): after the child edges,
      try the sibling edge, until both are spent at the top. */
  method SpendEdges(nodes: seq<Node>, c: Cursor)
    requires WellFormed(nodes) && StackOk(nodes, c.stack) && c.stack != []
    requires AllTyped(c.stack)
    modifies c
    ensures StackOk(nodes, c.stack) && c.stack != [] && Top(c.stack).child && Top(c.stack).sibling
    ensures AllTyped(c.stack)
    ensures PendingPost(nodes, c.stack) == PendingPost(nodes, old(c.stack))
    ensures Measure(nodes, c.stack) <= Measure(nodes, old(c.stack))
  {
    var ret1 := 0;
    while ret1 == 0
      invariant StackOk(nodes, c.stack) && c.stack != []
      invariant AllTyped(c.stack)
      invariant ret1 != 0 ==> Top(c.stack).child && Top(c.stack).sibling
      invariant PendingPost(nodes, c.stack) == PendingPost(nodes, old(c.stack))
      invariant Measure(nodes, c.stack) <= Measure(nodes, old(c.stack))
      decreases Measure(nodes, c.stack), if ret1 == 0 then 1 else 0
    {
      FollowChildren(nodes, c);
      Steps(nodes, c.stack, true);
      StepTyped(nodes, c.stack, true);
      ret1 := c.Next(nodes, true);
    }
  }

  /** `free_json` (json.c:714-747): the positions are released as they are
      popped, which is `Released`. */
  method FreeJson(nodes: seq<Node>, a: Option<Start>) returns (r: Result<seq<nat>, Fault>)
    requires WellFormed(nodes) && (a.Some? ==> StartOk(nodes, a.value))
    ensures r == Released(nodes, a)
  {
    if a.None? {
      return Success([]);
    }
    var start := a.value;
    if start.kind == Untyped {
      return Failure(UninitializedRoot);
    }
    var c := new Cursor.Root(start);
    var released: seq<nat> := [];
    RootReleases(nodes, start);
    ghost var order := PendingPost(nodes, c.stack);
    var ret2 := 0;
    while ret2 == 0
      invariant StackOk(nodes, c.stack)
      invariant AllTyped(c.stack)
      invariant ret2 == 0 <==> c.stack != []
      invariant released + PendingPost(nodes, c.stack) == order
      decreases Measure(nodes, c.stack)
    {
      SpendEdges(nodes, c);
      ghost var before := c.stack;
      PopStep(nodes, before);
      var freed;
      ret2, freed := c.PrevFree(Untyped);
      Advance(released, [freed.value], PendingPost(nodes, c.stack), PendingPost(nodes, before), order);
      released := released + [freed.value];
    }
    assert released == order;
    r := Success(released);
  }

  /** `free_json` releases every node reachable from the root exactly once:
      the release order is a permutation of the push order, which has no
      repeats. */
  lemma ReleasedOnce(nodes: seq<Node>, a: Start)
    requires WellFormed(nodes) && StartOk(nodes, a) && a.kind != Untyped
    ensures var r := Released(nodes, Some(a));
      r.Success? && multiset(r.value) == multiset(Pre(nodes, To(a.root))) && NoDuplicates(r.value)
  {
    PostPermutesPre(nodes, To(a.root));
    PreNoDuplicates(nodes, To(a.root));
    PermutedDistinct(Pre(nodes, To(a.root)), Post(nodes, To(a.root)));
  }

  /** A permutation of a sequence without repeats has none either. */
  lemma PermutedDistinct(s: seq<nat>, t: seq<nat>)
    requires NoDuplicates(s) && multiset(t) == multiset(s)
    ensures NoDuplicates(t)
  {
    forall i, j | 0 <= i < j < |t| ensures t[i] != t[j] {
      if t[i] == t[j] {
        Repeated(t, i, j);
        assert t[i] in multiset(s);
        var k :| 0 <= k < |s| && s[k] == t[i];
        CountOnce(s, k);
        assert false;
      }
    }
  }

  /** An element found at two indices is counted at least twice. */
  lemma Repeated(s: seq<nat>, i: nat, j: nat)
    requires i < j < |s| && s[i] == s[j]
    ensures multiset(s)[s[i]] >= 2
  {
    var x := s[i];
    var a, b, c := s[..i], s[i + 1..j], s[j + 1..];
    assert s == a + [x] + b + [x] + c;
    assert multiset(s) == multiset(a) + multiset([x]) + multiset(b) + multiset([x]) + multiset(c);
  }

  /** A sequence without repeats holds each of its elements once. */
  lemma CountOnce(s: seq<nat>, k: nat)
    requires NoDuplicates(s) && k < |s|
    ensures multiset(s)[s[k]] == 1
  {
    assert s == s[..k] + [s[k]] + s[k + 1..];
    assert s[k] !in s[..k] && s[k] !in s[k + 1..];
    assert multiset(s[..k])[s[k]] == 0 && multiset(s[k + 1..])[s[k]] == 0;
  }
}
