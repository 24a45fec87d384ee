/**
 * `read_json` (json.c:325-622) as a machine over the input bytes.  Its state
 * is the arena, the cursor stack, the `json_start`, the token being
 * accumulated with `end_whitespace`, the flags `quotes` and `value`, the
 * escape decoder and whether a diagnostic was printed.  The structural bytes
 * `{ } [ ] : ,` outside quotes drive the cursor (json.c:492-593); the rest
 * goes into the token.  The line and column counters are left out: they
 * only feed the diagnostics.
 */
module Reader {
  import opened Basics
  import opened Tree
  import opened Cursor
  import Token
  import Escape

  /** Undefined behaviour met while reading. */
  datatype Fault =
    | NullCursor    // `read_sequence->…` on an empty stack (json.c:504, 529, 538, 558, 576)
    | UnionMisread  // `read_sequence->value` of an object position, or `->object` of a value position
    | Spin          // `while(read_sequence->visited) seq_prev(…)` on a top of the other type never ends

  datatype Machine = Machine(
    nodes: seq<Node>,
    stack: seq<Position>,
    start: Start,
    token: Token.Pending,
    quotes: bool,
    esc: Escape.State,
    value: bool,
    errorSeen: bool)

  /** No escape under way.  `char_buf` starts out unset in the source; every
      slot an escape reads is written by that escape first. */
  const NoEscape := Escape.State(false, 0, 0, 0, [0, 0, 0, 0, 0, 0, 0, 0])

  /** The state before the first byte (json.c:326-345). */
  const Initial := Machine([], [], Start(Untyped, 0), Token.Empty, false, NoEscape, false, false)

  /** The arena is a tree, the stack walks it with typed positions, the root
      is set exactly once the stack has been used, the trailing run is a
      run of whitespace, and inside quotes or an escape nothing is counted
      as trailing. */
  predicate Valid(m: Machine) {
    && WellFormed(m.nodes) && StackOk(m.nodes, m.stack) && AllTyped(m.stack)
    && StartOk(m.nodes, m.start) && (m.start.kind == Untyped ==> m.stack == [])
    && Token.Valid(m.token) && Escape.Valid(m.esc)
    && (m.quotes || m.esc.escape ==> m.token.trailing == 0)
  }

  lemma InitialValid()
    ensures Valid(Initial)
  {
  }

  /** `seq_next_new(&read_sequence, kind, next)`, its code ignored. */
  function Push(m: Machine, kind: Kind, next: bool): (r: Machine)
    requires Valid(m) && kind != Untyped
    ensures WellFormed(r.nodes) && StackOk(r.nodes, r.stack) && AllTyped(r.stack) && r.stack != []
    ensures StartOk(r.nodes, r.start)
    ensures m.start.kind != Untyped ==> Valid(r)
    ensures m.stack == [] ==> Top(r.stack) == Fresh(kind, |m.nodes|, next) && KindOf(r.nodes[|m.nodes|]) == kind
  {
    var l := NextNewOp(m.nodes, m.stack, kind, next);
    assert forall i :: 0 <= i < |l.stack| ==> l.stack[i].kind != Untyped by {
      if l.ret == 0 {
        assert forall i :: 0 <= i < |m.stack| ==> l.stack[i] == m.stack[i];
      }
    }
    m.(nodes := l.nodes, stack := l.stack)
  }

  /** The first structural byte creates the root and records it in
      `json_start` (json.c:494-497, 524-527, 553-556, 569-572). */
  function PushRoot(m: Machine, kind: Kind): (r: Machine)
    requires Valid(m) && m.start.kind == Untyped && kind != Untyped
    ensures Valid(r) && r.start == Start(kind, |m.nodes|) && r.stack == [Fresh(kind, |m.nodes|, false)]
  {
    var p := Push(m, kind, false);
    p.(start := Start(kind, Top(p.stack).node))
  }

  /** Rewrites the flags of the top position. */
  function SetTop(m: Machine, p: Position): (r: Machine)
    requires Valid(m) && m.stack != [] && p.kind == Top(m.stack).kind && p.node == Top(m.stack).node
    ensures Valid(r) && r.stack != [] && Top(r.stack) == p && |r.stack| == |m.stack|
  {
    m.(stack := m.stack[|m.stack| - 1 := p])
  }

  /** `seq_prev(&read_sequence, kind)`, its code ignored. */
  function Pop(m: Machine, kind: Kind): (r: Machine)
    requires Valid(m)
    ensures Valid(r) && r.stack <= m.stack && r.(stack := m.stack) == m
  {
    PopOk(m.nodes, m.stack, kind);
    m.(stack := PrevOp(m.stack, kind).stack)
  }

  /** `value_str(read_sequence->value, str_value_p, end_whitespace)`
      (json.c:147-151): the top value becomes the string of the token without
      its trailing run, NUL-terminated. */
  function AssignString(m: Machine): (r: Machine)
    requires Valid(m) && m.stack != [] && m.nodes[Top(m.stack).node].Value?
    ensures Valid(r) && r.(nodes := m.nodes) == m && |r.nodes| == |m.nodes|
    ensures r.nodes[Top(m.stack).node] == Value(Str(Token.Flush(m.token) + [0]), m.nodes[Top(m.stack).node].next)
    ensures forall j :: 0 <= j < |m.nodes| && j != Top(m.stack).node ==> r.nodes[j] == m.nodes[j]
  {
    var i := Top(m.stack).node;
    var nodes := m.nodes[i := Value(Str(Token.Flush(m.token) + [0]), m.nodes[i].next)];
    StoreString(m.nodes, i, Token.Flush(m.token) + [0]);
    m.(nodes := nodes)
  }

  /** `object_str(read_sequence->object, str_value_p, end_whitespace)`
      (json.c:131-134): the top member is named by the token. */
  function AssignName(m: Machine): (r: Machine)
    requires Valid(m) && m.stack != [] && m.nodes[Top(m.stack).node].Member?
    ensures Valid(r) && r.(nodes := m.nodes) == m && |r.nodes| == |m.nodes|
    ensures r.nodes[Top(m.stack).node] == m.nodes[Top(m.stack).node].(name := Some(Token.Flush(m.token) + [0]))
    ensures forall j :: 0 <= j < |m.nodes| && j != Top(m.stack).node ==> r.nodes[j] == m.nodes[j]
  {
    var i := Top(m.stack).node;
    StoreName(m.nodes, i, Token.Flush(m.token) + [0]);
    m.(nodes := m.nodes[i := m.nodes[i].(name := Some(Token.Flush(m.token) + [0]))])
  }

  /** `buff_delete(str_value_p, &str_value); end_whitespace = 0`. */
  function Clear(m: Machine): (r: Machine)
    requires Valid(m)
    ensures Valid(r) && r.token == Token.Empty
  {
    m.(token := Token.Empty)
  }

  /** Cutting the stack back to a prefix keeps the machine valid. */
  lemma PrefixValid(m: Machine, s: seq<Position>)
    requires Valid(m) && s <= m.stack
    ensures Valid(m.(stack := s))
  {
    assert forall i :: 0 <= i < |s| ==> s[i] == m.stack[i];
  }

  /** `while(read_sequence->visited) ret = seq_prev(&read_sequence, kind)`
      (json.c:520, 549): pops positions marked by a comma. */
  function PopVisited(stack: seq<Position>, kind: Kind): (r: Result<seq<Position>, Fault>)
    ensures r.Success? ==> r.value <= stack && r.value != [] && !Top(r.value).child && !Top(r.value).sibling
    ensures r.Failure? ==> r.error != UnionMisread
    decreases |stack|
  {
    if stack == [] then Failure(NullCursor)
    else if !Top(stack).child && !Top(stack).sibling then Success(stack)
    else if PrevOp(stack, kind).ret == 1 then Failure(Spin)
    else
      match PopVisited(PrevOp(stack, kind).stack, kind)
      case Failure(f) => Failure(f)
      case Success(s) => Success(s)
  }

  /** `{` (json.c:492-502): a new member, as root or under the top. */
  function OpenObject(m: Machine): (r: Machine)
    requires Valid(m)
    ensures Valid(r) && r.token == Token.Empty && !r.value
  {
    var m1 := m.(value := false);
    var m2 := if m.start.kind == Untyped then PushRoot(m1, ObjectKind) else Push(m1, ObjectKind, false);
    Clear(m2)
  }

  /** The value or name a closing `}` stores (json.c:504-516). */
  function CloseObjectStore(m: Machine): (r: Result<Machine, Fault>)
    requires Valid(m) && m.stack != []
    ensures r.Success? ==> Valid(r.value) && |r.value.nodes| == |m.nodes| && r.value.token == m.token
    ensures r.Failure? ==> r.error == UnionMisread
    ensures r.Failure? <==>
      if m.value then Top(m.stack).kind == ObjectKind
      else !Token.HasContent(m.token) && Top(m.stack).kind == ValueKind
    ensures r.Success? && Top(m.stack).inArray ==> r.value.errorSeen
    ensures r.Success? && !m.value ==> r.value.stack == m.stack
    ensures r.Success? && m.value ==> r.value.stack <= m.stack
    ensures r.Success? && !m.value && Token.HasContent(m.token) ==> r.value.nodes == m.nodes && r.value.errorSeen
    ensures r.Success? && !m.value && !Token.HasContent(m.token) ==>
      r.value.nodes[Top(m.stack).node] == m.nodes[Top(m.stack).node].(name := Some(Token.Flush(m.token) + [0]))
    ensures r.Success? && m.value && m.nodes[Top(m.stack).node].Value? && m.nodes[Top(m.stack).node].payload.NoData? ==>
      r.value.nodes[Top(m.stack).node] == Value(Str(Token.Flush(m.token) + [0]), m.nodes[Top(m.stack).node].next)
    ensures r.Success? && m.value && m.nodes[Top(m.stack).node].Value? && !m.nodes[Top(m.stack).node].payload.NoData? ==>
      r.value.nodes == m.nodes && (Token.HasContent(m.token) ==> r.value.errorSeen)
  {
    var top := Top(m.stack);
    var m1 := if top.inArray then m.(errorSeen := true) else m;
    if m.value then
      if top.kind == ObjectKind then Failure(UnionMisread)
      else
        var m2 :=
          if m1.nodes[top.node].payload.NoData? then AssignString(m1)
          else if Token.HasContent(m1.token) then m1.(errorSeen := true)
          else m1;
        Success(Pop(m2, ValueKind))
    else if Token.HasContent(m1.token) then Success(m1.(errorSeen := true))
    else if top.kind == ValueKind then Failure(UnionMisread)
    else Success(AssignName(m1))
  }

  /** `}` (json.c:503-523): store, clear the token, pop the positions a comma
      marked, then one more. */
  function CloseObject(m: Machine): (r: Result<Machine, Fault>)
    requires Valid(m)
    ensures r.Success? ==> Valid(r.value) && r.value.value && r.value.token == Token.Empty
  {
    if m.stack == [] then Failure(NullCursor)
    else
      match CloseObjectStore(m)
      case Failure(f) => Failure(f)
      case Success(m1) =>
        var m2 := Clear(m1);
        match PopVisited(m2.stack, ObjectKind)
        case Failure(f) => Failure(f)
        case Success(s) =>
          PrefixValid(m2, s);
          Success(Pop(m2.(stack := s), ObjectKind).(value := true))
  }

  /** The position a `[` marks (json.c:524-533): a new root value, a new
      nested value under a top that is already in an array, or the top. */
  function ArrayPosition(m: Machine): (r: Result<Machine, Fault>)
    requires Valid(m)
    ensures r.Success? ==> Valid(r.value) && r.value.stack != [] && r.value.token == m.token
    ensures r.Failure? <==> m.start.kind != Untyped && m.stack == []
  {
    if m.start.kind == Untyped then Success(PushRoot(m, ValueKind))
    else if m.stack == [] then Failure(NullCursor)
    else if Top(m.stack).inArray then Success(Push(m, ValueKind, false))
    else Success(m)
  }

  /** `[` (json.c:523-536): the root value, or a nested value when the top is
      already in an array; the top is marked as in an array. */
  function OpenArray(m: Machine): (r: Result<Machine, Fault>)
    requires Valid(m)
    ensures r.Success? ==> Valid(r.value) && r.value.value && r.value.token == Token.Empty
    ensures r.Success? ==> r.value.stack != [] && Top(r.value.stack).inArray
  {
    match ArrayPosition(m)
    case Failure(f) => Failure(f)
    case Success(m2) =>
      Success(Clear(SetTop(m2, Top(m2.stack).(inArray := true)).(value := true)))
  }

  /** The value or name a closing `]` stores (json.c:538-546). */
  function CloseArrayStore(m: Machine): (r: Result<Machine, Fault>)
    requires Valid(m) && m.stack != []
    ensures r.Success? ==> Valid(r.value) && r.value.stack == m.stack && r.value.token == m.token && |r.value.nodes| == |m.nodes|
    ensures r.Failure? ==> r.error == UnionMisread
    ensures r.Failure? <==> (Top(m.stack).kind == if Top(m.stack).inArray then ObjectKind else ValueKind)
    ensures r.Success? && !Top(m.stack).inArray ==>
      r.value.nodes[Top(m.stack).node] == m.nodes[Top(m.stack).node].(name := Some(Token.Flush(m.token) + [0]))
    ensures r.Success? && Top(m.stack).inArray && m.nodes[Top(m.stack).node].Value? && m.nodes[Top(m.stack).node].payload.NoData? ==>
      r.value.nodes[Top(m.stack).node] == Value(Str(Token.Flush(m.token) + [0]), m.nodes[Top(m.stack).node].next)
    ensures r.Success? && Top(m.stack).inArray && m.nodes[Top(m.stack).node].Value? && !m.nodes[Top(m.stack).node].payload.NoData? ==>
      r.value.nodes == m.nodes && r.value.errorSeen == (m.errorSeen || Token.HasContent(m.token))
  {
    var top := Top(m.stack);
    if top.inArray then
      if top.kind == ObjectKind then Failure(UnionMisread)
      else if m.nodes[top.node].payload.NoData? then Success(AssignString(m))
      else if Token.HasContent(m.token) then Success(m.(errorSeen := true))
      else Success(m)
    else if top.kind == ValueKind then Failure(UnionMisread)
    else Success(AssignName(m))
  }

  /** `]` (json.c:537-553). */
  function CloseArray(m: Machine): (r: Result<Machine, Fault>)
    requires Valid(m)
    ensures r.Success? ==> Valid(r.value) && r.value.value && r.value.token == Token.Empty
  {
    if m.stack == [] then Failure(NullCursor)
    else
      match CloseArrayStore(m)
      case Failure(f) => Failure(f)
      case Success(m1) =>
        var m2 := Clear(m1);
        match PopVisited(m2.stack, ValueKind)
        case Failure(f) => Failure(f)
        case Success(s) =>
          PrefixValid(m2, s);
          Success(Pop(m2.(stack := s), ValueKind).(value := true))
  }

  /** `:` (json.c:552-567): outside an array the token names the top member
      and its value is pushed; inside one the colon is token text. */
  function NameSeparator(m: Machine): (r: Result<Machine, Fault>)
    requires Valid(m)
    ensures r.Success? ==> Valid(r.value)
  {
    var m1 := if m.start.kind == Untyped then PushRoot(m, ObjectKind) else m;
    if m1.stack == [] then Failure(NullCursor)
    else if Top(m1.stack).inArray then
      Success(m1.(token := Token.Pending(m1.token.bytes + [Colon], 0)))
    else if Top(m1.stack).kind == ValueKind then Failure(UnionMisread)
    else Success(Push(Clear(AssignName(m1.(value := true))), ValueKind, false))
  }

  /** What a comma stores before moving on (json.c:576-582): a value
      position without data takes the token as its string; a member whose
      name has no value yet is reported. */
  function SeparatorStore(m: Machine): (r: Machine)
    requires Valid(m) && m.stack != []
    ensures Valid(r) && r.stack == m.stack && r.start == m.start && |r.nodes| == |m.nodes|
  {
    var top := Top(m.stack);
    if top.kind == ValueKind then
      if m.nodes[top.node].payload.NoData? then AssignString(m) else m
    else if !m.value then m.(errorSeen := true)
    else m
  }

  /** The node a comma adds (json.c:585-593): the next array element after
      the top, or, outside an array, the next member after the member that
      holds the top.  The new top is marked as if its child had been
      visited, so that the closing bracket pops it. */
  function SeparatorPush(m: Machine, inArray: bool): (r: Machine)
    requires Valid(m) && m.start.kind != Untyped
    ensures Valid(r) && r.stack != [] && Top(r.stack).child && !Top(r.stack).sibling
    ensures r.token == m.token
  {
    var m1 :=
      if inArray then Push(m, ValueKind, true)
      else Push(Pop(m, ValueKind), ObjectKind, true).(value := false);
    SetTop(m1, Top(m1.stack).(child := true, sibling := false))
  }

  /** A comma before any bracket makes the root a value in an array
      (json.c:569-575). */
  function ArrayRoot(m: Machine): (r: Machine)
    requires Valid(m) && m.start.kind == Untyped
    ensures Valid(r) && r.start == Start(ValueKind, |m.nodes|) && r.value
    ensures r.stack == [Fresh(ValueKind, |m.nodes|, false).(inArray := true)]
  {
    var p := PushRoot(m, ValueKind);
    SetTop(p, Top(p.stack).(inArray := true)).(value := true)
  }

  /** `,` (json.c:568-593): store a pending value, clear the token, then add
      the next array element or the next member. */
  function ValueSeparator(m: Machine): (r: Result<Machine, Fault>)
    requires Valid(m)
    ensures r.Success? ==> Valid(r.value) && r.value.token == Token.Empty
    ensures r.Success? ==> r.value.stack != [] && Top(r.value.stack).child && !Top(r.value.stack).sibling
  {
    var m1 := if m.start.kind == Untyped then ArrayRoot(m) else m;
    if m1.stack == [] then Failure(NullCursor)
    else Success(SeparatorPush(Clear(SeparatorStore(m1)), Top(m1.stack).inArray))
  }

  /** A byte with `escape_char` set goes to the escape decoder, whose output
      is appended to the token (json.c:351-477). */
  function Escaped(m: Machine, b: byte): (r: Machine)
    requires Valid(m) && m.esc.escape
    ensures Valid(r)
    ensures |r.token.bytes| <= |m.token.bytes| + 6
  {
    var e := Escape.Step(m.esc, b);
    m.(esc := e.state, token := Token.Pending(m.token.bytes + e.out, m.token.trailing))
  }

  /** A byte inside quotes (json.c:479-490): a quote ends them, a backslash
      starts an escape, anything else is appended as it is. */
  function Quoted(m: Machine, b: byte): (r: Machine)
    requires Valid(m) && m.quotes && !m.esc.escape
    ensures Valid(r)
  {
    if b == Quote then m.(quotes := false)
    else if b == Backslash then m.(esc := m.esc.(escape := true))
    else m.(token := Token.Pending(m.token.bytes + [b], m.token.trailing))
  }

  /** One input byte (json.c:350-617). */
  function Step(m: Machine, b: byte): (r: Result<Machine, Fault>)
    requires Valid(m)
    ensures r.Success? ==> Valid(r.value)
    ensures r.Success? ==> |r.value.token.bytes| <= |m.token.bytes| + 6
  {
    if m.esc.escape then Success(Escaped(m, b))
    else if m.quotes then Success(Quoted(m, b))
    else if b == OpenBrace then Success(OpenObject(m))
    else if b == CloseBrace then CloseObject(m)
    else if b == OpenBracket then OpenArray(m)
    else if b == CloseBracket then CloseArray(m)
    else if b == Colon then NameSeparator(m)
    else if b == Comma then ValueSeparator(m)
    else if b == Quote then Success(m.(token := m.token.(trailing := 0), quotes := true))
    else if b == Backslash then Success(m.(token := m.token.(trailing := 0), esc := m.esc.(escape := true)))
    else Success(m.(token := Token.Plain(m.token, b)))
  }

  /** The bytes of `bs` fed one after another; the first fault ends the run. */
  function Run(m: Machine, bs: seq<byte>): (r: Result<Machine, Fault>)
    requires Valid(m)
    ensures r.Success? ==> Valid(r.value)
    ensures r.Success? ==> |r.value.token.bytes| <= |m.token.bytes| + 6 * |bs|
    decreases |bs|
  {
    if bs == [] then Success(m)
    else
      match Run(m, bs[..|bs| - 1])
      case Failure(f) => Failure(f)
      case Success(m1) => Step(m1, bs[|bs| - 1])
  }

  /** Reading one more byte of `bs` steps from the state its prefix left. */
  lemma Extend(m: Machine, bs: seq<byte>, k: nat, m1: Machine, m2: Machine)
    requires Valid(m) && k < |bs|
    requires Run(m, bs[..k]) == Success(m1) && Step(m1, bs[k]) == Success(m2)
    ensures Run(m, bs[..k + 1]) == Success(m2)
  {
    assert bs[..k + 1][..k] == bs[..k];
  }

  /** Once a byte faults, the rest of the input does not matter. */
  lemma {:induction false} RunStops(m: Machine, bs: seq<byte>, k: nat)
    requires Valid(m) && k <= |bs| && Run(m, bs[..k]).Failure?
    ensures Run(m, bs) == Run(m, bs[..k])
    decreases |bs| - k
  {
    if k == |bs| {
      assert bs[..k] == bs;
    } else {
      assert bs[..k + 1][..k] == bs[..k];
      RunStops(m, bs, k + 1);
    }
  }

  /** A byte that faults after the prefix `bs[..k]` decides the whole run. */
  lemma Halts(m: Machine, bs: seq<byte>, k: nat, m1: Machine, f: Fault)
    requires Valid(m) && k < |bs|
    requires Run(m, bs[..k]) == Success(m1) && Step(m1, bs[k]) == Failure(f)
    ensures Run(m, bs) == Failure(f)
  {
    assert bs[..k + 1][..k] == bs[..k];
    RunStops(m, bs, k + 1);
  }

  /** Inside quotes every byte but a quote or a backslash is text, the
      structural ones included: a run of them is appended as it is and
      changes nothing else. */
  lemma {:induction false} QuotedVerbatim(m: Machine, bs: seq<byte>)
    requires Valid(m) && m.quotes && !m.esc.escape
    requires forall i :: 0 <= i < |bs| ==> bs[i] != Quote && bs[i] != Backslash
    ensures Run(m, bs) == Success(m.(token := Token.Pending(m.token.bytes + bs, m.token.trailing)))
    decreases |bs|
  {
    if bs == [] {
      assert m.token.bytes + bs == m.token.bytes;
    } else {
      var k := |bs| - 1;
      QuotedVerbatim(m, bs[..k]);
      AppendLast(m.token.bytes, bs);
      QuotedAppend(m, bs[..k], bs[k]);
      Extend(m, bs, k, m.(token := Token.Pending(m.token.bytes + bs[..k], m.token.trailing)),
        m.(token := Token.Pending(m.token.bytes + bs, m.token.trailing)));
      assert bs[..k + 1] == bs;
    }
  }

  /** The step of `QuotedVerbatim`: one more byte that is neither a quote nor
      a backslash is appended to the token. */
  lemma QuotedAppend(m: Machine, init: seq<byte>, b: byte)
    requires Valid(m.(token := Token.Pending(m.token.bytes + init, m.token.trailing)))
    requires m.quotes && !m.esc.escape && b != Quote && b != Backslash
    ensures Step(m.(token := Token.Pending(m.token.bytes + init, m.token.trailing)), b)
      == Success(m.(token := Token.Pending(m.token.bytes + init + [b], m.token.trailing)))
  {
    PlainQuoted(m.(token := Token.Pending(m.token.bytes + init, m.token.trailing)), b);
  }

  /** One byte inside quotes that is neither a quote nor a backslash. */
  lemma PlainQuoted(m: Machine, b: byte)
    requires Valid(m) && m.quotes && !m.esc.escape && b != Quote && b != Backslash
    ensures Step(m, b) == Success(m.(token := Token.Pending(m.token.bytes + [b], m.token.trailing)))
  {
  }

  /** The bytes that steer the tree builder outside quotes. */
  predicate Structural(b: byte) {
    b == OpenBrace || b == CloseBrace || b == OpenBracket || b == CloseBracket || b == Colon || b == Comma
  }

  /** A machine that has built nothing and reported nothing. */
  predicate Untouched(m: Machine) {
    m.nodes == [] && m.stack == [] && m.start == Start(Untyped, 0) && !m.errorSeen
  }

  /** A byte that is not structural, or any byte inside quotes or an
      escape, builds nothing. */
  lemma TextStep(m: Machine, b: byte)
    requires Valid(m) && Untouched(m) && !Structural(b)
    ensures Step(m, b).Success? && Untouched(Step(m, b).value)
  {
  }

  /** Input without a structural byte builds no tree and reports nothing:
      `json_start` keeps type 0. */
  lemma {:induction false} TextOnly(bs: seq<byte>)
    requires forall i :: 0 <= i < |bs| ==> !Structural(bs[i])
    ensures Run(Initial, bs).Success? && Untouched(Run(Initial, bs).value)
    ensures Parse(bs) == Success(Parsed([], Start(Untyped, 0), false))
    decreases |bs|
  {
    InitialValid();
    if bs != [] {
      TextOnly(bs[..|bs| - 1]);
      TextStep(Run(Initial, bs[..|bs| - 1]).value, bs[|bs| - 1]);
    }
  }

  /** What `read_json` leaves: the arena, the `json_start`, and whether a
      diagnostic was printed. */
  datatype Parsed = Parsed(nodes: seq<Node>, start: Start, errorSeen: bool)

  /** `read_json` over the whole input: the tree it builds is well formed,
      so the walks and lookups apply to it. */
  function Parse(input: seq<byte>): (r: Result<Parsed, Fault>)
    ensures r.Success? ==> WellFormed(r.value.nodes) && StartOk(r.value.nodes, r.value.start)
  {
    InitialValid();
    match Run(Initial, input)
    case Failure(f) => Failure(f)
    case Success(m) => Success(Parsed(m.nodes, m.start, m.errorSeen))
  }

}
