/**
 * `read_json` (json.c:325-622) as it runs: its locals become the fields of a
 * `Reading`, the token lives in the block chain of the accumulator, the tree
 * in the arena and the positions in the cursor.  Each branch of the byte
 * loop is a method proved to do what the same branch of the `Reader` model
 * does, so the whole loop computes `Reader.Parse`.
 */
module JsonReader {
  import opened Basics
  import opened Tree
  import opened Cursor
  import Token
  import Escape
  import Accumulator
  import opened Reader

  /** `read_json`'s locals while it reads: the token in the block chain
      `str_value_p`, the arena of the tree, the cursor stack `read_sequence`,
      the `json_start` and the flags. */
  class Reading {
    const buf: Accumulator.Buffer
    const heap: Heap
    const cursor: Cursor
    var start: Start
    var trailing: nat
    var quotes: bool
    var esc: Escape.State
    var value: bool
    var errorSeen: bool

    /** The block chain is valid and owns none of the other objects. */
    ghost predicate Sound()
      reads this, buf, buf.Repr
    {
      buf.Valid() && this !in buf.Repr && heap !in buf.Repr && cursor !in buf.Repr
    }

    /** The machine these fields stand for. */
    ghost function State(): Machine
      reads this, buf, buf.Repr, heap, cursor
      requires Sound()
    {
      Machine(heap.nodes, cursor.stack, start, Token.Pending(buf.Contents(), trailing), quotes, esc, value, errorSeen)
    }

    ghost predicate Valid()
      reads this, buf, buf.Repr, heap, cursor
    {
      Sound() && Reader.Valid(State())
    }

    /** What a step that may fault leaves: the new machine, or the fault. */
    ghost function Outcome(fault: Option<Fault>): Result<Machine, Fault>
      reads this, buf, buf.Repr, heap, cursor
      requires Sound()
    {
      if fault.None? then Success(State()) else Failure(fault.value)
    }

    /** The state of json.c:326-345 before the first byte. */
    constructor ()
      ensures Valid() && State() == Initial && fresh(buf.Repr)
      ensures fresh(heap) && fresh(cursor)
    {
      buf := new Accumulator.Buffer();
      heap := new Heap();
      cursor := new Cursor();
      start := Start(Untyped, 0);
      trailing := 0;
      quotes := false;
      esc := NoEscape;
      value := false;
      errorSeen := false;
      new;
      InitialValid();
    }

    /** `buff_length(str_value_p, end_whitespace) > 0`. */
    method HasContent() returns (c: bool)
      requires Valid() && |buf.Contents()| < Accumulator.SizeModulus
      ensures c == Token.HasContent(State().token)
    {
      var n := buf.BuffLength(buf.head, trailing, 0);
      c := n > 0;
    }

    /** `buff_add` for each byte of `out`. */
    method AddAll(out: seq<byte>)
      requires Sound()
      modifies buf.Repr
      ensures Sound() && fresh(buf.Repr - old(buf.Repr))
      ensures buf.Contents() == old(buf.Contents()) + out
    {
      var i := 0;
      while i < |out|
        invariant i <= |out| && Sound() && fresh(buf.Repr - old(buf.Repr))
        invariant buf.Contents() == old(buf.Contents()) + out[..i]
      {
        buf.BuffAdd(out[i]);
        assert out[..i + 1] == out[..i] + [out[i]];
        i := i + 1;
      }
      assert out[..i] == out;
    }

    method Push(kind: Kind, next: bool)
      requires Valid() && kind != Untyped
      modifies heap, cursor
      ensures Sound() && State() == Reader.Push(old(State()), kind, next)
    {
      var ret := cursor.NextNew(heap, kind, next);
    }

    method PushRoot(kind: Kind)
      requires Valid() && start.kind == Untyped && kind != Untyped
      modifies this, heap, cursor
      ensures Sound() && State() == Reader.PushRoot(old(State()), kind)
    {
      Push(kind, false);
      start := Start(kind, Top(cursor.stack).node);
    }

    method Pop(kind: Kind)
      requires Valid()
      modifies cursor
      ensures Sound() && State() == Reader.Pop(old(State()), kind)
    {
      var ret := cursor.Prev(kind);
    }

    /** `value_str(read_sequence->value, str_value_p, end_whitespace)`. */
    method AssignString()
      requires Valid() && cursor.stack != [] && heap.nodes[Top(cursor.stack).node].Value?
      requires |buf.Contents()| < Accumulator.SizeModulus
      modifies heap
      ensures Sound() && State() == Reader.AssignString(old(State()))
    {
      var s := buf.BuffToArray(trailing);
      heap.ValueStr(Top(cursor.stack).node, s[..]);
    }

    /** `object_str(read_sequence->object, str_value_p, end_whitespace)`. */
    method AssignName()
      requires Valid() && cursor.stack != [] && heap.nodes[Top(cursor.stack).node].Member?
      requires |buf.Contents()| < Accumulator.SizeModulus
      modifies heap
      ensures Sound() && State() == Reader.AssignName(old(State()))
    {
      var s := buf.BuffToArray(trailing);
      heap.ObjectStr(Top(cursor.stack).node, s[..]);
    }

    /** Rewrites the flags of the top position in place. */
    method MarkTop(p: Position)
      requires Valid() && cursor.stack != [] && p.kind == Top(cursor.stack).kind && p.node == Top(cursor.stack).node
      modifies cursor
      ensures Sound() && State() == SetTop(old(State()), p)
    {
      cursor.stack := cursor.stack[|cursor.stack| - 1 := p];
    }

    /** `buff_delete(str_value_p, &str_value); end_whitespace = 0`. */
    method Clear()
      requires Valid()
      modifies this, buf, buf.head
      ensures Sound() && buf.Repr <= old(buf.Repr)
      ensures State() == Reader.Clear(old(State()))
    {
      buf.BuffDelete();
      trailing := 0;
    }

    /** `while(read_sequence->visited) ret = seq_prev(&read_sequence, kind)`:
        a pop that leaves the top in place would repeat forever. */
    method PopVisited(kind: Kind) returns (fault: Option<Fault>)
      requires Valid()
      modifies cursor
      ensures Sound()
      ensures Reader.PopVisited(old(cursor.stack), kind) ==
        if fault.None? then Success(cursor.stack) else Failure(fault.value)
    {
      while cursor.stack != [] && (Top(cursor.stack).child || Top(cursor.stack).sibling)
        invariant Reader.PopVisited(cursor.stack, kind) == Reader.PopVisited(old(cursor.stack), kind)
        decreases |cursor.stack|
      {
        var ret := cursor.Prev(kind);
        if ret == 1 {
          return Some(Spin);
        }
      }
      if cursor.stack == [] {
        return Some(NullCursor);
      }
      return None;
    }

    /** `{` (json.c:492-502). */
    method OpenObject()
      requires Valid()
      modifies this, heap, cursor, buf, buf.head
      ensures Sound() && buf.Repr <= old(buf.Repr)
      ensures State() == Reader.OpenObject(old(State()))
    {
      value := false;
      if start.kind == Untyped {
        PushRoot(ObjectKind);
      } else {
        Push(ObjectKind, false);
      }
      Clear();
    }

    /** The value or name a closing `}` stores (json.c:504-516). */
    method CloseObjectStore() returns (fault: Option<Fault>)
      requires Valid() && cursor.stack != [] && |buf.Contents()| < Accumulator.SizeModulus
      modifies this, heap, cursor
      ensures Sound() && Outcome(fault) == Reader.CloseObjectStore(old(State()))
    {
      var top := Top(cursor.stack);
      if top.inArray {
        errorSeen := true;
      }
      if value {
        if top.kind == ObjectKind {
          return Some(UnionMisread);
        }
        if heap.nodes[top.node].payload.NoData? {
          AssignString();
        } else {
          var c := HasContent();
          if c {
            errorSeen := true;
          }
        }
        Pop(ValueKind);
      } else {
        var c := HasContent();
        if c {
          errorSeen := true;
        } else if top.kind == ValueKind {
          return Some(UnionMisread);
        } else {
          AssignName();
        }
      }
      return None;
    }

    /** `}` (json.c:503-523). */
    method CloseObject() returns (fault: Option<Fault>)
      requires Valid() && |buf.Contents()| < Accumulator.SizeModulus
      modifies this, heap, cursor, buf, buf.head
      ensures Sound() && buf.Repr <= old(buf.Repr)
      ensures Outcome(fault) == Reader.CloseObject(old(State()))
    {
      if cursor.stack == [] {
        return Some(NullCursor);
      }
      fault := CloseObjectStore();
      if fault.Some? {
        return;
      }
      Clear();
      ghost var m := State();
      fault := PopVisited(ObjectKind);
      if fault.Some? {
        return;
      }
      PrefixValid(m, cursor.stack);
      Pop(ObjectKind);
      value := true;
    }

    /** The position a `[` marks (json.c:524-533). */
    method ArrayPosition() returns (fault: Option<Fault>)
      requires Valid()
      modifies this, heap, cursor
      ensures Sound() && Outcome(fault) == Reader.ArrayPosition(old(State()))
    {
      if start.kind == Untyped {
        PushRoot(ValueKind);
      } else if cursor.stack == [] {
        return Some(NullCursor);
      } else if Top(cursor.stack).inArray {
        Push(ValueKind, false);
      }
      return None;
    }

    /** `[` (json.c:523-536). */
    method OpenArray() returns (fault: Option<Fault>)
      requires Valid()
      modifies this, heap, cursor, buf, buf.head
      ensures Sound() && buf.Repr <= old(buf.Repr)
      ensures Outcome(fault) == Reader.OpenArray(old(State()))
    {
      fault := ArrayPosition();
      if fault.Some? {
        return;
      }
      MarkTop(Top(cursor.stack).(inArray := true));
      value := true;
      Clear();
      return None;
    }

    /** The value or name a closing `]` stores (json.c:538-546). */
    method CloseArrayStore() returns (fault: Option<Fault>)
      requires Valid() && cursor.stack != [] && |buf.Contents()| < Accumulator.SizeModulus
      modifies this, heap
      ensures Sound() && Outcome(fault) == Reader.CloseArrayStore(old(State()))
    {
      var top := Top(cursor.stack);
      if top.inArray {
        if top.kind == ObjectKind {
          return Some(UnionMisread);
        }
        if heap.nodes[top.node].payload.NoData? {
          AssignString();
        } else {
          var c := HasContent();
          if c {
            errorSeen := true;
          }
        }
      } else if top.kind == ValueKind {
        return Some(UnionMisread);
      } else {
        AssignName();
      }
      return None;
    }

    /** `]` (json.c:537-553). */
    method CloseArray() returns (fault: Option<Fault>)
      requires Valid() && |buf.Contents()| < Accumulator.SizeModulus
      modifies this, heap, cursor, buf, buf.head
      ensures Sound() && buf.Repr <= old(buf.Repr)
      ensures Outcome(fault) == Reader.CloseArray(old(State()))
    {
      if cursor.stack == [] {
        return Some(NullCursor);
      }
      fault := CloseArrayStore();
      if fault.Some? {
        return;
      }
      Clear();
      ghost var m := State();
      fault := PopVisited(ValueKind);
      if fault.Some? {
        return;
      }
      PrefixValid(m, cursor.stack);
      Pop(ValueKind);
      value := true;
    }

    /** `:` (json.c:552-567). */
    method NameSeparator() returns (fault: Option<Fault>)
      requires Valid() && |buf.Contents()| + 1 < Accumulator.SizeModulus
      modifies this, heap, cursor, buf.Repr
      ensures Sound() && fresh(buf.Repr - old(buf.Repr))
      ensures Outcome(fault) == Reader.NameSeparator(old(State()))
    {
      if start.kind == Untyped {
        PushRoot(ObjectKind);
      }
      if cursor.stack == [] {
        return Some(NullCursor);
      }
      if Top(cursor.stack).inArray {
        trailing := 0;
        buf.BuffAdd(Colon);
        return None;
      }
      if Top(cursor.stack).kind == ValueKind {
        return Some(UnionMisread);
      }
      NameMember();
      return None;
    }

    /** A colon outside an array names the top member and pushes its value
        (json.c:558-563). */
    method NameMember()
      requires Valid() && cursor.stack != [] && Top(cursor.stack).kind == ObjectKind
      requires |buf.Contents()| < Accumulator.SizeModulus
      modifies this, heap, cursor, buf, buf.head
      ensures Sound() && buf.Repr <= old(buf.Repr)
      ensures State() == Reader.Push(Reader.Clear(Reader.AssignName(old(State()).(value := true))), ValueKind, false)
    {
      value := true;
      AssignName();
      Clear();
      Push(ValueKind, false);
    }

    /** What a comma stores (json.c:576-582). */
    method SeparatorStore()
      requires Valid() && cursor.stack != [] && |buf.Contents()| < Accumulator.SizeModulus
      modifies this, heap
      ensures Sound() && State() == Reader.SeparatorStore(old(State()))
    {
      var top := Top(cursor.stack);
      if top.kind == ValueKind {
        if heap.nodes[top.node].payload.NoData? {
          AssignString();
        }
      } else if !value {
        errorSeen := true;
      }
    }

    /** The node a comma adds, and `read_sequence->visited = 1`
        (json.c:585-593). */
    method SeparatorPush(inArray: bool)
      requires Valid() && start.kind != Untyped
      modifies this, heap, cursor
      ensures Sound() && State() == Reader.SeparatorPush(old(State()), inArray)
    {
      ghost var m := State();
      if inArray {
        Push(ValueKind, true);
      } else {
        NextMember();
      }
      assert State() == if inArray then Reader.Push(m, ValueKind, true) else Reader.Push(Reader.Pop(m, ValueKind), ObjectKind, true).(value := false);
      MarkTop(Top(cursor.stack).(child := true, sibling := false));
    }

    /** The member after a comma in an object: the finished value is popped
        and a member is chained on as the sibling of the last one. */
    method NextMember()
      requires Valid() && start.kind != Untyped
      modifies this, heap, cursor
      ensures Valid() && State() == Reader.Push(Reader.Pop(old(State()), ValueKind), ObjectKind, true).(value := false)
    {
      Pop(ValueKind);
      Push(ObjectKind, true);
      value := false;
    }

    /** A comma before any bracket (json.c:569-575). */
    method ArrayRoot()
      requires Valid() && start.kind == Untyped
      modifies this, heap, cursor
      ensures Sound() && State() == Reader.ArrayRoot(old(State()))
    {
      PushRoot(ValueKind);
      MarkTop(Top(cursor.stack).(inArray := true));
      value := true;
    }

    /** `,` (json.c:568-593). */
    method ValueSeparator() returns (fault: Option<Fault>)
      requires Valid() && |buf.Contents()| < Accumulator.SizeModulus
      modifies this, heap, cursor, buf, buf.head
      ensures Sound() && buf.Repr <= old(buf.Repr)
      ensures Outcome(fault) == Reader.ValueSeparator(old(State()))
    {
      if start.kind == Untyped {
        ArrayRoot();
      }
      if cursor.stack == [] {
        return Some(NullCursor);
      }
      var inArray := Top(cursor.stack).inArray;
      SeparatorStore();
      Clear();
      SeparatorPush(inArray);
      return None;
    }

    /** A byte of an escape (json.c:351-477). */
    method Escaped(b: byte)
      requires Valid() && esc.escape
      modifies this, buf.Repr
      ensures Sound() && fresh(buf.Repr - old(buf.Repr))
      ensures State() == Reader.Escaped(old(State()), b)
    {
      var e := Escape.Step(esc, b);
      esc := e.state;
      AddAll(e.out);
    }

    /** A byte inside quotes (json.c:479-490). */
    method Quoted(b: byte)
      requires Valid() && quotes && !esc.escape
      modifies this, buf.Repr
      ensures Sound() && fresh(buf.Repr - old(buf.Repr))
      ensures State() == Reader.Quoted(old(State()), b)
    {
      if b == Quote {
        quotes := false;
      } else if b == Backslash {
        esc := esc.(escape := true);
      } else {
        buf.BuffAdd(b);
      }
    }

    /** A plain byte outside quotes (json.c:600-615). */
    method Plain(b: byte)
      requires Valid() && |buf.Contents()| + 1 < Accumulator.SizeModulus
      modifies this, buf.Repr
      ensures Sound() && fresh(buf.Repr - old(buf.Repr))
      ensures State() == old(State()).(token := Token.Plain(old(State()).token, b))
    {
      if IsWhitespace(b) {
        var c := HasContent();
        if c {
          buf.BuffAdd(b);
          trailing := trailing + 1;
        }
      } else {
        buf.BuffAdd(b);
        trailing := 0;
      }
    }

    /** One pass of the byte loop (json.c:350-617). */
    method Feed(b: byte) returns (fault: Option<Fault>)
      requires Valid() && |buf.Contents()| + 6 < Accumulator.SizeModulus
      modifies this, heap, cursor, buf.Repr
      ensures Sound() && fresh(buf.Repr - old(buf.Repr))
      ensures Outcome(fault) == Step(old(State()), b)
    {
      fault := None;
      if esc.escape {
        Escaped(b);
      } else if quotes {
        Quoted(b);
      } else if b == OpenBrace {
        OpenObject();
      } else if b == CloseBrace {
        fault := CloseObject();
      } else if b == OpenBracket {
        fault := OpenArray();
      } else if b == CloseBracket {
        fault := CloseArray();
      } else if b == Colon {
        fault := NameSeparator();
      } else if b == Comma {
        fault := ValueSeparator();
      } else if b == Quote {
        trailing := 0;
        quotes := true;
      } else if b == Backslash {
        trailing := 0;
        esc := esc.(escape := true);
      } else {
        Plain(b);
      }
    }
  }

  /** `read_json` over `input`: the tree, the root and the diagnostic flag
      it leaves are those of the model, and so is the first fault. */
  method ReadJson(input: seq<byte>) returns (r: Result<Parsed, Fault>)
    requires 6 * |input| + 6 < Accumulator.SizeModulus
    ensures r == Parse(input)
  {
    var rd := new Reading();
    var i := 0;
    while i < |input|
      invariant i <= |input| && rd.Valid() && fresh(rd.buf.Repr) && fresh(rd.heap) && fresh(rd.cursor)
      invariant Run(Initial, input[..i]) == Success(rd.State())
    {
      ghost var before := rd.State();
      var fault := rd.Feed(input[i]);
      if fault.Some? {
        Halts(Initial, input, i, before, fault.value);
        return Failure(fault.value);
      }
      Extend(Initial, input, i, before, rd.State());
      i := i + 1;
    }
    assert input[..i] == input;
    r := Success(Parsed(rd.heap.nodes, rd.start, rd.errorSeen));
  }
}
