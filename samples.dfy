/**
 * Whole documents read by the `Reader` model and written back by `Walk`:
 * what `read_json` builds for a few small inputs and what `print_json`
 * then writes.
 */
module Samples {
  import opened Basics
  import opened Tree
  import opened Cursor
  import opened Reader
  import Token
  import Walk

  /** `{"a":"b"}` */
  const Flat: seq<byte> := [OpenBrace, Quote, 0x61, Quote, Colon, Quote, 0x62, Quote, CloseBrace]

  /** The tree of `Flat`: one member named `a` whose value is the string `b`. */
  const FlatTree: seq<Node> := [Member(Some([0x61, 0]), To(1), Null), Value(Str([0x62, 0]), Null)]

  const RootMember := Position(ObjectKind, 0, false, false, false)

  /** The machine after `{`, and after `{"a"`. */
  const Opened := Machine([Member(None, Null, Null)], [RootMember], Start(ObjectKind, 0), Token.Empty, false, NoEscape, false, false)
  const Keyed := Opened.(token := Token.Pending([0x61], 0))

  /** After `{"a":`, and after `{"a":"b"`. */
  const Named := Keyed.(nodes := [Member(Some([0x61, 0]), To(1), Null), Value(NoData, Null)],
                        stack := [RootMember, Position(ValueKind, 1, false, false, false)], token := Token.Empty, value := true)
  const Valued := Named.(token := Token.Pending([0x62], 0))

  lemma OpenStep()
    ensures Step(Initial, OpenBrace) == Success(Opened)
  {
    InitialValid();
    assert [] + [NewNode(ObjectKind)] == [Member(None, Null, Null)];
    assert NextNewOp([], [], ObjectKind, false) == Linked([Member(None, Null, Null)], [RootMember], 0);
  }

  lemma NameStep()
    ensures Valid(Keyed) && NameSeparator(Keyed) == Success(Named)
  {
    assert Token.Flush(Keyed.token) + [0] == [0x61, 0] by {
      assert Keyed.token.bytes[..1] == [0x61];
    }
    var named := AssignName(Keyed.(value := true));
    assert named.nodes == [Member(Some([0x61, 0]), Null, Null)];
    var l := NextNewOp(named.nodes, named.stack, ValueKind, false);
    assert named.nodes + [NewNode(ValueKind)] == [Member(Some([0x61, 0]), Null, Null), Value(NoData, Null)];
    assert l.nodes == Named.nodes && l.stack == Named.stack;
  }

  lemma CloseStep()
    ensures Valid(Valued) && CloseObject(Valued) == Success(Valued.(nodes := FlatTree, stack := [], token := Token.Empty))
  {
    assert Valid(Valued);
    assert Token.Flush(Valued.token) + [0] == [0x62, 0] by {
      assert Valued.token.bytes[..1] == [0x62];
    }
    var stored := AssignString(Valued);
    assert stored.nodes == FlatTree;
    assert CloseObjectStore(Valued) == Success(Pop(stored, ValueKind));
    assert Pop(stored, ValueKind).stack == [RootMember];
    assert PopVisited([RootMember], ObjectKind) == Success([RootMember]);
  }

  /** Quotes open and close around a name or a string. */
  lemma QuoteSteps(m: Machine)
    requires Valid(m) && !m.quotes && !m.esc.escape && m.token.trailing == 0
    ensures Valid(m.(quotes := true)) && Step(m, Quote) == Success(m.(quotes := true))
    ensures Step(m.(quotes := true), Quote) == Success(m)
  {
  }

  /** `{"` */
  lemma FlatOpen(bs: seq<byte>)
    requires bs == Flat
    ensures Run(Initial, bs[..2]) == Success(Opened.(quotes := true))
  {
    InitialValid();
    OpenStep();
    QuoteSteps(Opened);
    assert bs[..0] == [];
    Extend(Initial, bs, 0, Initial, Opened);
    Extend(Initial, bs, 1, Opened, Opened.(quotes := true));
  }

  /** `{"a"` */
  lemma FlatKey(bs: seq<byte>)
    requires bs == Flat
    ensures Run(Initial, bs[..4]) == Success(Keyed)
  {
    InitialValid();
    FlatOpen(bs);
    var q := Opened.(quotes := true);
    PlainQuoted(q, 0x61);
    assert q.(token := Token.Pending([] + [0x61], 0)) == Keyed.(quotes := true);
    QuoteSteps(Keyed);
    Extend(Initial, bs, 2, q, Keyed.(quotes := true));
    Extend(Initial, bs, 3, Keyed.(quotes := true), Keyed);
  }

  /** `{"a":` */
  lemma FlatNamed(bs: seq<byte>)
    requires bs == Flat
    ensures Run(Initial, bs[..5]) == Success(Named)
  {
    InitialValid();
    FlatKey(bs);
    NameStep();
    assert bs[4] == Colon && !Keyed.esc.escape && !Keyed.quotes;
    assert Step(Keyed, bs[4]) == NameSeparator(Keyed);
    Extend(Initial, bs, 4, Keyed, Named);
  }

  /** `{"a":"` */
  lemma FlatColon(bs: seq<byte>)
    requires bs == Flat
    ensures Run(Initial, bs[..6]) == Success(Named.(quotes := true))
  {
    InitialValid();
    FlatNamed(bs);
    QuoteSteps(Named);
    Extend(Initial, bs, 5, Named, Named.(quotes := true));
  }

  /** `{"a":"b"` */
  lemma FlatValue(bs: seq<byte>)
    requires bs == Flat
    ensures Run(Initial, bs[..8]) == Success(Valued)
  {
    InitialValid();
    FlatColon(bs);
    var q := Named.(quotes := true);
    PlainQuoted(q, 0x62);
    assert q.(token := Token.Pending([] + [0x62], 0)) == Valued.(quotes := true);
    QuoteSteps(Valued);
    Extend(Initial, bs, 6, q, Valued.(quotes := true));
    Extend(Initial, bs, 7, Valued.(quotes := true), Valued);
  }

  /** `{"a":"b"}` reads as one member with a string value, without a
      diagnostic. */
  lemma FlatRead(bs: seq<byte>)
    requires bs == Flat
    ensures Parse(bs) == Success(Parsed(FlatTree, Start(ObjectKind, 0), false))
  {
    InitialValid();
    FlatValue(bs);
    CloseStep();
    Extend(Initial, bs, 8, Valued, Valued.(nodes := FlatTree, stack := [], token := Token.Empty));
    assert bs[..9] == bs;
  }

  /** The tree of `{"a":"b"}` is written back byte for byte, then a line
      feed. */
  lemma FlatWritten()
    ensures Walk.Emit(FlatTree, Some(Start(ObjectKind, 0))) == Success(Flat + [Newline])
  {
    WellFormedFlat();
    var name := [Quote, 0x61, Quote, Colon];
    var value := [Quote, 0x62, Quote, CloseBrace];
    assert CString([0x61, 0]) == [0x61] && CString([0x62, 0]) == [0x62];
    assert Walk.PrintStruct(FlatTree, 0, None) == name;
    assert Walk.PrintStruct(FlatTree, 1, Some(0)) == value;
    assert Walk.Out(FlatTree, Null, 1) == [];
    assert Walk.Out(FlatTree, To(1), 0) == value + [] + [];
    assert Walk.Out(FlatTree, Edge(FlatTree, 0, false), 0) == value;
    assert Walk.Out(FlatTree, Edge(FlatTree, 0, true), 0) == [];
    assert [OpenBrace] + name + value + [] + [Newline] == Flat + [Newline];
  }

  lemma WellFormedFlat()
    ensures WellFormed(FlatTree)
  {
  }

  /** Reading `{"a":"b"}` and writing the tree gives the text back. */
  lemma FlatDocument()
    ensures Parse(Flat).Success?
    ensures Walk.Emit(Parse(Flat).value.nodes, Some(Parse(Flat).value.start)) == Success(Flat + [Newline])
  {
    FlatRead(Flat);
    FlatWritten();
  }

  /** `{"a":["x"]}` */
  const Nested: seq<byte> := [OpenBrace, Quote, 0x61, Quote, Colon, OpenBracket, Quote, 0x78, Quote, CloseBracket, CloseBrace]

  /** After `{"a":[`: the value position is marked as in an array. */
  const Bracketed := Named.(stack := [RootMember, Position(ValueKind, 1, false, false, true)])

  /** After `{"a":["x"`. */
  const Element := Bracketed.(token := Token.Pending([0x78], 0))

  /** After `{"a":["x"]`: the value holds `x` and the member is the top. */
  const Closed := Element.(nodes := [Member(Some([0x61, 0]), To(1), Null), Value(Str([0x78, 0]), Null)],
                           stack := [RootMember], token := Token.Empty)

  lemma BracketStep()
    ensures Valid(Named) && Step(Named, OpenBracket) == Success(Bracketed)
  {
    assert ArrayPosition(Named) == Success(Named);
    var marked := SetTop(Named, Position(ValueKind, 1, false, false, true));
    assert marked.stack == Bracketed.stack;
    assert OpenArray(Named) == Success(Clear(marked.(value := true)));
  }

  lemma CloseBracketStep()
    ensures Valid(Element) && Step(Element, CloseBracket) == Success(Closed)
  {
    assert Token.Flush(Element.token) + [0] == [0x78, 0] by {
      assert Element.token.bytes[..1] == [0x78];
    }
    var stored := AssignString(Element);
    assert stored.nodes == Closed.nodes;
    assert CloseArrayStore(Element) == Success(stored);
    var cleared := Clear(stored);
    assert PopVisited(cleared.stack, ValueKind) == Success(cleared.stack);
    assert PrevOp(cleared.stack, ValueKind).stack == [RootMember];
    assert CloseArray(Element) == Success(Pop(cleared, ValueKind).(value := true));
  }

  /** `{"a":[` */
  lemma NestedOpen(bs: seq<byte>)
    requires bs == Nested
    ensures Run(Initial, bs[..6]) == Success(Bracketed)
  {
    InitialValid();
    FlatNamed(Flat);
    assert bs[..5] == Flat[..5];
    BracketStep();
    Extend(Initial, bs, 5, Named, Bracketed);
  }

  /** `{"a":["x` */
  lemma NestedText(bs: seq<byte>)
    requires bs == Nested
    ensures Run(Initial, bs[..8]) == Success(Element.(quotes := true))
  {
    InitialValid();
    NestedOpen(bs);
    var q := Bracketed.(quotes := true);
    QuoteSteps(Bracketed);
    PlainQuoted(q, 0x78);
    assert q.(token := Token.Pending([] + [0x78], 0)) == Element.(quotes := true);
    Extend(Initial, bs, 6, Bracketed, q);
    Extend(Initial, bs, 7, q, Element.(quotes := true));
  }

  /** `{"a":["x"` */
  lemma NestedString(bs: seq<byte>)
    requires bs == Nested
    ensures Run(Initial, bs[..9]) == Success(Element)
  {
    InitialValid();
    NestedText(bs);
    QuoteSteps(Element);
    Extend(Initial, bs, 8, Element.(quotes := true), Element);
  }

  /** `{"a":["x"]` */
  lemma NestedElement(bs: seq<byte>)
    requires bs == Nested
    ensures Run(Initial, bs[..10]) == Success(Closed)
  {
    InitialValid();
    NestedString(bs);
    CloseBracketStep();
    Extend(Initial, bs, 9, Element, Closed);
  }

  /** `{"a":["x"]}` faults at its last byte: the `}` finds the member on top
      with `value` set and reads its `object` pointer as a value
      (json.c:506). */
  lemma NestedMisread(bs: seq<byte>)
    requires bs == Nested
    ensures Parse(bs) == Failure(UnionMisread)
  {
    InitialValid();
    NestedElement(bs);
    assert CloseObjectStore(Closed) == Failure(UnionMisread);
    assert bs[..11] == bs;
    assert bs[..11][..10] == bs[..10];
  }

  /** Input without structure leaves `json_start` untyped: `print_json`
      then writes a lone `[` and a line feed, and `free_json` frees a
      pointer that was never set. */
  lemma TextOnlyWalks(bs: seq<byte>)
    requires forall i :: 0 <= i < |bs| ==> !Structural(bs[i])
    ensures Parse(bs).Success?
    ensures Walk.Emit(Parse(bs).value.nodes, Some(Parse(bs).value.start)) == Success([OpenBracket, Newline])
    ensures Walk.Released(Parse(bs).value.nodes, Some(Parse(bs).value.start)) == Failure(Walk.UninitializedRoot)
  {
    TextOnly(bs);
  }
}
