# json.c in Dafny

A model of the core of `json.c`, a small streaming JSON reader and writer in C.
It covers these parts:

- **The chunked accumulator** (`struct buffer`, `buff_add`, `buff_delete`,
  `buff_length`, `buff_toarray`). The token being read is kept in a chain of
  1000-byte blocks. The model is a class over real arrays.
- **The byte decoder of `read_json`.**
  - C-style escapes: `\n`, `\t`, …, `\xHH`, three-digit octal, `\uHHHH`, `\UHHHHHHHH`.
  - The UTF-8 encoding of the code points those escapes produce.
  - The whitespace rule for text outside quotes.
- **The cursor stack** (`struct sequence` and `seq_next_new`, `seq_next`,
  `seq_prev`, `seq_prev_free`). It is a class holding a stack of positions
  over an arena of nodes.
- **The tree builder of `read_json`.**
  - `Reader` is a function over the input bytes, one step per byte.
  - `JsonReader.Reading` is the imperative byte loop. Its locals are fields,
    the token is in the accumulator, the tree is in a `Heap` and the positions
    are in a `Cursor`.
  - Each branch of the byte loop is proved to do what the matching `Reader`
    branch does, and `JsonReader.ReadJson` is proved equal to `Reader.Parse`.
  - `Reader` follows json.c except for the two corrections listed under
    "## Findings": the six-byte UTF-8 lead byte, and the whitespace test over
    the whole token rather than its tail block.
- **`print_json` and `free_json`.** They are the same three nested walking
  loops over the cursor.
  - `print_json` is proved to write `Walk.Emit`'s text.
  - `free_json` is proved to release `Walk.Released`'s nodes: the post-order
    of the tree, so every reachable node exactly once.
- **`get_value` and `get_string_first`.** They search a member chain for the
  first `strcmp` match.

Pointers of the C program are indices into a sequence of nodes (`Tree.Node`).
A node is a `Member` (the `json_object` of json.h: name, value, next) or a
`Value` (the tagged `json_value`). Wherever the C code would read through a
null pointer or the wrong member of a union, the model returns a `Failure`
naming that fault instead of a machine state. One such fault is met by an
array that is the value of an object's last member, so that its `]` is
directly followed by `}`, as in `{"a":["x"]}`: the `]` pops the value
position and the `}` then reads `read_sequence->value` of the member's
position (json.c:505-506, `Samples.NestedMisread`). A `,` after the `]`
instead stores nothing and chains the next member (json.c:568-593), so
`{"a":["x"],"b":"y"}` is read without a fault.

The printer reproduces two more quirks of `print_json`.
- A member that follows an array-valued member is written without a comma
  before it. The array's last element writes `]` where a comma would go
  (json.c:656-661), and a member writes only its name and a colon
  (json.c:631-632). So `{"a":[1,2],"b":3}`, whose plain tokens are stored as
  strings, is written as `{"a":["1","2"]"b":"3"}`.
- An empty object `{}` is read as one member named by the empty token
  (json.c:513-515), so it is written as `{"":` followed by a line feed.

## Model

| member | source | states |
|---|---|---|
| Accumulator.TailCount | json.c:69-79 | A chain filled from an empty head by single appends has a tail of 1 to 1000 bytes when non-empty, and every earlier block is full |
| Accumulator.Buffer.constructor | json.c:59-67 | A new accumulator is one fresh, empty block holding no bytes |
| Accumulator.Buffer.BuffAdd | json.c:69-79 | The contents grow by exactly the byte appended; a new block is chained on only when the tail is full, and the tail count keeps to `TailCount` |
| Accumulator.Buffer.Open | json.c:70-75 | Chaining a fresh block onto a full tail keeps the contents and makes the new block the empty tail |
| Accumulator.Buffer.Put | json.c:77 | Writing into a tail with room appends the byte without opening a block |
| Accumulator.Buffer.TailCountAgrees | json.c:69-79 | In any reachable state the tail holds `TailCount` of the total |
| Accumulator.Buffer.SpanCounts | json.c:95-103 | The bytes from block `k` to the end are the contents less the `1000*k` bytes of the full blocks before it |
| Accumulator.Buffer.BuffDelete | json.c:81-93 | After the delete the head is the only block, it is empty, and the contents are empty |
| Accumulator.Buffer.BuffLength | json.c:95-103 | The count from block `P` on, less `w`, taken modulo 2^64 like `size_t`; from the head this is the whole length less `w` |
| Accumulator.Buffer.Total | json.c:96-100 | The sum of block counts from block `k` on, modulo 2^64 |
| Accumulator.Buffer.BuffToArray | json.c:105-118 | A fresh array holding the contents without their last `w` bytes, followed by a NUL |
| Accumulator.Buffer.BlockFacts | json.c:43-47 | Block `b` holds bytes `1000*b` onwards of the contents; only the last block may be partly filled |
| Accumulator.Flatten | json.c:111-116 | Copying the chain block by block yields the first `n` bytes of the contents and a NUL |
| Accumulator.CopyBlock | json.c:113 | One block's inner loop extends the copied prefix up to `n` or the block's end |
| Utf8.Encode | json.c:394-423 | The intended encoding has width 1 to 6 according to the code point's range, and is empty exactly above 0x7FFFFFFF |
| Utf8.EncodeAsWritten | json.c:394-423 | The encoding as written has the same widths and is empty exactly above 0x7FFFFFFF; a six-byte sequence starts with a valid six-byte lead exactly when bit 29 of the code point is clear |
| Utf8.EncodeRoundTrip | json.c:394-423 | Every code point up to 0x7FFFFFFF is encoded as a well-formed sequence that decodes back to it |
| Utf8.RoundTrip1 | json.c:394-395 | One-byte range: well-formed and decodes back |
| Utf8.RoundTrip2 | json.c:396-398 | Two-byte range: well-formed and decodes back |
| Utf8.RoundTrip3 | json.c:399-402 | Three-byte range: well-formed and decodes back |
| Utf8.RoundTrip4 | json.c:403-407 | Four-byte range: well-formed and decodes back |
| Utf8.RoundTrip5 | json.c:408-413 | Five-byte range: well-formed and decodes back |
| Utf8.RoundTrip6 | json.c:414-420 | Six-byte range, with the lead byte as intended: well-formed and decodes back |
| Utf8.AsWrittenAgreesOutsideSixBytes | json.c:394-423 | The code as written agrees with the intended encoding everywhere except the six-byte range |
| Utf8.AsWrittenSixBytes | json.c:415 | In the six-byte range only the lead byte differs, and it is right exactly when bits 28-29 equal bit 30 |
| Utf8.AsWrittenCounterexample | json.c:415 | U+10000000 is written with lead 0xFD instead of 0xFC and decodes to 0x50000000 |
| Escape.HexStep | json.c:352-373 | A hex digit fills the highest pending slot and a non-digit changes nothing; the escape stays open while digits are pending and appends nothing, and closes with the byte the two slots spell |
| Escape.UnicodeStep | json.c:374-424 | A hex digit fills the highest pending slot and a non-digit changes nothing; the escape closes after the last digit and then appends the UTF-8 form of the code point, which is the source's bytes whenever the code point is at most 0x3FFFFFF |
| Escape.OctalStep | json.c:425-433 | An octal digit fills the highest pending slot and any other byte changes nothing; the escape closes with the byte the three slots spell |
| Escape.FirstStep | json.c:434-476 | The byte after a backslash either appends exactly one byte and closes the escape, or appends nothing and opens `\x` (2 digits), `\1`-`\3` (octal), `\u` (4 digits, upper slots zeroed) or `\U` (8 digits); only an escaped line feed counts a line |
| Escape.Step | json.c:351-477 | One byte of an open escape keeps the decoder state valid and appends at most six bytes |
| Escape.Run | json.c:351-477 | A run of escape bytes keeps the decoder state valid |
| Escape.SimpleEscapes | json.c:435-458 | `\n \t \r \a \b \v \f` append their control byte, and `\0` appends a NUL and ends the escape |
| Escape.LiteralEscape | json.c:469-475 | A backslash before any other byte appends that byte itself and ends the escape |
| Escape.HexEscape | json.c:352-373 | `\x` with two hex digits appends the byte they spell, high digit first |
| Escape.OctalValue | json.c:429 | ORing three octal digits shifted into place gives their base-8 value |
| Escape.OctalEscape | json.c:425-463 | `\` with a first digit 1-3 and two octal digits appends one byte whose value is 64·a + 8·b + c, at most 255 |
| Escape.ShortUnicodeEscape | json.c:374-466 | `\u` with four hex digits appends the UTF-8 encoding of the code point they spell, which is below 0x10000 |
| Escape.LongUnicodeEscape | json.c:374-468 | `\U` with eight hex digits appends the UTF-8 encoding of the code point they spell; this is the source's output for every code point except those from 0x4000000 to 0x7FFFFFFF (see Findings and Left out) |
| Escape.UnicodeDigits | json.c:374-424 | The remaining hex digits of a Unicode escape fill the slots from the most significant down; the last one closes the escape and appends the intended UTF-8 encoding of the code point the slots spell |
| Escape.JunkSkipped | json.c:353-368 | Bytes that are not digits inside a numeric escape are ignored: the escape goes on as if they were absent |
| Token.Flush | json.c:105-118 | What a store takes is a prefix of the token; every byte dropped is whitespace, and it is empty exactly when the token has no content |
| Token.TailImpliesContent | json.c:603 | The tail-block test never reports content in a token that has none |
| Token.TailAgreesInFirstBlock | json.c:603 | While the token fits in one 1000-byte block, the tail-block test and the whole-token test agree |
| Token.Plain | json.c:600-615 | One plain byte keeps the trailing run a run of whitespace that never covers the whole token |
| Token.PlainStores | json.c:600-615 | A solid byte makes the stored token the whole token so far plus that byte; whitespace changes nothing stored, and is buffered only after content |
| Token.PlainAsWritten | json.c:600-615 | The source's byte step is `Token.Plain` whenever its tail test agrees with the whole-token test or the byte is solid; otherwise it drops a space that `Token.Plain` would have buffered |
| Token.FeedState | json.c:594-615 | Plain bytes from an empty token leave the input without its leading whitespace, with its trailing-whitespace run counted |
| Token.FlushTrims | json.c:594-615 | A name or value stored from plain text is that text with leading and trailing whitespace removed, so it starts and ends with non-whitespace |
| Token.SolidRun | json.c:612-614 | Text without whitespace is kept whole, by the corrected test and by the test as written |
| Token.TailTestDropsSpace | json.c:603-610 | As written, 1000 `a`s, two spaces and `x` keep one space, where the whole-token test keeps both |
| Tree.NewNode | json.c:120-145 | A new member or value has the requested kind, no child and no `next` |
| Tree.Relink | json.c:177-215 | Relinking sets exactly the one edge that `seq_next_new` writes and keeps the node's kind and its other edge |
| Tree.Grow | json.c:120-145 | Allocating a node keeps the arena a well-formed tree |
| Tree.Attach | json.c:164-218 | Linking a new node under a typed parent keeps the arena a well-formed tree |
| Tree.StoreString | json.c:147-151 | Turning a value into a string keeps the arena well-formed |
| Tree.StoreName | json.c:131-134 | Naming a member keeps the arena well-formed |
| Tree.PreNoDuplicates | json.c:164-218 | Since every node is linked once, to a node allocated after its parent, the pre-order from any node has no repeats |
| Tree.PostPermutesPre | json.c:714-747 | The post-order visits the same nodes as the pre-order |
| Tree.Heap.Alloc | json.c:120-145 | `object_new`/`value_new` append exactly one new node |
| Tree.Heap.ValueStr | json.c:147-151 | `value_str` makes the value a string and keeps its `next` |
| Tree.Heap.ObjectStr | json.c:131-134 | `object_str` names the member and changes nothing else |
| Cursor.LinkCode | json.c:177-215 | `seq_next_new` returns 3, 4 or 6 exactly for the parent/child type pairs it rejects, and 0 otherwise |
| Cursor.NextNewOp | json.c:164-218 | A node of the kind is always allocated. On success it is linked under the top by the requested edge and pushed. On a rejected pair it is left unlinked and the stack is unchanged. No other edge changes and the arena stays well-formed |
| Cursor.NextOp | json.c:220-271 | An untried edge is marked tried, and its target, if there is one, is pushed with the edge's type. An edge already tried gives 1 or 2 and an empty stack gives 5, without change. The stack grows by one exactly when 0 is returned |
| Cursor.PrevOp | json.c:273-287 | Pops exactly the top unless the type differs (1) or the stack is empty (3); 2 says the pop emptied it |
| Cursor.MarkOk | json.c:227-246 | Marking the top's edge tried keeps the stack valid over the arena |
| Cursor.PopOk | json.c:273-287 | Popping keeps the rest of the stack valid over the arena |
| Cursor.StepTyped | json.c:258-264 | `seq_next` pushes only typed positions |
| Cursor.Cursor.constructor | json.c:331 | The reader's cursor starts empty |
| Cursor.Cursor.Root | json.c:677-688 | The walks start from one unvisited position at the root, with the root's type |
| Cursor.Cursor.NextNew | json.c:164-218 | Updates the arena and the stack in place exactly as `NextNewOp` says, with the same return code |
| Cursor.Cursor.Next | json.c:220-271 | Updates the stack in place exactly as `NextOp` says, with the same return code |
| Cursor.Cursor.Prev | json.c:273-287 | Updates the stack in place exactly as `PrevOp` says |
| Cursor.Cursor.PrevFree | json.c:289-314 | Pops like `seq_prev` and reports the node it releases exactly when the pop happened |
| Walk.Scalar | json.c:646-655 | A string is written between quotes, and what lies between them is the longest NUL-free prefix of its text; a boolean is written as `true` exactly when its flag is non-zero and as `false` exactly when it is zero |
| Walk.Closing | json.c:656-667 | A scalar is followed by exactly one of `,` `}` `]`, and it is a comma exactly when the value or its enclosing member has a successor |
| Walk.PrintStruct | json.c:627-671 | Every pushed node writes something. A member writes its name as a string followed by a colon, or `}` exactly when it has no name. A value writes its `ValuePiece`, preceded by one extra byte, `[`, exactly when the value has a successor and sits directly under a member |
| Walk.ValuePiece | json.c:641-668 | An object value writes `{` and an array value `[`; any other value writes its `Scalar` text followed by exactly one of `,` `}` `]` |
| Walk.RootPending | json.c:677-689 | From the root position, what remains to be written is the walk of the root's two edges, and the push and release orders are the tree's pre-order and post-order |
| Walk.EmitsPending | json.c:684-709 | The opening bracket, the root's piece, everything the walk still has to write from the root, and the final line feed together make `Emit` |
| Walk.Steps | json.c:696-703 | Each `seq_next` either writes the text of the node it pushes, leaving the rest for the new stack, or changes no pending text, and the walk's measure never grows |
| Walk.PopStep | json.c:705 | Popping a spent position writes nothing and releases exactly that position's node |
| Walk.PushMeasure | json.c:697 | Pushing a node strictly decreases the measure of what remains to be walked |
| Walk.PrintStep | json.c:697-702 | One `seq_next` of `print_json` writes exactly the piece that the pending text begins with and pushes exactly the node the pending push order begins with; when it pushes nothing it writes nothing and leaves the edge it tried marked; a push strictly decreases the measure |
| Walk.PrintChildren | json.c:696-700 | Following child edges writes the pieces that the pending text begins with |
| Walk.PrintLevel | json.c:694-704 | Child and sibling steps write the pieces that the pending text begins with, and leave the top with both edges spent |
| Walk.PrintJson | json.c:673-712 | `print_json` writes exactly `Emit`, and pushes the root's pre-order |
| Walk.FollowChildren | json.c:731-734 | Following child edges releases nothing and keeps the pending release order |
| Walk.SpendEdges | json.c:729-737 | Child and sibling steps release nothing and keep the pending release order |
| Walk.FreeJson | json.c:714-747 | `free_json` releases exactly the nodes of `Released`: the post-order, or the fault for an untyped root |
| Walk.ReleasedOnce | json.c:726-740 | `free_json` releases every node reachable from a typed root, each exactly once |
| Lookup.Members | json.c:750-753 | The members met along the `next` chain; every one is a member, and the chain is empty only at a null start |
| Lookup.Find | json.c:750-754 | An empty chain finds the null link; a found link lies in the arena, after the start of the chain |
| Lookup.FindFirst | json.c:750-754 | Passing over named, non-matching members does not change the answer, which is decided by the first member that is unnamed or matches |
| Lookup.FoundIsFirst | json.c:751 | A value found belongs to the first matching member, and every member before it is named and does not match |
| Lookup.NoneMatch | json.c:754 | When every member is named and none matches, nothing is found |
| Lookup.GetValue | json.c:749-755 | `get_value` returns the specification's answer: the first match's value, null, or the unnamed-member fault |
| Lookup.StringOf | json.c:757-766 | There is a string exactly when the first match's value is a string scalar, and then it is that value's text. It fails exactly when the search does |
| Lookup.StringOfFirstMatch | json.c:757-766 | When member `k` is the first match, the answer is its value's text if that value is a string, and nothing otherwise |
| Lookup.StringOfUnnamed | json.c:758-759 | An unnamed member met before any match is the unnamed-member fault |
| Lookup.StringOfNoMatch | json.c:758-765 | When every member is named and none matches, there is no string |
| Lookup.GetStringFirst | json.c:757-766 | `get_string_first` returns `StringOf` |
| Reader.InitialValid | json.c:326-345 | The state before the first byte is valid |
| Reader.Push | json.c:164-218 | Adding a node keeps a valid machine valid, and on an empty stack roots the new node |
| Reader.PushRoot | json.c:494-497 | The first structural byte records the root's type and node in `json_start` |
| Reader.Pop | json.c:273-287 | Popping a position keeps the machine valid, cuts the stack to a prefix and changes nothing else |
| Reader.AssignString | json.c:147-151 | The top value becomes the token, without trailing whitespace, plus a NUL, keeping its `next`; every other node and every other part of the machine is unchanged |
| Reader.AssignName | json.c:131-134 | The top member is named by the token, without trailing whitespace, plus a NUL, keeping its edges; every other node and every other part of the machine is unchanged |
| Reader.Clear | json.c:518-519 | Deleting the token keeps the machine valid and empties the token |
| Reader.PopVisited | json.c:520 | Popping the positions a comma marked ends, on success, at a prefix of the stack whose top has neither edge tried; its failures are an emptied stack or a top of the other type, never a misread union |
| Reader.OpenObject | json.c:492-502 | `{` leaves a valid machine with an empty token and `value` cleared |
| Reader.CloseObjectStore | json.c:504-516 | `}` misreads the union exactly when `value` is set on an object position, or is clear with an empty token on a value position. Otherwise a typeless value receives the token, an empty member is named by it, and leftover text only raises the error flag, as does `}` inside an array; the stack is kept, or popped to a prefix when `value` is set |
| Reader.CloseObject | json.c:503-522 | `}` either fails or leaves a valid machine with an empty token and `value` set |
| Reader.ArrayPosition | json.c:524-533 | `[` fails exactly when the root is set and the stack is empty, and it keeps the token |
| Reader.OpenArray | json.c:523-536 | `[` leaves a valid machine, with an empty token, `value` set and the top inside an array |
| Reader.CloseArrayStore | json.c:538-546 | `]` misreads the union exactly when the top is an object position inside an array or a value position outside one. Inside an array a typeless value receives the token and a typed one keeps its data, raising the error flag for leftover text; outside one the member is named by the token. Stack and token are kept |
| Reader.CloseArray | json.c:537-551 | `]` either fails or leaves a valid machine with an empty token and `value` set |
| Reader.NameSeparator | json.c:552-567 | `:` either fails or leaves a valid machine |
| Reader.SeparatorStore | json.c:576-582 | What a comma stores keeps the stack, the root and the arena's size |
| Reader.SeparatorPush | json.c:585-593 | After a comma the new node is on top with its child edge marked tried and its sibling edge not |
| Reader.ArrayRoot | json.c:569-575 | A comma before any bracket makes a root value that is marked as inside an array |
| Reader.ValueSeparator | json.c:568-593 | `,` either fails or leaves a valid machine, an empty token and a top whose child edge only is marked tried |
| Reader.Escaped | json.c:351-477 | A byte of an escape keeps the machine valid and adds at most six bytes to the token |
| Reader.Quoted | json.c:479-490 | A byte inside quotes keeps the machine valid |
| Reader.Step | json.c:350-616 | One byte either fails or keeps the machine valid, and adds at most six bytes to the token |
| Reader.Run | json.c:347-617 | Reading stops at the first fault, keeps the machine valid, and adds at most six bytes per input byte |
| Reader.Extend | json.c:349 | Reading one more byte is one more step |
| Reader.RunStops | json.c:349 | After a fault, the bytes that follow change nothing |
| Reader.Halts | json.c:349 | A fault at byte `k` is the outcome of the whole input |
| Reader.QuotedVerbatim | json.c:479-490 | Inside quotes, bytes other than a quote or a backslash are appended to the token unchanged |
| Reader.PlainQuoted | json.c:489 | A plain byte inside quotes is appended to the token |
| Reader.TextOnly | json.c:594-615 | Input with none of the structural bytes `{` `}` `[` `]` `:` `,` builds nothing, reports nothing and leaves `json_start` untyped, whatever quotes, backslashes or other bytes it holds |
| Reader.Parse | json.c:325-622 | A successful parse is a well-formed tree with a consistent `json_start` |
| JsonReader.Reading.constructor | json.c:326-345 | The imperative reader starts in `Reader.Initial` |
| JsonReader.Reading.HasContent | json.c:508 | `buff_length(…, end_whitespace) > 0`, taken over the whole token, is `Token.HasContent` |
| JsonReader.Reading.AddAll | json.c:371 | Appends the decoded bytes to the accumulator |
| JsonReader.Reading.Push | json.c:164-218 | `seq_next_new` on the reader's arena and cursor is `Reader.Push` |
| JsonReader.Reading.PushRoot | json.c:494-497 | Rooting the first node in `json_start`, in place, is `Reader.PushRoot` |
| JsonReader.Reading.Pop | json.c:273-287 | `seq_prev` on the reader's cursor is `Reader.Pop` |
| JsonReader.Reading.AssignString | json.c:147-151 | `value_str` from the accumulator is `Reader.AssignString` |
| JsonReader.Reading.AssignName | json.c:131-134 | `object_str` from the accumulator is `Reader.AssignName` |
| JsonReader.Reading.MarkTop | json.c:593 | Setting the top's visited bits in place is `Reader.SetTop` |
| JsonReader.Reading.Clear | json.c:501-502 | `buff_delete` and `end_whitespace=0` in place are `Reader.Clear` |
| JsonReader.Reading.PopVisited | json.c:520 | The `while(read_sequence->visited)` loop in place is `Reader.PopVisited`: the same stack or the same fault |
| JsonReader.Reading.OpenObject | json.c:492-502 | The `{` branch in place is `Reader.OpenObject` |
| JsonReader.Reading.CloseObjectStore | json.c:504-516 | The store of `}` in place is `Reader.CloseObjectStore` |
| JsonReader.Reading.CloseObject | json.c:503-522 | The `}` branch in place is `Reader.CloseObject` |
| JsonReader.Reading.ArrayPosition | json.c:524-533 | The position `[` marks, in place, is `Reader.ArrayPosition` |
| JsonReader.Reading.OpenArray | json.c:523-536 | The `[` branch in place is `Reader.OpenArray` |
| JsonReader.Reading.CloseArrayStore | json.c:538-546 | The store of `]` in place is `Reader.CloseArrayStore` |
| JsonReader.Reading.CloseArray | json.c:537-551 | The `]` branch in place is `Reader.CloseArray` |
| JsonReader.Reading.NameSeparator | json.c:552-567 | The `:` branch in place is `Reader.NameSeparator` |
| JsonReader.Reading.NameMember | json.c:558-563 | Naming the top member and pushing its value, in place |
| JsonReader.Reading.SeparatorStore | json.c:576-582 | What a comma stores, in place, is `Reader.SeparatorStore` |
| JsonReader.Reading.SeparatorPush | json.c:585-593 | The node a comma adds, in place, is `Reader.SeparatorPush` |
| JsonReader.Reading.NextMember | json.c:589-591 | A comma outside an array pops the value and adds the next member |
| JsonReader.Reading.ArrayRoot | json.c:569-575 | A comma before any bracket, in place, is `Reader.ArrayRoot` |
| JsonReader.Reading.ValueSeparator | json.c:568-593 | The `,` branch in place is `Reader.ValueSeparator` |
| JsonReader.Reading.Escaped | json.c:351-477 | An escape byte in place is `Reader.Escaped` |
| JsonReader.Reading.Quoted | json.c:479-490 | A byte inside quotes, in place, is `Reader.Quoted` |
| JsonReader.Reading.Plain | json.c:600-615 | A plain byte in place is `Token.Plain` on the token |
| JsonReader.Reading.Feed | json.c:350-616 | One pass of the byte loop in place is `Reader.Step`: the new state, or the fault |
| JsonReader.ReadJson | json.c:325-622 | `read_json` over the whole input returns exactly `Reader.Parse`, the model of json.c with the two corrections listed under Findings |
| Samples.FlatRead | json.c:492-522 | `{"a":"b"}` reads as one member named `a` whose value is the string `b` |
| Samples.FlatWritten | json.c:673-712 | That tree is written back as `{"a":"b"}` and a line feed |
| Samples.FlatDocument | json.c:325-712 | Reading `{"a":"b"}` and writing the result gives the same text back |
| Samples.NestedMisread | json.c:506 | `{"a":["x"]}` reads `read_sequence->value` of an object position when it meets `}`, and fails |
| Samples.TextOnlyWalks | json.c:685-688 | Input without structure gives an untyped root: `print_json` writes `[` and a line feed, and `free_json` meets the uninitialised-root fault |

## Left out

- Input is a byte sequence. `fread`/`feof` and the `buff_n`-byte (10000-byte, json.c:31) input buffer of json.c:344-349 are not modelled: reading is byte by byte either way.
- The `printf` diagnostics are kept only as the `errorSeen` flag, which nothing reads. The line and column counters are left out because they only feed those diagnostics.
- The integer branch of `print_struct` (json.c:649) passes `PRId64` as the format string itself, so it writes that macro's text (such as `ld` or `lld`) instead of the value; doubles go through `%f` (json.c:651). The model writes nothing for either: `read_json` never makes such values, and formatted output is outside the model.
- Every allocation succeeds. Neither `malloc` failure nor the return codes that report it (json.c:61-62, 169, 179, 196, 251, 335-345) are modelled.
- The `next` forward pointer of `struct sequence` is not modelled; the stack is a sequence of positions. The field is written at json.c:157, 171, 253, 281 and 308, and read only by the `else if(A->next)` branch of `print_struct` (json.c:633). `print_struct` is only ever called on a freshly pushed top, whose `next` is still the null that `seq_new` set, so that `,` branch is never taken and `Walk.PrintStruct` writes `}` for every unnamed member.
- What `free`, `seq_prev_free` and `free_json` release is a sequence of node indices. Freeing the name and string arrays of those nodes is not modelled separately.
- `free_read_sequence` (json.c:316-323) and `seq_new` (json.c:153-162) are folded into the stack: a new position is an element appended to it.
- Undefined behaviour becomes a `Failure` naming what was read: a null cursor, a union read through the wrong member, an endless `seq_prev` loop, a missing `prev`, a freed uninitialised root, or an unnamed member passed to `strcmp`. The C program's actual behaviour there is not modelled.
- JsonReader.ReadJson: requires `6*|input| + 6 < 2^64`. This keeps the token's length, counted in `size_t`, from wrapping. The C code makes no such check, and an input that large cannot be held in memory.
- JsonReader.Reading.HasContent and the other members that test the token: they use the whole-token test, not the tail-block test json.c:508, 513, 541, 603 and 608 write (see Findings).
- Escape.UnicodeStep: appends the intended `Utf8.Encode`, not the `(unicode_char>>28)|0xFC` lead of json.c:415. For a code point from 0x4000000 to 0x7FFFFFFF whose bits 28-29 differ from bit 30 (for example `\U10000000`: FC here, FD in the source) the model's first byte differs from the source's. `Escape.LongUnicodeEscape`, `Escape.UnicodeDigits`, `Reader` and `JsonReader.ReadJson` therefore do not capture those bytes; `Utf8.EncodeAsWritten` and `Utf8.AsWrittenSixBytes` state them.
- Escape.CodePoint: json.c:393 shifts `char_buf[7]` left by 28 as a signed `int`, which overflows when the first digit of `\U` is 8 to F. The model computes the code point in unsigned 32-bit arithmetic.
- Escape.Step: the unset `char_buf` of json.c:330 starts as zeros. Every slot an escape reads is written by that escape first.
- The compile-time switches of json.c:36-39 are not modelled: none of them is read by the code.
- `json.h` declares the structures and prototypes only. It is modelled through `Tree`.

## Findings

| source | as written | input that shows it | evidently intended | confidence | as-written member | corrected member |
|---|---|---|---|---|---|---|
| json.c:415 | The six-byte UTF-8 lead is `(unicode_char>>28)\|0xFC`, which mixes code-point bits 28-29 into the lead | `\U10000000` is written as FD 90 80 80 80 80, which decodes to 0x50000000 | `(unicode_char>>30)\|0xFC` | not executed | Utf8.AsWrittenCounterexample | Utf8.EncodeRoundTrip |
| json.c:603-610 | Whitespace outside quotes is kept only if `buff_length(str_value, end_whitespace) > 0`, where `str_value` is the tail block rather than the whole chain | 1000 `a`, two spaces, then `x`: the second space is dropped, because the tail is the one-byte block opened by the first space | The test over the whole token, as `str_value_p` would give | not executed | Token.TailTestDropsSpace | Token.FlushTrims |
