/** How a stream is cut into chunks does not matter to the client that reassembles it. */
module StreamChunking {
  import opened AnthropicTypes
  import opened StreamConverting
  import opened StreamReading

  /** Appends an item, joining it to the last one when both are thinking or both are content. */
  function Push(items: seq<Item>, item: Item): seq<Item> {
    if items == [] then [item]
    else
      var last := |items| - 1;
      match (items[last], item)
      case (Think(a), Think(b)) => items[..last] + [Think(a + b)]
      case (Say(a), Say(b)) => items[..last] + [Say(a + b)]
      case _ => items + [item]
  }

  function PushAll(front: seq<Item>, items: seq<Item>): seq<Item>
    decreases items
  {
    if items == [] then front else PushAll(Push(front, items[0]), items[1..])
  }

  /** The same for every way of cutting a stream. */
  function Canon(items: seq<Item>): seq<Item> { PushAll([], items) }

  lemma {:induction false} PushAllAppend(front: seq<Item>, a: seq<Item>, b: seq<Item>)
    ensures PushAll(front, a + b) == PushAll(PushAll(front, a), b)
    decreases a
  {
    if a == [] {
      assert a + b == b;
    } else {
      assert (a + b)[1..] == a[1..] + b;
      PushAllAppend(Push(front, a[0]), a[1..], b);
    }
  }

  /** Two deltas of one block read as one, whatever the client is doing. */
  lemma DeltasJoin(c: Client, index: nat, a: string, b: string)
    ensures Receive(Receive(c, BlockDelta(index, TextDelta(a))), BlockDelta(index, TextDelta(b)))
         == Receive(c, BlockDelta(index, TextDelta(a + b)))
    ensures Receive(Receive(c, BlockDelta(index, ThinkingDelta(a))), BlockDelta(index, ThinkingDelta(b)))
         == Receive(c, BlockDelta(index, ThinkingDelta(a + b)))
  {
    if c.Reading? && index < |c.blocks| {
      match c.blocks[index]
      case ThinkingBlock(t) => assert t + a + b == t + (a + b);
      case TextBlock(t) => assert t + a + b == t + (a + b);
      case ToolBlock(_, _, _) =>
    }
  }

  lemma SayJoins(s: Core, c: Client, a: string, b: string)
    ensures Feed(Feed(s, Say(a)), Say(b)) == Feed(s, Say(a + b))
    ensures ReceiveAll(ReceiveAll(c, Emit(s, Say(a))), Emit(Feed(s, Say(a)), Say(b)))
         == ReceiveAll(c, Emit(s, Say(a + b)))
  {
    var t := s.CloseThinking();
    var front := StopIf(s.ThinkingOpen(), s.index) + StartIf(!t.textStarted, t.index, TextHead);
    var x := ReceiveAll(c, front);
    ReceiveAppend(c, front, [BlockDelta(t.index, TextDelta(a))]);
    ReceiveAppend(c, front, [BlockDelta(t.index, TextDelta(a + b))]);
    assert Emit(Feed(s, Say(a)), Say(b)) == [BlockDelta(t.index, TextDelta(b))];
    ReceiveOne(x, BlockDelta(t.index, TextDelta(a)));
    ReceiveOne(x, BlockDelta(t.index, TextDelta(a + b)));
    ReceiveOne(Receive(x, BlockDelta(t.index, TextDelta(a))), BlockDelta(t.index, TextDelta(b)));
    DeltasJoin(x, t.index, a, b);
  }

  lemma ThinkJoins(s: Core, c: Client, a: string, b: string)
    ensures Feed(Feed(s, Think(a)), Think(b)) == Feed(s, Think(a + b))
    ensures ReceiveAll(ReceiveAll(c, Emit(s, Think(a))), Emit(Feed(s, Think(a)), Think(b)))
         == ReceiveAll(c, Emit(s, Think(a + b)))
  {
    if !s.thinkingDone {
      var front := StartIf(!s.thinkingStarted, s.index, ThinkingHead);
      var x := ReceiveAll(c, front);
      ReceiveAppend(c, front, [BlockDelta(s.index, ThinkingDelta(a))]);
      ReceiveAppend(c, front, [BlockDelta(s.index, ThinkingDelta(a + b))]);
      assert Emit(Feed(s, Think(a)), Think(b)) == [BlockDelta(s.index, ThinkingDelta(b))];
      ReceiveOne(x, BlockDelta(s.index, ThinkingDelta(a)));
      ReceiveOne(x, BlockDelta(s.index, ThinkingDelta(a + b)));
      ReceiveOne(Receive(x, BlockDelta(s.index, ThinkingDelta(a))), BlockDelta(s.index, ThinkingDelta(b)));
      DeltasJoin(x, s.index, a, b);
    }
  }

  lemma RunSnocRead(s: Core, c: Client, items: seq<Item>, item: Item)
    ensures Run(s, items + [item]) == Feed(Run(s, items), item)
    ensures ReceiveAll(c, RunEvents(s, items + [item]))
         == ReceiveAll(ReceiveAll(c, RunEvents(s, items)), Emit(Run(s, items), item))
  {
    RunSnoc(s, items, item);
    ReceiveAppend(c, RunEvents(s, items), Emit(Run(s, items), item));
  }

  lemma PushReads(s: Core, c: Client, items: seq<Item>, item: Item)
    ensures Run(s, Push(items, item)) == Run(s, items + [item])
    ensures ReceiveAll(c, RunEvents(s, Push(items, item))) == ReceiveAll(c, RunEvents(s, items + [item]))
  {
    if items != [] && Push(items, item) != items + [item] {
      var init, last := items[..|items| - 1], items[|items| - 1];
      assert items == init + [last];
      RunSnocRead(s, c, items, item);
      RunSnocRead(s, c, init, last);
      var d := ReceiveAll(c, RunEvents(s, init));
      if last.Think? {
        RunSnocRead(s, c, init, Think(last.text + item.text));
        ThinkJoins(Run(s, init), d, last.text, item.text);
      } else {
        RunSnocRead(s, c, init, Say(last.text + item.text));
        SayJoins(Run(s, init), d, last.text, item.text);
      }
    }
  }

  lemma ReadOn(s: Core, c: Client, x: seq<Item>, y: seq<Item>, rest: seq<Item>)
    requires Run(s, x) == Run(s, y)
    requires ReceiveAll(c, RunEvents(s, x)) == ReceiveAll(c, RunEvents(s, y))
    ensures Run(s, x + rest) == Run(s, y + rest)
    ensures ReceiveAll(c, RunEvents(s, x + rest)) == ReceiveAll(c, RunEvents(s, y + rest))
  {
    RunAppend(s, x, rest);
    RunAppend(s, y, rest);
    ReceiveAppend(c, RunEvents(s, x), RunEvents(Run(s, x), rest));
    ReceiveAppend(c, RunEvents(s, y), RunEvents(Run(s, y), rest));
  }

  lemma {:induction false} PushAllReads(s: Core, c: Client, front: seq<Item>, items: seq<Item>)
    ensures Run(s, PushAll(front, items)) == Run(s, front + items)
    ensures ReceiveAll(c, RunEvents(s, PushAll(front, items))) == ReceiveAll(c, RunEvents(s, front + items))
    decreases items
  {
    if items == [] {
      assert front + items == front;
    } else {
      var item, rest := items[0], items[1..];
      assert front + items == front + [item] + rest;
      PushAllReads(s, c, Push(front, item), rest);
      PushReads(s, c, front, item);
      ReadOn(s, c, Push(front, item), front + [item], rest);
    }
  }

  /** Items with one canonical form leave any converter in one state and any client in one state. */
  lemma CanonReads(s: Core, c: Client, a: seq<Item>, b: seq<Item>)
    requires Canon(a) == Canon(b)
    ensures Run(s, a) == Run(s, b)
    ensures ReceiveAll(c, RunEvents(s, a)) == ReceiveAll(c, RunEvents(s, b))
  {
    PushAllReads(s, c, [], a);
    PushAllReads(s, c, [], b);
    assert [] + a == a && [] + b == b;
  }

  // ---- Cutting one chunk in two

  /** `first` and `second` are `r` with its content cut in two non-empty pieces; tool calls and Done
      stay on the later one. */
  predicate CutsContent(r: Chunk, first: Chunk, second: Chunk) {
    && first.content != "" && second.content != "" && r.content == first.content + second.content
    && first == r.(content := first.content, toolCalls := [], done := false)
    && second == r.(thinking := "", content := second.content)
  }

  /** The same for its thinking: the content stays on the later one too. */
  predicate CutsThinking(r: Chunk, first: Chunk, second: Chunk) {
    && first.thinking != "" && second.thinking != "" && r.thinking == first.thinking + second.thinking
    && first == r.(thinking := first.thinking, content := "", toolCalls := [], done := false)
    && second == r.(thinking := second.thinking)
  }

  lemma JoinedAreOne(front: seq<Item>, x: Item, y: Item, joined: Item)
    requires Joins(x, y, joined)
    ensures Push(Push(front, x), y) == Push(front, joined)
  {
    if front != [] {
      var last := front[|front| - 1];
      if last.Say? && x.Say? { assert last.text + (x.text + y.text) == last.text + x.text + y.text; }
      if last.Think? && x.Think? { assert last.text + (x.text + y.text) == last.text + x.text + y.text; }
    }
  }

  predicate Joins(x: Item, y: Item, joined: Item) {
    || (x.Say? && y.Say? && joined == Say(x.text + y.text))
    || (x.Think? && y.Think? && joined == Think(x.text + y.text))
  }

  lemma PushOne(front: seq<Item>, x: Item)
    ensures PushAll(front, [x]) == Push(front, x)
  {
    assert [x][1..] == [];
  }

  /** Two pieces amid other items are canonically their join. */
  lemma PiecesAreOne(front: seq<Item>, x: Item, y: Item, joined: Item, rest: seq<Item>)
    requires Joins(x, y, joined)
    ensures Canon(front + [x] + ([y] + rest)) == Canon(front + [joined] + rest)
  {
    var f := PushAll([], front);
    PushAllAppend([], front + [x], [y] + rest);
    PushAllAppend([], front, [x]);
    PushOne(f, x);
    PushAllAppend(Push(f, x), [y], rest);
    PushOne(Push(f, x), y);
    PushAllAppend([], front + [joined], rest);
    PushAllAppend([], front, [joined]);
    PushOne(f, joined);
    JoinedAreOne(f, x, y, joined);
  }

  lemma CutCanon(r: Chunk, first: Chunk, second: Chunk)
    requires CutsContent(r, first, second) || CutsThinking(r, first, second)
    ensures Canon(Items(first) + Items(second)) == Canon(Items(r))
  {
    if CutsContent(r, first, second) {
      var front := if r.thinking != "" then [Think(r.thinking)] else [];
      ContentItems(r, first, second);
      PiecesAreOne(front, Say(first.content), Say(second.content), Say(r.content), Calls(r.toolCalls));
    } else {
      var rest := (if r.content != "" then [Say(r.content)] else []) + Calls(r.toolCalls);
      ThinkingItems(r, first, second);
      PiecesAreOne([], Think(first.thinking), Think(second.thinking), Think(r.thinking), rest);
    }
  }

  lemma ContentItems(r: Chunk, first: Chunk, second: Chunk)
    requires CutsContent(r, first, second)
    ensures var front := if r.thinking != "" then [Think(r.thinking)] else [];
      && Items(first) == front + [Say(first.content)]
      && Items(second) == [Say(second.content)] + Calls(r.toolCalls)
      && Items(r) == front + [Say(r.content)] + Calls(r.toolCalls)
  {
  }

  lemma ThinkingItems(r: Chunk, first: Chunk, second: Chunk)
    requires CutsThinking(r, first, second)
    ensures var rest := (if r.content != "" then [Say(r.content)] else []) + Calls(r.toolCalls);
      && Items(first) == [] + [Think(first.thinking)]
      && Items(second) == [Think(second.thinking)] + rest
      && Items(r) == [] + [Think(r.thinking)] + rest
  {
  }

  function Hello(cfg: Setup, v: Converter, r: Chunk): seq<Event> {
    if v.first then [MessageStart(cfg.id, cfg.model, StartTokens(cfg, r))] else []
  }

  function Bye(s: Core, r: Chunk): seq<Event> {
    if r.done then Farewell(s, r) else []
  }

  lemma RespondReads(cfg: Setup, v: Converter, c: Client, r: Chunk)
    ensures ReceiveAll(c, Respond(cfg, v, r))
         == ReceiveAll(ReceiveAll(ReceiveAll(c, Hello(cfg, v, r)), RunEvents(v.core, Items(r))),
                       Bye(Run(v.core, Items(r)), r))
  {
    ReceiveAppend(c, Hello(cfg, v, r) + RunEvents(v.core, Items(r)), Bye(Run(v.core, Items(r)), r));
    ReceiveAppend(c, Hello(cfg, v, r), RunEvents(v.core, Items(r)));
  }

  lemma CutStep(cfg: Setup, v: Converter, c: Client, r: Chunk, first: Chunk, second: Chunk)
    requires CutsContent(r, first, second) || CutsThinking(r, first, second)
    ensures Run(Step(cfg, v, first).core, Items(second)) == Run(v.core, Items(r))
    ensures Step(cfg, Step(cfg, v, first), second) == Step(cfg, v, r)
    ensures ReceiveAll(ReceiveAll(c, RunEvents(v.core, Items(first))), RunEvents(Step(cfg, v, first).core, Items(second)))
         == ReceiveAll(c, RunEvents(v.core, Items(r)))
  {
    CutCanon(r, first, second);
    CanonReads(v.core, c, Items(first) + Items(second), Items(r));
    RunAppend(v.core, Items(first), Items(second));
    ReceiveAppend(c, RunEvents(v.core, Items(first)), RunEvents(Run(v.core, Items(first)), Items(second)));
  }

  /** Cutting a chunk changes neither the converter's state afterwards nor the client's, whatever
      state both are in. */
  lemma CutChunkReadsAlike(cfg: Setup, v: Converter, c: Client, r: Chunk, first: Chunk, second: Chunk)
    requires CutsContent(r, first, second) || CutsThinking(r, first, second)
    ensures Step(cfg, Step(cfg, v, first), second) == Step(cfg, v, r)
    ensures ReceiveAll(ReceiveAll(c, Respond(cfg, v, first)), Respond(cfg, Step(cfg, v, first), second))
         == ReceiveAll(c, Respond(cfg, v, r))
  {
    var w, d := Step(cfg, v, first), ReceiveAll(c, Hello(cfg, v, r));
    CutStep(cfg, v, d, r, first, second);
    RespondReads(cfg, v, c, first);
    RespondReads(cfg, v, c, r);
    RespondReads(cfg, w, ReceiveAll(c, Respond(cfg, v, first)), second);
    assert Hello(cfg, v, first) == Hello(cfg, v, r) && Hello(cfg, w, second) == [];
    assert Bye(Run(v.core, Items(first)), first) == [];
    assert Bye(Run(w.core, Items(second)), second) == Bye(Run(v.core, Items(r)), r);
  }

  lemma OneAndTwoChunks(cfg: Setup, v: Converter, c: Client, r: Chunk, first: Chunk, second: Chunk)
    ensures After(cfg, v, [r]) == Step(cfg, v, r)
    ensures After(cfg, v, [first, second]) == Step(cfg, Step(cfg, v, first), second)
    ensures ReceiveAll(c, StreamEvents(cfg, v, [r])) == ReceiveAll(c, Respond(cfg, v, r))
    ensures ReceiveAll(c, StreamEvents(cfg, v, [first, second]))
         == ReceiveAll(ReceiveAll(c, Respond(cfg, v, first)), Respond(cfg, Step(cfg, v, first), second))
  {
    var w := Step(cfg, v, first);
    assert [first, second] == [first] + [second];
    StreamAppend(cfg, v, [first], [second]);
    assert StreamEvents(cfg, w, [second]) == Respond(cfg, w, second);
    assert StreamEvents(cfg, v, [first]) == Respond(cfg, v, first);
    assert StreamEvents(cfg, v, [r]) == Respond(cfg, v, r);
    ReceiveAppend(c, Respond(cfg, v, first), Respond(cfg, w, second));
  }

  /** The same inside any stream. */
  lemma CuttingReassemblesAlike(cfg: Setup, front: seq<Chunk>, r: Chunk, first: Chunk, second: Chunk, rest: seq<Chunk>)
    requires CutsContent(r, first, second) || CutsThinking(r, first, second)
    ensures After(cfg, INITIAL, front + [first, second] + rest) == After(cfg, INITIAL, front + [r] + rest)
    ensures ReceiveAll(Waiting, StreamEvents(cfg, INITIAL, front + [first, second] + rest))
         == ReceiveAll(Waiting, StreamEvents(cfg, INITIAL, front + [r] + rest))
  {
    var v := After(cfg, INITIAL, front);
    var c := ReceiveAll(Waiting, StreamEvents(cfg, INITIAL, front));
    CutChunkReadsAlike(cfg, v, c, r, first, second);
    OneAndTwoChunks(cfg, v, c, r, first, second);
    StreamReadOn(cfg, INITIAL, Waiting, front, [first, second]);
    StreamReadOn(cfg, INITIAL, Waiting, front, [r]);
    StreamReadOn(cfg, INITIAL, Waiting, front + [first, second], rest);
    StreamReadOn(cfg, INITIAL, Waiting, front + [r], rest);
  }

  lemma StreamReadOn(cfg: Setup, v: Converter, c: Client, a: seq<Chunk>, b: seq<Chunk>)
    ensures After(cfg, v, a + b) == After(cfg, After(cfg, v, a), b)
    ensures ReceiveAll(c, StreamEvents(cfg, v, a + b))
         == ReceiveAll(ReceiveAll(c, StreamEvents(cfg, v, a)), StreamEvents(cfg, After(cfg, v, a), b))
  {
    StreamAppend(cfg, v, a, b);
    ReceiveAppend(c, StreamEvents(cfg, v, a), StreamEvents(cfg, After(cfg, v, a), b));
  }

  // ---- All the ways of cutting a stream

  lemma DoneTokens(cfg: Setup, chunks: seq<Chunk>)
    requires DoneOnlyLast(chunks)
    ensures var last := chunks[|chunks| - 1];
      After(cfg, INITIAL, chunks)
        == Converter(false, last.promptEvalCount, last.evalCount, Run(IDLE, AllItems(chunks)))
  {
    var init, last := chunks[..|chunks| - 1], chunks[|chunks| - 1];
    assert chunks == init + [last];
    StreamAppend(cfg, INITIAL, init, [last]);
    CoreIsRunOfItems(cfg, INITIAL, chunks);
    assert After(cfg, After(cfg, INITIAL, init), [last]) == Step(cfg, After(cfg, INITIAL, init), last);
  }

  /** Two streams whose items have one canonical form, and which end alike, reassemble to the same
      message and leave the converter in the same state. */
  lemma ChunkingIndependent(cfg: Setup, a: seq<Chunk>, b: seq<Chunk>)
    requires DoneOnlyLast(a) && DoneOnlyLast(b)
    requires Canon(AllItems(a)) == Canon(AllItems(b))
    requires var x, y := a[|a| - 1], b[|b| - 1];
      (x.doneReason, x.promptEvalCount, x.evalCount) == (y.doneReason, y.promptEvalCount, y.evalCount)
    ensures After(cfg, INITIAL, a) == After(cfg, INITIAL, b)
    ensures ReceiveAll(Waiting, StreamEvents(cfg, INITIAL, a)) == ReceiveAll(Waiting, StreamEvents(cfg, INITIAL, b))
  {
    DoneTokens(cfg, a);
    DoneTokens(cfg, b);
    StreamRead(cfg, a);
    StreamRead(cfg, b);
    CanonReads(IDLE, Show(cfg, BLANK), AllItems(a), AllItems(b));
    ItemsShown(cfg, IDLE, BLANK, AllItems(a));
    ItemsShown(cfg, IDLE, BLANK, AllItems(b));
  }
}
