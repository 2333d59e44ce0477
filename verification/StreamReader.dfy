/** A client that reads the event stream strictly, and the theorem that says which chunk
    streams it can read. */
module StreamReading {
  import opened AnthropicTypes
  import opened StreamConverting

  /** The event grammar as a reader: one message_start; blocks numbered in order, one open at a
      time, each fed at least one delta of its own kind before it stops; one message_delta; one
      message_stop. While a block is open it is the last of `blocks`. */
  datatype Client =
    | Waiting
    | Reading(id: string, model: string, blocks: seq<Block>, open: bool, fed: bool)
    | Ending(message: Message)
    | Complete(message: Message)
    | Broken

  function Empty(head: Head): Block {
    match head
    case ThinkingHead => ThinkingBlock("")
    case TextHead => TextBlock("")
    case ToolHead(id, name) => ToolBlock(id, name, Json(""))
  }

  predicate Fits(block: Block, delta: Delta) {
    match delta
    case ThinkingDelta(_) => block.ThinkingBlock?
    case TextDelta(_) => block.TextBlock?
    case InputJsonDelta(_) => block.ToolBlock? && block.args.Json?
  }

  function Grow(block: Block, delta: Delta): Block
    requires Fits(block, delta)
  {
    match block
    case ThinkingBlock(text) => ThinkingBlock(text + delta.text)
    case TextBlock(text) => TextBlock(text + delta.text)
    case ToolBlock(id, name, args) => ToolBlock(id, name, Json(args.text + delta.text))
  }

  function Receive(c: Client, e: Event): Client {
    match e
    case MessageStart(id, model, _) =>
      if c.Waiting? then Reading(id, model, [], false, false) else Broken
    case BlockStart(index, head) =>
      if c.Reading? && !c.open && index == |c.blocks|
      then c.(blocks := c.blocks + [Empty(head)], open := true, fed := false) else Broken
    case BlockDelta(index, delta) =>
      if c.Reading? && c.open && index + 1 == |c.blocks| && Fits(c.blocks[index], delta)
      then c.(blocks := c.blocks[index := Grow(c.blocks[index], delta)], fed := true) else Broken
    case BlockStop(index) =>
      if c.Reading? && c.open && c.fed && index + 1 == |c.blocks|
      then c.(open := false, fed := false) else Broken
    case MessageDelta(stopReason, inputTokens, outputTokens) =>
      if c.Reading? && !c.open
      then Ending(Message(c.id, c.model, c.blocks, stopReason, inputTokens, outputTokens)) else Broken
    case MessageStop =>
      if c.Ending? then Complete(c.message) else Broken
  }

  function ReceiveAll(c: Client, events: seq<Event>): Client
    decreases events
  {
    if events == [] then c else ReceiveAll(Receive(c, events[0]), events[1..])
  }

  lemma {:induction false} ReceiveAppend(c: Client, a: seq<Event>, b: seq<Event>)
    ensures ReceiveAll(c, a + b) == ReceiveAll(ReceiveAll(c, a), b)
    decreases a
  {
    if a == [] {
      assert a + b == b;
    } else {
      assert (a + b)[1..] == a[1..] + b;
      ReceiveAppend(Receive(c, a[0]), a[1..], b);
    }
  }

  lemma {:induction false} BrokenStays(events: seq<Event>)
    ensures ReceiveAll(Broken, events) == Broken
  {
    if events != [] { BrokenStays(events[1..]); }
  }

  // ---- The document a list of items describes, without any event or index

  datatype Latch = Unthought | Thinking | Thought

  datatype Doc =
    | Doc(blocks: seq<Block>, open: bool, latch: Latch, sent: set<string>)
    | Clash

  const BLANK := Doc([], false, Unthought, {})

  function Extend(blocks: seq<Block>, text: string): seq<Block> {
    if blocks == [] then blocks
    else
      var last := |blocks| - 1;
      match blocks[last]
      case ThinkingBlock(t) => blocks[last := ThinkingBlock(t + text)]
      case TextBlock(t) => blocks[last := TextBlock(t + text)]
      case ToolBlock(_, _, _) => blocks
  }

  function Absorb(d: Doc, item: Item): Doc {
    if d.Clash? then Clash
    else match item
      case Think(text) =>
        if d.latch.Thought? then d
        else if d.latch.Thinking? then d.(blocks := Extend(d.blocks, text))
        else if d.open then Clash
        else Doc(d.blocks + [ThinkingBlock(text)], true, Thinking, d.sent)
      case Say(text) =>
        if d.latch.Thinking? then Doc(d.blocks + [TextBlock(text)], true, Thought, d.sent)
        else if d.open then d.(blocks := Extend(d.blocks, text))
        else d.(blocks := d.blocks + [TextBlock(text)], open := true)
      case Call(tool) =>
        if tool.id in d.sent then d
        else
          var closed := Doc(d.blocks, false, if d.latch.Thinking? then Thought else d.latch, d.sent);
          if tool.args.Unmarshalable? then closed
          else closed.(blocks := d.blocks + [ToolBlock(tool.id, tool.name, tool.args)], sent := d.sent + {tool.id})
  }

  function AbsorbAll(d: Doc, items: seq<Item>): Doc
    decreases items
  {
    if items == [] then d else AbsorbAll(Absorb(d, items[0]), items[1..])
  }

  lemma {:induction false} AbsorbAppend(d: Doc, a: seq<Item>, b: seq<Item>)
    ensures AbsorbAll(d, a + b) == AbsorbAll(AbsorbAll(d, a), b)
    decreases a
  {
    if a == [] {
      assert a + b == b;
    } else {
      assert (a + b)[1..] == a[1..] + b;
      AbsorbAppend(Absorb(d, a[0]), a[1..], b);
    }
  }

  lemma AbsorbSnoc(d: Doc, items: seq<Item>, item: Item)
    ensures AbsorbAll(d, items + [item]) == Absorb(AbsorbAll(d, items), item)
  {
    AbsorbAppend(d, items, [item]);
  }

  // ---- The converter and its client draw that document together

  function Show(cfg: Setup, d: Doc): Client {
    if d.Clash? then Broken else Reading(cfg.id, cfg.model, d.blocks, d.open, d.open)
  }

  ghost predicate Matches(s: Core, d: Doc) {
    && d.Doc?
    && s.index + (if d.open then 1 else 0) == |d.blocks|
    && (s.thinkingStarted <==> !d.latch.Unthought?)
    && (s.thinkingDone <==> d.latch.Thought?)
    && (s.textStarted <==> d.open && !d.latch.Thinking?)
    && (d.latch.Thinking? ==> d.open && d.blocks[|d.blocks| - 1].ThinkingBlock?)
    && (s.textStarted ==> d.blocks[|d.blocks| - 1].TextBlock?)
    && s.sent == d.sent
  }

  lemma ReceiveOne(c: Client, e: Event)
    ensures ReceiveAll(c, [e]) == Receive(c, e)
  {
  }

  lemma FirstDelta(blocks: seq<Block>, head: Head, delta: Delta)
    requires Fits(Empty(head), delta)
    ensures (blocks + [Empty(head)])[|blocks| := Grow(Empty(head), delta)]
         == blocks + [match head
                      case ThinkingHead => ThinkingBlock(delta.text)
                      case TextHead => TextBlock(delta.text)
                      case ToolHead(id, name) => ToolBlock(id, name, Json(delta.text))]
  {
    assert "" + delta.text == delta.text;
  }

  lemma StopsOpenBlock(cfg: Setup, d: Doc, index: nat)
    requires d.Doc?
    requires d.open ==> index + 1 == |d.blocks|
    ensures ReceiveAll(Show(cfg, d), StopIf(d.open, index)) == Show(cfg, d.(open := false))
  {
    if d.open { ReceiveOne(Show(cfg, d), BlockStop(index)); }
  }

  lemma ThinkShown(cfg: Setup, s: Core, d: Doc, text: string)
    requires Matches(s, d)
    ensures ReceiveAll(Show(cfg, d), Emit(s, Think(text))) == Show(cfg, Absorb(d, Think(text)))
    ensures Absorb(d, Think(text)).Doc? ==> Matches(Feed(s, Think(text)), Absorb(d, Think(text)))
  {
    if !s.thinkingDone {
      var start := StartIf(!s.thinkingStarted, s.index, ThinkingHead);
      var delta := BlockDelta(s.index, ThinkingDelta(text));
      ReceiveAppend(Show(cfg, d), start, [delta]);
      ReceiveOne(ReceiveAll(Show(cfg, d), start), delta);
      if !s.thinkingStarted {
        ReceiveOne(Show(cfg, d), BlockStart(s.index, ThinkingHead));
        FirstDelta(d.blocks, ThinkingHead, ThinkingDelta(text));
      }
    }
  }

  lemma SayShown(cfg: Setup, s: Core, d: Doc, text: string)
    requires Matches(s, d)
    ensures ReceiveAll(Show(cfg, d), Emit(s, Say(text))) == Show(cfg, Absorb(d, Say(text)))
    ensures Matches(Feed(s, Say(text)), Absorb(d, Say(text)))
  {
    var t := s.CloseThinking();
    var stop := StopIf(s.ThinkingOpen(), s.index);
    var start := StartIf(!t.textStarted, t.index, TextHead);
    var delta := BlockDelta(t.index, TextDelta(text));
    var c := Show(cfg, d);
    ReceiveAppend(c, stop + start, [delta]);
    ReceiveAppend(c, stop, start);
    if s.ThinkingOpen() { StopsOpenBlock(cfg, d, s.index); }
    if !t.textStarted {
      ReceiveOne(ReceiveAll(c, stop), BlockStart(t.index, TextHead));
      FirstDelta(d.blocks, TextHead, TextDelta(text));
    }
    ReceiveOne(ReceiveAll(c, stop + start), delta);
  }

  lemma ToolBlockShown(cfg: Setup, d: Doc, tool: ToolCall)
    requires d.Doc? && !d.open && tool.args.Json?
    ensures ReceiveAll(Show(cfg, d),
              [BlockStart(|d.blocks|, ToolHead(tool.id, tool.name)),
               BlockDelta(|d.blocks|, InputJsonDelta(tool.args.text)),
               BlockStop(|d.blocks|)])
         == Show(cfg, d.(blocks := d.blocks + [ToolBlock(tool.id, tool.name, tool.args)]))
  {
    var n := |d.blocks|;
    var e1 := BlockStart(n, ToolHead(tool.id, tool.name));
    var e2 := BlockDelta(n, InputJsonDelta(tool.args.text));
    var e3 := BlockStop(n);
    var c := Show(cfg, d);
    assert [e1, e2, e3] == [e1] + [e2] + [e3];
    ReceiveAppend(c, [e1] + [e2], [e3]);
    ReceiveAppend(c, [e1], [e2]);
    ReceiveOne(c, e1);
    ReceiveOne(Receive(c, e1), e2);
    ReceiveOne(Receive(Receive(c, e1), e2), e3);
    FirstDelta(d.blocks, e1.head, e2.delta);
  }

  lemma CallShown(cfg: Setup, s: Core, d: Doc, tool: ToolCall)
    requires Matches(s, d)
    ensures ReceiveAll(Show(cfg, d), Emit(s, Call(tool))) == Show(cfg, Absorb(d, Call(tool)))
    ensures Matches(Feed(s, Call(tool)), Absorb(d, Call(tool)))
  {
    if tool.id !in s.sent {
      var t := s.CloseThinking();
      var u := t.CloseText();
      var stops := StopIf(s.ThinkingOpen(), s.index) + StopIf(t.textStarted, t.index);
      var c := Show(cfg, d);
      assert stops == StopIf(d.open, s.index);
      StopsOpenBlock(cfg, d, s.index);
      if tool.args.Json? {
        var block := [BlockStart(u.index, ToolHead(tool.id, tool.name)),
                      BlockDelta(u.index, InputJsonDelta(tool.args.text)),
                      BlockStop(u.index)];
        ReceiveAppend(c, stops, block);
        ToolBlockShown(cfg, d.(open := false), tool);
      } else {
        assert Emit(s, Call(tool)) == stops;
      }
    }
  }

  lemma ItemShown(cfg: Setup, s: Core, d: Doc, item: Item)
    requires Matches(s, d)
    ensures ReceiveAll(Show(cfg, d), Emit(s, item)) == Show(cfg, Absorb(d, item))
    ensures Absorb(d, item).Doc? ==> Matches(Feed(s, item), Absorb(d, item))
  {
    match item
    case Think(text) => ThinkShown(cfg, s, d, text);
    case Say(text) => SayShown(cfg, s, d, text);
    case Call(tool) => CallShown(cfg, s, d, tool);
  }

  lemma {:induction false} ClashStays(items: seq<Item>)
    ensures AbsorbAll(Clash, items) == Clash
  {
    if items != [] { ClashStays(items[1..]); }
  }

  lemma {:induction false} ItemsShown(cfg: Setup, s: Core, d: Doc, items: seq<Item>)
    requires Matches(s, d)
    ensures ReceiveAll(Show(cfg, d), RunEvents(s, items)) == Show(cfg, AbsorbAll(d, items))
    ensures AbsorbAll(d, items).Doc? ==> Matches(Run(s, items), AbsorbAll(d, items))
    decreases items
  {
    if items != [] {
      var item, rest := items[0], items[1..];
      ItemShown(cfg, s, d, item);
      ReceiveAppend(Show(cfg, d), Emit(s, item), RunEvents(Feed(s, item), rest));
      if Absorb(d, item).Clash? {
        BrokenStays(RunEvents(Feed(s, item), rest));
        ClashStays(rest);
      } else {
        ItemsShown(cfg, Feed(s, item), Absorb(d, item), rest);
      }
    }
  }

  // ---- Whole streams

  predicate DoneOnlyLast(chunks: seq<Chunk>) {
    && chunks != []
    && forall i :: 0 <= i < |chunks| ==> (chunks[i].done <==> i == |chunks| - 1)
  }

  /** What a client ends with, told from the items of the stream and its last chunk. */
  function Outcome(cfg: Setup, d: Doc, last: Chunk): Client {
    if d.Clash? then Broken
    else Complete(Message(cfg.id, cfg.model, d.blocks, MapStopReason(last.doneReason, |d.sent| > 0),
                          last.promptEvalCount, last.evalCount))
  }

  lemma FarewellShown(cfg: Setup, s: Core, d: Doc, r: Chunk)
    requires Matches(s, d)
    ensures ReceiveAll(Show(cfg, d), Farewell(s, r)) == Outcome(cfg, d, r)
  {
    var stop := StopIf(s.textStarted || s.ThinkingOpen(), s.index);
    var delta := MessageDelta(MapStopReason(r.doneReason, |s.sent| > 0), r.promptEvalCount, r.evalCount);
    var c := Show(cfg, d);
    StopsOpenBlock(cfg, d, s.index);
    assert [delta, MessageStop] == [delta] + [MessageStop];
    ReceiveAppend(c, stop, [delta, MessageStop]);
    ReceiveAppend(ReceiveAll(c, stop), [delta], [MessageStop]);
    ReceiveOne(ReceiveAll(c, stop), delta);
    ReceiveOne(Receive(ReceiveAll(c, stop), delta), MessageStop);
  }

  /** A middle chunk shows its items and no more. */
  lemma MiddleShown(cfg: Setup, v: Converter, d: Doc, r: Chunk)
    requires !v.first && !r.done && Matches(v.core, d)
    ensures var e := AbsorbAll(d, Items(r));
      && ReceiveAll(Show(cfg, d), Respond(cfg, v, r)) == Show(cfg, e)
      && (e.Doc? ==> Matches(Step(cfg, v, r).core, e))
  {
    ItemsShown(cfg, v.core, d, Items(r));
    assert Respond(cfg, v, r) == RunEvents(v.core, Items(r));
  }

  /** The last chunk shows its items and then ends the message. */
  lemma LastShown(cfg: Setup, v: Converter, d: Doc, r: Chunk)
    requires !v.first && r.done && Matches(v.core, d)
    ensures ReceiveAll(Show(cfg, d), Respond(cfg, v, r)) == Outcome(cfg, AbsorbAll(d, Items(r)), r)
  {
    var events, s, e := RunEvents(v.core, Items(r)), Run(v.core, Items(r)), AbsorbAll(d, Items(r));
    var bye := Farewell(s, r);
    ItemsShown(cfg, v.core, d, Items(r));
    assert Respond(cfg, v, r) == events + bye;
    ReceiveAppend(Show(cfg, d), events, bye);
    if e.Clash? { BrokenStays(bye); } else { FarewellShown(cfg, s, e, r); }
  }

  lemma FirstChunk(cfg: Setup, v: Converter, chunks: seq<Chunk>) returns (r: Chunk, rest: seq<Chunk>, said: seq<Event>)
    requires chunks != []
    ensures r == chunks[0] && rest == chunks[1..] && said == Respond(cfg, v, r)
    ensures StreamEvents(cfg, v, chunks) == said + StreamEvents(cfg, Step(cfg, v, r), rest)
    ensures AllItems(chunks) == Items(r) + AllItems(rest)
  {
    r, rest := chunks[0], chunks[1..];
    said := Respond(cfg, v, r);
  }

  /** From a converter that is past its first chunk. */
  lemma {:induction false} RestShown(cfg: Setup, v: Converter, d: Doc, chunks: seq<Chunk>)
    requires DoneOnlyLast(chunks) && !v.first
    requires d.Doc? ==> Matches(v.core, d)
    ensures ReceiveAll(Show(cfg, d), StreamEvents(cfg, v, chunks))
         == Outcome(cfg, AbsorbAll(d, AllItems(chunks)), chunks[|chunks| - 1])
    decreases chunks
  {
    if d.Clash? {
      BrokenStays(StreamEvents(cfg, v, chunks));
      ClashStays(AllItems(chunks));
      return;
    }
    var r, rest, said := FirstChunk(cfg, v, chunks);
    AbsorbAppend(d, Items(r), AllItems(rest));
    ReceiveAppend(Show(cfg, d), said, StreamEvents(cfg, Step(cfg, v, r), rest));
    if rest == [] {
      LastShown(cfg, v, d, r);
    } else {
      MiddleShown(cfg, v, d, r);
      assert forall i :: 0 <= i < |rest| ==> rest[i] == chunks[i + 1];
      RestShown(cfg, Step(cfg, v, r), AbsorbAll(d, Items(r)), rest);
    }
  }

  /** Folding the events of a stream gives the document its items describe. */
  lemma StreamRead(cfg: Setup, chunks: seq<Chunk>)
    requires DoneOnlyLast(chunks)
    ensures ReceiveAll(Waiting, StreamEvents(cfg, INITIAL, chunks))
         == Outcome(cfg, AbsorbAll(BLANK, AllItems(chunks)), chunks[|chunks| - 1])
  {
    var r := chunks[0];
    var started := INITIAL.(first := false, inputTokens := StartTokens(cfg, r));
    var hello := MessageStart(cfg.id, cfg.model, StartTokens(cfg, r));
    assert Step(cfg, INITIAL, r) == Step(cfg, started, r);
    assert StreamEvents(cfg, INITIAL, chunks) == [hello] + StreamEvents(cfg, started, chunks);
    ReceiveAppend(Waiting, [hello], StreamEvents(cfg, started, chunks));
    ReceiveOne(Waiting, hello);
    RestShown(cfg, started, BLANK, chunks);
  }

  // ---- Which streams break the grammar

  /** Ids under which some call has already become a block. */
  ghost function SentIds(items: seq<Item>): set<string> {
    set i | 0 <= i < |items| && items[i].Call? && items[i].tool.args.Json? :: items[i].tool.id
  }

  /** Content arrived and no call with an id not yet sent has closed it. */
  ghost predicate TextOpen(items: seq<Item>) {
    exists j :: 0 <= j < |items| && items[j].Say?
      && forall m :: j < m < |items| && items[m].Call? ==> items[m].tool.id in SentIds(items[..m])
  }

  /** The first thinking of the whole stream arrives while a text block is open. */
  ghost predicate Interrupts(items: seq<Item>, k: nat)
    requires k < |items|
  {
    items[k].Think? && (forall m :: 0 <= m < k ==> !items[m].Think?) && TextOpen(items[..k])
  }

  ghost predicate Interrupted(items: seq<Item>) {
    exists k :: 0 <= k < |items| && Interrupts(items, k)
  }

  lemma SentIdsSnoc(items: seq<Item>, item: Item)
    ensures SentIds(items + [item])
         == SentIds(items) + (if item.Call? && item.tool.args.Json? then {item.tool.id} else {})
  {
    var all := items + [item];
    forall id | id in SentIds(items) ensures id in SentIds(all) {
      var i :| 0 <= i < |items| && items[i].Call? && items[i].tool.args.Json? && items[i].tool.id == id;
      assert all[i] == items[i];
    }
    if item.Call? && item.tool.args.Json? { assert all[|items|] == item; }
  }

  lemma TextOpenSnoc(items: seq<Item>, item: Item)
    ensures TextOpen(items + [item])
        <==> item.Say? || (TextOpen(items) && (item.Call? ==> item.tool.id in SentIds(items)))
  {
    var all := items + [item];
    assert all[|items|] == item && all[..|items|] == items;
    assert forall m :: 0 <= m <= |items| ==> all[..m] == items[..m];
    if TextOpen(items) && (item.Call? ==> item.tool.id in SentIds(items)) {
      var j :| 0 <= j < |items| && items[j].Say?
        && forall m :: j < m < |items| && items[m].Call? ==> items[m].tool.id in SentIds(items[..m]);
      assert all[j].Say?;
    }
  }

  lemma InterruptedSnoc(items: seq<Item>, item: Item)
    ensures Interrupted(items + [item])
        <==> (Interrupted(items)
              || (item.Think? && (forall m :: 0 <= m < |items| ==> !items[m].Think?) && TextOpen(items)))
  {
    var all := items + [item];
    assert all[..|items|] == items;
    assert forall k :: 0 <= k <= |items| ==> all[..k] == items[..k];
    forall k | 0 <= k < |items| ensures Interrupts(items, k) <==> Interrupts(all, k) {
      assert forall m :: 0 <= m <= k ==> all[m] == items[m];
    }
    if Interrupted(items) {
      var k :| 0 <= k < |items| && Interrupts(items, k);
      assert Interrupts(all, k);
    }
    assert Interrupts(all, |items|)
      <==> item.Think? && (forall m :: 0 <= m < |items| ==> !items[m].Think?) && TextOpen(items);
  }

  lemma {:induction false} ClashIffInterrupted(items: seq<Item>)
    ensures var d := AbsorbAll(BLANK, items);
      && (d.Clash? <==> Interrupted(items))
      && (d.Doc? ==>
          && d.sent == SentIds(items)
          && (d.latch.Unthought? <==> forall m :: 0 <= m < |items| ==> !items[m].Think?)
          && (d.latch.Unthought? ==> (d.open <==> TextOpen(items))))
  {
    if items != [] {
      var init, item := items[..|items| - 1], items[|items| - 1];
      assert items == init + [item];
      ClashIffInterrupted(init);
      AbsorbSnoc(BLANK, init, item);
      SentIdsSnoc(init, item);
      TextOpenSnoc(init, item);
      InterruptedSnoc(init, item);
      assert (forall m :: 0 <= m < |items| ==> !items[m].Think?)
        <==> !item.Think? && (forall m :: 0 <= m < |init| ==> !init[m].Think?);
    }
  }

  /** A stream obeys the event grammar exactly when its first thinking does not arrive while a
      text block is open. */
  lemma GrammarExactlyUnlessInterrupted(cfg: Setup, chunks: seq<Chunk>)
    requires DoneOnlyLast(chunks)
    ensures var c := ReceiveAll(Waiting, StreamEvents(cfg, INITIAL, chunks));
      && (c.Complete? <==> !Interrupted(AllItems(chunks)))
      && (c.Broken? <==> Interrupted(AllItems(chunks)))
  {
    StreamRead(cfg, chunks);
    ClashIffInterrupted(AllItems(chunks));
  }

  /** The smallest stream that breaks it. */
  lemma LateThinkingBreaksGrammar(cfg: Setup)
    ensures var chunks := [Chunk("m", "", "hi", [], false, "", 0, 0), Chunk("m", "hm", "", [], true, "stop", 0, 0)];
      DoneOnlyLast(chunks) && ReceiveAll(Waiting, StreamEvents(cfg, INITIAL, chunks)) == Broken
  {
    var a, b := Chunk("m", "", "hi", [], false, "", 0, 0), Chunk("m", "hm", "", [], true, "stop", 0, 0);
    StreamRead(cfg, [a, b]);
    assert Items(a) == [Say("hi")] && Items(b) == [Think("hm")];
    assert AllItems([a, b]) == [Say("hi"), Think("hm")] by {
      assert [a, b][1..] == [b] && AllItems([b]) == Items(b) + AllItems([]);
    }
    assert AbsorbAll(BLANK, [Say("hi")] + [Think("hm")]) == Clash by {
      AbsorbSnoc(BLANK, [Say("hi")], Think("hm"));
      AbsorbSnoc(BLANK, [], Say("hi"));
    }
    assert [Say("hi")] + [Think("hm")] == [Say("hi"), Think("hm")];
  }

  // ---- How a message begins and ends

  ghost predicate Marshals(r: Chunk, i: nat) { i < |r.toolCalls| && r.toolCalls[i].args.Json? }

  /** Some call of the stream has arguments that marshal. */
  ghost predicate SomeCallMarshals(chunks: seq<Chunk>) {
    exists c: nat, i: nat :: c < |chunks| && Marshals(chunks[c], i)
  }

  ghost predicate Sends(items: seq<Item>) {
    exists i :: 0 <= i < |items| && items[i].Call? && items[i].tool.args.Json?
  }

  lemma SendsAppend(a: seq<Item>, b: seq<Item>)
    ensures Sends(a + b) <==> Sends(a) || Sends(b)
  {
    var all := a + b;
    if Sends(a) {
      var i :| 0 <= i < |a| && a[i].Call? && a[i].tool.args.Json?;
      assert all[i] == a[i];
    }
    if Sends(b) {
      var i :| 0 <= i < |b| && b[i].Call? && b[i].tool.args.Json?;
      assert all[|a| + i] == b[i];
    }
  }

  lemma ChunkSends(r: Chunk)
    ensures Sends(Items(r)) <==> exists i: nat :: Marshals(r, i)
  {
    var calls := Calls(r.toolCalls);
    var front := (if r.thinking != "" then [Think(r.thinking)] else []) + (if r.content != "" then [Say(r.content)] else []);
    assert Items(r) == front + calls && !Sends(front);
    SendsAppend(front, calls);
    if i: nat :| Marshals(r, i) {
      assert calls[i] == Call(r.toolCalls[i]);
    }
    if Sends(calls) {
      var i :| 0 <= i < |calls| && calls[i].Call? && calls[i].tool.args.Json?;
      assert Marshals(r, i);
    }
  }

  lemma SomeCallFirst(chunks: seq<Chunk>)
    requires chunks != []
    ensures SomeCallMarshals(chunks) <==> (exists i: nat :: Marshals(chunks[0], i)) || SomeCallMarshals(chunks[1..])
  {
    var rest := chunks[1..];
    if c: nat, i: nat :| c < |chunks| && Marshals(chunks[c], i) {
      assert c > 0 ==> rest[c - 1] == chunks[c];
    }
    if c: nat, i: nat :| c < |rest| && Marshals(rest[c], i) {
      assert chunks[c + 1] == rest[c];
    }
  }

  lemma {:induction false} StreamSends(chunks: seq<Chunk>)
    ensures Sends(AllItems(chunks)) <==> SomeCallMarshals(chunks)
  {
    if chunks != [] {
      StreamSends(chunks[1..]);
      SomeCallFirst(chunks);
      ChunkSends(chunks[0]);
      SendsAppend(Items(chunks[0]), AllItems(chunks[1..]));
    }
  }

  lemma SentIfSends(items: seq<Item>)
    ensures |SentIds(items)| > 0 <==> Sends(items)
  {
    if Sends(items) {
      var i :| 0 <= i < |items| && items[i].Call? && items[i].tool.args.Json?;
      assert items[i].tool.id in SentIds(items);
    }
    if SentIds(items) != {} {
      var id :| id in SentIds(items);
    }
  }

  /** The message of a stream that obeys the grammar says why it ended: a call if any call marshalled,
      else the reason of the last chunk in the words of the Messages API. */
  lemma {:induction false} MessageEnds(cfg: Setup, chunks: seq<Chunk>)
    requires DoneOnlyLast(chunks) && !Interrupted(AllItems(chunks))
    ensures var c := ReceiveAll(Waiting, StreamEvents(cfg, INITIAL, chunks)); var last := chunks[|chunks| - 1];
      && c.Complete?
      && (c.message.stopReason == "tool_use" <==> SomeCallMarshals(chunks))
      && (!SomeCallMarshals(chunks) ==>
          && (last.doneReason == "stop" ==> c.message.stopReason == "end_turn")
          && (last.doneReason == "length" ==> c.message.stopReason == "max_tokens")
          && (last.doneReason == "" ==> c.message.stopReason == "")
          && (last.doneReason !in {"stop", "length", ""} ==> c.message.stopReason == "stop_sequence"))
      && c.message.id == cfg.id && c.message.model == cfg.model
      && c.message.inputTokens == last.promptEvalCount && c.message.outputTokens == last.evalCount
  {
    var items := AllItems(chunks);
    StreamRead(cfg, chunks);
    ClashIffInterrupted(items);
    SentIfSends(items);
    StreamSends(chunks);
  }

  lemma {:induction false} ItemsStartNothing(s: Core, items: seq<Item>)
    ensures forall e :: e in RunEvents(s, items) ==> !e.MessageStart?
    decreases items
  {
    if items != [] {
      ItemsStartNothing(Feed(s, items[0]), items[1..]);
    }
  }

  lemma {:induction false} NoOtherStart(cfg: Setup, v: Converter, chunks: seq<Chunk>)
    requires !v.first
    ensures forall e :: e in StreamEvents(cfg, v, chunks) ==> !e.MessageStart?
    decreases chunks
  {
    if chunks != [] {
      ItemsStartNothing(v.core, Items(chunks[0]));
      NoOtherStart(cfg, Step(cfg, v, chunks[0]), chunks[1..]);
    }
  }

  lemma StreamStarts(cfg: Setup, chunks: seq<Chunk>) returns (hello: Event, rest: seq<Event>)
    requires chunks != []
    ensures hello == MessageStart(cfg.id, cfg.model, StartTokens(cfg, chunks[0]))
    ensures StreamEvents(cfg, INITIAL, chunks) == [hello] + rest
    ensures forall e :: e in rest ==> !e.MessageStart?
  {
    var started := INITIAL.(first := false, inputTokens := StartTokens(cfg, chunks[0]));
    hello := MessageStart(cfg.id, cfg.model, StartTokens(cfg, chunks[0]));
    rest := StreamEvents(cfg, started, chunks);
    assert Step(cfg, INITIAL, chunks[0]) == Step(cfg, started, chunks[0]);
    assert StreamEvents(cfg, INITIAL, chunks) == [hello] + rest;
    NoOtherStart(cfg, started, chunks);
  }

  /** Every stream begins with one message_start, whose input tokens are those of the first chunk, or the
      estimate if that chunk has none and there is one. */
  lemma MessageBegins(cfg: Setup, chunks: seq<Chunk>)
    requires chunks != []
    ensures var events := StreamEvents(cfg, INITIAL, chunks);
      && events != [] && events[0].MessageStart?
      && events[0].id == cfg.id && events[0].model == cfg.model
      && (chunks[0].promptEvalCount != 0 ==> events[0].startTokens == chunks[0].promptEvalCount)
      && (chunks[0].promptEvalCount == 0 && cfg.estimatedInputTokens > 0 ==>
          events[0].startTokens == cfg.estimatedInputTokens)
      && (chunks[0].promptEvalCount == 0 && cfg.estimatedInputTokens <= 0 ==> events[0].startTokens == 0)
      && forall i :: 0 < i < |events| ==> !events[i].MessageStart?
  {
    var hello, rest := StreamStarts(cfg, chunks);
    var events := [hello] + rest;
    forall i | 0 < i < |events| ensures !events[i].MessageStart? {
      assert events[i] == rest[i - 1];
    }
  }
}
