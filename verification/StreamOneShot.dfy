/** The one-shot conversion of a whole answer, and exactly when streaming the same answer in
    chunks reassembles to it. */
module StreamOneShot {
  import opened AnthropicTypes
  import opened StreamConverting
  import opened StreamReading
  import opened StreamConservation

  function ToolBlocks(tools: seq<ToolCall>): (blocks: seq<Block>)
    ensures |blocks| == |tools|
    ensures forall i :: 0 <= i < |tools| ==> blocks[i] == ToolBlock(tools[i].id, tools[i].name, tools[i].args)
  {
    seq(|tools|, i requires 0 <= i < |tools| => ToolBlock(tools[i].id, tools[i].name, tools[i].args))
  }

  function WholeBlocks(thinking: string, content: string, tools: seq<ToolCall>): seq<Block> {
    (if thinking != "" then [ThinkingBlock(thinking)] else [])
    + (if content != "" then [TextBlock(content)] else [])
    + ToolBlocks(tools)
  }

  function OneShot(id: string, r: Chunk): Message {
    Message(id, r.model, WholeBlocks(r.thinking, r.content, r.toolCalls),
            MapStopReason(r.doneReason, |r.toolCalls| > 0), r.promptEvalCount, r.evalCount)
  }

  method ToMessagesResponse(id: string, r: Chunk) returns (message: Message)
    ensures message == OneShot(id, r)
    ensures message.stopReason == "tool_use" <==> |r.toolCalls| > 0
    ensures r.toolCalls == [] && r.doneReason == "stop" ==> message.stopReason == "end_turn"
    ensures r.toolCalls == [] && r.doneReason == "length" ==> message.stopReason == "max_tokens"
    ensures r.toolCalls == [] && r.doneReason == "" ==> message.stopReason == ""
    ensures r.toolCalls == [] && r.doneReason !in {"stop", "length", ""} ==> message.stopReason == "stop_sequence"
  {
    var content: seq<Block> := [];
    if r.thinking != "" {
      content := content + [ThinkingBlock(r.thinking)];
    }
    if r.content != "" {
      content := content + [TextBlock(r.content)];
    }
    ghost var front := content;
    for i := 0 to |r.toolCalls|
      invariant content == front + ToolBlocks(r.toolCalls[..i])
    {
      var tool := r.toolCalls[i];
      content := content + [ToolBlock(tool.id, tool.name, tool.args)];
      assert ToolBlocks(r.toolCalls[..i + 1]) == ToolBlocks(r.toolCalls[..i]) + [ToolBlock(tool.id, tool.name, tool.args)];
    }
    assert r.toolCalls[..|r.toolCalls|] == r.toolCalls;
    var stopReason := MapStopReason(r.doneReason, |r.toolCalls| > 0);
    message := Message(id, r.model, content, stopReason, r.promptEvalCount, r.evalCount);
  }

  /** The answer a stream was cut from: everything concatenated, the rest taken from the last chunk. */
  function Gather(chunks: seq<Chunk>): Chunk
    requires chunks != []
  {
    chunks[|chunks| - 1].(
      thinking := AllThinking(chunks), content := AllContent(chunks), toolCalls := AllToolCalls(chunks))
  }

  function Rank(item: Item): nat {
    match item
    case Think(_) => 0
    case Say(_) => 1
    case Call(_) => 2
  }

  /** Thinking, then content, then tool calls, each call marshalling under an id of its own. */
  predicate Orderly(items: seq<Item>) {
    && (forall i, j :: 0 <= i < j < |items| ==> Rank(items[i]) <= Rank(items[j]))
    && (forall i :: 0 <= i < |items| && items[i].Call? ==> items[i].tool.args.Json?)
    && (forall i, j :: 0 <= i < j < |items| && items[i].Call? && items[j].Call? ==> items[i].tool.id != items[j].tool.id)
  }

  predicate NoEmptyItem(items: seq<Item>) {
    forall i :: 0 <= i < |items| && !items[i].Call? ==> items[i].text != ""
  }

  lemma {:induction false} ChunksHaveNoEmptyItem(chunks: seq<Chunk>)
    ensures NoEmptyItem(AllItems(chunks))
  {
    if chunks != [] { ChunksHaveNoEmptyItem(chunks[1..]); }
  }

  function Whole(items: seq<Item>): seq<Block> {
    WholeBlocks(Thoughts(items), Said(items), CallsOf(items))
  }

  // ---- An orderly stream describes the whole answer

  lemma WholeSnoc(init: seq<Item>, item: Item)
    ensures Thoughts(init + [item]) == Thoughts(init) + if item.Think? then item.text else ""
    ensures Said(init + [item]) == Said(init) + if item.Say? then item.text else ""
    ensures CallsOf(init + [item]) == CallsOf(init) + if item.Call? then [item.tool] else []
  {
    ItemsAppend(init, [item]);
    OneItem(item);
  }

  lemma OneItem(item: Item)
    ensures Thoughts([item]) == if item.Think? then item.text else ""
    ensures Said([item]) == if item.Say? then item.text else ""
    ensures CallsOf([item]) == if item.Call? then [item.tool] else []
  {
    assert [item][1..] == [];
  }

  lemma {:induction false} RankBounds(items: seq<Item>)
    requires NoEmptyItem(items)
    ensures (forall i :: 0 <= i < |items| ==> !items[i].Call?) <==> CallsOf(items) == []
    ensures (forall i :: 0 <= i < |items| ==> !items[i].Say?) <==> Said(items) == ""
    ensures (forall i :: 0 <= i < |items| ==> !items[i].Think?) <==> Thoughts(items) == ""
  {
    if items != [] {
      RankBounds(items[1..]);
      assert items == [items[0]] + items[1..];
    }
  }

  /** How the document stands after an orderly stream whose last item has this rank. */
  ghost predicate Stands(items: seq<Item>, d: Doc) {
    && d.Doc?
    && d.blocks == Whole(items)
    && d.sent == SentIds(items)
    && (items == [] ==> d == BLANK)
    && (items != [] ==>
        match Rank(items[|items| - 1])
        case 0 => d.open && d.latch.Thinking?
        case 1 => d.open && !d.latch.Thinking?
        case _ => !d.open && !d.latch.Thinking?)
  }

  lemma ThinkStep(init: seq<Item>, text: string, d: Doc)
    requires Orderly(init + [Think(text)]) && NoEmptyItem(init + [Think(text)]) && Stands(init, d)
    ensures Stands(init + [Think(text)], Absorb(d, Think(text)))
  {
    var items := init + [Think(text)];
    WholeSnoc(init, Think(text));
    SentIdsSnoc(init, Think(text));
    assert forall i :: 0 <= i < |init| ==> items[i] == init[i] && Rank(items[i]) <= Rank(items[|init|]);
    RankBounds(init);
    assert CallsOf(init) == [] && Said(init) == "";
    assert Whole(items) == [ThinkingBlock(Thoughts(items))];
    if init == [] {
      assert Thoughts(init) + text == text;
    } else {
      assert Whole(init) == [ThinkingBlock(Thoughts(init))];
    }
  }

  lemma SayStep(init: seq<Item>, text: string, d: Doc)
    requires Orderly(init + [Say(text)]) && NoEmptyItem(init + [Say(text)]) && Stands(init, d)
    ensures Stands(init + [Say(text)], Absorb(d, Say(text)))
  {
    var items := init + [Say(text)];
    WholeSnoc(init, Say(text));
    SentIdsSnoc(init, Say(text));
    assert forall i :: 0 <= i < |init| ==> items[i] == init[i] && Rank(items[i]) <= Rank(items[|init|]);
    RankBounds(init);
    var front := if Thoughts(init) != "" then [ThinkingBlock(Thoughts(init))] else [];
    assert CallsOf(init) == [] && Thoughts(items) == Thoughts(init);
    assert Whole(items) == front + [TextBlock(Said(items))];
    if init != [] && init[|init| - 1].Say? {
      assert Whole(init) == front + [TextBlock(Said(init))];
    } else {
      if init != [] { assert forall i :: 0 <= i < |init| ==> Rank(items[i]) <= Rank(items[|init| - 1]); }
      assert Said(init) == "" && Said(init) + text == text;
      assert Whole(init) == front;
    }
  }

  lemma CallStep(init: seq<Item>, tool: ToolCall, d: Doc)
    requires Orderly(init + [Call(tool)]) && Stands(init, d)
    ensures Stands(init + [Call(tool)], Absorb(d, Call(tool)))
  {
    var items := init + [Call(tool)];
    WholeSnoc(init, Call(tool));
    SentIdsSnoc(init, Call(tool));
    assert forall i :: 0 <= i < |init| ==> items[i] == init[i];
    assert items[|init|] == Call(tool) && tool.id !in SentIds(init);
    var block := ToolBlock(tool.id, tool.name, tool.args);
    assert ToolBlocks(CallsOf(init) + [tool]) == ToolBlocks(CallsOf(init)) + [block];
    assert Thoughts(items) == Thoughts(init) && Said(items) == Said(init);
    assert Whole(items) == Whole(init) + [block];
  }

  lemma OrderlyPrefix(init: seq<Item>, item: Item)
    requires Orderly(init + [item]) && NoEmptyItem(init + [item])
    ensures Orderly(init) && NoEmptyItem(init)
  {
    assert forall i :: 0 <= i < |init| ==> init[i] == (init + [item])[i];
  }

  lemma ItemStep(init: seq<Item>, item: Item, d: Doc)
    requires Orderly(init + [item]) && NoEmptyItem(init + [item]) && Stands(init, d)
    ensures Stands(init + [item], Absorb(d, item))
  {
    match item
    case Think(text) => ThinkStep(init, text, d);
    case Say(text) => SayStep(init, text, d);
    case Call(tool) => CallStep(init, tool, d);
  }

  lemma {:induction false} OrderlyStands(items: seq<Item>)
    requires Orderly(items) && NoEmptyItem(items)
    ensures Stands(items, AbsorbAll(BLANK, items))
  {
    if items != [] {
      var init, item := items[..|items| - 1], items[|items| - 1];
      assert items == init + [item];
      OrderlyPrefix(init, item);
      OrderlyStands(init);
      AbsorbSnoc(BLANK, init, item);
      ItemStep(init, item, AbsorbAll(BLANK, init));
    }
  }

  // ---- Only an orderly stream does

  function BlockRank(block: Block): nat {
    match block
    case ThinkingBlock(_) => 0
    case TextBlock(_) => 1
    case ToolBlock(_, _, _) => 2
  }

  ghost predicate Sorted(blocks: seq<Block>) {
    forall i, j :: 0 <= i < j < |blocks| ==> BlockRank(blocks[i]) <= BlockRank(blocks[j])
  }

  /** The converter ignores the item: thinking after it was closed, a repeated id, or arguments that
      do not marshal. */
  ghost predicate Drops(d: Doc, item: Item) {
    d.Doc? && ((item.Think? && d.latch.Thought?) || (item.Call? && (item.tool.id in d.sent || item.tool.args.Unmarshalable?)))
  }

  ghost predicate Lossless(items: seq<Item>) {
    forall k :: 0 <= k < |items| ==> !Drops(AbsorbAll(BLANK, items[..k]), items[k])
  }

  /** Thinking characters and calls, counted on the items and on the blocks. */
  function ItemWeight(item: Item): nat {
    match item
    case Think(text) => |text|
    case Say(_) => 0
    case Call(_) => 1
  }

  function BlockWeight(block: Block): nat {
    match block
    case ThinkingBlock(text) => |text|
    case TextBlock(_) => 0
    case ToolBlock(_, _, _) => 1
  }

  function Weight(blocks: seq<Block>): nat {
    if blocks == [] then 0 else Weight(blocks[..|blocks| - 1]) + BlockWeight(blocks[|blocks| - 1])
  }

  lemma WeightSnoc(blocks: seq<Block>, block: Block)
    ensures Weight(blocks + [block]) == Weight(blocks) + BlockWeight(block)
  {
    assert (blocks + [block])[..|blocks|] == blocks;
  }

  lemma {:induction false} WeightOfWhole(items: seq<Item>)
    ensures Weight(Whole(items)) == |Thoughts(items)| + |CallsOf(items)|
  {
    var front := (if Thoughts(items) != "" then [ThinkingBlock(Thoughts(items))] else [])
      + (if Said(items) != "" then [TextBlock(Said(items))] else []);
    if Thoughts(items) != "" { WeightSnoc([], ThinkingBlock(Thoughts(items))); }
    if Said(items) != "" { WeightSnoc(if Thoughts(items) != "" then [ThinkingBlock(Thoughts(items))] else [], TextBlock(Said(items))); }
    assert Weight(front) == |Thoughts(items)|;
    ToolWeight(front, CallsOf(items));
  }

  lemma {:induction false} ToolWeight(front: seq<Block>, tools: seq<ToolCall>)
    ensures Weight(front + ToolBlocks(tools)) == Weight(front) + |tools|
  {
    if tools == [] {
      assert front + ToolBlocks(tools) == front;
    } else {
      var init, last := tools[..|tools| - 1], tools[|tools| - 1];
      ToolWeight(front, init);
      WeightSnoc(front + ToolBlocks(init), ToolBlock(last.id, last.name, last.args));
      assert front + ToolBlocks(tools) == front + ToolBlocks(init) + [ToolBlock(last.id, last.name, last.args)];
    }
  }

  ghost predicate WellFormed(d: Doc) {
    && d.Doc?
    && (d.open ==> d.blocks != [])
    && (d.latch.Thinking? ==> d.open)
    && (d.open ==> (if d.latch.Thinking? then d.blocks[|d.blocks| - 1].ThinkingBlock? else d.blocks[|d.blocks| - 1].TextBlock?))
  }

  lemma Appended(blocks: seq<Block>, block: Block)
    ensures Weight(blocks + [block]) == Weight(blocks) + BlockWeight(block)
    ensures Sorted(blocks + [block]) ==> Sorted(blocks)
    ensures Sorted(blocks + [block]) && blocks != [] ==> BlockRank(blocks[|blocks| - 1]) <= BlockRank(block)
  {
    var all := blocks + [block];
    WeightSnoc(blocks, block);
    assert forall i :: 0 <= i < |blocks| ==> all[i] == blocks[i];
    assert all[|blocks|] == block;
  }

  lemma Extended(blocks: seq<Block>, text: string)
    requires blocks != [] && !blocks[|blocks| - 1].ToolBlock?
    ensures |Extend(blocks, text)| == |blocks|
    ensures forall i :: 0 <= i < |blocks| ==> BlockRank(Extend(blocks, text)[i]) == BlockRank(blocks[i])
    ensures Weight(Extend(blocks, text)) == Weight(blocks) + if blocks[|blocks| - 1].ThinkingBlock? then |text| else 0
    ensures Sorted(Extend(blocks, text)) ==> Sorted(blocks)
  {
    var last, longer := |blocks| - 1, Extend(blocks, text);
    WeightSnoc(blocks[..last], blocks[last]);
    WeightSnoc(blocks[..last], longer[last]);
    assert blocks == blocks[..last] + [blocks[last]];
    assert longer == blocks[..last] + [longer[last]];
  }

  /** Absorbing an item of `d` into `e`: weight is added unless the item is dropped, and sorted
      blocks come from sorted blocks and an item that does not rank lower. */
  ghost predicate Kept(d: Doc, item: Item, e: Doc)
    requires d.Doc? && e.Doc?
  {
    && WellFormed(e)
    && Weight(e.blocks) == Weight(d.blocks) + (if Drops(d, item) then 0 else ItemWeight(item))
    && (Sorted(e.blocks) ==> Sorted(d.blocks))
    && (!Drops(d, item) ==>
        && e.blocks != [] && BlockRank(e.blocks[|e.blocks| - 1]) == Rank(item)
        && (Sorted(e.blocks) && d.blocks != [] ==> BlockRank(d.blocks[|d.blocks| - 1]) <= Rank(item)))
  }

  lemma ThinkKept(d: Doc, text: string)
    requires WellFormed(d) && Absorb(d, Think(text)).Doc?
    ensures Kept(d, Think(text), Absorb(d, Think(text)))
  {
    if d.latch.Thinking? {
      Extended(d.blocks, text);
    } else if d.latch.Unthought? {
      Appended(d.blocks, ThinkingBlock(text));
    }
  }

  lemma SayKept(d: Doc, text: string)
    requires WellFormed(d)
    ensures Kept(d, Say(text), Absorb(d, Say(text)))
  {
    if d.open && !d.latch.Thinking? {
      Extended(d.blocks, text);
    } else {
      Appended(d.blocks, TextBlock(text));
    }
  }

  lemma CallKept(d: Doc, tool: ToolCall)
    requires WellFormed(d)
    ensures Kept(d, Call(tool), Absorb(d, Call(tool)))
  {
    if tool.id !in d.sent && tool.args.Json? {
      Appended(d.blocks, ToolBlock(tool.id, tool.name, tool.args));
    }
  }

  lemma AbsorbKept(d: Doc, item: Item)
    requires WellFormed(d) && Absorb(d, item).Doc?
    ensures Kept(d, item, Absorb(d, item))
  {
    match item
    case Think(text) => ThinkKept(d, text);
    case Say(text) => SayKept(d, text);
    case Call(tool) => CallKept(d, tool);
  }

  lemma {:induction false} LosslessByWeight(items: seq<Item>)
    requires NoEmptyItem(items) && AbsorbAll(BLANK, items).Doc?
    ensures WellFormed(AbsorbAll(BLANK, items))
    ensures Weight(AbsorbAll(BLANK, items).blocks) <= |Thoughts(items)| + |CallsOf(items)|
    ensures Weight(AbsorbAll(BLANK, items).blocks) == |Thoughts(items)| + |CallsOf(items)| ==> Lossless(items)
  {
    if items != [] {
      var init, item := items[..|items| - 1], items[|items| - 1];
      assert items == init + [item];
      AbsorbSnoc(BLANK, init, item);
      LosslessByWeight(init);
      ItemsAppend(init, [item]);
      AbsorbKept(AbsorbAll(BLANK, init), item);
      assert forall k :: 0 <= k < |init| ==> items[..k] == init[..k] && items[k] == init[k];
    }
  }

  ghost predicate Ascending(items: seq<Item>) {
    forall i, j :: 0 <= i < j < |items| ==> Rank(items[i]) <= Rank(items[j])
  }

  lemma AscendingSnoc(init: seq<Item>, item: Item)
    requires Ascending(init) && (init != [] ==> Rank(init[|init| - 1]) <= Rank(item))
    ensures Ascending(init + [item])
  {
    var items := init + [item];
    forall i, j | 0 <= i < j < |items| ensures Rank(items[i]) <= Rank(items[j]) {
      assert j == |init| ==> Rank(init[i]) <= Rank(init[|init| - 1]);
    }
  }

  lemma LosslessPrefix(init: seq<Item>, item: Item)
    requires Lossless(init + [item]) && NoEmptyItem(init + [item])
    ensures Lossless(init) && NoEmptyItem(init) && !Drops(AbsorbAll(BLANK, init), item)
  {
    var items := init + [item];
    assert items[..|init|] == init && items[|init|] == item;
    assert forall k :: 0 <= k < |init| ==> items[..k] == init[..k] && items[k] == init[k];
  }

  lemma {:induction false} SortedBlocksSortItems(items: seq<Item>)
    requires Lossless(items)
    requires var d := AbsorbAll(BLANK, items); WellFormed(d) && Sorted(d.blocks)
    requires NoEmptyItem(items)
    ensures Ascending(items)
    ensures items != [] ==>
      var blocks := AbsorbAll(BLANK, items).blocks;
      blocks != [] && BlockRank(blocks[|blocks| - 1]) == Rank(items[|items| - 1])
  {
    if items != [] {
      var init, item := items[..|items| - 1], items[|items| - 1];
      assert items == init + [item];
      LosslessPrefix(init, item);
      AbsorbSnoc(BLANK, init, item);
      LosslessByWeight(init);
      AbsorbKept(AbsorbAll(BLANK, init), item);
      SortedBlocksSortItems(init);
      AscendingSnoc(init, item);
    }
  }

  lemma LosslessCall(items: seq<Item>, j: nat)
    requires Lossless(items) && AbsorbAll(BLANK, items).Doc?
    requires j < |items| && items[j].Call?
    ensures items[j].tool.args.Json? && items[j].tool.id !in SentIds(items[..j])
  {
    var d := AbsorbAll(BLANK, items[..j]);
    assert items == items[..j] + items[j..];
    AbsorbAppend(BLANK, items[..j], items[j..]);
    if d.Clash? { ClashStays(items[j..]); }
    ClashIffInterrupted(items[..j]);
    assert !Drops(d, items[j]);
  }

  lemma LosslessCalls(items: seq<Item>)
    requires Lossless(items) && AbsorbAll(BLANK, items).Doc?
    ensures forall j :: 0 <= j < |items| && items[j].Call? ==> items[j].tool.args.Json?
    ensures forall i, j :: 0 <= i < j < |items| && items[i].Call? && items[j].Call? ==> items[i].tool.id != items[j].tool.id
  {
    forall j | 0 <= j < |items| && items[j].Call? ensures items[j].tool.args.Json? {
      LosslessCall(items, j);
    }
    forall i, j | 0 <= i < j < |items| && items[i].Call? && items[j].Call?
      ensures items[i].tool.id != items[j].tool.id
    {
      LosslessCall(items, j);
      assert items[..j][i] == items[i];
    }
  }

  lemma WholeSorted(thinking: string, content: string, tools: seq<ToolCall>)
    ensures Sorted(WholeBlocks(thinking, content, tools))
  {
  }

  /** The document is the whole answer exactly when the stream is orderly. */
  lemma WholeIffOrderly(items: seq<Item>)
    requires NoEmptyItem(items)
    ensures (AbsorbAll(BLANK, items).Doc? && AbsorbAll(BLANK, items).blocks == Whole(items)) <==> Orderly(items)
  {
    if Orderly(items) { OrderlyStands(items); }
    var d := AbsorbAll(BLANK, items);
    if d.Doc? && d.blocks == Whole(items) {
      WeightOfWhole(items);
      LosslessByWeight(items);
      WholeSorted(Thoughts(items), Said(items), CallsOf(items));
      SortedBlocksSortItems(items);
      LosslessCalls(items);
    }
  }

  lemma {:induction false} CallsSent(items: seq<Item>)
    requires Orderly(items)
    ensures |SentIds(items)| > 0 <==> |CallsOf(items)| > 0
  {
    if items != [] {
      var init, item := items[..|items| - 1], items[|items| - 1];
      assert items == init + [item];
      CallsSent(init);
      SentIdsSnoc(init, item);
      ItemsAppend(init, [item]);
      if SentIds(items) != {} { var id :| id in SentIds(items); }
      if item.Call? { assert item.tool.id in SentIds(items); }
    }
  }

  /** Streaming refines the one-shot form: the events of a stream reassemble to the one-shot message
      of the gathered answer exactly when the stream is orderly and names the converter's model. */
  lemma {:induction false} StreamingIsOneShotExactlyWhenOrderly(cfg: Setup, chunks: seq<Chunk>)
    requires DoneOnlyLast(chunks)
    ensures ReceiveAll(Waiting, StreamEvents(cfg, INITIAL, chunks)) == Complete(OneShot(cfg.id, Gather(chunks)))
        <==> (Orderly(AllItems(chunks)) && chunks[|chunks| - 1].model == cfg.model)
  {
    var items := AllItems(chunks);
    StreamRead(cfg, chunks);
    ChunksItems(chunks);
    ChunksHaveNoEmptyItem(chunks);
    WholeIffOrderly(items);
    if Orderly(items) {
      OrderlyStands(items);
      CallsSent(items);
    }
  }
}
