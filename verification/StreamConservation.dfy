/** What a stream of events keeps of the chunks it was made from, in any order of chunks and
    however they are cut. */
module StreamConservation {
  import opened Common
  import opened AnthropicTypes
  import opened StreamConverting
  import opened StreamReading

  // ---- Conservation over arbitrary chunk orders

  /** What a delta or the head of a tool block carries to the client. */
  datatype Parcel = Words(text: string) | Musing(text: string) | Opened(id: string, name: string) | Input(json: string)

  function Carried(e: Event): seq<Parcel> {
    match e
    case BlockStart(_, ToolHead(id, name)) => [Opened(id, name)]
    case BlockDelta(_, TextDelta(t)) => [Words(t)]
    case BlockDelta(_, ThinkingDelta(t)) => [Musing(t)]
    case BlockDelta(_, InputJsonDelta(t)) => [Input(t)]
    case _ => []
  }

  function Parcels(events: seq<Event>): seq<Parcel> {
    if events == [] then [] else Carried(events[0]) + Parcels(events[1..])
  }

  lemma {:induction false} ParcelsAppend(a: seq<Event>, b: seq<Event>)
    ensures Parcels(a + b) == Parcels(a) + Parcels(b)
  {
    if a == [] {
      assert a + b == b;
    } else {
      assert (a + b)[1..] == a[1..] + b;
      ParcelsAppend(a[1..], b);
    }
  }

  function Added(s: Core, item: Item): seq<Parcel> {
    match item
    case Think(text) => if s.thinkingDone then [] else [Musing(text)]
    case Say(text) => [Words(text)]
    case Call(tool) =>
      if tool.id in s.sent || tool.args.Unmarshalable? then []
      else [Opened(tool.id, tool.name), Input(tool.args.text)]
  }

  lemma ToolParcels(tool: ToolCall, index: nat)
    requires tool.args.Json?
    ensures Parcels([BlockStart(index, ToolHead(tool.id, tool.name)),
                     BlockDelta(index, InputJsonDelta(tool.args.text)),
                     BlockStop(index)])
         == [Opened(tool.id, tool.name), Input(tool.args.text)]
  {
    var e1 := BlockStart(index, ToolHead(tool.id, tool.name));
    var e2 := BlockDelta(index, InputJsonDelta(tool.args.text));
    var e3 := BlockStop(index);
    assert [e1, e2, e3][1..] == [e2, e3] && [e2, e3][1..] == [e3];
    assert Parcels([e3]) == [];
  }

  lemma StopParcels(open: bool, index: nat)
    ensures Parcels(StopIf(open, index)) == []
  {
  }

  lemma SayParcels(s: Core, text: string)
    ensures Parcels(Emit(s, Say(text))) == [Words(text)]
  {
    var t := s.CloseThinking();
    var stop := StopIf(s.ThinkingOpen(), s.index);
    var start := StartIf(!t.textStarted, t.index, TextHead);
    StopParcels(s.ThinkingOpen(), s.index);
    ParcelsAppend(stop + start, [BlockDelta(t.index, TextDelta(text))]);
    ParcelsAppend(stop, start);
  }

  lemma CallParcels(s: Core, tool: ToolCall)
    ensures Parcels(Emit(s, Call(tool))) == Added(s, Call(tool))
  {
    if tool.id !in s.sent {
      var t := s.CloseThinking();
      var u := t.CloseText();
      var stop1, stop2 := StopIf(s.ThinkingOpen(), s.index), StopIf(t.textStarted, t.index);
      StopParcels(s.ThinkingOpen(), s.index);
      StopParcels(t.textStarted, t.index);
      ParcelsAppend(stop1, stop2);
      if tool.args.Json? {
        ToolParcels(tool, u.index);
        ParcelsAppend(stop1 + stop2,
          [BlockStart(u.index, ToolHead(tool.id, tool.name)),
           BlockDelta(u.index, InputJsonDelta(tool.args.text)),
           BlockStop(u.index)]);
      } else {
        assert stop1 + stop2 + [] == stop1 + stop2;
      }
    }
  }

  lemma EmitParcels(s: Core, item: Item)
    ensures Parcels(Emit(s, item)) == Added(s, item)
  {
    match item
    case Think(text) =>
      if !s.thinkingDone {
        ParcelsAppend(StartIf(!s.thinkingStarted, s.index, ThinkingHead), [BlockDelta(s.index, ThinkingDelta(text))]);
      }
    case Say(text) => SayParcels(s, text);
    case Call(tool) => CallParcels(s, tool);
  }

  lemma FarewellParcels(s: Core, r: Chunk)
    ensures Parcels(Farewell(s, r)) == []
  {
    var stop := StopIf(s.textStarted || s.ThinkingOpen(), s.index);
    var delta := MessageDelta(MapStopReason(r.doneReason, |s.sent| > 0), r.promptEvalCount, r.evalCount);
    ParcelsAppend(stop, [delta, MessageStop]);
    assert [delta, MessageStop][1..] == [MessageStop];
    assert Parcels([MessageStop]) == [];
  }

  lemma HelloParcels(cfg: Setup, first: bool, r: Chunk)
    ensures Parcels(Hello(cfg, first, r)) == []
  {
  }

  lemma RespondParcels(cfg: Setup, v: Converter, r: Chunk)
    ensures Parcels(Respond(cfg, v, r)) == Parcels(RunEvents(v.core, Items(r)))
  {
    var hello := Hello(cfg, v.first, r);
    var body := RunEvents(v.core, Items(r));
    var bye := if r.done then Farewell(Run(v.core, Items(r)), r) else [];
    ParcelsAppend(hello + body, bye);
    ParcelsAppend(hello, body);
    FarewellParcels(Run(v.core, Items(r)), r);
    HelloParcels(cfg, v.first, r);
    assert [] + Parcels(body) + [] == Parcels(body);
  }

  lemma {:induction false} StreamParcels(cfg: Setup, v: Converter, chunks: seq<Chunk>)
    ensures Parcels(StreamEvents(cfg, v, chunks)) == Parcels(RunEvents(v.core, AllItems(chunks)))
    decreases chunks
  {
    if chunks != [] {
      var r, rest := chunks[0], chunks[1..];
      var w := Step(cfg, v, r);
      StreamParcels(cfg, w, rest);
      RespondParcels(cfg, v, r);
      ParcelsAppend(Respond(cfg, v, r), StreamEvents(cfg, w, rest));
      RunAppend(v.core, Items(r), AllItems(rest));
      ParcelsAppend(RunEvents(v.core, Items(r)), RunEvents(w.core, AllItems(rest)));
    }
  }

  function Said(items: seq<Item>): string {
    if items == [] then "" else (if items[0].Say? then items[0].text else "") + Said(items[1..])
  }

  function Thoughts(items: seq<Item>): string {
    if items == [] then "" else (if items[0].Think? then items[0].text else "") + Thoughts(items[1..])
  }

  function CallsOf(items: seq<Item>): seq<ToolCall> {
    if items == [] then [] else (if items[0].Call? then [items[0].tool] else []) + CallsOf(items[1..])
  }

  lemma {:induction false} SaidAppend(a: seq<Item>, b: seq<Item>)
    ensures Said(a + b) == Said(a) + Said(b)
  {
    if a == [] {
      assert a + b == b;
    } else {
      assert (a + b)[1..] == a[1..] + b;
      SaidAppend(a[1..], b);
    }
  }

  lemma {:induction false} ThoughtsAppend(a: seq<Item>, b: seq<Item>)
    ensures Thoughts(a + b) == Thoughts(a) + Thoughts(b)
  {
    if a == [] {
      assert a + b == b;
    } else {
      assert (a + b)[1..] == a[1..] + b;
      ThoughtsAppend(a[1..], b);
    }
  }

  lemma {:induction false} CallsOfAppend(a: seq<Item>, b: seq<Item>)
    ensures CallsOf(a + b) == CallsOf(a) + CallsOf(b)
  {
    if a == [] {
      assert a + b == b;
    } else {
      assert (a + b)[1..] == a[1..] + b;
      CallsOfAppend(a[1..], b);
      Regroup(if a[0].Call? then [a[0].tool] else [], CallsOf(a[1..]), CallsOf(b));
    }
  }

  lemma ItemsAppend(a: seq<Item>, b: seq<Item>)
    ensures Said(a + b) == Said(a) + Said(b)
    ensures Thoughts(a + b) == Thoughts(a) + Thoughts(b)
    ensures CallsOf(a + b) == CallsOf(a) + CallsOf(b)
  {
    SaidAppend(a, b);
    ThoughtsAppend(a, b);
    CallsOfAppend(a, b);
  }

  /** A call that marshals and whose id no earlier marshalled call has used. */
  ghost predicate FirstOfItsId(items: seq<Item>, k: nat)
    requires k < |items|
  {
    items[k].Call? && items[k].tool.args.Json? && items[k].tool.id !in SentIds(items[..k])
  }

  /** Content, or a call whose id is new, after some thinking: the converter stops taking thinking here. */
  ghost predicate Closes(items: seq<Item>, k: nat)
    requires k < |items|
  {
    && (items[k].Say? || (items[k].Call? && items[k].tool.id !in SentIds(items[..k])))
    && exists i :: 0 <= i < k && items[i].Think?
  }

  ghost predicate HasThinking(items: seq<Item>) {
    exists i :: 0 <= i < |items| && items[i].Think?
  }

  ghost predicate SomeCloses(items: seq<Item>) {
    exists k :: 0 <= k < |items| && Closes(items, k)
  }

  lemma HasThinkingSnoc(init: seq<Item>, item: Item)
    ensures HasThinking(init + [item]) <==> HasThinking(init) || item.Think?
  {
    var items := init + [item];
    assert items[|init|] == item;
    if i :| 0 <= i < |init| && init[i].Think? {
      assert items[i].Think?;
    }
  }

  lemma ClosesSnoc(init: seq<Item>, item: Item)
    ensures forall k :: 0 <= k < |init| ==> (Closes(init + [item], k) <==> Closes(init, k))
    ensures Closes(init + [item], |init|) <==>
      (item.Say? || (item.Call? && item.tool.id !in SentIds(init))) && HasThinking(init)
  {
    var items := init + [item];
    forall k | 0 <= k < |init| ensures Closes(items, k) <==> Closes(init, k) {
      assert items[..k] == init[..k];
    }
    assert items[..|init|] == init;
  }

  lemma SomeClosesSnoc(init: seq<Item>, item: Item)
    ensures SomeCloses(init + [item]) <==> SomeCloses(init) || Closes(init + [item], |init|)
  {
    ClosesSnoc(init, item);
    if k :| 0 <= k < |init| && Closes(init, k) {
      assert Closes(init + [item], k);
    }
  }

  /** How one item moves the converter's thinking flags. */
  lemma FeedFlags(s: Core, item: Item)
    requires s.thinkingDone ==> s.thinkingStarted
    ensures Feed(s, item).thinkingStarted <==> s.thinkingStarted || item.Think?
    ensures Feed(s, item).thinkingDone <==>
      (s.thinkingDone || ((item.Say? || (item.Call? && item.tool.id !in s.sent)) && s.thinkingStarted))
  {
  }

  /** The converter's flags, told from the items fed so far. */
  lemma {:induction false} CoreFacts(items: seq<Item>)
    ensures Run(IDLE, items).sent == SentIds(items)
    ensures Run(IDLE, items).thinkingStarted <==> HasThinking(items)
    ensures Run(IDLE, items).thinkingDone <==> SomeCloses(items)
    ensures SomeCloses(items) ==> HasThinking(items)
  {
    if items != [] {
      var init, item := items[..|items| - 1], items[|items| - 1];
      assert items == init + [item];
      CoreFacts(init);
      RunSnoc(IDLE, init, item);
      SentIdsSnoc(init, item);
      HasThinkingSnoc(init, item);
      ClosesSnoc(init, item);
      SomeClosesSnoc(init, item);
      FeedFlags(Run(IDLE, init), item);
    }
  }

  /** What item `k` of a stream is owed: content always; thinking until it is closed; a call if it
      is the first of its id. */
  ghost function Due(items: seq<Item>, k: nat): seq<Parcel>
    requires k < |items|
  {
    match items[k]
    case Say(text) => [Words(text)]
    case Think(text) => if exists j :: 0 <= j < k && Closes(items, j) then [] else [Musing(text)]
    case Call(tool) => if FirstOfItsId(items, k) then [Opened(tool.id, tool.name), Input(tool.args.text)] else []
  }

  ghost function AllDue(items: seq<Item>): seq<Parcel> {
    if items == [] then []
    else AllDue(items[..|items| - 1]) + Due(items, |items| - 1)
  }

  lemma LastDue(init: seq<Item>, item: Item)
    ensures Due(init + [item], |init|) == Added(Run(IDLE, init), item)
  {
    var items := init + [item];
    CoreFacts(init);
    assert items[..|init|] == init;
    ClosesSnoc(init, item);
  }

  lemma {:induction false} ParcelsAreDue(items: seq<Item>)
    ensures Parcels(RunEvents(IDLE, items)) == AllDue(items)
  {
    if items != [] {
      var init, item := items[..|items| - 1], items[|items| - 1];
      assert items == init + [item];
      ParcelsAreDue(init);
      RunSnoc(IDLE, init, item);
      ParcelsAppend(RunEvents(IDLE, init), Emit(Run(IDLE, init), item));
      EmitParcels(Run(IDLE, init), item);
      LastDue(init, item);
    }
  }

  function WordsOf(parcels: seq<Parcel>): string {
    if parcels == [] then ""
    else
      var last := |parcels| - 1;
      WordsOf(parcels[..last]) + (if parcels[last].Words? then parcels[last].text else "")
  }

  function ThoughtsOf(parcels: seq<Parcel>): string {
    if parcels == [] then ""
    else
      var last := |parcels| - 1;
      ThoughtsOf(parcels[..last]) + (if parcels[last].Musing? then parcels[last].text else "")
  }

  lemma PartsSnoc(parcels: seq<Parcel>, p: Parcel)
    ensures WordsOf(parcels + [p]) == WordsOf(parcels) + if p.Words? then p.text else ""
    ensures ThoughtsOf(parcels + [p]) == ThoughtsOf(parcels) + if p.Musing? then p.text else ""
  {
    var all := parcels + [p];
    assert all[..|all| - 1] == parcels;
  }

  lemma PartsOfDue(parcels: seq<Parcel>, items: seq<Item>, k: nat)
    requires k < |items|
    ensures WordsOf(parcels + Due(items, k)) == WordsOf(parcels) + if items[k].Say? then items[k].text else ""
    ensures ThoughtsOf(parcels + Due(items, k))
         == ThoughtsOf(parcels) + if items[k].Think? && Due(items, k) != [] then items[k].text else ""
  {
    var due := Due(items, k);
    if due == [] {
      assert parcels + due == parcels;
    } else if |due| == 1 {
      PartsSnoc(parcels, due[0]);
    } else {
      PartsSnoc(parcels, due[0]);
      PartsSnoc(parcels + [due[0]], due[1]);
      assert parcels + due == parcels + [due[0]] + [due[1]];
    }
  }

  lemma {:induction false} WordsDue(items: seq<Item>)
    ensures WordsOf(AllDue(items)) == Said(items)
  {
    if items != [] {
      var init, item := items[..|items| - 1], items[|items| - 1];
      assert items == init + [item];
      WordsDue(init);
      PartsOfDue(AllDue(init), items, |init|);
      ItemsAppend(init, [item]);
    }
  }

  /** `n` is where thinking closes, or the end of the stream. */
  ghost predicate ClosesAt(items: seq<Item>, n: nat) {
    && n <= |items|
    && (n < |items| ==> Closes(items, n))
    && forall k :: 0 <= k < n ==> !Closes(items, k)
  }

  lemma {:induction false} ThoughtsDue(items: seq<Item>, n: nat)
    requires ClosesAt(items, n)
    ensures ThoughtsOf(AllDue(items)) == Thoughts(items[..n])
    decreases |items|
  {
    if items != [] {
      var init, item := items[..|items| - 1], items[|items| - 1];
      assert items == init + [item];
      ClosesSnoc(init, item);
      var m := if n == |items| then |init| else n;
      assert ClosesAt(init, m);
      ThoughtsDue(init, m);
      LastThoughtDue(init, item, n);
    }
  }

  lemma LastThoughtDue(init: seq<Item>, item: Item, n: nat)
    requires ClosesAt(init + [item], n)
    ensures var items := init + [item];
      var m := if n == |items| then |init| else n;
      var x := if n == |items| && item.Think? then item.text else "";
      && ThoughtsOf(AllDue(init) + Due(items, |init|)) == ThoughtsOf(AllDue(init)) + x
      && Thoughts(items[..n]) == Thoughts(init[..m]) + x
  {
    var items := init + [item];
    PartsOfDue(AllDue(init), items, |init|);
    if n == |items| {
      assert items[..n] == items && init[..|init|] == init;
      ItemsAppend(init, [item]);
    } else {
      assert items[..n] == init[..n];
    }
  }

  function AllContent(chunks: seq<Chunk>): string {
    if chunks == [] then "" else chunks[0].content + AllContent(chunks[1..])
  }

  function AllThinking(chunks: seq<Chunk>): string {
    if chunks == [] then "" else chunks[0].thinking + AllThinking(chunks[1..])
  }

  function AllToolCalls(chunks: seq<Chunk>): seq<ToolCall> {
    if chunks == [] then [] else chunks[0].toolCalls + AllToolCalls(chunks[1..])
  }

  lemma {:induction false} CallItems(tools: seq<ToolCall>)
    ensures Said(Calls(tools)) == "" && Thoughts(Calls(tools)) == "" && CallsOf(Calls(tools)) == tools
  {
    if tools != [] {
      assert Calls(tools)[1..] == Calls(tools[1..]);
      CallItems(tools[1..]);
    }
  }

  lemma ThinkingItems(text: string) returns (a: seq<Item>)
    ensures a == if text != "" then [Think(text)] else []
    ensures Said(a) == "" && Thoughts(a) == text && CallsOf(a) == []
  {
    a := if text != "" then [Think(text)] else [];
  }

  lemma ContentItems(text: string) returns (b: seq<Item>)
    ensures b == if text != "" then [Say(text)] else []
    ensures Said(b) == text && Thoughts(b) == "" && CallsOf(b) == []
  {
    b := if text != "" then [Say(text)] else [];
  }

  lemma ChunkItems(r: Chunk)
    ensures Said(Items(r)) == r.content && Thoughts(Items(r)) == r.thinking && CallsOf(Items(r)) == r.toolCalls
  {
    var a := ThinkingItems(r.thinking);
    var b := ContentItems(r.content);
    ItemsAppend(a, b);
    ItemsAppend(a + b, Calls(r.toolCalls));
    CallItems(r.toolCalls);
  }

  lemma {:induction false} ChunksItems(chunks: seq<Chunk>)
    ensures Said(AllItems(chunks)) == AllContent(chunks)
    ensures Thoughts(AllItems(chunks)) == AllThinking(chunks)
    ensures CallsOf(AllItems(chunks)) == AllToolCalls(chunks)
  {
    if chunks != [] {
      ChunksItems(chunks[1..]);
      ChunkItems(chunks[0]);
      ItemsAppend(Items(chunks[0]), AllItems(chunks[1..]));
    }
  }

  /** For any chunks in any order, Done or not, the events carry exactly what each item is owed, in
      order: so the text deltas hold all the content, and the thinking deltas the thinking up to the
      item that closes it. */
  lemma Conservation(cfg: Setup, chunks: seq<Chunk>, n: nat)
    requires ClosesAt(AllItems(chunks), n)
    ensures Parcels(StreamEvents(cfg, INITIAL, chunks)) == AllDue(AllItems(chunks))
    ensures WordsOf(Parcels(StreamEvents(cfg, INITIAL, chunks))) == AllContent(chunks)
    ensures ThoughtsOf(Parcels(StreamEvents(cfg, INITIAL, chunks))) == Thoughts(AllItems(chunks)[..n])
  {
    StreamParcels(cfg, INITIAL, chunks);
    ParcelsAreDue(AllItems(chunks));
    WordsDue(AllItems(chunks));
    ThoughtsDue(AllItems(chunks), n);
    ChunksItems(chunks);
  }
}
