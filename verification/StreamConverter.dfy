/** The stateful translation of chat chunks into Anthropic streaming events. The functions
    specify it item by item; the class at the end is the converter itself. */
module StreamConverting {
  import opened Common
  import opened AnthropicTypes

  datatype Setup = Setup(id: string, model: string, estimatedInputTokens: int)

  /** The part of the converter that decides block numbering. */
  datatype Core = Core(
    index: nat,
    thinkingStarted: bool,
    thinkingDone: bool,
    textStarted: bool,
    sent: set<string>)
  {
    predicate ThinkingOpen() { thinkingStarted && !thinkingDone }

    function CloseThinking(): Core {
      if ThinkingOpen() then this.(thinkingDone := true, index := index + 1) else this
    }

    function CloseText(): Core {
      if textStarted then this.(textStarted := false, index := index + 1) else this
    }
  }

  datatype Converter = Converter(first: bool, inputTokens: int, outputTokens: int, core: Core)

  const IDLE := Core(0, false, false, false, {})
  const INITIAL := Converter(true, 0, 0, IDLE)

  function Feed(s: Core, item: Item): Core {
    match item
    case Think(_) => if s.thinkingDone then s else s.(thinkingStarted := true)
    case Say(_) => s.CloseThinking().(textStarted := true)
    case Call(tool) =>
      if tool.id in s.sent then s
      else
        var closed := s.CloseThinking().CloseText();
        if tool.args.Unmarshalable? then closed
        else closed.(sent := closed.sent + {tool.id}, index := closed.index + 1)
  }

  function StopIf(open: bool, index: nat): seq<Event> {
    if open then [BlockStop(index)] else []
  }

  function StartIf(closed: bool, index: nat, head: Head): seq<Event> {
    if closed then [BlockStart(index, head)] else []
  }

  function Emit(s: Core, item: Item): seq<Event> {
    match item
    case Think(text) =>
      if s.thinkingDone then []
      else StartIf(!s.thinkingStarted, s.index, ThinkingHead) + [BlockDelta(s.index, ThinkingDelta(text))]
    case Say(text) =>
      var t := s.CloseThinking();
      StopIf(s.ThinkingOpen(), s.index)
      + StartIf(!t.textStarted, t.index, TextHead)
      + [BlockDelta(t.index, TextDelta(text))]
    case Call(tool) =>
      if tool.id in s.sent then []
      else
        var t := s.CloseThinking();
        var u := t.CloseText();
        StopIf(s.ThinkingOpen(), s.index) + StopIf(t.textStarted, t.index)
        + match tool.args
          case Unmarshalable => []
          case Json(text) =>
            [BlockStart(u.index, ToolHead(tool.id, tool.name)),
             BlockDelta(u.index, InputJsonDelta(text)),
             BlockStop(u.index)]
  }

  function Run(s: Core, items: seq<Item>): Core
    decreases items
  {
    if items == [] then s else Run(Feed(s, items[0]), items[1..])
  }

  function RunEvents(s: Core, items: seq<Item>): seq<Event>
    decreases items
  {
    if items == [] then [] else Emit(s, items[0]) + RunEvents(Feed(s, items[0]), items[1..])
  }

  function StartTokens(cfg: Setup, r: Chunk): int {
    if r.promptEvalCount == 0 && cfg.estimatedInputTokens > 0 then cfg.estimatedInputTokens else r.promptEvalCount
  }

  function Step(cfg: Setup, v: Converter, r: Chunk): Converter {
    var greeted := if v.first then v.(first := false, inputTokens := StartTokens(cfg, r)) else v;
    var fed := greeted.(core := Run(greeted.core, Items(r)));
    if r.done then fed.(inputTokens := r.promptEvalCount, outputTokens := r.evalCount) else fed
  }

  function Hello(cfg: Setup, first: bool, r: Chunk): seq<Event> {
    if first then [MessageStart(cfg.id, cfg.model, StartTokens(cfg, r))] else []
  }

  function Respond(cfg: Setup, v: Converter, r: Chunk): seq<Event> {
    Hello(cfg, v.first, r)
    + RunEvents(v.core, Items(r))
    + (if r.done then Farewell(Run(v.core, Items(r)), r) else [])
  }

  function Farewell(s: Core, r: Chunk): seq<Event> {
    StopIf(s.textStarted || s.ThinkingOpen(), s.index)
    + [MessageDelta(MapStopReason(r.doneReason, |s.sent| > 0), r.promptEvalCount, r.evalCount), MessageStop]
  }

  /** The converter after a whole stream, and everything it emitted on the way. */
  function After(cfg: Setup, v: Converter, chunks: seq<Chunk>): Converter
    decreases chunks
  {
    if chunks == [] then v else After(cfg, Step(cfg, v, chunks[0]), chunks[1..])
  }

  function StreamEvents(cfg: Setup, v: Converter, chunks: seq<Chunk>): seq<Event>
    decreases chunks
  {
    if chunks == [] then []
    else Respond(cfg, v, chunks[0]) + StreamEvents(cfg, Step(cfg, v, chunks[0]), chunks[1..])
  }

  lemma {:induction false} RunCoreAppend(s: Core, a: seq<Item>, b: seq<Item>)
    ensures Run(s, a + b) == Run(Run(s, a), b)
    decreases a
  {
    if a == [] {
      assert a + b == b;
    } else {
      assert (a + b)[1..] == a[1..] + b;
      RunCoreAppend(Feed(s, a[0]), a[1..], b);
    }
  }

  lemma RunEventsStep(s: Core, items: seq<Item>) returns (e: seq<Event>)
    requires items != []
    ensures e == Emit(s, items[0])
    ensures RunEvents(s, items) == e + RunEvents(Feed(s, items[0]), items[1..])
    ensures Run(s, items) == Run(Feed(s, items[0]), items[1..])
  {
    e := Emit(s, items[0]);
  }

  lemma {:induction false} RunEventsAppend(s: Core, a: seq<Item>, b: seq<Item>)
    ensures RunEvents(s, a + b) == RunEvents(s, a) + RunEvents(Run(s, a), b)
    decreases a
  {
    if a == [] {
      assert a + b == b;
    } else {
      var item, t, rest := a[0], Feed(s, a[0]), a[1..];
      assert (a + b)[0] == item && (a + b)[1..] == rest + b;
      var e := RunEventsStep(s, a);
      var e' := RunEventsStep(s, a + b);
      RunEventsAppend(t, rest, b);
      Regroup(e, RunEvents(t, rest), RunEvents(Run(t, rest), b));
    }
  }

  lemma RunAppend(s: Core, a: seq<Item>, b: seq<Item>)
    ensures Run(s, a + b) == Run(Run(s, a), b)
    ensures RunEvents(s, a + b) == RunEvents(s, a) + RunEvents(Run(s, a), b)
  {
    RunCoreAppend(s, a, b);
    RunEventsAppend(s, a, b);
  }

  lemma RunSnoc(s: Core, items: seq<Item>, item: Item)
    ensures Run(s, items + [item]) == Feed(Run(s, items), item)
    ensures RunEvents(s, items + [item]) == RunEvents(s, items) + Emit(Run(s, items), item)
  {
    RunAppend(s, items, [item]);
  }

  lemma OneMore(s: Core, items: seq<Item>, i: nat)
    requires i < |items|
    ensures Run(s, items[..i + 1]) == Feed(Run(s, items[..i]), items[i])
    ensures RunEvents(s, items[..i + 1]) == RunEvents(s, items[..i]) + Emit(Run(s, items[..i]), items[i])
  {
    RunSnoc(s, items[..i], items[i]);
    assert items[..i + 1] == items[..i] + [items[i]];
  }

  lemma {:induction false} StreamAppend(cfg: Setup, v: Converter, a: seq<Chunk>, b: seq<Chunk>)
    ensures After(cfg, v, a + b) == After(cfg, After(cfg, v, a), b)
    ensures StreamEvents(cfg, v, a + b) == StreamEvents(cfg, v, a) + StreamEvents(cfg, After(cfg, v, a), b)
    decreases a
  {
    if a == [] {
      assert a + b == b;
    } else {
      assert (a + b)[1..] == a[1..] + b;
      StreamAppend(cfg, Step(cfg, v, a[0]), a[1..], b);
    }
  }

  /** Block numbering depends on the items alone, not on how chunks group them. */
  lemma {:induction false} CoreIsRunOfItems(cfg: Setup, v: Converter, chunks: seq<Chunk>)
    ensures After(cfg, v, chunks).core == Run(v.core, AllItems(chunks))
    decreases chunks
  {
    if chunks != [] {
      CoreIsRunOfItems(cfg, Step(cfg, v, chunks[0]), chunks[1..]);
      RunAppend(v.core, Items(chunks[0]), AllItems(chunks[1..]));
    }
  }

  class StreamConverter {
    const id: string
    const model: string
    const estimatedInputTokens: int
    var firstWrite: bool
    var contentIndex: nat
    var inputTokens: int
    var outputTokens: int
    var thinkingStarted: bool
    var thinkingDone: bool
    var textStarted: bool
    var toolCallsSent: map<string, bool>

    /** Only `true` is ever stored, so a lookup is a membership test. */
    ghost predicate Valid()
      reads this
    {
      forall k :: k in toolCallsSent ==> toolCallsSent[k]
    }

    ghost function Config(): Setup { Setup(id, model, estimatedInputTokens) }

    ghost function Numbering(): Core
      reads this
    {
      Core(contentIndex, thinkingStarted, thinkingDone, textStarted, toolCallsSent.Keys)
    }

    ghost function State(): Converter
      reads this
    {
      Converter(firstWrite, inputTokens, outputTokens, Numbering())
    }

    constructor (id: string, model: string, estimatedInputTokens: int)
      ensures Valid() && State() == INITIAL && Config() == Setup(id, model, estimatedInputTokens)
    {
      this.id, this.model, this.estimatedInputTokens := id, model, estimatedInputTokens;
      firstWrite := true;
      contentIndex, inputTokens, outputTokens := 0, 0, 0;
      thinkingStarted, thinkingDone, textStarted := false, false, false;
      toolCallsSent := map[];
    }

    /** Lines shared by the text and the tool branch: a thinking block that is still open
        is closed before anything else starts. */
    method CloseThinking() returns (events: seq<Event>)
      modifies `thinkingDone, `contentIndex
      ensures Numbering() == old(Numbering()).CloseThinking()
      ensures events == StopIf(old(Numbering()).ThinkingOpen(), old(contentIndex))
    {
      events := [];
      if thinkingStarted && !thinkingDone {
        thinkingDone := true;
        events := events + [BlockStop(contentIndex)];
        contentIndex := contentIndex + 1;
      }
    }

    method ProcessThinking(text: string) returns (events: seq<Event>)
      modifies `thinkingStarted
      ensures Numbering() == Feed(old(Numbering()), Think(text))
      ensures events == Emit(old(Numbering()), Think(text))
    {
      events := [];
      if !thinkingDone {
        if !thinkingStarted {
          thinkingStarted := true;
          events := events + [BlockStart(contentIndex, ThinkingHead)];
        }
        events := events + [BlockDelta(contentIndex, ThinkingDelta(text))];
      }
    }

    method ProcessContent(text: string) returns (events: seq<Event>)
      modifies `thinkingDone, `textStarted, `contentIndex
      ensures Numbering() == Feed(old(Numbering()), Say(text))
      ensures events == Emit(old(Numbering()), Say(text))
    {
      events := CloseThinking();
      if !textStarted {
        textStarted := true;
        events := events + [BlockStart(contentIndex, TextHead)];
      }
      events := events + [BlockDelta(contentIndex, TextDelta(text))];
    }

    method ProcessToolCall(tool: ToolCall) returns (events: seq<Event>)
      requires Valid()
      modifies `thinkingDone, `textStarted, `contentIndex, `toolCallsSent
      ensures Valid()
      ensures Numbering() == Feed(old(Numbering()), Call(tool))
      ensures events == Emit(old(Numbering()), Call(tool))
    {
      events := [];
      if tool.id in toolCallsSent && toolCallsSent[tool.id] {
        return;
      }
      events := CloseThinking();
      if textStarted {
        events := events + [BlockStop(contentIndex)];
        contentIndex := contentIndex + 1;
        textStarted := false;
      }
      if tool.args.Unmarshalable? {
        return;
      }
      events := events +
        [BlockStart(contentIndex, ToolHead(tool.id, tool.name)),
         BlockDelta(contentIndex, InputJsonDelta(tool.args.text)),
         BlockStop(contentIndex)];
      toolCallsSent := toolCallsSent[tool.id := true];
      contentIndex := contentIndex + 1;
    }

    method ProcessToolCalls(tools: seq<ToolCall>) returns (events: seq<Event>)
      requires Valid()
      modifies `thinkingDone, `textStarted, `contentIndex, `toolCallsSent
      ensures Valid()
      ensures Numbering() == Run(old(Numbering()), Calls(tools))
      ensures events == RunEvents(old(Numbering()), Calls(tools))
    {
      ghost var start, calls := Numbering(), Calls(tools);
      events := [];
      var i := 0;
      while i < |tools|
        invariant 0 <= i <= |tools| && Valid()
        invariant Numbering() == Run(start, calls[..i]) && events == RunEvents(start, calls[..i])
      {
        var more := ProcessToolCall(tools[i]);
        events := events + more;
        OneMore(start, calls, i);
        i := i + 1;
      }
      assert calls[..i] == calls;
    }

    method ProcessItems(r: Chunk) returns (events: seq<Event>)
      requires Valid()
      modifies `thinkingStarted, `thinkingDone, `textStarted, `contentIndex, `toolCallsSent
      ensures Valid()
      ensures Numbering() == Run(old(Numbering()), Items(r))
      ensures events == RunEvents(old(Numbering()), Items(r))
    {
      ghost var start := Numbering();
      ghost var front: seq<Item> := [];
      events := [];
      if r.thinking != "" {
        events := ProcessThinking(r.thinking);
        front := [Think(r.thinking)];
      }
      assert Numbering() == Run(start, front) && events == RunEvents(start, front);
      if r.content != "" {
        var more := ProcessContent(r.content);
        events := events + more;
        RunSnoc(start, front, Say(r.content));
        front := front + [Say(r.content)];
      }
      var more := ProcessToolCalls(r.toolCalls);
      events := events + more;
      RunAppend(start, front, Calls(r.toolCalls));
      assert front + Calls(r.toolCalls) == Items(r);
    }

    method Process(r: Chunk) returns (events: seq<Event>)
      requires Valid()
      modifies this
      ensures Valid()
      ensures State() == Step(Config(), old(State()), r)
      ensures events == Respond(Config(), old(State()), r)
    {
      events := Greet(r);
      var more := ProcessItems(r);
      events := events + more;
      if r.done {
        var ending := Finish(r);
        events := events + ending;
      }
    }

    method Greet(r: Chunk) returns (events: seq<Event>)
      modifies `firstWrite, `inputTokens
      ensures !firstWrite && events == Hello(Config(), old(firstWrite), r)
      ensures inputTokens == if old(firstWrite) then StartTokens(Config(), r) else old(inputTokens)
    {
      events := [];
      if firstWrite {
        firstWrite := false;
        inputTokens := r.promptEvalCount;
        if inputTokens == 0 && estimatedInputTokens > 0 {
          inputTokens := estimatedInputTokens;
        }
        events := events + [MessageStart(id, model, inputTokens)];
      }
    }

    method Finish(r: Chunk) returns (events: seq<Event>)
      modifies `inputTokens, `outputTokens
      ensures inputTokens == r.promptEvalCount && outputTokens == r.evalCount
      ensures events == Farewell(Numbering(), r)
    {
      events := [];
      if textStarted {
        events := events + [BlockStop(contentIndex)];
      } else if thinkingStarted && !thinkingDone {
        events := events + [BlockStop(contentIndex)];
      }
      inputTokens := r.promptEvalCount;
      outputTokens := r.evalCount;
      assert |toolCallsSent| == |toolCallsSent.Keys|;
      var stopReason := MapStopReason(r.doneReason, |toolCallsSent| > 0);
      events := events + [MessageDelta(stopReason, inputTokens, outputTokens)];
      events := events + [MessageStop];
    }
  }
}
