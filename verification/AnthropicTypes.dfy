/** The values that cross the Anthropic compatibility layer: chat chunks coming in,
    streaming events and whole messages going out. */
module AnthropicTypes {

  /** Tool arguments, represented by what marshalling them yields. */
  datatype Arguments = Json(text: string) | Unmarshalable

  datatype ToolCall = ToolCall(id: string, name: string, args: Arguments)

  /** One chat response: a chunk of a stream, or the whole answer. */
  datatype Chunk = Chunk(
    model: string,
    thinking: string,
    content: string,
    toolCalls: seq<ToolCall>,
    done: bool,
    doneReason: string,
    promptEvalCount: int,
    evalCount: int)

  datatype Head = ThinkingHead | TextHead | ToolHead(id: string, name: string)

  datatype Delta = ThinkingDelta(text: string) | TextDelta(text: string) | InputJsonDelta(text: string)

  datatype Event =
    | MessageStart(id: string, model: string, startTokens: int)
    | BlockStart(index: nat, head: Head)
    | BlockDelta(index: nat, delta: Delta)
    | BlockStop(index: nat)
    | MessageDelta(stopReason: string, inputTokens: int, outputTokens: int)
    | MessageStop

  datatype Block =
    | ThinkingBlock(text: string)
    | TextBlock(text: string)
    | ToolBlock(id: string, name: string, args: Arguments)

  datatype Message = Message(
    id: string,
    model: string,
    blocks: seq<Block>,
    stopReason: string,
    inputTokens: int,
    outputTokens: int)

  function MapStopReason(reason: string, hasToolCalls: bool): string {
    if hasToolCalls then "tool_use"
    else match reason
      case "stop" => "end_turn"
      case "length" => "max_tokens"
      case _ => if reason != "" then "stop_sequence" else ""
  }

  /** What a chunk contributes, in the order the converter looks at it. Empty strings
      contribute nothing. */
  datatype Item = Think(text: string) | Say(text: string) | Call(tool: ToolCall)

  function Calls(tools: seq<ToolCall>): (items: seq<Item>)
    ensures |items| == |tools| && forall i :: 0 <= i < |tools| ==> items[i] == Call(tools[i])
  {
    seq(|tools|, i requires 0 <= i < |tools| => Call(tools[i]))
  }

  function Items(r: Chunk): seq<Item> {
    (if r.thinking != "" then [Think(r.thinking)] else [])
    + (if r.content != "" then [Say(r.content)] else [])
    + Calls(r.toolCalls)
  }

  function AllItems(chunks: seq<Chunk>): seq<Item> {
    if chunks == [] then [] else Items(chunks[0]) + AllItems(chunks[1..])
  }
}
