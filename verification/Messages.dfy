/** Conversation messages: a role and content blocks. */
module Messages {
  import opened Prelude

  datatype Role = System | User | Assistant | Tool

  // `input` is the tool input's compact JSON text; `source` an image reference.
  datatype Block =
    | Text(text: string)
    | Thinking(thought: string, signature: Option<string>)
    | ToolUse(id: string, name: string, input: string)
    | ToolResult(toolUseId: string, content: seq<Block>, isError: bool)
    | Image(source: string)

  // `Fresh` stands for the id of a message the engine makes up itself.
  datatype MessageId = Stored(n: nat) | Fresh

  datatype Message = Message(id: MessageId, role: Role, content: seq<Block>)

  // Why the model stopped; every reason but a tool call ends the turn.
  datatype StopReason = EndTurn | MaxTokens | CallsTools | OtherStop

  /** Ids of the tool_use blocks, in order. */
  function UseIds(content: seq<Block>): seq<string> {
    if content == [] then []
    else (if content[0].ToolUse? then [content[0].id] else []) + UseIds(content[1..])
  }

  /** Ids answered by the tool_result blocks, in order. */
  function ResultIds(content: seq<Block>): seq<string> {
    if content == [] then []
    else (if content[0].ToolResult? then [content[0].toolUseId] else []) + ResultIds(content[1..])
  }

  /** The tool calls a message makes; only assistants make any. */
  function Calls(m: Message): seq<string> {
    if m.role == Assistant then UseIds(m.content) else []
  }

  predicate IsTool(m: Message) {
    m.role == Tool
  }

  lemma {:induction false} ResultIdsAppend(a: seq<Block>, b: seq<Block>)
    ensures ResultIds(a + b) == ResultIds(a) + ResultIds(b)
  {
    if a == [] {
      assert a + b == b;
    } else {
      assert (a + b)[1..] == a[1..] + b;
      ResultIdsAppend(a[1..], b);
    }
  }

  // ---------- Shape ----------

  // What pairing depends on: the message's id and role, and each block's kind with its id.
  datatype BlockShape = Use(id: string) | Result(id: string) | Other
  datatype MessageShape = MessageShape(id: MessageId, role: Role, blocks: seq<BlockShape>)

  function ShapeOfBlock(b: Block): BlockShape {
    match b
    case ToolUse(id, _, _) => Use(id)
    case ToolResult(id, _, _) => Result(id)
    case _ => Other
  }

  function ShapeOfContent(content: seq<Block>): (r: seq<BlockShape>)
    ensures |r| == |content|
  {
    seq(|content|, i requires 0 <= i < |content| => ShapeOfBlock(content[i]))
  }

  function Shape(m: Message): MessageShape {
    MessageShape(m.id, m.role, ShapeOfContent(m.content))
  }

  function Shapes(ms: seq<Message>): (r: seq<MessageShape>)
    ensures |r| == |ms|
  {
    seq(|ms|, i requires 0 <= i < |ms| => Shape(ms[i]))
  }

  lemma {:induction false} ShapeFixesIds(a: seq<Block>, b: seq<Block>)
    requires ShapeOfContent(a) == ShapeOfContent(b)
    ensures UseIds(a) == UseIds(b) && ResultIds(a) == ResultIds(b)
  {
    assert |a| == |ShapeOfContent(a)| == |b|;
    if a != [] {
      assert ShapeOfContent(a)[0] == ShapeOfContent(b)[0];
      assert ShapeOfContent(a[1..]) == ShapeOfContent(a)[1..];
      assert ShapeOfContent(b[1..]) == ShapeOfContent(b)[1..];
      ShapeFixesIds(a[1..], b[1..]);
    }
  }
}
