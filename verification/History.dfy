/** Shrinking a history: the conversational window, the byte cap, collapsing and redaction. */
module History {
  import opened Prelude
  import opened Messages
  import opened Truncation

  // ---------- Sizes ----------

  function BlockSize(b: Block): nat {
    match b
    case Text(text) => |text|
    case Thinking(thought, _) => |thought|
    case ToolUse(_, name, input) => |name| + |input|
    case ToolResult(_, content, _) => TextLength(content)
    case Image(_) => 1024
  }

  function ContentSize(content: seq<Block>): nat {
    if content == [] then 0 else BlockSize(content[0]) + ContentSize(content[1..])
  }

  function HistorySize(ms: seq<Message>): nat {
    if ms == [] then 0 else ContentSize(ms[0].content) + HistorySize(ms[1..])
  }

  lemma {:induction false} ContentSizeSplit(a: seq<Block>, b: seq<Block>)
    ensures ContentSize(a + b) == ContentSize(a) + ContentSize(b)
  {
    if a == [] {
      assert a + b == b;
    } else {
      assert (a + b)[1..] == a[1..] + b;
      ContentSizeSplit(a[1..], b);
    }
  }

  lemma {:induction false} HistorySizeSplit(a: seq<Message>, b: seq<Message>)
    ensures HistorySize(a + b) == HistorySize(a) + HistorySize(b)
  {
    if a == [] {
      assert a + b == b;
    } else {
      assert (a + b)[1..] == a[1..] + b;
      HistorySizeSplit(a[1..], b);
    }
  }

  lemma HistorySizeUpdate(ms: seq<Message>, i: nat, m: Message)
    requires i < |ms|
    ensures HistorySize(ms[i := m]) + ContentSize(ms[i].content) == HistorySize(ms) + ContentSize(m.content)
  {
    assert ms == ms[..i] + ([ms[i]] + ms[i + 1..]);
    assert ms[i := m] == ms[..i] + ([m] + ms[i + 1..]);
    HistorySizeSplit(ms[..i], [ms[i]] + ms[i + 1..]);
    HistorySizeSplit(ms[..i], [m] + ms[i + 1..]);
  }

  // ---------- The conversational window ----------

  predicate Conversational(m: Message) {
    m.role == User || m.role == Assistant
  }

  function ConversationCount(ms: seq<Message>): nat {
    if ms == [] then 0 else (if Conversational(ms[0]) then 1 else 0) + ConversationCount(ms[1..])
  }

  /** Length of the shortest prefix to cut so that at most `limit` conversational messages remain; 0 is no limit. */
  function WindowCut(ms: seq<Message>, limit: nat): (cut: nat)
    ensures cut <= |ms|
  {
    if limit == 0 || ConversationCount(ms) <= limit then 0 else 1 + WindowCut(ms[1..], limit)
  }

  lemma {:induction false} WindowCutAfter(ms: seq<Message>, limit: nat)
    requires 0 < limit
    ensures ConversationCount(ms[WindowCut(ms, limit)..]) <= limit
    ensures forall k :: 0 <= k < WindowCut(ms, limit) ==> ConversationCount(ms[k..]) > limit
    ensures ConversationCount(ms) >= limit ==> ConversationCount(ms[WindowCut(ms, limit)..]) == limit
  {
    if ConversationCount(ms) <= limit {
      assert ms[0..] == ms;
    } else {
      var rest, cut := ms[1..], WindowCut(ms[1..], limit);
      WindowCutAfter(rest, limit);
      assert rest[cut..] == ms[cut + 1..];
      forall k | 0 <= k < cut + 1 ensures ConversationCount(ms[k..]) > limit {
        if k == 0 {
          assert ms[0..] == ms;
        } else {
          assert ms[k..] == rest[k - 1..];
        }
      }
    }
  }

  method CountConversation(messages: seq<Message>) returns (n: nat)
    ensures n == ConversationCount(messages)
  {
    n := 0;
    var i := 0;
    assert messages[0..] == messages;
    while i < |messages|
      invariant 0 <= i <= |messages|
      invariant ConversationCount(messages) == n + ConversationCount(messages[i..])
    {
      assert messages[i..][1..] == messages[i + 1..];
      if Conversational(messages[i]) {
        n := n + 1;
      }
      i := i + 1;
    }
    assert messages[i..] == [];
  }

  method TrimToConversationWindow(messages: seq<Message>, limit: nat) returns (out: seq<Message>)
    ensures out == messages[WindowCut(messages, limit)..]
  {
    if limit == 0 {
      return messages;
    }
    var total := CountConversation(messages);
    if total <= limit {
      return messages;
    }
    var toDrop := total - limit;
    var dropped, cut, i := 0, 0, 0;
    assert messages[0..] == messages;
    while i < |messages| && dropped < toDrop
      invariant 0 <= i == cut <= |messages|
      invariant dropped <= toDrop
      invariant ConversationCount(messages[i..]) == total - dropped
      invariant WindowCut(messages, limit) == i + WindowCut(messages[i..], limit)
    {
      assert messages[i..][1..] == messages[i + 1..];
      if Conversational(messages[i]) {
        dropped := dropped + 1;
      }
      i := i + 1;
      cut := i;
    }
    out := messages[cut..];
  }

  // ---------- The byte cap ----------

  const CLEARED_MARKER := "[Old tool result content cleared to fit context budget]"

  predicate Clearable(b: Block) {
    b.ToolResult? && !b.isError && TextLength(b.content) > |CLEARED_MARKER|
  }

  function ClearedBlock(b: Block): Block {
    if Clearable(b) then b.(content := [Text(CLEARED_MARKER)]) else b
  }

  function ClearedContent(content: seq<Block>): seq<Block> {
    if content == [] then [] else [ClearedBlock(content[0])] + ClearedContent(content[1..])
  }

  function ClearedMessage(m: Message): Message {
    if IsTool(m) then m.(content := ClearedContent(m.content)) else m
  }

  /** `ms` with the results in its first `k` messages cleared. */
  function Cleared(ms: seq<Message>, k: nat): (r: seq<Message>)
    requires k <= |ms|
    ensures |r| == |ms|
  {
    seq(|ms|, i requires 0 <= i < |ms| => if i < k then ClearedMessage(ms[i]) else ms[i])
  }

  /** The fewest leading messages to clear from the `k`-th on: enough to fit, or all that may be touched. */
  function ClearCount(ms: seq<Message>, maxBytes: nat, protectFrom: nat, k: nat): (r: nat)
    requires k <= protectFrom <= |ms|
    ensures k <= r <= protectFrom
    decreases protectFrom - k
  {
    if k == protectFrom || HistorySize(Cleared(ms, k)) <= maxBytes then k
    else ClearCount(ms, maxBytes, protectFrom, k + 1)
  }

  /** The fewest leading messages to drop: enough to fit, or all but one. */
  function DropCount(ms: seq<Message>, maxBytes: nat): (d: nat)
    ensures d <= |ms|
  {
    if HistorySize(ms) <= maxBytes || |ms| <= 1 then 0 else 1 + DropCount(ms[1..], maxBytes)
  }

  function LeadingTools(ms: seq<Message>): (n: nat)
    ensures n <= |ms|
  {
    if ms == [] || !IsTool(ms[0]) then 0 else 1 + LeadingTools(ms[1..])
  }

  function ClampedBlock(b: Block, max: nat): Block {
    if b.ToolResult? then b.(content := Capped(b.content, max)) else b
  }

  function ClampedContent(content: seq<Block>, max: nat): seq<Block> {
    if content == [] then [] else [ClampedBlock(content[0], max)] + ClampedContent(content[1..], max)
  }

  function ClampedMessage(m: Message, max: nat): Message {
    if IsTool(m) then m.(content := ClampedContent(m.content, max)) else m
  }

  /** Every tool result body cut down to `max` text bytes plus the note; 0 is no limit. */
  function Clamped(ms: seq<Message>, max: nat): (r: seq<Message>)
    ensures |r| == |ms|
  {
    seq(|ms|, i requires 0 <= i < |ms| => if max > 0 then ClampedMessage(ms[i], max) else ms[i])
  }

  function ProtectFrom(count: nat, keepRecent: nat): nat {
    SaturatingSub(count, Max(keepRecent, 1))
  }

  /** The history after clearing, before any message is dropped. */
  function AfterClearing(ms: seq<Message>, maxBytes: nat, keepRecent: nat, perResult: nat): (r: seq<Message>)
    ensures |r| == |ms|
  {
    var clamped := Clamped(ms, perResult);
    Cleared(clamped, ClearCount(clamped, maxBytes, ProtectFrom(|ms|, keepRecent), 0))
  }

  /** How many leading messages the cap drops. */
  function CapCut(ms: seq<Message>, maxBytes: nat, keepRecent: nat, perResult: nat): (cut: nat)
    ensures cut <= |ms|
  {
    var cleared := AfterClearing(ms, maxBytes, keepRecent, perResult);
    var d := DropCount(cleared, maxBytes);
    d + LeadingTools(cleared[d..])
  }

  function ByteCapped(ms: seq<Message>, maxBytes: nat, keepRecent: nat, perResult: nat): seq<Message> {
    if maxBytes == 0 then ms
    else AfterClearing(ms, maxBytes, keepRecent, perResult)[CapCut(ms, maxBytes, keepRecent, perResult)..]
  }

  lemma ClearedBlockSize(b: Block)
    ensures BlockSize(ClearedBlock(b)) ==
            if Clearable(b) then |CLEARED_MARKER| else BlockSize(b)
    ensures BlockSize(ClearedBlock(b)) <= BlockSize(b)
  {
    var marker := [Text(CLEARED_MARKER)];
    assert marker[1..] == [];
    assert TextLength(marker) == |CLEARED_MARKER|;
  }

  /** Clears one message's results in place and returns the exact number of bytes that freed. */
  method ClearResults(content: seq<Block>) returns (cleared: seq<Block>, freed: nat)
    ensures cleared == ClearedContent(content)
    ensures ContentSize(content) == ContentSize(cleared) + freed
  {
    cleared, freed := [], 0;
    var i := 0;
    assert content[0..] == content;
    while i < |content|
      invariant 0 <= i <= |content|
      invariant ClearedContent(content) == cleared + ClearedContent(content[i..])
      invariant ContentSize(content) == ContentSize(cleared) + freed + ContentSize(content[i..])
    {
      hide TextLength;
      var b := content[i];
      assert content[i..][1..] == content[i + 1..];
      ClearedBlockSize(b);
      ContentSizeSplit(cleared, [ClearedBlock(b)]);
      Glue(cleared, [ClearedBlock(b)], ClearedContent(content[i + 1..]));
      if b.ToolResult? && !b.isError && TextLength(b.content) > |CLEARED_MARKER| {
        cleared := cleared + [b.(content := [Text(CLEARED_MARKER)])];
        freed := freed + (TextLength(b.content) - |CLEARED_MARKER|);
      } else {
        cleared := cleared + [b];
      }
      i := i + 1;
    }
    assert content[i..] == [];
  }

  method ClampResults(content: seq<Block>, max: nat) returns (clamped: seq<Block>)
    ensures clamped == ClampedContent(content, max)
  {
    clamped := [];
    var i := 0;
    assert content[0..] == content;
    while i < |content|
      invariant 0 <= i <= |content|
      invariant ClampedContent(content, max) == clamped + ClampedContent(content[i..], max)
    {
      var b := content[i];
      assert content[i..][1..] == content[i + 1..];
      Glue(clamped, [ClampedBlock(b, max)], ClampedContent(content[i + 1..], max));
      if b.ToolResult? && TextLength(b.content) > max {
        var body := CapToolResultContent(b.content, max);
        clamped := clamped + [b.(content := body)];
      } else {
        clamped := clamped + [b];
      }
      i := i + 1;
    }
    assert content[i..] == [];
  }

  lemma ClearedStep(ms: seq<Message>, i: nat)
    requires i < |ms|
    ensures Cleared(ms, i + 1) == Cleared(ms, i)[i := ClearedMessage(ms[i])]
    ensures Cleared(ms, i)[i] == ms[i]
  {
  }

  /** Cuts every oversized result down, wherever it stands. */
  method ClampOversized(messages: seq<Message>, perResult: nat) returns (out: seq<Message>)
    ensures out == Clamped(messages, perResult)
  {
    hide ClampedContent;
    out := messages;
    if perResult > 0 {
      for i := 0 to |messages|
        invariant |out| == |messages|
        invariant forall j :: 0 <= j < i ==> out[j] == ClampedMessage(messages[j], perResult)
        invariant forall j :: i <= j < |messages| ==> out[j] == messages[j]
      {
        if IsTool(out[i]) {
          var content := ClampResults(out[i].content, perResult);
          out := out[i := out[i].(content := content)];
        }
      }
    }
  }

  /** Phase A: clears old results, oldest message first, until the history fits. */
  method ClearOldResults(messages: seq<Message>, size: nat, maxBytes: nat, protectFrom: nat)
      returns (out: seq<Message>, total: nat)
    requires size == HistorySize(messages) && protectFrom <= |messages|
    ensures out == Cleared(messages, ClearCount(messages, maxBytes, protectFrom, 0))
    ensures total == HistorySize(out)
  {
    hide ClearedContent, ContentSize, HistorySize;
    out, total := messages, size;
    assert out == Cleared(messages, 0);
    var i := 0;
    while i < protectFrom && total > maxBytes
      invariant 0 <= i <= protectFrom
      invariant out == Cleared(messages, i)
      invariant total == HistorySize(out)
      invariant ClearCount(messages, maxBytes, protectFrom, 0) == ClearCount(messages, maxBytes, protectFrom, i)
    {
      ClearedStep(messages, i);
      if IsTool(out[i]) {
        var content, freed := ClearResults(out[i].content);
        HistorySizeUpdate(out, i, out[i].(content := content));
        out := out[i := out[i].(content := content)];
        assert freed <= total;
        total := SaturatingSub(total, freed);
      }
      i := i + 1;
    }
  }

  /** Phase B: drops whole leading messages until the history fits or one is left. */
  method DropLeading(messages: seq<Message>, size: nat, maxBytes: nat) returns (out: seq<Message>)
    requires size == HistorySize(messages)
    ensures out == messages[DropCount(messages, maxBytes)..]
  {
    out := messages;
    var total := size;
    ghost var d := 0;
    while total > maxBytes && |out| > 1
      invariant 0 <= d <= |messages| && out == messages[d..]
      invariant total == HistorySize(out)
      invariant DropCount(messages, maxBytes) == d + DropCount(out, maxBytes)
      decreases |out|
    {
      var dropped := out[0];
      out := out[1..];
      assert ContentSize(dropped.content) <= total;
      total := SaturatingSub(total, ContentSize(dropped.content));
      d := d + 1;
    }
  }

  /**
   * The cap.  `total` is kept up to date incrementally and stays the exact size throughout, so no subtraction
   * ever saturates.
   */
  method EnforceHistoryByteCap(messages: seq<Message>, maxBytes: nat, keepRecent: nat, perResult: nat)
      returns (out: seq<Message>)
    ensures out == ByteCapped(messages, maxBytes, keepRecent, perResult)
  {
    hide Clamped, Cleared, ClearCount, HistorySize, DropCount, LeadingTools;
    if maxBytes == 0 || messages == [] {
      return messages;
    }
    out := ClampOversized(messages, perResult);
    var total := HistorySize(out);
    var protectFrom := SaturatingSub(|out|, Max(keepRecent, 1));
    out, total := ClearOldResults(out, total, maxBytes, protectFrom);
    out := DropLeading(out, total, maxBytes);
    out := StripLeadingTools(out);
  }

  method StripLeadingTools(messages: seq<Message>) returns (out: seq<Message>)
    ensures out == messages[LeadingTools(messages)..]
  {
    out := messages;
    ghost var n := 0;
    while out != [] && IsTool(out[0])
      invariant 0 <= n <= |messages| && out == messages[n..]
      invariant LeadingTools(messages) == n + LeadingTools(out)
      decreases |out|
    {
      out := out[1..];
      n := n + 1;
    }
  }

  // ---------- Collapsing old results ----------

  const COLLAPSIBLE_TOOLS: seq<string> := ["Read", "Grep", "Glob", "LS", "MemoryRead", "TaskOutput"]

  /** Tool names by tool_use id; the last use of an id wins. */
  function NamesInContent(content: seq<Block>, names: map<string, string>): map<string, string> {
    if content == [] then names
    else NamesInContent(content[1..], if content[0].ToolUse? then names[content[0].id := content[0].name] else names)
  }

  function NamesIn(ms: seq<Message>, names: map<string, string>): map<string, string> {
    if ms == [] then names else NamesIn(ms[1..], NamesInContent(ms[0].content, names))
  }

  function Collapsed(tool: string, bytes: nat): string {
    "<" + tool + " result: " + Decimal(bytes) + " bytes elided to save context; call again if you need the full body>"
  }

  function CollapsedBlock(b: Block, names: map<string, string>, threshold: nat): Block {
    if !b.ToolResult? || b.isError then b
    else
      var name := if b.toolUseId in names then names[b.toolUseId] else "";
      if name !in COLLAPSIBLE_TOOLS || TextLength(b.content) < threshold then b
      else b.(content := [Text(Collapsed(name, TextLength(b.content)))])
  }

  function CollapsedMessage(m: Message, names: map<string, string>, threshold: nat): Message {
    m.(content := seq(|m.content|, i requires 0 <= i < |m.content| => CollapsedBlock(m.content[i], names, threshold)))
  }

  function CollapseOldToolResults(ms: seq<Message>, keepRecent: nat, threshold: nat): (r: seq<Message>)
    ensures |r| == |ms|
  {
    if threshold == 0 || |ms| <= keepRecent + 1 then ms
    else
      var names := NamesIn(ms, map[]);
      seq(|ms|, i requires 0 <= i < |ms| =>
        if i >= |ms| - keepRecent then ms[i] else CollapsedMessage(ms[i], names, threshold))
  }

  // ---------- Redaction ----------

  const REDACTED_PLACEHOLDER := "[SNACA: content omitted \U{E2}\U{80}\U{94} flagged by provider content policy]"
  const REDACTED_INPUT := "{\"_snaca_redacted\":true}"

  function RedactedBlock(b: Block): Block {
    match b
    case ToolUse(id, name, _) => ToolUse(id, name, REDACTED_INPUT)
    case ToolResult(id, _, isError) => ToolResult(id, [Text(REDACTED_PLACEHOLDER)], isError)
    case _ => Text(REDACTED_PLACEHOLDER)
  }

  function RedactedMessage(m: Message): Message {
    m.(content := seq(|m.content|, i requires 0 <= i < |m.content| => RedactedBlock(m.content[i])))
  }

  /** `ms` with every message whose id is in `ids` redacted. */
  function Redact(ms: seq<Message>, ids: set<MessageId>): (r: seq<Message>)
    ensures |r| == |ms|
  {
    seq(|ms|, i requires 0 <= i < |ms| => if ms[i].id in ids then RedactedMessage(ms[i]) else ms[i])
  }
}
