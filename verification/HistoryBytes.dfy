/** What capping, clearing, collapsing and redaction leave of a block, byte by byte. */
module HistoryBytes {
  import opened Prelude
  import opened Messages
  import opened Truncation
  import opened History
  import opened HistoryProofs
  import opened CollapseProofs

  /** `digits` spells `n` in decimal. */
  predicate SpellsNumber(digits: string, n: nat) {
    && digits != "" && (forall i :: 0 <= i < |digits| ==> '0' <= digits[i] <= '9')
    && AllDigits(digits) && NumberOf(digits) == n && (digits[0] == '0' ==> digits == "0")
  }

  lemma {:induction false} DecimalSpells(n: nat)
    ensures SpellsNumber(Decimal(n), n)
  {
    DecimalReadsBack(n);
    if n >= 10 {
      DecimalSpells(n / 10);
      assert Decimal(n)[0] == Decimal(n / 10)[0];
    }
  }

  /** No character is cut in two between `a` and `b`: a byte that continues one is 80 to BF. */
  predicate CutClean(a: string, b: string) {
    a != "" && b != "" ==> !(0x80 <= b[0] as int <= 0xBF)
  }

  /** `out` is a head and a tail of `text` around a note that tells how many bytes are gone. */
  ghost predicate Shortened(text: string, max: nat, out: string) {
    exists head, gone, tail, digits ::
      && text == head + gone + tail && |head| <= Max(1, max / 2) && |tail| <= Max(1, max / 2)
      && CutClean(head, gone + tail) && CutClean(head + gone, tail) && SpellsNumber(digits, |gone|)
      && out == NoteAround(head, digits, tail)
  }

  /** The note between head and tail. */
  function NoteAround(head: string, digits: string, tail: string): string {
    head + ("\n\n[... " + digits + " bytes truncated to fit the context window; "
            + "re-run the tool if the full output " + "is needed ...]\n\n") + tail
  }

  lemma PreviewIsShortened(text: string, max: nat)
    requires 0 < max < |text|
    ensures Shortened(text, max, Preview(text, max))
  {
    hide Boundary, HeadEnd, TailStart, Preview, Note, Shortened;
    TruncationIsExact(text, max);
    BoundaryIsClean(text, HeadEnd(text, max));
    BoundaryIsClean(text, TailStart(text, max));
    ShortenedAt(text, max, HeadEnd(text, max), TailStart(text, max));
  }

  lemma BoundaryIsClean(text: string, i: nat)
    requires Boundary(text, i)
    ensures CutClean(text[..i], text[i..])
  {
  }

  lemma ShortenedAt(text: string, max: nat, h: nat, t: nat)
    requires h <= t <= |text| && h <= Max(1, max / 2) && |text| - t <= Max(1, max / 2)
    requires CutClean(text[..h], text[h..]) && CutClean(text[..t], text[t..])
    ensures Shortened(text, max, text[..h] + Note(|text[h..t]|) + text[t..])
  {
    hide Decimal, SpellsNumber, Note, NoteAround, CutClean;
    var head, gone, tail := text[..h], text[h..t], text[t..];
    assert gone + tail == text[h..] && head + gone == text[..t];
    DecimalSpells(|gone|);
    NoteIs(head, |gone|, tail);
    assert text == head + gone + tail;
  }

  lemma NoteIs(head: string, n: nat, tail: string)
    ensures head + Note(n) + tail == NoteAround(head, Decimal(n), tail)
  {
    hide Decimal;
  }

  /** The text blocks joined, in order. */
  function JoinedText(content: seq<Block>): string {
    if content == [] then ""
    else JoinedText(content[..|content| - 1])
         + if content[|content| - 1].Text? then content[|content| - 1].text else ""
  }

  function OtherBlocks(content: seq<Block>): seq<Block> {
    if content == [] then []
    else OtherBlocks(content[..|content| - 1])
         + if content[|content| - 1].Text? then [] else [content[|content| - 1]]
  }

  lemma {:induction false} TextsAppend(a: seq<Block>, b: seq<Block>)
    ensures Texts(a + b) == Texts(a) + Texts(b) && NonText(a + b) == NonText(a) + NonText(b)
  {
    hide TextLength, Texts, NonText;
    if a == [] {
      assert a + b == b;
      NoTexts();
      assert "" + Texts(b) == Texts(b) && [] + NonText(b) == NonText(b);
    } else {
      assert (a + b)[1..] == a[1..] + b && (a + b)[0] == a[0];
      TextsAppend(a[1..], b);
      ContentStep(a, a[1..]);
      ContentStep(a + b, a[1..] + b);
      if a[0].Text? {
        Glue(a[0].text, Texts(a[1..]), Texts(b));
      } else {
        Glue([a[0]], NonText(a[1..]), NonText(b));
      }
    }
  }

  lemma NoTexts()
    ensures Texts([]) == "" && NonText([]) == []
  {
  }

  lemma {:induction false} TextsAre(content: seq<Block>)
    ensures Texts(content) == JoinedText(content) && NonText(content) == OtherBlocks(content)
  {
    hide Texts, NonText;
    NoTexts();
    if content != [] {
      var init, last := content[..|content| - 1], content[|content| - 1];
      TextsAre(init);
      TextsAppend(init, [last]);
      assert content == init + [last];
      ContentStep([last], []);
      assert last.Text? ==> last.text + "" == last.text;
      assert [last] + [] == [last];
    }
  }

  /**
   * Capping one result body: with no more text than the limit, or no limit, it stays; otherwise it becomes one text
   * block, a head and a tail of the joined text around the note, followed by the other blocks as they are.
   */
  lemma CappedBytes(content: seq<Block>, max: nat)
    ensures var out := Capped(content, max);
            if max == 0 || |JoinedText(content)| <= max then out == content
            else
              && |out| == 1 + |OtherBlocks(content)| && out[0].Text? && out[1..] == OtherBlocks(content)
              && Shortened(JoinedText(content), max, out[0].text)
  {
    hide Preview, Texts, TextLength, NonText, Shortened, JoinedText, OtherBlocks;
    TextsAre(content);
    assert |Texts(content)| == TextLength(content);
    if 0 < max < TextLength(content) {
      PreviewIsShortened(Texts(content), max);
    }
  }

  lemma {:induction false} ClampedAt(content: seq<Block>, max: nat)
    ensures |ClampedContent(content, max)| == |content|
    ensures forall j :: 0 <= j < |content| ==> ClampedContent(content, max)[j] == ClampedBlock(content[j], max)
  {
    hide Capped;
    if content != [] {
      ClampedAt(content[1..], max);
    }
  }

  /** The block after clamping: only bodies of results in tool messages change, and only above the limit. */
  ghost predicate ClampedTo(m: Message, b: Block, out: Block, max: nat) {
    if m.role != Tool || !b.ToolResult? || max == 0 || |JoinedText(b.content)| <= max then out == b
    else
      && out.ToolResult? && out.toolUseId == b.toolUseId && out.isError == b.isError
      && |out.content| == 1 + |OtherBlocks(b.content)| && out.content[0].Text?
      && out.content[1..] == OtherBlocks(b.content)
      && Shortened(JoinedText(b.content), max, out.content[0].text)
  }

  /** Clamping a whole history, block by block. */
  lemma ClampedBytes(ms: seq<Message>, max: nat, i: nat, j: nat)
    requires i < |ms| && j < |ms[i].content|
    ensures var out := Clamped(ms, max)[i];
            && out.id == ms[i].id && out.role == ms[i].role && |out.content| == |ms[i].content|
            && ClampedTo(ms[i], ms[i].content[j], out.content[j], max)
  {
    hide Capped, ClampedContent, Shortened, JoinedText, OtherBlocks;
    ClampedAt(ms[i].content, max);
    if ms[i].content[j].ToolResult? {
      CappedBytes(ms[i].content[j].content, max);
    }
  }

  // ---------- Sizes and the window ----------

  /** Bytes of text in a block: the body, the thought, a call's name and input, or the text of a result. */
  function TextBytes(b: Block): nat {
    if b.Text? then |b.text|
    else if b.Thinking? then |b.thought|
    else if b.ToolUse? then |b.name| + |b.input|
    else if b.ToolResult? then |JoinedText(b.content)|
    else 0
  }

  function AllTextBytes(content: seq<Block>): nat {
    if content == [] then 0 else AllTextBytes(content[..|content| - 1]) + TextBytes(content[|content| - 1])
  }

  function ImageCount(content: seq<Block>): nat {
    if content == [] then 0
    else ImageCount(content[..|content| - 1]) + if content[|content| - 1].Image? then 1 else 0
  }

  lemma OneBlockSize(b: Block)
    ensures ContentSize([b]) == TextBytes(b) + 1024 * if b.Image? then 1 else 0
  {
    hide JoinedText, TextLength, Texts;
    assert [b][1..] == [];
    if b.ToolResult? {
      TextsAre(b.content);
      assert |Texts(b.content)| == TextLength(b.content);
    }
  }

  /** The size of a message: its bytes of text, and 1024 for each image. */
  lemma {:induction false} MessageSizeIs(content: seq<Block>)
    ensures ContentSize(content) == AllTextBytes(content) + 1024 * ImageCount(content)
  {
    hide TextBytes, BlockSize;
    if content != [] {
      var init, last := content[..|content| - 1], content[|content| - 1];
      MessageSizeIs(init);
      OneBlockSize(last);
      assert content == init + [last];
      ContentSizeSplit(init, [last]);
    }
  }

  /** How many messages are a user's or an assistant's. */
  function SpokenCount(ms: seq<Message>): nat {
    if ms == [] then 0
    else SpokenCount(ms[..|ms| - 1])
         + if ms[|ms| - 1].role == User || ms[|ms| - 1].role == Assistant then 1 else 0
  }

  lemma {:induction false} ConversationAppend(a: seq<Message>, b: seq<Message>)
    ensures ConversationCount(a + b) == ConversationCount(a) + ConversationCount(b)
  {
    hide Conversational;
    if a == [] {
      assert a + b == b;
    } else {
      assert (a + b)[1..] == a[1..] + b;
      ConversationAppend(a[1..], b);
    }
  }

  lemma {:induction false} SpokenIs(ms: seq<Message>)
    ensures ConversationCount(ms) == SpokenCount(ms)
  {
    if ms != [] {
      var init, last := ms[..|ms| - 1], ms[|ms| - 1];
      SpokenIs(init);
      assert ms == init + [last] && [last][1..] == [];
      ConversationAppend(init, [last]);
    }
  }

  /** The window is the longest tail with at most `limit` messages of users and assistants; 0 is no limit. */
  lemma WindowBytes(ms: seq<Message>, limit: nat)
    ensures var cut := WindowCut(ms, limit);
            if limit == 0 then cut == 0
            else SpokenCount(ms[cut..]) <= limit && forall k :: 0 <= k < cut ==> SpokenCount(ms[k..]) > limit
  {
    if limit > 0 {
      var cut := WindowCut(ms, limit);
      WindowKeepsLongestTail(ms, limit);
      SpokenIs(ms[cut..]);
      forall k | 0 <= k < cut ensures SpokenCount(ms[k..]) > limit {
        SpokenIs(ms[k..]);
      }
    }
  }

  // ---------- Clearing ----------

  /** The block after the cap has cleared the message it is in: old, big, successful results become a short marker. */
  predicate ClearedTo(m: Message, b: Block, out: Block) {
    if m.role == Tool && b.ToolResult? && !b.isError
       && |JoinedText(b.content)| > |"[Old tool result content cleared to fit context budget]"|
    then out == ToolResult(b.toolUseId, [Text("[Old tool result content cleared to fit context budget]")], false)
    else out == b
  }

  /** What the cap does to each block, before whole messages are dropped: clamps it, and clears it if it is old. */
  lemma CappedHistoryBytes(ms: seq<Message>, maxBytes: nat, keepRecent: nat, perResult: nat, i: nat, j: nat)
    requires i < |ms| && j < |ms[i].content|
    ensures var clamped, out := Clamped(ms, perResult), AfterClearing(ms, maxBytes, keepRecent, perResult);
            && |clamped[i].content| == |out[i].content| == |ms[i].content|
            && exists k :: 0 <= k && (k == 0 || k + Max(keepRecent, 1) <= |ms|) && ClearedFrom(clamped, out, i, j, k)
                           && (HistorySize(out) > maxBytes ==> k + Max(keepRecent, 1) >= |ms|)
  {
    hide ClearCount, ClearedContent, ClampedContent, ClearedBlock, ClearedFrom, HistorySize;
    ClampedAt(ms[i].content, perResult);
    var clamped := Clamped(ms, perResult);
    var k := ClearCount(clamped, maxBytes, ProtectFrom(|ms|, keepRecent), 0);
    ClearedContentAt(clamped[i].content);
    ClearCountIsLeast(clamped, maxBytes, ProtectFrom(|ms|, keepRecent), 0);
    ClearedIs(clamped, k, i, j);
  }

  /** The first `k` messages are cleared, the others are not. */
  predicate ClearedFrom(clamped: seq<Message>, out: seq<Message>, i: nat, j: nat, k: int)
    requires i < |clamped| && i < |out| && j < |clamped[i].content| && j < |out[i].content|
  {
    if i < k then ClearedTo(clamped[i], clamped[i].content[j], out[i].content[j])
    else out[i].content[j] == clamped[i].content[j]
  }

  lemma ClearedIs(ms: seq<Message>, k: nat, i: nat, j: nat)
    requires k <= |ms| && i < |ms| && j < |ms[i].content|
    ensures |Cleared(ms, k)[i].content| == |ms[i].content| && ClearedFrom(ms, Cleared(ms, k), i, j, k)
  {
    hide JoinedText, ClearedContent, TextLength, Texts;
    ClearedContentAt(ms[i].content);
    var b := ms[i].content[j];
    if b.ToolResult? {
      TextsAre(b.content);
      assert |Texts(b.content)| == TextLength(b.content);
    }
  }

  // ---------- Collapsing and redaction ----------

  /** The marker a collapsed result becomes: the tool and the size of what is gone. */
  ghost predicate CollapseMarker(text: string, tool: string, bytes: nat) {
    exists digits :: SpellsNumber(digits, bytes) && text == MarkerText(tool, digits)
  }

  function MarkerText(tool: string, digits: string): string {
    "<" + tool + " result: " + digits + " bytes elided to save context; call again if you need the full body>"
  }

  /** Tools whose old results can be had again by calling them again. */
  predicate Repeatable(tool: string) {
    tool == "Read" || tool == "Grep" || tool == "Glob" || tool == "LS" || tool == "MemoryRead" || tool == "TaskOutput"
  }

  /** Collapsing a result whose id is called under one name only: to the marker, or not at all. */
  lemma CollapsedBytes(ms: seq<Message>, keepRecent: nat, threshold: nat, i: nat, j: nat, name: string)
    requires i < |ms| && j < |ms[i].content| && ms[i].content[j].ToolResult?
    requires CalledAs(ms, ms[i].content[j].toolUseId, name)
    requires forall other :: CalledAs(ms, ms[i].content[j].toolUseId, other) ==> other == name
    ensures var b, out := ms[i].content[j], CollapseOldToolResults(ms, keepRecent, threshold)[i].content[j];
            if |ms| > keepRecent + 1 && i + keepRecent < |ms| && !b.isError && Repeatable(name)
               && 0 < threshold <= |JoinedText(b.content)|
            then && out.ToolResult? && out.toolUseId == b.toolUseId && !out.isError && |out.content| == 1
                 && out.content[0].Text? && CollapseMarker(out.content[0].text, name, |JoinedText(b.content)|)
            else out == b
  {
    hide CollapseOldToolResults, CalledAs, Collapsed, JoinedText, TextLength, Texts, SpellsNumber;
    var b := ms[i].content[j];
    CollapseIsExact(ms, keepRecent, threshold, i, j, name);
    TextsAre(b.content);
    assert |Texts(b.content)| == TextLength(b.content);
    MarkerIs(name, |JoinedText(b.content)|);
    RepeatableIs(name);
  }

  lemma RepeatableIs(tool: string)
    ensures Repeatable(tool) <==> tool in COLLAPSIBLE_TOOLS
  {
  }

  lemma MarkerIs(tool: string, bytes: nat)
    ensures CollapseMarker(Collapsed(tool, bytes), tool, bytes)
  {
    hide SpellsNumber, Decimal;
    DecimalSpells(bytes);
    assert Collapsed(tool, bytes) == MarkerText(tool, Decimal(bytes));
  }

  /** A redacted call keeps its id and name, a redacted result its id and whether it failed; nothing else is left. */
  lemma RedactedBytes(ms: seq<Message>, ids: set<MessageId>, i: nat, j: nat)
    requires i < |ms| && j < |ms[i].content|
    ensures var b, out := ms[i].content[j], Redact(ms, ids)[i];
            && out.id == ms[i].id && out.role == ms[i].role && |out.content| == |ms[i].content|
            && if ms[i].id !in ids then out == ms[i]
               else if b.ToolUse? then out.content[j] == ToolUse(b.id, b.name, "{\"_snaca_redacted\":true}")
               else if b.ToolResult? then
                 out.content[j] == ToolResult(b.toolUseId, [Text(PlaceholderText())], b.isError)
               else out.content[j] == Text(PlaceholderText())
  {
  }

  /** The dash is the three bytes of U+2014. */
  function PlaceholderText(): string {
    "[SNACA: content omitted \U{E2}\U{80}\U{94} flagged by provider content policy]"
  }
}
