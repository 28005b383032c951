/** What shrinking a history guarantees, and how it composes with the pairing gate. */
module HistoryProofs {
  import opened Prelude
  import opened Messages
  import opened History
  import opened Pairing
  import opened PairingProofs

  // ---------- The window ----------

  /**
   * The window keeps the longest tail with at most `limit` conversational messages; when there were more than that,
   * it keeps exactly `limit`.
   */
  lemma WindowKeepsLongestTail(ms: seq<Message>, limit: nat)
    requires 0 < limit
    ensures var cut := WindowCut(ms, limit);
            && ConversationCount(ms[cut..]) == Min(limit, ConversationCount(ms))
            && forall k :: 0 <= k < cut ==> ConversationCount(ms[k..]) > limit
  {
    WindowCutAfter(ms, limit);
    if ConversationCount(ms) < limit {
      assert ms[0..] == ms;
    }
  }

  // ---------- The byte cap ----------

  lemma {:induction false} DropFits(ms: seq<Message>, maxBytes: nat)
    ensures var d := DropCount(ms, maxBytes);
            && (HistorySize(ms[d..]) <= maxBytes || |ms[d..]| <= 1)
            && (forall k :: 0 <= k < d ==> HistorySize(ms[k..]) > maxBytes && |ms[k..]| > 1)
  {
    if HistorySize(ms) <= maxBytes || |ms| <= 1 {
      assert ms[0..] == ms;
    } else {
      var rest, d := ms[1..], DropCount(ms[1..], maxBytes);
      DropFits(rest, maxBytes);
      assert rest[d..] == ms[d + 1..];
      forall k | 0 <= k < d + 1 ensures HistorySize(ms[k..]) > maxBytes && |ms[k..]| > 1 {
        if k == 0 {
          assert ms[0..] == ms;
        } else {
          assert ms[k..] == rest[k - 1..];
        }
      }
    }
  }

  lemma {:induction false} LeadingToolsAreTools(ms: seq<Message>)
    ensures var n := LeadingTools(ms);
            && (forall i :: 0 <= i < n ==> IsTool(ms[i]))
            && (n < |ms| ==> !IsTool(ms[n]))
  {
    if ms != [] && IsTool(ms[0]) {
      LeadingToolsAreTools(ms[1..]);
    }
  }

  lemma SuffixIsSmaller(ms: seq<Message>, n: nat)
    requires n <= |ms|
    ensures HistorySize(ms[n..]) <= HistorySize(ms)
  {
    assert ms == ms[..n] + ms[n..];
    HistorySizeSplit(ms[..n], ms[n..]);
  }

  /** The result fits or is a single message, and never starts with a tool message. */
  lemma CapFits(ms: seq<Message>, maxBytes: nat, keepRecent: nat, perResult: nat)
    requires maxBytes > 0
    ensures var out := ByteCapped(ms, maxBytes, keepRecent, perResult);
            && (HistorySize(out) <= maxBytes || |out| <= 1)
            && (out != [] ==> !IsTool(out[0]))
  {
    hide AfterClearing, DropCount, LeadingTools, HistorySize;
    var cleared := AfterClearing(ms, maxBytes, keepRecent, perResult);
    var d := DropCount(cleared, maxBytes);
    var kept := cleared[d..];
    var n := LeadingTools(kept);
    DropFits(cleared, maxBytes);
    LeadingToolsAreTools(kept);
    SuffixIsSmaller(kept, n);
    assert kept[n..] == cleared[d + n..];
    assert ByteCapped(ms, maxBytes, keepRecent, perResult) == kept[n..];
  }

  lemma {:induction false} ClearCountIsLeast(ms: seq<Message>, maxBytes: nat, protectFrom: nat, k: nat)
    requires k <= protectFrom <= |ms|
    ensures var r := ClearCount(ms, maxBytes, protectFrom, k);
            && (r < protectFrom ==> HistorySize(Cleared(ms, r)) <= maxBytes)
            && forall i :: k <= i < r ==> HistorySize(Cleared(ms, i)) > maxBytes
    decreases protectFrom - k
  {
    hide Cleared, HistorySize;
    if k < protectFrom && HistorySize(Cleared(ms, k)) > maxBytes {
      ClearCountIsLeast(ms, maxBytes, protectFrom, k + 1);
    }
  }

  /**
   * No more is given up than needed: clearing stops at the first message that makes the history fit, a message is
   * dropped for size only while all of the history from it on is too big, and any other dropped message is an
   * unattached tool message.
   */
  lemma CapGivesUpLittle(ms: seq<Message>, maxBytes: nat, keepRecent: nat, perResult: nat)
    requires maxBytes > 0
    ensures var clamped := Clamped(ms, perResult);
            var cleared := AfterClearing(ms, maxBytes, keepRecent, perResult);
            exists k | 0 <= k <= ProtectFrom(|ms|, keepRecent) ::
              && cleared == Cleared(clamped, k)
              && forall i :: 0 <= i < k ==> HistorySize(Cleared(clamped, i)) > maxBytes
    ensures var cleared := AfterClearing(ms, maxBytes, keepRecent, perResult);
            forall i :: 0 <= i < CapCut(ms, maxBytes, keepRecent, perResult) ==>
              HistorySize(cleared[i..]) > maxBytes || IsTool(cleared[i])
  {
    hide Clamped, Cleared, ClearCount, HistorySize, DropCount, LeadingTools;
    var clamped := Clamped(ms, perResult);
    var k := ClearCount(clamped, maxBytes, ProtectFrom(|ms|, keepRecent), 0);
    ClearCountIsLeast(clamped, maxBytes, ProtectFrom(|ms|, keepRecent), 0);
    var cleared := Cleared(clamped, k);
    var d := DropCount(cleared, maxBytes);
    DropFits(cleared, maxBytes);
    LeadingToolsAreTools(cleared[d..]);
    forall i | d <= i < d + LeadingTools(cleared[d..]) ensures IsTool(cleared[i]) {
      assert cleared[i] == cleared[d..][i - d];
    }
  }

  lemma {:induction false} ClearedContentAt(content: seq<Block>)
    ensures |ClearedContent(content)| == |content|
    ensures forall i :: 0 <= i < |content| ==> ClearedContent(content)[i] == ClearedBlock(content[i])
  {
    if content != [] {
      ClearedContentAt(content[1..]);
    }
  }

  /** Clearing leaves the most recent messages, error results, small results and everything else alone. */
  lemma CapSparesRecentAndErrors(ms: seq<Message>, maxBytes: nat, keepRecent: nat, perResult: nat, i: nat)
    requires i < |ms|
    ensures var before, after := Clamped(ms, perResult)[i], AfterClearing(ms, maxBytes, keepRecent, perResult)[i];
            && |after.content| == |before.content|
            && (i >= |ms| - Max(keepRecent, 1) ==> after == before)
            && (forall j :: 0 <= j < |before.content| ==>
                  after.content[j] == before.content[j] || after.content[j] == ClearedBlock(before.content[j]))
            && forall j :: 0 <= j < |before.content| && !Clearable(before.content[j]) ==>
                 after.content[j] == before.content[j]
  {
    hide ClearCount, ClearedContent;
    ClearedContentAt(Clamped(ms, perResult)[i].content);
  }

  // ---------- Shape ----------

  lemma {:induction false} ClearedContentShape(content: seq<Block>)
    ensures ShapeOfContent(ClearedContent(content)) == ShapeOfContent(content)
  {
    ClearedContentAt(content);
  }

  lemma {:induction false} ClampedContentShape(content: seq<Block>, max: nat)
    ensures ShapeOfContent(ClampedContent(content, max)) == ShapeOfContent(content)
  {
    if content != [] {
      ClampedContentShape(content[1..], max);
      ShapePrepend(ClampedBlock(content[0], max), ClampedContent(content[1..], max));
      ShapePrepend(content[0], content[1..]);
      assert content == [content[0]] + content[1..];
    }
  }

  lemma ClearingKeepsShape(ms: seq<Message>, maxBytes: nat, keepRecent: nat, perResult: nat)
    ensures Shapes(AfterClearing(ms, maxBytes, keepRecent, perResult)) == Shapes(ms)
  {
    hide ShapeOfContent, ClearedContent, ClampedContent, ClearCount;
    var cleared := AfterClearing(ms, maxBytes, keepRecent, perResult);
    forall i | 0 <= i < |ms|
      ensures cleared[i].id == ms[i].id && cleared[i].role == ms[i].role
      ensures ShapeOfContent(cleared[i].content) == ShapeOfContent(ms[i].content)
    {
      var clamped := Clamped(ms, perResult)[i];
      ClampedContentShape(ms[i].content, perResult);
      ClearedContentShape(clamped.content);
    }
    SameShapes(cleared, ms);
  }

  /** The cap removes whole leading messages and otherwise keeps every role and id in place. */
  lemma CapKeepsShape(ms: seq<Message>, maxBytes: nat, keepRecent: nat, perResult: nat)
    requires maxBytes > 0
    ensures Shapes(ByteCapped(ms, maxBytes, keepRecent, perResult))
         == Shapes(ms[CapCut(ms, maxBytes, keepRecent, perResult)..])
  {
    hide AfterClearing, CapCut, Shape;
    var cleared := AfterClearing(ms, maxBytes, keepRecent, perResult);
    var cut := CapCut(ms, maxBytes, keepRecent, perResult);
    ClearingKeepsShape(ms, maxBytes, keepRecent, perResult);
    assert Shapes(cleared[cut..]) == Shapes(cleared)[cut..];
    assert Shapes(ms[cut..]) == Shapes(ms)[cut..];
  }

  lemma CollapseKeepsShape(ms: seq<Message>, keepRecent: nat, threshold: nat)
    ensures Shapes(CollapseOldToolResults(ms, keepRecent, threshold)) == Shapes(ms)
  {
    hide NamesIn, Collapsed;
    var out := CollapseOldToolResults(ms, keepRecent, threshold);
    forall i | 0 <= i < |ms|
      ensures out[i].id == ms[i].id && out[i].role == ms[i].role
      ensures ShapeOfContent(out[i].content) == ShapeOfContent(ms[i].content)
    {
    }
    SameShapes(out, ms);
  }

  lemma RedactKeepsShape(ms: seq<Message>, ids: set<MessageId>)
    ensures Shapes(Redact(ms, ids)) == Shapes(ms)
  {
    var out := Redact(ms, ids);
    forall i | 0 <= i < |ms|
      ensures out[i].id == ms[i].id && out[i].role == ms[i].role
      ensures ShapeOfContent(out[i].content) == ShapeOfContent(ms[i].content)
    {
    }
    SameShapes(out, ms);
  }

  /** Redacting any rows, collapsing old results or both cannot change which calls are answered or repaired. */
  lemma ContentPlaysNoPart(ms: seq<Message>, ids: set<MessageId>, keepRecent: nat, threshold: nat)
    ensures Shapes(Gate(CollapseOldToolResults(Redact(ms, ids), keepRecent, threshold))) == Shapes(Gate(ms))
  {
    RedactKeepsShape(ms, ids);
    CollapseKeepsShape(Redact(ms, ids), keepRecent, threshold);
    GateShape(CollapseOldToolResults(Redact(ms, ids), keepRecent, threshold), ms);
  }

  /** Nothing but ids, tool names and error flags is left of a redacted message. */
  lemma RedactionForgetsContent(a: Message, b: Message)
    requires Shape(a) == Shape(b)
    requires forall i :: 0 <= i < |a.content| && i < |b.content| ==>
      && (a.content[i].ToolUse? && b.content[i].ToolUse? ==> a.content[i].name == b.content[i].name)
      && (a.content[i].ToolResult? && b.content[i].ToolResult? ==> a.content[i].isError == b.content[i].isError)
    ensures RedactedMessage(a) == RedactedMessage(b)
  {
    assert |a.content| == |ShapeOfContent(a.content)| == |b.content|;
    forall i | 0 <= i < |a.content| ensures RedactedBlock(a.content[i]) == RedactedBlock(b.content[i]) {
      assert ShapeOfContent(a.content)[i] == ShapeOfContent(b.content)[i];
    }
    assert RedactedMessage(a).content == RedactedMessage(b).content;
  }

  // ---------- The load pipeline ----------

  datatype Limits = Limits(conversation: nat, maxBytes: nat, keepRecent: nat, perResult: nat, collapseFrom: nat)

  /** What is loaded from the stored rows: redact, window, cap, collapse. */
  function Loaded(rows: seq<Message>, redacted: set<MessageId>, cfg: Limits): seq<Message> {
    var msgs := Redact(rows, redacted);
    var windowed := msgs[WindowCut(msgs, cfg.conversation)..];
    var bounded := ByteCapped(windowed, cfg.maxBytes, cfg.keepRecent, cfg.perResult);
    CollapseOldToolResults(bounded, cfg.keepRecent, cfg.collapseFrom)
  }

  /** Loading keeps a tail of the rows, in shape. */
  lemma LoadedIsTail(rows: seq<Message>, redacted: set<MessageId>, cfg: Limits) returns (cut: nat)
    ensures cut <= |rows| && Shapes(Loaded(rows, redacted, cfg)) == Shapes(rows[cut..])
  {
    hide Redact, WindowCut, ByteCapped, CapCut, CollapseOldToolResults, Shape;
    var msgs := Redact(rows, redacted);
    RedactKeepsShape(rows, redacted);
    var w := WindowCut(msgs, cfg.conversation);
    var windowed := msgs[w..];
    var bounded := ByteCapped(windowed, cfg.maxBytes, cfg.keepRecent, cfg.perResult);
    CollapseKeepsShape(bounded, cfg.keepRecent, cfg.collapseFrom);
    if cfg.maxBytes == 0 {
      cut := w;
      UncappedIsSame(windowed, cfg.keepRecent, cfg.perResult);
    } else {
      var c := CapCut(windowed, cfg.maxBytes, cfg.keepRecent, cfg.perResult);
      CapKeepsShape(windowed, cfg.maxBytes, cfg.keepRecent, cfg.perResult);
      cut := w + c;
      assert windowed[c..] == msgs[cut..];
    }
    assert Shapes(msgs[cut..]) == Shapes(msgs)[cut..];
    assert Shapes(rows[cut..]) == Shapes(rows)[cut..];
  }

  lemma UncappedIsSame(ms: seq<Message>, keepRecent: nat, perResult: nat)
    ensures ByteCapped(ms, 0, keepRecent, perResult) == ms
  {
  }

  /**
   * If the stored rows pair up, then after redaction, window, cap, collapse and gate the request is a tail of the
   * rows with every message, call and result id in place: no result was made up and only whole leading messages
   * are gone.
   */
  lemma PipelineNeedsNoRepair(rows: seq<Message>, redacted: set<MessageId>, cfg: Limits) returns (cut: nat)
    requires WireValid(rows) && AnsweredOnce(rows)
    ensures cut <= |rows| && Shapes(Gate(Loaded(rows, redacted, cfg))) == Shapes(rows[cut..])
    ensures cut < |rows| ==> !IsTool(rows[cut])
  {
    hide Loaded, Gate, WireValid, AnsweredOnce, CutValid, Shape;
    var loaded := Loaded(rows, redacted, cfg);
    cut := LoadedIsTail(rows, redacted, cfg);
    ValidIsCutValid(rows);
    CutStaysValid(rows, cut);
    CutValidShape(rows[cut..], loaded);
    GateOnCut(loaded);
    assert |Shapes(loaded)| == |loaded| == |rows| - cut;
    if loaded != [] {
      ShapesAt(loaded, rows[cut..], 0);
      if IsTool(loaded[0]) {
        assert rows[cut..][1..] == rows[cut + 1..];
        NoTwoTools(rows, cut);
        cut := cut + 1;
      }
    }
  }

  lemma ValidIsCutValid(ms: seq<Message>)
    requires WireValid(ms) && AnsweredOnce(ms)
    ensures CutValid(ms)
  {
    ValidTail(ms, 0, false);
    assert ms[0..] == ms;
  }

  lemma NoTwoTools(ms: seq<Message>, i: nat)
    requires WireValid(ms) && i < |ms| && IsTool(ms[i])
    ensures i + 1 < |ms| ==> !IsTool(ms[i + 1])
  {
    if i + 1 < |ms| {
      assert AttachedAt(ms, i + 1, false);
    }
  }

  predicate DistinctRows(rows: seq<Message>) {
    forall i, j :: 0 <= i < j < |rows| ==> rows[i].id != rows[j].id
  }

  // ---------- Redaction can widen the window ----------

  /**
   * A row the byte cap leaves out is not out of reach: redacting a later row can make room for it.  So a probe may
   * contain rows that the unredacted history does not.
   */
  lemma OneRowComesBack(a: string, b: string, maxBytes: nat, keepRecent: nat, perResult: nat)
    requires |a| + |b| > maxBytes > 0 && |a| + |REDACTED_PLACEHOLDER| <= maxBytes
    ensures var rows := [Message(Stored(0), Assistant, [Text(a)]), Message(Stored(1), Assistant, [Text(b)])];
            && ByteCapped(rows, maxBytes, keepRecent, perResult) == rows[1..]
            && ByteCapped(Redact(rows, {Stored(1)}), maxBytes, keepRecent, perResult) == Redact(rows, {Stored(1)})
  {
    var m0, m1 := Message(Stored(0), Assistant, [Text(a)]), Message(Stored(1), Assistant, [Text(b)]);
    var r1 := Message(Stored(1), Assistant, [Text(REDACTED_PLACEHOLDER)]);
    assert RedactedMessage(m1).content == [Text(REDACTED_PLACEHOLDER)];
    assert Redact([m0, m1], {Stored(1)}) == [m0, r1];
    CapOnTexts(m0, m1, maxBytes, keepRecent, perResult);
    CapOnTexts(m0, r1, maxBytes, keepRecent, perResult);
    TextMessageSize(m0, a);
    TextMessageSize(m1, b);
    TextMessageSize(r1, REDACTED_PLACEHOLDER);
  }

  lemma TextMessageSize(m: Message, text: string)
    requires m.content == [Text(text)]
    ensures ContentSize(m.content) == |text|
  {
    assert m.content[1..] == [];
  }

  lemma CapOnTexts(m0: Message, m1: Message, maxBytes: nat, keepRecent: nat, perResult: nat)
    requires maxBytes > 0 && m0.role == Assistant && m1.role == Assistant
    ensures ByteCapped([m0, m1], maxBytes, keepRecent, perResult) ==
            if ContentSize(m0.content) + ContentSize(m1.content) <= maxBytes then [m0, m1] else [m1]
  {
    hide ContentSize, ClearCount;
    var ms := [m0, m1];
    assert AfterClearing(ms, maxBytes, keepRecent, perResult) == ms;
    assert ms[1..] == [m1] && [m1][1..] == [] && ms[0..] == ms;
    assert HistorySize([m1]) == ContentSize(m1.content) + HistorySize([]);
    assert HistorySize(ms) == ContentSize(m0.content) + HistorySize([m1]);
    var d := DropCount(ms, maxBytes);
    assert d == if HistorySize(ms) <= maxBytes then 0 else 1 + DropCount([m1], maxBytes);
    assert !IsTool(ms[d]) && LeadingTools(ms[d..]) == 0;
    assert CapCut(ms, maxBytes, keepRecent, perResult) == d;
  }
}
