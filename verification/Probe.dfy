/** The probe of the poison search as the load pipeline computes it. */
module Probe {
  import opened Prelude
  import opened Messages
  import opened Pairing
  import opened PairingProofs
  import opened Truncation
  import opened History
  import opened HistoryProofs
  import opened CollapseProofs
  import opened Threads
  import opened SummaryLoad
  import opened Poison

  /** The request a probe sends. */
  function ProbeRequest(rows: seq<Message>, redacted: set<MessageId>, cfg: Limits): seq<Message> {
    Gate(Loaded(rows, redacted, cfg))
  }

  /** Redaction leaves the window where it is: the cut depends on the roles alone. */
  lemma {:induction false} WindowCutByRole(a: seq<Message>, b: seq<Message>, limit: nat)
    requires |a| == |b| && forall i :: 0 <= i < |a| ==> a[i].role == b[i].role
    ensures ConversationCount(a) == ConversationCount(b)
    ensures WindowCut(a, limit) == WindowCut(b, limit)
  {
    if a != [] {
      assert a[0].role == b[0].role;
      assert forall i :: 0 <= i < |a[1..]| ==> a[1..][i] == a[i + 1] && b[1..][i] == b[i + 1];
      WindowCutByRole(a[1..], b[1..], limit);
    }
  }

  // ---------- Room for every redaction ----------

  /** A row as the cap leaves it when there is room. */
  function Fitted(m: Message, cfg: Limits): Message {
    if cfg.maxBytes > 0 && cfg.perResult > 0 then ClampedMessage(m, cfg.perResult) else m
  }

  /** The size of the rows from `i` on, each counted with the larger of its size as it is and its size redacted. */
  function WorstSize(rows: seq<Message>, i: nat, cfg: Limits): nat
    requires i <= |rows|
    decreases |rows| - i
  {
    if i == |rows| then 0
    else
      Max(ContentSize(Fitted(rows[i], cfg).content), ContentSize(Fitted(RedactedMessage(rows[i]), cfg).content))
      + WorstSize(rows, i + 1, cfg)
  }

  /** The byte cap is off, or has room for the window however its rows are redacted. */
  predicate Roomy(rows: seq<Message>, cfg: Limits) {
    cfg.maxBytes == 0 || WorstSize(rows, WindowCut(rows, cfg.conversation), cfg) <= cfg.maxBytes
  }

  function FittedAll(ms: seq<Message>, cfg: Limits): (r: seq<Message>)
    ensures |r| == |ms|
  {
    seq(|ms|, i requires 0 <= i < |ms| => Fitted(ms[i], cfg))
  }

  lemma {:induction false} WorstIsWorst(rows: seq<Message>, redacted: set<MessageId>, i: nat, cfg: Limits)
    requires i <= |rows|
    ensures HistorySize(FittedAll(Redact(rows, redacted), cfg)[i..]) <= WorstSize(rows, i, cfg)
    decreases |rows| - i
  {
    hide Fitted, RedactedMessage, ContentSize;
    var all := FittedAll(Redact(rows, redacted), cfg);
    if i < |rows| {
      WorstIsWorst(rows, redacted, i + 1, cfg);
      assert all[i..][0] == all[i] && all[i..][1..] == all[i + 1..];
    }
  }

  /** A history that fits is only clamped, and loses the tool messages at its head. */
  lemma CapWithRoom(ms: seq<Message>, cfg: Limits)
    requires cfg.maxBytes > 0 && HistorySize(FittedAll(ms, cfg)) <= cfg.maxBytes
    ensures ByteCapped(ms, cfg.maxBytes, cfg.keepRecent, cfg.perResult) == FittedAll(ms, cfg)[LeadingTools(ms)..]
  {
    hide HistorySize, ClampedContent, ClearedContent;
    var clamped := Clamped(ms, cfg.perResult);
    assert clamped == FittedAll(ms, cfg);
    assert Cleared(clamped, 0) == clamped;
    assert ClearCount(clamped, cfg.maxBytes, ProtectFrom(|ms|, cfg.keepRecent), 0) == 0;
    assert DropCount(clamped, cfg.maxBytes) == 0;
    assert clamped[0..] == clamped;
    LeadingToolsByRole(clamped, ms);
  }

  lemma {:induction false} LeadingToolsByRole(a: seq<Message>, b: seq<Message>)
    requires |a| == |b| && forall i :: 0 <= i < |a| ==> a[i].role == b[i].role
    ensures LeadingTools(a) == LeadingTools(b)
  {
    if a != [] {
      assert a[0].role == b[0].role;
      assert forall i :: 0 <= i < |a[1..]| ==> a[1..][i] == a[i + 1] && b[1..][i] == b[i + 1];
      LeadingToolsByRole(a[1..], b[1..]);
    }
  }

  // ---------- Names survive ----------

  lemma {:induction false} SameNamesInContent(a: seq<Block>, b: seq<Block>, names: map<string, string>)
    requires |a| == |b| && forall i :: 0 <= i < |a| ==> SameUse(a[i], b[i])
    ensures NamesInContent(a, names) == NamesInContent(b, names)
  {
    if a != [] {
      assert SameUse(a[0], b[0]);
      assert forall i :: 0 <= i < |a[1..]| ==> a[1..][i] == a[i + 1] && b[1..][i] == b[i + 1];
      SameNamesInContent(a[1..], b[1..], if a[0].ToolUse? then names[a[0].id := a[0].name] else names);
    }
  }

  predicate SameUse(a: Block, b: Block) {
    (a.ToolUse? <==> b.ToolUse?) && (a.ToolUse? ==> a.id == b.id && a.name == b.name)
  }

  predicate SameUses(a: Message, b: Message) {
    |a.content| == |b.content| && forall i :: 0 <= i < |a.content| ==> SameUse(a.content[i], b.content[i])
  }

  lemma {:induction false} SameNames(a: seq<Message>, b: seq<Message>, names: map<string, string>)
    requires |a| == |b| && forall i :: 0 <= i < |a| ==> SameUses(a[i], b[i])
    ensures NamesIn(a, names) == NamesIn(b, names)
  {
    hide NamesInContent;
    if a != [] {
      assert SameUses(a[0], b[0]);
      assert forall i :: 0 <= i < |a[1..]| ==> a[1..][i] == a[i + 1] && b[1..][i] == b[i + 1];
      SameNamesInContent(a[0].content, b[0].content, names);
      SameNames(a[1..], b[1..], NamesInContent(a[0].content, names));
    }
  }

  lemma {:induction false} ClampedUses(content: seq<Block>, max: nat)
    ensures |ClampedContent(content, max)| == |content|
    ensures forall i :: 0 <= i < |content| ==> ClampedContent(content, max)[i] == ClampedBlock(content[i], max)
  {
    hide Capped;
    if content != [] {
      ClampedUses(content[1..], max);
    }
  }

  lemma FittedKeepsUses(m: Message, cfg: Limits)
    ensures SameUses(Fitted(m, cfg), m) && SameUses(Fitted(RedactedMessage(m), cfg), m)
    ensures Fitted(m, cfg).role == m.role && Fitted(m, cfg).id == m.id
  {
    hide Capped, ClampedContent;
    ClampedUses(m.content, cfg.perResult);
    ClampedUses(RedactedMessage(m).content, cfg.perResult);
  }

  // ---------- The request, row by row ----------

  /** The first row that is loaded. */
  function LoadStart(rows: seq<Message>, cfg: Limits): (start: nat)
    ensures start <= |rows|
  {
    var w := WindowCut(rows, cfg.conversation);
    if cfg.maxBytes == 0 then w else w + LeadingTools(rows[w..])
  }

  /** Where the request starts in the rows. */
  function RequestStart(rows: seq<Message>, cfg: Limits): (cut: nat)
    ensures cut <= |rows|
  {
    var w := WindowCut(rows, cfg.conversation);
    if w < |rows| && IsTool(rows[w]) then w + 1 else w
  }

  /** Row `j` as it is sent when its message is `m`: a function of that message alone, whatever else is redacted. */
  function Sent(rows: seq<Message>, cfg: Limits, j: nat, m: Message): Message
    requires j < |rows|
  {
    var start, fitted := LoadStart(rows, cfg), Fitted(m, cfg);
    if cfg.collapseFrom == 0 || |rows| - start <= cfg.keepRecent + 1 || j >= |rows| - cfg.keepRecent then fitted
    else CollapsedMessage(fitted, NamesIn(rows[start..], map[]), cfg.collapseFrom)
  }

  function Trial(m: Message, redacted: set<MessageId>): Message {
    if m.id in redacted then RedactedMessage(m) else m
  }

  lemma BoundedIsFitted(rows: seq<Message>, redacted: set<MessageId>, cfg: Limits)
    requires Roomy(rows, cfg)
    ensures var w := WindowCut(rows, cfg.conversation);
            && WindowCut(Redact(rows, redacted), cfg.conversation) == w
            && ByteCapped(Redact(rows, redacted)[w..], cfg.maxBytes, cfg.keepRecent, cfg.perResult)
               == FittedAll(Redact(rows, redacted), cfg)[LoadStart(rows, cfg)..]
  {
    hide WindowCut, ByteCapped, HistorySize, RedactedMessage, LeadingTools, WorstSize, ClampedMessage;
    var msgs := Redact(rows, redacted);
    forall i | 0 <= i < |rows| ensures msgs[i].role == rows[i].role {
      TrialKeepsRole(rows[i], redacted);
    }
    WindowCutByRole(msgs, rows, cfg.conversation);
    var w := WindowCut(rows, cfg.conversation);
    var windowed := msgs[w..];
    assert FittedAll(windowed, cfg) == FittedAll(msgs, cfg)[w..];
    if cfg.maxBytes == 0 {
      UncappedIsSame(windowed, cfg.keepRecent, cfg.perResult);
      assert FittedAll(msgs, cfg)[w..] == windowed;
    } else {
      WorstIsWorst(rows, redacted, w, cfg);
      CapWithRoom(windowed, cfg);
      LeadingToolsByRole(windowed, rows[w..]);
      assert FittedAll(msgs, cfg)[w..][LeadingTools(rows[w..])..] == FittedAll(msgs, cfg)[LoadStart(rows, cfg)..];
    }
  }

  lemma TrialKeepsRole(m: Message, redacted: set<MessageId>)
    ensures Trial(m, redacted).role == m.role
  {
  }

  lemma LoadedRows(rows: seq<Message>, redacted: set<MessageId>, cfg: Limits)
    requires Roomy(rows, cfg)
    ensures var start, loaded := LoadStart(rows, cfg), Loaded(rows, redacted, cfg);
            && |loaded| == |rows| - start
            && forall k :: 0 <= k < |loaded| ==>
                 loaded[k] == Sent(rows, cfg, start + k, Trial(rows[start + k], redacted))
  {
    hide WindowCut, ByteCapped, RedactedMessage, CollapsedMessage, NamesIn, Fitted;
    BoundedIsFitted(rows, redacted, cfg);
    var start := LoadStart(rows, cfg);
    var bounded := FittedAll(Redact(rows, redacted), cfg)[start..];
    assert Loaded(rows, redacted, cfg) == CollapseOldToolResults(bounded, cfg.keepRecent, cfg.collapseFrom);
    forall k | 0 <= k < |bounded|
      ensures bounded[k] == Fitted(Trial(rows[start + k], redacted), cfg)
      ensures SameUses(bounded[k], rows[start..][k])
    {
      FittedKeepsUses(rows[start + k], cfg);
    }
    SameNames(bounded, rows[start..], map[]);
  }

  lemma LeadingToolsOfThread(rows: seq<Message>, w: nat)
    requires Thread(rows) && w <= |rows|
    ensures LeadingTools(rows[w..]) == if w < |rows| && IsTool(rows[w]) then 1 else 0
  {
    hide Thread;
    if w < |rows| && IsTool(rows[w]) {
      assert rows[w..][1..] == rows[w + 1..];
      if w + 1 < |rows| {
        NoToolBehindTool(rows, w);
      }
    }
  }

  lemma StartOfRequest(rows: seq<Message>, cfg: Limits)
    requires Thread(rows)
    ensures var start := LoadStart(rows, cfg);
            && start <= RequestStart(rows, cfg)
            && RequestStart(rows, cfg) == if start < |rows| && IsTool(rows[start]) then start + 1 else start
  {
    hide Thread, LeadingTools, WindowCut;
    var w := WindowCut(rows, cfg.conversation);
    LeadingToolsOfThread(rows, w);
    if w + 1 < |rows| && IsTool(rows[w]) {
      NoToolBehindTool(rows, w);
    }
  }

  /** The gate takes a leading tool message off what is loaded, and fills in the calls without a reply. */
  lemma GateOnLoaded(rows: seq<Message>, redacted: set<MessageId>, cfg: Limits)
    requires Thread(rows) && Roomy(rows, cfg)
    ensures var start, loaded := LoadStart(rows, cfg), Loaded(rows, redacted, cfg);
            && |loaded| == |rows| - start && Shapes(loaded) == Shapes(rows[start..])
            && Gate(loaded) == Filled(if start < |rows| && IsTool(rows[start]) then loaded[1..] else loaded)
  {
    hide Loaded, Gate, Thread, Sent, Trial, Roomy, LoadStart, Shape, Filled;
    var loaded := Loaded(rows, redacted, cfg);
    LoadedRows(rows, redacted, cfg);
    var cut := LoadedIsTail(rows, redacted, cfg);
    assert |Shapes(loaded)| == |loaded| && cut == LoadStart(rows, cfg);
    ThreadTail(rows, cut);
    ThreadShape(rows[cut..], loaded);
    GateFills(loaded);
    if loaded != [] {
      ShapesAt(loaded, rows[cut..], 0);
    }
  }

  /** The rows of the request as they are sent. */
  function SentRows(rows: seq<Message>, redacted: set<MessageId>, cfg: Limits): (r: seq<Message>)
    ensures |r| == |rows| - RequestStart(rows, cfg)
  {
    var start := RequestStart(rows, cfg);
    seq(|rows| - start, k requires 0 <= k < |rows| - start =>
      Sent(rows, cfg, start + k, Trial(rows[start + k], redacted)))
  }

  /**
   * With room for every redaction, and whatever is clamped or collapsed, the request is a fixed tail of the rows with
   * synthetic errors for the calls without a reply, and each row of it depends on whether that row is redacted and on
   * nothing else.
   */
  lemma RequestIsTail(rows: seq<Message>, redacted: set<MessageId>, cfg: Limits)
    requires Thread(rows) && Roomy(rows, cfg)
    ensures ProbeRequest(rows, redacted, cfg) == Filled(SentRows(rows, redacted, cfg))
    ensures Shapes(SentRows(rows, redacted, cfg)) == Shapes(rows[RequestStart(rows, cfg)..])
  {
    hide Loaded, Gate, Thread, Sent, Trial, Roomy, LoadStart, RequestStart, Filled, Shapes;
    GateOnLoaded(rows, redacted, cfg);
    LoadedRows(rows, redacted, cfg);
    StartOfRequest(rows, cfg);
    var start, cut, loaded := LoadStart(rows, cfg), RequestStart(rows, cfg), Loaded(rows, redacted, cfg);
    assert loaded[cut - start..] == SentRows(rows, redacted, cfg);
    assert rows[start..][cut - start..] == rows[cut..];
    if cut > start {
      ShapesAt(loaded, rows[start..], 0);
    }
  }

  // ---------- The oracle ----------

  /** The verdict of a filter that fires on any bad message. */
  function FilterVerdict(request: seq<Message>, bad: Message -> bool): Verdict {
    if exists m :: m in request && bad(m) then Filtered else Passed
  }

  function RealProbe(rows: seq<Message>, cfg: Limits, bad: Message -> bool, redacted: set<MessageId>): Probe {
    (extra: set<MessageId>) => FilterVerdict(ProbeRequest(rows, redacted + extra, cfg), bad)
  }

  /** The rows of the request that are bad as they are sent. */
  function PoisonRows(rows: seq<Message>, cfg: Limits, bad: Message -> bool): set<MessageId> {
    set j | RequestStart(rows, cfg) <= j < |rows| && bad(Sent(rows, cfg, j, rows[j])) :: rows[j].id
  }

  /** No redacted row is bad as it is sent. */
  predicate PlaceholdersPass(rows: seq<Message>, cfg: Limits, bad: Message -> bool) {
    forall j :: 0 <= j < |rows| ==> !bad(Sent(rows, cfg, j, RedactedMessage(rows[j])))
  }

  /** The synthetic errors for a call without a reply are not bad either. */
  predicate SyntheticPass(rows: seq<Message>, bad: Message -> bool) {
    forall j :: 0 <= j < |rows| && OpenAt(rows, j) ==> !bad(FreshAnswer(Calls(rows[j])))
  }

  predicate Probeable(rows: seq<Message>, cfg: Limits, bad: Message -> bool) {
    Thread(rows) && Roomy(rows, cfg) && PlaceholdersPass(rows, cfg, bad) && SyntheticPass(rows, bad)
  }

  lemma NothingBadAdded(rows: seq<Message>, redacted: set<MessageId>, cfg: Limits, bad: Message -> bool, m: Message)
    requires Thread(rows) && Roomy(rows, cfg) && SyntheticPass(rows, bad) && bad(m)
    ensures m in ProbeRequest(rows, redacted, cfg) <==> m in SentRows(rows, redacted, cfg)
  {
    hide Thread, Roomy, ProbeRequest, RequestStart, Filled, Shapes, Calls, Sent, Trial;
    RequestIsTail(rows, redacted, cfg);
    var start, sent := RequestStart(rows, cfg), SentRows(rows, redacted, cfg);
    FilledMembers(sent, m);
    forall i | OpenAt(sent, i) ensures m != FreshAnswer(Calls(sent[i])) {
      ShapesAt(sent, rows[start..], i);
      if i + 1 < |sent| {
        ShapesAt(sent, rows[start..], i + 1);
      }
      assert OpenAt(rows, start + i);
    }
  }

  lemma SentAt(rows: seq<Message>, redacted: set<MessageId>, cfg: Limits, k: nat)
    requires k < |SentRows(rows, redacted, cfg)|
    ensures var j := RequestStart(rows, cfg) + k;
            SentRows(rows, redacted, cfg)[k]
            == Sent(rows, cfg, j, if rows[j].id in redacted then RedactedMessage(rows[j]) else rows[j])
  {
    hide Sent, RequestStart, RedactedMessage;
    var j := RequestStart(rows, cfg) + k;
    assert SentRows(rows, redacted, cfg)[k] == Sent(rows, cfg, j, Trial(rows[j], redacted));
  }

  lemma SeesPoison(rows: seq<Message>, redacted: set<MessageId>, cfg: Limits, bad: Message -> bool)
    requires Probeable(rows, cfg, bad)
    ensures FilterVerdict(ProbeRequest(rows, redacted, cfg), bad) == Filtered
       <==> PoisonRows(rows, cfg, bad) - redacted != {}
  {
    hide Thread, ProbeRequest, RequestStart, Roomy, Sent, RedactedMessage, SyntheticPass, SentRows;
    var start, sent := RequestStart(rows, cfg), SentRows(rows, redacted, cfg);
    var request := ProbeRequest(rows, redacted, cfg);
    var poison := PoisonRows(rows, cfg, bad);
    if m :| m in request && bad(m) {
      NothingBadAdded(rows, redacted, cfg, bad, m);
      var k :| 0 <= k < |sent| && sent[k] == m;
      SentAt(rows, redacted, cfg, k);
      assert rows[start + k].id !in redacted;
      assert rows[start + k].id in poison - redacted;
    }
    if poison - redacted != {} {
      var id :| id in poison - redacted;
      var j :| start <= j < |rows| && bad(Sent(rows, cfg, j, rows[j])) && rows[j].id == id;
      SentAt(rows, redacted, cfg, j - start);
      NothingBadAdded(rows, redacted, cfg, bad, sent[j - start]);
    }
  }

  /**
   * The oracle of the search is what the pipeline computes, limits and collapsing included: the probe's verdict on any
   * set of rows is that of the poison probe for the bad rows of the request.
   */
  lemma ProbeSeesExactlyThePoison(
      rows: seq<Message>, redacted: set<MessageId>, cfg: Limits, bad: Message -> bool, extra: set<MessageId>)
    requires Probeable(rows, cfg, bad)
    ensures RealProbe(rows, cfg, bad, redacted)(extra) == PoisonProbe(PoisonRows(rows, cfg, bad), redacted)(extra)
  {
    hide PoisonRows, ProbeRequest, Probeable, FilterVerdict;
    SeesPoison(rows, redacted + extra, cfg, bad);
    var poison := PoisonRows(rows, cfg, bad);
    assert poison - (redacted + extra) == poison - redacted - extra;
  }

  // ---------- Placeholders ----------

  lemma PlaceholderFits(b: Block, max: nat)
    requires max == 0 || max >= |REDACTED_PLACEHOLDER|
    ensures ClampedBlock(RedactedBlock(b), max) == RedactedBlock(b)
  {
    SingleText(REDACTED_PLACEHOLDER);
  }

  lemma PlaceholderStays(b: Block, names: map<string, string>, threshold: nat)
    requires threshold > |REDACTED_PLACEHOLDER|
    ensures CollapsedBlock(RedactedBlock(b), names, threshold) == RedactedBlock(b)
  {
    SingleText(REDACTED_PLACEHOLDER);
  }

  lemma RedactedFits(m: Message, cfg: Limits)
    requires cfg.perResult == 0 || cfg.perResult >= |REDACTED_PLACEHOLDER|
    ensures Fitted(RedactedMessage(m), cfg) == RedactedMessage(m)
  {
    hide Capped, ClampedContent, ClampedBlock, RedactedBlock;
    var content := RedactedMessage(m).content;
    forall i | 0 <= i < |content| ensures ClampedBlock(content[i], cfg.perResult) == content[i] {
      PlaceholderFits(m.content[i], cfg.perResult);
    }
    ClampedUses(content, cfg.perResult);
    assert ClampedContent(content, cfg.perResult) == content;
  }

  /** Clamping and collapsing leave a redacted message alone, when their limits are not below its placeholder. */
  lemma RedactedIsSentAsIs(rows: seq<Message>, cfg: Limits, j: nat, m: Message)
    requires j < |rows|
    requires cfg.perResult == 0 || cfg.perResult >= |REDACTED_PLACEHOLDER|
    requires cfg.collapseFrom == 0 || cfg.collapseFrom > |REDACTED_PLACEHOLDER|
    ensures Sent(rows, cfg, j, RedactedMessage(m)) == RedactedMessage(m)
  {
    hide NamesIn, LoadStart, Fitted, CollapsedBlock, RedactedBlock;
    var r, names := RedactedMessage(m), NamesIn(rows[LoadStart(rows, cfg)..], map[]);
    RedactedFits(m, cfg);
    if cfg.collapseFrom > 0 {
      forall i | 0 <= i < |r.content| ensures CollapsedBlock(r.content[i], names, cfg.collapseFrom) == r.content[i] {
        PlaceholderStays(m.content[i], names, cfg.collapseFrom);
      }
      assert CollapsedMessage(r, names, cfg.collapseFrom).content == r.content;
    }
  }

  /** So with such limits, the default ones among them, a filter that passes placeholders passes redacted rows. */
  lemma PlaceholdersPassWhole(rows: seq<Message>, cfg: Limits, bad: Message -> bool)
    requires cfg.perResult == 0 || cfg.perResult >= |REDACTED_PLACEHOLDER|
    requires cfg.collapseFrom == 0 || cfg.collapseFrom > |REDACTED_PLACEHOLDER|
    ensures PlaceholdersPass(rows, cfg, bad) <==> forall j :: 0 <= j < |rows| ==> !bad(RedactedMessage(rows[j]))
  {
    hide Sent, RedactedMessage;
    forall j | 0 <= j < |rows| ensures Sent(rows, cfg, j, RedactedMessage(rows[j])) == RedactedMessage(rows[j]) {
      RedactedIsSentAsIs(rows, cfg, j, rows[j]);
    }
  }

  // ---------- The search on the real probe ----------

  predicate Redactable(m: Message) {
    m.role == Tool || m.role == Assistant
  }

  function IdsOf(ms: seq<Message>): set<MessageId> {
    set i | 0 <= i < |ms| :: ms[i].id
  }

  function Selected(rows: seq<Message>, redacted: set<MessageId>, inWindow: set<MessageId>): (r: seq<MessageId>)
    ensures |r| <= |rows|
  {
    if rows == [] then []
    else
      (if Redactable(rows[0]) && rows[0].id !in redacted && rows[0].id in inWindow then [rows[0].id] else [])
      + Selected(rows[1..], redacted, inWindow)
  }

  /** The rows the search may redact: assistant and tool rows of the loaded history that are not redacted yet. */
  function Candidates(rows: seq<Message>, redacted: set<MessageId>, cfg: Limits): (r: seq<MessageId>)
    ensures |r| <= |rows|
  {
    Selected(rows, redacted, IdsOf(Loaded(rows, redacted, cfg)))
  }

  lemma {:induction false} SelectedIds(rows: seq<Message>, redacted: set<MessageId>, inWindow: set<MessageId>)
    ensures SetOf(Selected(rows, redacted, inWindow))
         == set j | 0 <= j < |rows| && Redactable(rows[j]) && rows[j].id !in redacted && rows[j].id in inWindow ::
              rows[j].id
  {
    hide Redactable;
    if rows != [] {
      var rest := rows[1..];
      SelectedIds(rest, redacted, inWindow);
      assert rows == [rows[0]] + rest;
      assert forall j :: 0 < j < |rows| ==> rows[j] == rest[j - 1];
      var tail := Selected(rest, redacted, inWindow);
      assert SetOf([rows[0].id] + tail) == {rows[0].id} + SetOf(tail);
      assert [] + tail == tail;
    }
  }

  /** Row `j` of the request is bad as it is sent. */
  predicate BadRow(rows: seq<Message>, cfg: Limits, bad: Message -> bool, j: int) {
    RequestStart(rows, cfg) <= j < |rows| && bad(Sent(rows, cfg, j, rows[j]))
  }

  /** The rows that may be redacted at all. */
  function Able(rows: seq<Message>, cfg: Limits): set<MessageId> {
    set j | LoadStart(rows, cfg) <= j < |rows| && Redactable(rows[j]) :: rows[j].id
  }

  lemma WindowIds(rows: seq<Message>, redacted: set<MessageId>, cfg: Limits)
    requires Roomy(rows, cfg)
    ensures var start := LoadStart(rows, cfg);
            IdsOf(Loaded(rows, redacted, cfg)) == set j | start <= j < |rows| :: rows[j].id
  {
    hide Roomy, LoadStart, NamesIn, Loaded;
    LoadedRows(rows, redacted, cfg);
    var start, loaded := LoadStart(rows, cfg), Loaded(rows, redacted, cfg);
    forall k | 0 <= k < |loaded| ensures loaded[k].id == rows[start + k].id {
      FittedKeepsUses(Trial(rows[start + k], redacted), cfg);
    }
    assert forall j :: start <= j < |rows| ==> loaded[j - start].id == rows[j].id;
  }

  /** The candidates of every round are the rows that may be redacted and are not yet: the window hides none. */
  lemma CandidatesAre(rows: seq<Message>, redacted: set<MessageId>, cfg: Limits)
    requires Roomy(rows, cfg) && DistinctRows(rows)
    ensures SetOf(Candidates(rows, redacted, cfg)) == Able(rows, cfg) - redacted
  {
    hide Roomy, Redactable, Loaded, LoadStart;
    var inWindow := IdsOf(Loaded(rows, redacted, cfg));
    SelectedIds(rows, redacted, inWindow);
    WindowIds(rows, redacted, cfg);
    forall i | 0 <= i < |rows| ensures rows[i].id in inWindow <==> LoadStart(rows, cfg) <= i {
      if rows[i].id in inWindow {
        var j :| LoadStart(rows, cfg) <= j < |rows| && rows[j].id == rows[i].id;
        assert i == j;
      }
    }
  }

  /** The request holds a bad row that is neither redacted nor may be, such as a user's. */
  predicate OutOfReach(rows: seq<Message>, cfg: Limits, bad: Message -> bool, redacted: set<MessageId>) {
    exists j :: 0 <= j < |rows| && BadRow(rows, cfg, bad, j) && rows[j].id !in redacted && !Redactable(rows[j])
  }

  /** Bad rows are candidates exactly if they are redactable. */
  lemma PoisonIsCandidate(rows: seq<Message>, redacted: set<MessageId>, cfg: Limits, bad: Message -> bool)
    requires Thread(rows) && DistinctRows(rows)
    ensures PoisonRows(rows, cfg, bad) - redacted <= Able(rows, cfg) <==> !OutOfReach(rows, cfg, bad, redacted)
  {
    hide Thread, Redactable, Sent, RequestStart, LoadStart;
    var poison, able := PoisonRows(rows, cfg, bad) - redacted, Able(rows, cfg);
    StartOfRequest(rows, cfg);
    forall j | BadRow(rows, cfg, bad, j) && rows[j].id !in redacted
      ensures rows[j].id in poison && (rows[j].id in able <==> Redactable(rows[j]))
    {
    }
    forall id | id in poison
      ensures exists j :: BadRow(rows, cfg, bad, j) && rows[j].id == id && rows[j].id !in redacted
    {
      var j :| RequestStart(rows, cfg) <= j < |rows| && bad(Sent(rows, cfg, j, rows[j])) && rows[j].id == id;
      assert BadRow(rows, cfg, bad, j);
    }
  }

  /** The search of one round on the real probe. */
  function RowSearch(rows: seq<Message>, redacted: set<MessageId>, cfg: Limits, bad: Message -> bool): (Location, nat) {
    Search(Candidates(rows, redacted, cfg), RealProbe(rows, cfg, bad, redacted))
  }

  lemma RealProbeSees(rows: seq<Message>, redacted: set<MessageId>, cfg: Limits, bad: Message -> bool)
    requires Probeable(rows, cfg, bad)
    ensures Sees(RealProbe(rows, cfg, bad, redacted), PoisonRows(rows, cfg, bad), redacted)
  {
    hide Probeable, RealProbe, PoisonProbe, PoisonRows;
    forall extra
      ensures RealProbe(rows, cfg, bad, redacted)(extra) == PoisonProbe(PoisonRows(rows, cfg, bad), redacted)(extra)
    {
      ProbeSeesExactlyThePoison(rows, redacted, cfg, bad, extra);
    }
  }

  /**
   * One search on the real probe, whatever request was filtered.  It gives up exactly when no row may be redacted or
   * the probe's request holds a bad row that may not be, such as a user's.  The row it redacts is bad exactly when that
   * request holds a bad row at all; otherwise it is the last candidate.
   */
  lemma RowIsLocalized(rows: seq<Message>, redacted: set<MessageId>, cfg: Limits, bad: Message -> bool)
    requires Probeable(rows, cfg, bad) && DistinctRows(rows) && |rows| <= MAX_POOL_ROWS
    ensures var (where, probes) := RowSearch(rows, redacted, cfg, bad);
            var poison, candidates := PoisonRows(rows, cfg, bad) - redacted, Candidates(rows, redacted, cfg);
            && (where.Unredactable? <==> candidates == [] || OutOfReach(rows, cfg, bad, redacted))
            && (where.Redacted? ==> where.target in candidates)
            && (where.Redacted? ==> (where.target in poison <==> poison != {}))
            && (where.Redacted? && poison == {} ==> where.target == candidates[|candidates| - 1])
            && probes <= 23
  {
    hide Thread, Roomy, PlaceholdersPass, SyntheticPass, DistinctRows, RealProbe, PoisonRows, Candidates, Search;
    hide OutOfReach, Able, Sees;
    RealProbeSees(rows, redacted, cfg, bad);
    RoundFinds(Candidates(rows, redacted, cfg), RealProbe(rows, cfg, bad, redacted),
               PoisonRows(rows, cfg, bad), redacted);
    CandidatesAre(rows, redacted, cfg);
    PoisonIsCandidate(rows, redacted, cfg, bad);
    WithinUnredacted(PoisonRows(rows, cfg, bad), redacted, Able(rows, cfg));
  }

  lemma WithinUnredacted(poison: set<MessageId>, redacted: set<MessageId>, able: set<MessageId>)
    ensures poison - redacted <= able - redacted <==> poison - redacted <= able
  {
  }

  // ---------- Recovery ----------

  // A summary on file, with the head preserved in front of it and the live rows behind it.
  datatype Summary = Summary(head: seq<Message>, text: string, live: seq<Message>)

  /** The request of the turn itself. */
  function TurnRequest(rows: seq<Message>, summary: Option<Summary>, redacted: set<MessageId>, cfg: Limits)
      : seq<Message>
  {
    match summary
    case None => Gate(Loaded(rows, redacted, cfg))
    case Some(s) => Gate(LoadedAround(s.head, s.text, s.live, redacted, cfg))
  }

  function TurnVerdict(rows: seq<Message>, summary: Option<Summary>, cfg: Limits, bad: Message -> bool): Probe {
    (redacted: set<MessageId>) => FilterVerdict(TurnRequest(rows, summary, redacted, cfg), bad)
  }

  /** Recovery on the real pipeline, with or without a summary on file. */
  function RowRecovery(rows: seq<Message>, summary: Option<Summary>, redacted0: set<MessageId>, cfg: Limits,
                       bad: Message -> bool, retries: nat): Recovery
  {
    Recovered((redacted: set<MessageId>) => Candidates(rows, redacted, cfg),
              (redacted: set<MessageId>) => RealProbe(rows, cfg, bad, redacted),
              TurnVerdict(rows, summary, cfg, bad), redacted0, retries)
  }

  /** Whatever has been redacted, the same rows may be redacted and the same rows are bad. */
  lemma RealRowsStay(rows: seq<Message>, cfg: Limits, bad: Message -> bool)
    requires Probeable(rows, cfg, bad) && DistinctRows(rows) && |rows| <= MAX_POOL_ROWS
    ensures SameRows((redacted: set<MessageId>) => Candidates(rows, redacted, cfg),
                     (redacted: set<MessageId>) => RealProbe(rows, cfg, bad, redacted),
                     Able(rows, cfg), PoisonRows(rows, cfg, bad))
  {
    hide Thread, Roomy, PlaceholdersPass, SyntheticPass, DistinctRows, RealProbe, PoisonRows, Candidates, Able, Sees;
    forall redacted: set<MessageId>
      ensures SetOf(Candidates(rows, redacted, cfg)) == Able(rows, cfg) - redacted
      ensures Sees(RealProbe(rows, cfg, bad, redacted), PoisonRows(rows, cfg, bad), redacted)
    {
      CandidatesAre(rows, redacted, cfg);
      RealProbeSees(rows, redacted, cfg, bad);
    }
  }

  /**
   * Recovery whatever request the turn sends.  Its first rounds redact one bad row each of the probe's request; all
   * rounds after that redact rows that are not bad.  It ends when the turn passes or the retries are used up, or gives
   * up when the turn is filtered and no row may be redacted any more or a bad row may not be.
   */
  lemma RecoveryOfRows(rows: seq<Message>, summary: Option<Summary>, redacted0: set<MessageId>, cfg: Limits,
                       bad: Message -> bool, retries: nat)
    requires Probeable(rows, cfg, bad) && DistinctRows(rows) && |rows| <= MAX_POOL_ROWS
    ensures var r := RowRecovery(rows, summary, redacted0, cfg, bad, retries);
            var turn := TurnVerdict(rows, summary, cfg, bad);
            && Progress(PoisonRows(rows, cfg, bad), redacted0, r.redacted, r.rounds)
            && r.redacted <= redacted0 + Able(rows, cfg) && r.rounds <= retries && r.probes <= 23 * retries
            && (r.gaveUp || r.rounds == retries || turn(r.redacted) == Passed)
            && (r.gaveUp ==> turn(r.redacted) == Filtered
                             && (Able(rows, cfg) <= r.redacted || OutOfReach(rows, cfg, bad, r.redacted)))
            && (retries > 0 && turn(redacted0) == Filtered
                && (Able(rows, cfg) <= redacted0 || OutOfReach(rows, cfg, bad, redacted0)) ==>
                  r.gaveUp && r.redacted == redacted0)
  {
    hide Thread, Roomy, PlaceholdersPass, SyntheticPass, DistinctRows, RealProbe, PoisonRows, Candidates, Able;
    hide Recovered, SameRows, Progress, OutOfReach, TurnVerdict;
    var r := RowRecovery(rows, summary, redacted0, cfg, bad, retries);
    var able, poison, turn := Able(rows, cfg), PoisonRows(rows, cfg, bad), TurnVerdict(rows, summary, cfg, bad);
    RealRowsStay(rows, cfg, bad);
    RecoveryHealsPoisonFirst((ids: set<MessageId>) => Candidates(rows, ids, cfg),
      (ids: set<MessageId>) => RealProbe(rows, cfg, bad, ids), turn, able, poison, redacted0, retries);
    RecoveryEnds((ids: set<MessageId>) => Candidates(rows, ids, cfg),
      (ids: set<MessageId>) => RealProbe(rows, cfg, bad, ids), turn, able, poison, redacted0, retries);
    PoisonIsCandidate(rows, redacted0, cfg, bad);
    PoisonIsCandidate(rows, r.redacted, cfg, bad);
  }

  /**
   * Without a summary on file only bad rows are redacted, one a round, and recovery gives up, at once, exactly when the
   * request holds a bad row that may not be redacted.
   */
  lemma RecoveryWithoutSummary(rows: seq<Message>, redacted0: set<MessageId>, cfg: Limits, bad: Message -> bool,
                               retries: nat)
    requires Probeable(rows, cfg, bad) && DistinctRows(rows) && |rows| <= MAX_POOL_ROWS
    ensures var r, poison := RowRecovery(rows, None, redacted0, cfg, bad, retries), PoisonRows(rows, cfg, bad);
            && redacted0 <= r.redacted <= redacted0 + poison
            && (r.gaveUp <==> retries > 0 && OutOfReach(rows, cfg, bad, redacted0))
            && (r.gaveUp ==> r.redacted == redacted0)
            && (!r.gaveUp ==> r.rounds == Min(retries, |poison - redacted0|))
  {
    hide Thread, Roomy, PlaceholdersPass, SyntheticPass, DistinctRows, PoisonRows, Candidates, Able;
    hide Recovered, SameRows, OutOfReach;
    var turn := TurnVerdict(rows, None, cfg, bad);
    RealRowsStay(rows, cfg, bad);
    forall redacted: set<MessageId> ensures turn(redacted) == RealProbe(rows, cfg, bad, redacted)({}) {
      assert redacted + {} == redacted;
    }
    RecoveryRedactsOnlyPoison((ids: set<MessageId>) => Candidates(rows, ids, cfg),
      (ids: set<MessageId>) => RealProbe(rows, cfg, bad, ids), turn,
      Able(rows, cfg), PoisonRows(rows, cfg, bad), redacted0, retries);
    PoisonIsCandidate(rows, redacted0, cfg, bad);
  }

  lemma {:induction false} ConversationStays(ms: seq<Message>, m: Message)
    requires !IsTool(m)
    ensures m in NonTool(ms) <==> m in ms
  {
    if ms != [] {
      ConversationStays(ms[1..], m);
      assert ms == [ms[0]] + ms[1..];
      assert [] + NonTool(ms[1..]) == NonTool(ms[1..]);
    }
  }

  /**
   * With a summary on file the probes do not send what the turn sends.  When the text of the summary is bad, the turn
   * is filtered whatever is redacted; once no bad row is left in the probe's request, every search redacts an innocent
   * row.
   */
  lemma BadSummaryMisleads(rows: seq<Message>, s: Summary, redacted: set<MessageId>, cfg: Limits, bad: Message -> bool)
    requires Probeable(rows, cfg, bad) && DistinctRows(rows) && |rows| <= MAX_POOL_ROWS
    requires bad(SummaryMessage(s.text)) && PoisonRows(rows, cfg, bad) <= redacted
    requires !(Able(rows, cfg) <= redacted)
    ensures TurnVerdict(rows, Some(s), cfg, bad)(redacted) == Filtered
    ensures var candidates := Candidates(rows, redacted, cfg);
            && candidates != []
            && RowSearch(rows, redacted, cfg, bad).0 == Redacted(candidates[|candidates| - 1])
            && candidates[|candidates| - 1] !in PoisonRows(rows, cfg, bad)
  {
    hide Thread, Roomy, PlaceholdersPass, SyntheticPass, DistinctRows, PoisonRows, Candidates, Able, OutOfReach;
    hide RowSearch, Gate;
    SummaryIsSent(rows, s, redacted, cfg, bad);
    RowIsLocalized(rows, redacted, cfg, bad);
    CandidatesAre(rows, redacted, cfg);
    PoisonIsCandidate(rows, redacted, cfg, bad);
    var candidates := Candidates(rows, redacted, cfg);
    assert PoisonRows(rows, cfg, bad) - redacted == {};
    if candidates == [] {
      forall id | id in Able(rows, cfg) ensures id in redacted {
        assert id !in SetOf(candidates);
      }
      assert false;
    }
    assert candidates[|candidates| - 1] in SetOf(candidates);
  }

  lemma SummaryIsSent(rows: seq<Message>, s: Summary, redacted: set<MessageId>, cfg: Limits, bad: Message -> bool)
    requires bad(SummaryMessage(s.text))
    ensures TurnVerdict(rows, Some(s), cfg, bad)(redacted) == Filtered
  {
    hide Redact, Loaded;
    var ms, m := LoadedAround(s.head, s.text, s.live, redacted, cfg), SummaryMessage(s.text);
    assert ms[|s.head|] == m;
    GateKeepsConversation(ms);
    ConversationStays(ms, m);
    ConversationStays(Gate(ms), m);
    assert m in TurnRequest(rows, Some(s), redacted, cfg);
  }

  /** Such a turn never heals: recovery goes on redacting until the retries are used up or nothing is left to redact. */
  lemma BadSummaryNeverHeals(rows: seq<Message>, s: Summary, redacted0: set<MessageId>, cfg: Limits,
                             bad: Message -> bool, retries: nat)
    requires Probeable(rows, cfg, bad) && DistinctRows(rows) && |rows| <= MAX_POOL_ROWS
    requires bad(SummaryMessage(s.text)) && !OutOfReach(rows, cfg, bad, redacted0)
    ensures var r := RowRecovery(rows, Some(s), redacted0, cfg, bad, retries);
            && TurnVerdict(rows, Some(s), cfg, bad)(r.redacted) == Filtered
            && r.rounds == Min(retries, |Able(rows, cfg) - redacted0|)
  {
    hide Probeable, DistinctRows, PoisonRows, Able, OutOfReach, RowRecovery, TurnVerdict;
    var r, able := RowRecovery(rows, Some(s), redacted0, cfg, bad, retries), Able(rows, cfg);
    RecoveryOfRows(rows, Some(s), redacted0, cfg, bad, retries);
    SummaryIsSent(rows, s, r.redacted, cfg, bad);
    LessOutOfReach(rows, cfg, bad, redacted0, r.redacted);
    Within(r.redacted - redacted0, able - redacted0);
    if r.gaveUp {
      assert r.redacted - redacted0 == able - redacted0;
    }
  }

  lemma LessOutOfReach(rows: seq<Message>, cfg: Limits, bad: Message -> bool, a: set<MessageId>, b: set<MessageId>)
    requires a <= b
    ensures OutOfReach(rows, cfg, bad, b) ==> OutOfReach(rows, cfg, bad, a)
  {
    hide BadRow, Redactable;
  }

  lemma {:induction false} Within(a: set<MessageId>, b: set<MessageId>)
    requires a <= b
    ensures |a| <= |b|
  {
    if a != {} {
      var x :| x in a;
      Within(a - {x}, b - {x});
    }
  }
}
