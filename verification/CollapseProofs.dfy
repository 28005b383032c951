/** What collapsing old results touches, and that it keeps the history within the byte cap. */
module CollapseProofs {
  import opened Messages
  import opened Pairing
  import opened PairingProofs
  import opened Truncation
  import opened History
  import opened HistoryProofs

  // ---------- Which results are collapsed ----------

  predicate UseAt(content: seq<Block>, j: int, id: string, name: string) {
    0 <= j < |content| && content[j].ToolUse? && content[j].id == id && content[j].name == name
  }

  ghost predicate UsesAs(content: seq<Block>, id: string, name: string) {
    exists j :: UseAt(content, j, id, name)
  }

  /** Some message calls the tool `name` under `id`. */
  ghost predicate CalledAs(ms: seq<Message>, id: string, name: string) {
    exists i :: 0 <= i < |ms| && UsesAs(ms[i].content, id, name)
  }

  lemma {:induction false} NamesInContentAre(content: seq<Block>, names: map<string, string>, id: string)
    ensures var r := NamesInContent(content, names);
            && (id in names ==> id in r)
            && (forall name :: UsesAs(content, id, name) ==> id in r)
            && (id in r ==> UsesAs(content, id, r[id]) || (id in names && r[id] == names[id]))
  {
    if content != [] {
      var b, rest := content[0], content[1..];
      var names' := if b.ToolUse? then names[b.id := b.name] else names;
      NamesInContentAre(rest, names', id);
      var r := NamesInContent(content, names);
      assert r == NamesInContent(rest, names');
      forall name ensures UsesAs(content, id, name) <==> UseAt(content, 0, id, name) || UsesAs(rest, id, name) {
        UsesStep(content, id, name);
      }
    }
  }

  lemma UsesStep(content: seq<Block>, id: string, name: string)
    requires content != []
    ensures UsesAs(content, id, name) <==> UseAt(content, 0, id, name) || UsesAs(content[1..], id, name)
  {
    assert forall j :: UseAt(content[1..], j, id, name) ==> UseAt(content, j + 1, id, name);
    assert forall j :: UseAt(content, j, id, name) && j > 0 ==> UseAt(content[1..], j - 1, id, name);
  }

  lemma {:induction false} NamesAre(ms: seq<Message>, names: map<string, string>, id: string)
    ensures var r := NamesIn(ms, names);
            && (id in names ==> id in r)
            && (forall name :: CalledAs(ms, id, name) ==> id in r)
            && (id in r ==> CalledAs(ms, id, r[id]) || (id in names && r[id] == names[id]))
  {
    hide NamesInContent, UsesAs;
    if ms != [] {
      var names' := NamesInContent(ms[0].content, names);
      NamesInContentAre(ms[0].content, names, id);
      NamesAre(ms[1..], names', id);
      forall name ensures CalledAs(ms, id, name) <==> UsesAs(ms[0].content, id, name) || CalledAs(ms[1..], id, name) {
        assert forall i :: 0 < i < |ms| ==> ms[i] == ms[1..][i - 1];
      }
    }
  }

  /** A block that is not an old, successful, big result stays as it is, and so does a result nobody called for. */
  lemma CollapseSpares(ms: seq<Message>, keepRecent: nat, threshold: nat, i: nat, j: nat)
    requires i < |ms| && j < |ms[i].content|
    ensures var out, b := CollapseOldToolResults(ms, keepRecent, threshold)[i], ms[i].content[j];
            && |out.content| == |ms[i].content|
            && (!b.ToolResult? || b.isError || i >= |ms| - keepRecent || TextLength(b.content) < threshold
                || (forall name :: name in COLLAPSIBLE_TOOLS ==> !CalledAs(ms, b.toolUseId, name))
                ==> out.content[j] == b)
  {
    hide NamesIn, CalledAs, Collapsed;
    var b := ms[i].content[j];
    if b.ToolResult? {
      NamesAre(ms, map[], b.toolUseId);
    }
  }

  /** When an id is called under one name only, that name, the age, the size and the error flag decide. */
  lemma CollapseIsExact(ms: seq<Message>, keepRecent: nat, threshold: nat, i: nat, j: nat, name: string)
    requires i < |ms| && j < |ms[i].content| && ms[i].content[j].ToolResult?
    requires CalledAs(ms, ms[i].content[j].toolUseId, name)
    requires forall other :: CalledAs(ms, ms[i].content[j].toolUseId, other) ==> other == name
    ensures var b := ms[i].content[j]; var size := TextLength(b.content);
            CollapseOldToolResults(ms, keepRecent, threshold)[i].content[j] ==
              if |ms| > keepRecent + 1 && i < |ms| - keepRecent && !b.isError && name in COLLAPSIBLE_TOOLS
                 && 0 < threshold <= size
              then ToolResult(b.toolUseId, [Text(Collapsed(name, size))], false)
              else b
  {
    hide NamesIn, CalledAs, Collapsed;
    NamesAre(ms, map[], ms[i].content[j].toolUseId);
  }

  predicate Elided(b: Block) {
    b.ToolResult? && (b.content == [Text(CLEARED_MARKER)] || b.content == [Text(REDACTED_PLACEHOLDER)])
  }

  /** The elision markers never fight: collapsing leaves what the cap has cleared, or redaction has hidden, alone. */
  lemma CollapseLeavesMarkers(ms: seq<Message>, keepRecent: nat, threshold: nat, i: nat, j: nat)
    requires i < |ms| && j < |ms[i].content| && Elided(ms[i].content[j])
    requires threshold > |CLEARED_MARKER| && threshold > |REDACTED_PLACEHOLDER|
    ensures var out := CollapseOldToolResults(ms, keepRecent, threshold)[i];
            |out.content| == |ms[i].content| && out.content[j] == ms[i].content[j]
  {
    hide CollapseOldToolResults, CalledAs;
    SingleText(CLEARED_MARKER);
    SingleText(REDACTED_PLACEHOLDER);
    CollapseSpares(ms, keepRecent, threshold, i, j);
  }

  // ---------- Size ----------

  lemma {:induction false} DecimalIsShort(n: nat)
    ensures |Decimal(n)| <= 2 + n / 100
  {
    if n >= 10 {
      DecimalIsShort(n / 10);
    }
  }

  /** The marker is no longer than the body it stands for, once that has ninety bytes. */
  lemma MarkerFits(tool: string, bytes: nat)
    requires tool in COLLAPSIBLE_TOOLS && bytes >= 90
    ensures |Collapsed(tool, bytes)| <= bytes
  {
    hide Decimal;
    DecimalIsShort(bytes);
    assert |tool| <= 10;
  }

  lemma BlockNeverGrows(b: Block, names: map<string, string>, threshold: nat)
    requires threshold >= 90
    ensures BlockSize(CollapsedBlock(b, names, threshold)) <= BlockSize(b)
  {
    hide Collapsed;
    if b.ToolResult? && b.toolUseId in names && names[b.toolUseId] in COLLAPSIBLE_TOOLS
       && TextLength(b.content) >= threshold {
      MarkerFits(names[b.toolUseId], TextLength(b.content));
      var marker := Text(Collapsed(names[b.toolUseId], TextLength(b.content)));
      assert [marker][1..] == [];
      assert TextLength([marker]) == |marker.text|;
    }
  }

  lemma {:induction false} ContentSizeMonotone(a: seq<Block>, b: seq<Block>)
    requires |a| == |b| && forall i :: 0 <= i < |a| ==> BlockSize(a[i]) <= BlockSize(b[i])
    ensures ContentSize(a) <= ContentSize(b)
  {
    hide BlockSize;
    if a != [] {
      ContentSizeMonotone(a[1..], b[1..]);
    }
  }

  lemma {:induction false} HistorySizeMonotone(a: seq<Message>, b: seq<Message>)
    requires |a| == |b| && forall i :: 0 <= i < |a| ==> ContentSize(a[i].content) <= ContentSize(b[i].content)
    ensures HistorySize(a) <= HistorySize(b)
  {
    hide ContentSize;
    if a != [] {
      HistorySizeMonotone(a[1..], b[1..]);
    }
  }

  /** Collapsing from ninety bytes on never makes a history bigger. */
  lemma CollapseNeverGrows(ms: seq<Message>, keepRecent: nat, threshold: nat)
    requires threshold == 0 || threshold >= 90
    ensures HistorySize(CollapseOldToolResults(ms, keepRecent, threshold)) <= HistorySize(ms)
  {
    hide NamesIn, HistorySize, ContentSize, CollapsedBlock;
    var out := CollapseOldToolResults(ms, keepRecent, threshold);
    var names := NamesIn(ms, map[]);
    forall i | 0 <= i < |ms| ensures ContentSize(out[i].content) <= ContentSize(ms[i].content) {
      if threshold > 0 {
        forall j | 0 <= j < |ms[i].content|
          ensures BlockSize(CollapsedBlock(ms[i].content[j], names, threshold)) <= BlockSize(ms[i].content[j])
        {
          BlockNeverGrows(ms[i].content[j], names, threshold);
        }
        ContentSizeMonotone(CollapsedMessage(ms[i], names, threshold).content, ms[i].content);
      }
    }
    HistorySizeMonotone(out, ms);
  }

  /** A call of `tool` and its result. */
  function OneResult(tool: string, body: string): seq<Message> {
    [Message(Stored(0), Assistant, [ToolUse("a", tool, "{}")]),
     Message(Stored(1), Tool, [ToolResult("a", [Text(body)], false)])]
  }

  lemma CollapsedResult(tool: string, body: string, threshold: nat)
    requires tool in COLLAPSIBLE_TOOLS && 0 < threshold <= |body|
    ensures CollapseOldToolResults(OneResult(tool, body), 0, threshold) == OneResult(tool, Collapsed(tool, |body|))
  {
    hide NamesIn, Collapsed, HistorySize, CollapseOldToolResults;
    var ms := OneResult(tool, body);
    var out := CollapseOldToolResults(ms, 0, threshold);
    SingleText(body);
    assert UseAt(ms[0].content, 0, "a", tool);
    assert CalledAs(ms, "a", tool);
    assert forall other :: CalledAs(ms, "a", other) ==> other == tool;
    CollapseIsExact(ms, 0, threshold, 1, 0, tool);
    CollapseSpares(ms, 0, threshold, 0, 0);
    CollapseSpares(ms, 0, threshold, 1, 0);
    CollapseKeepsShape(ms, 0, threshold);
    assert Shape(out[0]) == Shapes(out)[0] == Shape(ms[0]) && Shape(out[1]) == Shapes(out)[1] == Shape(ms[1]);
    assert out[0].content == ms[0].content && out[1].content == OneResult(tool, Collapsed(tool, |body|))[1].content;
  }

  lemma OneResultSize(tool: string, body: string)
    ensures HistorySize(OneResult(tool, body)) == |tool| + 2 + |body|
  {
    var ms := OneResult(tool, body);
    TwoMessages(ms[0], ms[1]);
    SingleText(body);
  }

  /** From a smaller size on it can: a `MemoryRead` body of 89 bytes gives way to a marker of 90. */
  lemma CollapseCanGrow(body: string, threshold: nat)
    requires 0 < threshold <= |body| == 89
    ensures var ms := OneResult("MemoryRead", body);
            HistorySize(CollapseOldToolResults(ms, 0, threshold)) == HistorySize(ms) + 1
  {
    hide Decimal;
    CollapsedResult("MemoryRead", body, threshold);
    OneResultSize("MemoryRead", body);
    OneResultSize("MemoryRead", Collapsed("MemoryRead", 89));
    TwoDigits();
  }

  lemma TwoDigits()
    ensures |Decimal(89)| == 2
  {
    assert |Decimal(8)| == 1;
  }

  ghost predicate NeverGrows(threshold: nat) {
    forall ms, keepRecent :: HistorySize(CollapseOldToolResults(ms, keepRecent, threshold)) <= HistorySize(ms)
  }

  /** A threshold is safe if and only if it is off or at least ninety. */
  lemma SafeThresholds(threshold: nat)
    ensures NeverGrows(threshold) <==> threshold == 0 || threshold >= 90
  {
    hide HistorySize, CollapseOldToolResults;
    if threshold == 0 || threshold >= 90 {
      forall ms, keepRecent
        ensures HistorySize(CollapseOldToolResults(ms, keepRecent, threshold)) <= HistorySize(ms)
      {
        CollapseNeverGrows(ms, keepRecent, threshold);
      }
    } else {
      var body := seq(89, _ => 'x');
      CollapseCanGrow(body, threshold);
      var ms := OneResult("MemoryRead", body);
      assert !(HistorySize(CollapseOldToolResults(ms, 0, threshold)) <= HistorySize(ms));
    }
  }

  lemma SingleText(text: string)
    ensures TextLength([Text(text)]) == |text|
  {
    assert [Text(text)][1..] == [];
  }

  lemma SingleBlock(content: seq<Block>)
    requires |content| == 1
    ensures ContentSize(content) == BlockSize(content[0])
  {
    hide BlockSize;
    assert content[1..] == [];
    assert ContentSize(content[1..]) == 0;
  }

  lemma TwoMessages(a: Message, b: Message)
    requires |a.content| == 1 && |b.content| == 1
    ensures HistorySize([a, b]) == BlockSize(a.content[0]) + BlockSize(b.content[0])
  {
    hide BlockSize, ContentSize;
    SingleBlock(a.content);
    SingleBlock(b.content);
    assert [a, b][1..] == [b] && [b][1..] == [];
    assert HistorySize([b]) == ContentSize(b.content) + HistorySize([b][1..]);
    assert HistorySize([a, b]) == ContentSize(a.content) + HistorySize([a, b][1..]);
  }

  // ---------- The request as a whole ----------

  /** With the default settings, or any with a collapse size of ninety or more, what is loaded fits the cap. */
  lemma LoadedFits(rows: seq<Message>, redacted: set<MessageId>, cfg: Limits)
    requires cfg.maxBytes > 0 && (cfg.collapseFrom == 0 || cfg.collapseFrom >= 90)
    ensures var loaded := Loaded(rows, redacted, cfg); HistorySize(loaded) <= cfg.maxBytes || |loaded| <= 1
  {
    hide Redact, WindowCut, ByteCapped, CollapseOldToolResults, HistorySize;
    var msgs := Redact(rows, redacted);
    var windowed := msgs[WindowCut(msgs, cfg.conversation)..];
    CapFits(windowed, cfg.maxBytes, cfg.keepRecent, cfg.perResult);
    var bounded := ByteCapped(windowed, cfg.maxBytes, cfg.keepRecent, cfg.perResult);
    CollapseNeverGrows(bounded, cfg.keepRecent, cfg.collapseFrom);
  }

  /** And when the stored rows pair up the gate adds nothing, so the request itself fits. */
  lemma RequestFits(rows: seq<Message>, redacted: set<MessageId>, cfg: Limits)
    requires WireValid(rows) && AnsweredOnce(rows)
    requires cfg.maxBytes > 0 && (cfg.collapseFrom == 0 || cfg.collapseFrom >= 90)
    ensures var request := Gate(Loaded(rows, redacted, cfg)); HistorySize(request) <= cfg.maxBytes || |request| <= 1
  {
    hide Loaded, Gate, WireValid, AnsweredOnce, CutValid, Shape, HistorySize;
    var loaded := Loaded(rows, redacted, cfg);
    LoadedFits(rows, redacted, cfg);
    var cut := LoadedIsTail(rows, redacted, cfg);
    ValidIsCutValid(rows);
    CutStaysValid(rows, cut);
    CutValidShape(rows[cut..], loaded);
    GateOnCut(loaded);
    if loaded != [] && IsTool(loaded[0]) {
      SuffixIsSmaller(loaded, 1);
    }
  }
}
