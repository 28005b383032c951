/** What a stream leaves in the accumulator, and what the fence stage lets through, told from the raw events. */
module StreamOutcome {
  import opened Prelude
  import opened Messages
  import opened Fence
  import opened StreamEvents

  // ---------- Everything but text passes through ----------

  predicate IsTextDelta(ev: Event) {
    ev.BlockDelta? && ev.delta.TextDelta?
  }

  function WithoutText(events: seq<Event>): seq<Event> {
    if events == [] then []
    else WithoutText(events[..|events| - 1]) + if IsTextDelta(events[|events| - 1]) then [] else [events[|events| - 1]]
  }

  /** All the stage puts out for a stream. */
  function StagedOut(events: seq<Event>): seq<Event> {
    if events == [] then []
    else
      var init, last := events[..|events| - 1], events[|events| - 1];
      StagedOut(init) + Staged(Processed(init).0, last).0
  }

  lemma {:induction false} WithoutTextAppend(a: seq<Event>, b: seq<Event>)
    ensures WithoutText(a + b) == WithoutText(a) + WithoutText(b)
    decreases |b|
  {
    if b == [] {
      assert a + b == a;
    } else {
      assert (a + b)[..|a + b| - 1] == a + b[..|b| - 1];
      WithoutTextAppend(a, b[..|b| - 1]);
    }
  }

  lemma WithoutTextEvents(i: nat, kind: TextKind, text: string, rest: seq<Event>)
    ensures WithoutText(TextEvents(i, kind, text) + rest) == WithoutText(rest)
  {
    WithoutTextAppend(TextEvents(i, kind, text), rest);
    assert [BlockDelta(i, TextDelta(kind, text))][..0] == [];
    assert [] + WithoutText(rest) == WithoutText(rest);
  }

  lemma OneWithoutText(ev: Event)
    ensures WithoutText([ev]) == (if IsTextDelta(ev) then [] else [ev]) && WithoutText([]) == []
  {
    assert [ev][..0] == [];
  }

  lemma StagedWithoutText(scrubbers: Scrubbers, ev: Event)
    ensures WithoutText(Staged(scrubbers, ev).0) == if IsTextDelta(ev) then [] else [ev]
  {
    hide Push, Flush, WithoutText, TextEvents;
    OneWithoutText(ev);
    match ev
    case BlockDelta(i, TextDelta(kind, text)) =>
      var out := if i in scrubbers then Push(scrubbers[i].0, text).out else text;
      WithoutTextEvents(i, kind, out, []);
      assert TextEvents(i, kind, out) + [] == TextEvents(i, kind, out);
    case BlockStop(i) =>
      if i in scrubbers {
        WithoutTextEvents(i, scrubbers[i].1, Flush(scrubbers[i].0), [ev]);
      }
    case _ =>
  }

  /** The stage touches text deltas only: all other events come out, unchanged and in order, and no other is added. */
  lemma {:induction false} OthersPassThrough(events: seq<Event>)
    ensures WithoutText(StagedOut(events)) == WithoutText(events)
  {
    hide Staged;
    if events != [] {
      var init, last := events[..|events| - 1], events[|events| - 1];
      OthersPassThrough(init);
      StagedWithoutText(Processed(init).0, last);
      WithoutTextAppend(StagedOut(init), Staged(Processed(init).0, last).0);
    }
  }

  // ---------- Fields of the accumulator ----------

  /** The last event for which `p` holds is at `j`. */
  ghost predicate LastAt(events: seq<Event>, p: Event -> bool, j: int) {
    0 <= j < |events| && p(events[j]) && forall k :: j < k < |events| ==> !p(events[k])
  }

  ghost predicate FirstAt(events: seq<Event>, p: Event -> bool, j: int) {
    0 <= j < |events| && p(events[j]) && forall k :: 0 <= k < j ==> !p(events[k])
  }

  ghost predicate Never(events: seq<Event>, p: Event -> bool) {
    forall k :: 0 <= k < |events| ==> !p(events[k])
  }

  function Starts(): Event -> bool {
    (ev: Event) => ev.MessageStart?
  }

  function GivesStop(): Event -> bool {
    (ev: Event) => ev.MessageDelta? && ev.stop.Some?
  }

  function GivesUsage(): Event -> bool {
    (ev: Event) => ev.MessageDelta? && ev.usage.Some?
  }

  function Fails(): Event -> bool {
    (ev: Event) => ev.StreamError?
  }

  // What the accumulator holds besides blocks.
  datatype Fields = Fields(
    messageId: Option<string>, model: Option<string>, stop: Option<StopReason>, usage: Option<Usage>,
    error: Option<string>)

  function FieldsOf(acc: Accumulated): Fields {
    Fields(acc.messageId, acc.model, acc.stop, acc.usage, acc.error)
  }

  predicate BlockEvent(ev: Event) {
    ev.BlockOpen? || ev.BlockDelta? || ev.BlockStop?
  }

  lemma {:induction false} BlocksLeaveFields(acc: Accumulated, events: seq<Event>)
    requires forall k :: 0 <= k < |events| ==> BlockEvent(events[k])
    ensures FieldsOf(IngestedAll(acc, events)) == FieldsOf(acc)
  {
    if events != [] {
      BlocksLeaveFields(acc, events[..|events| - 1]);
    }
  }

  lemma StepFields(scrubbers: Scrubbers, acc: Accumulated, ev: Event)
    ensures var fields, after := FieldsOf(acc), FieldsOf(IngestedAll(acc, Staged(scrubbers, ev).0));
            match ev
            case MessageStart(id, model) => after == fields.(messageId := Some(id), model := model)
            case MessageDelta(stop, usage) =>
              after == fields.(stop := if stop.Some? then stop else fields.stop,
                               usage := if usage.Some? then usage else fields.usage)
            case StreamError(message) =>
              after == if fields.error.None? then fields.(error := Some(message)) else fields
            case _ => after == fields
  {
    hide Push, Flush, IngestedAll;
    IngestOne(acc, ev);
    if BlockEvent(ev) {
      BlocksLeaveFields(acc, Staged(scrubbers, ev).0);
    }
  }

  /** Where a field comes from: the event at `j` decides, or nothing has. */
  ghost predicate FieldsAre(events: seq<Event>, f: Fields) {
    && (Never(events, Starts()) ==> f.messageId == None && f.model == None)
    && (forall j :: LastAt(events, Starts(), j) ==>
          f.messageId == Some(events[j].messageId) && f.model == events[j].model)
    && (Never(events, GivesStop()) ==> f.stop == None)
    && (forall j :: LastAt(events, GivesStop(), j) ==> f.stop == events[j].stop)
    && (Never(events, GivesUsage()) ==> f.usage == None)
    && (forall j :: LastAt(events, GivesUsage(), j) ==> f.usage == events[j].usage)
    && (Never(events, Fails()) ==> f.error == None)
    && (forall j :: FirstAt(events, Fails(), j) ==> f.error == Some(events[j].message))
  }

  lemma LastStep(init: seq<Event>, ev: Event, p: Event -> bool)
    ensures Never(init + [ev], p) <==> Never(init, p) && !p(ev)
    ensures forall j :: LastAt(init + [ev], p, j) <==> if p(ev) then j == |init| else LastAt(init, p, j)
    ensures forall j :: FirstAt(init + [ev], p, j) <==>
              FirstAt(init, p, j) || (j == |init| && p(ev) && Never(init, p))
  {
    var all := init + [ev];
    assert forall k :: 0 <= k < |init| ==> all[k] == init[k];
    assert all[|init|] == ev;
    assert Never(all, p) ==> !p(all[|init|]);
  }

  lemma {:induction false} SomeFirst(events: seq<Event>, p: Event -> bool)
    ensures Never(events, p) || exists j :: FirstAt(events, p, j)
  {
    if events != [] {
      var init, ev := events[..|events| - 1], events[|events| - 1];
      assert events == init + [ev];
      SomeFirst(init, p);
      LastStep(init, ev, p);
      if !Never(events, p) {
        if j :| FirstAt(init, p, j) {
          assert FirstAt(events, p, j);
        } else {
          assert FirstAt(events, p, |init|);
        }
      }
    }
  }

  /**
   * Whatever the stream: id and model are those of the last start, stop reason and usage the last ones given, and the
   * error is the first one reported.
   */
  lemma {:induction false} AccumulatedFields(events: seq<Event>)
    ensures FieldsAre(events, FieldsOf(Processed(events).1))
  {
    hide Staged, IngestedAll;
    if events != [] {
      var init, ev := events[..|events| - 1], events[|events| - 1];
      AccumulatedFields(init);
      var (scrubbers, acc) := Processed(init);
      StepFields(scrubbers, acc, ev);
      FieldsGrow(init, ev, FieldsOf(acc), FieldsOf(Processed(events).1));
      assert events == init + [ev];
    }
  }

  lemma FieldsGrow(init: seq<Event>, ev: Event, f: Fields, after: Fields)
    requires FieldsAre(init, f)
    requires match ev
             case MessageStart(id, model) => after == f.(messageId := Some(id), model := model)
             case MessageDelta(stop, usage) =>
               after == f.(stop := if stop.Some? then stop else f.stop, usage := if usage.Some? then usage else f.usage)
             case StreamError(message) => after == if f.error.None? then f.(error := Some(message)) else f
             case _ => after == f
    ensures FieldsAre(init + [ev], after)
  {
    hide LastAt, FirstAt, Never;
    var all := init + [ev];
    assert all[|init|] == ev;
    LastStep(init, ev, Starts());
    LastStep(init, ev, GivesStop());
    LastStep(init, ev, GivesUsage());
    LastStep(init, ev, Fails());
    SomeFirst(init, Fails());
    forall j
      ensures (LastAt(init, Starts(), j) || LastAt(init, GivesStop(), j) || LastAt(init, GivesUsage(), j)
               || FirstAt(init, Fails(), j)) ==> 0 <= j < |init| && all[j] == init[j]
    {
      Bounds(init, j);
    }
  }

  lemma Bounds(events: seq<Event>, j: int)
    ensures forall p :: LastAt(events, p, j) || FirstAt(events, p, j) ==> 0 <= j < |events|
  {
  }

  // ---------- The reply ----------

  predicate OnlyBlanks(s: string) {
    forall i :: 0 <= i < |s| ==> s[i] == ' ' || s[i] == '\t' || s[i] == '\r' || s[i] == '\n'
  }

  /** The content block a raw block ends up as. */
  function BlockOf(r: Raw): Block {
    match r.start
    case TextStart(Spoken) => Text(Scrub(r.text) + r.late)
    case TextStart(Thought) => Thinking(Scrub(r.text) + r.late, None)
    case ToolStart(id, name) => ToolUse(id, name, if OnlyBlanks(r.text + r.late) then "{}" else r.text + r.late)
  }

  /** The blocks with indices below `n`, in index order. */
  function ContentOf(raw: map<nat, Raw>, n: nat): seq<Block> {
    if n == 0 then [] else ContentOf(raw, n - 1) + if n - 1 in raw then [BlockOf(raw[n - 1])] else []
  }

  predicate CallsSomething(raw: map<nat, Raw>, n: nat) {
    exists i: nat :: i < n && i in raw && raw[i].start.ToolStart?
  }

  lemma {:induction false} ContentIs(blocks: Blocks, raw: map<nat, Raw>, n: nat)
    requires blocks.Keys == raw.Keys
    requires forall i :: i in raw ==>
      match raw[i].start
      case ToolStart(id, name) => blocks[i] == PartialTool(id, name, raw[i].text + raw[i].late)
      case TextStart(kind) => blocks[i] == PartialText(kind, Scrub(raw[i].text) + raw[i].late)
    ensures FinishedBelow(blocks, n) == ContentOf(raw, n)
    ensures (exists k :: 0 <= k < |ContentOf(raw, n)| && ContentOf(raw, n)[k].ToolUse?) <==> CallsSomething(raw, n)
  {
    hide Scrub;
    if n > 0 {
      ContentIs(blocks, raw, n - 1);
      assert n - 1 in blocks <==> n - 1 in raw;
      var init, content := ContentOf(raw, n - 1), ContentOf(raw, n);
      assert forall k :: 0 <= k < |init| ==> content[k] == init[k];
      if n - 1 in raw {
        assert content[|init|] == BlockOf(raw[n - 1]);
      }
    }
  }

  /**
   * From raw events to the reply, for every well-formed stream whose blocks are all stopped: an error reported anywhere
   * leaves none; otherwise it holds each block in index order, text and thinking scrubbed, with the last id, stop reason
   * and usage given.  Without a stop reason it stops for tools exactly if it calls any.
   */
  lemma ReplyIs(events: seq<Event>, n: nat)
    requires WellFormed(events) && forall i :: i in RawBlocks(events) ==> RawBlocks(events)[i].stopped
    ensures var raw, r := RawBlocks(events), Finalized(Processed(events).1, n);
            && (r.None? <==> !Never(events, Fails()))
            && (r.Some? ==>
                  && r.value.content == ContentOf(raw, n)
                  && (forall j :: LastAt(events, Starts(), j) ==> r.value.id == events[j].messageId)
                  && (forall j :: LastAt(events, GivesStop(), j) ==> Some(r.value.stop) == events[j].stop)
                  && (Never(events, GivesStop()) ==>
                        r.value.stop == if CallsSomething(raw, n) then CallsTools else EndTurn)
                  && (forall j :: LastAt(events, GivesUsage(), j) ==> Some(r.value.usage) == events[j].usage)
                  && (Never(events, GivesUsage()) ==> r.value.usage == Usage(0, 0)))
  {
    hide Processed, RawBlocks, WellFormed, LastAt, FirstAt, Never, FinishedBelow, ContentOf, CallsSomething;
    AccumulatedFields(events);
    InterleavingIsHarmless(events);
    ContentIs(Processed(events).1.blocks, RawBlocks(events), n);
    SomeFirst(events, Fails());
    LastGives(events);
  }

  lemma LastGives(events: seq<Event>)
    ensures forall j :: LastAt(events, GivesStop(), j) ==>
              0 <= j < |events| && events[j].MessageDelta? && events[j].stop.Some?
    ensures forall j :: LastAt(events, GivesUsage(), j) ==>
              0 <= j < |events| && events[j].MessageDelta? && events[j].usage.Some?
  {
  }
}
