/** Streamed replies: the fence stage in front of the accumulator, and the accumulator itself. */
module StreamEvents {
  import opened Prelude
  import opened Messages
  import opened Fence
  import opened FenceTail

  datatype TextKind = Spoken | Thought

  datatype BlockStart = TextStart(kind: TextKind) | ToolStart(id: string, name: string)

  datatype Delta = TextDelta(kind: TextKind, text: string) | ToolDelta(json: string)

  datatype Usage = Usage(input: nat, output: nat)

  datatype Event =
    | MessageStart(messageId: string, model: Option<string>)
    | BlockOpen(index: nat, start: BlockStart)
    | BlockDelta(index: nat, delta: Delta)
    | BlockStop(index: nat)
    | MessageDelta(stop: Option<StopReason>, usage: Option<Usage>)
    | MessageStop
    | StreamError(message: string)

  // ---------- The fence stage ----------

  // One scrubber per open text block, by block index.
  type Scrubbers = map<nat, (ScrubState, TextKind)>

  function TextEvents(index: nat, kind: TextKind, text: string): seq<Event> {
    if text == "" then [] else [BlockDelta(index, TextDelta(kind, text))]
  }

  /** The events one event becomes, and the scrubbers after it. */
  function Staged(scrubbers: Scrubbers, ev: Event): (seq<Event>, Scrubbers) {
    match ev
    case BlockOpen(i, TextStart(kind)) => ([ev], scrubbers[i := (FRESH, kind)])
    case BlockDelta(i, TextDelta(kind, text)) =>
      if i !in scrubbers then (TextEvents(i, kind, text), scrubbers)
      else
        var p := Push(scrubbers[i].0, text);
        (TextEvents(i, kind, p.out), scrubbers[i := (p.next, scrubbers[i].1)])
    case BlockStop(i) =>
      if i !in scrubbers then ([ev], scrubbers)
      else (TextEvents(i, scrubbers[i].1, Flush(scrubbers[i].0)) + [ev], scrubbers - {i})
    case _ => ([ev], scrubbers)
  }

  class FenceStage {
    var scrubbers: Scrubbers

    constructor ()
      ensures scrubbers == map[]
    {
      scrubbers := map[];
    }

    method ScrubStreamEvent(ev: Event) returns (events: seq<Event>)
      modifies this
      ensures (events, scrubbers) == Staged(old(scrubbers), ev)
    {
      hide Push;
      match ev
      case BlockOpen(i, TextStart(kind)) =>
        scrubbers := scrubbers[i := (FRESH, kind)];
        return [ev];
      case BlockDelta(i, TextDelta(kind, text)) =>
        var cleaned := text;
        if i in scrubbers {
          var p := Push(scrubbers[i].0, text);
          scrubbers := scrubbers[i := (p.next, scrubbers[i].1)];
          cleaned := p.out;
        }
        if cleaned == "" {
          return [];
        }
        return [BlockDelta(i, TextDelta(kind, cleaned))];
      case BlockStop(i) =>
        events := [];
        assert events + [ev] == [ev];
        if i in scrubbers {
          var (state, kind) := scrubbers[i];
          scrubbers := scrubbers - {i};
          var tail := Flush(state);
          if tail != "" {
            events := events + [BlockDelta(i, TextDelta(kind, tail))];
          }
          assert events == TextEvents(i, kind, tail);
        }
        events := events + [BlockStop(i)];
      case _ =>
        return [ev];
    }
  }

  // ---------- The accumulator ----------

  datatype Partial = PartialText(kind: TextKind, text: string) | PartialTool(id: string, name: string, args: string)

  type Blocks = map<nat, Partial>

  function Opened(start: BlockStart): Partial {
    match start
    case TextStart(kind) => PartialText(kind, "")
    case ToolStart(id, name) => PartialTool(id, name, "")
  }

  /** A delta of another kind than its block is ignored. */
  function Grown(p: Partial, d: Delta): Partial {
    if p.PartialText? && d.TextDelta? && p.kind == d.kind then p.(text := p.text + d.text)
    else if p.PartialTool? && d.ToolDelta? then p.(args := p.args + d.json)
    else p
  }

  datatype Accumulated = Accumulated(
    messageId: Option<string>,
    model: Option<string>,
    blocks: Blocks,
    stop: Option<StopReason>,
    usage: Option<Usage>,
    error: Option<string>)

  const NOTHING := Accumulated(None, None, map[], None, None, None)

  function Ingested(acc: Accumulated, ev: Event): Accumulated {
    match ev
    case MessageStart(id, model) => acc.(messageId := Some(id), model := model)
    case BlockOpen(i, start) => acc.(blocks := acc.blocks[i := Opened(start)])
    case BlockDelta(i, delta) =>
      if i in acc.blocks then acc.(blocks := acc.blocks[i := Grown(acc.blocks[i], delta)]) else acc
    case MessageDelta(stop, usage) =>
      acc.(stop := if stop.Some? then stop else acc.stop, usage := if usage.Some? then usage else acc.usage)
    case StreamError(message) => if acc.error.None? then acc.(error := Some(message)) else acc
    case _ => acc
  }

  function IngestedAll(acc: Accumulated, events: seq<Event>): Accumulated {
    if events == [] then acc
    else Ingested(IngestedAll(acc, events[..|events| - 1]), events[|events| - 1])
  }

  class StreamAccumulator {
    var messageId: Option<string>
    var model: Option<string>
    var blocks: Blocks
    var stop: Option<StopReason>
    var usage: Option<Usage>
    var error: Option<string>

    function State(): Accumulated
      reads this
    {
      Accumulated(messageId, model, blocks, stop, usage, error)
    }

    constructor ()
      ensures State() == NOTHING
    {
      messageId, model, blocks, stop, usage, error := None, None, map[], None, None, None;
    }

    method Ingest(ev: Event)
      modifies this
      ensures State() == Ingested(old(State()), ev)
    {
      match ev
      case MessageStart(id, wireModel) =>
        messageId, model := Some(id), wireModel;
      case BlockOpen(i, start) => blocks := blocks[i := Opened(start)];
      case BlockDelta(i, delta) =>
        if i in blocks {
          blocks := blocks[i := Grown(blocks[i], delta)];
        }
      case MessageDelta(reason, spent) =>
        if reason.Some? {
          stop := reason;
        }
        if spent.Some? {
          usage := spent;
        }
      case StreamError(message) =>
        if error.None? {
          error := Some(message);
        }
      case _ =>
    }
  }

  // ---------- Stage and accumulator together ----------

  /** Scrubbers and accumulator after a whole stream. */
  function Processed(events: seq<Event>): (Scrubbers, Accumulated) {
    if events == [] then (map[], NOTHING)
    else
      var (scrubbers, acc) := Processed(events[..|events| - 1]);
      var (staged, scrubbers') := Staged(scrubbers, events[|events| - 1]);
      (scrubbers', IngestedAll(acc, staged))
  }

  method ProcessStream(events: seq<Event>) returns (acc: StreamAccumulator)
    ensures acc.State() == Processed(events).1
  {
    hide Staged, Ingested;
    var stage := new FenceStage();
    acc := new StreamAccumulator();
    for n := 0 to |events|
      invariant fresh(stage) && fresh(acc)
      invariant (stage.scrubbers, acc.State()) == Processed(events[..n])
    {
      assert events[..n + 1][..n] == events[..n];
      ghost var before := acc.State();
      var staged := stage.ScrubStreamEvent(events[n]);
      for k := 0 to |staged|
        invariant fresh(stage) && fresh(acc)
        invariant stage.scrubbers == Processed(events[..n + 1]).0
        invariant acc.State() == IngestedAll(before, staged[..k])
      {
        assert staged[..k + 1][..k] == staged[..k];
        acc.Ingest(staged[k]);
      }
      assert staged[..|staged|] == staged;
    }
    assert events[..|events|] == events;
  }

  // ---------- What each block should come to ----------

  // A block as the provider sent it: its raw deltas joined, those before its first stop and those after.
  datatype Raw = Raw(start: BlockStart, text: string, stopped: bool, late: string)

  function DeltaText(delta: Delta): string {
    match delta
    case TextDelta(_, text) => text
    case ToolDelta(json) => json
  }

  function RawBlocks(events: seq<Event>): map<nat, Raw> {
    if events == [] then map[]
    else
      var raw := RawBlocks(events[..|events| - 1]);
      match events[|events| - 1]
      case BlockOpen(i, start) => raw[i := Raw(start, "", false, "")]
      case BlockDelta(i, delta) =>
        if i !in raw then raw
        else if raw[i].stopped then raw[i := raw[i].(late := raw[i].late + DeltaText(delta))]
        else raw[i := raw[i].(text := raw[i].text + DeltaText(delta))]
      case BlockStop(i) => if i in raw then raw[i := raw[i].(stopped := true)] else raw
      case _ => raw
  }

  predicate FitsBlock(start: BlockStart, delta: Delta) {
    match start
    case TextStart(kind) => delta.TextDelta? && delta.kind == kind
    case ToolStart(_, _) => delta.ToolDelta?
  }

  /**
   * Each index is opened once, and the deltas of an open block are of its kind.  Deltas may come after the stop or
   * for no block, and stops may repeat.
   */
  predicate WellFormed(events: seq<Event>) {
    events == [] ||
    var raw := RawBlocks(events[..|events| - 1]);
    && WellFormed(events[..|events| - 1])
    && match events[|events| - 1]
       case BlockOpen(i, _) => i !in raw
       case BlockDelta(i, delta) => i in raw ==> FitsBlock(raw[i].start, delta)
       case _ => true
  }

  /**
   * The deltas before the stop are scrubbed, later ones and tool arguments left alone; an open block lacks what its
   * scrubber still holds.
   */
  function Cleaned(r: Raw): Partial {
    match r.start
    case ToolStart(id, name) => PartialTool(id, name, r.text + r.late)
    case TextStart(kind) => PartialText(kind, if r.stopped then Scrub(r.text) + r.late else Push(FRESH, r.text).out)
  }

  predicate HasScrubber(r: Raw) {
    r.start.TextStart? && !r.stopped
  }

  /** The block and the scrubber at one index are what the raw block calls for. */
  predicate InStep(raw: map<nat, Raw>, scrubbers: Scrubbers, blocks: Blocks, i: nat) {
    && (i in blocks <==> i in raw)
    && (i in raw ==> blocks[i] == Cleaned(raw[i]) && (!raw[i].stopped ==> raw[i].late == ""))
    && (i in scrubbers <==> i in raw && HasScrubber(raw[i]))
    && (i in scrubbers ==> scrubbers[i] == (Push(FRESH, raw[i].text).next, raw[i].start.kind))
  }

  lemma PushMore(text: string, more: string)
    ensures var p := Push(FRESH, text);
            Push(FRESH, text + more) == Emit(p.out, Push(p.next, more))
  {
    hide Drive;
    assert "" + text + more == "" + (text + more);
    DriveAppend(ScrubState("" + text, None), more);
  }

  lemma PushNone()
    ensures Push(FRESH, "") == Pushed("", FRESH)
  {
    hide Drive;
    assert "" + "" == "";
    SettledIsQuiet(FRESH);
  }

  lemma IngestOne(acc: Accumulated, ev: Event)
    ensures IngestedAll(acc, [ev]) == Ingested(acc, ev)
    ensures IngestedAll(acc, []) == acc
  {
    assert [ev][..0] == [];
  }

  lemma IngestText(acc: Accumulated, i: nat, kind: TextKind, text: string, tail: seq<Event>)
    requires i in acc.blocks && acc.blocks[i].PartialText? && acc.blocks[i].kind == kind
    requires tail == [] || tail == [BlockStop(i)]
    ensures IngestedAll(acc, TextEvents(i, kind, text) + tail)
         == acc.(blocks := acc.blocks[i := PartialText(kind, acc.blocks[i].text + text)])
  {
    var events := TextEvents(i, kind, text);
    var b := acc.blocks[i];
    IngestOne(acc, BlockDelta(i, TextDelta(kind, text)));
    assert b.text + "" == b.text;
    assert acc.blocks[i := b] == acc.blocks;
    assert IngestedAll(acc, events) == acc.(blocks := acc.blocks[i := PartialText(kind, b.text + text)]);
    assert events + [] == events;
    assert (events + [BlockStop(i)])[..|events|] == events;
  }

  /** A delta for an open text block goes through its scrubber. */
  lemma EarlyDelta(raw: map<nat, Raw>, scrubbers: Scrubbers, acc: Accumulated, i: nat, kind: TextKind, text: string)
    requires i in raw && raw[i].start == TextStart(kind) && !raw[i].stopped
    requires InStep(raw, scrubbers, acc.blocks, i)
    ensures var ev := BlockDelta(i, TextDelta(kind, text));
            var (staged, scrubbers') := Staged(scrubbers, ev);
            var r := raw[i].(text := raw[i].text + text);
            && IngestedAll(acc, staged) == acc.(blocks := acc.blocks[i := Cleaned(r)])
            && scrubbers' == scrubbers[i := (Push(FRESH, r.text).next, kind)]
  {
    hide Push, IngestedAll;
    PushMore(raw[i].text, text);
    var p := Push(scrubbers[i].0, text);
    assert TextEvents(i, kind, p.out) + [] == TextEvents(i, kind, p.out);
    IngestText(acc, i, kind, p.out, []);
  }

  /** One for a stopped block, or no block, goes through as it is. */
  lemma LateDelta(raw: map<nat, Raw>, scrubbers: Scrubbers, acc: Accumulated, i: nat, kind: TextKind, text: string)
    requires InStep(raw, scrubbers, acc.blocks, i)
    requires i in raw ==> raw[i].start == TextStart(kind) && raw[i].stopped
    ensures var ev := BlockDelta(i, TextDelta(kind, text));
            var (staged, scrubbers') := Staged(scrubbers, ev);
            && scrubbers' == scrubbers
            && IngestedAll(acc, staged) == if i in raw
                 then acc.(blocks := acc.blocks[i := Cleaned(raw[i].(late := raw[i].late + text))])
                 else acc
  {
    hide Scrub, IngestedAll;
    IngestOne(acc, BlockDelta(i, TextDelta(kind, text)));
    if i in raw {
      assert TextEvents(i, kind, text) + [] == TextEvents(i, kind, text);
      IngestText(acc, i, kind, text, []);
      Glue(Scrub(raw[i].text), raw[i].late, text);
    }
  }

  /** Stopping an open text block appends what its scrubber flushes. */
  lemma FirstStop(raw: map<nat, Raw>, scrubbers: Scrubbers, acc: Accumulated, i: nat)
    requires i in scrubbers && InStep(raw, scrubbers, acc.blocks, i)
    ensures var (staged, scrubbers') := Staged(scrubbers, BlockStop(i));
            && IngestedAll(acc, staged) == acc.(blocks := acc.blocks[i := Cleaned(raw[i].(stopped := true))])
            && scrubbers' == scrubbers - {i}
  {
    hide Push, Flush, IngestedAll;
    IngestText(acc, i, scrubbers[i].1, Flush(scrubbers[i].0), [BlockStop(i)]);
    assert Scrub(raw[i].text) + "" == Scrub(raw[i].text);
  }

  lemma {:induction false} StreamInStep(events: seq<Event>)
    requires WellFormed(events)
    ensures forall i: nat :: InStep(RawBlocks(events), Processed(events).0, Processed(events).1.blocks, i)
  {
    if events != [] {
      var init, ev := events[..|events| - 1], events[|events| - 1];
      StreamInStep(init);
      var raw := RawBlocks(init);
      var (scrubbers, acc) := Processed(init);
      IngestOne(acc, ev);
      StepStaysInStep(raw, scrubbers, acc, ev, RawBlocks(events), Processed(events).0, Processed(events).1);
    }
  }

  lemma StepStaysInStep(raw: map<nat, Raw>, scrubbers: Scrubbers, acc: Accumulated, ev: Event,
                        raw': map<nat, Raw>, scrubbers': Scrubbers, acc': Accumulated)
    requires forall i: nat :: InStep(raw, scrubbers, acc.blocks, i)
    requires ev.BlockOpen? ==> ev.index !in raw && raw' == raw[ev.index := Raw(ev.start, "", false, "")]
    requires ev.BlockDelta? && ev.index !in raw ==> raw' == raw
    requires ev.BlockDelta? && ev.index in raw ==>
               && FitsBlock(raw[ev.index].start, ev.delta)
               && raw' == raw[ev.index := if raw[ev.index].stopped
                                then raw[ev.index].(late := raw[ev.index].late + DeltaText(ev.delta))
                                else raw[ev.index].(text := raw[ev.index].text + DeltaText(ev.delta))]
    requires ev.BlockStop? ==>
               raw' == if ev.index in raw then raw[ev.index := raw[ev.index].(stopped := true)] else raw
    requires !ev.BlockOpen? && !ev.BlockDelta? && !ev.BlockStop? ==> raw' == raw
    requires var (staged, s') := Staged(scrubbers, ev); scrubbers' == s' && acc' == IngestedAll(acc, staged)
    ensures forall i: nat :: InStep(raw', scrubbers', acc'.blocks, i)
  {
    hide Push, Flush, IngestedAll, Cleaned, TextEvents;
    if ev.BlockOpen? {
      OpenStep(acc, ev.index, ev.start);
    } else if ev.BlockDelta? {
      var i := ev.index;
      assert InStep(raw, scrubbers, acc.blocks, i);
      if ev.delta.TextDelta? {
        if i in raw && !raw[i].stopped {
          EarlyDelta(raw, scrubbers, acc, i, ev.delta.kind, ev.delta.text);
        } else {
          LateDelta(raw, scrubbers, acc, i, ev.delta.kind, ev.delta.text);
        }
      } else {
        ArgumentsDelta(raw, scrubbers, acc, i, ev.delta.json);
      }
    } else if ev.BlockStop? {
      assert InStep(raw, scrubbers, acc.blocks, ev.index);
      if ev.index in scrubbers {
        FirstStop(raw, scrubbers, acc, ev.index);
      } else {
        PlainStop(raw, scrubbers, acc, ev.index);
      }
    } else {
      IngestOne(acc, ev);
    }
    forall i: nat ensures InStep(raw', scrubbers', acc'.blocks, i) {
      assert InStep(raw, scrubbers, acc.blocks, i);
    }
  }

  lemma OpenStep(acc: Accumulated, i: nat, start: BlockStart)
    ensures IngestedAll(acc, [BlockOpen(i, start)]) == acc.(blocks := acc.blocks[i := Cleaned(Raw(start, "", false, ""))])
    ensures Push(FRESH, "") == Pushed("", FRESH)
  {
    hide Push;
    IngestOne(acc, BlockOpen(i, start));
    PushNone();
    assert "" + "" == "";
  }

  lemma ArgumentsDelta(raw: map<nat, Raw>, scrubbers: Scrubbers, acc: Accumulated, i: nat, json: string)
    requires InStep(raw, scrubbers, acc.blocks, i)
    requires i in raw ==> raw[i].start.ToolStart?
    ensures IngestedAll(acc, [BlockDelta(i, ToolDelta(json))]) == if i in raw
              then acc.(blocks := acc.blocks[i := Cleaned(if raw[i].stopped then raw[i].(late := raw[i].late + json)
                                                          else raw[i].(text := raw[i].text + json))])
              else acc
  {
    IngestOne(acc, BlockDelta(i, ToolDelta(json)));
    if i in raw {
      Glue(raw[i].text, raw[i].late, json);
      assert raw[i].text + "" == raw[i].text && raw[i].text + json + "" == raw[i].text + json;
    }
  }

  /** A stop for an index without a scrubber changes nothing. */
  lemma PlainStop(raw: map<nat, Raw>, scrubbers: Scrubbers, acc: Accumulated, i: nat)
    requires InStep(raw, scrubbers, acc.blocks, i) && i !in scrubbers
    ensures IngestedAll(acc, [BlockStop(i)]) == acc
    ensures i in raw ==> Cleaned(raw[i].(stopped := true)) == Cleaned(raw[i])
  {
    IngestOne(acc, BlockStop(i));
    assert i in raw && raw[i].stopped ==> raw[i].(stopped := true) == raw[i];
  }

  /**
   * However the blocks of a stream interleave, every stopped text or thinking block comes out as the scrub of its own
   * deltas before the stop followed by its later deltas as they are, tool arguments come out unchanged, and no other
   * block appears.
   */
  lemma InterleavingIsHarmless(events: seq<Event>)
    requires WellFormed(events) && forall i :: i in RawBlocks(events) ==> RawBlocks(events)[i].stopped
    ensures var blocks, raw := Processed(events).1.blocks, RawBlocks(events);
            && blocks.Keys == raw.Keys
            && forall i :: i in raw ==>
                 match raw[i].start
                 case ToolStart(id, name) => blocks[i] == PartialTool(id, name, raw[i].text + raw[i].late)
                 case TextStart(kind) => blocks[i] == PartialText(kind, Scrub(raw[i].text) + raw[i].late)
  {
    hide Scrub, RawBlocks, Processed, WellFormed, Push;
    StreamInStep(events);
    var blocks, raw := Processed(events).1.blocks, RawBlocks(events);
    forall i: nat ensures i in blocks.Keys <==> i in raw.Keys {
      assert InStep(raw, Processed(events).0, blocks, i);
    }
    forall i | i in raw ensures blocks[i] == Cleaned(raw[i]) {
      assert InStep(raw, Processed(events).0, blocks, i);
    }
  }

  lemma InsideDropsBytes(name: string, held: string, late: string)
    requires |held| < |CloseTag(name)|
    ensures var q := Push(ScrubState(held, Some(name)), late);
            |q.out + Flush(q.next)| <= |late| && (q.out + Flush(q.next) == late ==> late == "")
  {
    hide FindTag, Overlap;
    var all, close := held + late, CloseTag(name);
    DriveWhileInside(all, name);
    match FindTag(all, close, 0)
    case None =>
      assert DriveInside(all, name).out == "" && DriveInside(all, name).next.inside == Some(name);
    case Some(p) =>
      DriveShrinks(ScrubState(all[p + |close|..], None));
  }

  /**
   * When deltas after the stop matter: the block still equals the scrub of all its deltas if and only if nothing came
   * late inside an unterminated block, and otherwise what the stop flushed, followed by the late text, holds no
   * protected open tag with its end before an undecided `<`.
   */
  lemma LateDeltaIsNotScrubbed(text: string, late: string)
    ensures var next := Push(FRESH, text).next;
            Scrub(text) + late == Scrub(text + late)
            <==> if next.inside.Some? then late == "" else !Drops(next.held + late)
  {
    hide Drive, Settled, Drops;
    var p := Push(FRESH, text);
    var q := Push(p.next, late);
    PushMore(text, late);
    assert Scrub(text + late) == p.out + (q.out + Flush(q.next));
    assert Scrub(text) + late == p.out + (Flush(p.next) + late);
    SamePrefix(p.out, q.out + Flush(q.next), Flush(p.next) + late);
    match p.next.inside
    case Some(name) =>
      StaysShort(text);
      InsideDropsBytes(name, p.next.held, late);
      assert "" + late == late;
    case None =>
      ScrubIsIdentity(p.next.held + late);
      assert "" + (p.next.held + late) == p.next.held + late;
  }

  lemma StaysShort(text: string)
    ensures var next := Push(FRESH, text).next; next.inside.Some? ==> |next.held| < |CloseTag(next.inside.value)|
  {
    hide Drive;
    DriveSettles(ScrubState("" + text, None));
  }

  // ---------- Synthetic streams ----------

  /** The start and delta a finished block is turned into; results and images have none. */
  function Synthesized(b: Block, i: nat): seq<Event> {
    match b
    case Text(text) => [BlockOpen(i, TextStart(Spoken)), BlockDelta(i, TextDelta(Spoken, text)), BlockStop(i)]
    case Thinking(text, _) => [BlockOpen(i, TextStart(Thought)), BlockDelta(i, TextDelta(Thought, text)), BlockStop(i)]
    case ToolUse(id, name, input) => [BlockOpen(i, ToolStart(id, name)), BlockDelta(i, ToolDelta(input)), BlockStop(i)]
    case _ => []
  }

  function SynthesizedAll(content: seq<Block>): seq<Event> {
    if content == [] then []
    else SynthesizedAll(content[..|content| - 1]) + Synthesized(content[|content| - 1], |content| - 1)
  }

  datatype Response = Response(id: string, content: seq<Block>, stop: StopReason, usage: Usage)

  /** All events of a finished response. */
  function Synthesis(resp: Response): seq<Event> {
    [MessageStart(resp.id, None)] + SynthesizedAll(resp.content)
    + [MessageDelta(Some(resp.stop), Some(resp.usage)), MessageStop]
  }

  method SynthesizeEvents(resp: Response) returns (events: seq<Event>)
    ensures events == Synthesis(resp)
  {
    hide SynthesizedAll, Synthesized, Streamed;
    events := [MessageStart(resp.id, None)];
    NothingSynthesized();
    var content := resp.content;
    for i := 0 to |content|
      invariant events == [MessageStart(resp.id, None)] + SynthesizedAll(content[..i])
    {
      assert content[..i + 1][..i] == content[..i] && content[..i + 1][i] == content[i];
      SynthesizedSnoc(content[..i + 1]);
      Glue([MessageStart(resp.id, None)], SynthesizedAll(content[..i]), Synthesized(content[i], i));
      events := events + Synthesized(content[i], i);
    }
    assert content[..|content|] == content;
    events := events + [MessageDelta(Some(resp.stop), Some(resp.usage)), MessageStop];
  }

  lemma NothingSynthesized()
    ensures SynthesizedAll([]) == []
  {
  }

  predicate Blank(s: string) {
    forall i :: 0 <= i < |s| ==> s[i] in " \t\r\n"
  }

  /** A partial block as content.  Arguments are JSON text; blank ones stand for the empty object. */
  function Finished(p: Partial): Block {
    match p
    case PartialText(Spoken, text) => Text(text)
    case PartialText(Thought, text) => Thinking(text, None)
    case PartialTool(id, name, args) => ToolUse(id, name, if Blank(args) then "{}" else args)
  }

  /** The blocks below `n`, in index order. */
  function FinishedBelow(blocks: Blocks, n: nat): seq<Block> {
    if n == 0 then []
    else FinishedBelow(blocks, n - 1) + if n - 1 in blocks then [Finished(blocks[n - 1])] else []
  }

  /** What a synthetic stream can carry: text, thinking without its signature, and calls. */
  predicate Carried(b: Block) {
    b.Text? || b.ToolUse? || (b.Thinking? && b.signature.None?)
  }

  predicate StreamsAtAll(b: Block) {
    b.Text? || b.ToolUse? || b.Thinking?
  }

  function WithoutSignature(b: Block): Block {
    if b.Thinking? then b.(signature := None) else b
  }

  lemma IngestAppend(acc: Accumulated, a: seq<Event>, b: seq<Event>)
    ensures IngestedAll(acc, a + b) == IngestedAll(IngestedAll(acc, a), b)
    decreases |b|
  {
    if b == [] {
      assert a + b == a;
    } else {
      assert (a + b)[..|a + b| - 1] == a + b[..|b| - 1];
      IngestAppend(acc, a, b[..|b| - 1]);
    }
  }

  lemma IngestSynthesized(acc: Accumulated, b: Block, i: nat)
    requires StreamsAtAll(b) && i !in acc.blocks && (b.ToolUse? ==> !Blank(b.input))
    ensures exists p :: IngestedAll(acc, Synthesized(b, i)) == acc.(blocks := acc.blocks[i := p])
                     && Finished(p) == WithoutSignature(b)
  {
    hide Blank, IngestedAll;
    var p := match b
      case Text(text) => PartialText(Spoken, "" + text)
      case Thinking(text, _) => PartialText(Thought, "" + text)
      case ToolUse(id, name, input) => PartialTool(id, name, "" + input)
      case _ => PartialText(Spoken, "");
    var events := Synthesized(b, i);
    IngestThree(acc, events[0], events[1], events[2]);
    assert events == [events[0], events[1], events[2]];
    assert acc.blocks[i := Opened(events[0].start)][i := p] == acc.blocks[i := p];
    assert Finished(p) == WithoutSignature(b) by {
      assert b.Text? ==> "" + b.text == b.text;
      assert b.Thinking? ==> "" + b.thought == b.thought;
      assert b.ToolUse? ==> "" + b.input == b.input;
    }
    assert IngestedAll(acc, events) == acc.(blocks := acc.blocks[i := p]);
  }

  lemma IngestThree(acc: Accumulated, a: Event, b: Event, c: Event)
    ensures IngestedAll(acc, [a, b, c]) == Ingested(Ingested(Ingested(acc, a), b), c)
  {
    IngestOne(acc, a);
    assert [a, b][..1] == [a];
    assert IngestedAll(acc, [a, b]) == Ingested(Ingested(acc, a), b);
    assert [a, b, c][..2] == [a, b];
  }

  function Streamed(content: seq<Block>): seq<Block> {
    if content == [] then []
    else
      var last := content[|content| - 1];
      Streamed(content[..|content| - 1]) + if StreamsAtAll(last) then [WithoutSignature(last)] else []
  }

  lemma {:induction false} FinishedFrame(blocks: Blocks, more: Blocks, n: nat)
    requires forall i: nat :: i < n ==> (i in blocks <==> i in more) && (i in blocks ==> blocks[i] == more[i])
    ensures FinishedBelow(blocks, n) == FinishedBelow(more, n)
  {
    if n > 0 {
      FinishedFrame(blocks, more, n - 1);
    }
  }

  /** One more block: its index gains it, or nothing changes. */
  lemma AccumulateOne(before: Accumulated, b: Block, n: nat)
    requires n !in before.blocks && (b.ToolUse? ==> !Blank(b.input))
    requires forall i :: i in before.blocks ==> i < n
    ensures var after := IngestedAll(before, Synthesized(b, n));
            && after == before.(blocks := after.blocks) && (forall i :: i in after.blocks ==> i <= n)
            && FinishedBelow(after.blocks, n + 1)
               == FinishedBelow(before.blocks, n) + if StreamsAtAll(b) then [WithoutSignature(b)] else []
  {
    hide Ingested, Finished, Blank;
    var after := IngestedAll(before, Synthesized(b, n));
    if StreamsAtAll(b) {
      IngestSynthesized(before, b, n);
    } else {
      assert after == before;
    }
    FinishedFrame(before.blocks, after.blocks, n);
  }

  lemma {:induction false} SynthesisAccumulates(start: Accumulated, content: seq<Block>)
    requires start.blocks == map[]
    requires forall k :: 0 <= k < |content| && content[k].ToolUse? ==> !Blank(content[k].input)
    ensures var acc := IngestedAll(start, SynthesizedAll(content));
            && acc == start.(blocks := acc.blocks)
            && FinishedBelow(acc.blocks, |content|) == Streamed(content) && forall i :: i in acc.blocks ==> i < |content|
  {
    if content == [] {
      assert start.blocks == map[];
    } else {
      var n := |content| - 1;
      var init, last := content[..n], content[n];
      assert forall k :: 0 <= k < |init| ==> init[k] == content[k];
      SynthesisAccumulates(start, init);
      SynthesizedSnoc(content);
      hide SynthesizedAll, Streamed, IngestedAll, Synthesized, FinishedBelow, Blank, StreamsAtAll, WithoutSignature;
      var before := IngestedAll(start, SynthesizedAll(init));
      IngestAppend(start, SynthesizedAll(init), Synthesized(last, n));
      AccumulateOne(before, last, n);
    }
  }

  lemma SynthesizedSnoc(content: seq<Block>)
    requires content != []
    ensures var n := |content| - 1; var init, last := content[..n], content[n];
            && SynthesizedAll(content) == SynthesizedAll(init) + Synthesized(last, n)
            && Streamed(content) == Streamed(init) + if StreamsAtAll(last) then [WithoutSignature(last)] else []
  {
  }

  lemma {:induction false} StreamedIsWhole(content: seq<Block>)
    ensures |Streamed(content)| <= |content|
    ensures Streamed(content) == content <==> forall k :: 0 <= k < |content| ==> Carried(content[k])
  {
    if content != [] {
      var n := |content| - 1;
      var init, last := content[..n], content[n];
      StreamedIsWhole(init);
      SynthesizedSnoc(content);
      CarriedIff(last);
      hide Streamed, Synthesized, SynthesizedAll, StreamsAtAll, WithoutSignature, Carried;
      var tail := if StreamsAtAll(last) then [WithoutSignature(last)] else [];
      SnocEqual(Streamed(init), tail, init, last);
      assert content == init + [last];
      AllSnoc(content);
    }
  }

  lemma CarriedIff(b: Block)
    ensures (if StreamsAtAll(b) then [WithoutSignature(b)] else []) == [b] <==> Carried(b)
  {
  }

  lemma AllSnoc(content: seq<Block>)
    requires content != []
    ensures var n := |content| - 1;
            (forall k :: 0 <= k < |content| ==> Carried(content[k]))
            <==> Carried(content[n]) && forall k :: 0 <= k < n ==> Carried(content[..n][k])
  {
    hide Carried;
    var n := |content| - 1;
    assert forall k :: 0 <= k < n ==> content[..n][k] == content[k];
    if Carried(content[n]) && forall k :: 0 <= k < n ==> Carried(content[..n][k]) {
      forall k | 0 <= k < |content| ensures Carried(content[k]) {
        assert k < n ==> Carried(content[..n][k]);
      }
    }
  }

  lemma SnocEqual(a: seq<Block>, b: seq<Block>, init: seq<Block>, last: Block)
    requires |a| <= |init| && |b| <= 1
    ensures a + b == init + [last] <==> a == init && b == [last]
  {
    if a + b == init + [last] {
      assert |a + b| == |init| + 1;
      assert (a + b)[..|a|] == a && (a + b)[|a|..] == b;
      assert (init + [last])[..|init|] == init && (init + [last])[|init|..] == [last];
    }
  }

  /** The response of an accumulator whose block indices lie below `n`; a stream error leaves none. */
  function Finalized(acc: Accumulated, n: nat): Option<Response> {
    if acc.error.Some? then None
    else
      var content := FinishedBelow(acc.blocks, n);
      var stop := match acc.stop
        case Some(reason) => reason
        case None => if exists k :: 0 <= k < |content| && content[k].ToolUse? then CallsTools else EndTurn;
      Some(Response(
        if acc.messageId.Some? then acc.messageId.value else "",
        content,
        stop,
        if acc.usage.Some? then acc.usage.value else Usage(0, 0)))
  }

  /**
   * A response turned into events and accumulated again keeps its id, stop reason and usage, and comes back whole
   * exactly when it holds no results, no images and no signed thinking: signatures are lost on the way.
   */
  lemma SynthesisRoundTrip(resp: Response)
    requires forall k :: 0 <= k < |resp.content| && resp.content[k].ToolUse? ==> !Blank(resp.content[k].input)
    ensures var back := Finalized(IngestedAll(NOTHING, Synthesis(resp)), |resp.content|);
            && back == Some(resp.(content := Streamed(resp.content)))
            && (back == Some(resp) <==> forall k :: 0 <= k < |resp.content| ==> Carried(resp.content[k]))
  {
    hide FinishedBelow, Streamed, SynthesizedAll, Blank;
    var first, last := MessageStart(resp.id, None), MessageDelta(Some(resp.stop), Some(resp.usage));
    var started := Ingested(NOTHING, first);
    IngestOne(NOTHING, first);
    IngestAppend(NOTHING, [first], SynthesizedAll(resp.content));
    IngestAppend(NOTHING, [first] + SynthesizedAll(resp.content), [last, MessageStop]);
    var acc := IngestedAll(started, SynthesizedAll(resp.content));
    assert [last, MessageStop][..1] == [last];
    IngestOne(acc, last);
    assert IngestedAll(acc, [last, MessageStop]) == Ingested(acc, last);
    SynthesisAccumulates(started, resp.content);
    StreamedIsWhole(resp.content);
    assert resp.(content := Streamed(resp.content)) == resp <==> Streamed(resp.content) == resp.content;
  }
}
