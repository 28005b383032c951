/** One turn of the agent loop: retries, recovery branches, tool rounds, and what they persist. */
module TurnLoop {
  import opened Prelude
  import opened Messages
  import opened LoopGuard
  import opened Poison

  datatype Config = Config(
    maxIterations: nat,
    streamRetries: nat,
    compactRetries: nat,
    malformedRetries: nat,
    filterRetries: nat,
    maxTokens: Option<nat>,
    escalations: nat,
    ceiling: nat,
    guardLimit: Option<nat>,
    failureFeedback: bool)

  const DEFAULT_CAP := 4096

  datatype Reply = Reply(content: seq<Block>, stop: StopReason)

  datatype LlmResult = Answered(reply: Reply) | TooLong | MalformedArgs | ContentFiltered | Failed

  // One streaming request: it breaks off, it ends, or its tool arguments do not parse and it is issued once more
  // without streaming.
  datatype Attempt = Interrupted | Streamed(end: LlmResult) | Reissued(end: LlmResult)

  datatype Compaction = Skipped | Summarised | CompactionFailed(called: bool)

  // Everything the outside world decides, by iteration: any functions whatever.  `healingError` tells after how many
  // probes the healing breaks off, if it does.
  datatype World = World(
    attempt: (nat, nat) -> Attempt,
    compaction: nat -> Compaction,
    candidates: nat -> seq<MessageId>,
    probe: nat -> Probe,
    healingError: nat -> Option<nat>,
    toolBody: (nat, nat) -> (seq<Block>, bool),
    finalCompaction: bool)

  datatype Outcome = Done | IterationsExceeded | GuardTripped | Error

  // ---------- The state of a turn ----------

  // `calls` counts LLM calls; `executed` lists the tool calls the post-stream pass ran.
  datatype Turn = Turn(
    log: seq<Message>,
    iterations: nat,
    tooLong: nat,
    malformed: nat,
    filtered: nat,
    cap: Option<nat>,
    escalated: nat,
    counts: Counts,
    failed: Counts,
    executed: seq<Key>,
    calls: nat)

  datatype Step = Again(turn: Turn) | Stop(turn: Turn, outcome: Outcome)

  function Entry(log: seq<Message>, role: Role, content: seq<Block>): Message {
    Message(Stored(|log|), role, content)
  }

  function Append(t: Turn, role: Role, content: seq<Block>): Turn {
    t.(log := t.log + [Entry(t.log, role, content)])
  }

  const MALFORMED_FEEDBACK := [Text("malformed tool arguments")]
  const POLICY_NOTICE := [Text("content policy notice")]
  const FAILURE_FEEDBACK := [Text("repeated tool failure")]

  function Start(userText: string): Turn {
    Turn([Entry([], User, [Text(userText)])], 0, 0, 0, 0, None, 0, map[], map[], [], 0)
  }

  /** The round trip from the `attempt`-th try on: its end, and the LLM calls it takes. */
  function RoundTrip(cfg: Config, world: World, iteration: nat, attempt: nat): (r: (LlmResult, nat))
    requires attempt <= cfg.streamRetries
    ensures r.1 <= cfg.streamRetries - attempt + 2
    decreases cfg.streamRetries - attempt
  {
    match world.attempt(iteration, attempt)
    case Streamed(end) => (end, 1)
    case Reissued(end) => (end, 2)
    case Interrupted =>
      if attempt == cfg.streamRetries then (Failed, 1)
      else
        var (end, calls) := RoundTrip(cfg, world, iteration, attempt + 1);
        (end, calls + 1)
  }

  function CompactionCalls(c: Compaction): nat {
    match c
    case Skipped => 0
    case Summarised => 1
    case CompactionFailed(called) => if called then 1 else 0
  }

  /** The rows the search may redact: a query returns no more than the row limit. */
  function Pool(world: World, iteration: nat): (pool: seq<MessageId>)
    ensures |pool| <= MAX_POOL_ROWS
  {
    var all := world.candidates(iteration);
    all[..Min(|all|, MAX_POOL_ROWS)]
  }

  datatype Healing = RowRedacted | NothingToRedact | HealingFailed

  /** What the search for poison comes to, and the probes made: each is an LLM call. */
  function Healed(world: World, iteration: nat): (Healing, nat) {
    var (where, probes) := Search(Pool(world, iteration), world.probe(iteration));
    match world.healingError(iteration)
    case Some(n) => (HealingFailed, Min(n, probes))
    case None => (if where.Redacted? then RowRedacted else NothingToRedact, probes)
  }

  function StartCap(cfg: Config): nat {
    match cfg.maxTokens case Some(n) => n case None => DEFAULT_CAP
  }

  /** The output cap in force. */
  function CapNow(cfg: Config, t: Turn): nat {
    match t.cap case Some(n) => n case None => StartCap(cfg)
  }

  function KeysOf(content: seq<Block>): seq<Key> {
    if content == [] then []
    else (if content[0].ToolUse? then [(content[0].name, content[0].input)] else []) + KeysOf(content[1..])
  }

  /** One result per tool use, in order; `body(k)` is what the `k`-th call comes to. */
  function ToolResults(ids: seq<string>, body: nat -> (seq<Block>, bool)): (r: seq<Block>)
    ensures |r| == |ids|
  {
    seq(|ids|, k requires 0 <= k < |ids| => ToolResult(ids[k], body(k).0, body(k).1))
  }

  /** The keys of the calls that failed, in order. */
  function Failures(keys: seq<Key>, body: nat -> (seq<Block>, bool), from: nat): seq<Key> {
    if keys == [] then []
    else (if body(from).1 then [keys[0]] else []) + Failures(keys[1..], body, from + 1)
  }

  function BodyAt(world: World, iteration: nat): nat -> (seq<Block>, bool) {
    (k: nat) => world.toolBody(iteration, k)
  }

  /** What one pass through the loop does. */
  function Next(cfg: Config, world: World, before: Turn): Step
    requires before.iterations < cfg.maxIterations
  {
    var i := before.iterations + 1;
    var (end, used) := RoundTrip(cfg, world, i, 0);
    var t := before.(iterations := i, calls := before.calls + used);
    match end
    case TooLong =>
      if t.tooLong >= cfg.compactRetries then Stop(t, Error)
      else
        var c := world.compaction(i);
        var t := t.(tooLong := t.tooLong + 1, calls := t.calls + CompactionCalls(c));
        if c.CompactionFailed? then Stop(t, Error) else Again(t)
    case MalformedArgs =>
      if t.malformed >= cfg.malformedRetries then Stop(t, Error)
      else Again(Append(t.(malformed := t.malformed + 1), User, MALFORMED_FEEDBACK))
    case ContentFiltered =>
      if t.filtered >= cfg.filterRetries then Stop(t, Error)
      else
        var (healing, probes) := Healed(world, i);
        var t := t.(filtered := t.filtered + 1, calls := t.calls + probes);
        (match healing
         case RowRedacted => Again(t)
         case NothingToRedact => Stop(Append(t, Assistant, POLICY_NOTICE), Done)
         case HealingFailed => Stop(t, Error))
    case Failed => Stop(t, Error)
    case Answered(reply) =>
      if reply.content == [] then Stop(t, Done)
      else AfterReply(cfg, world, Append(t, Assistant, reply.content), reply)
  }

  /** ... once a reply has been persisted. */
  function AfterReply(cfg: Config, world: World, t: Turn, reply: Reply): Step {
    var raised := Min(2 * CapNow(cfg, t), cfg.ceiling);
    if reply.stop == MaxTokens && UseIds(reply.content) == [] && t.escalated < cfg.escalations
       && raised > CapNow(cfg, t)
    then Again(t.(escalated := t.escalated + 1, cap := Some(raised)))
    else if reply.stop != CallsTools then
      Stop(t.(calls := t.calls + if world.finalCompaction then 1 else 0), Done)
    else ToolRound(cfg, world, t, reply.content)
  }

  /** ... and asks for tools. */
  function ToolRound(cfg: Config, world: World, t: Turn, content: seq<Block>): Step {
    var keys := KeysOf(content);
    var (tripped, counts) := match cfg.guardLimit
      case None => (false, t.counts)
      case Some(limit) => Recorded(t.counts, keys, limit);
    var t := t.(counts := counts);
    if tripped then Stop(t, GuardTripped)
    else
      var t := t.(executed := t.executed + keys);
      var body := BodyAt(world, t.iterations);
      if UseIds(content) == [] then Stop(t, Done)
      else
        var t := Append(t, Tool, ToolResults(UseIds(content), body));
        if !cfg.failureFeedback then Again(t)
        else
          // A call that fails for the second time in the turn earns the model a hint.
          var (repeated, failed) := Recorded(t.failed, Failures(keys, body, 0), 2);
          var t := t.(failed := failed);
          Again(if repeated then Append(t, User, FAILURE_FEEDBACK) else t)
  }

  function Run(cfg: Config, world: World, t: Turn): (Turn, Outcome)
    requires t.iterations <= cfg.maxIterations
    decreases cfg.maxIterations - t.iterations
  {
    if t.iterations == cfg.maxIterations then (t, IterationsExceeded)
    else
      NextAdvances(cfg, world, t);
      match Next(cfg, world, t)
      case Again(t') => Run(cfg, world, t')
      case Stop(t', outcome) => (t', outcome)
  }

  lemma NextAdvances(cfg: Config, world: World, t: Turn)
    requires t.iterations < cfg.maxIterations
    ensures Next(cfg, world, t).turn.iterations == t.iterations + 1
  {
  }

  // ---------- The loop ----------

  /** Retries an interrupted stream; a malformed one is reissued at most once. */
  method CallLlm(cfg: Config, world: World, iteration: nat) returns (end: LlmResult, calls: nat)
    ensures (end, calls) == RoundTrip(cfg, world, iteration, 0)
  {
    calls := 0;
    var attempt := 0;
    while true
      invariant attempt <= cfg.streamRetries
      invariant RoundTrip(cfg, world, iteration, 0).0 == RoundTrip(cfg, world, iteration, attempt).0
      invariant RoundTrip(cfg, world, iteration, 0).1 == calls + RoundTrip(cfg, world, iteration, attempt).1
      decreases cfg.streamRetries - attempt
    {
      match world.attempt(iteration, attempt)
      case Streamed(e) =>
        return e, calls + 1;
      case Reissued(e) =>
        return e, calls + 2;
      case Interrupted =>
        calls := calls + 1;
        if attempt == cfg.streamRetries {
          return Failed, calls;
        }
        attempt := attempt + 1;
    }
  }

  /** One search for poison, which may break off. */
  method HealHistory(world: World, iteration: nat) returns (healing: Healing, probes: nat)
    ensures (healing, probes) == Healed(world, iteration)
  {
    var where;
    where, probes := Localize(Pool(world, iteration), world.probe(iteration));
    var error := world.healingError(iteration);
    if error.Some? {
      return HealingFailed, Min(error.value, probes);
    }
    healing := if where.Redacted? then RowRedacted else NothingToRedact;
  }

  method RunTools(content: seq<Block>, body: nat -> (seq<Block>, bool)) returns (blocks: seq<Block>, failures: seq<Key>)
    ensures blocks == ToolResults(UseIds(content), body)
    ensures failures == Failures(KeysOf(content), body, 0)
  {
    hide Failures, UseIds, KeysOf;
    blocks, failures := [], [];
    var i := 0;
    assert content[0..] == content;
    while i < |content|
      invariant 0 <= i <= |content|
      invariant |blocks| + |UseIds(content[i..])| == |UseIds(content)|
      invariant UseIds(content)[|blocks|..] == UseIds(content[i..])
      invariant blocks == ToolResults(UseIds(content), body)[..|blocks|]
      invariant Failures(KeysOf(content), body, 0) == failures + Failures(KeysOf(content[i..]), body, |blocks|)
    {
      var b := content[i];
      assert content[i..][1..] == content[i + 1..];
      ghost var rest := content[i + 1..];
      UsesStep(content[i..]);
      if b.ToolUse? {
        FailuresStep(KeysOf(content[i..]), body, |blocks|);
        var (out, isError) := body(|blocks|);
        assert UseIds(content)[|blocks|] == UseIds(content[i..])[0];
        assert UseIds(content)[|blocks| + 1..] == UseIds(content[i..])[1..];
        if isError {
          Glue(failures, [(b.name, b.input)], Failures(KeysOf(rest), body, |blocks| + 1));
          failures := failures + [(b.name, b.input)];
        }
        blocks := blocks + [ToolResult(b.id, out, isError)];
      }
      i := i + 1;
    }
    assert content[i..] == [];
    NoFailures(body, |blocks|);
  }

  lemma NoFailures(body: nat -> (seq<Block>, bool), from: nat)
    ensures Failures([], body, from) == [] && UseIds([]) == [] && KeysOf([]) == []
  {
  }

  lemma FailuresStep(keys: seq<Key>, body: nat -> (seq<Block>, bool), from: nat)
    requires keys != []
    ensures Failures(keys, body, from)
         == if body(from).1 then [keys[0]] + Failures(keys[1..], body, from + 1) else Failures(keys[1..], body, from + 1)
  {
    assert [] + Failures(keys[1..], body, from + 1) == Failures(keys[1..], body, from + 1);
  }

  lemma UsesStep(content: seq<Block>)
    requires content != []
    ensures var rest := content[1..];
            if content[0].ToolUse? then
              && UseIds(content) == [content[0].id] + UseIds(rest)
              && KeysOf(content) == [(content[0].name, content[0].input)] + KeysOf(rest)
              && UseIds(content)[1..] == UseIds(rest) && KeysOf(content)[1..] == KeysOf(rest)
            else UseIds(content) == UseIds(rest) && KeysOf(content) == KeysOf(rest)
  {
    var rest := content[1..];
    assert [] + UseIds(rest) == UseIds(rest) && [] + KeysOf(rest) == KeysOf(rest);
  }

  /** Counts failures until one has failed before in this turn. */
  method RepeatedFailure(failures: seq<Key>, seen: Counts) returns (hint: bool, seen': Counts)
    ensures (hint, seen') == Recorded(seen, failures, 2)
  {
    hint, seen' := false, seen;
    var j := 0;
    assert failures[0..] == failures;
    while j < |failures|
      invariant 0 <= j <= |failures|
      invariant Recorded(seen, failures, 2) == Recorded(seen', failures[j..], 2)
    {
      assert failures[j..][1..] == failures[j + 1..];
      var count := Tally(seen', failures[j]) + 1;
      seen' := seen'[failures[j] := count];
      if count >= 2 {
        return true, seen';
      }
      j := j + 1;
    }
    assert failures[j..] == [];
  }

  /** The guard object holds the turn's counts. */
  predicate Guards(guard: LoopGuard, cfg: Config, t: Turn)
    reads guard
  {
    guard.counts == t.counts && (cfg.guardLimit.Some? ==> guard.limit == cfg.guardLimit.value)
  }

  method HandleTools(cfg: Config, world: World, before: Turn, content: seq<Block>, guard: LoopGuard)
      returns (step: Step)
    requires Guards(guard, cfg, before)
    modifies guard`counts
    ensures step == ToolRound(cfg, world, before, content) && Guards(guard, cfg, step.turn)
  {
    hide UseIds, KeysOf, ToolResults, Failures, Recorded, BodyAt;
    var t := before;
    var keys := KeysOf(content);
    if cfg.guardLimit.Some? {
      var tripped := guard.RecordAll(keys);
      t := t.(counts := guard.counts);
      if tripped {
        return Stop(t, GuardTripped);
      }
    }
    t := t.(executed := t.executed + keys);
    var blocks, failures := RunTools(content, BodyAt(world, t.iterations));
    if blocks == [] {
      return Stop(t, Done);
    }
    t := Append(t, Tool, blocks);
    if cfg.failureFeedback {
      var hint, failed := RepeatedFailure(failures, t.failed);
      t := t.(failed := failed);
      if hint {
        t := Append(t, User, FAILURE_FEEDBACK);
      }
    }
    step := Again(t);
  }

  method HandleReply(cfg: Config, world: World, before: Turn, reply: Reply, guard: LoopGuard) returns (step: Step)
    requires Guards(guard, cfg, before)
    modifies guard`counts
    ensures step == AfterReply(cfg, world, before, reply) && Guards(guard, cfg, step.turn)
  {
    hide ToolRound, UseIds;
    if reply.stop == MaxTokens && UseIds(reply.content) == [] && before.escalated < cfg.escalations {
      var raised := Min(2 * CapNow(cfg, before), cfg.ceiling);
      if raised > CapNow(cfg, before) {
        return Again(before.(escalated := before.escalated + 1, cap := Some(raised)));
      }
    }
    if reply.stop != CallsTools {
      return Stop(before.(calls := before.calls + if world.finalCompaction then 1 else 0), Done);
    }
    step := HandleTools(cfg, world, before, reply.content, guard);
  }

  /** One pass through the loop. */
  method Iterate(cfg: Config, world: World, before: Turn, guard: LoopGuard) returns (step: Step)
    requires before.iterations < cfg.maxIterations && Guards(guard, cfg, before)
    modifies guard`counts
    ensures step == Next(cfg, world, before) && Guards(guard, cfg, step.turn)
  {
    hide AfterReply, RoundTrip;
    var t := before.(iterations := before.iterations + 1);
    var end, used := CallLlm(cfg, world, t.iterations);
    t := t.(calls := t.calls + used);
    if end.TooLong? && t.tooLong < cfg.compactRetries {
      var c := world.compaction(t.iterations);
      t := t.(tooLong := t.tooLong + 1, calls := t.calls + CompactionCalls(c));
      return if c.CompactionFailed? then Stop(t, Error) else Again(t);
    }
    if end.MalformedArgs? && t.malformed < cfg.malformedRetries {
      return Again(Append(t.(malformed := t.malformed + 1), User, MALFORMED_FEEDBACK));
    }
    if end.ContentFiltered? && t.filtered < cfg.filterRetries {
      var healing, probes := HealHistory(world, t.iterations);
      t := t.(filtered := t.filtered + 1, calls := t.calls + probes);
      match healing
      case RowRedacted => return Again(t);
      case NothingToRedact => return Stop(Append(t, Assistant, POLICY_NOTICE), Done);
      case HealingFailed => return Stop(t, Error);
    }
    if !end.Answered? {
      return Stop(t, Error);
    }
    if end.reply.content == [] {
      return Stop(t, Done);
    }
    step := HandleReply(cfg, world, Append(t, Assistant, end.reply.content), end.reply, guard);
  }

  /** The turn: the loop over its counters and the log, against any world. */
  method RunTurn(cfg: Config, world: World, userText: string) returns (t: Turn, outcome: Outcome)
    ensures (t, outcome) == Run(cfg, world, Start(userText))
  {
    hide Next;
    t := Start(userText);
    var guard := new LoopGuard(match cfg.guardLimit case Some(n) => n case None => 0);
    while t.iterations < cfg.maxIterations
      invariant t.iterations <= cfg.maxIterations
      invariant Run(cfg, world, Start(userText)) == Run(cfg, world, t)
      invariant Guards(guard, cfg, t) && fresh(guard)
      decreases cfg.maxIterations - t.iterations
    {
      NextAdvances(cfg, world, t);
      var step := Iterate(cfg, world, t, guard);
      t := step.turn;
      if step.Stop? {
        return t, step.outcome;
      }
    }
    outcome := IterationsExceeded;
  }
}
