/** What one pass of the turn loop does on each kind of reply, and what a whole turn comes to. */
module TurnSteps {
  import opened Prelude
  import opened Messages
  import opened LoopGuard
  import opened Poison
  import opened TurnLoop

  // ---------- Round trips ----------

  /** The tries before the `n`-th break off, and that one does not or is the last. */
  predicate LastTry(cfg: Config, world: World, iteration: nat, n: nat) {
    && n <= cfg.streamRetries && (forall a :: 0 <= a < n ==> world.attempt(iteration, a) == Interrupted)
    && (world.attempt(iteration, n) == Interrupted ==> n == cfg.streamRetries)
  }

  lemma {:induction false} FindLastTry(cfg: Config, world: World, iteration: nat, from: nat) returns (n: nat)
    requires from <= cfg.streamRetries && forall a :: 0 <= a < from ==> world.attempt(iteration, a) == Interrupted
    ensures LastTry(cfg, world, iteration, n)
    decreases cfg.streamRetries - from
  {
    if world.attempt(iteration, from) == Interrupted && from < cfg.streamRetries {
      n := FindLastTry(cfg, world, iteration, from + 1);
    } else {
      n := from;
    }
  }

  /** A stream that breaks off is tried again; one whose arguments do not parse costs one call more. */
  lemma {:induction false} TripEnds(cfg: Config, world: World, iteration: nat, n: nat, from: nat)
    requires LastTry(cfg, world, iteration, n) && from <= n
    ensures var (end, calls) := RoundTrip(cfg, world, iteration, from);
            match world.attempt(iteration, n)
            case Streamed(e) => end == e && calls == n - from + 1
            case Reissued(e) => end == e && calls == n - from + 2
            case Interrupted => end == Failed && calls == cfg.streamRetries - from + 1
    decreases n - from
  {
    if from < n {
      TripEnds(cfg, world, iteration, n, from + 1);
    }
  }

  // ---------- Tool uses ----------

  /** The tool uses of a reply, in order. */
  function Uses(content: seq<Block>): (uses: seq<Block>)
    ensures forall k :: 0 <= k < |uses| ==> uses[k].ToolUse?
  {
    if content == [] then [] else (if content[0].ToolUse? then [content[0]] else []) + Uses(content[1..])
  }

  function KeyOf(use: Block): Key
    requires use.ToolUse?
  {
    (use.name, use.input)
  }

  function Keys(uses: seq<Block>): (keys: seq<Key>)
    requires forall k :: 0 <= k < |uses| ==> uses[k].ToolUse?
    ensures |keys| == |uses|
  {
    seq(|uses|, k requires 0 <= k < |uses| => KeyOf(uses[k]))
  }

  lemma UsesAre(content: seq<Block>)
    ensures |UseIds(content)| == |Uses(content)| && KeysOf(content) == Keys(Uses(content))
    ensures forall k :: 0 <= k < |Uses(content)| ==> UseIds(content)[k] == Uses(content)[k].id
  {
    hide Uses, UseIds, KeysOf, Keys;
    UsesAreIds(content);
    UsesAreKeys(content);
  }

  /** The uses of a content, from its first block on. */
  lemma UsesCons(content: seq<Block>)
    requires content != []
    ensures Uses(content) == if content[0].ToolUse? then [content[0]] + Uses(content[1..]) else Uses(content[1..])
  {
    assert [] + Uses(content[1..]) == Uses(content[1..]);
  }

  lemma {:induction false} UsesAreIds(content: seq<Block>)
    ensures |UseIds(content)| == |Uses(content)|
    ensures forall k :: 0 <= k < |Uses(content)| ==> UseIds(content)[k] == Uses(content)[k].id
  {
    if content != [] {
      hide Uses, UseIds, KeysOf;
      var ids, uses := UseIds(content[1..]), Uses(content[1..]);
      UsesAreIds(content[1..]);
      UsesStep(content);
      UsesCons(content);
      if content[0].ToolUse? {
        forall k | 0 <= k < |Uses(content)| ensures UseIds(content)[k] == Uses(content)[k].id {
          assert k > 0 ==> UseIds(content)[k] == ids[k - 1] && Uses(content)[k] == uses[k - 1];
        }
      }
    }
  }

  lemma {:induction false} UsesAreKeys(content: seq<Block>)
    ensures KeysOf(content) == Keys(Uses(content))
  {
    if content != [] {
      hide Uses, UseIds, KeysOf, Keys;
      UsesAreKeys(content[1..]);
      UsesStep(content);
      UsesCons(content);
      if content[0].ToolUse? {
        KeysCons(content[0], Uses(content[1..]));
      }
    }
  }

  lemma KeysCons(use: Block, rest: seq<Block>)
    requires use.ToolUse? && forall k :: 0 <= k < |rest| ==> rest[k].ToolUse?
    ensures Keys([use] + rest) == [KeyOf(use)] + Keys(rest)
  {
  }

  /** `reply` asks for tools, and what it asks for does not reach the guard's limit. */
  ghost predicate Allowed(cfg: Config, t: Turn, content: seq<Block>) {
    cfg.guardLimit.Some? ==>
      forall key :: key in Keys(Uses(content)) ==>
        Tally(t.counts, key) + Count(Keys(Uses(content)), key) < cfg.guardLimit.value
  }

  // ---------- One pass ----------

  function End(cfg: Config, world: World, t: Turn): LlmResult {
    RoundTrip(cfg, world, t.iterations + 1, 0).0
  }

  /** Before anything else the pass counts the iteration and the calls its round trip took. */
  function Tried(cfg: Config, world: World, t: Turn): Turn {
    t.(iterations := t.iterations + 1, calls := t.calls + RoundTrip(cfg, world, t.iterations + 1, 0).1)
  }

  /** `b` is what the `k`-th call of the reply in iteration `i` came to. */
  predicate ResultOf(world: World, i: nat, use: Block, k: nat, b: Block) {
    use.ToolUse? && b == ToolResult(use.id, world.toolBody(i, k).0, world.toolBody(i, k).1)
  }

  /** The `k`-th call fails and has failed before in the turn, or fails twice in this reply. */
  ghost predicate FailsAgain(world: World, t: Turn, content: seq<Block>) {
    var i := t.iterations + 1;
    exists key :: key in FailedKeys(world, i, Uses(content))
      && Tally(t.failed, key) + Count(FailedKeys(world, i, Uses(content)), key) >= 2
  }

  function FailedKeys(world: World, i: nat, uses: seq<Block>): seq<Key>
    requires forall k :: 0 <= k < |uses| ==> uses[k].ToolUse?
  {
    if uses == [] then []
    else
      var n := |uses| - 1;
      FailedKeys(world, i, uses[..n]) + if world.toolBody(i, n).1 then [KeyOf(uses[n])] else []
  }

  lemma {:induction false} FailuresAppend(keys: seq<Key>, last: Key, body: nat -> (seq<Block>, bool), from: nat)
    ensures Failures(keys + [last], body, from)
         == Failures(keys, body, from) + if body(from + |keys|).1 then [last] else []
  {
    if keys == [] {
      assert keys + [last] == [last] && [last][1..] == [];
    } else {
      assert (keys + [last])[1..] == keys[1..] + [last] && (keys + [last])[0] == keys[0];
      FailuresAppend(keys[1..], last, body, from + 1);
      Glue(if body(from).1 then [keys[0]] else [], Failures(keys[1..], body, from + 1),
           if body(from + |keys|).1 then [last] else []);
    }
  }

  lemma {:induction false} FailuresAre(world: World, i: nat, uses: seq<Block>)
    requires forall k :: 0 <= k < |uses| ==> uses[k].ToolUse?
    ensures Failures(Keys(uses), BodyAt(world, i), 0) == FailedKeys(world, i, uses)
  {
    if uses != [] {
      var n := |uses| - 1;
      FailuresAre(world, i, uses[..n]);
      assert Keys(uses) == Keys(uses[..n]) + [KeyOf(uses[n])];
      FailuresAppend(Keys(uses[..n]), KeyOf(uses[n]), BodyAt(world, i), 0);
    }
  }

  /** Only a user's hint, or nothing. */
  predicate Hint(extra: seq<Message>) {
    |extra| == 1 && extra[0].role == User && |extra[0].content| == 1 && extra[0].content[0].Text?
  }

  /**
   * A reply that asks for tools, within the limit: the log grows by the reply and by a tool message with one result per
   * call, in order, each what the tool returned; exactly these calls are executed; the loop goes on.  If a call fails
   * for the second time in the turn, a hint follows.
   */
  lemma ToolsAreRun(cfg: Config, world: World, t: Turn, reply: Reply)
    requires t.iterations < cfg.maxIterations && End(cfg, world, t) == Answered(reply)
    requires reply.stop == CallsTools && Uses(reply.content) != [] && Allowed(cfg, t, reply.content)
    ensures var next, n, uses := Next(cfg, world, t), |t.log|, Uses(reply.content);
            && next.Again? && |next.turn.log| >= n + 2 && next.turn.log[..n] == t.log
            && next.turn.log[n].role == Assistant && next.turn.log[n].content == reply.content
            && next.turn.log[n + 1].role == Tool && |next.turn.log[n + 1].content| == |uses|
            && (forall k :: 0 <= k < |uses| ==>
                  ResultOf(world, t.iterations + 1, uses[k], k, next.turn.log[n + 1].content[k]))
            && next.turn.executed == t.executed + Keys(uses)
            && (cfg.guardLimit.Some? ==>
                  forall key :: Tally(next.turn.counts, key) == Tally(t.counts, key) + Count(Keys(uses), key))
            && next.turn.(log := t.log, executed := t.executed, counts := t.counts, failed := t.failed)
               == Tried(cfg, world, t)
            && (if cfg.failureFeedback && FailsAgain(world, t, reply.content) then Hint(next.turn.log[n + 2..])
                else |next.turn.log| == n + 2)
  {
    hide ToolRound, Recorded, KeysOf, UseIds, Failures, FailedKeys, RoundTrip, Healed, Keys, Allowed, FailsAgain;
    var content := reply.content;
    UsesAre(content);
    assert content != [];
    var t1 := Append(Tried(cfg, world, t), Assistant, content);
    GuardPasses(cfg, t, content);
    HintIsDue(world, t, content);
    RoundIs(cfg, world, t1, content);
    ResultsAre(world, t.iterations + 1, content);
  }

  lemma RoundIs(cfg: Config, world: World, t: Turn, content: seq<Block>)
    requires cfg.guardLimit.Some? ==> !Recorded(t.counts, KeysOf(content), cfg.guardLimit.value).0
    requires UseIds(content) != []
    ensures var body := BodyAt(world, t.iterations);
            var counts := if cfg.guardLimit.Some? then Recorded(t.counts, KeysOf(content), cfg.guardLimit.value).1
                          else t.counts;
            var t1 := Append(t.(counts := counts, executed := t.executed + KeysOf(content)),
                             Tool, ToolResults(UseIds(content), body));
            var (repeated, failed) := Recorded(t.failed, Failures(KeysOf(content), body, 0), 2);
            ToolRound(cfg, world, t, content)
            == if !cfg.failureFeedback then Again(t1)
               else if repeated then Again(Append(t1.(failed := failed), User, FAILURE_FEEDBACK))
               else Again(t1.(failed := failed))
  {
    hide Recorded, KeysOf, UseIds, Failures, ToolResults;
  }

  lemma ResultsAre(world: World, i: nat, content: seq<Block>)
    ensures var uses, results := Uses(content), ToolResults(UseIds(content), BodyAt(world, i));
            |results| == |uses| && forall k :: 0 <= k < |uses| ==> ResultOf(world, i, uses[k], k, results[k])
  {
    hide UseIds, Uses;
    UsesAre(content);
  }

  /** The guard lets a reply through exactly if it is within the limit, and counts it. */
  lemma GuardPasses(cfg: Config, t: Turn, content: seq<Block>)
    ensures cfg.guardLimit.Some? ==>
              var (tripped, counts) := Recorded(t.counts, KeysOf(content), cfg.guardLimit.value);
              && (tripped <==> !Allowed(cfg, t, content))
              && (!tripped ==>
                    forall key :: Tally(counts, key) == Tally(t.counts, key) + Count(Keys(Uses(content)), key))
  {
    hide Recorded, KeysOf, Keys, Uses;
    UsesAre(content);
    if cfg.guardLimit.Some? {
      var limit := cfg.guardLimit.value;
      RecordedTrips(t.counts, KeysOf(content), limit);
      if !Recorded(t.counts, KeysOf(content), limit).0 {
        forall key
          ensures Tally(Recorded(t.counts, KeysOf(content), limit).1, key)
               == Tally(t.counts, key) + Count(Keys(Uses(content)), key)
        {
          RecordedCounts(t.counts, KeysOf(content), limit, key);
        }
      }
    }
  }

  lemma HintIsDue(world: World, t: Turn, content: seq<Block>)
    ensures Recorded(t.failed, Failures(KeysOf(content), BodyAt(world, t.iterations + 1), 0), 2).0
       <==> FailsAgain(world, t, content)
  {
    hide Recorded, KeysOf, Keys, Uses, Failures, FailedKeys;
    UsesAre(content);
    FailuresAre(world, t.iterations + 1, Uses(content));
    RecordedTrips(t.failed, Failures(KeysOf(content), BodyAt(world, t.iterations + 1), 0), 2);
  }

  /** The log after the pass is the log before it and a message of `role` with this content. */
  predicate Says(before: Turn, after: Turn, role: Role, content: seq<Block>) {
    && |after.log| == |before.log| + 1 && after.log[..|before.log|] == before.log
    && after.log[|before.log|].role == role && after.log[|before.log|].content == content
  }

  /** The pass leaves nothing behind but one message, if `said`, the iteration and the calls made. */
  predicate Ends(before: Turn, after: Turn, tried: Turn) {
    after.(log := before.log) == tried
  }

  /** A reply that reaches the limit trips the guard before anything runs; its calls stay unanswered. */
  lemma GuardStops(cfg: Config, world: World, t: Turn, reply: Reply)
    requires t.iterations < cfg.maxIterations && End(cfg, world, t) == Answered(reply)
    requires reply.stop == CallsTools && Uses(reply.content) != [] && !Allowed(cfg, t, reply.content)
    ensures var next := Next(cfg, world, t);
            && next == Stop(next.turn, GuardTripped) && Says(t, next.turn, Assistant, reply.content)
            && Ends(t, next.turn.(counts := t.counts), Tried(cfg, world, t))
  {
    hide Recorded, KeysOf, UseIds, Failures, RoundTrip, CompactionCalls, Healed, Keys;
    UsesAre(reply.content);
    GuardPasses(cfg, t, reply.content);
    assert reply.content != [];
  }

  /** The output cap in force: the raised one, the configured one, or 4096. */
  function Cap(cfg: Config, t: Turn): nat {
    if t.cap.Some? then t.cap.value else if cfg.maxTokens.Some? then cfg.maxTokens.value else 4096
  }

  /** Twice the cap, up to the ceiling. */
  function Raised(cfg: Config, t: Turn): nat {
    if 2 * Cap(cfg, t) <= cfg.ceiling then 2 * Cap(cfg, t) else cfg.ceiling
  }

  predicate CanRaise(cfg: Config, t: Turn) {
    t.escalated < cfg.escalations && Raised(cfg, t) > Cap(cfg, t)
  }

  /**
   * Every other reply: an empty one ends the turn unsaid; one cut short without a call is asked for once more with a
   * doubled cap, as long as that can be raised; one that calls no tools, whatever its stop, and one that stops for any
   * other reason end the turn.
   */
  lemma OtherRepliesEnd(cfg: Config, world: World, t: Turn, reply: Reply)
    requires t.iterations < cfg.maxIterations && End(cfg, world, t) == Answered(reply)
    requires reply.stop == CallsTools ==> Uses(reply.content) == []
    ensures var next, tried := Next(cfg, world, t), Tried(cfg, world, t);
            if reply.content == [] then next == Stop(tried, Done)
            else
              && Says(t, next.turn, Assistant, reply.content)
              && if reply.stop == MaxTokens && Uses(reply.content) == [] && CanRaise(cfg, t) then
                   && next.Again? && next.turn.cap == Some(Raised(cfg, t))
                   && next.turn.escalated == t.escalated + 1
                   && Ends(t, next.turn.(cap := t.cap, escalated := t.escalated), tried)
                 else if reply.stop != CallsTools then
                   && next == Stop(next.turn, Done)
                   && next.turn.calls == tried.calls + (if world.finalCompaction then 1 else 0)
                   && Ends(t, next.turn.(calls := tried.calls), tried)
                 else next == Stop(next.turn, Done) && Ends(t, next.turn.(counts := t.counts), tried)
  {
    hide Failures, RoundTrip, CompactionCalls, Healed, Keys, Uses, UseIds, KeysOf, ToolRound;
    UsesAre(reply.content);
    if reply.stop == CallsTools {
      NoToolsToRun(cfg, world, Append(Tried(cfg, world, t), Assistant, reply.content), reply.content);
    }
  }

  lemma NoToolsToRun(cfg: Config, world: World, t: Turn, content: seq<Block>)
    requires Uses(content) == []
    ensures ToolRound(cfg, world, t, content) == Stop(t, Done)
  {
    hide Uses, UseIds, KeysOf, Failures;
    UsesAre(content);
    assert t.executed + [] == t.executed;
  }

  /** No more rows than one query returns. */
  function FirstRows(rows: seq<MessageId>): seq<MessageId> {
    if |rows| <= 2000 then rows else rows[..2000]
  }

  lemma PoolIs(world: World, i: nat)
    ensures Pool(world, i) == FirstRows(world.candidates(i))
  {
  }

  /**
   * A round trip without a reply: a request that is too long is tried again after a compaction, unless that fails; bad
   * tool arguments after telling the model; a filtered request after redacting a row, while a search that finds none
   * ends the turn with a notice.  Each only so many times; everything else fails the turn.
   */
  lemma FailuresAreRetried(cfg: Config, world: World, t: Turn)
    requires t.iterations < cfg.maxIterations && !End(cfg, world, t).Answered?
    ensures var next, tried, i := Next(cfg, world, t), Tried(cfg, world, t), t.iterations + 1;
            match End(cfg, world, t)
            case TooLong =>
              if t.tooLong >= cfg.compactRetries then next == Stop(tried, Error)
              else
                var spent := match world.compaction(i)
                  case Skipped => 0 case Summarised => 1 case CompactionFailed(called) => if called then 1 else 0;
                var after := tried.(tooLong := t.tooLong + 1, calls := tried.calls + spent);
                next == if world.compaction(i).CompactionFailed? then Stop(after, Error) else Again(after)
            case MalformedArgs =>
              if t.malformed >= cfg.malformedRetries then next == Stop(tried, Error)
              else
                && next.Again? && next.turn.malformed == t.malformed + 1 && Hint(next.turn.log[|t.log|..])
                && Says(t, next.turn, User, next.turn.log[|t.log|].content)
                && Ends(t, next.turn.(malformed := t.malformed), tried)
            case ContentFiltered =>
              if t.filtered >= cfg.filterRetries then next == Stop(tried, Error)
              else
                var (where, probes) := Search(FirstRows(world.candidates(i)), world.probe(i));
                && next.turn.filtered == t.filtered + 1
                && (match world.healingError(i)
                    case Some(n) =>
                      && next == Stop(next.turn, Error) && next.turn.log == t.log
                      && next.turn.calls == tried.calls + Min(n, probes)
                    case None =>
                      && next.turn.calls == tried.calls + probes
                      && if where.Redacted? then next.Again? && next.turn.log == t.log
                         else
                           && next == Stop(next.turn, Done)
                           && Says(t, next.turn, Assistant, next.turn.log[|t.log|].content)
                           && next.turn.log[|t.log|].content != [])
                && Ends(t, next.turn.(filtered := t.filtered, calls := tried.calls), tried)
            case Failed => next == Stop(tried, Error)
            case Answered(_) => true
  {
    hide RoundTrip, Search, Pool, FirstRows;
    PoolIs(world, t.iterations + 1);
  }

  // ---------- The whole turn ----------

  /** Where each tool message of a log comes from: it answers the calls right before it with what the tools returned. */
  ghost predicate ResultsFrom(log: seq<Message>, world: World, iterations: nat) {
    forall p :: 0 <= p < |log| && log[p].role == Tool ==>
      && p > 0 && log[p - 1].role == Assistant && |log[p].content| == |Uses(log[p - 1].content)|
      && exists i :: 0 < i <= iterations && AnswersWith(log, p, world, i)
  }

  predicate AnswersWith(log: seq<Message>, p: nat, world: World, i: nat)
    requires 0 < p < |log| && |log[p].content| == |Uses(log[p - 1].content)|
  {
    forall k :: 0 <= k < |log[p].content| ==> ResultOf(world, i, Uses(log[p - 1].content)[k], k, log[p].content[k])
  }

  /** The calls of the log that have a tool message behind them, in order. */
  function AnsweredCalls(log: seq<Message>): seq<Key> {
    if |log| < 2 then []
    else
      var n := |log| - 1;
      AnsweredCalls(log[..n])
      + if log[n].role == Tool && log[n - 1].role == Assistant then Keys(Uses(log[n - 1].content)) else []
  }

  /** What a turn has done is what its log says: results are real, and what was executed is what was answered. */
  ghost predicate Told(world: World, t: Turn) {
    t.log != [] && ResultsFrom(t.log, world, t.iterations) && t.executed == AnsweredCalls(t.log)
  }

  lemma ToldGrows(world: World, t: Turn, after: Turn)
    requires Told(world, t) && t.iterations <= after.iterations && after.executed == t.executed
    requires after.log == t.log || (|after.log| == |t.log| + 1 && after.log[..|t.log|] == t.log
                                    && after.log[|t.log|].role != Tool)
    ensures Told(world, after)
  {
    hide Uses, Keys, ResultOf;
    forall p | 0 <= p < |after.log| && after.log[p].role == Tool
      ensures && p > 0 && after.log[p - 1].role == Assistant
              && |after.log[p].content| == |Uses(after.log[p - 1].content)|
              && exists i :: 0 < i <= after.iterations && AnswersWith(after.log, p, world, i)
    {
      assert p < |t.log| && after.log[p] == t.log[p] && after.log[p - 1] == t.log[p - 1];
      var i :| 0 < i <= t.iterations && AnswersWith(t.log, p, world, i);
      assert AnswersWith(after.log, p, world, i);
    }
    assert AnsweredCalls(after.log) == AnsweredCalls(t.log) by {
      assert AnsweredCalls(t.log) + [] == AnsweredCalls(t.log);
    }
  }

  lemma ToldAnswers(world: World, t: Turn, after: Turn, content: seq<Block>, i: nat)
    requires Told(world, t) && t.iterations < i <= after.iterations
    requires var n := |t.log|;
             && |after.log| == n + 2 && after.log[..n] == t.log
             && after.log[n].role == Assistant && after.log[n].content == content
             && after.log[n + 1].role == Tool && |after.log[n + 1].content| == |Uses(content)|
             && (forall k :: 0 <= k < |Uses(content)| ==>
                   ResultOf(world, i, Uses(content)[k], k, after.log[n + 1].content[k]))
    requires after.executed == t.executed + Keys(Uses(content))
    ensures Told(world, after)
  {
    hide Uses, Keys, ResultOf;
    var n := |t.log|;
    var mid := t.(log := after.log[..n + 1], iterations := after.iterations);
    assert mid.log[..n] == t.log;
    ToldGrows(world, t, mid);
    AnswersMid(world, mid, after, content, i);
    assert after.log[..n + 1] == mid.log;
  }

  lemma AnswersMid(world: World, mid: Turn, after: Turn, content: seq<Block>, i: nat)
    requires Told(world, mid) && mid.iterations == after.iterations && 0 < i <= after.iterations
    requires var n := |mid.log|;
             && |after.log| == n + 1 && after.log[..n] == mid.log
             && mid.log[n - 1].role == Assistant && mid.log[n - 1].content == content
             && |after.log[n].content| == |Uses(content)|
             && (forall k :: 0 <= k < |Uses(content)| ==>
                   ResultOf(world, i, Uses(content)[k], k, after.log[n].content[k]))
    ensures ResultsFrom(after.log, world, after.iterations)
  {
    hide Uses, Keys, ResultOf, AnsweredCalls;
    var n := |mid.log|;
    assert AnswersWith(after.log, n, world, i);
    forall p | 0 <= p < |after.log| && after.log[p].role == Tool
      ensures && p > 0 && after.log[p - 1].role == Assistant
              && |after.log[p].content| == |Uses(after.log[p - 1].content)|
              && exists i :: 0 < i <= after.iterations && AnswersWith(after.log, p, world, i)
    {
      if p < n {
        assert mid.log[p] == after.log[p] && mid.log[p - 1] == after.log[p - 1];
        var j :| 0 < j <= mid.iterations && AnswersWith(mid.log, p, world, j);
        assert AnswersWith(after.log, p, world, j);
      }
    }
  }

  lemma NextTold(cfg: Config, world: World, t: Turn)
    requires t.iterations < cfg.maxIterations && Told(world, t)
    ensures Told(world, Next(cfg, world, t).turn)
  {
    hide Next, Told, Uses, Keys, RoundTrip, Search, CompactionCalls, Allowed, FailsAgain, CanRaise;
    var after := Next(cfg, world, t).turn;
    match End(cfg, world, t)
    case Answered(reply) =>
      if reply.stop == CallsTools && Uses(reply.content) != [] {
        if Allowed(cfg, t, reply.content) {
          ToolsAreRun(cfg, world, t, reply);
          var mid := after.(log := after.log[..|t.log| + 2]);
          assert mid.log[..|t.log|] == after.log[..|t.log|];
          ToldAnswers(world, t, mid, reply.content, t.iterations + 1);
          assert |after.log| == |mid.log| ==> after.log == mid.log;
          ToldGrows(world, mid, after);
        } else {
          GuardStops(cfg, world, t, reply);
          ToldGrows(world, t, after);
        }
      } else {
        OtherRepliesEnd(cfg, world, t, reply);
        ToldGrows(world, t, after);
      }
    case _ =>
      FailuresAreRetried(cfg, world, t);
      ToldGrows(world, t, after);
  }

  /** The guard counts what was executed. */
  ghost predicate Counted(cfg: Config, t: Turn) {
    cfg.guardLimit.Some? ==> forall key :: Tally(t.counts, key) == Count(t.executed, key)
  }

  lemma NextCounted(cfg: Config, world: World, t: Turn)
    requires t.iterations < cfg.maxIterations && Counted(cfg, t) && Next(cfg, world, t).Again?
    ensures Counted(cfg, Next(cfg, world, t).turn)
  {
    hide Next, Uses, Keys, RoundTrip, Search, CompactionCalls, Allowed, FailsAgain, CanRaise;
    match End(cfg, world, t)
    case Answered(reply) =>
      if reply.stop == CallsTools && Uses(reply.content) != [] {
        if Allowed(cfg, t, reply.content) {
          ToolsAreRun(cfg, world, t, reply);
          forall key
            ensures Count(t.executed + Keys(Uses(reply.content)), key)
                 == Count(t.executed, key) + Count(Keys(Uses(reply.content)), key)
          {
            CountAppend(t.executed, Keys(Uses(reply.content)), key);
          }
        } else {
          GuardStops(cfg, world, t, reply);
        }
      } else {
        OtherRepliesEnd(cfg, world, t, reply);
      }
    case _ => FailuresAreRetried(cfg, world, t);
  }

  /** The pass from `last` is the one that ended the turn. */
  ghost predicate EndsAs(cfg: Config, world: World, last: Turn, t: Turn, outcome: Outcome) {
    last.iterations < cfg.maxIterations && t.iterations == last.iterations + 1
    && Next(cfg, world, last) == Stop(t, outcome) && Counted(cfg, last) && Told(world, last)
  }

  lemma {:induction false} RunEnds(cfg: Config, world: World, t: Turn) returns (last: Turn)
    requires t.iterations <= cfg.maxIterations && Told(world, t) && Counted(cfg, t)
    ensures var (end, outcome) := Run(cfg, world, t);
            && Told(world, end)
            && if outcome == IterationsExceeded then end.iterations == cfg.maxIterations
               else EndsAs(cfg, world, last, end, outcome)
    decreases cfg.maxIterations - t.iterations
  {
    hide Next, Told, Counted;
    last := t;
    if t.iterations < cfg.maxIterations {
      NextAdvances(cfg, world, t);
      NextTold(cfg, world, t);
      match Next(cfg, world, t)
      case Again(t') =>
        NextCounted(cfg, world, t);
        last := RunEnds(cfg, world, t');
      case Stop(_, _) => NeverExceeds(cfg, world, t);
    }
  }

  lemma NeverExceeds(cfg: Config, world: World, t: Turn)
    requires t.iterations < cfg.maxIterations && Next(cfg, world, t).Stop?
    ensures Next(cfg, world, t).outcome != IterationsExceeded
  {
  }

  /** Iteration `i` ended with this reply, and the log ends with it. */
  predicate LastReply(cfg: Config, world: World, t: Turn, reply: Reply) {
    && RoundTrip(cfg, world, t.iterations, 0).0 == Answered(reply)
    && t.log != [] && t.log[|t.log| - 1].role == Assistant && t.log[|t.log| - 1].content == reply.content
  }

  /** With the calls of this reply some call would be executed as often as the limit. */
  ghost predicate Exceeds(cfg: Config, t: Turn, content: seq<Block>) {
    && cfg.guardLimit.Some?
    && (exists key ::
          key in Keys(Uses(content))
          && Count(t.executed, key) + Count(Keys(Uses(content)), key) >= cfg.guardLimit.value)
  }

  /**
   * What a whole turn comes to, against any world.  Every tool message of its log answers the calls right before it
   * with what the tools returned, and what was executed is what was answered.  The turn is done after an empty reply,
   * after one that calls no tools or does not stop for them, or after a filtered request in which nothing can be
   * redacted; so a call is left pending only if the last reply did not stop for tools, or the guard tripped.  The guard
   * trips on a reply that would reach its limit.  The turn fails only on a round trip without a reply.
   */
  lemma TurnTells(cfg: Config, world: World, userText: string)
    ensures var (t, outcome) := Run(cfg, world, Start(userText));
            && ResultsFrom(t.log, world, t.iterations) && t.executed == AnsweredCalls(t.log)
            && match outcome
               case IterationsExceeded => t.iterations == cfg.maxIterations
               case Error => !RoundTrip(cfg, world, t.iterations, 0).0.Answered?
               case GuardTripped =>
                 exists reply :: LastReply(cfg, world, t, reply) && reply.stop == CallsTools
                                 && Uses(reply.content) != [] && Exceeds(cfg, t, reply.content)
               case Done =>
                 || RoundTrip(cfg, world, t.iterations, 0).0 == ContentFiltered
                 || (exists reply :: RoundTrip(cfg, world, t.iterations, 0).0 == Answered(reply) && reply.content == [])
                 || (exists reply :: LastReply(cfg, world, t, reply)
                                     && (reply.stop == CallsTools ==> Uses(reply.content) == []))
  {
    hide Next, Uses, Keys, RoundTrip, Search, CompactionCalls, FailsAgain, CanRaise;
    var start := Start(userText);
    NothingTold(cfg, world, userText);
    var last := RunEnds(cfg, world, start);
    var (t, outcome) := Run(cfg, world, start);
    if outcome != IterationsExceeded {
      match End(cfg, world, last)
      case Answered(reply) =>
        if reply.stop == CallsTools && Uses(reply.content) != [] {
          if Allowed(cfg, last, reply.content) {
            ToolsAreRun(cfg, world, last, reply);
          } else {
            GuardStops(cfg, world, last, reply);
            assert LastReply(cfg, world, t, reply) && Exceeds(cfg, t, reply.content);
          }
        } else {
          OtherRepliesEnd(cfg, world, last, reply);
          assert reply.content != [] ==> LastReply(cfg, world, t, reply);
        }
      case _ => FailuresAreRetried(cfg, world, last);
    }
  }

  lemma NothingTold(cfg: Config, world: World, userText: string)
    ensures Told(world, Start(userText)) && Counted(cfg, Start(userText))
  {
  }
}
