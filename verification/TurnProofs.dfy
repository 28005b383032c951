/** What every run of the turn loop keeps, whatever the world does. */
module TurnProofs {
  import opened Prelude
  import opened Messages
  import opened LoopGuard
  import opened PairingProofs
  import opened Pairing
  import opened Poison
  import opened Threads
  import opened TurnLoop

  // ---------- The log ----------

  /** Message `i` calls no tools, or is the last one, or is followed by one result per call in the same order. */
  predicate CallAnsweredAt(log: seq<Message>, i: nat)
    requires i < |log|
  {
    Calls(log[i]) != [] && i + 1 < |log| ==>
      && IsTool(log[i + 1])
      && ResultIds(log[i + 1].content) == Calls(log[i])
      && |log[i + 1].content| == |Calls(log[i])|
  }

  predicate LogOk(log: seq<Message>) {
    && log != [] && log[0].role == User
    && forall i :: 0 <= i < |log| ==>
         && (log[i].role == Assistant ==> log[i].content != [])
         && CallAnsweredAt(log, i)
         && AttachedAt(log, i, false)
  }

  /** No call is waiting for its results. */
  predicate NothingPending(log: seq<Message>) {
    log != [] && Calls(log[|log| - 1]) == []
  }

  lemma AppendOk(log: seq<Message>, m: Message)
    requires LogOk(log) && (m.role == Assistant ==> m.content != [])
    requires var calls := Calls(log[|log| - 1]);
             if calls == [] then !IsTool(m)
             else IsTool(m) && ResultIds(m.content) == calls && |m.content| == |calls|
    ensures LogOk(log + [m])
  {
    var more := log + [m];
    forall i | 0 <= i < |more|
      ensures more[i].role == Assistant ==> more[i].content != []
      ensures CallAnsweredAt(more, i) && AttachedAt(more, i, false)
    {
      if i < |log| {
        assert CallAnsweredAt(log, i) && AttachedAt(log, i, false);
      }
    }
  }

  /** Speaking, for a user or an assistant, when nothing is pending. */
  lemma SpeakOk(t: Turn, role: Role, content: seq<Block>)
    requires LogOk(t.log) && NothingPending(t.log) && content != [] && role != Tool
    ensures var log := Append(t, role, content).log;
            LogOk(log) && |log| == |t.log| + 1
            && Calls(log[|log| - 1]) == if role == Assistant then UseIds(content) else []
  {
    AppendOk(t.log, Entry(t.log, role, content));
  }

  lemma {:induction false} IdsOfResults(ids: seq<string>, blocks: seq<Block>)
    requires |blocks| == |ids|
    requires forall k :: 0 <= k < |ids| ==> blocks[k].ToolResult? && blocks[k].toolUseId == ids[k]
    ensures ResultIds(blocks) == ids
  {
    if ids != [] {
      IdsOfResults(ids[1..], blocks[1..]);
    }
  }

  lemma ToolResultIds(ids: seq<string>, body: nat -> (seq<Block>, bool))
    ensures ResultIds(ToolResults(ids, body)) == ids && |ToolResults(ids, body)| == |ids|
  {
    hide ResultIds;
    IdsOfResults(ids, ToolResults(ids, body));
  }

  lemma AnswerOk(t: Turn, body: nat -> (seq<Block>, bool))
    requires LogOk(t.log) && !NothingPending(t.log)
    ensures var log := Append(t, Tool, ToolResults(Calls(t.log[|t.log| - 1]), body)).log;
            LogOk(log) && NothingPending(log) && |log| == |t.log| + 1
  {
    LogIsNotEmpty(t.log);
    hide LogOk, Calls, ResultIds, ToolResults, NothingPending;
    var ids := Calls(t.log[|t.log| - 1]);
    var reply := Entry(t.log, Tool, ToolResults(ids, body));
    ToolResultIds(ids, body);
    PendingAtEnd(t.log);
    AppendOk(t.log, reply);
    ToolsCallNothing(reply);
    PendingAtEnd(t.log + [reply]);
  }

  lemma LogIsNotEmpty(log: seq<Message>)
    requires LogOk(log)
    ensures log != []
  {
  }

  lemma PendingAtEnd(log: seq<Message>)
    requires log != []
    ensures NothingPending(log) <==> Calls(log[|log| - 1]) == []
  {
  }

  // ---------- Bounds ----------

  function Doubled(n: nat, k: nat): nat {
    if k == 0 then n else 2 * Doubled(n, k - 1)
  }

  /** The output cap after `k` escalations; none before the first. */
  function CapAfter(cfg: Config, k: nat): Option<nat> {
    if k == 0 then None else Some(Min(Doubled(StartCap(cfg), k), cfg.ceiling))
  }

  function RoundTrips(cfg: Config, iterations: nat): nat {
    iterations * (cfg.streamRetries + 2)
  }

  /** The bound on the LLM calls of one turn. */
  function WorkBound(cfg: Config): nat {
    RoundTrips(cfg, cfg.maxIterations) + cfg.compactRetries + 1 + 23 * cfg.filterRetries
  }

  lemma ProductMonotone(a: nat, b: nat, c: nat)
    requires a <= b
    ensures a * c <= b * c
  {
  }

  lemma MoreRoundTrips(cfg: Config, n: nat)
    requires n < cfg.maxIterations
    ensures RoundTrips(cfg, n + 1) == RoundTrips(cfg, n) + cfg.streamRetries + 2 <= RoundTrips(cfg, cfg.maxIterations)
  {
    var c := cfg.streamRetries + 2;
    ProductMonotone(n + 1, cfg.maxIterations, c);
    assert (n + 1) * c == n * c + c;
  }

  /** The pass after the stream executed no tool call as often as the guard's limit. */
  ghost predicate WithinLimit(cfg: Config, t: Turn) {
    cfg.guardLimit.Some? ==>
      forall key :: Count(t.executed, key) <= SaturatingSub(cfg.guardLimit.value, 1)
  }

  ghost predicate Tallied(cfg: Config, t: Turn) {
    cfg.guardLimit.Some? ==> forall key :: Count(t.executed, key) == Tally(t.counts, key)
  }

  /** What holds when the loop is at its head. */
  ghost predicate Inv(cfg: Config, t: Turn) {
    && LogOk(t.log) && NothingPending(t.log) && |t.log| <= 1 + 3 * t.iterations
    && t.iterations <= cfg.maxIterations
    && t.tooLong <= cfg.compactRetries && t.filtered <= cfg.filterRetries && t.malformed <= cfg.malformedRetries
    && t.calls <= RoundTrips(cfg, t.iterations) + t.tooLong + 23 * t.filtered
    && t.escalated <= cfg.escalations && t.cap == CapAfter(cfg, t.escalated)
    && Tallied(cfg, t) && WithinLimit(cfg, t)
  }

  /** What holds of every turn that has ended. */
  ghost predicate Ended(cfg: Config, t: Turn) {
    && LogOk(t.log) && |t.log| <= 1 + 3 * cfg.maxIterations
    && t.calls <= WorkBound(cfg)
    && t.escalated <= cfg.escalations && t.cap == CapAfter(cfg, t.escalated)
    && WithinLimit(cfg, t)
  }

  /** A search for poison takes at most 23 probes, whatever they answer. */
  lemma HealingBound(world: World, iteration: nat)
    ensures Healed(world, iteration).1 <= 23
  {
    SearchBound(Pool(world, iteration), world.probe(iteration));
  }

  /** Inside an iteration: a reply with calls may be pending, and the log has room for the rest of the round. */
  ghost predicate Mid(cfg: Config, t: Turn, pending: bool) {
    && LogOk(t.log) && NothingPending(t.log) == !pending && |t.log| <= 3 * t.iterations - 1
    && 0 < t.iterations <= cfg.maxIterations
    && t.tooLong <= cfg.compactRetries && t.filtered <= cfg.filterRetries && t.malformed <= cfg.malformedRetries
    && t.calls <= RoundTrips(cfg, t.iterations) + t.tooLong + 23 * t.filtered
    && RoundTrips(cfg, t.iterations) <= RoundTrips(cfg, cfg.maxIterations)
    && t.escalated <= cfg.escalations && t.cap == CapAfter(cfg, t.escalated)
    && Tallied(cfg, t) && WithinLimit(cfg, t)
  }

  ghost predicate StepOk(cfg: Config, step: Step) {
    match step
    case Again(t) => Inv(cfg, t)
    case Stop(t, _) => Ended(cfg, t)
  }

  lemma GuardKeeps(cfg: Config, t: Turn, keys: seq<Key>, limit: nat)
    requires cfg.guardLimit == Some(limit) && Tallied(cfg, t) && WithinLimit(cfg, t)
    requires !Recorded(t.counts, keys, limit).0
    ensures var t' := t.(counts := Recorded(t.counts, keys, limit).1, executed := t.executed + keys);
            Tallied(cfg, t') && WithinLimit(cfg, t')
  {
    hide Recorded;
    forall key
      ensures Count(t.executed + keys, key) == Tally(Recorded(t.counts, keys, limit).1, key)
      ensures Count(t.executed + keys, key) <= SaturatingSub(limit, 1)
    {
      CountAppend(t.executed, keys, key);
      CountPositive(keys, key);
      RecordedCounts(t.counts, keys, limit, key);
      assert Count(t.executed, key) == Tally(t.counts, key);
    }
  }

  lemma ToolRoundKeeps(cfg: Config, world: World, t: Turn, content: seq<Block>)
    requires Mid(cfg, t, UseIds(content) != []) && Calls(t.log[|t.log| - 1]) == UseIds(content)
    ensures StepOk(cfg, ToolRound(cfg, world, t, content))
  {
    hide LogOk, Calls, Recorded, RoundTrips, KeysOf, UseIds, ResultIds, CapAfter, ToolResults, Failures;
    var keys := KeysOf(content);
    var step := ToolRound(cfg, world, t, content);
    var r := match cfg.guardLimit case None => (false, t.counts) case Some(limit) => Recorded(t.counts, keys, limit);
    if r.0 {
      assert step.turn == t.(counts := r.1);
    } else {
      var t1 := t.(counts := r.1, executed := t.executed + keys);
      assert Tallied(cfg, t1) && WithinLimit(cfg, t1) by {
        if cfg.guardLimit.Some? {
          GuardKeeps(cfg, t, keys, cfg.guardLimit.value);
        }
      }
      if UseIds(content) != [] {
        AnswerOk(t1, BodyAt(world, t1.iterations));
        var t2 := Append(t1, Tool, ToolResults(UseIds(content), BodyAt(world, t1.iterations)));
        if cfg.failureFeedback {
          SpeakOk(t2, User, FAILURE_FEEDBACK);
        }
      }
    }
  }

  lemma ReplyKeeps(cfg: Config, world: World, t: Turn, reply: Reply)
    requires Mid(cfg, t, UseIds(reply.content) != []) && Calls(t.log[|t.log| - 1]) == UseIds(reply.content)
    ensures StepOk(cfg, AfterReply(cfg, world, t, reply))
  {
    hide LogOk, Calls, ToolRound, RoundTrips, UseIds, Tallied, WithinLimit;
    ToolRoundKeeps(cfg, world, t, reply.content);
    match AfterReply(cfg, world, t, reply)
    case Again(t') => SameCounts(cfg, t, t.(escalated := t.escalated + 1, cap := t'.cap));
    case Stop(t', _) => SameCounts(cfg, t, t.(calls := t'.calls));
    CapDoubles(cfg, t);
  }

  lemma CapDoubles(cfg: Config, t: Turn)
    requires t.cap == CapAfter(cfg, t.escalated)
    ensures Min(2 * CapNow(cfg, t), cfg.ceiling) > CapNow(cfg, t) ==>
              CapAfter(cfg, t.escalated + 1) == Some(Min(2 * CapNow(cfg, t), cfg.ceiling))
  {
    var start, k := StartCap(cfg), t.escalated;
    assert Doubled(start, k + 1) == 2 * Doubled(start, k);
    assert CapNow(cfg, t) == if k == 0 then Doubled(start, 0) else Min(Doubled(start, k), cfg.ceiling);
  }

  /** The counters after the round trip of iteration `t.iterations + 1`, which leave room in the bounds. */
  ghost predicate Entered(cfg: Config, t: Turn, t1: Turn) {
    && t1 == t.(iterations := t.iterations + 1, calls := t1.calls) && t1.iterations <= cfg.maxIterations
    && t1.calls <= RoundTrips(cfg, t1.iterations) + t.tooLong + 23 * t.filtered
    && RoundTrips(cfg, t1.iterations) <= RoundTrips(cfg, cfg.maxIterations)
  }

  lemma EndsHere(cfg: Config, t: Turn, t1: Turn)
    requires Inv(cfg, t) && Entered(cfg, t, t1)
    ensures Ended(cfg, t1)
  {
    hide LogOk, RoundTrips, CapAfter, UseIds, Tallied, WithinLimit;
    SameCounts(cfg, t, t1);
  }

  lemma TooLongKeeps(cfg: Config, t: Turn, t1: Turn, c: Compaction)
    requires Inv(cfg, t) && Entered(cfg, t, t1) && t.tooLong < cfg.compactRetries
    ensures var t2 := t1.(tooLong := t.tooLong + 1, calls := t1.calls + CompactionCalls(c));
            Inv(cfg, t2) && Ended(cfg, t2)
  {
    hide LogOk, RoundTrips, CapAfter, UseIds, Tallied, WithinLimit;
    SameCounts(cfg, t, t1.(tooLong := t.tooLong + 1, calls := t1.calls + CompactionCalls(c)));
  }

  lemma MalformedKeeps(cfg: Config, t: Turn, t1: Turn)
    requires Inv(cfg, t) && Entered(cfg, t, t1) && t.malformed < cfg.malformedRetries
    ensures Inv(cfg, Append(t1.(malformed := t.malformed + 1), User, MALFORMED_FEEDBACK))
  {
    hide LogOk, NothingPending, RoundTrips, CapAfter, UseIds, Tallied, WithinLimit;
    var t2 := t1.(malformed := t.malformed + 1);
    var t3 := Append(t2, User, MALFORMED_FEEDBACK);
    SpeakOk(t2, User, MALFORMED_FEEDBACK);
    PendingAtEnd(t3.log);
    SameCounts(cfg, t, t3);
  }

  lemma FilteredKeeps(cfg: Config, t: Turn, t1: Turn, probes: nat)
    requires Inv(cfg, t) && Entered(cfg, t, t1) && t.filtered < cfg.filterRetries && probes <= 23
    ensures var t2 := t1.(filtered := t.filtered + 1, calls := t1.calls + probes);
            Inv(cfg, t2) && Ended(cfg, t2) && Ended(cfg, Append(t2, Assistant, POLICY_NOTICE))
  {
    hide LogOk, NothingPending, RoundTrips, CapAfter, UseIds, Tallied, WithinLimit;
    var t2 := t1.(filtered := t.filtered + 1, calls := t1.calls + probes);
    SpeakOk(t2, Assistant, POLICY_NOTICE);
    SameCounts(cfg, t, t2);
    SameCounts(cfg, t, Append(t2, Assistant, POLICY_NOTICE));
  }

  lemma AnsweredKeeps(cfg: Config, world: World, t: Turn, t1: Turn, reply: Reply)
    requires Inv(cfg, t) && Entered(cfg, t, t1) && reply.content != []
    ensures StepOk(cfg, AfterReply(cfg, world, Append(t1, Assistant, reply.content), reply))
  {
    hide LogOk, NothingPending, AfterReply, RoundTrips, CapAfter, UseIds, Tallied, WithinLimit;
    var t2 := Append(t1, Assistant, reply.content);
    SpeakOk(t1, Assistant, reply.content);
    PendingAtEnd(t2.log);
    SameCounts(cfg, t, t2);
    ReplyKeeps(cfg, world, t2, reply);
  }

  lemma RoundTripFits(cfg: Config, world: World, t: Turn)
    requires Inv(cfg, t) && t.iterations < cfg.maxIterations
    ensures Entered(cfg, t, t.(iterations := t.iterations + 1,
                               calls := t.calls + RoundTrip(cfg, world, t.iterations + 1, 0).1))
  {
    hide LogOk, RoundTrips, CapAfter, Tallied, WithinLimit, RoundTrip;
    MoreRoundTrips(cfg, t.iterations);
  }

  /** One pass through the loop keeps the invariant, or ends the turn in good order. */
  lemma NextKeeps(cfg: Config, world: World, t: Turn)
    requires Inv(cfg, t) && t.iterations < cfg.maxIterations
    ensures StepOk(cfg, Next(cfg, world, t))
  {
    hide Inv, Ended, Entered, AfterReply, RoundTrip, Healed, CompactionCalls;
    var i := t.iterations + 1;
    var (end, used) := RoundTrip(cfg, world, i, 0);
    var t1 := t.(iterations := i, calls := t.calls + used);
    RoundTripFits(cfg, world, t);
    EndsHere(cfg, t, t1);
    match end
    case TooLong =>
      if t.tooLong < cfg.compactRetries {
        TooLongKeeps(cfg, t, t1, world.compaction(i));
      }
    case MalformedArgs =>
      if t.malformed < cfg.malformedRetries {
        MalformedKeeps(cfg, t, t1);
      }
    case ContentFiltered =>
      if t.filtered < cfg.filterRetries {
        HealingBound(world, i);
        FilteredKeeps(cfg, t, t1, Healed(world, i).1);
      }
    case Failed =>
    case Answered(reply) =>
      if reply.content != [] {
        AnsweredKeeps(cfg, world, t, t1, reply);
      }
  }

  lemma SameCounts(cfg: Config, a: Turn, b: Turn)
    requires Tallied(cfg, a) && WithinLimit(cfg, a) && b.counts == a.counts && b.executed == a.executed
    ensures Tallied(cfg, b) && WithinLimit(cfg, b)
  {
  }

  lemma {:induction false} RunKeeps(cfg: Config, world: World, t: Turn)
    requires Inv(cfg, t)
    ensures Ended(cfg, Run(cfg, world, t).0)
    decreases cfg.maxIterations - t.iterations
  {
    hide Next, LogOk, Tallied, WithinLimit, CapAfter, RoundTrips;
    if t.iterations < cfg.maxIterations {
      NextAdvances(cfg, world, t);
      NextKeeps(cfg, world, t);
      match Next(cfg, world, t)
      case Again(t') => RunKeeps(cfg, world, t');
      case Stop(_, _) =>
    }
  }

  /**
   * Every run, whatever the model, the tools and the provider do: the log keeps its form, LLM calls stay within
   * the bound, the output cap doubles up to its ceiling, and the pass after the stream executes no tool call as often as
   * the limit.
   */
  lemma EveryTurnEndsWell(cfg: Config, world: World, userText: string)
    ensures Ended(cfg, Run(cfg, world, Start(userText)).0)
  {
    RunKeeps(cfg, world, Start(userText));
  }

  // ---------- What the log is good for ----------

  /** A turn that is cut off between two appends leaves a log of the same form. */
  lemma LogOkPrefix(log: seq<Message>, n: nat)
    requires LogOk(log) && 0 < n <= |log|
    ensures LogOk(log[..n])
  {
    forall i | 0 <= i < n
      ensures log[..n][i].role == Assistant ==> log[..n][i].content != []
      ensures CallAnsweredAt(log[..n], i) && AttachedAt(log[..n], i, false)
    {
      assert CallAnsweredAt(log, i) && AttachedAt(log, i, false);
    }
  }

  /** A log without a pending call is a well-formed history; with distinct ids the pairing gate leaves it alone. */
  lemma LogNeedsNoRepair(log: seq<Message>)
    requires LogOk(log) && NothingPending(log)
    ensures WireValid(log)
    ensures AnsweredOnce(log) ==> Gate(log) == log
  {
    forall i | 0 <= i < |log| ensures AnsweredAt(log, i) && AttachedAt(log, i, false) {
      assert CallAnsweredAt(log, i) && AttachedAt(log, i, false);
    }
    if AnsweredOnce(log) {
      GateKeepsValid(log);
    }
  }

  // ---------- Several turns ----------

  function Joined(logs: seq<seq<Message>>): seq<Message> {
    if logs == [] then [] else logs[0] + Joined(logs[1..])
  }

  function ClosedLogs(logs: seq<seq<Message>>): seq<seq<Message>> {
    seq(|logs|, i requires 0 <= i < |logs| => Closed(logs[i]))
  }

  /** No id is called twice. */
  predicate UniqueCalls(ms: seq<Message>) {
    && (forall i :: 0 <= i < |ms| ==> NoDuplicates(Calls(ms[i])))
    && forall i, j :: 0 <= i < j < |ms| ==> SetOf(Calls(ms[i])) !! SetOf(Calls(ms[j]))
  }

  /** Tool messages stand behind a call and answer it in order. */
  predicate RepliesInOrder(ms: seq<Message>) {
    forall i :: 0 <= i < |ms| && IsTool(ms[i]) ==>
      i > 0 && Calls(ms[i - 1]) != [] && ResultIds(ms[i].content) == Calls(ms[i - 1])
  }

  lemma LogReplies(log: seq<Message>)
    requires LogOk(log)
    ensures RepliesInOrder(log) && forall i :: OpenAt(log, i) ==> i + 1 == |log|
  {
    hide Calls, ResultIds;
    forall i | 0 <= i < |log| && IsTool(log[i])
      ensures i > 0 && Calls(log[i - 1]) != [] && ResultIds(log[i].content) == Calls(log[i - 1])
    {
      assert AttachedAt(log, i, false);
      assert CallAnsweredAt(log, i - 1);
    }
    forall i | OpenAt(log, i) ensures i + 1 == |log| {
      assert CallAnsweredAt(log, i);
    }
  }

  lemma RepliesAppend(a: seq<Message>, b: seq<Message>)
    requires RepliesInOrder(a) && RepliesInOrder(b)
    ensures RepliesInOrder(a + b)
  {
    hide Calls, ResultIds;
    var all := a + b;
    forall i | 0 <= i < |all| && IsTool(all[i])
      ensures i > 0 && Calls(all[i - 1]) != [] && ResultIds(all[i].content) == Calls(all[i - 1])
    {
      if i >= |a| {
        assert IsTool(b[i - |a|]);
        assert all[i - 1] == b[i - |a| - 1];
      }
    }
  }

  lemma RepliesMakeThread(ms: seq<Message>)
    requires RepliesInOrder(ms) && UniqueCalls(ms)
    ensures Thread(ms)
  {
    hide Calls, ResultIds, NoDuplicates;
    forall i | 0 <= i < |ms| ensures PlacedAt(ms, i) && NewAt(ms, i) {
    }
  }

  lemma {:induction false} LogsFilled(logs: seq<seq<Message>>)
    requires forall i :: 0 <= i < |logs| ==> LogOk(logs[i])
    ensures RepliesInOrder(Joined(logs)) && (Joined(logs) != [] ==> !IsTool(Joined(logs)[0]))
    ensures Filled(Joined(logs)) == Joined(ClosedLogs(logs))
  {
    hide Filled, Closed, Calls, ResultIds;
    if logs == [] {
      FilledStep([]);
    } else {
      var log, rest := logs[0], logs[1..];
      LogsFilled(rest);
      LogReplies(log);
      RepliesAppend(log, Joined(rest));
      FilledAppend(log, Joined(rest));
      FilledAtEnd(log);
      assert ClosedLogs(logs) == [Closed(log)] + ClosedLogs(rest);
    }
  }

  /**
   * A thread of any number of turns, however each of them ended: with distinct call ids the pairing gate gives
   * synthetic errors to exactly the calls that end a turn, and changes nothing else.
   */
  lemma TurnsAreClosed(logs: seq<seq<Message>>)
    requires (forall i :: 0 <= i < |logs| ==> LogOk(logs[i])) && UniqueCalls(Joined(logs))
    ensures Thread(Joined(logs)) && Gate(Joined(logs)) == Joined(ClosedLogs(logs))
  {
    hide LogOk, Thread, Filled, UniqueCalls, Gate, RepliesInOrder, Joined, ClosedLogs;
    LogsFilled(logs);
    RepliesMakeThread(Joined(logs));
    GateFills(Joined(logs));
  }
}
