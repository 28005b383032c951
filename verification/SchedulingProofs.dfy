/** When eager reads and parallel segments refine plain left-to-right execution: exactly. */
module SchedulingProofs {
  import opened Prelude
  import opened Scheduling

  /** The call cannot change the state: its tool is read-only, or there is none. */
  predicate Harmless(tools: Tools, c: Call) {
    c.name in tools ==> tools[c.name].readOnly
  }

  /** If the result of the `k`-th call to stop is handed to call `i`, it is the same call, and no write precedes it. */
  predicate SafeEntry(tools: Tools, calls: seq<Call>, stopped: seq<Call>, k: nat, i: nat)
    requires k < |stopped| && i < |calls|
  {
    BeforeBarrier(tools, stopped, k) && FirstWithId(calls, i)
    && calls[i].id == stopped[k].id && calls[i].name in tools ==>
      stopped[k] == calls[i] && forall q :: 0 <= q < i ==> Harmless(tools, calls[q])
  }

  /** A condition on the message, the order in which its blocks stop, and what the registry says of the tools. */
  predicate Safe(tools: Tools, calls: seq<Call>, stopped: seq<Call>) {
    forall k, i :: 0 <= k < |stopped| && 0 <= i < |calls| ==> SafeEntry(tools, calls, stopped, k, i)
  }

  // ---------- Safe orders refine left-to-right execution ----------

  lemma {:induction false} HarmlessKeepState<S(!new), R>(w: World<S, R>, calls: seq<Call>, s: S)
    requires WellBehaved(w) && forall q :: 0 <= q < |calls| ==> Harmless(w.tools, calls[q])
    ensures StateAfter(w, calls, s) == s
  {
    if calls != [] {
      HarmlessKeepState(w, calls[..|calls| - 1], s);
      assert Harmless(w.tools, calls[|calls| - 1]);
      assert calls[|calls| - 1].name in w.tools ==> ReadOnly(w.tools, calls[|calls| - 1]);
    }
  }

  /** A cached result is that of a call before the barrier, on the state before the message. */
  lemma {:induction false} CacheEntry<S, R>(
      w: World<S, R>, stopped: seq<Call>, ready: Call -> bool, s: S, id: string) returns (k: nat)
    requires id in Prerun(w, stopped, ready, s)
    ensures k < |stopped| && BeforeBarrier(w.tools, stopped, k) && stopped[k].id == id
    ensures Prerun(w, stopped, ready, s)[id] == w.execute(stopped[k], s).0
  {
    var n := |stopped| - 1;
    if BeforeBarrier(w.tools, stopped, n) && ready(stopped[n]) && stopped[n].id == id {
      k := n;
    } else {
      k := CacheEntry(w, stopped[..n], ready, s, id);
      assert forall j :: 0 <= j <= k ==> stopped[..n][j] == stopped[j];
    }
  }

  function PassPlan<S, R>(w: World<S, R>, calls: seq<Call>, stopped: seq<Call>, ready: Call -> bool, s: S)
      : (plan: seq<Pending<R>>)
    ensures |plan| == |calls|
  {
    Plan(w, calls, Prerun(w, stopped, ready, s))
  }

  lemma EntryIsSequential<S(!new), R>(
      w: World<S, R>, calls: seq<Call>, stopped: seq<Call>, ready: Call -> bool, s: S, i: nat, now: S)
    requires WellBehaved(w) && Safe(w.tools, calls, stopped) && i < |calls| && now == StateAfter(w, calls[..i], s)
    ensures RunPending(w, PassPlan(w, calls, stopped, ready, s)[i], now) == RunCall(w, calls[i], now)
  {
    hide Prerun;
    var c, p := calls[i], PassPlan(w, calls, stopped, ready, s)[i];
    if p.prebuilt.Some? && c.name in w.tools {
      var k := CacheEntry(w, stopped, ready, s, c.id);
      assert SafeEntry(w.tools, calls, stopped, k, i);
      HarmlessKeepState(w, calls[..i], s);
      assert Streamable(w.tools, stopped[k]);
      assert w.execute(c, now).1 == now;
    }
  }

  lemma {:induction false} PassFollows<S(!new), R>(
      w: World<S, R>, calls: seq<Call>, stopped: seq<Call>, ready: Call -> bool, s: S, i: nat)
    requires WellBehaved(w) && Safe(w.tools, calls, stopped) && i <= |calls|
    ensures PlanState(w, PassPlan(w, calls, stopped, ready, s), s, i) == StateAfter(w, calls[..i], s)
  {
    hide Safe, WellBehaved, PassPlan, RunPending, RunCall;
    if i > 0 {
      PassFollows(w, calls, stopped, ready, s, i - 1);
      EntryIsSequential(w, calls, stopped, ready, s, i - 1, StateAfter(w, calls[..i - 1], s));
      assert calls[..i][..i - 1] == calls[..i - 1];
    }
  }

  /** Stream and pass give the results and the state of left-to-right execution. */
  predicate Agrees<S, R(==)>(w: World<S, R>, calls: seq<Call>, stopped: seq<Call>, ready: Call -> bool, s: S) {
    PlanResults(w, PassPlan(w, calls, stopped, ready, s), s) == SequentialResults(w, calls, s)
  }

  lemma PassIsSequential<S(!new), R>(
      w: World<S, R>, calls: seq<Call>, stopped: seq<Call>, ready: Call -> bool, s: S)
    requires WellBehaved(w) && Safe(w.tools, calls, stopped)
    ensures Agrees(w, calls, stopped, ready, s)
    ensures PlanState(w, PassPlan(w, calls, stopped, ready, s), s, |calls|) == StateAfter(w, calls, s)
  {
    hide Safe, WellBehaved, PassPlan, RunPending, RunCall, StateAfter, PlanState;
    var plan := PassPlan(w, calls, stopped, ready, s);
    forall i | 0 <= i < |calls| ensures PlanResult(w, plan, s, i) == ResultAt(w, calls, s, i) {
      PassFollows(w, calls, stopped, ready, s, i);
      EntryIsSequential(w, calls, stopped, ready, s, i, StateAfter(w, calls[..i], s));
    }
    PassFollows(w, calls, stopped, ready, s, |calls|);
    assert calls[..|calls|] == calls;
  }

  /**
   * Stream and pass together: whatever was pre-run and in whatever order calls complete, the tools behave as if run
   * left to right, for every safe order of stops.
   */
  method StreamThenRun<S(!new), R(==)>(
      w: World<S, R>, calls: seq<Call>, stopped: seq<Call>, ready: Call -> bool, s0: S)
      returns (results: seq<R>, s: S)
    requires WellBehaved(w) && Safe(w.tools, calls, stopped)
    ensures results == SequentialResults(w, calls, s0) && s == StateAfter(w, calls, s0)
  {
    var cache := PrerunWhileStreaming(w, stopped, ready, s0);
    results, s := RunToolCalls(w, calls, cache, s0);
    PassIsSequential(w, calls, stopped, ready, s0);
  }

  predicate DistinctIds(calls: seq<Call>) {
    forall i, j :: 0 <= i < j < |calls| ==> calls[i].id != calls[j].id
  }

  /**
   * With distinct ids, any order in which each call before the barrier is preceded in the message by harmless calls
   * only is safe.
   */
  lemma ReadsFirstIsSafe(tools: Tools, calls: seq<Call>, stopped: seq<Call>)
    requires DistinctIds(calls) && forall k :: 0 <= k < |stopped| ==> stopped[k] in calls
    requires forall k, i, q ::
      0 <= k < |stopped| && 0 <= q < i < |calls| && BeforeBarrier(tools, stopped, k) && calls[i] == stopped[k] ==>
        Harmless(tools, calls[q])
    ensures Safe(tools, calls, stopped)
  {
    hide BeforeBarrier, Harmless;
    forall k, i | 0 <= k < |stopped| && 0 <= i < |calls| ensures SafeEntry(tools, calls, stopped, k, i) {
      var j :| 0 <= j < |calls| && calls[j] == stopped[k];
    }
  }

  /** The order of the message is such an order. */
  lemma MessageOrderIsSafe(tools: Tools, calls: seq<Call>)
    requires DistinctIds(calls)
    ensures Safe(tools, calls, calls)
  {
    forall k, i, q | 0 <= k < |calls| && 0 <= q < i < |calls| && BeforeBarrier(tools, calls, k) && calls[i] == calls[k]
      ensures Harmless(tools, calls[q])
    {
      assert i == k && Streamable(tools, calls[q]);
    }
    hide BeforeBarrier, Harmless;
    ReadsFirstIsSafe(tools, calls, calls);
  }

  // ---------- Unsafe orders do not ----------

  /** A world on given tools: it counts the writes, and every result tells the call and the count it saw. */
  function CountingWorld(tools: Tools): World<int, (Call, int)> {
    World(
      tools,
      (c: Call, s: int) => ((c, s), if ReadOnly(tools, c) then s else s + 1),
      (c: Call) => None,
      (c: Call) => (c, -1))
  }

  lemma CountingIsWellBehaved(tools: Tools)
    ensures WellBehaved(CountingWorld(tools))
  {
  }

  function Only(call: Call): Call -> bool {
    (c: Call) => c == call
  }

  lemma {:induction false} CacheHolds(tools: Tools, stopped: seq<Call>, k: nat)
    requires k < |stopped| && BeforeBarrier(tools, stopped, k)
    ensures var cache := Prerun(CountingWorld(tools), stopped, Only(stopped[k]), 0);
            stopped[k].id in cache && cache[stopped[k].id] == (stopped[k], 0)
    decreases |stopped|
  {
    var n := |stopped| - 1;
    if k < n {
      var init := stopped[..n];
      assert forall j :: 0 <= j <= k ==> init[j] == stopped[j];
      CacheHolds(tools, init, k);
    }
  }

  lemma {:induction false} Counts(tools: Tools, calls: seq<Call>)
    ensures StateAfter(CountingWorld(tools), calls, 0) >= 0
    ensures (exists q :: 0 <= q < |calls| && !Harmless(tools, calls[q])) ==>
              StateAfter(CountingWorld(tools), calls, 0) > 0
  {
    if calls != [] {
      var n := |calls| - 1;
      var init := calls[..n];
      Counts(tools, init);
      assert forall q :: 0 <= q < n ==> init[q] == calls[q];
    }
  }

  /** Where an entry is not safe the pass hands over a wrong result, in a well-behaved world with those very tools. */
  lemma UnsafeIsWrong(tools: Tools, calls: seq<Call>, stopped: seq<Call>, k: nat, i: nat)
    requires k < |stopped| && i < |calls| && !SafeEntry(tools, calls, stopped, k, i)
    ensures var w, ready := CountingWorld(tools), Only(stopped[k]);
            && WellBehaved(w) && w.tools == tools
            && PlanResult(w, PassPlan(w, calls, stopped, ready, 0), 0, i) != ResultAt(w, calls, 0, i)
            && !Agrees(w, calls, stopped, ready, 0)
  {
    var w, ready := CountingWorld(tools), Only(stopped[k]);
    CountingIsWellBehaved(tools);
    CacheHolds(tools, stopped, k);
    Counts(tools, calls[..i]);
    assert forall q :: 0 <= q < i ==> calls[..i][q] == calls[q];
    var plan := PassPlan(w, calls, stopped, ready, 0);
    hide Prerun, StateAfter, PlanState;
    assert plan[i].prebuilt == Some((stopped[k], 0));
    assert PlanResult(w, plan, 0, i) == (stopped[k], 0);
    assert ResultAt(w, calls, 0, i) == (calls[i], StateAfter(w, calls[..i], 0));
    assert PlanResults(w, plan, 0)[i] != SequentialResults(w, calls, 0)[i];
  }

  /**
   * The condition is exact: for given tools, a message and an order of stops agree with left-to-right execution in
   * every well-behaved world, from every state, whichever pre-runs come through, if and only if the order is safe.
   */
  lemma SafeIffAgrees(tools: Tools, calls: seq<Call>, stopped: seq<Call>)
    ensures Safe(tools, calls, stopped)
       <==> forall w: World<int, (Call, int)>, ready, s ::
              WellBehaved(w) && w.tools == tools ==> Agrees(w, calls, stopped, ready, s)
  {
    hide SafeEntry, Agrees, WellBehaved;
    if Safe(tools, calls, stopped) {
      forall w: World<int, (Call, int)>, ready, s | WellBehaved(w) && w.tools == tools
        ensures Agrees(w, calls, stopped, ready, s)
      {
        PassIsSequential(w, calls, stopped, ready, s);
      }
    } else {
      var k, i :| 0 <= k < |stopped| && 0 <= i < |calls| && !SafeEntry(tools, calls, stopped, k, i);
      UnsafeIsWrong(tools, calls, stopped, k, i);
    }
  }

  /** A read that stops before the barrier, with a write before it in the message, misses that write. */
  lemma StopOrderMatters(tools: Tools, calls: seq<Call>, stopped: seq<Call>, k: nat, i: nat, q: nat)
    requires k < |stopped| && q < i < |calls| && BeforeBarrier(tools, stopped, k)
    requires FirstWithId(calls, i) && calls[i] == stopped[k] && !Harmless(tools, calls[q])
    ensures !Agrees(CountingWorld(tools), calls, stopped, Only(stopped[k]), 0)
  {
    assert Streamable(tools, stopped[k]);
    UnsafeIsWrong(tools, calls, stopped, k, i);
  }

  /** When two different reads share an id, even in message order, the first is handed the result of the second. */
  lemma DistinctIdsMatter(tools: Tools, calls: seq<Call>, i: nat, j: nat)
    requires i < j < |calls| && BeforeBarrier(tools, calls, j)
    requires FirstWithId(calls, i) && calls[i].id == calls[j].id && calls[i] != calls[j]
    ensures !Agrees(CountingWorld(tools), calls, calls, Only(calls[j]), 0)
  {
    assert Streamable(tools, calls[i]);
    UnsafeIsWrong(tools, calls, calls, j, i);
  }

  // ---------- What may run, and when ----------

  /** The gate refuses no call of a tool that never asks. */
  ghost predicate AsksToRefuse<S, R>(w: World<S, R>) {
    forall c: Call :: c.name in w.tools && w.tools[c.name].neverAsks ==> w.refused(c).None?
  }

  /**
   * Only calls of registered tools that are read-only and never ask are run ahead, each on the state before the message;
   * so nothing is run that the gate would refuse.
   */
  lemma EarlyCallsMayRun<S, R>(w: World<S, R>, stopped: seq<Call>, ready: Call -> bool, s: S, id: string)
    requires id in Prerun(w, stopped, ready, s)
    ensures exists k :: 0 <= k < |stopped| && stopped[k].id == id && RunsEarly(w, stopped, k)
                        && Prerun(w, stopped, ready, s)[id] == w.execute(stopped[k], s).0
  {
    hide Prerun;
    var k := CacheEntry(w, stopped, ready, s, id);
    assert forall q :: 0 <= q <= k ==> Streamable(w.tools, stopped[q]);
    assert RunsEarly(w, stopped, k);
  }

  /** That call and all that stopped before it are harmless and need no leave. */
  ghost predicate RunsEarly<S, R>(w: World<S, R>, stopped: seq<Call>, k: nat)
    requires k < |stopped|
  {
    forall q :: 0 <= q <= k ==>
      && stopped[q].name in w.tools && w.tools[stopped[q].name].readOnly && w.tools[stopped[q].name].neverAsks
      && (AsksToRefuse(w) ==> w.refused(stopped[q]).None?)
  }

  lemma {:induction false} FirstOf(calls: seq<Call>, id: string, from: nat := 0) returns (i: nat)
    requires from <= |calls| && forall j :: 0 <= j < from ==> calls[j].id != id
    requires exists j :: from <= j < |calls| && calls[j].id == id
    ensures i < |calls| && calls[i].id == id && forall j :: 0 <= j < i ==> calls[j].id != id
    decreases |calls| - from
  {
    if calls[from].id == id {
      i := from;
    } else {
      i := FirstOf(calls, id, from + 1);
    }
  }

  /** A cached result is handed out once: to the first call with its id, and to no other. */
  lemma CacheIsUsedOnce<S, R>(w: World<S, R>, calls: seq<Call>, cache: map<string, R>, id: string) returns (i: nat)
    requires id in cache && exists j :: 0 <= j < |calls| && calls[j].id == id
    ensures i < |calls| && calls[i].id == id && Plan(w, calls, cache)[i].prebuilt == Some(cache[id])
    ensures forall j :: 0 <= j < |calls| && j != i && calls[j].id == id ==>
              j > i && Plan(w, calls, cache)[j].prebuilt == None
  {
    i := FirstOf(calls, id);
  }

  /**
   * What each call of the pass comes to: a call of no tool and a refused one get their errors and change nothing, whether
   * or not a result is cached; any other gets the cached result or is executed on the state its predecessors left.
   */
  lemma PassOutcome<S, R>(w: World<S, R>, calls: seq<Call>, cache: map<string, R>, s: S, i: nat)
    requires i < |calls|
    ensures var plan, c := Plan(w, calls, cache), calls[i];
            var before, after := PlanState(w, plan, s, i), PlanState(w, plan, s, i + 1);
            var result := PlanResults(w, plan, s)[i];
            && PlanState(w, plan, s, 0) == s
            && if c.name !in w.tools then result == w.notFound(c) && after == before
               else if w.refused(c).Some? then result == w.refused(c).value && after == before
               else if c.id in cache && (forall j :: 0 <= j < i ==> calls[j].id != c.id) then
                 result == cache[c.id] && after == before
               else (result, after) == w.execute(c, before)
  {
  }
}
