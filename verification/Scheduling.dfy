/** Running the tool calls of one assistant message: eager reads behind a write barrier, then parallel segments. */
module Scheduling {
  import opened Prelude

  datatype Call = Call(id: string, name: string, input: string)

  datatype ToolInfo = ToolInfo(readOnly: bool, neverAsks: bool)

  // What the tools do to a state `S`, with result blocks `R`; `refused` is the approval gate's error, if it gives one.
  datatype World<!S, !R> = World(
    tools: Tools,
    execute: (Call, S) -> (R, S),
    refused: Call -> Option<R>,
    notFound: Call -> R)

  type Tools = map<string, ToolInfo>

  predicate ReadOnly(tools: Tools, c: Call) {
    c.name in tools && tools[c.name].readOnly
  }

  /** Safe to run while the message is still streaming: registered, read-only, never asks for approval. */
  predicate Streamable(tools: Tools, c: Call) {
    ReadOnly(tools, c) && tools[c.name].neverAsks
  }

  /** Read-only tools leave the state alone. */
  ghost predicate WellBehaved<S(!new), R>(w: World<S, R>) {
    forall c, s {:trigger w.execute(c, s)} :: ReadOnly(w.tools, c) ==> w.execute(c, s).1 == s
  }

  /** One call: look the tool up, ask the gate, execute. */
  function RunCall<S, R>(w: World<S, R>, c: Call, s: S): (R, S) {
    if c.name !in w.tools then (w.notFound(c), s)
    else match w.refused(c)
      case Some(error) => (error, s)
      case None => w.execute(c, s)
  }

  // ---------- Specification: plain left-to-right execution ----------

  function StateAfter<S, R>(w: World<S, R>, calls: seq<Call>, s: S): S {
    if calls == [] then s
    else RunCall(w, calls[|calls| - 1], StateAfter(w, calls[..|calls| - 1], s)).1
  }

  function ResultAt<S, R>(w: World<S, R>, calls: seq<Call>, s: S, i: nat): R
    requires i < |calls|
  {
    RunCall(w, calls[i], StateAfter(w, calls[..i], s)).0
  }

  function SequentialResults<S, R>(w: World<S, R>, calls: seq<Call>, s: S): seq<R> {
    seq(|calls|, i requires 0 <= i < |calls| => ResultAt(w, calls, s, i))
  }

  // ---------- During the stream ----------

  /** The `i`-th call to stop is eligible, and so was every call before it: no write barrier is up yet. */
  predicate BeforeBarrier(tools: Tools, stopped: seq<Call>, i: nat) {
    i < |stopped| && forall k :: 0 <= k <= i ==> Streamable(tools, stopped[k])
  }

  /**
   * The cache after the stream: results of the calls before the barrier, run on the state before the message.  `ready`
   * tells whether a call's arguments parse and its task survives.
   */
  function Prerun<S, R>(w: World<S, R>, stopped: seq<Call>, ready: Call -> bool, s: S): map<string, R> {
    if stopped == [] then map[]
    else
      var n := |stopped| - 1;
      var cache := Prerun(w, stopped[..n], ready, s);
      if BeforeBarrier(w.tools, stopped, n) && ready(stopped[n])
      then cache[stopped[n].id := w.execute(stopped[n], s).0]
      else cache
  }

  /** Eager dispatch, in the order in which the blocks stop.  The first call not eligible raises the barrier. */
  method PrerunWhileStreaming<S, R>(w: World<S, R>, stopped: seq<Call>, ready: Call -> bool, s: S)
      returns (cache: map<string, R>)
    ensures cache == Prerun(w, stopped, ready, s)
  {
    cache := map[];
    var barrier := false;
    for n := 0 to |stopped|
      invariant cache == Prerun(w, stopped[..n], ready, s)
      invariant barrier <==> exists k :: 0 <= k < n && !Streamable(w.tools, stopped[k])
    {
      var c := stopped[n];
      var upto := stopped[..n + 1];
      assert upto[..n] == stopped[..n];
      assert BeforeBarrier(w.tools, upto, n) <==> !barrier && Streamable(w.tools, c) by {
        assert forall k :: 0 <= k <= n ==> upto[k] == stopped[k];
      }
      if barrier {
      } else if !Streamable(w.tools, c) {
        barrier := true;
      } else if ready(c) {
        cache := cache[c.id := w.execute(c, s).0];
      }
    }
    assert stopped[..|stopped|] == stopped;
  }

  // ---------- After the stream ----------

  datatype Pending<R> = Pending(position: nat, call: Call, readOnly: bool, prebuilt: Option<R>)

  /** Call `i` is the first with its id. */
  predicate FirstWithId(calls: seq<Call>, i: nat) {
    i < |calls| && forall j :: 0 <= j < i ==> calls[j].id != calls[i].id
  }

  /** The plan of the pass: a cached result goes to the first call with its id. */
  function Plan<S, R>(w: World<S, R>, calls: seq<Call>, cache: map<string, R>): (plan: seq<Pending<R>>)
    ensures |plan| == |calls|
  {
    seq(|calls|, i requires 0 <= i < |calls| =>
      Pending(i, calls[i], ReadOnly(w.tools, calls[i]),
              if calls[i].id in cache && FirstWithId(calls, i) then Some(cache[calls[i].id]) else None))
  }

  method CollectPending<S, R>(w: World<S, R>, calls: seq<Call>, cache: map<string, R>)
      returns (pending: seq<Pending<R>>)
    ensures pending == Plan(w, calls, cache)
  {
    pending := [];
    var left := cache;
    for n := 0 to |calls|
      invariant |pending| == n
      invariant pending == Plan(w, calls, cache)[..n]
      invariant forall id :: id in left <==> id in cache && forall j :: 0 <= j < n ==> calls[j].id != id
      invariant forall id :: id in left ==> left[id] == cache[id]
    {
      var c := calls[n];
      var prebuilt := if c.id in left then Some(left[c.id]) else None;
      left := left - {c.id};
      pending := pending + [Pending(n, c, ReadOnly(w.tools, c), prebuilt)];
    }
  }

  function Range(lo: nat, hi: nat): (r: seq<nat>)
    requires lo <= hi
    ensures |r| == hi - lo && forall i :: 0 <= i < |r| ==> r[i] == lo + i
  {
    seq(hi - lo, i requires 0 <= i < hi - lo => lo + i)
  }

  /** `segment` is the run of positions from `lo`: one call, or several read-only ones. */
  predicate SegmentOk<R>(pending: seq<Pending<R>>, segment: seq<nat>, lo: nat) {
    && segment != []
    && lo + |segment| <= |pending|
    && segment == Range(lo, lo + |segment|)
    && (|segment| > 1 ==> forall i :: lo <= i < lo + |segment| ==> pending[i].readOnly)
  }

  predicate Covers<R>(pending: seq<Pending<R>>, segments: seq<seq<nat>>, lo: nat, hi: nat) {
    if segments == [] then lo == hi
    else SegmentOk(pending, segments[0], lo) && Covers(pending, segments[1..], lo + |segments[0]|, hi)
  }

  lemma {:induction false} CoversAppend<R>(
      pending: seq<Pending<R>>, segments: seq<seq<nat>>, lo: nat, mid: nat, segment: seq<nat>)
    requires Covers(pending, segments, lo, mid) && SegmentOk(pending, segment, mid)
    ensures Covers(pending, segments + [segment], lo, mid + |segment|)
  {
    if segments == [] {
      assert segments + [segment] == [segment];
      assert [segment][1..] == [];
    } else {
      CoversAppend(pending, segments[1..], lo + |segments[0]|, mid, segment);
      assert (segments + [segment])[1..] == segments[1..] + [segment];
    }
  }

  /** No segment could be joined with the one before it. */
  predicate NoneJoin<R>(pending: seq<Pending<R>>, segments: seq<seq<nat>>) {
    forall k :: 0 < k < |segments| ==>
      !(StartsReadOnly(pending, segments[k - 1]) && StartsReadOnly(pending, segments[k]))
  }

  predicate StartsReadOnly<R>(pending: seq<Pending<R>>, segment: seq<nat>) {
    segment != [] && segment[0] < |pending| && pending[segment[0]].readOnly
  }

  /** One more segment, which could not be joined with the last one. */
  lemma SegmentsGrow<R>(pending: seq<Pending<R>>, segments: seq<seq<nat>>, mid: nat, segment: seq<nat>)
    requires Covers(pending, segments, 0, mid) && SegmentOk(pending, segment, mid) && NoneJoin(pending, segments)
    requires segments != [] ==>
      !(StartsReadOnly(pending, segments[|segments| - 1]) && StartsReadOnly(pending, segment))
    ensures Covers(pending, segments + [segment], 0, mid + |segment|) && NoneJoin(pending, segments + [segment])
  {
    hide Covers, SegmentOk, StartsReadOnly;
    CoversAppend(pending, segments, 0, mid, segment);
  }

  lemma ReadsMakeSegment<R>(pending: seq<Pending<R>>, current: seq<nat>, i: nat)
    requires 0 < |current| <= i <= |pending| && current == Range(i - |current|, i)
    requires forall k :: i - |current| <= k < i ==> pending[k].readOnly
    ensures SegmentOk(pending, current, i - |current|) && StartsReadOnly(pending, current)
  {
  }

  lemma CallMakesSegment<R>(pending: seq<Pending<R>>, i: nat)
    requires i < |pending| && !pending[i].readOnly
    ensures SegmentOk(pending, [i], i) && !StartsReadOnly(pending, [i])
  {
    assert [i] == Range(i, i + 1);
  }

  /** Contiguous read-only calls share a segment; every other call is a segment of its own. */
  method Segment<R>(pending: seq<Pending<R>>) returns (segments: seq<seq<nat>>)
    ensures Covers(pending, segments, 0, |pending|) && NoneJoin(pending, segments)
  {
    hide SegmentOk, StartsReadOnly;
    segments := [];
    var current: seq<nat> := [];
    for i := 0 to |pending|
      invariant |current| <= i && Covers(pending, segments, 0, i - |current|) && NoneJoin(pending, segments)
      invariant current == Range(i - |current|, i)
      invariant forall k :: i - |current| <= k < i ==> pending[k].readOnly
      invariant segments != [] ==> !StartsReadOnly(pending, segments[|segments| - 1])
    {
      if pending[i].readOnly {
        current := current + [i];
      } else {
        if current != [] {
          ReadsMakeSegment(pending, current, i);
          SegmentsGrow(pending, segments, i - |current|, current);
          segments := segments + [current];
          current := [];
        }
        CallMakesSegment(pending, i);
        SegmentsGrow(pending, segments, i, [i]);
        segments := segments + [[i]];
      }
    }
    if current != [] {
      ReadsMakeSegment(pending, current, |pending|);
      SegmentsGrow(pending, segments, |pending| - |current|, current);
      segments := segments + [current];
    }
  }

  /** A prebuilt result is used as it is, once the gate has let the call through. */
  function RunPending<S, R>(w: World<S, R>, p: Pending<R>, s: S): (R, S) {
    if p.call.name !in w.tools then (w.notFound(p.call), s)
    else match w.refused(p.call)
      case Some(error) => (error, s)
      case None =>
        if p.prebuilt.Some? then (p.prebuilt.value, s) else w.execute(p.call, s)
  }

  /** The state after the first `i` entries of a plan, run left to right. */
  function PlanState<S, R>(w: World<S, R>, plan: seq<Pending<R>>, s: S, i: nat): S
    requires i <= |plan|
  {
    if i == 0 then s else RunPending(w, plan[i - 1], PlanState(w, plan, s, i - 1)).1
  }

  function PlanResult<S, R>(w: World<S, R>, plan: seq<Pending<R>>, s: S, i: nat): R
    requires i < |plan|
  {
    RunPending(w, plan[i], PlanState(w, plan, s, i)).0
  }

  function PlanResults<S, R>(w: World<S, R>, plan: seq<Pending<R>>, s: S): seq<R> {
    seq(|plan|, i requires 0 <= i < |plan| => PlanResult(w, plan, s, i))
  }

  /** Entry `i` says rightly whether its tool is read-only. */
  predicate Marked<S, R>(w: World<S, R>, plan: seq<Pending<R>>) {
    forall i :: 0 <= i < |plan| ==> plan[i].position == i && plan[i].readOnly == ReadOnly(w.tools, plan[i].call)
  }

  lemma StateAfterReads<S(!new), R>(w: World<S, R>, plan: seq<Pending<R>>, s: S, from: nat, till: nat)
    requires WellBehaved(w) && Marked(w, plan) && from <= till <= |plan|
    requires forall k :: from <= k < till ==> plan[k].readOnly
    ensures PlanState(w, plan, s, till) == PlanState(w, plan, s, from)
    decreases till
  {
    if from < till {
      StateAfterReads(w, plan, s, from, till - 1);
      assert ReadOnly(w.tools, plan[till - 1].call);
    }
  }

  // ---------- Completions, in any order ----------

  /** Distinct positions, and at each position the result of the plan. */
  predicate OutcomesOk<S, R(==)>(w: World<S, R>, plan: seq<Pending<R>>, s: S, outcomes: seq<(nat, R)>) {
    && (forall k :: 0 <= k < |outcomes| ==>
          outcomes[k].0 < |plan| && outcomes[k].1 == PlanResult(w, plan, s, outcomes[k].0))
    && (forall j, k :: 0 <= j < k < |outcomes| ==> outcomes[j].0 != outcomes[k].0)
  }

  function Positions<R>(outcomes: seq<(nat, R)>): set<nat> {
    set k | 0 <= k < |outcomes| :: outcomes[k].0
  }

  lemma AddOutcome<S, R>(w: World<S, R>, plan: seq<Pending<R>>, s: S, outcomes: seq<(nat, R)>, p: nat)
    requires OutcomesOk(w, plan, s, outcomes) && p < |plan| && p !in Positions(outcomes)
    ensures var more := outcomes + [(p, PlanResult(w, plan, s, p))];
            OutcomesOk(w, plan, s, more) && Positions(more) == Positions(outcomes) + {p}
  {
    hide PlanResult;
    var more := outcomes + [(p, PlanResult(w, plan, s, p))];
    assert forall k :: 0 <= k < |outcomes| ==> more[k] == outcomes[k] && outcomes[k].0 in Positions(outcomes);
    assert more[|outcomes|].0 == p;
    forall q ensures q in Positions(more) <==> q in Positions(outcomes) + {p} {
      if q in Positions(outcomes) {
        var k :| 0 <= k < |outcomes| && outcomes[k].0 == q;
        assert more[k].0 == q;
      }
    }
  }

  function Below(n: nat): (r: set<nat>)
    ensures |r| == n && forall x: nat :: x in r <==> x < n
  {
    if n == 0 then {} else Below(n - 1) + {n - 1}
  }

  function InsertByPosition<R>(sorted: seq<(nat, R)>, x: (nat, R)): seq<(nat, R)> {
    if sorted == [] then [x]
    else if x.0 < sorted[0].0 then [x] + sorted
    else [sorted[0]] + InsertByPosition(sorted[1..], x)
  }

  /** A stable sort on the position. */
  function SortByPosition<R>(xs: seq<(nat, R)>): seq<(nat, R)> {
    if xs == [] then [] else InsertByPosition(SortByPosition(xs[..|xs| - 1]), xs[|xs| - 1])
  }

  predicate Increasing<R>(xs: seq<(nat, R)>) {
    forall j, k :: 0 <= j < k < |xs| ==> xs[j].0 < xs[k].0
  }

  lemma {:induction false} InsertKeepsOrder<R>(sorted: seq<(nat, R)>, x: (nat, R))
    requires Increasing(sorted) && forall k :: 0 <= k < |sorted| ==> sorted[k].0 != x.0
    ensures var r := InsertByPosition(sorted, x);
            |r| == |sorted| + 1 && SetOf(r) == SetOf(sorted) + {x} && Increasing(r)
  {
    if sorted != [] {
      var head, rest := sorted[0], sorted[1..];
      assert sorted == [head] + rest;
      SetOfAppend([head], rest);
      SetOfAppend([x], sorted);
      if x.0 > head.0 {
        InsertKeepsOrder(rest, x);
        SetOfAppend([head], InsertByPosition(rest, x));
        HeadFirst(sorted, InsertByPosition(rest, x), x);
      }
    }
  }

  lemma HeadFirst<R>(sorted: seq<(nat, R)>, tail: seq<(nat, R)>, x: (nat, R))
    requires sorted != [] && Increasing(sorted) && sorted[0].0 < x.0
    requires Increasing(tail) && SetOf(tail) == SetOf(sorted[1..]) + {x}
    ensures Increasing([sorted[0]] + tail)
  {
    forall k | 0 <= k < |tail| ensures sorted[0].0 < tail[k].0 {
      assert tail[k] in SetOf(tail);
      if tail[k] != x {
        var j :| 0 <= j < |sorted[1..]| && sorted[1..][j] == tail[k];
        assert sorted[j + 1] == tail[k];
      }
    }
  }

  lemma SortStep<R>(xs: seq<(nat, R)>)
    requires xs != []
    ensures SortByPosition(xs) == InsertByPosition(SortByPosition(xs[..|xs| - 1]), xs[|xs| - 1])
  {
  }

  lemma {:induction false} SortSorts<R>(xs: seq<(nat, R)>)
    requires forall j, k :: 0 <= j < k < |xs| ==> xs[j].0 != xs[k].0
    ensures var r := SortByPosition(xs); |r| == |xs| && SetOf(r) == SetOf(xs) && Increasing(r)
  {
    if xs != [] {
      var init, last := xs[..|xs| - 1], xs[|xs| - 1];
      SortSorts(init);
      assert xs == init + [last];
      SetOfAppend(init, [last]);
      var sorted := SortByPosition(init);
      forall k | 0 <= k < |sorted| ensures sorted[k].0 != last.0 {
        assert sorted[k] in SetOf(init);
        var j :| 0 <= j < |init| && init[j] == sorted[k];
        assert xs[j] == init[j];
      }
      hide Increasing, SortByPosition, InsertByPosition, SetOf;
      InsertKeepsOrder(sorted, last);
      SortStep(xs);
    }
  }

  lemma {:induction false} IncreasingIsIdentity<R>(xs: seq<(nat, R)>, n: nat)
    requires Increasing(xs) && |xs| == n && forall k :: 0 <= k < n ==> xs[k].0 < n
    ensures forall k :: 0 <= k < n ==> xs[k].0 == k
  {
    forall k | 0 <= k < n ensures xs[k].0 == k {
      LowerBound(xs, k);
      UpperBound(xs, n, k);
    }
  }

  lemma {:induction false} LowerBound<R>(xs: seq<(nat, R)>, k: nat)
    requires Increasing(xs) && k < |xs|
    ensures xs[k].0 >= k
  {
    if k > 0 {
      LowerBound(xs, k - 1);
      assert xs[k - 1].0 < xs[k].0;
    }
  }

  lemma {:induction false} UpperBound<R>(xs: seq<(nat, R)>, n: nat, k: nat)
    requires Increasing(xs) && k < |xs| && |xs| == n && xs[n - 1].0 < n
    ensures xs[k].0 <= k
    decreases n - k
  {
    if k < n - 1 {
      UpperBound(xs, n, k + 1);
      assert xs[k].0 < xs[k + 1].0;
    }
  }

  lemma SortedOutcomesAreSequential<S, R>(w: World<S, R>, plan: seq<Pending<R>>, s: S, outcomes: seq<(nat, R)>)
    requires OutcomesOk(w, plan, s, outcomes) && |outcomes| == |plan|
    ensures var sorted := SortByPosition(outcomes);
            |sorted| == |plan| && forall i :: 0 <= i < |plan| ==> sorted[i] == (i, PlanResult(w, plan, s, i))
  {
    hide PlanResult;
    var sorted := SortByPosition(outcomes);
    SortSorts(outcomes);
    forall k | 0 <= k < |sorted|
      ensures sorted[k].0 < |plan| && sorted[k].1 == PlanResult(w, plan, s, sorted[k].0)
    {
      assert sorted[k] in SetOf(outcomes);
    }
    IncreasingIsIdentity(sorted, |plan|);
  }

  /** The results of the first `n` entries are in. */
  predicate Underway<S, R(==)>(w: World<S, R>, plan: seq<Pending<R>>, s0: S, outcomes: seq<(nat, R)>, n: nat) {
    OutcomesOk(w, plan, s0, outcomes) && |outcomes| == n && Positions(outcomes) == Below(n)
  }

  /**
   * The calls of one read-only segment complete in any order whatever; the loop picks the next one arbitrarily.
   */
  method RunInParallel<S(!new), R(==)>(
      w: World<S, R>, plan: seq<Pending<R>>, s: S, ghost s0: S, lo: nat, hi: nat, outcomes: seq<(nat, R)>)
      returns (more: seq<(nat, R)>)
    requires WellBehaved(w) && Marked(w, plan) && lo <= hi <= |plan| && Underway(w, plan, s0, outcomes, lo)
    requires forall i :: lo <= i < hi ==> plan[i].readOnly
    requires s == PlanState(w, plan, s0, lo)
    ensures Underway(w, plan, s0, more, hi)
  {
    hide PlanState, OutcomesOk, Positions, RunPending, Below, Marked;
    more := outcomes;
    var remaining := Below(hi) - Below(lo);
    assert Below(lo) <= Below(hi);
    while remaining != {}
      invariant remaining <= Below(hi) - Below(lo)
      invariant OutcomesOk(w, plan, s0, more)
      invariant Positions(more) == Below(hi) - remaining
      invariant |more| + |remaining| == hi
      decreases |remaining|
    {
      var i :| i in remaining;
      remaining := remaining - {i};
      StateAfterReads(w, plan, s0, lo, i);
      AddOutcome(w, plan, s0, more, i);
      more := more + [(i, RunPending(w, plan[i], s).0)];
    }
  }

  /**
   * The whole pass, for any cache whatever: segments run one after the other, the calls of a segment complete in any
   * order, and the results are sorted back.  It gives the results and the state of its plan run left to right.
   */
  method RunToolCalls<S(!new), R(==)>(w: World<S, R>, calls: seq<Call>, cache: map<string, R>, s0: S)
      returns (results: seq<R>, s: S)
    requires WellBehaved(w)
    ensures results == PlanResults(w, Plan(w, calls, cache), s0)
    ensures s == PlanState(w, Plan(w, calls, cache), s0, |calls|)
  {
    hide PlanState, OutcomesOk, Positions, RunPending, SortByPosition, Below, NoneJoin, PlanResult;
    var plan := CollectPending(w, calls, cache);
    var segments := Segment(plan);
    var outcomes: seq<(nat, R)> := [];
    s := s0;
    var k: nat, lo: nat := 0, 0;
    NothingRun(w, plan, s0);
    assert segments[0..] == segments;
    while k < |segments|
      invariant 0 <= k <= |segments| && lo <= |plan|
      invariant Covers(plan, segments[k..], lo, |plan|)
      invariant s == PlanState(w, plan, s0, lo)
      invariant Underway(w, plan, s0, outcomes, lo)
    {
      var segment := segments[k];
      var hi := lo + |segment|;
      assert segments[k..][1..] == segments[k + 1..];
      if |segment| == 1 {
        var i := segment[0];
        OneMoreRun(w, plan, s0, outcomes, i);
        var (r, s') := RunPending(w, plan[i], s);
        outcomes := outcomes + [(i, r)];
        s := s';
      } else {
        outcomes := RunInParallel(w, plan, s, s0, lo, hi, outcomes);
        StateAfterReads(w, plan, s0, lo, hi);
      }
      k, lo := k + 1, hi;
    }
    SortedOutcomesAreSequential(w, plan, s0, outcomes);
    var sorted := SortByPosition(outcomes);
    results := seq(|sorted|, i requires 0 <= i < |sorted| => sorted[i].1);
  }

  lemma OneMoreRun<S, R>(w: World<S, R>, plan: seq<Pending<R>>, s0: S, outcomes: seq<(nat, R)>, i: nat)
    requires i < |plan| && Underway(w, plan, s0, outcomes, i)
    ensures var (r, s) := RunPending(w, plan[i], PlanState(w, plan, s0, i));
            Underway(w, plan, s0, outcomes + [(i, r)], i + 1) && s == PlanState(w, plan, s0, i + 1)
  {
    hide OutcomesOk, Positions, RunPending, PlanState, Below;
    PlanStep(w, plan, s0, i);
    AddOutcome(w, plan, s0, outcomes, i);
  }

  lemma NothingRun<S, R>(w: World<S, R>, plan: seq<Pending<R>>, s: S)
    ensures PlanState(w, plan, s, 0) == s && Underway(w, plan, s, [], 0)
  {
  }

  lemma PlanStep<S, R>(w: World<S, R>, plan: seq<Pending<R>>, s: S, i: nat)
    requires i < |plan|
    ensures PlanState(w, plan, s, i + 1) == RunPending(w, plan[i], PlanState(w, plan, s, i)).1
    ensures i in Below(i + 1) && Below(i + 1) == Below(i) + {i} && i !in Below(i)
  {
  }
}
