/** Locating the stored message that trips the provider's content filter, and redacting it. */
module Poison {
  import opened Prelude
  import opened Messages

  datatype Verdict = Passed | Filtered

  datatype Location = Redacted(target: MessageId) | Unredactable

  // A deterministic probe: the verdict on the request with a set of rows redacted.
  type Probe = set<MessageId> -> Verdict

  const PROBE_CAP := 24
  const MAX_POOL_ROWS := 2000
  const U32_MAX := 0xFFFF_FFFF

  /** Rows fetched per query: four times the window, saturating, never above the ceiling. */
  function PoolLimit(windowLimit: nat): (r: nat)
    ensures r <= 2000 && (windowLimit <= 500 ==> r == 4 * windowLimit) && (windowLimit > 500 ==> r == 2000)
  {
    Min(Min(windowLimit * 4, U32_MAX), MAX_POOL_ROWS)
  }

  // ---------- Search depth ----------

  function CeilLog2(n: nat): nat {
    if n <= 1 then 0 else 1 + CeilLog2((n + 1) / 2)
  }

  function Pow2(k: nat): nat {
    if k == 0 then 1 else 2 * Pow2(k - 1)
  }

  lemma {:induction false} CeilLog2Monotone(a: nat, b: nat)
    requires a <= b
    ensures CeilLog2(a) <= CeilLog2(b)
  {
    if a > 1 {
      CeilLog2Monotone((a + 1) / 2, (b + 1) / 2);
    }
  }

  /** `CeilLog2(n)` is the least `k` with `n <= 2^k`. */
  lemma {:induction false} CeilLog2IsLeast(n: nat, k: nat)
    requires n > 0
    ensures n <= Pow2(k) <==> CeilLog2(n) <= k
    decreases n
  {
    if n == 1 {
      PowPositive(k);
    } else {
      if k > 0 {
        CeilLog2IsLeast((n + 1) / 2, k - 1);
      }
    }
  }

  lemma {:induction false} PowPositive(k: nat)
    ensures Pow2(k) >= 1
  {
    if k > 0 {
      PowPositive(k - 1);
    }
  }

  // ---------- One round ----------

  /** Redacting `target` on top of `base` flips the verdict. */
  predicate Flips(probe: Probe, base: set<MessageId>, target: MessageId) {
    probe(base) == Filtered && probe(base + {target}) == Passed
  }

  lemma SplitSet(base: set<MessageId>, xs: seq<MessageId>, mid: nat, all: set<MessageId>)
    requires mid <= |xs| && base + SetOf(xs) <= all
    ensures base + SetOf(xs[mid..]) <= all && base + SetOf(xs[..mid]) <= all
    ensures base + SetOf(xs[mid..]) + SetOf(xs[..mid]) == base + SetOf(xs)
  {
    assert xs == xs[..mid] + xs[mid..];
  }

  /** The suspects left, and the probes made, when the halving ends. */
  function Halve(probe: Probe, base: set<MessageId>, suspects: seq<MessageId>, probes: nat): (seq<MessageId>, nat)
    decreases |suspects|
  {
    if |suspects| <= 1 || probes >= PROBE_CAP then (suspects, probes)
    else
      var left, right := suspects[..|suspects| / 2], suspects[|suspects| / 2..];
      if probe(base + SetOf(right)) == Passed then Halve(probe, base, right, probes + 1)
      else if probe(base + SetOf(left)) == Passed then Halve(probe, base, left, probes + 2)
      else Halve(probe, base + SetOf(right), left, probes + 2)
  }

  /** What one search comes to, and the probes it takes. */
  function Search(candidates: seq<MessageId>, probe: Probe): (Location, nat) {
    if candidates == [] then (Unredactable, 0)
    else if probe(SetOf(candidates)) == Filtered then (Unredactable, 1)
    else
      var (suspects, probes) := Halve(probe, {}, candidates, 1);
      (if |suspects| == 1 then Redacted(suspects[0]) else Unredactable, probes)
  }

  lemma HalveStep(probe: Probe, base: set<MessageId>, suspects: seq<MessageId>, probes: nat)
    ensures var left, right := suspects[..|suspects| / 2], suspects[|suspects| / 2..];
            Halve(probe, base, suspects, probes) ==
              if |suspects| <= 1 || probes >= PROBE_CAP then (suspects, probes)
              else if probe(base + SetOf(right)) == Passed then Halve(probe, base, right, probes + 1)
              else if probe(base + SetOf(left)) == Passed then Halve(probe, base, left, probes + 2)
              else Halve(probe, base + SetOf(right), left, probes + 2)
  {
  }

  lemma HalfLog(n: nat)
    requires n > 1
    ensures CeilLog2(n / 2) <= CeilLog2(n - n / 2) == CeilLog2(n) - 1
  {
    CeilLog2Monotone(n / 2, n - n / 2);
    assert n - n / 2 == (n + 1) / 2;
  }

  /** Each two probes halve the suspects at least; only the cap leaves more than one. */
  lemma {:induction false} HalvingBound(probe: Probe, base: set<MessageId>, suspects: seq<MessageId>, probes: nat)
    ensures var (left, used) := Halve(probe, base, suspects, probes);
            && used + 2 * CeilLog2(|left|) <= probes + 2 * CeilLog2(|suspects|)
            && (|left| > 1 ==> used >= PROBE_CAP) && used <= Max(probes, PROBE_CAP + 1)
            && (suspects != [] ==> left != [])
    decreases |suspects|
  {
    hide Halve, CeilLog2, SetOf;
    HalveStep(probe, base, suspects, probes);
    if |suspects| > 1 && probes < PROBE_CAP {
      var left, right := suspects[..|suspects| / 2], suspects[|suspects| / 2..];
      HalfLog(|suspects|);
      if probe(base + SetOf(right)) == Passed {
        HalvingBound(probe, base, right, probes + 1);
      } else if probe(base + SetOf(left)) == Passed {
        HalvingBound(probe, base, left, probes + 2);
      } else {
        HalvingBound(probe, base + SetOf(right), left, probes + 2);
      }
    }
  }

  /**
   * What the halving keeps: `base` stays filtered if it was, and redacting the suspects on top of it passes.  The set
   * returned is the base it ends with.
   */
  lemma {:induction false} HalveNarrows(probe: Probe, base: set<MessageId>, suspects: seq<MessageId>, probes: nat)
      returns (last: set<MessageId>)
    requires suspects != [] && probe(base + SetOf(suspects)) == Passed
    ensures var (left, _) := Halve(probe, base, suspects, probes);
            && left != [] && last + SetOf(left) <= base + SetOf(suspects)
            && probe(last + SetOf(left)) == Passed
            && (probe(base) == Filtered ==> probe(last) == Filtered)
    decreases |suspects|
  {
    hide Halve, SetOf;
    HalveStep(probe, base, suspects, probes);
    last := base;
    if |suspects| > 1 && probes < PROBE_CAP {
      var mid := |suspects| / 2;
      var left, right := suspects[..mid], suspects[mid..];
      SplitSet(base, suspects, mid, base + SetOf(suspects));
      if probe(base + SetOf(right)) == Passed {
        last := HalveNarrows(probe, base, right, probes + 1);
      } else if probe(base + SetOf(left)) == Passed {
        last := HalveNarrows(probe, base, left, probes + 2);
      } else {
        last := HalveNarrows(probe, base + SetOf(right), left, probes + 2);
      }
    }
  }

  /** The row a search redacts is a candidate and flips the verdict on top of some base. */
  lemma SearchFlips(candidates: seq<MessageId>, probe: Probe)
    ensures var (r, _) := Search(candidates, probe);
            && (r.Redacted? ==> r.target in candidates && probe(SetOf(candidates)) == Passed)
            && (r.Redacted? && probe({}) == Filtered ==>
                  exists base :: base <= SetOf(candidates) && r.target !in base && Flips(probe, base, r.target))
  {
    hide Halve, Flips;
    if candidates != [] && probe(SetOf(candidates)) == Passed {
      assert {} + SetOf(candidates) == SetOf(candidates);
      var last := HalveNarrows(probe, {}, candidates, 1);
      var left := Halve(probe, {}, candidates, 1).0;
      if |left| == 1 {
        LastOneFlips(probe, last, left, candidates);
      }
    }
  }

  lemma LastOneFlips(probe: Probe, base: set<MessageId>, suspects: seq<MessageId>, candidates: seq<MessageId>)
    requires |suspects| == 1 && base + SetOf(suspects) <= SetOf(candidates) && probe(base + SetOf(suspects)) == Passed
    ensures suspects[0] in candidates && base <= SetOf(candidates)
    ensures probe(base) == Filtered ==> suspects[0] !in base && Flips(probe, base, suspects[0])
  {
    var target := suspects[0];
    assert SetOf(suspects) == {target};
    assert target in SetOf(candidates);
    assert target in base ==> base + {target} == base;
  }

  /** Binary search over the candidates. */
  method Localize(candidates: seq<MessageId>, probe: Probe) returns (r: Location, probes: nat)
    ensures (r, probes) == Search(candidates, probe)
    ensures r.Redacted? ==> r.target in candidates && probe(SetOf(candidates)) == Passed
    ensures r.Redacted? && probe({}) == Filtered ==>
              exists base :: base <= SetOf(candidates) && r.target !in base && Flips(probe, base, r.target)
  {
    probes := 0;
    if candidates == [] {
      return Unredactable, 0;
    }
    var all := SetOf(candidates);
    probes := 1;
    if probe(all) == Filtered {
      return Unredactable, probes;
    }
    var base: set<MessageId> := {};
    var suspects := candidates;
    hide Halve, Flips, SetOf;
    while |suspects| > 1 && probes < PROBE_CAP
      invariant Halve(probe, {}, candidates, 1) == Halve(probe, base, suspects, probes)
      decreases |suspects|
    {
      var mid := |suspects| / 2;
      var left, right := suspects[..mid], suspects[mid..];
      HalveStep(probe, base, suspects, probes);
      probes := probes + 1;
      if probe(base + SetOf(right)) == Passed {
        suspects := right;
        continue;
      }
      probes := probes + 1;
      if probe(base + SetOf(left)) == Passed {
        suspects := left;
        continue;
      }
      base := base + SetOf(right);
      suspects := left;
    }
    HalveStep(probe, base, suspects, probes);
    SearchFlips(candidates, probe);
    if |suspects| != 1 {
      return Unredactable, probes;
    }
    r := Redacted(suspects[0]);
  }

  /** A search cut short by the cap has begun with more than 4096 candidates. */
  lemma PoolFits(n: nat, left: nat)
    requires n > 0 && left > 1
    ensures n <= 4096 ==> 1 + 2 * (CeilLog2(n) - CeilLog2(left)) < PROBE_CAP
  {
    CeilLog2Monotone(2, left);
    assert CeilLog2(2) == 1;
    CeilLog2IsLeast(n, 12);
    assert Pow2(12) == 4096 by {
      assert Pow2(4) == 16;
      assert Pow2(8) == 256;
    }
  }

  /** With as many candidates as a query can return, a round takes at most 23 probes: the cap is never reached. */
  lemma ProbeBound(n: nat)
    requires n <= MAX_POOL_ROWS
    ensures 1 + 2 * CeilLog2(n) <= 23 < PROBE_CAP
  {
    if n > 0 {
      CeilLog2IsLeast(n, 11);
      assert Pow2(11) == 2048 by {
        assert Pow2(4) == 16;
        assert Pow2(8) == 256;
      }
    }
  }

  /**
   * What a search takes, and when it gives up: with up to 4096 candidates only if there are none, or if redacting all
   * of them does not help.
   */
  lemma SearchBound(candidates: seq<MessageId>, probe: Probe)
    ensures var (r, probes) := Search(candidates, probe);
            && probes <= 1 + 2 * CeilLog2(|candidates|) && probes <= 25
            && (|candidates| <= MAX_POOL_ROWS ==> probes <= 23)
            && (|candidates| <= 4096 ==>
                  (r.Unredactable? <==> candidates == [] || probe(SetOf(candidates)) == Filtered))
  {
    hide CeilLog2, Halve;
    HalvingBound(probe, {}, candidates, 1);
    var suspects := Halve(probe, {}, candidates, 1).0;
    if |candidates| <= MAX_POOL_ROWS {
      ProbeBound(|candidates|);
    }
    if |suspects| > 1 && candidates != [] {
      PoolFits(|candidates|, |suspects|);
    }
  }

  // ---------- Searching where nothing can be found ----------

  lemma {:induction false} HalveGoesRight(probe: Probe, base: set<MessageId>, suspects: seq<MessageId>, probes: nat)
    requires suspects != [] && forall ids :: probe(ids) == Passed
    ensures var (left, _) := Halve(probe, base, suspects, probes);
            left != [] && left[|left| - 1] == suspects[|suspects| - 1]
    decreases |suspects|
  {
    hide Halve, SetOf;
    HalveStep(probe, base, suspects, probes);
    if |suspects| > 1 && probes < PROBE_CAP {
      HalveGoesRight(probe, base, suspects[|suspects| / 2..], probes + 1);
    }
  }

  /** When every probe passes, the search redacts the last candidate, whatever it is. */
  lemma BlindSearch(candidates: seq<MessageId>, probe: Probe)
    requires 0 < |candidates| <= 4096 && forall ids :: probe(ids) == Passed
    ensures Search(candidates, probe).0 == Redacted(candidates[|candidates| - 1])
  {
    hide Halve;
    SearchBound(candidates, probe);
    HalveGoesRight(probe, {}, candidates, 1);
  }

  // ---------- Rounds ----------

  /** The filter fires exactly while a poison row is left unredacted. */
  function PoisonProbe(poison: set<MessageId>, redacted: set<MessageId>): Probe {
    (extra: set<MessageId>) => if poison - redacted - extra == {} then Passed else Filtered
  }

  /** `probe` answers as that filter does. */
  ghost predicate Sees(probe: Probe, poison: set<MessageId>, redacted: set<MessageId>) {
    forall extra :: probe(extra) == PoisonProbe(poison, redacted)(extra)
  }

  lemma FlipsAreGenuine(poison: set<MessageId>, redacted: set<MessageId>, base: set<MessageId>, target: MessageId)
    requires Flips(PoisonProbe(poison, redacted), base, target)
    ensures target in poison - redacted
  {
    assert target !in poison - redacted ==>
      poison - redacted - base == poison - redacted - (base + {target});
  }

  /**
   * One round.  It gives up exactly when there is nothing it may redact, or poison sits outside of that; otherwise it
   * redacts a poison row if the probes can see any, and the last candidate if they cannot.
   */
  lemma RoundFinds(candidates: seq<MessageId>, probe: Probe, poison: set<MessageId>, redacted: set<MessageId>)
    requires |candidates| <= MAX_POOL_ROWS && Sees(probe, poison, redacted)
    ensures var (where, probes) := Search(candidates, probe);
            && (where.Unredactable? <==> candidates == [] || !(poison - redacted <= SetOf(candidates)))
            && (where.Redacted? ==> where.target in candidates)
            && (where.Redacted? && poison - redacted != {} ==> where.target in poison - redacted)
            && (where.Redacted? && poison - redacted == {} ==> where.target == candidates[|candidates| - 1])
            && probes <= 23
  {
    hide Search, CeilLog2;
    var where := Search(candidates, probe).0;
    SearchBound(candidates, probe);
    SearchFlips(candidates, probe);
    var all := SetOf(candidates);
    assert poison - redacted - {} == poison - redacted;
    assert poison - redacted - all == {} <==> poison - redacted <= all;
    if where.Redacted? && poison - redacted != {} {
      var base :| base <= all && where.target !in base && Flips(probe, base, where.target);
      FlipsAreGenuine(poison, redacted, base, where.target);
    }
    if where.Redacted? && poison - redacted == {} {
      forall ids ensures probe(ids) == Passed {
        assert poison - redacted - ids == {};
      }
      BlindSearch(candidates, probe);
    }
  }

  datatype Recovery = Recovery(redacted: set<MessageId>, rounds: nat, probes: nat, gaveUp: bool)

  /** While the turn's own request is filtered and retries are left, locate one row and redact it. */
  function Recovered(candidates: set<MessageId> -> seq<MessageId>, probe: set<MessageId> -> Probe, turn: Probe,
                     redacted: set<MessageId>, retries: nat): Recovery
    decreases retries
  {
    if retries == 0 || turn(redacted) == Passed then Recovery(redacted, 0, 0, false)
    else
      var (where, probes) := Search(candidates(redacted), probe(redacted));
      match where
      case Unredactable => Recovery(redacted, 0, probes, true)
      case Redacted(target) =>
        var r := Recovered(candidates, probe, turn, redacted + {target}, retries - 1);
        r.(rounds := r.rounds + 1, probes := r.probes + probes)
  }

  method Recover(candidates: set<MessageId> -> seq<MessageId>, probe: set<MessageId> -> Probe, turn: Probe,
                 redacted0: set<MessageId>, retries: nat) returns (r: Recovery)
    ensures r == Recovered(candidates, probe, turn, redacted0, retries)
  {
    hide Search;
    r := Recovery(redacted0, 0, 0, false);
    while r.rounds < retries && turn(r.redacted) == Filtered
      invariant r.rounds <= retries && !r.gaveUp
      invariant var rest := Recovered(candidates, probe, turn, r.redacted, retries - r.rounds);
                Recovered(candidates, probe, turn, redacted0, retries)
                == rest.(rounds := r.rounds + rest.rounds, probes := r.probes + rest.probes)
      decreases retries - r.rounds
    {
      var where, probes := Localize(candidates(r.redacted), probe(r.redacted));
      if where.Unredactable? {
        return r.(probes := r.probes + probes, gaveUp := true);
      }
      r := r.(redacted := r.redacted + {where.target}, rounds := r.rounds + 1, probes := r.probes + probes);
    }
  }

  /** The rounds of one recovery: the same rows may be redacted and the same rows are poison, whatever is redacted. */
  ghost predicate SameRows(
      candidates: set<MessageId> -> seq<MessageId>, probe: set<MessageId> -> Probe,
      able: set<MessageId>, poison: set<MessageId>)
  {
    forall redacted ::
      && |candidates(redacted)| <= MAX_POOL_ROWS
      && SetOf(candidates(redacted)) == able - redacted
      && Sees(probe(redacted), poison, redacted)
  }

  /** No row is left to redact, or poison sits outside the rows that may be. */
  predicate Hopeless(able: set<MessageId>, poison: set<MessageId>, redacted: set<MessageId>) {
    able <= redacted || !(poison - redacted <= able)
  }

  lemma WhenHopeless(candidates: seq<MessageId>, able: set<MessageId>, poison: set<MessageId>, redacted: set<MessageId>)
    requires SetOf(candidates) == able - redacted
    ensures candidates == [] || !(poison - redacted <= SetOf(candidates)) <==> Hopeless(able, poison, redacted)
  {
    assert candidates != [] ==> candidates[0] in SetOf(candidates);
    if candidates == [] {
      forall id | id in able ensures id in redacted {
        assert id !in SetOf(candidates);
      }
    }
  }

  /** The probes send what the turn sends. */
  ghost predicate Mirrors(turn: Probe, probe: set<MessageId> -> Probe) {
    forall redacted :: turn(redacted) == probe(redacted)({})
  }

  lemma RowsAt(candidates: set<MessageId> -> seq<MessageId>, probe: set<MessageId> -> Probe, turn: Probe,
               able: set<MessageId>, poison: set<MessageId>, redacted: set<MessageId>)
    requires SameRows(candidates, probe, able, poison)
    ensures |candidates(redacted)| <= MAX_POOL_ROWS && SetOf(candidates(redacted)) == able - redacted
    ensures Sees(probe(redacted), poison, redacted)
    ensures Mirrors(turn, probe) ==> (turn(redacted) == Filtered <==> poison - redacted != {})
  {
    assert poison - redacted - {} == poison - redacted;
  }

  lemma OneMore(ids: set<MessageId>, more: set<MessageId>, id: MessageId)
    requires id !in ids && id in more && forall x :: x in more <==> x == id || x in ids
    ensures |more| == |ids| + 1
  {
    assert more == ids + {id};
  }

  /** What `rounds` rounds have done: one row each, and poison first. */
  predicate Progress(poison: set<MessageId>, redacted0: set<MessageId>, redacted: set<MessageId>, rounds: nat) {
    && redacted0 <= redacted && |redacted - redacted0| == rounds
    && |poison - redacted| == SaturatingSub(|poison - redacted0|, rounds)
    && |redacted - redacted0 - poison| == SaturatingSub(rounds, |poison - redacted0|)
  }

  lemma ProgressStep(poison: set<MessageId>, redacted0: set<MessageId>, redacted: set<MessageId>, rounds: nat,
                     target: MessageId)
    requires Progress(poison, redacted0 + {target}, redacted, rounds) && target !in redacted0
    requires poison - redacted0 != {} ==> target in poison
    ensures Progress(poison, redacted0, redacted, rounds + 1)
  {
    var next := redacted0 + {target};
    OneMore(redacted - next, redacted - redacted0, target);
    if poison - redacted0 == {} {
      assert target !in poison by { assert target in poison ==> target in poison - redacted0; }
      assert poison - next == {};
      OneMore(redacted - next - poison, redacted - redacted0 - poison, target);
    } else {
      OneMore(poison - next, poison - redacted0, target);
      assert redacted - next - poison == redacted - redacted0 - poison;
    }
  }

  lemma RecoveredStep(candidates: set<MessageId> -> seq<MessageId>, probe: set<MessageId> -> Probe, turn: Probe,
                      able: set<MessageId>, poison: set<MessageId>, redacted: set<MessageId>, retries: nat)
      returns (where: Location, probes: nat)
    requires SameRows(candidates, probe, able, poison) && retries > 0 && turn(redacted) == Filtered
    ensures var r := Recovered(candidates, probe, turn, redacted, retries);
            match where
            case Unredactable => r == Recovery(redacted, 0, probes, true)
            case Redacted(target) =>
              var rest := Recovered(candidates, probe, turn, redacted + {target}, retries - 1);
              r == rest.(rounds := rest.rounds + 1, probes := rest.probes + probes)
    ensures where.Unredactable? <==> Hopeless(able, poison, redacted)
    ensures where.Redacted? ==> where.target in able - redacted
    ensures where.Redacted? && poison - redacted != {} ==> where.target in poison
    ensures probes <= 23
  {
    hide Search, Sees;
    var found := Search(candidates(redacted), probe(redacted));
    where, probes := found.0, found.1;
    RoundFinds(candidates(redacted), probe(redacted), poison, redacted);
    WhenHopeless(candidates(redacted), able, poison, redacted);
    if where.Redacted? {
      assert where.target in SetOf(candidates(redacted));
    }
  }

  /**
   * The first rounds of a recovery heal one poison row each; any round after that redacts a row that is not poison,
   * since the probes no longer see what the turn's filter sees.
   */
  lemma {:induction false} RecoveryHealsPoisonFirst(
      candidates: set<MessageId> -> seq<MessageId>, probe: set<MessageId> -> Probe, turn: Probe,
      able: set<MessageId>, poison: set<MessageId>, redacted0: set<MessageId>, retries: nat)
    requires SameRows(candidates, probe, able, poison)
    ensures var r := Recovered(candidates, probe, turn, redacted0, retries);
            && Progress(poison, redacted0, r.redacted, r.rounds)
            && r.redacted <= redacted0 + able && r.rounds <= retries && r.probes <= 23 * retries
    decreases retries
  {
    hide SameRows, Hopeless, Recovered, Progress;
    if retries == 0 || turn(redacted0) == Passed {
      RecoveredAtOnce(candidates, probe, turn, poison, redacted0, retries);
    } else {
      var where, probes := RecoveredStep(candidates, probe, turn, able, poison, redacted0, retries);
      match where
      case Unredactable => NoProgress(poison, redacted0);
      case Redacted(target) =>
        var rest := Recovered(candidates, probe, turn, redacted0 + {target}, retries - 1);
        RecoveryHealsPoisonFirst(candidates, probe, turn, able, poison, redacted0 + {target}, retries - 1);
        ProgressStep(poison, redacted0, rest.redacted, rest.rounds, target);
    }
  }

  lemma NoProgress(poison: set<MessageId>, redacted: set<MessageId>)
    ensures Progress(poison, redacted, redacted, 0)
  {
    assert redacted - redacted == {} && redacted - redacted - poison == {};
  }

  lemma RecoveredAtOnce(candidates: set<MessageId> -> seq<MessageId>, probe: set<MessageId> -> Probe, turn: Probe,
                        poison: set<MessageId>, redacted: set<MessageId>, retries: nat)
    requires retries == 0 || turn(redacted) == Passed
    ensures Recovered(candidates, probe, turn, redacted, retries) == Recovery(redacted, 0, 0, false)
    ensures Progress(poison, redacted, redacted, 0)
  {
    NoProgress(poison, redacted);
  }

  /**
   * It ends when the turn's request passes or the retries are used up, and gives up exactly when the turn is still
   * filtered and no row may be redacted any more or poison sits outside the rows that may.
   */
  lemma {:induction false} RecoveryEnds(
      candidates: set<MessageId> -> seq<MessageId>, probe: set<MessageId> -> Probe, turn: Probe,
      able: set<MessageId>, poison: set<MessageId>, redacted0: set<MessageId>, retries: nat)
    requires SameRows(candidates, probe, able, poison)
    ensures var r := Recovered(candidates, probe, turn, redacted0, retries);
            && (r.gaveUp || r.rounds == retries || turn(r.redacted) == Passed)
            && (r.gaveUp ==> r.rounds < retries && turn(r.redacted) == Filtered && Hopeless(able, poison, r.redacted))
            && (retries > 0 && turn(redacted0) == Filtered && Hopeless(able, poison, redacted0) ==>
                  r.gaveUp && r.rounds == 0 && r.redacted == redacted0)
            && (r.rounds > 0 ==> !Hopeless(able, poison, redacted0))
            && (r.rounds == 0 ==> r.redacted == redacted0)
    decreases retries
  {
    hide SameRows, Hopeless;
    if retries > 0 && turn(redacted0) == Filtered {
      hide Recovered;
      var where, _ := RecoveredStep(candidates, probe, turn, able, poison, redacted0, retries);
      match where
      case Unredactable =>
      case Redacted(target) => RecoveryEnds(candidates, probe, turn, able, poison, redacted0 + {target}, retries - 1);
    }
  }

  lemma OneFewer(poison: set<MessageId>, redacted: set<MessageId>, target: MessageId)
    requires target in poison - redacted
    ensures |poison - redacted| == |poison - (redacted + {target})| + 1
  {
    OneMore(poison - (redacted + {target}), poison - redacted, target);
  }

  lemma {:induction false} RoundsNeedPoison(
      candidates: set<MessageId> -> seq<MessageId>, probe: set<MessageId> -> Probe, turn: Probe,
      able: set<MessageId>, poison: set<MessageId>, redacted0: set<MessageId>, retries: nat)
    requires SameRows(candidates, probe, able, poison) && Mirrors(turn, probe)
    ensures Recovered(candidates, probe, turn, redacted0, retries).rounds <= |poison - redacted0|
    decreases retries
  {
    hide SameRows, Hopeless, Mirrors, Recovered;
    if retries == 0 || turn(redacted0) == Passed {
      RecoveredAtOnce(candidates, probe, turn, poison, redacted0, retries);
    } else {
      RowsAt(candidates, probe, turn, able, poison, redacted0);
      var where, _ := RecoveredStep(candidates, probe, turn, able, poison, redacted0, retries);
      match where
      case Unredactable =>
      case Redacted(target) =>
        OneFewer(poison, redacted0, target);
        RoundsNeedPoison(candidates, probe, turn, able, poison, redacted0 + {target}, retries - 1);
    }
  }

  /**
   * When the probes send what the turn sends: only poison rows are redacted, one a round, and recovery gives up, at
   * once, exactly when poison sits outside the rows that may be redacted.
   */
  lemma RecoveryRedactsOnlyPoison(
      candidates: set<MessageId> -> seq<MessageId>, probe: set<MessageId> -> Probe, turn: Probe,
      able: set<MessageId>, poison: set<MessageId>, redacted0: set<MessageId>, retries: nat)
    requires SameRows(candidates, probe, able, poison) && Mirrors(turn, probe)
    ensures var r := Recovered(candidates, probe, turn, redacted0, retries);
            && redacted0 <= r.redacted <= redacted0 + poison
            && (r.gaveUp <==> retries > 0 && !(poison - redacted0 <= able))
            && (r.gaveUp ==> r.redacted == redacted0)
            && (!r.gaveUp ==> r.rounds == Min(retries, |poison - redacted0|))
  {
    hide SameRows, Mirrors, Recovered;
    var r := Recovered(candidates, probe, turn, redacted0, retries);
    RecoveryHealsPoisonFirst(candidates, probe, turn, able, poison, redacted0, retries);
    RecoveryEnds(candidates, probe, turn, able, poison, redacted0, retries);
    RoundsNeedPoison(candidates, probe, turn, able, poison, redacted0, retries);
    RowsAt(candidates, probe, turn, able, poison, redacted0);
    RowsAt(candidates, probe, turn, able, poison, r.redacted);
    EndsWithPoison(able, poison, redacted0, r, retries);
  }

  lemma EndsWithPoison(able: set<MessageId>, poison: set<MessageId>, redacted0: set<MessageId>, r: Recovery,
                       retries: nat)
    requires Progress(poison, redacted0, r.redacted, r.rounds) && r.rounds <= retries
    requires r.rounds <= |poison - redacted0| && (r.rounds == 0 ==> r.redacted == redacted0)
    requires r.rounds > 0 ==> !Hopeless(able, poison, redacted0)
    requires if r.gaveUp then r.rounds < retries && poison - r.redacted != {} && Hopeless(able, poison, r.redacted)
             else r.rounds == retries || poison - r.redacted == {}
    requires retries > 0 && poison - redacted0 != {} && Hopeless(able, poison, redacted0) ==> r.gaveUp && r.rounds == 0
    ensures r.redacted <= redacted0 + poison
    ensures r.gaveUp <==> retries > 0 && !(poison - redacted0 <= able)
    ensures r.gaveUp ==> r.redacted == redacted0
    ensures !r.gaveUp ==> r.rounds == Min(retries, |poison - redacted0|)
  {
    forall id | id in r.redacted ensures id in redacted0 + poison {
      assert id !in r.redacted - redacted0 - poison;
    }
    if r.gaveUp {
      var id :| id in poison - r.redacted;
      assert able <= r.redacted ==> id !in able;
    }
    if !(poison - redacted0 <= able) {
      assert poison - redacted0 != {};
    }
  }
}
