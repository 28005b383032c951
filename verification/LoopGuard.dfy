/** The per-turn tally of identical tool calls. */
module LoopGuard {
  import opened Prelude

  // A tool name and its serialised input; the hash of the input is taken to be injective.
  type Key = (string, string)

  type Counts = map<Key, nat>

  function Tally(counts: Counts, key: Key): nat {
    if key in counts then counts[key] else 0
  }

  /** The outcome of counting a batch of calls: whether one of them reached the limit, and the new counts. */
  function Recorded(counts: Counts, keys: seq<Key>, limit: nat): (bool, Counts)
    decreases |keys|
  {
    if keys == [] then (false, counts)
    else
      var count := Tally(counts, keys[0]) + 1;
      var counts' := counts[keys[0] := count];
      if count >= limit then (true, counts') else Recorded(counts', keys[1..], limit)
  }

  /** A batch that passes has been counted in full and leaves every count below the limit it counted up to. */
  lemma {:induction false} RecordedCounts(counts: Counts, keys: seq<Key>, limit: nat, key: Key)
    requires !Recorded(counts, keys, limit).0
    ensures Tally(Recorded(counts, keys, limit).1, key) == Tally(counts, key) + Count(keys, key)
    ensures key in keys ==> Tally(Recorded(counts, keys, limit).1, key) < limit
    decreases |keys|
  {
    if keys != [] {
      var counts' := counts[keys[0] := Tally(counts, keys[0]) + 1];
      RecordedCounts(counts', keys[1..], limit, key);
      CountPositive(keys[1..], key);
      assert keys == [keys[0]] + keys[1..];
    }
  }

  /** A batch trips the guard exactly when some call in it would reach the limit. */
  lemma {:induction false} RecordedTrips(counts: Counts, keys: seq<Key>, limit: nat)
    ensures Recorded(counts, keys, limit).0
       <==> exists key :: key in keys && Tally(counts, key) + Count(keys, key) >= limit
    decreases |keys|
  {
    if keys != [] {
      var head, rest := keys[0], keys[1..];
      var counts' := counts[head := Tally(counts, head) + 1];
      RecordedTrips(counts', rest, limit);
      assert keys == [head] + rest;
      forall key
        ensures Tally(counts', key) + Count(rest, key) == Tally(counts, key) + Count(keys, key)
        ensures key in keys <==> key == head || key in rest
      {
      }
      if Tally(counts, head) + 1 >= limit {
        assert head in keys && Tally(counts, head) + Count(keys, head) >= limit;
      } else if key :| key in keys && Tally(counts, key) + Count(keys, key) >= limit {
        CountPositive(rest, key);
        assert key in rest;
      }
    }
  }

  class LoopGuard {
    var counts: Counts
    const limit: nat

    constructor (limit: nat)
      ensures counts == map[] && this.limit == limit
    {
      counts := map[];
      this.limit := limit;
    }

    /** Counts one call.  The guard trips on the call that reaches the limit, not on the one after it. */
    method Record(key: Key) returns (tripped: bool, count: nat)
      modifies this`counts
      ensures count == Tally(old(counts), key) + 1 && counts == old(counts)[key := count]
      ensures tripped <==> count >= limit
    {
      count := Tally(counts, key) + 1;
      counts := counts[key := count];
      tripped := count >= limit;
    }

    /** Counts a whole batch before any of it runs; stops at the first call that trips. */
    method RecordAll(keys: seq<Key>) returns (tripped: bool)
      modifies this`counts
      ensures (tripped, counts) == Recorded(old(counts), keys, limit)
    {
      tripped := false;
      var i := 0;
      assert keys[0..] == keys;
      while i < |keys|
        invariant 0 <= i <= |keys|
        invariant Recorded(old(counts), keys, limit) == Recorded(counts, keys[i..], limit)
      {
        assert keys[i..][1..] == keys[i + 1..];
        var count;
        tripped, count := Record(keys[i]);
        if tripped {
          return;
        }
        i := i + 1;
      }
      assert keys[i..] == [];
    }
  }
}
