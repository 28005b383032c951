/** What the pairing gate puts on the wire for each call, block by block. */
module GateOutcome {
  import opened Prelude
  import opened Messages
  import opened Pairing
  import opened PairingProofs
  import opened PairingStability

  predicate CallsFor(m: Message, id: string) {
    m.role == Assistant && exists j :: 0 <= j < |m.content| && m.content[j].ToolUse? && m.content[j].id == id
  }

  /** Block `j` is the first result for `id`. */
  predicate FirstResult(content: seq<Block>, j: nat, id: string) {
    && j < |content| && content[j].ToolResult? && content[j].toolUseId == id
    && forall k :: 0 <= k < j ==> !(content[k].ToolResult? && content[k].toolUseId == id)
  }

  /** The next message is a tool message, its first result for `id` is block `j`, and no earlier message called `id`. */
  predicate UsableAt(ms: seq<Message>, i: nat, id: string, j: nat) {
    && i + 1 < |ms| && ms[i + 1].role == Tool && FirstResult(ms[i + 1].content, j, id)
    && forall k :: 0 <= k < i ==> !CallsFor(ms[k], id)
  }

  /** A failed result for `id` that tells why. */
  predicate ErrorFor(b: Block, id: string) {
    && b.ToolResult? && b.toolUseId == id && b.isError
    && |b.content| == 1 && b.content[0].Text? && b.content[0].text != ""
  }

  predicate Answers(b: Block, id: string) {
    b.ToolResult? && b.toolUseId == id
  }

  lemma {:induction false} UseIdsAre(content: seq<Block>, id: string)
    ensures id in UseIds(content) <==> exists j :: 0 <= j < |content| && content[j].ToolUse? && content[j].id == id
  {
    if content != [] {
      var rest := content[1..];
      UseIdsAre(rest, id);
      assert forall j :: 0 <= j < |rest| ==> rest[j] == content[j + 1];
      assert UseIds(content) == (if content[0].ToolUse? then [content[0].id] else []) + UseIds(rest);
    }
  }

  lemma CallsAre(m: Message, id: string)
    ensures id in Calls(m) <==> CallsFor(m, id)
  {
    hide UseIds;
    UseIdsAre(m.content, id);
  }

  /** The first result for `id` is what `ResultFor` returns. */
  lemma {:induction false} FirstResultIs(content: seq<Block>, j: nat, id: string)
    requires FirstResult(content, j, id)
    ensures id in ResultIds(content) && ResultFor(content, id) == content[j]
  {
    if j > 0 {
      assert !(content[0].ToolResult? && content[0].toolUseId == id);
      FirstResultIs(content[1..], j - 1, id);
      assert id in (if content[0].ToolResult? then [content[0].toolUseId] else []) + ResultIds(content[1..]);
    }
  }

  lemma {:induction false} FindResult(content: seq<Block>, id: string) returns (j: nat)
    requires id in ResultIds(content)
    ensures FirstResult(content, j, id)
  {
    if content[0].ToolResult? && content[0].toolUseId == id {
      j := 0;
    } else {
      j := FindResult(content[1..], id);
      j := j + 1;
    }
  }

  /** What survives of the results: the first for its id, and that id is one to answer. */
  lemma {:induction false} KeptIsFirst(content: seq<Block>, seen: set<string>, answered: set<string>, b: Block)
    requires b in Kept(content, seen, answered) && b.ToolResult?
    ensures b in content && b.toolUseId in seen && b.toolUseId !in answered
    ensures b.toolUseId in ResultIds(content) && b == ResultFor(content, b.toolUseId)
  {
    var c, rest := content[0], content[1..];
    var taken := c.ToolResult? && c.toolUseId in seen && c.toolUseId !in answered;
    var answered' := if taken then answered + {c.toolUseId} else answered;
    var kept := Kept(rest, seen, answered');
    assert Kept(content, seen, answered) == (if c.ToolResult? && !taken then kept else [c] + kept);
    if b in kept {
      KeptIsFirst(rest, seen, answered', b);
      assert c.ToolResult? ==> c.toolUseId != b.toolUseId;
      assert b.toolUseId in (if c.ToolResult? then [c.toolUseId] else []) + ResultIds(rest);
    }
  }

  lemma SyntheticBlock(ids: seq<string>, b: Block)
    requires b in SyntheticErrors(ids)
    ensures b.ToolResult? && b.toolUseId in ids && ErrorFor(b, b.toolUseId)
  {
  }

  /** Each block of an answer is a block at hand or an error for a call. */
  lemma AnswerBlock(calls: seq<string>, results: seq<Block>, used: set<string>, b: Block)
    requires b in Answer(calls, results, used) && b.ToolResult?
    ensures b.toolUseId in calls
    ensures if b.toolUseId !in used && b.toolUseId in ResultIds(results)
            then b in results && b == ResultFor(results, b.toolUseId)
            else ErrorFor(b, b.toolUseId)
  {
    hide Kept, Without, ResultIds, ResultFor, SyntheticErrors, ErrorFor;
    var seen := used + SetOf(calls);
    var kept := Kept(results, seen, used);
    var missing := Without(calls, SetOf(ResultIds(kept)));
    KeptIds(results, seen, used);
    WithoutIds(calls, SetOf(ResultIds(kept)));
    if b in kept {
      KeptIsFirst(results, seen, used, b);
    } else {
      SyntheticBlock(missing, b);
      assert b.toolUseId in SetOf(missing);
      assert b.toolUseId !in SetOf(ResultIds(kept));
      assert b.toolUseId in SetOf(ResultIds(results)) <==> b.toolUseId in ResultIds(results);
    }
  }

  lemma HasBlock(content: seq<Block>, id: string) returns (b: Block)
    requires id in ResultIds(content)
    ensures b in content && Answers(b, id)
  {
    var j := FindResult(content, id);
    b := content[j];
  }

  /** What stands behind message `i`, as far as it can answer its calls. */
  function Behind(ms: seq<Message>, i: nat): seq<Block> {
    if i + 1 < |ms| && IsTool(ms[i + 1]) then ms[i + 1].content else []
  }

  /** The loop takes `k` messages and puts out `n`, the second of which answers the first. */
  lemma HeadStep(ms: seq<Message>, used: set<string>) returns (k: nat, n: nat)
    requires ms != [] && !IsTool(ms[0])
    ensures 1 <= k <= 2 && k <= |ms| && 1 <= n <= 2 && (k == 2 ==> IsTool(ms[1]))
    ensures var out, rest := Repaired(ms, used), Repaired(ms[k..], used + SetOf(Calls(ms[0])));
            && |out| == n + |rest| && out[n..] == rest && out[0] == ms[0] && (n == 2 ==> IsTool(out[1]))
            && (Calls(ms[0]) != [] ==> n == 2 && out[1].content == Answer(Calls(ms[0]), Behind(ms, 0), used))
  {
    hide Answer, UseIds;
    var calls := Calls(ms[0]);
    if calls == [] {
      assert used + SetOf(calls) == used;
      k, n := 1, 1;
    } else if |ms| > 1 && IsTool(ms[1]) {
      k, n := 2, 2;
    } else {
      FreshIsAnswer(calls, used);
      k, n := 1, 2;
    }
  }

  /** Message `m` stands at `p` behind the conversation `before`, and its calls are answered with `reply`. */
  predicate StandsAt(out: seq<Message>, p: nat, m: Message, before: seq<Message>, reply: seq<Block>) {
    && p + 1 < |out| && out[p] == m && NonTool(out[..p]) == before
    && IsTool(out[p + 1]) && out[p + 1].content == reply
  }

  function ReplyTo(ms: seq<Message>, i: nat, used: set<string>): seq<Block>
    requires i < |ms|
  {
    Answer(Calls(ms[i]), Behind(ms, i), CalledBefore(ms, i, used))
  }

  /** Where a message with calls goes, and what is put behind it. */
  lemma {:induction false} ReplyBehind(ms: seq<Message>, i: nat, used: set<string>) returns (p: nat)
    requires i < |ms| && Calls(ms[i]) != []
    ensures StandsAt(Repaired(ms, used), p, ms[i], NonTool(ms[..i]), ReplyTo(ms, i, used))
    decreases i
  {
    hide Calls, NonTool, Repaired, ReplyTo;
    if i > 0 {
      ToolsCallNothing(ms[1], {});
    }
    if IsTool(ms[0]) {
      SkipTool(ms, i, used);
      p := ReplyBehind(ms[1..], i - 1, used);
    } else {
      var k, n := HeadStep(ms, used);
      if i == 0 {
        p := 0;
        ReplyNow(ms, n, k, used);
      } else {
        p := ReplyBehind(ms[k..], i - k, used + SetOf(Calls(ms[0])));
        ReplyLater(ms, i, used, k, n, p);
        p := p + n;
      }
    }
  }

  lemma ReplyNow(ms: seq<Message>, n: nat, k: nat, used: set<string>)
    requires ms != [] && Calls(ms[0]) != [] && 1 <= k <= |ms|
    requires var out := Repaired(ms, used);
             && |out| >= 2 && out[0] == ms[0] && IsTool(out[1])
             && out[1].content == Answer(Calls(ms[0]), Behind(ms, 0), used)
    ensures StandsAt(Repaired(ms, used), 0, ms[0], NonTool(ms[..0]), ReplyTo(ms, 0, used))
  {
    hide Repaired, Answer, Calls;
    assert Repaired(ms, used)[..0] == ms[..0];
  }

  lemma ReplyLater(ms: seq<Message>, i: nat, used: set<string>, k: nat, n: nat, p: nat)
    requires 1 <= k <= 2 && k <= i < |ms| && !IsTool(ms[0]) && 1 <= n <= 2 && (k == 2 ==> IsTool(ms[1]))
    requires var out, rest := Repaired(ms, used), Repaired(ms[k..], used + SetOf(Calls(ms[0])));
             && |out| == n + |rest| && out[n..] == rest && out[0] == ms[0] && (n == 2 ==> IsTool(out[1]))
             && StandsAt(rest, p, ms[i], NonTool(ms[k..][..i - k]), ReplyTo(ms[k..], i - k, used + SetOf(Calls(ms[0]))))
    ensures StandsAt(Repaired(ms, used), p + n, ms[i], NonTool(ms[..i]), ReplyTo(ms, i, used))
  {
    hide Repaired, Answer, Calls, NonTool, Behind, CalledBefore;
    NonToolSteps(ms, i);
    BehindMoves(ms, i, k);
    CalledBehind(ms, i, k, used);
    Shifted(Repaired(ms, used), Repaired(ms[k..], used + SetOf(Calls(ms[0]))), n, p, ms[0]);
  }

  lemma ToolsCallNothing(m: Message, used: set<string>)
    ensures IsTool(m) ==> Calls(m) == [] && used + SetOf(Calls(m)) == used
  {
  }

  lemma SkipTool(ms: seq<Message>, i: nat, used: set<string>)
    requires i < |ms| && IsTool(ms[0]) && Calls(ms[i]) != []
    ensures i > 0 && Repaired(ms, used) == Repaired(ms[1..], used)
    ensures ReplyTo(ms, i, used) == ReplyTo(ms[1..], i - 1, used) && NonTool(ms[..i]) == NonTool(ms[1..][..i - 1])
  {
    ToolsCallNothing(ms[0], used);
    NonToolSteps(ms, i);
    hide NonTool, Answer;
  }

  lemma BehindMoves(ms: seq<Message>, i: nat, n: nat)
    requires n <= i < |ms|
    ensures Behind(ms[n..], i - n) == Behind(ms, i)
  {
  }

  lemma CalledBehind(ms: seq<Message>, i: nat, k: nat, used: set<string>)
    requires 1 <= k <= 2 && k <= i < |ms| && (k == 2 ==> IsTool(ms[1]))
    ensures CalledBefore(ms, i, used) == CalledBefore(ms[k..], i - k, used + SetOf(Calls(ms[0])))
  {
    if k == 2 {
      ToolsCallNothing(ms[1], used + SetOf(Calls(ms[0])));
      assert ms[1..][1..] == ms[2..];
    }
  }

  lemma NonToolSteps(ms: seq<Message>, i: nat)
    requires i < |ms|
    ensures i > 0 ==>
              NonTool(ms[..i])
              == if IsTool(ms[0]) then NonTool(ms[1..][..i - 1]) else [ms[0]] + NonTool(ms[1..][..i - 1])
    ensures i > 1 && IsTool(ms[1]) ==> NonTool(ms[1..][..i - 1]) == NonTool(ms[2..][..i - 2])
  {
    if i > 0 {
      assert ms[..i][1..] == ms[1..][..i - 1];
      assert [] + NonTool(ms[1..][..i - 1]) == NonTool(ms[1..][..i - 1]);
      if i > 1 {
        assert ms[1..][..i - 1][1..] == ms[2..][..i - 2];
        assert [] + NonTool(ms[2..][..i - 2]) == NonTool(ms[2..][..i - 2]);
      }
    }
  }

  lemma Shifted(out: seq<Message>, rest: seq<Message>, n: nat, p: nat, m: Message)
    requires 1 <= n <= 2 && n <= |out| && out[n..] == rest && out[0] == m && !IsTool(m) && (n == 2 ==> IsTool(out[1]))
    requires p + 1 < |rest|
    ensures p + n + 1 < |out| && out[p + n] == rest[p] && out[p + n + 1] == rest[p + 1]
    ensures NonTool(out[..p + n]) == [m] + NonTool(rest[..p])
  {
    var prefix := out[..p + n];
    assert prefix[n..] == rest[..p];
    assert prefix[1..][n - 1..] == rest[..p];
    assert n == 2 ==> prefix[1..][0] == out[1];
    assert [] + NonTool(rest[..p]) == NonTool(rest[..p]);
  }

  /**
   * For each message with calls: it stands in the output in its place, with a tool message behind it that holds, for
   * each id called, the first result at hand if that is usable, and otherwise an error that says why; and it holds no
   * other result.
   */
  lemma CallOutcome(ms: seq<Message>, i: nat, id: string) returns (p: nat)
    requires i < |ms| && CallsFor(ms[i], id)
    ensures var out := Gate(ms);
            && p + 1 < |out| && out[p] == ms[i] && NonTool(out[..p]) == NonTool(ms[..i]) && out[p + 1].role == Tool
            && (exists b :: b in out[p + 1].content && Answers(b, id))
            && (forall b :: b in out[p + 1].content && b.ToolResult? ==> CallsFor(ms[i], b.toolUseId))
            && (forall b, j: nat :: b in out[p + 1].content && Answers(b, id) && UsableAt(ms, i, id, j) ==>
                  b == ms[i + 1].content[j])
            && (forall b :: b in out[p + 1].content && Answers(b, id) && (forall j: nat :: !UsableAt(ms, i, id, j)) ==>
                  ErrorFor(b, id))
  {
    hide Answer, CallsFor, ErrorFor, ResultIds, ResultFor, Gate;
    var calls, behind, used := Calls(ms[i]), Behind(ms, i), CalledBefore(ms, i, {});
    CallsAre(ms[i], id);
    p := ReplyInGate(ms, i);
    var out := Gate(ms);
    AnswerCovers(calls, behind, used);
    assert id in SetOf(calls);
    var b0 := HasBlock(out[p + 1].content, id);
    forall b | b in out[p + 1].content && b.ToolResult?
      ensures CallsFor(ms[i], b.toolUseId)
      ensures if b.toolUseId !in used && b.toolUseId in ResultIds(behind)
              then b in behind && b == ResultFor(behind, b.toolUseId) else ErrorFor(b, b.toolUseId)
    {
      AnswerBlock(calls, behind, used, b);
      CallsAre(ms[i], b.toolUseId);
    }
    UsableIff(ms, i, id);
    forall j: nat | UsableAt(ms, i, id, j) ensures ResultFor(behind, id) == ms[i + 1].content[j] {
      FirstResultIs(behind, j, id);
    }
  }

  lemma ReplyInGate(ms: seq<Message>, i: nat) returns (p: nat)
    requires i < |ms| && Calls(ms[i]) != []
    ensures StandsAt(Gate(ms), p, ms[i], NonTool(ms[..i]), ReplyTo(ms, i, {}))
  {
    hide ReplyTo, Calls, NonTool, Repaired;
    p := ReplyBehind(ms, i, {});
  }

  lemma UsableIff(ms: seq<Message>, i: nat, id: string)
    requires i < |ms|
    ensures id !in CalledBefore(ms, i, {}) && id in ResultIds(Behind(ms, i))
       <==> exists j: nat :: UsableAt(ms, i, id, j)
  {
    hide ResultIds, CallsFor;
    CalledBeforeIds(ms, i, {}, id);
    forall k | 0 <= k < i ensures id in Calls(ms[..i][k]) <==> CallsFor(ms[k], id) {
      CallsAre(ms[k], id);
    }
    if id in ResultIds(Behind(ms, i)) && id !in CalledBefore(ms, i, {}) {
      assert Behind(ms, i) != [] by { NothingHeld(id); }
      var j := FindResult(Behind(ms, i), id);
      forall k | 0 <= k < i ensures !CallsFor(ms[k], id) {
        assert ms[..i][k] == ms[k];
      }
      assert UsableAt(ms, i, id, j);
    }
    if j: nat :| UsableAt(ms, i, id, j) {
      FirstResultIs(Behind(ms, i), j, id);
      assert !Called(ms[..i], id);
    }
  }

  lemma NothingHeld(id: string)
    ensures id !in ResultIds([])
  {
  }

  // ---------- Every result on the wire ----------

  ghost predicate Genuine(ms: seq<Message>, b: Block) {
    exists i :: 0 <= i < |ms| && b in ms[i].content
  }

  lemma {:induction false} BlocksAreGenuine(ms: seq<Message>, used: set<string>, p: nat, b: Block)
    requires p < |Repaired(ms, used)| && b in Repaired(ms, used)[p].content
    ensures Genuine(ms, b) || (b.ToolResult? && ErrorFor(b, b.toolUseId))
    decreases |ms|
  {
    hide Answer, UseIds, ErrorFor;
    var m, calls, out := ms[0], Calls(ms[0]), Repaired(ms, used);
    var used' := used + SetOf(calls);
    if IsTool(m) {
      GenuineTail(ms, 1, b);
      BlocksAreGenuine(ms[1..], used, p, b);
    } else if p == 0 {
      assert out[0] == m;
    } else if calls == [] {
      GenuineTail(ms, 1, b);
      BlocksAreGenuine(ms[1..], used, p - 1, b);
    } else if |ms| > 1 && IsTool(ms[1]) {
      GenuineTail(ms, 2, b);
      if p == 1 {
        AnswerIsGenuine(calls, ms[1].content, used, b);
      } else {
        BlocksAreGenuine(ms[2..], used', p - 2, b);
      }
    } else {
      GenuineTail(ms, 1, b);
      if p == 1 {
        SyntheticBlock(calls, b);
      } else {
        BlocksAreGenuine(ms[1..], used', p - 2, b);
      }
    }
  }

  lemma AnswerIsGenuine(calls: seq<string>, results: seq<Block>, used: set<string>, b: Block)
    requires b in Answer(calls, results, used)
    ensures b in results || (b.ToolResult? && ErrorFor(b, b.toolUseId))
  {
    hide Kept, Without, ErrorFor, SyntheticErrors;
    var kept := Kept(results, used + SetOf(calls), used);
    var missing := Without(calls, SetOf(ResultIds(kept)));
    if b in kept {
      KeptIsThere(results, used + SetOf(calls), used, b);
    } else {
      SyntheticBlock(missing, b);
    }
  }

  lemma {:induction false} KeptIsThere(content: seq<Block>, seen: set<string>, answered: set<string>, b: Block)
    requires b in Kept(content, seen, answered)
    ensures b in content
  {
    var c, rest := content[0], content[1..];
    assert content == [c] + rest;
    if c != b {
      var taken := c.ToolResult? && c.toolUseId in seen && c.toolUseId !in answered;
      KeptIsThere(rest, seen, if taken then answered + {c.toolUseId} else answered, b);
    }
  }

  lemma GenuineTail(ms: seq<Message>, n: nat, b: Block)
    requires n <= |ms|
    ensures Genuine(ms[n..], b) ==> Genuine(ms, b)
  {
    if i :| 0 <= i < |ms[n..]| && b in ms[n..][i].content {
      assert b in ms[n + i].content;
    }
  }

  /** A block on the wire that the history does not hold is an error; so every successful result is a real one. */
  lemma MadeUpBlocksAreErrors(ms: seq<Message>, p: nat, b: Block)
    requires p < |Gate(ms)| && b in Gate(ms)[p].content && forall i :: 0 <= i < |ms| ==> b !in ms[i].content
    ensures b.ToolResult? && b.isError && |b.content| == 1 && b.content[0].Text? && b.content[0].text != ""
  {
    BlocksAreGenuine(ms, {}, p, b);
  }
}
