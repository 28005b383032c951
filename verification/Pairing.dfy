/** The pairing gate every request passes through. */
module Pairing {
  import opened Prelude
  import opened Messages

  const INTERRUPTED := "tool execution interrupted (orphan tool_use repaired at load time)"

  function SyntheticError(id: string): Block {
    ToolResult(id, [Text(INTERRUPTED)], true)
  }

  function SyntheticErrors(ids: seq<string>): (r: seq<Block>)
    ensures |r| == |ids|
  {
    seq(|ids|, i requires 0 <= i < |ids| => SyntheticError(ids[i]))
  }

  // ---------- Specification ----------

  /** The blocks that survive: results for a seen id, first answer only, and everything that is not a result. */
  function Kept(content: seq<Block>, seen: set<string>, answered: set<string>): seq<Block> {
    if content == [] then []
    else
      var b := content[0];
      if !b.ToolResult? then [b] + Kept(content[1..], seen, answered)
      else if b.toolUseId !in seen || b.toolUseId in answered then Kept(content[1..], seen, answered)
      else [b] + Kept(content[1..], seen, answered + {b.toolUseId})
  }

  function Without(ids: seq<string>, answered: set<string>): seq<string> {
    if ids == [] then []
    else (if ids[0] in answered then [] else [ids[0]]) + Without(ids[1..], answered)
  }

  /** The content of the tool message that answers `calls`, made from the results at hand. */
  function Answer(calls: seq<string>, results: seq<Block>, used: set<string>): seq<Block> {
    var kept := Kept(results, used + SetOf(calls), used);
    kept + SyntheticErrors(Without(calls, SetOf(ResultIds(kept))))
  }

  function FreshAnswer(calls: seq<string>): Message {
    Message(Fresh, Tool, SyntheticErrors(calls))
  }

  /** What the gate makes of `ms` when the ids in `used` were already called, and answered, further left. */
  function Repaired(ms: seq<Message>, used: set<string>): seq<Message>
    decreases |ms|
  {
    if ms == [] then []
    else if IsTool(ms[0]) then Repaired(ms[1..], used)
    else
      var calls := Calls(ms[0]);
      var used' := used + SetOf(calls);
      if calls == [] then [ms[0]] + Repaired(ms[1..], used)
      else if |ms| > 1 && IsTool(ms[1]) then
        [ms[0], ms[1].(content := Answer(calls, ms[1].content, used))] + Repaired(ms[2..], used')
      else [ms[0], FreshAnswer(calls)] + Repaired(ms[1..], used')
  }

  function Gate(ms: seq<Message>): seq<Message> {
    Repaired(ms, {})
  }

  // ---------- What survives, and what is missing ----------

  lemma {:induction false} WithoutIds(ids: seq<string>, answered: set<string>)
    ensures SetOf(Without(ids, answered)) == SetOf(ids) - answered
    ensures Without(ids, answered) == [] <==> SetOf(ids) <= answered
  {
    if ids != [] {
      WithoutIds(ids[1..], answered);
      assert ids == [ids[0]] + ids[1..];
      assert SetOf(ids) == {ids[0]} + SetOf(ids[1..]);
      var w := Without(ids[1..], answered);
      assert ids[0] !in answered ==> SetOf([ids[0]] + w) == {ids[0]} + SetOf(w);
    }
  }

  lemma {:induction false} WithoutNone(ids: seq<string>)
    ensures Without(ids, {}) == ids
  {
    if ids != [] {
      WithoutNone(ids[1..]);
    }
  }

  /** Surviving results answer each seen, not yet answered id that has a result, once. */
  lemma {:induction false} KeptIds(content: seq<Block>, seen: set<string>, answered: set<string>)
    ensures var ids := ResultIds(Kept(content, seen, answered));
            SetOf(ids) == SetOf(ResultIds(content)) * seen - answered && NoDuplicates(ids)
  {
    if content != [] {
      var b, rest := content[0], content[1..];
      if b.ToolResult? {
        assert SetOf(ResultIds(content)) == {b.toolUseId} + SetOf(ResultIds(rest)) by {
          assert ResultIds(content) == [b.toolUseId] + ResultIds(rest);
        }
        if b.toolUseId !in seen || b.toolUseId in answered {
          KeptIds(rest, seen, answered);
        } else {
          KeptIds(rest, seen, answered + {b.toolUseId});
          var ids := ResultIds(Kept(rest, seen, answered + {b.toolUseId}));
          assert b.toolUseId !in SetOf(ids);
          assert ResultIds(Kept(content, seen, answered)) == [b.toolUseId] + ids;
          assert SetOf([b.toolUseId] + ids) == {b.toolUseId} + SetOf(ids);
        }
      } else {
        KeptIds(rest, seen, answered);
        assert ResultIds(content) == ResultIds(rest);
      }
    }
  }

  // ---------- The one-pass loop ----------

  method FilterToolResultBlocks(content: seq<Block>, seen: set<string>, answered: set<string>)
      returns (kept: seq<Block>, answered': set<string>)
    ensures kept == Kept(content, seen, answered)
    ensures answered' == answered + SetOf(ResultIds(kept))
  {
    kept, answered' := [], answered;
    var i := 0;
    while i < |content|
      invariant 0 <= i <= |content|
      invariant Kept(content, seen, answered) == kept + Kept(content[i..], seen, answered')
      invariant answered' == answered + SetOf(ResultIds(kept))
    {
      var b := content[i];
      ghost var before := kept;
      assert content[i..][1..] == content[i + 1..];
      if b.ToolResult? && (b.toolUseId !in seen || b.toolUseId in answered') {
        // Orphan or duplicate.
      } else {
        ResultIdsAppend(kept, [b]);
        kept := kept + [b];
        if b.ToolResult? {
          answered' := answered' + {b.toolUseId};
        }
        Glue(before, [b], Kept(content[i + 1..], seen, answered'));
      }
      i := i + 1;
    }
    assert content[i..] == [];
  }

  method SyntheticToolErrors(ids: seq<string>, answered: set<string>)
      returns (blocks: seq<Block>, answered': set<string>)
    ensures blocks == SyntheticErrors(ids)
    ensures answered' == answered + SetOf(ids)
  {
    blocks, answered' := [], answered;
    for i := 0 to |ids|
      invariant blocks == SyntheticErrors(ids[..i])
      invariant answered' == answered + SetOf(ids[..i])
    {
      assert ids[..i + 1] == ids[..i] + [ids[i]];
      answered' := answered' + {ids[i]};
      blocks := blocks + [SyntheticError(ids[i])];
    }
    assert ids[..|ids|] == ids;
  }

  method Missing(ids: seq<string>, answered: set<string>) returns (missing: seq<string>)
    ensures missing == Without(ids, answered)
  {
    missing := [];
    var i := 0;
    assert ids[0..] == ids;
    while i < |ids|
      invariant 0 <= i <= |ids|
      invariant Without(ids, answered) == missing + Without(ids[i..], answered)
    {
      WithoutStep(ids, i, answered);
      if ids[i] !in answered {
        Glue(missing, [ids[i]], Without(ids[i + 1..], answered));
        missing := missing + [ids[i]];
      }
      i := i + 1;
    }
    assert ids[i..] == [] && Without([], answered) == [];
  }

  lemma WithoutStep(ids: seq<string>, i: nat, answered: set<string>)
    requires i < |ids|
    ensures Without(ids[i..], answered)
         == if ids[i] in answered then Without(ids[i + 1..], answered) else [ids[i]] + Without(ids[i + 1..], answered)
  {
    assert ids[i..][1..] == ids[i + 1..];
    assert [] + Without(ids[i + 1..], answered) == Without(ids[i + 1..], answered);
  }

  predicate EndsInCall(ms: seq<Message>) {
    ms != [] && Calls(ms[|ms| - 1]) != []
  }

  /**
   * The loop itself.  At its head the ids seen and the ids answered are the same set, and the output never ends
   * with an unanswered call, so a tool message met there is always dropped.
   */
  method EnsureToolResultPairing(messages: seq<Message>) returns (out: seq<Message>)
    ensures out == Gate(messages)
  {
    hide Kept, Without, UseIds, ResultIds;
    out := [];
    var i := 0;
    var seen: set<string>, answered: set<string> := {}, {};
    assert messages[0..] == messages;
    while i < |messages|
      invariant 0 <= i <= |messages|
      invariant seen == answered
      invariant !EndsInCall(out)
      invariant Gate(messages) == out + Repaired(messages[i..], seen)
      decreases |messages| - i
    {
      var msg := messages[i];
      ghost var rest, used, start := messages[i..], seen, out;
      assert rest[1..] == messages[i + 1..];
      i := i + 1;
      if IsTool(msg) {
        if !EndsInCall(out) {
          continue;
        }
        assert false;
      }
      var calls := if msg.role == Assistant then UseIds(msg.content) else [];
      seen := seen + SetOf(calls);
      out := out + [msg];
      if calls == [] {
        assert seen == used;
        Glue(start, [msg], Repaired(messages[i..], used));
        continue;
      }
      var resultMsg: Option<Message> := None;
      if i < |messages| && IsTool(messages[i]) {
        assert rest[2..] == messages[i + 1..];
        var kept;
        kept, answered := FilterToolResultBlocks(messages[i].content, seen, answered);
        resultMsg := Some(messages[i].(content := kept));
        i := i + 1;
      }
      ghost var kept := if resultMsg.Some? then resultMsg.value.content else [];
      var answeredHere := if resultMsg.Some? then SetOf(ResultIds(resultMsg.value.content)) else {};
      var missing := Missing(calls, answeredHere);
      WithoutIds(calls, answeredHere);
      WithoutNone(calls);
      if missing != [] {
        var synth;
        synth, answered := SyntheticToolErrors(missing, answered);
        resultMsg := Some(if resultMsg.Some? then resultMsg.value.(content := resultMsg.value.content + synth)
                          else Message(Fresh, Tool, synth));
      }
      if resultMsg.Some? {
        out := out + [resultMsg.value];
      }
      KeptIds(if |rest| > 1 then rest[1].content else [], seen, used);
      assert seen == answered;
      assert calls[0] in SetOf(calls);
      assert resultMsg.Some? && out == start + [msg, resultMsg.value];
      assert resultMsg.value.content == kept + SyntheticErrors(missing);
      Glue(start, [msg, resultMsg.value], Repaired(messages[i..], seen));
    }
    assert messages[i..] == [];
  }
}
