/** What the pairing gate guarantees. */
module PairingProofs {
  import opened Prelude
  import opened Messages
  import opened Pairing

  // ---------- The wire format ----------

  /** If message `i` calls tools, the very next message is a tool message that answers exactly those calls. */
  predicate AnsweredAt(ms: seq<Message>, i: nat)
    requires i < |ms|
  {
    Calls(ms[i]) != [] ==>
      i + 1 < |ms| && IsTool(ms[i + 1]) && SetOf(ResultIds(ms[i + 1].content)) == SetOf(Calls(ms[i]))
  }

  /** A tool message stands directly behind a call; `head` allows one at the very front. */
  predicate AttachedAt(ms: seq<Message>, i: nat, head: bool)
    requires i < |ms|
  {
    IsTool(ms[i]) ==> if i == 0 then head else Calls(ms[i - 1]) != []
  }

  predicate CallsAnswered(ms: seq<Message>) {
    forall i :: 0 <= i < |ms| ==> AnsweredAt(ms, i)
  }

  predicate ToolsAttached(ms: seq<Message>, head: bool) {
    forall i :: 0 <= i < |ms| ==> AttachedAt(ms, i, head)
  }

  predicate WireValid(ms: seq<Message>) {
    CallsAnswered(ms) && ToolsAttached(ms, false)
  }

  /** How many results in tool messages answer `id`. */
  function AnswerCount(ms: seq<Message>, id: string): nat {
    if ms == [] then 0
    else (if IsTool(ms[0]) then Count(ResultIds(ms[0].content), id) else 0) + AnswerCount(ms[1..], id)
  }

  ghost predicate AnsweredOnce(ms: seq<Message>) {
    forall id :: AnswerCount(ms, id) <= 1
  }

  lemma ValidPrepend(m: Message, rest: seq<Message>)
    requires !IsTool(m) && Calls(m) == [] && WireValid(rest)
    ensures WireValid([m] + rest)
  {
    var ms := [m] + rest;
    forall i | 0 < i < |ms| ensures AnsweredAt(ms, i) && AttachedAt(ms, i, false) {
      assert AnsweredAt(rest, i - 1) && AttachedAt(rest, i - 1, false);
    }
  }

  lemma ValidPrependCall(m: Message, reply: Message, rest: seq<Message>)
    requires Calls(m) != [] && IsTool(reply) && WireValid(rest)
    requires SetOf(ResultIds(reply.content)) == SetOf(Calls(m))
    ensures WireValid([m, reply] + rest)
  {
    var ms := [m, reply] + rest;
    forall i | 1 < i < |ms| ensures AnsweredAt(ms, i) && AttachedAt(ms, i, false) {
      assert AnsweredAt(rest, i - 2) && AttachedAt(rest, i - 2, false);
    }
  }

  lemma {:induction false} SyntheticIds(ids: seq<string>)
    ensures ResultIds(SyntheticErrors(ids)) == ids
  {
    if ids != [] {
      assert SyntheticErrors(ids)[1..] == SyntheticErrors(ids[1..]);
      SyntheticIds(ids[1..]);
    }
  }

  /** The ids of an answer: the surviving results, then the missing calls. */
  lemma AnswerIds(calls: seq<string>, results: seq<Block>, used: set<string>)
    ensures var kept := ResultIds(Kept(results, used + SetOf(calls), used));
            ResultIds(Answer(calls, results, used)) == kept + Without(calls, SetOf(kept))
  {
    var kept := Kept(results, used + SetOf(calls), used);
    var missing := Without(calls, SetOf(ResultIds(kept)));
    ResultIdsAppend(kept, SyntheticErrors(missing));
    SyntheticIds(missing);
  }

  lemma AnswerCovers(calls: seq<string>, results: seq<Block>, used: set<string>)
    ensures SetOf(ResultIds(Answer(calls, results, used))) == SetOf(calls)
  {
    hide Kept, Without, Answer, ResultIds;
    var kept := ResultIds(Kept(results, used + SetOf(calls), used));
    AnswerIds(calls, results, used);
    KeptIds(results, used + SetOf(calls), used);
    WithoutIds(calls, SetOf(kept));
    var w := Without(calls, SetOf(kept));
    assert SetOf(kept + w) == SetOf(kept) + SetOf(w);
  }

  /** For any list of messages at all, the gate's output is well-formed. */
  lemma {:induction false} GateIsWireValid(ms: seq<Message>, used: set<string> := {})
    ensures WireValid(Repaired(ms, used))
    decreases |ms|
  {
    hide Answer, WireValid;
    if ms == [] {
      assert WireValid([]) by { EmptyValid(); }
    } else if IsTool(ms[0]) {
      GateIsWireValid(ms[1..], used);
    } else {
      var calls := Calls(ms[0]);
      var used' := used + SetOf(calls);
      if calls == [] {
        GateIsWireValid(ms[1..], used);
        ValidPrepend(ms[0], Repaired(ms[1..], used));
      } else if |ms| > 1 && IsTool(ms[1]) {
        GateIsWireValid(ms[2..], used');
        AnswerCovers(calls, ms[1].content, used);
        ValidPrependCall(ms[0], ms[1].(content := Answer(calls, ms[1].content, used)), Repaired(ms[2..], used'));
      } else {
        GateIsWireValid(ms[1..], used');
        SyntheticIds(calls);
        ValidPrependCall(ms[0], FreshAnswer(calls), Repaired(ms[1..], used'));
      }
    }
  }

  lemma EmptyValid()
    ensures WireValid([])
  {
  }

  function NonTool(ms: seq<Message>): seq<Message> {
    if ms == [] then [] else (if IsTool(ms[0]) then [] else [ms[0]]) + NonTool(ms[1..])
  }

  /** Messages that are not tool messages come through unchanged and in order. */
  lemma {:induction false} GateKeepsConversation(ms: seq<Message>, used: set<string> := {})
    ensures NonTool(Repaired(ms, used)) == NonTool(ms)
    decreases |ms|
  {
    hide Answer;
    if ms != [] {
      if IsTool(ms[0]) {
        GateKeepsConversation(ms[1..], used);
        assert [] + NonTool(ms[1..]) == NonTool(ms[1..]);
      } else {
        var calls := Calls(ms[0]);
        var used' := used + SetOf(calls);
        if calls == [] {
          GateKeepsConversation(ms[1..], used);
          assert ([ms[0]] + Repaired(ms[1..], used))[1..] == Repaired(ms[1..], used);
        } else if |ms| > 1 && IsTool(ms[1]) {
          GateKeepsConversation(ms[2..], used');
          NonToolPair(ms[0], ms[1].(content := Answer(calls, ms[1].content, used)), Repaired(ms[2..], used'));
          assert ms == [ms[0], ms[1]] + ms[2..];
          NonToolPair(ms[0], ms[1], ms[2..]);
        } else {
          GateKeepsConversation(ms[1..], used');
          NonToolPair(ms[0], FreshAnswer(calls), Repaired(ms[1..], used'));
        }
      }
    }
  }

  lemma NonToolPair(m: Message, reply: Message, rest: seq<Message>)
    requires !IsTool(m) && IsTool(reply)
    ensures NonTool([m, reply] + rest) == [m] + NonTool(rest)
  {
    var ms := [m, reply] + rest;
    assert ms[1..] == [reply] + rest;
    assert ms[1..][1..] == rest;
    assert [] + NonTool(rest) == NonTool(rest);
  }

  /** The first result for `id`. */
  function ResultFor(content: seq<Block>, id: string): Block
    requires id in ResultIds(content)
  {
    if content[0].ToolResult? && content[0].toolUseId == id then content[0] else ResultFor(content[1..], id)
  }

  lemma {:induction false} KeptHoldsResult(content: seq<Block>, seen: set<string>, answered: set<string>, id: string)
    requires id in ResultIds(content) && id in seen && id !in answered
    ensures ResultFor(content, id) in Kept(content, seen, answered)
  {
    var b := content[0];
    if !(b.ToolResult? && b.toolUseId == id) {
      var isNew := b.ToolResult? && b.toolUseId in seen && b.toolUseId !in answered;
      var rest := Kept(content[1..], seen, if isNew then answered + {b.toolUseId} else answered);
      assert id in ResultIds(content[1..]) by {
        assert ResultIds(content) == (if b.ToolResult? then [b.toolUseId] else []) + ResultIds(content[1..]);
      }
      KeptHoldsResult(content[1..], seen, if isNew then answered + {b.toolUseId} else answered, id);
      assert Kept(content, seen, answered) == rest || Kept(content, seen, answered) == [b] + rest;
    }
  }

  /** A call that was not made before gets the real result when the next message has one, body and all. */
  lemma AnswerHoldsResult(calls: seq<string>, results: seq<Block>, used: set<string>, id: string)
    requires id in calls && id !in used && id in ResultIds(results)
    ensures ResultFor(results, id) in Answer(calls, results, used)
  {
    KeptHoldsResult(results, used + SetOf(calls), used, id);
  }

  // ---------- How often an id is answered ----------

  /** A tool message right behind message `i` holds a result for `id`. */
  predicate ResultFollows(ms: seq<Message>, i: int, id: string) {
    0 <= i && i + 1 < |ms| && IsTool(ms[i + 1]) && id in ResultIds(ms[i + 1].content)
  }

  ghost predicate Called(ms: seq<Message>, id: string) {
    exists i :: 0 <= i < |ms| && id in Calls(ms[i])
  }

  /** `id` is called by at most one message, and if that message calls it twice its result is at hand. */
  ghost predicate CleanId(ms: seq<Message>, id: string) {
    && (forall i, j :: 0 <= i < j < |ms| ==> !(id in Calls(ms[i]) && id in Calls(ms[j])))
    && (forall i :: 0 <= i < |ms| ==> Count(Calls(ms[i]), id) <= 1 || ResultFollows(ms, i, id))
  }

  lemma CleanStep(ms: seq<Message>, id: string)
    requires ms != []
    ensures Called(ms, id) <==> id in Calls(ms[0]) || Called(ms[1..], id)
    ensures id !in Calls(ms[0]) ==> (CleanId(ms, id) <==> CleanId(ms[1..], id))
    ensures id in Calls(ms[0]) ==>
              (CleanId(ms, id) <==> !Called(ms[1..], id) && (Count(Calls(ms[0]), id) <= 1 || ResultFollows(ms, 0, id)))
  {
    hide Count, Calls, ResultIds, SetOf;
    var rest := ms[1..];
    forall i | 0 <= i < |rest|
      ensures rest[i] == ms[i + 1] && ResultFollows(rest, i, id) == ResultFollows(ms, i + 1, id)
      ensures id in Calls(ms[i + 1]) <==> id in Calls(rest[i])
      ensures id !in Calls(rest[i]) ==> Count(Calls(rest[i]), id) == 0
    {
      CountPositive(Calls(rest[i]), id);
    }
    CountPositive(Calls(ms[0]), id);
    if CleanId(ms, id) {
      forall i, j | 0 <= i < j < |rest| ensures !(id in Calls(rest[i]) && id in Calls(rest[j])) {
        assert id !in Calls(ms[i + 1]) || id !in Calls(ms[j + 1]);
      }
      forall i | 0 <= i < |rest| ensures Count(Calls(rest[i]), id) <= 1 || ResultFollows(rest, i, id) {
        assert Count(Calls(ms[i + 1]), id) <= 1 || ResultFollows(ms, i + 1, id);
      }
    }
    forall i | 0 < i < |ms| ensures ms[i] == rest[i - 1] {
    }
  }

  lemma {:induction false} WithoutCount(ids: seq<string>, answered: set<string>, id: string)
    ensures Count(Without(ids, answered), id) == if id in answered then 0 else Count(ids, id)
  {
    if ids != [] {
      WithoutCount(ids[1..], answered, id);
      var w := Without(ids[1..], answered);
      assert ([ids[0]] + w)[1..] == w && [] + w == w;
    }
  }

  /** One answer holds `id` once if its result is at hand and not used up, else as often as it is called. */
  lemma AnswerCountOf(calls: seq<string>, results: seq<Block>, used: set<string>, id: string)
    requires id in calls ==> id !in used
    ensures Count(ResultIds(Answer(calls, results, used)), id)
         == if id in calls && id in ResultIds(results) then 1 else Count(calls, id)
  {
    hide Kept, Without, Answer, ResultIds;
    var kept := ResultIds(Kept(results, used + SetOf(calls), used));
    AnswerIds(calls, results, used);
    KeptIds(results, used + SetOf(calls), used);
    CountAppend(kept, Without(calls, SetOf(kept)), id);
    WithoutCount(calls, SetOf(kept), id);
    NoDuplicatesCount(kept, id);
    CountPositive(kept, id);
    CountPositive(calls, id);
    assert id in kept <==> id in SetOf(kept);
    assert id in calls <==> id in SetOf(calls);
  }

  /** ... and in any case at least once if it is called, and not at all if it is not. */
  lemma AnswerCountPositive(calls: seq<string>, results: seq<Block>, used: set<string>, id: string)
    ensures Count(ResultIds(Answer(calls, results, used)), id) > 0 <==> id in calls
  {
    hide Answer, ResultIds;
    var ids := ResultIds(Answer(calls, results, used));
    AnswerCovers(calls, results, used);
    CountPositive(ids, id);
    assert id in ids <==> id in SetOf(ids);
    assert id in calls <==> id in SetOf(calls);
  }

  lemma AnswerCountPair(m: Message, reply: Message, rest: seq<Message>, id: string)
    requires !IsTool(m) && IsTool(reply)
    ensures AnswerCount([m, reply] + rest, id) == Count(ResultIds(reply.content), id) + AnswerCount(rest, id)
  {
    var ms := [m, reply] + rest;
    assert ms[1..] == [reply] + rest;
    assert ms[1..][1..] == rest;
  }

  lemma {:induction false} GateAnswerCount(ms: seq<Message>, used: set<string>, id: string)
    ensures AnswerCount(Repaired(ms, used), id) > 0 <==> Called(ms, id)
    ensures id !in used ==> (AnswerCount(Repaired(ms, used), id) <= 1 <==> CleanId(ms, id))
    decreases |ms|
  {
    hide Answer, CleanId, Called, ResultIds, Count, UseIds;
    if ms == [] {
      NothingCalled(id);
    } else {
      CleanStep(ms, id);
      var calls := Calls(ms[0]);
      var used' := used + SetOf(calls);
      if IsTool(ms[0]) {
        GateAnswerCount(ms[1..], used, id);
      } else if calls == [] {
        GateAnswerCount(ms[1..], used, id);
        assert ([ms[0]] + Repaired(ms[1..], used))[1..] == Repaired(ms[1..], used);
      } else {
        CountPositive(calls, id);
        assert id in used' <==> id in used || id in calls;
        if |ms| > 1 && IsTool(ms[1]) {
          GateAnswerCount(ms[2..], used', id);
          assert ms[1..][1..] == ms[2..];
          CleanStep(ms[1..], id);
          AnswerCountPair(ms[0], ms[1].(content := Answer(calls, ms[1].content, used)), Repaired(ms[2..], used'), id);
          AnswerCountPositive(calls, ms[1].content, used, id);
          if id !in used {
            AnswerCountOf(calls, ms[1].content, used, id);
          }
        } else {
          GateAnswerCount(ms[1..], used', id);
          AnswerCountPair(ms[0], FreshAnswer(calls), Repaired(ms[1..], used'), id);
          SyntheticIds(calls);
        }
      }
    }
  }

  lemma NothingCalled(id: string)
    ensures !Called([], id) && CleanId([], id)
  {
  }

  /** Every called id is answered, and no other. */
  lemma GateAnswersExactlyTheCalls(ms: seq<Message>, id: string)
    ensures AnswerCount(Gate(ms), id) > 0 <==> Called(ms, id)
  {
    GateAnswerCount(ms, {}, id);
  }

  /** No id is answered twice exactly when the assistants call every id cleanly. */
  lemma GateAnswersOnceIff(ms: seq<Message>)
    ensures AnsweredOnce(Gate(ms)) <==> forall id :: CleanId(ms, id)
  {
    hide CleanId, Gate;
    forall id ensures AnswerCount(Gate(ms), id) <= 1 <==> CleanId(ms, id) {
      GateCleanId(ms, id);
    }
    if !AnsweredOnce(Gate(ms)) {
      var id :| AnswerCount(Gate(ms), id) > 1;
      assert !CleanId(ms, id);
    }
  }

  lemma GateCleanId(ms: seq<Message>, id: string)
    ensures AnswerCount(Gate(ms), id) <= 1 <==> CleanId(ms, id)
  {
    GateAnswerCount(ms, {}, id);
  }

  /** So the promise that no id is answered twice fails when two assistant messages reuse an id. */
  lemma ReusedIdIsAnsweredTwice(id: string, a: Message, b: Message)
    requires id in Calls(a) && id in Calls(b)
    ensures AnswerCount(Gate([a, b]), id) > 1
  {
    hide Gate;
    GateCleanId([a, b], id);
    assert [a, b][0] == a && [a, b][1] == b;
  }

  // ---------- Fixed points ----------

  lemma {:induction false} KeptEverything(content: seq<Block>, seen: set<string>, answered: set<string>)
    requires NoDuplicates(ResultIds(content))
    requires SetOf(ResultIds(content)) <= seen - answered
    ensures Kept(content, seen, answered) == content
  {
    if content != [] {
      var b, rest := content[0], content[1..];
      assert content == [b] + rest;
      if b.ToolResult? {
        var ids := ResultIds(rest);
        assert ResultIds(content) == [b.toolUseId] + ids;
        assert ResultIds(content)[0] == b.toolUseId && ResultIds(content)[1..] == ids;
        assert b.toolUseId in SetOf(ResultIds(content));
        assert forall i :: 0 <= i < |ids| ==> ids[i] == ResultIds(content)[i + 1];
        forall x | x in SetOf(ids) ensures x in seen - (answered + {b.toolUseId}) {
          var i :| 0 <= i < |ids| && ids[i] == x;
          assert ResultIds(content)[i + 1] in SetOf(ResultIds(content));
        }
        KeptEverything(rest, seen, answered + {b.toolUseId});
      } else {
        assert ResultIds(content) == ResultIds(rest);
        KeptEverything(rest, seen, answered);
      }
    }
  }

  lemma ValidTail(ms: seq<Message>, n: nat, head: bool)
    requires CallsAnswered(ms) && ToolsAttached(ms, head) && n <= |ms|
    ensures CallsAnswered(ms[n..])
    ensures ToolsAttached(ms[n..], n < |ms| && IsTool(ms[n]))
    ensures ToolsAttached(ms[n..], true)
  {
    var tail, h := ms[n..], n < |ms| && IsTool(ms[n]);
    forall i | 0 <= i < |tail|
      ensures AnsweredAt(tail, i) && AttachedAt(tail, i, h) && AttachedAt(tail, i, true)
    {
      assert AnsweredAt(ms, n + i) && AttachedAt(ms, n + i, head);
      assert tail[i] == ms[n + i];
    }
  }

  lemma {:induction false} GateFixes(ms: seq<Message>, used: set<string>)
    requires WireValid(ms) && AnsweredOnce(ms)
    requires forall id :: id in used ==> AnswerCount(ms, id) == 0
    ensures Repaired(ms, used) == ms
    decreases |ms|
  {
    if ms != [] {
      var calls := Calls(ms[0]);
      if calls == [] {
        ValidTail(ms, 1, false);
        assert AttachedAt(ms, 0, false);
        assert 1 < |ms| ==> AttachedAt(ms, 1, false);
        assert forall id :: AnswerCount(ms, id) == AnswerCount(ms[1..], id);
        GateFixes(ms[1..], used);
        assert ms == [ms[0]] + ms[1..];
      } else {
        GateFixesCall(ms, used);
      }
    }
  }

  lemma {:induction false} GateFixesCall(ms: seq<Message>, used: set<string>)
    requires WireValid(ms) && AnsweredOnce(ms) && ms != [] && Calls(ms[0]) != []
    requires forall id :: id in used ==> AnswerCount(ms, id) == 0
    ensures Repaired(ms, used) == ms
    decreases |ms|, 0
  {
    hide Count, Kept, Without, UseIds, ResultIds;
    assert AnsweredAt(ms, 0);
    var calls, reply, rest := Calls(ms[0]), ms[1], ms[2..];
    var ids := ResultIds(reply.content);
    var used' := used + SetOf(calls);
    assert ms == [ms[0], reply] + rest;
    assert Calls(ms[1]) == [];
    assert 2 < |ms| ==> AttachedAt(ms, 2, false);
    ValidTail(ms, 2, false);
    forall id
      ensures AnswerCount(ms, id) == Count(ids, id) + AnswerCount(rest, id)
      ensures id in ids <==> Count(ids, id) > 0
      ensures Count(ids, id) <= 1 && AnswerCount(rest, id) <= 1
    {
      AnswerCountPair(ms[0], reply, rest, id);
      CountPositive(ids, id);
    }
    if !NoDuplicates(ids) {
      var id := Duplicate(ids);
      assert false;
    }
    forall id | id in used' ensures AnswerCount(rest, id) == 0 && (id in ids ==> id !in used) {
      if id in calls {
        assert id in SetOf(ids);
      }
    }
    KeptEverything(reply.content, used', used);
    WithoutIds(calls, SetOf(ids));
    assert Answer(calls, reply.content, used) == reply.content;
    GateFixes(rest, used');
  }

  /** A well-formed history in which nothing is answered twice passes through unchanged. */
  lemma GateKeepsValid(ms: seq<Message>)
    requires WireValid(ms) && AnsweredOnce(ms)
    ensures Gate(ms) == ms
  {
    GateFixes(ms, {});
  }

  // ---------- Suffixes of a valid history ----------

  /** What a history cut from the left looks like: at most its first tool message has lost its call. */
  ghost predicate CutValid(ms: seq<Message>) {
    CallsAnswered(ms) && ToolsAttached(ms, true) && AnsweredOnce(ms)
  }

  lemma {:induction false} AnswerCountTail(ms: seq<Message>, n: nat, id: string)
    requires n <= |ms|
    ensures AnswerCount(ms[n..], id) <= AnswerCount(ms, id)
  {
    if n > 0 {
      AnswerCountTail(ms[1..], n - 1, id);
      assert ms[1..][n - 1..] == ms[n..];
    } else {
      assert ms[n..] == ms;
    }
  }

  lemma CutStaysValid(ms: seq<Message>, n: nat)
    requires CutValid(ms) && n <= |ms|
    ensures CutValid(ms[n..])
  {
    ValidTail(ms, n, true);
    forall id ensures AnswerCount(ms[n..], id) <= 1 {
      AnswerCountTail(ms, n, id);
    }
  }

  /** On a cut history the gate only drops the leading tool message, if there is one; it makes nothing up. */
  lemma GateOnCut(ms: seq<Message>)
    requires CutValid(ms)
    ensures Gate(ms) == if ms != [] && IsTool(ms[0]) then ms[1..] else ms
  {
    if ms != [] && IsTool(ms[0]) {
      ValidTail(ms, 1, true);
      assert 1 < |ms| ==> AttachedAt(ms, 1, true);
      forall id ensures AnswerCount(ms[1..], id) <= 1 {
        AnswerCountTail(ms, 1, id);
      }
      GateKeepsValid(ms[1..]);
    } else {
      ValidTail(ms, 0, true);
      assert ms[0..] == ms;
      GateKeepsValid(ms);
    }
  }

  // ---------- Shape ----------

  lemma {:induction false} KeptShape(a: seq<Block>, b: seq<Block>, seen: set<string>, answered: set<string>)
    requires ShapeOfContent(a) == ShapeOfContent(b)
    ensures ShapeOfContent(Kept(a, seen, answered)) == ShapeOfContent(Kept(b, seen, answered))
  {
    assert |a| == |ShapeOfContent(a)| == |b|;
    if a != [] {
      assert ShapeOfContent(a)[0] == ShapeOfContent(b)[0];
      assert ShapeOfContent(a[1..]) == ShapeOfContent(a)[1..];
      assert ShapeOfContent(b[1..]) == ShapeOfContent(b)[1..];
      var answered' := if a[0].ToolResult? then answered + {a[0].toolUseId} else answered;
      KeptShape(a[1..], b[1..], seen, answered);
      KeptShape(a[1..], b[1..], seen, answered');
      ShapePrepend(a[0], Kept(a[1..], seen, answered'));
      ShapePrepend(b[0], Kept(b[1..], seen, answered'));
    }
  }

  lemma ShapePrepend(b: Block, rest: seq<Block>)
    ensures ShapeOfContent([b] + rest) == [ShapeOfBlock(b)] + ShapeOfContent(rest)
  {
  }

  lemma AnswerShape(calls: seq<string>, a: seq<Block>, b: seq<Block>, used: set<string>)
    requires ShapeOfContent(a) == ShapeOfContent(b)
    ensures ShapeOfContent(Answer(calls, a, used)) == ShapeOfContent(Answer(calls, b, used))
  {
    var seen := used + SetOf(calls);
    var ka, kb := Kept(a, seen, used), Kept(b, seen, used);
    KeptShape(a, b, seen, used);
    ShapeFixesIds(ka, kb);
    var synth := SyntheticErrors(Without(calls, SetOf(ResultIds(ka))));
    assert ShapeOfContent(ka + synth) == ShapeOfContent(ka) + ShapeOfContent(synth);
    assert ShapeOfContent(kb + synth) == ShapeOfContent(kb) + ShapeOfContent(synth);
  }

  lemma ShapesAt(a: seq<Message>, b: seq<Message>, i: nat)
    requires Shapes(a) == Shapes(b) && i < |a|
    ensures |a| == |b| && a[i].id == b[i].id && a[i].role == b[i].role && Calls(a[i]) == Calls(b[i])
    ensures ShapeOfContent(a[i].content) == ShapeOfContent(b[i].content)
    ensures ResultIds(a[i].content) == ResultIds(b[i].content)
    ensures Shapes(a[i..]) == Shapes(b[i..]) && Shapes(a[i + 1..]) == Shapes(b[i + 1..])
  {
    assert |Shapes(a)| == |a| && |Shapes(b)| == |b|;
    assert Shapes(a)[i] == Shapes(b)[i];
    ShapeFixesIds(a[i].content, b[i].content);
    assert Shapes(a[i..]) == Shapes(a)[i..] && Shapes(b[i..]) == Shapes(b)[i..];
    assert Shapes(a[i + 1..]) == Shapes(a)[i + 1..] && Shapes(b[i + 1..]) == Shapes(b)[i + 1..];
  }

  lemma ShapesAppend(a: seq<Message>, b: seq<Message>)
    ensures Shapes(a + b) == Shapes(a) + Shapes(b)
  {
  }

  /** The shape of the gate's output is a function of the shape of its input: texts and bodies play no part. */
  lemma {:induction false} GateShape(a: seq<Message>, b: seq<Message>, used: set<string> := {})
    requires Shapes(a) == Shapes(b)
    ensures Shapes(Repaired(a, used)) == Shapes(Repaired(b, used))
    decreases |a|
  {
    hide Answer, Shapes, ShapeOfContent, UseIds, ResultIds;
    assert |Shapes(a)| == |a| && |Shapes(b)| == |b|;
    if a != [] {
      ShapesAt(a, b, 0);
      var calls := Calls(a[0]);
      var used' := used + SetOf(calls);
      if IsTool(a[0]) {
        GateShape(a[1..], b[1..], used);
      } else if calls == [] {
        GateShape(a[1..], b[1..], used);
        SameShapes([a[0]], [b[0]]);
        ShapesAppend([a[0]], Repaired(a[1..], used));
        ShapesAppend([b[0]], Repaired(b[1..], used));
      } else if |a| > 1 && IsTool(a[1]) {
        ShapesAt(a, b, 1);
        GateShape(a[2..], b[2..], used');
        AnswerShape(calls, a[1].content, b[1].content, used);
        var ra := [a[0], a[1].(content := Answer(calls, a[1].content, used))];
        var rb := [b[0], b[1].(content := Answer(calls, b[1].content, used))];
        SameShapes(ra, rb);
        ShapesAppend(ra, Repaired(a[2..], used'));
        ShapesAppend(rb, Repaired(b[2..], used'));
      } else {
        if |a| > 1 {
          ShapesAt(a, b, 1);
        }
        GateShape(a[1..], b[1..], used');
        SameShapes([a[0], FreshAnswer(calls)], [b[0], FreshAnswer(calls)]);
        ShapesAppend([a[0], FreshAnswer(calls)], Repaired(a[1..], used'));
        ShapesAppend([b[0], FreshAnswer(calls)], Repaired(b[1..], used'));
      }
    }
  }

  lemma SameShapes(a: seq<Message>, b: seq<Message>)
    requires |a| == |b|
    requires forall i :: 0 <= i < |a| ==>
      a[i].id == b[i].id && a[i].role == b[i].role && ShapeOfContent(a[i].content) == ShapeOfContent(b[i].content)
    ensures Shapes(a) == Shapes(b)
  {
  }

  /** Well-formedness too depends on the shape alone. */
  lemma {:induction false} AnswerCountShape(a: seq<Message>, b: seq<Message>, id: string)
    requires Shapes(a) == Shapes(b)
    ensures AnswerCount(a, id) == AnswerCount(b, id)
  {
    assert |Shapes(a)| == |a| && |Shapes(b)| == |b|;
    if a != [] {
      ShapesAt(a, b, 0);
      AnswerCountShape(a[1..], b[1..], id);
    }
  }

  lemma CutValidShape(a: seq<Message>, b: seq<Message>)
    requires Shapes(a) == Shapes(b) && CutValid(a)
    ensures CutValid(b)
  {
    assert |Shapes(a)| == |a| && |Shapes(b)| == |b|;
    forall i | 0 <= i < |a| ensures AnsweredAt(b, i) && AttachedAt(b, i, true) {
      assert AnsweredAt(a, i) && AttachedAt(a, i, true);
      ShapesAt(a, b, i);
      if i > 0 {
        ShapesAt(a, b, i - 1);
      }
      if i + 1 < |a| {
        ShapesAt(a, b, i + 1);
      }
    }
    forall id ensures AnswerCount(b, id) <= 1 {
      AnswerCountShape(a, b, id);
    }
  }
}
