/** Histories made of several turns, each of which may have ended in a call without its reply. */
module Threads {
  import opened Prelude
  import opened Messages
  import opened Pairing
  import opened PairingProofs
  import opened PairingStability
  import opened HistoryProofs

  /** A tool message stands behind a call and answers exactly its ids; one at the very front may have lost its call. */
  predicate PlacedAt(ms: seq<Message>, i: nat)
    requires i < |ms|
  {
    IsTool(ms[i]) && i > 0 ==>
      Calls(ms[i - 1]) != [] && SetOf(ResultIds(ms[i].content)) == SetOf(Calls(ms[i - 1]))
  }

  /** It answers each id once, and none that an earlier message called. */
  predicate NewAt(ms: seq<Message>, i: nat)
    requires i < |ms|
  {
    IsTool(ms[i]) ==>
      && NoDuplicates(ResultIds(ms[i].content))
      && forall k :: 0 <= k < i - 1 ==> SetOf(Calls(ms[k])) !! SetOf(ResultIds(ms[i].content))
  }

  predicate Thread(ms: seq<Message>) {
    forall i :: 0 <= i < |ms| ==> PlacedAt(ms, i) && NewAt(ms, i)
  }

  /** Message `i` calls and has no reply. */
  predicate OpenAt(ms: seq<Message>, i: int) {
    0 <= i < |ms| && Calls(ms[i]) != [] && (i + 1 == |ms| || !IsTool(ms[i + 1]))
  }

  /** Every call without a reply gets synthetic errors right behind it. */
  function Filled(ms: seq<Message>): seq<Message> {
    if ms == [] then []
    else [ms[0]] + (if OpenAt(ms, 0) then [FreshAnswer(Calls(ms[0]))] else []) + Filled(ms[1..])
  }

  /** A leading tool message goes. */
  function Trimmed(ms: seq<Message>): seq<Message> {
    if ms != [] && IsTool(ms[0]) then ms[1..] else ms
  }

  /** A call at the end gets synthetic errors. */
  function Closed(ms: seq<Message>): seq<Message> {
    if ms != [] && Calls(ms[|ms| - 1]) != [] then ms + [FreshAnswer(Calls(ms[|ms| - 1]))] else ms
  }

  lemma ThreadTail(ms: seq<Message>, n: nat)
    requires Thread(ms) && n <= |ms|
    ensures Thread(ms[n..])
  {
    hide Calls, ResultIds, NoDuplicates;
    forall i | 0 <= i < |ms[n..]| ensures PlacedAt(ms[n..], i) && NewAt(ms[n..], i) {
      assert PlacedAt(ms, n + i) && NewAt(ms, n + i);
      assert forall k :: 0 <= k < |ms[n..]| ==> ms[n..][k] == ms[n + k];
    }
  }

  lemma ToolsCallNothing(m: Message)
    requires IsTool(m)
    ensures Calls(m) == []
  {
  }

  lemma NoToolBehindTool(ms: seq<Message>, i: nat)
    requires Thread(ms) && i + 1 < |ms| && IsTool(ms[i])
    ensures !IsTool(ms[i + 1])
  {
    assert PlacedAt(ms, i + 1);
  }

  /** A reply with new ids is left alone. */
  lemma ReplyStays(calls: seq<string>, content: seq<Block>, used: set<string>)
    requires NoDuplicates(ResultIds(content)) && SetOf(ResultIds(content)) == SetOf(calls) && SetOf(calls) !! used
    ensures Answer(calls, content, used) == content
  {
    hide Kept, Without, ResultIds;
    KeptEverything(content, used + SetOf(calls), used);
    WithoutIds(calls, SetOf(ResultIds(content)));
    assert SyntheticErrors([]) == [];
    assert content + [] == content;
  }

  /** No result answers an id in `used`. */
  predicate Unanswered(ms: seq<Message>, used: set<string>) {
    forall i :: 0 <= i < |ms| && IsTool(ms[i]) ==> SetOf(ResultIds(ms[i].content)) !! used
  }

  lemma UnansweredTail(ms: seq<Message>, n: nat, used: set<string>)
    requires Thread(ms) && 0 < n <= |ms| && Unanswered(ms, used) && (n < |ms| ==> !IsTool(ms[n]))
    ensures Unanswered(ms[n..], used + SetOf(Calls(ms[0])))
  {
    hide Calls, ResultIds, NoDuplicates;
    forall i | 0 <= i < |ms[n..]| && IsTool(ms[n..][i])
      ensures SetOf(ResultIds(ms[n..][i].content)) !! used + SetOf(Calls(ms[0]))
    {
      assert ms[n..][i] == ms[n + i] && NewAt(ms, n + i);
    }
  }

  /** The gate fills in what is missing, and does nothing else. */
  lemma {:induction false} RepairFills(ms: seq<Message>, used: set<string>)
    requires Thread(ms) && Unanswered(ms, used) && (ms != [] ==> !IsTool(ms[0]))
    ensures Repaired(ms, used) == Filled(ms)
    decreases |ms|, 1
  {
    hide Calls, ResultIds, Thread, Unanswered, Answer, Repaired, Filled;
    FilledStep(ms);
    if ms == [] {
      NothingRepaired(used);
    } else {
      var m, rest, calls := ms[0], ms[1..], Calls(ms[0]);
      assert ms == [m] + rest;
      FirstReply(ms);
      ThreadTail(ms, 1);
      if calls == [] {
        UnansweredTail(ms, 1, used);
        assert used + SetOf(calls) == used;
        RepairFills(rest, used);
        PassSpeech(m, rest, used);
      } else if OpenAt(ms, 0) {
        UnansweredTail(ms, 1, used);
        RepairFills(rest, used + SetOf(calls));
        PassOpen(m, rest, used);
      } else {
        RepairFillsReply(ms, used);
      }
    }
  }

  lemma {:induction false} RepairFillsReply(ms: seq<Message>, used: set<string>)
    requires Thread(ms) && Unanswered(ms, used) && |ms| > 1 && !IsTool(ms[0]) && IsTool(ms[1])
    requires Calls(ms[0]) != [] && (|ms| > 2 ==> !IsTool(ms[2]))
    ensures Repaired(ms, used) == Filled(ms)
    decreases |ms|, 0
  {
    hide Calls, ResultIds, Thread, Unanswered, Answer, Repaired, Filled;
    var m, reply, tail, calls := ms[0], ms[1], ms[2..], Calls(ms[0]);
    assert ms == [m, reply] + tail;
    FirstIsNew(ms, used);
    ReplyStays(calls, reply.content, used);
    ThreadTail(ms, 2);
    UnansweredTail(ms, 2, used);
    RepairFills(tail, used + SetOf(calls));
    PassCall(m, reply, tail, used);
    assert reply.(content := reply.content) == reply;
    FilledPair(m, reply, tail);
  }

  lemma FilledPair(m: Message, reply: Message, tail: seq<Message>)
    requires IsTool(reply)
    ensures Filled([m, reply] + tail) == [m, reply] + Filled(tail)
  {
    hide Calls, Filled;
    var ms, rest := [m, reply] + tail, [reply] + tail;
    assert ms[1..] == rest && rest[1..] == tail;
    ToolsCallNothing(reply);
    FilledStep(ms);
    FilledStep(rest);
    Glue([m], [reply], Filled(tail));
  }

  lemma FilledStep(ms: seq<Message>)
    ensures Filled(ms) == if ms == [] then []
                          else if OpenAt(ms, 0) then [ms[0], FreshAnswer(Calls(ms[0]))] + Filled(ms[1..])
                          else [ms[0]] + Filled(ms[1..])
  {
    hide Calls;
    if ms != [] {
      assert [ms[0]] + [] == [ms[0]];
    }
  }

  lemma NothingRepaired(used: set<string>)
    ensures Repaired([], used) == []
  {
  }

  /** The first message with calls is open, or followed by its reply. */
  lemma FirstReply(ms: seq<Message>)
    requires Thread(ms) && ms != [] && !IsTool(ms[0])
    ensures Calls(ms[0]) == [] ==> !OpenAt(ms, 0) && (|ms| > 1 ==> !IsTool(ms[1]))
    ensures Calls(ms[0]) != [] && !OpenAt(ms, 0) ==> |ms| > 1 && IsTool(ms[1]) && (|ms| > 2 ==> !IsTool(ms[2]))
    ensures OpenAt(ms, 0) && |ms| > 1 ==> !IsTool(ms[1])
  {
    assert |ms| > 1 ==> PlacedAt(ms, 1);
    if |ms| > 2 && IsTool(ms[1]) {
      NoToolBehindTool(ms, 1);
    }
  }

  lemma FirstIsNew(ms: seq<Message>, used: set<string>)
    requires Thread(ms) && Unanswered(ms, used) && |ms| > 1 && IsTool(ms[1])
    ensures var ids := ResultIds(ms[1].content);
            NoDuplicates(ids) && SetOf(ids) == SetOf(Calls(ms[0])) && SetOf(Calls(ms[0])) !! used
  {
    hide Calls, ResultIds, NoDuplicates;
    assert PlacedAt(ms, 1) && NewAt(ms, 1);
  }

  lemma PassOpen(m: Message, rest: seq<Message>, used: set<string>)
    requires !IsTool(m) && Calls(m) != [] && (rest != [] ==> !IsTool(rest[0]))
    ensures Repaired([m] + rest, used) == [m, FreshAnswer(Calls(m))] + Repaired(rest, used + SetOf(Calls(m)))
  {
    hide Calls;
    var all := [m] + rest;
    assert all[0] == m && all[1..] == rest;
    assert |all| > 1 ==> all[1] == rest[0];
  }

  /**
   * On a thread cut from the left the gate drops a leading tool message and gives every call without a reply its
   * synthetic errors; it does nothing else.
   */
  lemma GateFills(ms: seq<Message>)
    requires Thread(ms)
    ensures Gate(ms) == Filled(Trimmed(ms))
  {
    hide Calls, ResultIds, Thread, Filled;
    if ms != [] && IsTool(ms[0]) {
      ThreadTail(ms, 1);
      if |ms| > 1 {
        NoToolBehindTool(ms, 0);
      }
      RepairFills(ms[1..], {});
    } else {
      RepairFills(ms, {});
    }
  }

  lemma {:induction false} FilledAppend(a: seq<Message>, b: seq<Message>)
    requires b != [] ==> !IsTool(b[0])
    ensures Filled(a + b) == Filled(a) + Filled(b)
  {
    hide Calls;
    if a == [] {
      assert a + b == b && [] + Filled(b) == Filled(b);
    } else {
      var all, rest := a + b, a[1..];
      assert all[1..] == rest + b && all[0] == a[0];
      assert |all| > 1 ==> all[1] == if |a| > 1 then a[1] else b[0];
      FilledAppend(rest, b);
      FilledStep(all);
      FilledStep(a);
      Glue(if OpenAt(a, 0) then [a[0], FreshAnswer(Calls(a[0]))] else [a[0]], Filled(rest), Filled(b));
    }
  }

  /** When calls are open only at the end, there is only the end to fill. */
  lemma {:induction false} FilledAtEnd(ms: seq<Message>)
    requires forall i :: OpenAt(ms, i) ==> i + 1 == |ms|
    ensures Filled(ms) == Closed(ms)
  {
    hide Calls;
    if ms != [] {
      var m, rest := ms[0], ms[1..];
      assert ms == [m] + rest;
      FilledStep(ms);
      forall i | OpenAt(rest, i) ensures i + 1 == |rest| {
        assert OpenAt(ms, i + 1);
      }
      FilledAtEnd(rest);
      if rest != [] {
        assert OpenAt(ms, 0) ==> |ms| == 1;
        assert rest[|rest| - 1] == ms[|ms| - 1];
        Glue([m], rest, [FreshAnswer(Calls(ms[|ms| - 1]))]);
      } else {
        FilledStep([]);
        assert Calls(m) != [] ==> OpenAt(ms, 0);
      }
    }
  }

  /** The messages of a filled history. */
  lemma {:induction false} FilledMembers(ms: seq<Message>, m: Message)
    ensures m in Filled(ms) <==> m in ms || exists i :: OpenAt(ms, i) && m == FreshAnswer(Calls(ms[i]))
  {
    hide Calls;
    if ms != [] {
      var rest := ms[1..];
      FilledStep(ms);
      FilledMembers(rest, m);
      assert ms == [ms[0]] + rest;
      forall i | 0 < i < |ms| ensures OpenAt(ms, i) == OpenAt(rest, i - 1) && ms[i] == rest[i - 1] {
      }
      if exists i :: OpenAt(rest, i) && m == FreshAnswer(Calls(rest[i])) {
        var i :| OpenAt(rest, i) && m == FreshAnswer(Calls(rest[i]));
        assert OpenAt(ms, i + 1);
      }
      if OpenAt(ms, 0) {
        var pair := [ms[0], FreshAnswer(Calls(ms[0]))];
        assert m in pair + Filled(rest) <==> m in pair || m in Filled(rest);
        assert m in pair <==> m == pair[0] || m == pair[1];
      }
    }
  }

  // ---------- Shape ----------

  lemma ThreadShape(a: seq<Message>, b: seq<Message>)
    requires Shapes(a) == Shapes(b) && Thread(a)
    ensures Thread(b)
  {
    hide Calls, ResultIds, NoDuplicates, Shapes, Shape, ShapeOfContent;
    SameLength(a, b);
    forall i | 0 <= i < |b| ensures PlacedAt(b, i) && NewAt(b, i) {
      assert PlacedAt(a, i) && NewAt(a, i);
      forall k | 0 <= k <= i
        ensures Calls(b[k]) == Calls(a[k]) && IsTool(b[k]) == IsTool(a[k])
        ensures ResultIds(b[k].content) == ResultIds(a[k].content)
      {
        ShapesAt(a, b, k);
      }
    }
  }

  lemma SameLength(a: seq<Message>, b: seq<Message>)
    requires Shapes(a) == Shapes(b)
    ensures |a| == |b|
  {
    assert |Shapes(a)| == |a| && |Shapes(b)| == |b|;
  }

  lemma {:induction false} FilledShape(a: seq<Message>, b: seq<Message>)
    requires Shapes(a) == Shapes(b)
    ensures Shapes(Filled(a)) == Shapes(Filled(b))
  {
    hide Calls, ResultIds, Shape, ShapeOfContent, Filled, Shapes;
    SameLength(a, b);
    FilledStep(a);
    FilledStep(b);
    if a != [] {
      ShapesAt(a, b, 0);
      if |a| > 1 {
        ShapesAt(a, b, 1);
      }
      FilledShape(a[1..], b[1..]);
      var synthetic := FreshAnswer(Calls(a[0]));
      SameShapes([a[0], synthetic], [b[0], synthetic]);
      SameShapes([a[0]], [b[0]]);
      ShapesAppend(if OpenAt(a, 0) then [a[0], synthetic] else [a[0]], Filled(a[1..]));
      ShapesAppend(if OpenAt(b, 0) then [b[0], synthetic] else [b[0]], Filled(b[1..]));
    }
  }

  // ---------- Valid histories ----------

  lemma ValidIsThread(ms: seq<Message>)
    requires WireValid(ms) && AnsweredOnce(ms)
    ensures Thread(ms) && forall i :: !OpenAt(ms, i)
  {
    hide Calls, ResultIds, AnsweredOnce, Count;
    forall i | 0 <= i < |ms| ensures PlacedAt(ms, i) && NewAt(ms, i) && !OpenAt(ms, i) {
      assert AnsweredAt(ms, i) && AttachedAt(ms, i, false);
      if IsTool(ms[i]) {
        assert AnsweredAt(ms, i - 1);
        AnsweredIdsAreNew(ms, i);
      }
    }
  }

  lemma {:induction false} AnswerCountAppend(a: seq<Message>, b: seq<Message>, id: string)
    ensures AnswerCount(a + b, id) == AnswerCount(a, id) + AnswerCount(b, id)
  {
    if a == [] {
      assert a + b == b;
    } else {
      assert (a + b)[1..] == a[1..] + b;
      AnswerCountAppend(a[1..], b, id);
    }
  }

  /** Two tool messages at least hold the answers they hold. */
  lemma AnswersAt(ms: seq<Message>, j: nat, i: nat, id: string)
    requires j < i < |ms| && IsTool(ms[j]) && IsTool(ms[i])
    ensures AnswerCount(ms, id) >= Count(ResultIds(ms[j].content), id) + Count(ResultIds(ms[i].content), id)
  {
    hide Count, ResultIds;
    assert ms == ms[..j] + ([ms[j]] + (ms[j + 1..i] + ([ms[i]] + ms[i + 1..])));
    AnswerCountAppend(ms[..j], [ms[j]] + (ms[j + 1..i] + ([ms[i]] + ms[i + 1..])), id);
    AnswerCountAppend([ms[j]], ms[j + 1..i] + ([ms[i]] + ms[i + 1..]), id);
    AnswerCountAppend(ms[j + 1..i], [ms[i]] + ms[i + 1..], id);
    AnswerCountAppend([ms[i]], ms[i + 1..], id);
    assert [ms[j]][1..] == [] && [ms[i]][1..] == [];
  }

  lemma AnswersOf(ms: seq<Message>, i: nat, id: string)
    requires i < |ms| && IsTool(ms[i])
    ensures AnswerCount(ms, id) >= Count(ResultIds(ms[i].content), id)
  {
    hide Count, ResultIds;
    assert ms == ms[..i] + ([ms[i]] + ms[i + 1..]);
    AnswerCountAppend(ms[..i], [ms[i]] + ms[i + 1..], id);
    AnswerCountAppend([ms[i]], ms[i + 1..], id);
    assert [ms[i]][1..] == [];
  }

  lemma AnsweredIdsAreNew(ms: seq<Message>, i: nat)
    requires WireValid(ms) && AnsweredOnce(ms) && 0 < i < |ms| && IsTool(ms[i])
    ensures NewAt(ms, i)
  {
    hide Calls, ResultIds, AnswerCount, Count, NoDuplicates;
    var ids := ResultIds(ms[i].content);
    if !NoDuplicates(ids) {
      var id := Duplicate(ids);
      AnswersOf(ms, i, id);
      assert false;
    }
    forall k, id | 0 <= k < i - 1 && id in SetOf(Calls(ms[k])) ensures id !in SetOf(ids) {
      assert AnsweredAt(ms, k) && Calls(ms[k]) != [];
      AnswersAt(ms, k + 1, i, id);
      CountPositive(ids, id);
      CountPositive(ResultIds(ms[k + 1].content), id);
      assert id in SetOf(ResultIds(ms[k + 1].content));
      assert AnswerCount(ms, id) <= 1;
    }
  }

  // ---------- The load pipeline ----------

  /**
   * For any thread: after redaction, window, cap, collapse and gate the request is a tail of the rows with every id in
   * place, in which exactly the calls without a reply have been given synthetic errors.
   */
  lemma PipelineFills(rows: seq<Message>, redacted: set<MessageId>, cfg: Limits) returns (cut: nat)
    requires Thread(rows)
    ensures cut <= |rows| && Shapes(Gate(Loaded(rows, redacted, cfg))) == Shapes(Filled(rows[cut..]))
    ensures cut < |rows| ==> !IsTool(rows[cut])
  {
    hide Loaded, Gate, Thread, Filled, Shapes, Shape;
    var loaded := Loaded(rows, redacted, cfg);
    cut := LoadedIsTail(rows, redacted, cfg);
    SameLength(loaded, rows[cut..]);
    ThreadTail(rows, cut);
    ThreadShape(rows[cut..], loaded);
    GateFills(loaded);
    if loaded != [] {
      ShapesAt(loaded, rows[cut..], 0);
      if IsTool(loaded[0]) {
        assert rows[cut..][1..] == rows[cut + 1..];
        if cut + 1 < |rows| {
          NoToolBehindTool(rows, cut);
        }
        cut := cut + 1;
      }
    }
    FilledShape(Trimmed(loaded), rows[cut..]);
  }
}
