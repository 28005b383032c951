/** When the pairing gate changes nothing, and when a second pass changes nothing: for every history. */
module PairingStability {
  import opened Prelude
  import opened Messages
  import opened Pairing
  import opened PairingProofs

  // ---------- Answering the answer ----------

  /** The first occurrences of the ids that are not in `known`. */
  function Firsts(ids: seq<string>, known: set<string>): seq<string> {
    if ids == [] then []
    else if ids[0] in known then Firsts(ids[1..], known)
    else [ids[0]] + Firsts(ids[1..], known + {ids[0]})
  }

  lemma {:induction false} FirstsIds(ids: seq<string>, known: set<string>)
    ensures SetOf(Firsts(ids, known)) == SetOf(ids) - known
  {
    if ids != [] {
      assert ids == [ids[0]] + ids[1..];
      assert SetOf(ids) == {ids[0]} + SetOf(ids[1..]);
      if ids[0] in known {
        FirstsIds(ids[1..], known);
      } else {
        var rest := Firsts(ids[1..], known + {ids[0]});
        FirstsIds(ids[1..], known + {ids[0]});
        assert SetOf([ids[0]] + rest) == {ids[0]} + SetOf(rest);
      }
    }
  }

  lemma EmptySet(ids: seq<string>)
    ensures ids == [] <==> SetOf(ids) == {}
  {
    assert ids != [] ==> ids[0] in SetOf(ids);
  }

  lemma {:induction false} KeptAppend(a: seq<Block>, b: seq<Block>, seen: set<string>, answered: set<string>)
    ensures Kept(a + b, seen, answered)
         == Kept(a, seen, answered) + Kept(b, seen, answered + SetOf(ResultIds(Kept(a, seen, answered))))
  {
    if a == [] {
      assert a + b == b;
      assert answered + SetOf([]) == answered;
    } else {
      var x, rest := a[0], a[1..];
      assert (a + b)[0] == x && (a + b)[1..] == rest + b;
      if x.ToolResult? && x.toolUseId in seen && x.toolUseId !in answered {
        var answered' := answered + {x.toolUseId};
        var kept := Kept(rest, seen, answered');
        KeptAppend(rest, b, seen, answered');
        assert ResultIds([x] + kept) == [x.toolUseId] + ResultIds(kept);
        assert answered' + SetOf(ResultIds(kept)) == answered + SetOf([x.toolUseId] + ResultIds(kept));
        Glue([x], kept, Kept(b, seen, answered' + SetOf(ResultIds(kept))));
      } else {
        KeptAppend(rest, b, seen, answered);
        if !x.ToolResult? {
          var kept := Kept(rest, seen, answered);
          assert ResultIds([x] + kept) == ResultIds(kept);
          Glue([x], kept, Kept(b, seen, answered + SetOf(ResultIds(kept))));
        }
      }
    }
  }

  /** Of synthetic errors, the first for each unanswered id survives. */
  lemma {:induction false} KeptSynthetic(ids: seq<string>, seen: set<string>, answered: set<string>)
    requires SetOf(ids) <= seen
    ensures Kept(SyntheticErrors(ids), seen, answered) == SyntheticErrors(Firsts(ids, answered))
  {
    if ids != [] {
      assert SyntheticErrors(ids)[1..] == SyntheticErrors(ids[1..]);
      assert ids[0] in SetOf(ids) && SetOf(ids[1..]) <= SetOf(ids);
      KeptSynthetic(ids[1..], seen, if ids[0] in answered then answered else answered + {ids[0]});
      var f := Firsts(ids[1..], answered + {ids[0]});
      assert SyntheticErrors([ids[0]] + f) == [SyntheticError(ids[0])] + SyntheticErrors(f);
    }
  }

  lemma {:induction false} WithoutTwice(ids: seq<string>, a: set<string>, b: set<string>)
    ensures Without(ids, a + b) == Without(Without(ids, a), b)
  {
    if ids != [] {
      var w := Without(ids[1..], a);
      WithoutTwice(ids[1..], a, b);
      assert [] + w == w && ([ids[0]] + w)[1..] == w;
      assert [] + Without(ids[1..], a + b) == Without(ids[1..], a + b);
    }
  }

  lemma SyntheticAppend(a: seq<string>, b: seq<string>)
    ensures SyntheticErrors(a + b) == SyntheticErrors(a) + SyntheticErrors(b)
  {
  }

  lemma SyntheticInjective(a: seq<string>, b: seq<string>)
    ensures SyntheticErrors(a) == SyntheticErrors(b) <==> a == b
  {
    SyntheticIds(a);
    SyntheticIds(b);
  }

  /** Answering with an answer at hand: its real results stay, and its missing ids come in the order of `Firsts`. */
  lemma AnswerAgain(calls: seq<string>, results: seq<Block>, used: set<string>)
    ensures var kept := Kept(results, used + SetOf(calls), used);
            var have := SetOf(ResultIds(kept));
            var missing := Without(calls, have);
            var firsts := Firsts(missing, used + have);
            && Answer(calls, results, used) == kept + SyntheticErrors(missing)
            && Answer(calls, Answer(calls, results, used), used)
               == kept + SyntheticErrors(firsts + Without(missing, SetOf(firsts)))
  {
    hide Kept, Without, ResultIds, Firsts, SyntheticErrors;
    var seen := used + SetOf(calls);
    var kept := Kept(results, seen, used);
    var have := SetOf(ResultIds(kept));
    var missing := Without(calls, have);
    var firsts := Firsts(missing, used + have);
    var answer := kept + SyntheticErrors(missing);
    KeptIds(results, seen, used);
    KeptEverything(kept, seen, used);
    KeptAppend(kept, SyntheticErrors(missing), seen, used);
    WithoutIds(calls, have);
    KeptSynthetic(missing, seen, used + have);
    assert Kept(answer, seen, used) == kept + SyntheticErrors(firsts);
    ResultIdsAppend(kept, SyntheticErrors(firsts));
    SyntheticIds(firsts);
    SetOfAppend(ResultIds(kept), firsts);
    WithoutTwice(calls, have, SetOf(firsts));
    SyntheticAppend(firsts, Without(missing, SetOf(firsts)));
    Glue(kept, SyntheticErrors(firsts), SyntheticErrors(Without(missing, SetOf(firsts))));
  }

  // ---------- When that is the same answer ----------

  /** An id outside `known` stands before every known one, and stands once. */
  predicate Ordered(ids: seq<string>, known: set<string>) {
    forall j, k :: 0 <= j < k < |ids| && ids[k] !in known ==> ids[j] !in known && ids[j] != ids[k]
  }

  lemma OrderedStep(ids: seq<string>, known: set<string>)
    requires ids != []
    ensures Ordered(ids, known)
       <==> Ordered(ids[1..], known) && forall x :: x in ids[1..] && x !in known ==> ids[0] !in known && ids[0] != x
  {
    var rest := ids[1..];
    assert forall i :: 0 < i < |ids| ==> ids[i] == rest[i - 1];
    assert forall i :: 0 <= i < |rest| ==> rest[i] == ids[i + 1];
    if Ordered(ids, known) {
      forall j, k | 0 <= j < k < |rest| && rest[k] !in known ensures rest[j] !in known && rest[j] != rest[k] {
        assert rest[j] == ids[j + 1] && rest[k] == ids[k + 1];
      }
    }
  }

  lemma {:induction false} FirstsFirst(ids: seq<string>, known: set<string>)
    ensures Firsts(ids, known) + Without(ids, SetOf(Firsts(ids, known))) == ids <==> Ordered(ids, known)
  {
    if ids != [] {
      var x, rest := ids[0], ids[1..];
      OrderedStep(ids, known);
      FirstsIds(ids, known);
      if x in known {
        KnownHead(ids, known);
      } else {
        FirstsFirst(rest, known + {x});
        NewHead(ids, known);
      }
    } else {
      assert Firsts(ids, known) == [];
    }
  }

  lemma AllKnown(ids: seq<string>, known: set<string>)
    requires SetOf(ids) <= known
    ensures Ordered(ids, known)
  {
    assert forall i :: 0 <= i < |ids| ==> ids[i] in SetOf(ids);
  }

  lemma KnownHead(ids: seq<string>, known: set<string>)
    requires ids != [] && ids[0] in known
    ensures Firsts(ids, known) + Without(ids, SetOf(Firsts(ids, known))) == ids <==> Ordered(ids, known)
  {
    hide Firsts, Without, Ordered;
    var f := Firsts(ids, known);
    FirstsIds(ids, known);
    if f == [] {
      WithoutNone(ids);
      assert SetOf(ids) - known == SetOf(f) == {};
      assert forall x :: x in SetOf(ids) ==> x in known || x in SetOf(ids) - known;
      AllKnown(ids, known);
    } else {
      var x := f[0];
      assert x in SetOf(f);
      assert x in ids && x != ids[0];
      var k :| 0 <= k < |ids| && ids[k] == x;
      assert ids[1..][k - 1] == x;
      OrderedStep(ids, known);
      assert (f + Without(ids, SetOf(f)))[0] == x;
    }
  }

  lemma NewHead(ids: seq<string>, known: set<string>)
    requires ids != [] && ids[0] !in known
    requires var rest, more := ids[1..], known + {ids[0]};
             Firsts(rest, more) + Without(rest, SetOf(Firsts(rest, more))) == rest <==> Ordered(rest, more)
    ensures Firsts(ids, known) + Without(ids, SetOf(Firsts(ids, known))) == ids <==> Ordered(ids, known)
  {
    hide Ordered;
    var x, rest := ids[0], ids[1..];
    var f := Firsts(rest, known + {x});
    var w := Without(rest, {x} + SetOf(f));
    NewHeadParts(ids, known, f, w);
    hide Firsts, Without;
    Glue([x], f, w);
    SamePrefix([x], f + w, rest);
    assert ids == [x] + rest;
    OrderedStep(ids, known);
    FirstsIds(rest, known + {x});
    WithoutIds(rest, {x} + SetOf(f));
    if x in rest {
      SetOfAppend(f, w);
      assert x in SetOf(rest) && x !in SetOf(f + w);
    } else {
      WithoutAbsent(rest, x, SetOf(f));
      OrderedAbsent(rest, known, x);
    }
  }

  lemma NewHeadParts(ids: seq<string>, known: set<string>, f: seq<string>, w: seq<string>)
    requires ids != [] && ids[0] !in known
    requires f == Firsts(ids[1..], known + {ids[0]}) && w == Without(ids[1..], {ids[0]} + SetOf(f))
    ensures Firsts(ids, known) == [ids[0]] + f
    ensures Without(ids, SetOf([ids[0]] + f)) == w
  {
    assert SetOf([ids[0]] + f) == {ids[0]} + SetOf(f);
    assert [] + w == w;
  }

  lemma OrderedAbsent(ids: seq<string>, known: set<string>, x: string)
    requires x !in ids
    ensures Ordered(ids, known + {x}) <==> Ordered(ids, known)
  {
  }

  lemma {:induction false} WithoutAbsent(ids: seq<string>, x: string, answered: set<string>)
    requires x !in ids
    ensures Without(ids, {x} + answered) == Without(ids, answered)
  {
    if ids != [] {
      WithoutAbsent(ids[1..], x, answered);
    }
  }

  /**
   * A new id (one not in `used`) without a result in `have` is called before every reused id, and not for the second
   * time.
   */
  predicate Settles(calls: seq<string>, have: set<string>, used: set<string>) {
    forall j, k :: 0 <= j < k < |calls| && calls[k] !in used && calls[k] !in have ==>
      calls[j] !in used && calls[j] != calls[k]
  }

  lemma SettlesStep(calls: seq<string>, have: set<string>, used: set<string>)
    requires calls != []
    ensures Settles(calls, have, used)
       <==> Settles(calls[1..], have, used)
            && forall x :: x in calls[1..] && x !in used && x !in have ==> calls[0] !in used && calls[0] != x
  {
    var rest := calls[1..];
    assert forall i :: 0 < i < |calls| ==> calls[i] == rest[i - 1];
    if Settles(calls, have, used) {
      forall j, k | 0 <= j < k < |rest| && rest[k] !in used && rest[k] !in have
        ensures rest[j] !in used && rest[j] != rest[k]
      {
        assert rest[j] == calls[j + 1] && rest[k] == calls[k + 1];
      }
      forall k | 0 <= k < |rest| && rest[k] !in used && rest[k] !in have
        ensures calls[0] !in used && calls[0] != rest[k]
      {
        assert rest[k] == calls[k + 1];
      }
    }
  }

  /** `Settles` for the calls that are left when those in `have` are taken away. */
  lemma {:induction false} SettlesWithout(calls: seq<string>, have: set<string>, used: set<string>)
    requires have !! used
    ensures Ordered(Without(calls, have), used + have) <==> Settles(calls, have, used)
  {
    hide Settles, Ordered;
    if calls == [] {
      NoCallsSettle(have, used);
    } else {
      var x, rest := calls[0], calls[1..];
      var w := Without(rest, have);
      SettlesWithout(rest, have, used);
      SettlesStep(calls, have, used);
      WithoutIds(rest, have);
      assert forall y :: (y in w <==> y in SetOf(w)) && (y in rest <==> y in SetOf(rest));
      assert Without(calls, have) == (if x in have then [] else [x]) + w;
      hide Without;
      if x in have {
        assert [] + w == w;
      } else {
        assert ([x] + w)[1..] == w;
        OrderedStep([x] + w, used + have);
      }
    }
  }

  /** Answering the answer changes nothing exactly when the calls settle. */
  lemma AnswerTwice(calls: seq<string>, results: seq<Block>, used: set<string>)
    ensures Answer(calls, Answer(calls, results, used), used) == Answer(calls, results, used)
       <==> Settles(calls, SetOf(ResultIds(results)), used)
  {
    hide Kept, Without, Answer, Firsts, ResultIds, Settles, Ordered, SyntheticErrors;
    var kept := Kept(results, used + SetOf(calls), used);
    var have := SetOf(ResultIds(kept));
    var missing := Without(calls, have);
    var firsts := Firsts(missing, used + have);
    KeptIds(results, used + SetOf(calls), used);
    AnswerAgain(calls, results, used);
    SamePrefix(kept, SyntheticErrors(firsts + Without(missing, SetOf(firsts))), SyntheticErrors(missing));
    SyntheticInjective(firsts + Without(missing, SetOf(firsts)), missing);
    FirstsFirst(missing, used + have);
    SettlesWithout(calls, have, used);
    SameSettles(calls, have, SetOf(ResultIds(results)), used);
  }

  lemma SameSettles(calls: seq<string>, a: set<string>, b: set<string>, used: set<string>)
    requires a == b * (used + SetOf(calls)) - used
    ensures Settles(calls, a, used) <==> Settles(calls, b, used)
  {
    forall i | 0 <= i < |calls| && calls[i] !in used ensures calls[i] in a <==> calls[i] in b {
      assert calls[i] in SetOf(calls);
    }
  }

  // ---------- A second pass ----------

  /** The ids called before message `i`, and those in `used`. */
  function CalledBefore(ms: seq<Message>, i: nat, used: set<string>): set<string>
    requires i <= |ms|
  {
    if i == 0 then used else CalledBefore(ms[1..], i - 1, used + SetOf(Calls(ms[0])))
  }

  lemma {:induction false} CalledBeforeIds(ms: seq<Message>, i: nat, used: set<string>, id: string)
    requires i <= |ms|
    ensures id in CalledBefore(ms, i, used) <==> id in used || Called(ms[..i], id)
  {
    hide Calls;
    if i > 0 {
      CalledBeforeIds(ms[1..], i - 1, used + SetOf(Calls(ms[0])), id);
      assert ms[..i][1..] == ms[1..][..i - 1] && ms[..i][0] == ms[0];
      CleanStep(ms[..i], id);
      assert id in SetOf(Calls(ms[0])) <==> id in Calls(ms[0]);
    }
  }

  /** The ids that the message right behind message `i` holds results for, if it is a tool message. */
  function ResultsBehind(ms: seq<Message>, i: nat): set<string>
    requires i < |ms|
  {
    if i + 1 < |ms| && IsTool(ms[i + 1]) then SetOf(ResultIds(ms[i + 1].content)) else {}
  }

  predicate SettlesAt(ms: seq<Message>, i: nat, used: set<string>)
    requires i < |ms|
  {
    Settles(Calls(ms[i]), ResultsBehind(ms, i), CalledBefore(ms, i, used))
  }

  /** Every message's calls settle. */
  predicate AllSettle(ms: seq<Message>, used: set<string>) {
    forall i :: 0 <= i < |ms| ==> SettlesAt(ms, i, used)
  }

  lemma AllSettleStep(ms: seq<Message>, used: set<string>)
    requires ms != []
    ensures AllSettle(ms, used) <==>
              Settles(Calls(ms[0]), ResultsBehind(ms, 0), used) && AllSettle(ms[1..], used + SetOf(Calls(ms[0])))
  {
    hide Settles, Calls, ResultIds;
    var rest, used' := ms[1..], used + SetOf(Calls(ms[0]));
    forall i | 0 <= i < |rest| ensures SettlesAt(rest, i, used') == SettlesAt(ms, i + 1, used) {
      assert rest[i] == ms[i + 1] && ResultsBehind(rest, i) == ResultsBehind(ms, i + 1);
    }
    assert SettlesAt(ms, 0, used) == Settles(Calls(ms[0]), ResultsBehind(ms, 0), used);
    if AllSettle(rest, used') {
      forall i | 0 <= i < |ms| && i > 0 ensures SettlesAt(ms, i, used) {
        assert SettlesAt(rest, i - 1, used');
      }
    }
  }

  lemma NoCallsSettle(have: set<string>, used: set<string>)
    ensures Settles([], have, used) && Ordered([], used + have) && used + SetOf([]) == used
  {
  }

  lemma PassSpeech(m: Message, rest: seq<Message>, used: set<string>)
    requires !IsTool(m) && Calls(m) == []
    ensures Repaired([m] + rest, used) == [m] + Repaired(rest, used)
    ensures Repaired([m] + rest, used) == [m] + rest <==> Repaired(rest, used) == rest
  {
    assert ([m] + rest)[1..] == rest;
    assert ([m] + Repaired(rest, used))[1..] == Repaired(rest, used);
  }

  lemma PassCall(m: Message, reply: Message, rest: seq<Message>, used: set<string>)
    requires !IsTool(m) && Calls(m) != [] && IsTool(reply)
    ensures var answer := Answer(Calls(m), reply.content, used);
            var tail := Repaired(rest, used + SetOf(Calls(m)));
            && Repaired([m, reply] + rest, used) == [m, reply.(content := answer)] + tail
            && (Repaired([m, reply] + rest, used) == [m, reply] + rest <==> answer == reply.content && tail == rest)
  {
    hide Answer;
    var ms := [m, reply] + rest;
    assert ms[0] == m && ms[1] == reply && ms[2..] == rest;
    var answer := Answer(Calls(m), reply.content, used);
    var tail := Repaired(rest, used + SetOf(Calls(m)));
    var out := [m, reply.(content := answer)] + tail;
    assert Repaired(ms, used) == out;
    assert out[1] == reply.(content := answer) && out[2..] == tail;
    assert answer == reply.content ==> reply.(content := answer) == reply;
  }

  /** From any point of the loop: what was repaired is repaired to itself exactly when all calls settle. */
  lemma {:induction false} SecondPass(ms: seq<Message>, used: set<string>)
    ensures Repaired(Repaired(ms, used), used) == Repaired(ms, used) <==> AllSettle(ms, used)
    decreases |ms|
  {
    hide Answer, AllSettle, Settles, UseIds, ResultIds;
    if ms == [] {
      NothingSettles(used);
    } else {
      AllSettleStep(ms, used);
      var m, calls := ms[0], Calls(ms[0]);
      var used' := used + SetOf(calls);
      if calls == [] {
        NoCallsSettle(ResultsBehind(ms, 0), used);
        SecondPass(ms[1..], used);
        if !IsTool(m) {
          PassSpeech(m, Repaired(ms[1..], used), used);
        }
      } else if |ms| > 1 && IsTool(ms[1]) {
        AllSettleStep(ms[1..], used');
        assert Calls(ms[1]) == [];
        NoCallsSettle(ResultsBehind(ms[1..], 0), used');
        assert ms[1..][1..] == ms[2..];
        SecondPass(ms[2..], used');
        PassCall(m, ms[1].(content := Answer(calls, ms[1].content, used)), Repaired(ms[2..], used'), used);
        AnswerTwice(calls, ms[1].content, used);
      } else {
        SecondPass(ms[1..], used');
        PassCall(m, FreshAnswer(calls), Repaired(ms[1..], used'), used);
        FreshIsAnswer(calls, used);
        AnswerTwice(calls, [], used);
      }
    }
  }

  lemma FreshIsAnswer(calls: seq<string>, used: set<string>)
    ensures Answer(calls, [], used) == SyntheticErrors(calls) && SetOf(ResultIds([])) == {}
  {
    WithoutNone(calls);
    assert SetOf(ResultIds([])) == {};
    assert [] + SyntheticErrors(calls) == SyntheticErrors(calls);
  }

  lemma NothingSettles(used: set<string>)
    ensures AllSettle([], used) && AllFixed([], used)
  {
  }

  /**
   * A second pass of the gate changes nothing if and only if, in every message, an id that no earlier message called
   * and that has no result right behind is called before every id called earlier, and only once.
   */
  lemma GateIsIdempotent(ms: seq<Message>)
    ensures Gate(Gate(ms)) == Gate(ms) <==> AllSettle(ms, {})
  {
    hide Repaired, AllSettle;
    SecondPass(ms, {});
  }

  /** So a message that calls one id twice and gets no result makes the gate change its own output. */
  lemma DoubleCallIsNotStable(m: Message, id: string)
    requires Count(Calls(m), id) > 1
    ensures Gate(Gate([m])) != Gate([m])
  {
    GateIsIdempotent([m]);
    assert SettlesAt([m], 0, {}) ==> Settles(Calls(m), {}, {});
    if Settles(Calls(m), {}, {}) {
      assert NoDuplicates(Calls(m));
      NoDuplicatesCount(Calls(m), id);
      assert false;
    }
  }

  // ---------- Fixed points ----------

  /** The calls that an earlier message made before, in the order of the calls. */
  function Reused(calls: seq<string>, used: set<string>): seq<string> {
    Without(calls, SetOf(calls) - used)
  }

  /**
   * A reply the gate leaves alone: one result for each new id, in any order and among any other blocks, then a
   * synthetic error for each reused one in the order of the calls.
   */
  predicate StableReply(calls: seq<string>, content: seq<Block>, used: set<string>) {
    var errors := SyntheticErrors(Reused(calls, used));
    |errors| <= |content|
    && var n := |content| - |errors|;
       && content[n..] == errors
       && NoDuplicates(ResultIds(content[..n]))
       && SetOf(ResultIds(content[..n])) == SetOf(calls) - used
  }

  lemma AnswerFixes(calls: seq<string>, content: seq<Block>, used: set<string>)
    requires StableReply(calls, content, used)
    ensures Answer(calls, content, used) == content
  {
    hide Kept, ResultIds, SyntheticErrors, NoDuplicates, Firsts, Without;
    var again := Reused(calls, used);
    var n := |content| - |again|;
    var results, seen := content[..n], used + SetOf(calls);
    var have := SetOf(ResultIds(results));
    KeptEverything(results, seen, used);
    KeptAppend(results, SyntheticErrors(again), seen, used);
    WithoutIds(calls, SetOf(calls) - used);
    assert SetOf(again) <= used;
    KeptSynthetic(again, seen, used + have);
    FirstsIds(again, used + have);
    NoFirsts(again, used + have);
    assert content == results + SyntheticErrors(again);
    assert Kept(content, seen, used) == results + [] == results;
  }

  lemma NoFirsts(ids: seq<string>, known: set<string>)
    requires SetOf(ids) <= known
    ensures SyntheticErrors(Firsts(ids, known)) == []
  {
    FirstsIds(ids, known);
    EmptySet(Firsts(ids, known));
  }

  lemma FixedIsStable(calls: seq<string>, content: seq<Block>, used: set<string>)
    requires Answer(calls, content, used) == content
    ensures StableReply(calls, content, used)
  {
    hide Kept, ResultIds, SyntheticErrors, NoDuplicates, Without;
    var seen := used + SetOf(calls);
    var kept := Kept(content, seen, used);
    var have := SetOf(ResultIds(kept));
    var missing := Without(calls, have);
    KeptIds(content, seen, used);
    ResultIdsAppend(kept, SyntheticErrors(missing));
    SyntheticIds(missing);
    SetOfAppend(ResultIds(kept), missing);
    WithoutIds(calls, have);
    assert SetOf(ResultIds(content)) == have + (SetOf(calls) - have);
    assert have == SetOf(calls) - used;
    assert missing == Reused(calls, used);
    assert content == kept + SyntheticErrors(missing);
    assert content[..|kept|] == kept && content[|kept|..] == SyntheticErrors(missing);
  }

  /** Message `i` is in place: a tool message stands behind a call, and a call has a reply the gate leaves alone. */
  predicate FixedAt(ms: seq<Message>, i: nat, used: set<string>)
    requires i < |ms|
  {
    && AttachedAt(ms, i, false)
    && (Calls(ms[i]) != [] ==>
          i + 1 < |ms| && IsTool(ms[i + 1]) && StableReply(Calls(ms[i]), ms[i + 1].content, CalledBefore(ms, i, used)))
  }

  predicate AllFixed(ms: seq<Message>, used: set<string>) {
    forall i :: 0 <= i < |ms| ==> FixedAt(ms, i, used)
  }

  lemma FixedSpeech(ms: seq<Message>, used: set<string>)
    requires ms != [] && Calls(ms[0]) == []
    ensures AllFixed(ms, used) <==> !IsTool(ms[0]) && AllFixed(ms[1..], used)
  {
    hide StableReply, UseIds;
    var rest := ms[1..];
    assert used + SetOf(Calls(ms[0])) == used;
    forall i | 0 < i < |ms| ensures FixedAt(ms, i, used) == FixedAt(rest, i - 1, used) {
      assert rest[i - 1] == ms[i] && CalledBefore(ms, i, used) == CalledBefore(rest, i - 1, used);
      assert i == 1 ==> AttachedAt(ms, 1, false) == !IsTool(ms[1]);
    }
    assert FixedAt(ms, 0, used) == !IsTool(ms[0]);
    if AllFixed(ms, used) {
      forall i | 0 <= i < |rest| ensures FixedAt(rest, i, used) {
        assert FixedAt(ms, i + 1, used);
      }
    }
  }

  lemma FixedCall(ms: seq<Message>, used: set<string>)
    requires ms != [] && Calls(ms[0]) != []
    ensures AllFixed(ms, used) <==>
              && |ms| > 1 && IsTool(ms[1]) && StableReply(Calls(ms[0]), ms[1].content, used)
              && AllFixed(ms[2..], used + SetOf(Calls(ms[0])))
  {
    hide StableReply, UseIds;
    if |ms| > 1 && IsTool(ms[1]) {
      var rest, used' := ms[2..], used + SetOf(Calls(ms[0]));
      assert Calls(ms[1]) == [];
      assert used' + SetOf(Calls(ms[1])) == used';
      forall i | 1 < i < |ms| ensures FixedAt(ms, i, used) == FixedAt(rest, i - 2, used') {
        assert rest[i - 2] == ms[i] && ms[1..][1..] == rest;
        assert CalledBefore(ms, i, used) == CalledBefore(ms[1..], i - 1, used') == CalledBefore(rest, i - 2, used');
      }
      assert FixedAt(ms, 1, used);
      assert FixedAt(ms, 0, used) == StableReply(Calls(ms[0]), ms[1].content, used);
      if AllFixed(ms, used) {
        forall i | 0 <= i < |rest| ensures FixedAt(rest, i, used') {
          assert FixedAt(ms, i + 2, used);
        }
      }
    } else {
      assert !FixedAt(ms, 0, used);
    }
  }

  lemma {:induction false} FixedPoints(ms: seq<Message>, used: set<string>)
    ensures Repaired(ms, used) == ms <==> AllFixed(ms, used)
    decreases |ms|
  {
    hide Answer, AllFixed, StableReply, UseIds, ResultIds;
    if ms == [] {
      NothingSettles(used);
    } else if Calls(ms[0]) == [] {
      FixedSpeech(ms, used);
      if IsTool(ms[0]) {
        ShorterThan(ms, used);
      } else {
        FixedPoints(ms[1..], used);
        assert ms == [ms[0]] + ms[1..];
        PassSpeech(ms[0], ms[1..], used);
      }
    } else {
      FixedCall(ms, used);
      var calls := Calls(ms[0]);
      if |ms| > 1 && IsTool(ms[1]) {
        FixedPoints(ms[2..], used + SetOf(calls));
        assert ms == [ms[0], ms[1]] + ms[2..];
        PassCall(ms[0], ms[1], ms[2..], used);
        if StableReply(calls, ms[1].content, used) {
          AnswerFixes(calls, ms[1].content, used);
        }
        if Answer(calls, ms[1].content, used) == ms[1].content {
          FixedIsStable(calls, ms[1].content, used);
        }
      } else {
        assert IsTool(Repaired(ms, used)[1]);
      }
    }
  }

  /** A leading tool message goes, so the output differs. */
  lemma ShorterThan(ms: seq<Message>, used: set<string>)
    requires ms != [] && IsTool(ms[0])
    ensures Repaired(ms, used) != ms
  {
    GateIsWireValid(ms, used);
    var out := Repaired(ms, used);
    assert out != [] ==> AttachedAt(out, 0, false);
  }

  /** The gate changes nothing if and only if every message is in place; reused ids may occur. */
  lemma GateFixedPoints(ms: seq<Message>)
    ensures Gate(ms) == ms <==> AllFixed(ms, {})
  {
    hide Repaired, AllFixed;
    FixedPoints(ms, {});
  }
}
