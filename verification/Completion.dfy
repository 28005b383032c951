/** How plugin calls and approval requests come to an end, step by step from the outside. */
module Completion {
  import Rpc
  import Approval

  // ---------- Plugin calls ----------

  lemma {:induction false} RpcStep(steps: seq<Rpc.Step>, step: Rpc.Step)
    ensures Rpc.Run(steps + [step]) == Rpc.Next(Rpc.Run(steps), step)
  {
    assert (steps + [step])[..|steps|] == steps;
  }

  /** The call gets an id no call had before, its slot, and waits. */
  lemma CallStarts(steps: seq<Rpc.Step>, c: Rpc.Caller)
    requires c !in Rpc.Run(steps).phases
    ensures var s, t := Rpc.Run(steps), Rpc.Run(steps + [Rpc.Draw(c), Rpc.Register(c), Rpc.Sent(c, true)]);
            && c in t.ids && t.ids[c] == s.nextId > 0 && t.nextId == s.nextId + 1
            && (forall d :: d in s.ids ==> d in t.ids && t.ids[d] == s.ids[d] < t.ids[c])
            && c in t.phases && t.phases[c] == Rpc.Waiting && c !in t.mailbox
            && Rpc.Number(t.ids[c]) in t.pending && t.pending[Rpc.Number(t.ids[c])] == c
  {
    Rpc.RunKeeps(steps);
    IdsArePositive(steps);
    var s := Rpc.Run(steps);
    forall d | d in s.ids ensures s.ids[d] < s.nextId {
      assert Rpc.CallOk(s, d);
    }
    assert steps + [Rpc.Draw(c), Rpc.Register(c), Rpc.Sent(c, true)]
        == steps + [Rpc.Draw(c)] + [Rpc.Register(c)] + [Rpc.Sent(c, true)];
    RpcStep(steps, Rpc.Draw(c));
    RpcStep(steps + [Rpc.Draw(c)], Rpc.Register(c));
    RpcStep(steps + [Rpc.Draw(c)] + [Rpc.Register(c)], Rpc.Sent(c, true));
  }

  lemma {:induction false} IdsArePositive(steps: seq<Rpc.Step>)
    ensures Rpc.Run(steps).nextId > 0
  {
    if steps != [] {
      IdsArePositive(steps[..|steps| - 1]);
    }
  }

  /** The response to its id, once it comes, is what the call returns, whatever else is in flight. */
  lemma ResponseIsReturned(steps: seq<Rpc.Step>, c: Rpc.Caller, payload: string)
    requires Rpc.In(Rpc.Run(steps), c, Rpc.Waiting) && c !in Rpc.Run(steps).mailbox
    ensures var s := Rpc.Run(steps);
            var response := Rpc.Response(Rpc.Number(s.ids[c]), payload);
            var t := Rpc.Run(steps + [Rpc.Dispatch(response), Rpc.Receive(c)]);
            c in t.phases && t.phases[c] == Rpc.Got(response)
  {
    Rpc.WaitingIsReachable(steps, c);
    var response := Rpc.Response(Rpc.Number(Rpc.Run(steps).ids[c]), payload);
    assert steps + [Rpc.Dispatch(response), Rpc.Receive(c)] == steps + [Rpc.Dispatch(response)] + [Rpc.Receive(c)];
    RpcStep(steps, Rpc.Dispatch(response));
    RpcStep(steps + [Rpc.Dispatch(response)], Rpc.Receive(c));
  }

  /** A response that is there wins over the deadline; without one the deadline ends the call and clears its slot. */
  lemma DeadlineEnds(steps: seq<Rpc.Step>, c: Rpc.Caller)
    requires Rpc.In(Rpc.Run(steps), c, Rpc.Waiting)
    ensures var s, t := Rpc.Run(steps), Rpc.Run(steps + [Rpc.Expire(c), Rpc.CleanUp(c)]);
            if c in s.mailbox then t == s
            else c in t.phases && t.phases[c] == Rpc.Failed(Rpc.Timeout) && Rpc.Number(s.ids[c]) !in t.pending
  {
    assert steps + [Rpc.Expire(c), Rpc.CleanUp(c)] == steps + [Rpc.Expire(c)] + [Rpc.CleanUp(c)];
    RpcStep(steps, Rpc.Expire(c));
    RpcStep(steps + [Rpc.Expire(c)], Rpc.CleanUp(c));
  }

  /** A request that cannot be written fails at once and clears its slot. */
  lemma ClosedWriterEnds(steps: seq<Rpc.Step>, c: Rpc.Caller)
    requires Rpc.In(Rpc.Run(steps), c, Rpc.Registered)
    ensures var s, t := Rpc.Run(steps), Rpc.Run(steps + [Rpc.Sent(c, false), Rpc.CleanUp(c)]);
            c in t.phases && t.phases[c] == Rpc.Failed(Rpc.SendClosed) && Rpc.Number(s.ids[c]) !in t.pending
  {
    assert steps + [Rpc.Sent(c, false), Rpc.CleanUp(c)] == steps + [Rpc.Sent(c, false)] + [Rpc.CleanUp(c)];
    RpcStep(steps, Rpc.Sent(c, false));
    RpcStep(steps + [Rpc.Sent(c, false)], Rpc.CleanUp(c));
  }

  // ---------- Approval requests ----------

  lemma {:induction false} ApprovalStep(steps: seq<Approval.Step>, step: Approval.Step)
    ensures Approval.Run(steps + [step]) == Approval.Next(Approval.Run(steps), step)
  {
    assert (steps + [step])[..|steps|] == steps;
  }

  /** A new request registers its token before it is presented; a good ack makes it wait, a bad one ends it. */
  lemma RequestStarts(steps: seq<Approval.Step>, t: Approval.Token)
    requires t !in Approval.Run(steps).phases
    ensures var s := Approval.Run(steps + [Approval.Request(t)]);
            t in s.registry && Approval.In(s, t, Approval.Asking)
    ensures var s := Approval.Run(steps + [Approval.Request(t), Approval.Ack(t, true)]);
            t in s.registry && Approval.In(s, t, Approval.Waiting)
    ensures var s := Approval.Run(steps + [Approval.Request(t), Approval.Ack(t, false), Approval.TakeBack(t)]);
            t !in s.registry && Approval.In(s, t, Approval.Failed(Approval.NotAcknowledged))
  {
    var asked, refused := steps + [Approval.Request(t)], Approval.Ack(t, false);
    assert steps + [Approval.Request(t), Approval.Ack(t, true)] == asked + [Approval.Ack(t, true)];
    assert steps + [Approval.Request(t), refused, Approval.TakeBack(t)] == asked + [refused] + [Approval.TakeBack(t)];
    ApprovalStep(steps, Approval.Request(t));
    ApprovalStep(asked, Approval.Ack(t, true));
    ApprovalStep(asked, refused);
    ApprovalStep(asked + [refused], Approval.TakeBack(t));
  }

  /** The decision of an authentic callback is what a waiting request returns. */
  lemma DecisionIsReturned(steps: seq<Approval.Step>, t: Approval.Token, d: Approval.Decision)
    requires Approval.In(Approval.Run(steps), t, Approval.Waiting) && t in Approval.Run(steps).registry
    ensures var s := Approval.Run(steps + [Approval.Callback(t, true, d), Approval.Receive(t)]);
            Approval.In(s, t, Approval.Decided(d)) && t !in s.registry && s.forwarded == Approval.Run(steps).forwarded
  {
    var heard := steps + [Approval.Callback(t, true, d)];
    assert steps + [Approval.Callback(t, true, d), Approval.Receive(t)] == heard + [Approval.Receive(t)];
    ApprovalStep(steps, Approval.Callback(t, true, d));
    ApprovalStep(heard, Approval.Receive(t));
  }

  /** A callback that is not authentic changes nothing; one for a token no longer registered is passed on. */
  lemma OtherCallbacks(steps: seq<Approval.Step>, t: Approval.Token, d: Approval.Decision)
    ensures Approval.Run(steps + [Approval.Callback(t, false, d)]) == Approval.Run(steps)
    ensures t !in Approval.Run(steps).registry ==>
              Approval.Run(steps + [Approval.Callback(t, true, d)]).forwarded
              == Approval.Run(steps).forwarded + [(t, d)]
  {
    ApprovalStep(steps, Approval.Callback(t, false, d));
    ApprovalStep(steps, Approval.Callback(t, true, d));
  }

  /** A decision that is there wins over the deadline; without one the deadline ends the request. */
  lemma DeadlineEndsRequest(steps: seq<Approval.Step>, t: Approval.Token)
    requires Approval.In(Approval.Run(steps), t, Approval.Waiting)
    ensures var s, u := Approval.Run(steps), Approval.Run(steps + [Approval.Expire(t), Approval.TakeBack(t)]);
            if t in s.channel then u == s
            else Approval.In(u, t, Approval.Failed(Approval.Timeout)) && t !in u.registry
  {
    assert steps + [Approval.Expire(t), Approval.TakeBack(t)] == steps + [Approval.Expire(t)] + [Approval.TakeBack(t)];
    ApprovalStep(steps, Approval.Expire(t));
    ApprovalStep(steps + [Approval.Expire(t)], Approval.TakeBack(t));
  }
}
