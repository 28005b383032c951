/** Approval tokens: requests, authenticated callbacks, and the registry that pairs them. */
module Approval {
  import opened Prelude

  type Token = string

  datatype Decision = Allow | Deny | AllowOnce | AllowAlways

  datatype Failure = NotAcknowledged | Timeout | Disconnected

  // Waiting for the ack, waiting for the decision, failed but its slot not yet taken back, or returned.
  datatype Phase = Asking | Waiting | Failing(why: Failure) | Decided(decision: Decision) | Failed(why: Failure)

  datatype Consumer = ByCallback(decision: Decision) | ByRequester

  // `channel` holds a decision sent to a request; the last three fields are history.
  datatype State = State(
    registry: set<Token>,
    phases: map<Token, Phase>,
    channel: map<Token, Decision>,
    consumed: map<Token, Consumer>,
    heard: seq<(Token, Decision)>,
    forwarded: seq<(Token, Decision)>)

  const INITIAL := State({}, map[], map[], map[], [], [])

  datatype Step =
    | Request(token: Token)
    | Ack(token: Token, ok: bool)
    | Callback(token: Token, authentic: bool, decision: Decision)
    | Receive(token: Token)
    | Expire(token: Token)
    | NoticeClosed(token: Token)
    | TakeBack(token: Token)

  predicate In(s: State, t: Token, p: Phase) {
    t in s.phases && s.phases[t] == p
  }

  predicate Returned(s: State, t: Token) {
    t in s.phases && (s.phases[t].Decided? || s.phases[t].Failed?)
  }

  /** One atomic step; a step that is not possible in `s` changes nothing.  Tokens are fresh. */
  function Next(s: State, step: Step): State {
    match step
    case Request(t) =>
      if t in s.phases then s
      else s.(registry := s.registry + {t}, phases := s.phases[t := Asking])
    case Ack(t, ok) =>
      if !In(s, t, Asking) then s
      else s.(phases := s.phases[t := if ok then Waiting else Failing(NotAcknowledged)])
    case Callback(t, authentic, d) =>
      if !authentic then s
      else
        var s := s.(heard := s.heard + [(t, d)]);
        if t !in s.registry then s.(forwarded := s.forwarded + [(t, d)])
        else
          // The slot is consumed even if the requester no longer listens.
          s.(registry := s.registry - {t},
             consumed := s.consumed[t := ByCallback(d)],
             channel := if In(s, t, Asking) || In(s, t, Waiting) then s.channel[t := d] else s.channel)
    case Receive(t) =>
      if !In(s, t, Waiting) || t !in s.channel then s
      else s.(phases := s.phases[t := Decided(s.channel[t])])
    case Expire(t) =>
      if !In(s, t, Waiting) || t in s.channel then s
      else s.(phases := s.phases[t := Failing(Timeout)])
    case NoticeClosed(t) =>
      if !In(s, t, Waiting) || t in s.channel || t in s.registry then s
      else s.(phases := s.phases[t := Failing(Disconnected)])
    case TakeBack(t) =>
      if !(t in s.phases && s.phases[t].Failing?) then s
      else s.(registry := s.registry - {t},
              consumed := if t in s.registry then s.consumed[t := ByRequester] else s.consumed,
              phases := s.phases[t := Failed(s.phases[t].why)])
  }

  function Run(steps: seq<Step>): State {
    if steps == [] then INITIAL else Next(Run(steps[..|steps| - 1]), steps[|steps| - 1])
  }

  // ---------- The registry ----------

  /** Tokens of requests in flight, with the channel to answer on. */
  class ApprovalRegistry<Sender> {
    var pending: map<Token, Sender>

    constructor ()
      ensures pending == map[]
    {
      pending := map[];
    }

    method Register(token: Token, sender: Sender)
      modifies this
      ensures pending == old(pending)[token := sender]
    {
      pending := pending[token := sender];
    }

    /** Removes and returns the sender: a second take finds nothing. */
    method Take(token: Token) returns (sender: Option<Sender>)
      modifies this
      ensures sender == if token in old(pending) then Some(old(pending)[token]) else None
      ensures pending == old(pending) - {token}
    {
      sender := if token in pending then Some(pending[token]) else None;
      pending := pending - {token};
    }
  }

  /** The host's side of the protocol: one registry shared by the requests and the reader. */
  class Host {
    const registry: ApprovalRegistry<Token>
    var phases: map<Token, Phase>
    var channel: map<Token, Decision>
    var forwarded: seq<(Token, Decision)>
    ghost var consumed: map<Token, Consumer>
    ghost var heard: seq<(Token, Decision)>

    ghost function View(): State
      reads this, registry
    {
      State(registry.pending.Keys, phases, channel, consumed, heard, forwarded)
    }

    constructor ()
      ensures View() == INITIAL && fresh(registry)
    {
      registry := new ApprovalRegistry<Token>();
      phases, channel, forwarded, consumed, heard := map[], map[], [], map[], [];
    }

    /** Registers the slot before the plugin hears of the request. */
    method Present(token: Token)
      requires token !in phases
      modifies this, registry
      ensures View() == Next(old(View()), Request(token))
    {
      registry.Register(token, token);
      phases := phases[token := Asking];
    }

    method Acknowledged(token: Token, ok: bool)
      requires In(View(), token, Asking)
      modifies this
      ensures View() == Next(old(View()), Ack(token, ok))
    {
      phases := phases[token := if ok then Waiting else Failing(NotAcknowledged)];
    }

    /** The reader's handling of a callback: an unauthentic one is dropped, one for no slot is forwarded. */
    method HandleCallback(token: Token, authentic: bool, decision: Decision)
      modifies this, registry
      ensures View() == Next(old(View()), Callback(token, authentic, decision))
    {
      if !authentic {
        return;
      }
      heard := heard + [(token, decision)];
      var sender := registry.Take(token);
      if sender.None? {
        forwarded := forwarded + [(token, decision)];
        return;
      }
      consumed := consumed[token := ByCallback(decision)];
      if token in phases && (phases[token].Asking? || phases[token].Waiting?) {
        channel := channel[token := decision];
      }
    }

    /** One poll of a waiting request: its channel is looked at first, its deadline last. */
    method Poll(token: Token, expired: bool) returns (ready: bool)
      requires In(View(), token, Waiting)
      modifies this
      ensures ready <==> token in channel || token !in registry.pending || expired
      ensures ready ==>
                View() == Next(old(View()),
                               if token in channel then Receive(token)
                               else if token !in registry.pending then NoticeClosed(token) else Expire(token))
      ensures !ready ==> View() == old(View())
    {
      ready := true;
      if token in channel {
        phases := phases[token := Decided(channel[token])];
      } else if token !in registry.pending {
        phases := phases[token := Failing(Disconnected)];
      } else if expired {
        phases := phases[token := Failing(Timeout)];
      } else {
        ready := false;
      }
    }

    /** A failed request takes its slot back, if it is still there, and returns its reason. */
    method GiveUp(token: Token) returns (why: Failure)
      requires token in phases && phases[token].Failing?
      modifies this, registry
      ensures why == old(phases[token].why) && View() == Next(old(View()), TakeBack(token))
    {
      why := phases[token].why;
      var sender := registry.Take(token);
      if sender.Some? {
        consumed := consumed[token := ByRequester];
      }
      phases := phases[token := Failed(why)];
    }
  }

  // ---------- What every interleaving keeps ----------

  predicate RequestOk(s: State, t: Token)
    requires t in s.phases
  {
    && (t in s.registry <==> t !in s.consumed)
    && (t in s.channel ==> t in s.consumed && s.consumed[t] == ByCallback(s.channel[t]))
    && (match s.phases[t]
        case Asking => t in s.registry || t in s.channel
        case Waiting => t in s.registry || t in s.channel
        case Failing(why) => !why.Disconnected? && (t in s.consumed ==> s.consumed[t].ByCallback?)
        case Decided(d) => t in s.channel && s.channel[t] == d
        case Failed(why) => !why.Disconnected? && t in s.consumed)
  }

  /** How many slots a callback consumed. */
  function CallbackTokens(s: State): set<Token> {
    set t | t in s.consumed && s.consumed[t].ByCallback?
  }

  ghost predicate Inv(s: State) {
    && s.registry <= s.phases.Keys && s.consumed.Keys <= s.phases.Keys && s.channel.Keys <= s.phases.Keys
    && (forall t :: t in s.phases ==> RequestOk(s, t))
    && (forall t :: t in s.consumed && s.consumed[t].ByCallback? ==> (t, s.consumed[t].decision) in s.heard)
    && |s.heard| == |s.forwarded| + |CallbackTokens(s)|
  }

  lemma CallbackCounts(s: State, t: Token, d: Decision)
    requires t !in s.consumed
    ensures var s' := s.(consumed := s.consumed[t := ByCallback(d)]);
            |CallbackTokens(s')| == |CallbackTokens(s)| + 1
  {
    var s' := s.(consumed := s.consumed[t := ByCallback(d)]);
    assert CallbackTokens(s') == CallbackTokens(s) + {t};
  }

  lemma NextKeeps(s: State, step: Step)
    requires Inv(s)
    ensures Inv(Next(s, step))
  {
    var n := Next(s, step);
    var t := step.token;
    assert t in s.phases ==> RequestOk(s, t);
    forall u | u in n.phases ensures RequestOk(n, u) {
      assert u in s.phases ==> RequestOk(s, u);
    }
    if step.Callback? && step.authentic && t in s.registry {
      CallbackCounts(s, t, step.decision);
      assert CallbackTokens(n) == CallbackTokens(s.(consumed := n.consumed));
    } else {
      assert CallbackTokens(n) == CallbackTokens(s);
    }
  }

  lemma {:induction false} RunKeeps(steps: seq<Step>)
    ensures Inv(Run(steps))
  {
    if steps != [] {
      RunKeeps(steps[..|steps| - 1]);
      NextKeeps(Run(steps[..|steps| - 1]), steps[|steps| - 1]);
    }
  }

  /**
   * In every interleaving: a returned decision is one an authenticated callback brought for that very token, even if
   * it came before the ack; after the return the token is not registered; and no request finds its channel closed.
   */
  lemma DecisionsAreGenuine(steps: seq<Step>, t: Token)
    requires Returned(Run(steps), t)
    ensures var s := Run(steps);
            && t !in s.registry
            && (s.phases[t].Decided? ==> (t, s.phases[t].decision) in s.heard)
            && (s.phases[t].Failed? ==> !s.phases[t].why.Disconnected?)
  {
    RunKeeps(steps);
    assert RequestOk(Run(steps), t);
  }

  lemma ConsumedStays(s: State, step: Step, t: Token)
    requires Inv(s) && t in s.consumed
    ensures t in Next(s, step).consumed && Next(s, step).consumed[t] == s.consumed[t]
  {
    assert RequestOk(s, t);
  }

  lemma ConsumedIsUnregistered(s: State, t: Token)
    requires Inv(s) && t in s.consumed
    ensures t !in s.registry
  {
    assert RequestOk(s, t);
  }

  /** A slot is consumed once: what consumed it never changes, and a consumed token is not registered again. */
  lemma {:induction false} SlotIsConsumedOnce(steps: seq<Step>, more: seq<Step>, t: Token)
    requires t in Run(steps).consumed
    ensures var later := Run(steps + more);
            t in later.consumed && later.consumed[t] == Run(steps).consumed[t] && t !in later.registry
    decreases |more|
  {
    hide Next, Inv, RequestOk;
    if more == [] {
      assert steps + more == steps;
    } else {
      var init := more[..|more| - 1];
      assert (steps + more)[..|steps + more| - 1] == steps + init;
      SlotIsConsumedOnce(steps, init, t);
      RunKeeps(steps + init);
      ConsumedStays(Run(steps + init), more[|more| - 1], t);
    }
    RunKeeps(steps + more);
    ConsumedIsUnregistered(Run(steps + more), t);
  }

  /** After a request has returned, a callback for its token is forwarded and changes nothing else. */
  lemma LateCallbackIsForwarded(steps: seq<Step>, t: Token, d: Decision)
    requires Returned(Run(steps), t)
    ensures var s := Run(steps);
            Next(s, Callback(t, true, d)) == s.(heard := s.heard + [(t, d)], forwarded := s.forwarded + [(t, d)])
  {
    DecisionsAreGenuine(steps, t);
  }

  /** Nothing vanishes unaccounted: every authenticated callback was forwarded or consumed exactly one slot. */
  lemma CallbacksAreAccountedFor(steps: seq<Step>)
    ensures var s := Run(steps); |s.heard| == |s.forwarded| + |CallbackTokens(s)|
  {
    RunKeeps(steps);
  }

  // ---------- Which decisions are lost ----------

  function From(s: State, post: seq<Step>): State
    decreases |post|
  {
    if post == [] then s else From(Next(s, post[0]), post[1..])
  }

  lemma {:induction false} RunFrom(steps: seq<Step>, post: seq<Step>)
    ensures Run(steps + post) == From(Run(steps), post)
    decreases |post|
  {
    hide Next;
    if post == [] {
      assert steps + post == steps;
    } else {
      var more := steps + [post[0]];
      assert more[..|more| - 1] == steps && more[|more| - 1] == post[0];
      RunFrom(more, post[1..]);
      assert more + post[1..] == steps + post;
    }
  }

  /** The first ack for `t` in `post` is a good one. */
  predicate FirstAckIsGood(post: seq<Step>, t: Token) {
    post != []
    && if post[0].Ack? && post[0].token == t then post[0].ok else FirstAckIsGood(post[1..], t)
  }

  /** A request in this phase goes on to return the decision its channel holds. */
  predicate WillDecide(p: Phase, post: seq<Step>, t: Token) {
    p.Waiting? || p.Decided? || (p.Asking? && FirstAckIsGood(post, t))
  }

  lemma DeliveredStep(s: State, step: Step, t: Token, rest: seq<Step>)
    requires Inv(s) && t in s.consumed && s.consumed[t].ByCallback?
    ensures var n := Next(s, step);
            && t in s.phases && t in n.phases
            && t in n.consumed && n.consumed[t] == s.consumed[t]
            && (WillDecide(s.phases[t], [step] + rest, t) <==> WillDecide(n.phases[t], rest, t))
  {
    assert RequestOk(s, t);
    assert ([step] + rest)[1..] == rest;
  }

  lemma {:induction false} DeliveredOutcome(s: State, post: seq<Step>, t: Token)
    requires Inv(s) && t in s.consumed && s.consumed[t].ByCallback?
    requires Returned(From(s, post), t)
    ensures t in s.phases
    ensures From(s, post).phases[t] == Decided(s.consumed[t].decision) <==> WillDecide(s.phases[t], post, t)
    decreases |post|
  {
    assert RequestOk(s, t);
    if post != [] {
      assert post == [post[0]] + post[1..];
      DeliveredStep(s, post[0], t, post[1..]);
      NextKeeps(s, post[0]);
      hide Next, Inv, WillDecide;
      DeliveredOutcome(Next(s, post[0]), post[1..], t);
    }
  }

  lemma CallbackDelivers(s: State, t: Token, d: Decision)
    requires Inv(s) && t in s.registry
    ensures var n := Next(s, Callback(t, true, d));
            && t in s.phases && t in n.phases && n.phases[t] == s.phases[t] && !s.phases[t].Decided?
            && t in n.consumed && n.consumed[t] == ByCallback(d) && n.forwarded == s.forwarded
  {
    assert RequestOk(s, t);
  }

  /**
   * Which decisions are lost is settled by the state the callback meets.  In every interleaving, when the request has
   * returned: a decision that consumed its slot has been returned if and only if the request was waiting when the
   * callback came, or was still asking and the first ack after it was good.  Otherwise the request failed, and the
   * callback was not forwarded either.
   */
  lemma ConsumedDecisionIsReturned(steps: seq<Step>, t: Token, d: Decision, post: seq<Step>)
    requires t in Run(steps).registry
    requires Returned(Run(steps + [Callback(t, true, d)] + post), t)
    ensures t in Run(steps).phases
    ensures var now, end := Run(steps).phases[t], Run(steps + [Callback(t, true, d)] + post).phases[t];
            && (end == Decided(d) <==> now.Waiting? || (now.Asking? && FirstAckIsGood(post, t)))
            && (end == Decided(d) || end.Failed?)
    ensures Run(steps + [Callback(t, true, d)]).forwarded == Run(steps).forwarded
  {
    var s, call := Run(steps), [Callback(t, true, d)];
    var n := Run(steps + call);
    assert (steps + call)[..|steps + call| - 1] == steps;
    assert n == Next(s, Callback(t, true, d));
    RunKeeps(steps);
    RunKeeps(steps + call);
    CallbackDelivers(s, t, d);
    RunFrom(steps + call, post);
    DeliveredOutcome(n, post, t);
    SlotIsConsumedOnce(steps + call, post, t);
    RunKeeps(steps + call + post);
    assert RequestOk(Run(steps + call + post), t);
  }

  lemma LostAfterTimeout(t: Token, d: Decision)
    ensures var s := Run([Request(t), Ack(t, true), Expire(t), Callback(t, true, d), TakeBack(t)]);
            In(s, t, Failed(Timeout)) && s.heard == [(t, d)] && s.forwarded == []
  {
    var a := [Request(t), Ack(t, true), Expire(t), Callback(t, true, d), TakeBack(t)];
    assert a[..4][..3] == a[..3] && a[..3][..2] == a[..2] && a[..2][..1] == a[..1] && a[..1][..0] == [];
    assert Run(a[..1]) == Next(INITIAL, a[0]);
    assert Run(a[..2]) == Next(Run(a[..1]), a[1]);
    assert Run(a[..3]) == Next(Run(a[..2]), a[2]);
    assert Run(a[..4]) == Next(Run(a[..3]), a[3]);
  }

  lemma LostBeforeFailedAck(t: Token, d: Decision)
    ensures var s := Run([Request(t), Callback(t, true, d), Ack(t, false), TakeBack(t)]);
            In(s, t, Failed(NotAcknowledged)) && s.heard == [(t, d)] && s.forwarded == []
  {
    var a := [Request(t), Callback(t, true, d), Ack(t, false), TakeBack(t)];
    assert a[..3][..2] == a[..2] && a[..2][..1] == a[..1] && a[..1][..0] == [];
    assert Run(a[..1]) == Next(INITIAL, a[0]);
    assert Run(a[..2]) == Next(Run(a[..1]), a[1]);
    assert Run(a[..3]) == Next(Run(a[..2]), a[2]);
  }

  /**
   * Both kinds of loss happen: a callback that lands after the request timed out but before it takes its slot back
   * is neither returned nor forwarded, and so is one that comes before an ack that fails.
   */
  lemma DecisionsCanBeLost(t: Token, d: Decision)
    ensures var s := Run([Request(t), Ack(t, true), Expire(t), Callback(t, true, d), TakeBack(t)]);
            In(s, t, Failed(Timeout)) && s.heard == [(t, d)] && s.forwarded == []
    ensures var s := Run([Request(t), Callback(t, true, d), Ack(t, false), TakeBack(t)]);
            In(s, t, Failed(NotAcknowledged)) && s.heard == [(t, d)] && s.forwarded == []
  {
    hide Run, Next;
    LostAfterTimeout(t, d);
    LostBeforeFailedAck(t, d);
  }
}
