/** Request/response correlation with a plugin, as interleaved atomic steps of callers and the reader. */
module Rpc {
  import opened Prelude

  datatype RequestId = Number(n: nat) | Text(s: string)

  datatype Response = Response(id: RequestId, payload: string)

  datatype Failure = SendClosed | Timeout | Disconnected

  // Where a call is: its id drawn, its slot registered, waiting, giving up before it clears its slot, or back.
  datatype Phase =
    | Drawn
    | Registered
    | Waiting
    | GivingUp(why: Failure)
    | Got(response: Response)
    | Failed(why: Failure)

  type Caller = nat

  // `ids` remembers the id each call drew; `mailbox` holds what the reader sent to a call's channel.
  datatype State = State(
    nextId: nat,
    pending: map<RequestId, Caller>,
    ids: map<Caller, nat>,
    phases: map<Caller, Phase>,
    mailbox: map<Caller, Response>)

  // Id 0 belongs to the handshake.
  const INITIAL := State(1, map[], map[], map[], map[])

  datatype Step =
    | Draw(c: Caller)
    | Register(c: Caller)
    | Sent(c: Caller, ok: bool)
    | Dispatch(response: Response)
    | Receive(c: Caller)
    | Expire(c: Caller)
    | NoticeClosed(c: Caller)
    | CleanUp(c: Caller)

  predicate In(s: State, c: Caller, p: Phase) {
    c in s.phases && c in s.ids && s.phases[c] == p
  }

  /** The caller still holds its end of the channel. */
  predicate Listening(s: State, c: Caller) {
    In(s, c, Registered) || In(s, c, Waiting)
  }

  predicate Returned(s: State, c: Caller) {
    c in s.phases && (s.phases[c].Got? || s.phases[c].Failed?)
  }

  /** One atomic step; a step that is not possible in `s` changes nothing. */
  function Next(s: State, step: Step): State {
    match step
    case Draw(c) =>
      if c in s.phases || c in s.ids then s
      else s.(nextId := s.nextId + 1, ids := s.ids[c := s.nextId], phases := s.phases[c := Drawn])
    case Register(c) =>
      if !In(s, c, Drawn) then s
      else s.(pending := s.pending[Number(s.ids[c]) := c], phases := s.phases[c := Registered])
    case Sent(c, ok) =>
      if !In(s, c, Registered) then s
      else s.(phases := s.phases[c := if ok then Waiting else GivingUp(SendClosed)])
    case Dispatch(response) =>
      // The slot is taken out in any case; the send fails if the caller is gone.
      if response.id !in s.pending then s
      else
        var c := s.pending[response.id];
        s.(pending := s.pending - {response.id},
           mailbox := if Listening(s, c) then s.mailbox[c := response] else s.mailbox)
    case Receive(c) =>
      if !In(s, c, Waiting) || c !in s.mailbox then s
      else s.(phases := s.phases[c := Got(s.mailbox[c])])
    case Expire(c) =>
      if !In(s, c, Waiting) || c in s.mailbox then s
      else s.(phases := s.phases[c := GivingUp(Timeout)])
    case NoticeClosed(c) =>
      // The sender was dropped without sending: no slot, and nothing in the channel.
      if !In(s, c, Waiting) || c in s.mailbox || Number(s.ids[c]) in s.pending then s
      else s.(phases := s.phases[c := GivingUp(Disconnected)])
    case CleanUp(c) =>
      if !(c in s.phases && c in s.ids && s.phases[c].GivingUp?) then s
      else s.(pending := s.pending - {Number(s.ids[c])}, phases := s.phases[c := Failed(s.phases[c].why)])
  }

  function Run(steps: seq<Step>): State {
    if steps == [] then INITIAL else Next(Run(steps[..|steps| - 1]), steps[|steps| - 1])
  }

  // ---------- The shared tables, step by step ----------

  class Host {
    var nextId: nat
    var pending: map<RequestId, Caller>
    var ids: map<Caller, nat>
    var phases: map<Caller, Phase>
    var mailbox: map<Caller, Response>

    function View(): State
      reads this
    {
      State(nextId, pending, ids, phases, mailbox)
    }

    constructor ()
      ensures View() == INITIAL
    {
      nextId, pending, ids, phases, mailbox := 1, map[], map[], map[], map[];
    }

    method DrawId(c: Caller)
      requires c !in phases && c !in ids
      modifies this
      ensures View() == Next(old(View()), Draw(c))
    {
      ids := ids[c := nextId];
      nextId := nextId + 1;
      phases := phases[c := Drawn];
    }

    method RegisterSlot(c: Caller)
      requires In(View(), c, Drawn)
      modifies this
      ensures View() == Next(old(View()), Register(c))
    {
      pending := pending[Number(ids[c]) := c];
      phases := phases[c := Registered];
    }

    /** Handing the request to the writer, which may be gone. */
    method SendRequest(c: Caller, writerAlive: bool)
      requires In(View(), c, Registered)
      modifies this
      ensures View() == Next(old(View()), Sent(c, writerAlive))
    {
      phases := phases[c := if writerAlive then Waiting else GivingUp(SendClosed)];
    }

    /** One poll of a waiting call: its channel is looked at first, its deadline last. */
    method Poll(c: Caller, expired: bool) returns (ready: bool)
      requires In(View(), c, Waiting)
      modifies this
      ensures c in ids && (ready <==> c in mailbox || Number(ids[c]) !in pending || expired)
      ensures ready ==>
                View() == Next(old(View()),
                               if c in mailbox then Receive(c)
                               else if Number(ids[c]) !in pending then NoticeClosed(c) else Expire(c))
      ensures !ready ==> View() == old(View())
    {
      ready := true;
      if c in mailbox {
        phases := phases[c := Got(mailbox[c])];
      } else if Number(ids[c]) !in pending {
        phases := phases[c := GivingUp(Disconnected)];
      } else if expired {
        phases := phases[c := GivingUp(Timeout)];
      } else {
        ready := false;
      }
    }

    /** The reader's dispatch of one response. */
    method DispatchResponse(response: Response) returns (known: bool)
      modifies this
      ensures known <==> response.id in old(pending)
      ensures View() == Next(old(View()), Dispatch(response))
    {
      known := response.id in pending;
      if known {
        var c := pending[response.id];
        if Listening(View(), c) {
          mailbox := mailbox[c := response];
        }
        pending := pending - {response.id};
      }
    }

    /** A call that gave up clears its slot and returns. */
    method ClearSlot(c: Caller) returns (why: Failure)
      requires c in phases && c in ids && phases[c].GivingUp?
      modifies this
      ensures why == old(phases[c].why) && View() == Next(old(View()), CleanUp(c))
    {
      why := phases[c].why;
      pending := pending - {Number(ids[c])};
      phases := phases[c := Failed(why)];
    }
  }

  // ---------- What every interleaving keeps ----------

  predicate SlotOk(s: State, id: RequestId)
    requires id in s.pending
  {
    var c := s.pending[id];
    c in s.ids && id == Number(s.ids[c]) && c !in s.mailbox
    && c in s.phases && (s.phases[c].Registered? || s.phases[c].Waiting? || s.phases[c].GivingUp?)
  }

  predicate CallOk(s: State, c: Caller)
    requires c in s.phases
  {
    && c in s.ids && s.ids[c] < s.nextId
    && (c in s.mailbox ==> s.mailbox[c].id == Number(s.ids[c]))
    && (match s.phases[c]
        case Drawn => Number(s.ids[c]) !in s.pending && c !in s.mailbox
        case Registered => (Number(s.ids[c]) in s.pending <==> c !in s.mailbox)
        case Waiting => (Number(s.ids[c]) in s.pending <==> c !in s.mailbox)
        case GivingUp(why) => !why.Disconnected?
        case Got(response) => response.id == Number(s.ids[c]) && Number(s.ids[c]) !in s.pending
        case Failed(why) => !why.Disconnected? && Number(s.ids[c]) !in s.pending)
  }

  ghost predicate Inv(s: State) {
    && s.ids.Keys == s.phases.Keys && s.mailbox.Keys <= s.phases.Keys
    && (forall c, d :: c in s.ids && d in s.ids && s.ids[c] == s.ids[d] ==> c == d)
    && (forall id :: id in s.pending ==> SlotOk(s, id))
    && (forall c :: c in s.phases ==> CallOk(s, c))
  }

  /** A step leaves every call but the one it acts on as it was. */
  function Actor(s: State, step: Step): Option<Caller> {
    match step
    case Dispatch(response) => if response.id in s.pending then Some(s.pending[response.id]) else None
    case Draw(c) => Some(c)
    case Register(c) => Some(c)
    case Sent(c, _) => Some(c)
    case Receive(c) => Some(c)
    case Expire(c) => Some(c)
    case NoticeClosed(c) => Some(c)
    case CleanUp(c) => Some(c)
  }

  lemma OthersUntouched(s: State, step: Step, d: Caller)
    requires Inv(s) && Actor(s, step) != Some(d)
    ensures var t := Next(s, step);
            && (d in t.phases <==> d in s.phases) && (d in t.ids <==> d in s.ids) && (d in t.mailbox <==> d in s.mailbox)
            && (d in s.phases ==> t.phases[d] == s.phases[d]) && (d in s.ids ==> t.ids[d] == s.ids[d])
            && (d in s.mailbox ==> t.mailbox[d] == s.mailbox[d])
            && s.nextId <= t.nextId
  {
    hide Inv;
  }

  lemma OtherSlotsUntouched(s: State, step: Step, d: Caller)
    requires Inv(s) && Actor(s, step) != Some(d) && d in s.phases
    ensures d in s.ids
    ensures Number(s.ids[d]) in Next(s, step).pending <==> Number(s.ids[d]) in s.pending
  {
    assert CallOk(s, d);
    var id := Number(s.ids[d]);
    var t := Next(s, step);
    assert step.Dispatch? && step.response.id in s.pending ==> SlotOk(s, step.response.id);
    assert !step.Dispatch? ==> step.c in s.ids && step.c != d ==> s.ids[step.c] != s.ids[d];
  }

  lemma ActorKeeps(s: State, step: Step, c: Caller)
    requires Inv(s) && Actor(s, step) == Some(c) && c in Next(s, step).phases
    ensures CallOk(Next(s, step), c)
  {
    if c in s.phases {
      assert CallOk(s, c);
      assert step.Dispatch? ==> SlotOk(s, step.response.id);
    } else {
      assert Number(s.nextId) in s.pending ==> SlotOk(s, Number(s.nextId)) && CallOk(s, s.pending[Number(s.nextId)]);
    }
  }

  lemma CallsKeep(s: State, step: Step, c: Caller)
    requires Inv(s) && c in Next(s, step).phases
    ensures CallOk(Next(s, step), c)
  {
    if Actor(s, step) == Some(c) {
      ActorKeeps(s, step, c);
    } else {
      OthersUntouched(s, step, c);
      OtherSlotsUntouched(s, step, c);
      assert CallOk(s, c);
      hide Next, Inv;
    }
  }

  lemma SlotsKeep(s: State, step: Step, id: RequestId)
    requires Inv(s) && id in Next(s, step).pending
    ensures SlotOk(Next(s, step), id)
  {
    if id in s.pending {
      assert SlotOk(s, id) && CallOk(s, s.pending[id]);
      assert step.Dispatch? && step.response.id in s.pending ==> SlotOk(s, step.response.id);
    } else {
      assert CallOk(s, step.c);
    }
  }

  lemma TablesKeep(s: State, step: Step)
    requires Inv(s)
    ensures var t := Next(s, step); t.ids.Keys == t.phases.Keys && t.mailbox.Keys <= t.phases.Keys
  {
    assert step.Dispatch? && step.response.id in s.pending ==> SlotOk(s, step.response.id);
    hide CallOk;
  }

  lemma IdsStayDistinct(s: State, step: Step)
    requires Inv(s)
    ensures var ids := Next(s, step).ids; forall c, d :: c in ids && d in ids && ids[c] == ids[d] ==> c == d
  {
    assert forall c :: c in s.ids ==> CallOk(s, c);
    hide SlotOk;
  }

  lemma NextKeeps(s: State, step: Step)
    requires Inv(s)
    ensures Inv(Next(s, step))
  {
    var t := Next(s, step);
    TablesKeep(s, step);
    IdsStayDistinct(s, step);
    forall id | id in t.pending ensures SlotOk(t, id) {
      SlotsKeep(s, step, id);
    }
    forall c | c in t.phases ensures CallOk(t, c) {
      CallsKeep(s, step, c);
    }
    hide Next, SlotOk, CallOk;
  }

  lemma {:induction false} RunKeeps(steps: seq<Step>)
    ensures Inv(Run(steps))
  {
    if steps != [] {
      RunKeeps(steps[..|steps| - 1]);
      NextKeeps(Run(steps[..|steps| - 1]), steps[|steps| - 1]);
    }
  }

  /**
   * In every interleaving: a call returns only a response with its own id; once it has returned its id is not
   * pending; ids are never shared; and no call ever finds its channel closed.
   */
  lemma CallsAreCorrelated(steps: seq<Step>, c: Caller)
    requires Returned(Run(steps), c)
    ensures var s := Run(steps);
            && c in s.ids && Number(s.ids[c]) !in s.pending
            && (s.phases[c].Got? ==> s.phases[c].response.id == Number(s.ids[c]))
            && (s.phases[c].Failed? ==> !s.phases[c].why.Disconnected?)
            && forall d :: d in s.ids && s.ids[d] == s.ids[c] ==> d == c
  {
    RunKeeps(steps);
    assert CallOk(Run(steps), c);
  }

  lemma ReturnedStays(s: State, step: Step, c: Caller)
    requires Returned(s, c)
    ensures Returned(Next(s, step), c) && Next(s, step).phases[c] == s.phases[c]
  {
  }

  /** A returned call stays returned with the same outcome, whatever arrives later. */
  lemma {:induction false} ReturnedIsFinal(steps: seq<Step>, more: seq<Step>, c: Caller)
    requires Returned(Run(steps), c)
    ensures Returned(Run(steps + more), c) && Run(steps + more).phases[c] == Run(steps).phases[c]
    decreases |more|
  {
    hide Next;
    if more == [] {
      assert steps + more == steps;
    } else {
      var init := more[..|more| - 1];
      assert (steps + more)[..|steps + more| - 1] == steps + init;
      ReturnedIsFinal(steps, init, c);
      ReturnedStays(Run(steps + init), more[|more| - 1], c);
    }
  }

  /**
   * One response reaches at most one caller, the one whose slot it names; a response to no slot (stray, duplicate or
   * late) changes nothing; and a call that has a response in its channel never gets another.
   */
  lemma ResponseReachesAtMostOne(steps: seq<Step>, response: Response)
    ensures var s := Run(steps); var t := Next(s, Dispatch(response));
            && (response.id !in s.pending ==> t == s)
            && (forall c, d :: c in t.mailbox && c !in s.mailbox && d in t.mailbox && d !in s.mailbox ==> c == d)
            && (forall c :: c in s.mailbox ==> c in t.mailbox && t.mailbox[c] == s.mailbox[c])
            && (forall c :: c in t.mailbox && c !in s.mailbox ==>
                  t.mailbox[c] == response && response.id == Number(s.ids[c]))
            && response.id !in t.pending
  {
    RunKeeps(steps);
    var s := Run(steps);
    if response.id in s.pending {
      assert SlotOk(s, response.id);
    }
  }

  /** A call still waiting has either its slot or its response: the response can always reach it. */
  lemma WaitingIsReachable(steps: seq<Step>, c: Caller)
    requires In(Run(steps), c, Waiting)
    ensures var s := Run(steps); Number(s.ids[c]) in s.pending <==> c !in s.mailbox
    ensures var s := Run(steps); Number(s.ids[c]) in s.pending ==> s.pending[Number(s.ids[c])] == c
  {
    RunKeeps(steps);
    var s := Run(steps);
    assert CallOk(s, c);
    if Number(s.ids[c]) in s.pending {
      assert SlotOk(s, Number(s.ids[c]));
    }
  }
}
