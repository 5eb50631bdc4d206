/**
 Client.ConsumeDurable of nats.go: JetStream redelivers a message that was neither acked nor nak'ed in
 time, and takes an ack by message, so also from a delivery that has since been repeated.
 */
module NatsQueue {
  import Queue

  type Msg = nat

  datatype Phase = Waiting | Handling | Replying(ok: bool) | Over

  datatype Delivery = Delivery(msg: Msg, phase: Phase)

  datatype State = State(published: set<Msg>, ready: set<Msg>, pending: set<Msg>, acked: set<Msg>,
                         succeeded: set<Msg>, deliveries: seq<Delivery>)

  const START := State({}, {}, {}, {}, {}, [])

  datatype Event =
    | Publish(m: Msg)
    | Deliver(m: Msg)
    | Begin(i: nat)
    | HandlerReturns(i: nat, isNil: bool)
    | Ack(i: nat, arrives: bool)
    | Nak(i: nat, arrives: bool)
    | AckWaitOver(m: Msg)

  predicate Is(s: State, i: nat, phase: Phase) {
    i < |s.deliveries| && s.deliveries[i].phase == phase
  }

  predicate Enabled(s: State, e: Event) {
    match e
    case Publish(m) => m !in s.published
    case Deliver(m) => m in s.ready
    case Begin(i) => Is(s, i, Waiting)
    case HandlerReturns(i, isNil) => Is(s, i, Handling)
    case Ack(i, arrives) => Is(s, i, Replying(true))
    case Nak(i, arrives) => Is(s, i, Replying(false))
    case AckWaitOver(m) => m in s.pending
  }

  function Goto(s: State, i: nat, phase: Phase): State
    requires i < |s.deliveries|
  {
    s.(deliveries := s.deliveries[i := s.deliveries[i].(phase := phase)])
  }

  function Step(s: State, e: Event): State
    requires Enabled(s, e)
  {
    match e
    case Publish(m) => s.(published := s.published + {m}, ready := s.ready + {m})
    case Deliver(m) =>
      s.(ready := s.ready - {m}, pending := s.pending + {m}, deliveries := s.deliveries + [Delivery(m, Waiting)])
    case Begin(i) => Goto(s, i, Handling)
    case HandlerReturns(i, isNil) =>
      Goto(s, i, Replying(isNil)).(succeeded := if isNil then s.succeeded + {s.deliveries[i].msg} else s.succeeded)
    case Ack(i, arrives) =>
      var m, t := s.deliveries[i].msg, Goto(s, i, Over);
      if arrives then t.(ready := s.ready - {m}, pending := s.pending - {m}, acked := s.acked + {m}) else t
    case Nak(i, arrives) =>
      var m, t := s.deliveries[i].msg, Goto(s, i, Over);
      if arrives && m in s.pending then t.(ready := s.ready + {m}, pending := s.pending - {m}) else t
    case AckWaitOver(m) => s.(ready := s.ready + {m}, pending := s.pending - {m})
  }

  function Run(s: State, es: seq<Event>): State {
    if es == [] then s
    else
      var before, e := Run(s, es[..|es| - 1]), es[|es| - 1];
      if Enabled(before, e) then Step(before, e) else before
  }

  /** A stream outlives its consumers. */
  function Abstract(s: State): Queue.State {
    Queue.State(true, s.published, s.ready, s.pending, s.acked, {}, s.succeeded)
  }

  function Meaning(s: State, e: Event): Queue.Event
    requires Enabled(s, e)
  {
    match e
    case Publish(m) => Queue.Publish(m)
    case Deliver(m) => Queue.Deliver(m)
    case HandlerReturns(i, isNil) => if isNil then Queue.Succeed(s.deliveries[i].msg) else Queue.Nothing
    case Ack(i, arrives) =>
      var m := s.deliveries[i].msg;
      if arrives && m !in s.acked then Queue.Acknowledge(m) else Queue.Nothing
    case Nak(i, arrives) =>
      var m := s.deliveries[i].msg;
      if arrives && m in s.pending then Queue.Requeue({m}) else Queue.Nothing
    case AckWaitOver(m) => Queue.Requeue({m})
    case _ => Queue.Nothing
  }

  ghost predicate Inv(s: State) {
    && Queue.Inv(Abstract(s))
    && forall i :: 0 <= i < |s.deliveries| ==>
         && s.deliveries[i].msg in s.published
         && (s.deliveries[i].phase == Replying(true) ==> s.deliveries[i].msg in s.succeeded)
  }

  /** The JetStream consumer's steps are steps of the same abstract queue. */
  lemma {:induction false} StepRefines(s: State, e: Event)
    requires Inv(s) && Enabled(s, e)
    ensures Queue.Enabled(Abstract(s), Meaning(s, e))
    ensures Abstract(Step(s, e)) == Queue.Step(Abstract(s), Meaning(s, e))
    ensures Inv(Step(s, e))
  {
    var m := Meaning(s, e);
    assert Queue.Enabled(Abstract(s), m);
    Queue.StepKeepsInv(Abstract(s), m);
  }

  lemma {:induction false} RunRefines(es: seq<Event>)
    ensures var s := Run(START, es); Inv(s) && Queue.Reachable(Abstract(s), |es|)
  {
    if es != [] {
      var before, e := Run(START, es[..|es| - 1]), es[|es| - 1];
      RunRefines(es[..|es| - 1]);
      if Enabled(before, e) {
        StepRefines(before, e);
      } else {
        assert Abstract(before) == Queue.Step(Abstract(before), Queue.Nothing);
      }
    }
  }

  /** The same promise as for RabbitMQ, here also with late acks from repeated deliveries. */
  lemma AcknowledgedMeansHandled(es: seq<Event>)
    ensures var s := Run(START, es);
            && s.published == s.ready + s.pending + s.acked
            && s.ready !! s.pending !! s.acked
            && s.acked <= s.succeeded
  {
    RunRefines(es);
  }

  /** What an answer does. One that arrives settles the message: acknowledged for an Ack, ready again for a Nak
      unless it already is ready or acknowledged. One that does not changes nothing at the broker. */
  lemma {:induction false} AnswerSettles(es: seq<Event>, i: nat, arrives: bool)
    requires var s := Run(START, es); i < |s.deliveries| && s.deliveries[i].phase.Replying?
    ensures var s := Run(START, es);
            var m, ok := s.deliveries[i].msg, s.deliveries[i].phase.ok;
            var e := if ok then Ack(i, arrives) else Nak(i, arrives);
            && Enabled(s, e)
            && var t := Step(s, e);
               && (arrives && ok ==>
                     t.acked == s.acked + {m} && t.ready == s.ready - {m} && t.pending == s.pending - {m})
               && (arrives && !ok ==>
                     && t.acked == s.acked && t.pending == s.pending - {m}
                     && (m in t.ready || m in t.acked) && t.ready <= s.ready + {m} && s.ready <= t.ready)
               && (!arrives ==> t.acked == s.acked && t.ready == s.ready && t.pending == s.pending)
  {
    var s := Run(START, es);
    RunRefines(es);
    assert s.deliveries[i].msg in s.published;
  }

  /** A message is on its way to a handler. */
  ghost predicate BeingHandled(s: State, m: Msg) {
    exists i :: 0 <= i < |s.deliveries| && s.deliveries[i] == Delivery(m, Handling)
  }

  lemma RunSnoc(s: State, es: seq<Event>, e: Event)
    requires Enabled(Run(s, es), e)
    ensures Run(s, es + [e]) == Step(Run(s, es), e)
  {
    assert (es + [e])[..|es|] == es;
  }

  lemma DeliverAndBegin(s: State, es: seq<Event>, m: Msg)
    requires m in Run(s, es).ready
    ensures exists more :: BeingHandled(Run(s, more), m)
  {
    var t := Run(s, es);
    RunSnoc(s, es, Deliver(m));
    RunSnoc(s, es + [Deliver(m)], Begin(|t.deliveries|));
    var u := Run(s, es + [Deliver(m)] + [Begin(|t.deliveries|)]);
    assert u.deliveries[|t.deliveries|] == Delivery(m, Handling);
  }

  /** At least once: from any point of any run a published message that is not acknowledged can still come to a
      handler. */
  lemma {:induction false} UnacknowledgedCanBeHandled(es: seq<Event>, m: Msg)
    requires var s := Run(START, es); m in s.published && m !in s.acked
    ensures exists more :: BeingHandled(Run(Run(START, es), more), m)
  {
    var s := Run(START, es);
    RunRefines(es);
    assert Run(s, []) == s;
    if m in s.ready {
      DeliverAndBegin(s, [], m);
    } else {
      RunSnoc(s, [], AckWaitOver(m));
      DeliverAndBegin(s, [] + [AckWaitOver(m)], m);
    }
  }

  // ---- The ConsumeDurable callback ----

  class Stream {
    var state: State
    ghost var history: seq<Event>

    ghost predicate Valid()
      reads this
    {
      state == Run(START, history)
    }

    constructor ()
      ensures Valid() && history == []
    {
      state, history := START, [];
    }

    method Do(e: Event)
      requires Valid() && Enabled(state, e)
      modifies this
      ensures Valid() && state == Step(old(state), e) && history == old(history) + [e]
    {
      assert (history + [e])[..|history|] == history;
      state, history := Step(state, e), history + [e];
    }

    /** Everything but steps of delivery `i` may happen. */
    method Meanwhile(i: nat, others: seq<Event>)
      requires Valid() && i < |state.deliveries|
      requires forall e :: e in others ==> !OfDelivery(e, i)
      modifies this
      ensures Valid() && i < |state.deliveries| && state.deliveries[i] == old(state).deliveries[i]
    {
      for n := 0 to |others|
        invariant Valid() && i < |state.deliveries| && state.deliveries[i] == old(state).deliveries[i]
      {
        assert others[n] in others;
        if Enabled(state, others[n]) { Do(others[n]); }
      }
    }
  }

  /** The event is a step of the callback that got delivery `i`. */
  predicate OfDelivery(e: Event, i: nat) {
    match e
    case Begin(j) => j == i
    case HandlerReturns(j, _) => j == i
    case Ack(j, _) => j == i
    case Nak(j, _) => j == i
    case _ => false
  }

  /** The callback: one handler call, then Ack or Nak, whose own error is ignored. Whatever the queue does
      while the handler runs, an answer that arrives settles the message: acked if the handler returned
      nil, and not left pending on this account otherwise. */
  method Callback(stream: Stream, i: nat, isNil: bool, arrives: bool, others: seq<Event>)
    requires stream.Valid() && Is(stream.state, i, Waiting)
    requires forall e :: e in others ==> !OfDelivery(e, i)
    modifies stream
    ensures stream.Valid() && Is(stream.state, i, Over)
    ensures stream.state.deliveries[i].msg == old(stream.state).deliveries[i].msg
    ensures var m := stream.state.deliveries[i].msg;
            && (isNil && arrives ==> m in stream.state.acked)
            && (!isNil && arrives ==> m in stream.state.acked || m in stream.state.ready)
            && (isNil ==> m in stream.state.succeeded)
  {
    stream.Do(Begin(i));
    stream.Meanwhile(i, others);
    stream.Do(HandlerReturns(i, isNil));
    if !isNil {
      stream.Do(Nak(i, arrives));
    } else {
      stream.Do(Ack(i, arrives));
    }
    RunRefines(stream.history);
    var m := stream.state.deliveries[i].msg;
    assert m in stream.state.published;
  }
}
