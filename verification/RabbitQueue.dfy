/**
 Client.Consume of rabbitmq.go against a broker: deliveries are buffered per session, handled one at a
 time, and acked or nacked by a tag that dies with its session. When a session is lost the broker requeues its
 messages if the queue is durable; a queue that is not durable is declared exclusive and auto-delete, so it goes
 with its session and takes its messages along. Answers sent on a dead session reach nobody.
 */
module RabbitQueue {
  import Queue
  import Trace

  type Msg = nat

  /** Tags are numbered within a session. */
  datatype Tag = Tag(session: nat, n: nat)

  datatype Delivery = Delivery(tag: Tag, msg: Msg)

  /** Where a session's Consume loop stands. */
  datatype Loop = Waiting | Handling(d: Delivery) | Replying(d: Delivery, ok: bool) | Exited

  datatype Session = Session(live: bool, tags: nat, buffer: seq<Delivery>, loop: Loop)

  /** What a caller passes to Consume; the zero value is a queue that is not durable. */
  datatype ConsumeConfig = ConsumeConfig(queue: string, durable: bool)

  /** Whether the queue is declared durable. Autodelete and exclusive are the negation. */
  function IsDurable(cfg: ConsumeConfig): bool {
    cfg.queue != "" && cfg.durable
  }

  datatype State = State(durable: bool, published: set<Msg>, ready: set<Msg>, unacked: map<Tag, Msg>, acked: set<Msg>,
                         lost: set<Msg>, succeeded: set<Msg>, sessions: seq<Session>)

  function Start(cfg: ConsumeConfig): State {
    State(IsDurable(cfg), {}, {}, map[], {}, {}, {}, [])
  }

  datatype Event =
    | Publish(m: Msg)
    | Open
    | Push(k: nat, m: Msg)
    | Take(k: nat)
    | HandlerReturns(k: nat, isNil: bool)
    | Ack(k: nat, arrives: bool)
    | Nack(k: nat, arrives: bool)
    | Exit(k: nat)
    | Lose(k: nat)

  predicate AnyLive(s: State) {
    exists k :: 0 <= k < |s.sessions| && s.sessions[k].live
  }

  /** A queue that is not durable exists, and can be published to, only while its one session lives. A loop acks
      only what its handler took and nacks only what it refused. */
  predicate Enabled(s: State, e: Event) {
    match e
    case Publish(m) => m !in s.published && (s.durable || AnyLive(s))
    case Open => s.durable || !AnyLive(s)
    case Push(k, m) => k < |s.sessions| && s.sessions[k].live && m in s.ready
    case Take(k) => k < |s.sessions| && s.sessions[k].loop.Waiting? && s.sessions[k].buffer != []
    case HandlerReturns(k, isNil) => k < |s.sessions| && s.sessions[k].loop.Handling?
    case Ack(k, arrives) => k < |s.sessions| && s.sessions[k].loop.Replying? && s.sessions[k].loop.ok
    case Nack(k, arrives) => k < |s.sessions| && s.sessions[k].loop.Replying? && !s.sessions[k].loop.ok
    case Exit(k) => k < |s.sessions| && s.sessions[k].loop.Waiting?
    case Lose(k) => k < |s.sessions| && s.sessions[k].live
  }

  function Put(s: State, k: nat, session: Session): State
    requires k < |s.sessions|
  {
    s.(sessions := s.sessions[k := session])
  }

  function OfSession(unacked: map<Tag, Msg>, k: nat): map<Tag, Msg> {
    map t | t in unacked && t.session == k :: unacked[t]
  }

  /** The broker acts on an answer only if it arrives on a live session and its tag is outstanding. */
  predicate Counts(s: State, k: nat, arrives: bool)
    requires k < |s.sessions| && s.sessions[k].loop.Replying?
  {
    arrives && s.sessions[k].live && s.sessions[k].loop.d.tag in s.unacked
  }

  function Step(s: State, e: Event): State
    requires Enabled(s, e)
  {
    match e
    case Publish(m) => s.(published := s.published + {m}, ready := s.ready + {m})
    case Open => s.(sessions := s.sessions + [Session(true, 0, [], Waiting)])
    case Push(k, m) =>
      var session := s.sessions[k];
      var d := Delivery(Tag(k, session.tags), m);
      Put(s, k, session.(tags := session.tags + 1, buffer := session.buffer + [d]))
        .(ready := s.ready - {m}, unacked := s.unacked[d.tag := m])
    case Take(k) =>
      var session := s.sessions[k];
      Put(s, k, session.(buffer := session.buffer[1..], loop := Handling(session.buffer[0])))
    case HandlerReturns(k, isNil) =>
      var d := s.sessions[k].loop.d;
      Put(s, k, s.sessions[k].(loop := Replying(d, isNil)))
        .(succeeded := if isNil then s.succeeded + {d.msg} else s.succeeded)
    case Ack(k, arrives) =>
      var d, t := s.sessions[k].loop.d, Put(s, k, s.sessions[k].(loop := Waiting));
      if Counts(s, k, arrives) then t.(unacked := s.unacked - {d.tag}, acked := s.acked + {d.msg}) else t
    case Nack(k, arrives) =>
      var d, t := s.sessions[k].loop.d, Put(s, k, s.sessions[k].(loop := Waiting));
      if Counts(s, k, arrives) then t.(unacked := s.unacked - {d.tag}, ready := s.ready + {d.msg}) else t
    case Exit(k) => Put(s, k, s.sessions[k].(loop := Exited))
    case Lose(k) =>
      var back, t := OfSession(s.unacked, k), Put(s, k, s.sessions[k].(live := false));
      if s.durable then t.(unacked := s.unacked - back.Keys, ready := s.ready + back.Values)
      else t.(unacked := map[], ready := {}, lost := s.lost + s.ready + s.unacked.Values)
  }

  /** An event that is not enabled does not happen. */
  function Run(s: State, es: seq<Event>): State {
    if es == [] then s
    else
      var before, e := Run(s, es[..|es| - 1]), es[|es| - 1];
      if Enabled(before, e) then Step(before, e) else before
  }

  // ---- Refinement ----

  function Abstract(s: State): Queue.State {
    Queue.State(s.durable, s.published, s.ready, s.unacked.Values, s.acked, s.lost, s.succeeded)
  }

  /** What an event amounts to in the abstract machine. */
  function Meaning(s: State, e: Event): Queue.Event
    requires Enabled(s, e)
  {
    match e
    case Publish(m) => Queue.Publish(m)
    case Push(k, m) => Queue.Deliver(m)
    case HandlerReturns(k, isNil) => if isNil then Queue.Succeed(s.sessions[k].loop.d.msg) else Queue.Nothing
    case Ack(k, arrives) =>
      if Counts(s, k, arrives) then Queue.Acknowledge(s.sessions[k].loop.d.msg) else Queue.Nothing
    case Nack(k, arrives) =>
      if Counts(s, k, arrives) then Queue.Requeue({s.sessions[k].loop.d.msg}) else Queue.Nothing
    case Lose(k) => if s.durable then Queue.Requeue(OfSession(s.unacked, k).Values) else Queue.Delete
    case _ => Queue.Nothing
  }

  /** A delivery the client holds: its tag, while outstanding, stands for its message. */
  ghost predicate DeliveryOk(s: State, k: nat, d: Delivery)
    requires k < |s.sessions|
  {
    && d.tag.session == k && d.tag.n < s.sessions[k].tags && d.msg in s.published
    && (d.tag in s.unacked ==> s.unacked[d.tag] == d.msg)
  }

  ghost predicate SessionOk(s: State, k: nat)
    requires k < |s.sessions|
  {
    var session := s.sessions[k];
    && (forall d :: d in session.buffer ==> DeliveryOk(s, k, d))
    && (session.loop.Handling? || session.loop.Replying? ==> DeliveryOk(s, k, session.loop.d))
    && (session.loop.Replying? && session.loop.ok ==> session.loop.d.msg in s.succeeded)
  }

  /** Outstanding tags are those of live sessions, */
  ghost predicate TagsLive(s: State) {
    forall t :: t in s.unacked ==>
      t.session < |s.sessions| && s.sessions[t.session].live && t.n < s.sessions[t.session].tags
  }

  /** and a queue that is not durable has at most one of these. */
  ghost predicate OneLive(s: State) {
    !s.durable ==> forall j, k :: 0 <= j < k < |s.sessions| ==> !s.sessions[j].live || !s.sessions[k].live
  }

  ghost predicate TagsOk(s: State) {
    TagsLive(s) && OneLive(s)
  }

  /** The delivery the loop has in hand, if any. */
  function InHand(loop: Loop): seq<Delivery> {
    match loop
    case Handling(d) => [d]
    case Replying(d, _) => [d]
    case _ => []
  }

  /** What a session was sent and has not answered, oldest first. */
  function Held(session: Session): seq<Delivery> {
    InHand(session.loop) + session.buffer
  }

  /** The tags a session holds are its own, and in order. */
  ghost predicate InOrder(held: seq<Delivery>, k: nat, tags: nat) {
    && (forall i :: 0 <= i < |held| ==> held[i].tag.session == k && held[i].tag.n < tags)
    && (forall i, j :: 0 <= i < j < |held| ==> held[i].tag.n < held[j].tag.n)
  }

  ghost predicate Outstanding(s: State, held: seq<Delivery>) {
    forall i :: 0 <= i < |held| ==> held[i].tag in s.unacked
  }

  /** What a session holds is in order, and outstanding while it lives. */
  ghost predicate HeldOk(s: State, k: nat)
    requires k < |s.sessions|
  {
    && InOrder(Held(s.sessions[k]), k, s.sessions[k].tags)
    && (s.sessions[k].live ==> Outstanding(s, Held(s.sessions[k])))
  }

  ghost predicate Inv(s: State) {
    && Queue.Inv(Abstract(s))
    && (forall t, u :: t in s.unacked && u in s.unacked && s.unacked[t] == s.unacked[u] ==> t == u)
    && TagsOk(s)
    && (forall k :: 0 <= k < |s.sessions| ==> SessionOk(s, k) && HeldOk(s, k))
  }

  /** Each step of the consumer and its broker is a step of the abstract queue. */
  lemma StepRefines(s: State, e: Event)
    requires Inv(s) && Enabled(s, e)
    ensures Queue.Enabled(Abstract(s), Meaning(s, e))
    ensures Abstract(Step(s, e)) == Queue.Step(Abstract(s), Meaning(s, e))
  {
    var t := Step(s, e);
    match e
    case Push(k, m) =>
      var tag := Tag(k, s.sessions[k].tags);
      assert tag !in s.unacked;
      AddedValue(s.unacked, tag, m);
    case Ack(k, arrives) =>
      assert SessionOk(s, k);
      if Counts(s, k, arrives) { RemovedValue(s.unacked, s.sessions[k].loop.d.tag); }
    case Nack(k, arrives) =>
      assert SessionOk(s, k);
      if Counts(s, k, arrives) { RemovedValue(s.unacked, s.sessions[k].loop.d.tag); }
    case Lose(k) => RemovedValues(s.unacked, k);
    case HandlerReturns(k, isNil) => assert SessionOk(s, k);
    case _ =>
  }

  lemma AddedValue(m: map<Tag, Msg>, t: Tag, v: Msg)
    requires t !in m
    ensures m[t := v].Values == m.Values + {v}
  {
    forall x | x in m.Values ensures x in m[t := v].Values {
      var u :| u in m && m[u] == x;
      assert m[t := v][u] == x;
    }
    assert m[t := v][t] == v;
  }

  lemma RemovedValue(m: map<Tag, Msg>, t: Tag)
    requires t in m && forall u, w :: u in m && w in m && m[u] == m[w] ==> u == w
    ensures (m - {t}).Values == m.Values - {m[t]}
  {
    forall x | x in m.Values - {m[t]} ensures x in (m - {t}).Values {
      var u :| u in m && m[u] == x;
      assert (m - {t})[u] == x;
    }
  }

  lemma RemovedValues(m: map<Tag, Msg>, k: nat)
    requires forall u, w :: u in m && w in m && m[u] == m[w] ==> u == w
    ensures (m - OfSession(m, k).Keys).Values == m.Values - OfSession(m, k).Values
  {
    var lost := OfSession(m, k);
    assert forall w :: w in lost ==> lost[w] in lost.Values;
    forall x | x in m.Values - lost.Values ensures x in (m - lost.Keys).Values {
      var u :| u in m && m[u] == x;
      assert (m - lost.Keys)[u] == x;
    }
  }

  lemma StepKeepsDelivery(s: State, e: Event, k: nat, d: Delivery)
    requires Enabled(s, e) && k < |s.sessions| && DeliveryOk(s, k, d)
    ensures DeliveryOk(Step(s, e), k, d)
  {
  }

  lemma StepKeepsSession(s: State, e: Event, k: nat)
    requires Inv(s) && Enabled(s, e) && k < |s.sessions|
    ensures SessionOk(Step(s, e), k)
  {
    var t := Step(s, e);
    var before, after := s.sessions[k], t.sessions[k];
    assert SessionOk(s, k);
    forall d | d in after.buffer ensures DeliveryOk(t, k, d) {
      if d in before.buffer { StepKeepsDelivery(s, e, k, d); }
    }
    if after.loop.Handling? || after.loop.Replying? {
      var d := after.loop.d;
      assert DeliveryOk(s, k, d) by {
        if before.loop.Waiting? { assert d == before.buffer[0]; }
      }
      StepKeepsDelivery(s, e, k, d);
    }
  }

  /** One session's own step shifts what it holds by one at the front or the back; another's leaves it alone. */
  lemma HeldAfter(s: State, e: Event, k: nat)
    requires Enabled(s, e) && k < |s.sessions|
    ensures var before, after := Held(s.sessions[k]), Held(Step(s, e).sessions[k]);
            match e
            case Push(j, m) => after == if j == k then before + [Delivery(Tag(k, s.sessions[k].tags), m)] else before
            case Ack(j, _) => after == if j == k then before[1..] else before
            case Nack(j, _) => after == if j == k then before[1..] else before
            case _ => after == before
  {
    if e.Push? || e.Take? || e.Ack? || e.Nack? { assert Held(s.sessions[k]) == InHand(s.sessions[k].loop) + s.sessions[k].buffer; }
    if e == Take(k) {
      assert [s.sessions[k].buffer[0]] + s.sessions[k].buffer[1..] == s.sessions[k].buffer;
    }
  }

  /** A tag of a session that lives on goes only with its own answer. */
  lemma TagStays(s: State, e: Event, k: nat, tag: Tag)
    requires TagsOk(s) && Enabled(s, e) && k < |s.sessions| && Step(s, e).sessions[k].live
    requires tag in s.unacked && tag.session == k
    requires e.Ack? || e.Nack? ==> tag != s.sessions[e.k].loop.d.tag
    ensures tag in Step(s, e).unacked
  {
  }

  lemma StepKeepsOrder(s: State, e: Event, k: nat)
    requires Enabled(s, e) && k < |s.sessions| && InOrder(Held(s.sessions[k]), k, s.sessions[k].tags)
    ensures InOrder(Held(Step(s, e).sessions[k]), k, Step(s, e).sessions[k].tags)
  {
    var before, after := Held(s.sessions[k]), Held(Step(s, e).sessions[k]);
    var tags := s.sessions[k].tags;
    HeldAfter(s, e, k);
    match e
    case Push(j, m) => if j == k { OrderGrows(before, k, tags, m); }
    case Ack(j, _) => if j == k { OrderShrinks(before, k, tags); }
    case Nack(j, _) => if j == k { OrderShrinks(before, k, tags); }
    case _ =>
  }

  lemma OrderGrows(held: seq<Delivery>, k: nat, tags: nat, m: Msg)
    requires InOrder(held, k, tags)
    ensures InOrder(held + [Delivery(Tag(k, tags), m)], k, tags + 1)
  {
  }

  lemma OrderShrinks(held: seq<Delivery>, k: nat, tags: nat)
    requires InOrder(held, k, tags) && held != []
    ensures InOrder(held[1..], k, tags)
  {
  }

  /** One held delivery, after a step its session survives: it was held before, or has just been pushed. */
  lemma HeldStaysOutstanding(s: State, e: Event, k: nat, i: nat)
    requires TagsOk(s) && Enabled(s, e) && k < |s.sessions| && HeldOk(s, k)
    requires e.Ack? || e.Nack? ==> HeldOk(s, e.k)
    requires Step(s, e).sessions[k].live && i < |Held(Step(s, e).sessions[k])|
    ensures Held(Step(s, e).sessions[k])[i].tag in Step(s, e).unacked
  {
    var before, after := Held(s.sessions[k]), Held(Step(s, e).sessions[k]);
    HeldAfter(s, e, k);
    assert Outstanding(s, before);
    if e.Push? && e.k == k && i == |before| {
      assert after[i].tag == Tag(k, s.sessions[k].tags);
    } else {
      var j: nat := if (e.Ack? || e.Nack?) && e.k == k then i + 1 else i;
      assert after[i] == before[j];
      if e.Ack? || e.Nack? { AnsweredIsFirst(s, e, k, i); }
      TagStays(s, e, k, before[j].tag);
    }
  }

  lemma StepKeepsHeld(s: State, e: Event, k: nat)
    requires TagsOk(s) && Enabled(s, e) && k < |s.sessions| && HeldOk(s, k)
    requires e.Ack? || e.Nack? ==> HeldOk(s, e.k)
    ensures HeldOk(Step(s, e), k)
  {
    StepKeepsOrder(s, e, k);
    if Step(s, e).sessions[k].live {
      forall i | 0 <= i < |Held(Step(s, e).sessions[k])|
        ensures Held(Step(s, e).sessions[k])[i].tag in Step(s, e).unacked
      {
        HeldStaysOutstanding(s, e, k, i);
      }
    }
  }

  /** What is still held after an answer is not what was answered. */
  lemma AnsweredIsFirst(s: State, e: Event, k: nat, i: nat)
    requires (e.Ack? || e.Nack?) && Enabled(s, e) && k < |s.sessions|
    requires InOrder(Held(s.sessions[k]), k, s.sessions[k].tags)
    requires InOrder(Held(s.sessions[e.k]), e.k, s.sessions[e.k].tags)
    requires i < |Held(Step(s, e).sessions[k])|
    ensures Held(Step(s, e).sessions[k])[i].tag != s.sessions[e.k].loop.d.tag
  {
    var before, after := Held(s.sessions[k]), Held(Step(s, e).sessions[k]);
    HeldAfter(s, e, k);
    FirstOfHeld(s.sessions[e.k]);
    if k == e.k {
      FirstIsOthers(before, k, s.sessions[k].tags, i);
      assert after[i] == before[i + 1];
    } else {
      assert after[i].tag.session == k;
      assert Held(s.sessions[e.k])[0].tag.session == e.k;
    }
  }

  lemma FirstOfHeld(session: Session)
    requires session.loop.Replying?
    ensures |Held(session)| > 0 && Held(session)[0] == session.loop.d
  {
  }

  lemma FirstIsOthers(held: seq<Delivery>, k: nat, tags: nat, i: nat)
    requires InOrder(held, k, tags) && i + 1 < |held|
    ensures held[i + 1].tag != held[0].tag
  {
    assert held[0].tag.n < held[i + 1].tag.n;
  }

  lemma StepKeepsTagsLive(s: State, e: Event)
    requires TagsOk(s) && Enabled(s, e)
    ensures TagsLive(Step(s, e))
  {
  }

  lemma StepKeepsOneLive(s: State, e: Event)
    requires OneLive(s) && Enabled(s, e)
    ensures OneLive(Step(s, e))
  {
  }

  /** No message gets a second outstanding tag. */
  lemma StepKeepsDistinct(s: State, e: Event)
    requires Inv(s) && Enabled(s, e)
    ensures var r := Step(s, e);
            forall t, u :: t in r.unacked && u in r.unacked && r.unacked[t] == r.unacked[u] ==> t == u
  {
    if e.Push? { assert e.m !in s.unacked.Values; }
  }

  lemma StepKeepsInv(s: State, e: Event)
    requires Inv(s) && Enabled(s, e)
    ensures Inv(Step(s, e))
  {
    var t := Step(s, e);
    StepKeepsTagsLive(s, e);
    StepKeepsOneLive(s, e);
    StepKeepsDistinct(s, e);
    StepRefines(s, e);
    Queue.StepKeepsInv(Abstract(s), Meaning(s, e));
    forall k | 0 <= k < |t.sessions| ensures SessionOk(t, k) {
      if k < |s.sessions| { StepKeepsSession(s, e, k); }
    }
    forall k | 0 <= k < |t.sessions| ensures HeldOk(t, k) {
      if k < |s.sessions| {
        assert e.Ack? || e.Nack? ==> HeldOk(s, e.k);
        StepKeepsHeld(s, e, k);
      }
    }
  }

  lemma StartInv(cfg: ConsumeConfig)
    ensures Inv(Start(cfg)) && Abstract(Start(cfg)) == Queue.Start(IsDurable(cfg))
  {
    assert Start(cfg).unacked.Values == {};
  }

  lemma {:induction false} RunKeepsInv(s: State, es: seq<Event>)
    requires Inv(s)
    ensures Inv(Run(s, es)) && Run(s, es).durable == s.durable
  {
    if es != [] {
      var before, e := Run(s, es[..|es| - 1]), es[|es| - 1];
      RunKeepsInv(s, es[..|es| - 1]);
      if Enabled(before, e) { StepKeepsInv(before, e); }
    }
  }

  /** In every run, however sessions come, go and fail, the queue is in a reachable state of the abstract
      machine of its durability. */
  lemma {:induction false} RunRefines(cfg: ConsumeConfig, es: seq<Event>)
    ensures var s := Run(Start(cfg), es);
            Inv(s) && s.durable == IsDurable(cfg) && Queue.Reachable(Abstract(s), |es|)
  {
    StartInv(cfg);
    if es != [] {
      var before, e := Run(Start(cfg), es[..|es| - 1]), es[|es| - 1];
      RunRefines(cfg, es[..|es| - 1]);
      if Enabled(before, e) {
        StepKeepsInv(before, e);
        StepRefines(before, e);
      } else {
        assert Abstract(before) == Queue.Step(Abstract(before), Queue.Nothing);
      }
    }
  }

  /** No published message has disappeared. */
  ghost predicate Kept(s: State) {
    s.published == s.ready + s.unacked.Values + s.acked
  }

  /** Every published message is in exactly one place, has at most one outstanding tag, and is acknowledged only
      if it was handled; a durable queue has lost none. */
  lemma {:induction false} AcknowledgedMeansHandled(cfg: ConsumeConfig, es: seq<Event>)
    ensures var s := Run(Start(cfg), es);
            && s.published == s.ready + s.unacked.Values + s.acked + s.lost
            && s.ready !! s.unacked.Values !! s.acked !! s.lost
            && |s.unacked| == |s.unacked.Values|
            && s.acked <= s.succeeded
            && (IsDurable(cfg) ==> Kept(s))
  {
    RunRefines(cfg, es);
    DistinctValues(Run(Start(cfg), es).unacked);
  }

  /** In every run, what a living session was sent and has not answered, in its buffer or in its loop's hand, is
      outstanding at the broker under its tag. */
  lemma {:induction false} HeldIsOutstanding(cfg: ConsumeConfig, es: seq<Event>, k: nat, d: Delivery)
    requires var s := Run(Start(cfg), es); k < |s.sessions| && s.sessions[k].live
    requires var loop := Run(Start(cfg), es).sessions[k].loop;
             d in Run(Start(cfg), es).sessions[k].buffer || loop == Handling(d) || loop == Replying(d, true) || loop == Replying(d, false)
    ensures var s := Run(Start(cfg), es); d.tag in s.unacked && s.unacked[d.tag] == d.msg
  {
    var s := Run(Start(cfg), es);
    RunRefines(cfg, es);
    assert HeldOk(s, k) && SessionOk(s, k);
    var held := Held(s.sessions[k]);
    assert d in held;
    var i :| 0 <= i < |held| && held[i] == d;
  }

  /** What an answer does. One that arrives from a living session settles its delivery: the tag is gone, and the
      message is acknowledged if it was an Ack and ready again if it was a Nack. Any other changes nothing at the
      broker. */
  lemma {:induction false} AnswerSettles(cfg: ConsumeConfig, es: seq<Event>, k: nat, arrives: bool)
    requires var s := Run(Start(cfg), es); k < |s.sessions| && s.sessions[k].loop.Replying?
    ensures var s := Run(Start(cfg), es);
            var d, ok := s.sessions[k].loop.d, s.sessions[k].loop.ok;
            var e := if ok then Ack(k, arrives) else Nack(k, arrives);
            && Enabled(s, e)
            && var t := Step(s, e);
               if arrives && s.sessions[k].live then
                 && d.tag in s.unacked && t.unacked == s.unacked - {d.tag}
                 && t.acked == (if ok then s.acked + {d.msg} else s.acked)
                 && t.ready == (if ok then s.ready else s.ready + {d.msg})
               else
                 t.unacked == s.unacked && t.acked == s.acked && t.ready == s.ready
  {
    var s := Run(Start(cfg), es);
    RunRefines(cfg, es);
    if s.sessions[k].live { HeldIsOutstanding(cfg, es, k, s.sessions[k].loop.d); }
    if !s.sessions[k].live {
      assert SessionOk(s, k) && TagsOk(s);
      assert s.sessions[k].loop.d.tag !in s.unacked;
    }
  }

  /** A message is on its way to a handler. */
  ghost predicate BeingHandled(s: State, m: Msg) {
    exists k :: 0 <= k < |s.sessions| && s.sessions[k].loop.Handling? && s.sessions[k].loop.d.msg == m
  }

  lemma ReadyCanBeHandled(s: State, m: Msg)
    requires Inv(s) && s.durable && m in s.ready
    ensures exists es :: BeingHandled(Run(s, es), m)
  {
    var k := |s.sessions|;
    var t1 := Step(s, Open);
    var t2 := Step(t1, Push(k, m));
    var t3 := Step(t2, Take(k));
    var es := [Open, Push(k, m), Take(k)];
    assert es[..2][..1] == es[..1] && es[..1][..0] == [] && Run(s, []) == s;
    assert Run(s, es[..1]) == t1 && Run(s, es[..2]) == t2 && Run(s, es) == t3;
    assert t3.sessions[k].loop.d.msg == m;
  }

  lemma FirstThen(s: State, e: Event, es: seq<Event>)
    requires Enabled(s, e)
    ensures Run(s, [e] + es) == Run(Step(s, e), es)
  {
    if es == [] {
      assert [e] + es == [e] && [e][..0] == [] && Run(s, []) == s;
    } else {
      assert ([e] + es)[..|es|] == [e] + es[..|es| - 1];
      FirstThen(s, e, es[..|es| - 1]);
    }
  }

  /** At least once: from any point of any run on a durable queue, a published message that is not acknowledged can
      still come to a handler. */
  lemma {:induction false} UnacknowledgedCanBeHandled(cfg: ConsumeConfig, es: seq<Event>, m: Msg)
    requires cfg.durable && cfg.queue != ""
    requires var s := Run(Start(cfg), es); m in s.published && m !in s.acked
    ensures exists more :: BeingHandled(Run(Run(Start(cfg), es), more), m)
  {
    var s := Run(Start(cfg), es);
    RunRefines(cfg, es);
    if m in s.ready {
      ReadyCanBeHandled(s, m);
    } else {
      assert m in s.unacked.Values;
      var tag :| tag in s.unacked && s.unacked[tag] == m;
      var e := Lose(tag.session);
      var t := Step(s, e);
      StepKeepsInv(s, e);
      assert tag in OfSession(s.unacked, tag.session) && OfSession(s.unacked, tag.session)[tag] == m;
      ReadyCanBeHandled(t, m);
      var more :| BeingHandled(Run(t, more), m);
      FirstThen(s, e, more);
      assert BeingHandled(Run(s, [e] + more), m);
    }
  }

  lemma {:induction false} Fresh(ms: set<Msg>) returns (m: Msg)
    ensures forall x :: x in ms ==> x < m
  {
    if ms == {} {
      m := 0;
    } else {
      var x :| x in ms;
      var n := Fresh(ms - {x});
      m := if x < n then n else x + 1;
      forall y | y in ms ensures y < m { assert y == x || y in ms - {x}; }
    }
  }

  /** A queue that is not durable loses a message: published, and the session lost. */
  lemma LoseOne(s: State, k: nat) returns (es: seq<Event>)
    requires Inv(s) && !s.durable && k < |s.sessions| && s.sessions[k].live
    ensures !Kept(Run(s, es))
  {
    var m := Fresh(s.published);
    es := [Publish(m), Lose(k)];
    var t := Step(s, Publish(m));
    var u := Step(t, Lose(k));
    assert es[..1][..0] == [] && Run(s, es[..0]) == s;
    assert Run(s, es[..1]) == t && Run(s, es) == u;
    assert m in u.published && m !in u.acked;
  }

  /** Exactly when messages are safe from lost connections: from any point of any run, no continuation loses one
      if and only if the caller asked for a durable queue and gave it a name. */
  lemma KeptExactlyWhenDurable(cfg: ConsumeConfig, es: seq<Event>)
    ensures var s := Run(Start(cfg), es);
            (forall more :: Kept(Run(s, more))) <==> cfg.durable && cfg.queue != ""
  {
    var s := Run(Start(cfg), es);
    RunRefines(cfg, es);
    if IsDurable(cfg) {
      forall more ensures Kept(Run(s, more)) { RunKeepsInv(s, more); }
    } else if AnyLive(s) {
      var k: nat :| k < |s.sessions| && s.sessions[k].live;
      var more := LoseOne(s, k);
      assert !Kept(Run(s, more));
    } else {
      StepKeepsInv(s, Open);
      var more := LoseOne(Step(s, Open), |s.sessions|);
      FirstThen(s, Open, more);
      assert !Kept(Run(s, [Open] + more));
    }
  }

  lemma {:induction false} DistinctValues(m: map<Tag, Msg>)
    requires forall u, w :: u in m && w in m && m[u] == m[w] ==> u == w
    ensures |m.Values| == |m|
  {
    if m.Keys != {} {
      var t :| t in m.Keys;
      RemovedValue(m, t);
      DistinctValues(m - {t});
      assert (m - {t}).Keys == m.Keys - {t};
      assert |m| == |m.Keys| && |m - {t}| == |(m - {t}).Keys|;
    } else {
      assert m.Values == {};
    }
  }

  lemma ExitedSessionStep(s: State, k: nat, t: Tag, e: Event)
    requires Inv(s) && k < |s.sessions| && s.sessions[k].loop.Exited? && t in s.unacked && t.session == k
    requires Enabled(s, e) && e != Lose(k)
    ensures var r := Step(s, e);
            k < |r.sessions| && r.sessions[k].loop.Exited? && t in r.unacked && r.unacked[t] == s.unacked[t]
  {
    if e.Ack? || e.Nack? {
      assert SessionOk(s, e.k);
      assert e.k != k;
    }
  }

  /** Consume returning does not cancel the broker's consumer: what the session was sent stays
      unacknowledged for as long as the connection lives. */
  lemma {:induction false} ExitedSessionKeepsMessages(s: State, k: nat, t: Tag, es: seq<Event>)
    requires Inv(s) && k < |s.sessions| && s.sessions[k].loop.Exited? && t in s.unacked && t.session == k
    requires Lose(k) !in es
    ensures var r := Run(s, es);
            && Inv(r) && k < |r.sessions| && r.sessions[k].loop.Exited?
            && t in r.unacked && r.unacked[t] == s.unacked[t]
  {
    if es != [] {
      var before, e := Run(s, es[..|es| - 1]), es[|es| - 1];
      assert e in es && Lose(k) !in es[..|es| - 1];
      ExitedSessionKeepsMessages(s, k, t, es[..|es| - 1]);
      if Enabled(before, e) {
        StepKeepsInv(before, e);
        ExitedSessionStep(before, k, t, e);
      }
    }
  }

  // ---- Client.Consume ----

  /** The broker, the queue that Consume declares under one configuration, and every session reading it, with
      the history of what happened. */
  class Broker {
    const cfg: ConsumeConfig
    var state: State
    ghost var history: seq<Event>

    ghost predicate Valid()
      reads this
    {
      state == Run(Start(cfg), history)
    }

    constructor (cfg: ConsumeConfig)
      ensures Valid() && this.cfg == cfg && history == []
    {
      this.cfg := cfg;
      state, history := Start(cfg), [];
    }

    method Do(e: Event)
      requires Valid() && Enabled(state, e)
      modifies this
      ensures Valid() && state == Step(old(state), e) && history == old(history) + [e]
    {
      assert (history + [e])[..|history|] == history;
      state, history := Step(state, e), history + [e];
    }

    /** A step of session `me`'s loop. */
    method Act(me: nat, e: Event)
      requires Valid() && me < |state.sessions| && OfLoop(e, me) && Enabled(state, e)
      modifies this
      ensures Valid() && me < |state.sessions| && state.sessions[me].loop == LoopAfter(old(state), me, e)
      ensures state == Step(old(state), e)
      ensures Own(history, me) == Own(old(history), me) + [e]
    {
      Trace.FilterSnoc(history, ActedBy(me), e);
      Do(e);
    }

    /** The answer to the delivery in hand: Ack if its handler returned nil, Nack otherwise. */
    method Answer(me: nat, isNil: bool, arrives: bool)
      requires Valid() && me < |state.sessions| && state.sessions[me].loop.Replying?
      requires state.sessions[me].loop.ok == isNil
      modifies this
      ensures Valid() && me < |state.sessions| && state.sessions[me].loop == Waiting
      ensures state.sessions[me].live == old(state).sessions[me].live
      ensures Own(history, me) == Own(old(history), me) + [if isNil then Ack(me, arrives) else Nack(me, arrives)]
      ensures var d := old(state).sessions[me].loop.d;
              if arrives && old(state).sessions[me].live then
                && d.tag in old(state).unacked && state.unacked == old(state).unacked - {d.tag}
                && state.acked == (if isNil then old(state).acked + {d.msg} else old(state).acked)
                && state.ready == (if isNil then old(state).ready else old(state).ready + {d.msg})
              else
                state.unacked == old(state).unacked && state.acked == old(state).acked && state.ready == old(state).ready
    {
      AnswerSettles(cfg, history, me, arrives);
      if !isNil {
        Act(me, Nack(me, arrives));
      } else {
        Act(me, Ack(me, arrives));
      }
    }

    /** Publishers, the network and other sessions act; the loop of session `me` takes no step. */
    method Meanwhile(me: nat, others: seq<Event>)
      requires Valid() && me < |state.sessions| && forall e :: e in others ==> !OfLoop(e, me)
      modifies this
      ensures Valid() && me < |state.sessions| && state.sessions[me].loop == old(state).sessions[me].loop
      ensures Own(history, me) == Own(old(history), me)
    {
      for n := 0 to |others|
        invariant Valid() && me < |state.sessions| && state.sessions[me].loop == old(state).sessions[me].loop
        invariant Own(history, me) == Own(old(history), me)
      {
        assert others[n] in others;
        Trace.FilterSnoc(history, ActedBy(me), others[n]);
        if Enabled(state, others[n]) { Do(others[n]); }
      }
    }
  }

  /** The event is a step of session `me`'s own loop. */
  predicate OfLoop(e: Event, me: nat) {
    match e
    case Take(k) => k == me
    case HandlerReturns(k, _) => k == me
    case Ack(k, _) => k == me
    case Nack(k, _) => k == me
    case Exit(k) => k == me
    case _ => false
  }

  /** Where a step of its own takes the loop. */
  function LoopAfter(s: State, me: nat, e: Event): Loop
    requires me < |s.sessions| && OfLoop(e, me) && Enabled(s, e)
  {
    match e
    case Take(_) => Handling(s.sessions[me].buffer[0])
    case HandlerReturns(_, isNil) => Replying(s.sessions[me].loop.d, isNil)
    case Ack(_, _) => Waiting
    case Nack(_, _) => Waiting
    case _ => Exited
  }

  function ActedBy(me: nat): Event -> bool {
    e => OfLoop(e, me)
  }

  /** The steps session `me`'s loop has taken. */
  function Own(es: seq<Event>, me: nat): seq<Event> {
    Trace.Filter(es, ActedBy(me))
  }

  /** What the select takes next: the end of the context, the end of the delivery channel, or a delivery.
      `before` and `during` are what happens before the select returns and around the handler call. */
  datatype Turn =
    | Cancelled(before: seq<Event>)
    | Closed(before: seq<Event>)
    | Next(isNil: bool, arrives: bool, before: seq<Event>, during: seq<Event>)

  ghost predicate TurnOk(me: nat, t: Turn) {
    (forall e :: e in t.before ==> !OfLoop(e, me)) && (t.Next? ==> forall e :: e in t.during ==> !OfLoop(e, me))
  }

  datatype Exit = Completed | Blocked | ContextDone | ChannelClosed

  function ExitOf(t: Turn, ready: bool): Exit {
    if t.Cancelled? then ContextDone
    else if !ready then Blocked
    else if t.Closed? then ChannelClosed
    else Completed
  }

  /** The select has nothing of this kind to take. */
  predicate NotReady(s: State, me: nat, t: Turn)
    requires me < |s.sessions|
  {
    match t
    case Cancelled(_) => false
    case Closed(_) => s.sessions[me].live
    case Next(_, _, _, _) => s.sessions[me].buffer == []
  }

  /** One delivery is handled once and answered once, after the handler has returned and as it said. */
  function OwnSteps(me: nat, t: Turn, exit: Exit): seq<Event> {
    match t
    case Next(isNil, arrives, _, _) =>
      if exit.Blocked? then []
      else [Take(me), HandlerReturns(me, isNil), if isNil then Ack(me, arrives) else Nack(me, arrives)]
    case _ => if exit.Blocked? then [] else [Exit(me)]
  }

  /** One turn of the select; `taken` is the delivery it took, if it did. */
  method TakeTurn(b: Broker, me: nat, t: Turn) returns (exit: Exit, taken: seq<Delivery>)
    requires b.Valid() && me < |b.state.sessions| && b.state.sessions[me].loop.Waiting? && TurnOk(me, t)
    modifies b
    ensures b.Valid() && me < |b.state.sessions| && exit == ExitOf(t, !exit.Blocked?)
    ensures b.state.sessions[me].loop == if exit.Completed? || exit.Blocked? then Waiting else Exited
    ensures exit.Blocked? ==> (t.Closed? && b.state.sessions[me].live) || (t.Next? && b.state.sessions[me].buffer == [])
    ensures Own(b.history, me) == Own(old(b.history), me) + OwnSteps(me, t, exit)
    ensures exit.Completed? ==>
              && |taken| == 1
              && (t.arrives && b.state.sessions[me].live ==>
                    && taken[0].tag !in b.state.unacked
                    && taken[0].msg in if t.isNil then b.state.acked else b.state.ready)
  {
    taken := [];
    b.Meanwhile(me, t.before);
    if NotReady(b.state, me, t) {
      return Blocked, [];
    }
    match t {
      case Cancelled(_) =>
        b.Act(me, Event.Exit(me));
        exit := ContextDone;
      case Closed(_) =>
        b.Act(me, Event.Exit(me));
        exit := ChannelClosed;
      case Next(isNil, arrives, _, during) =>
        b.Act(me, Take(me));
        taken := [b.state.sessions[me].loop.d];
        b.Meanwhile(me, during);
        b.Act(me, HandlerReturns(me, isNil));
        b.Answer(me, isNil, arrives);
        exit := Completed;
    }
  }

  /** The loop's own steps when every turn completes. */
  function Completions(me: nat, turns: seq<Turn>): seq<Event> {
    Trace.FlatMap(turns, CompletedTurn(me))
  }

  function CompletedTurn(me: nat): Turn -> seq<Event> {
    t => OwnSteps(me, t, Completed)
  }

  /** Consume: each delivery taken is handled and answered before the next is taken, acked if its handler
      returned nil and nacked otherwise; the answer's own error is ignored. The loop ends only when the
      context is done or, the session being dead, the channel is closed; the library may drop what it still had
      buffered then. */
  method Consume(b: Broker, turns: seq<Turn>) returns (me: nat, exit: Exit, k: nat)
    requires b.Valid() && (b.state.durable || !AnyLive(b.state))
    requires forall i :: 0 <= i < |turns| ==> TurnOk(|b.state.sessions|, turns[i])
    modifies b
    ensures b.Valid() && me == |old(b.state).sessions| < |b.state.sessions| && k <= |turns|
    ensures forall i :: 0 <= i < k ==> turns[i].Next?
    ensures b.state.sessions[me].loop == if exit.Completed? || exit.Blocked? then Waiting else Exited
    ensures if k < |turns|
            then
              && !exit.Completed? && exit == ExitOf(turns[k], !exit.Blocked?)
              && (exit.Blocked? ==>
                    || (turns[k].Closed? && b.state.sessions[me].live)
                    || (turns[k].Next? && b.state.sessions[me].buffer == []))
              && Own(b.history, me)
                 == Own(old(b.history), me) + Completions(me, turns[..k]) + OwnSteps(me, turns[k], exit)
            else exit.Completed? && Own(b.history, me) == Own(old(b.history), me) + Completions(me, turns)
  {
    me := |b.state.sessions|;
    ghost var start := Own(b.history, me);
    Trace.FilterSnoc(b.history, ActedBy(me), Open);
    b.Do(Open);
    for n := 0 to |turns|
      invariant b.Valid() && me < |b.state.sessions| && b.state.sessions[me].loop.Waiting?
      invariant forall i :: 0 <= i < n ==> turns[i].Next?
      invariant Own(b.history, me) == start + Completions(me, turns[..n])
    {
      var taken;
      exit, taken := TakeTurn(b, me, turns[n]);
      if !exit.Completed? {
        return me, exit, n;
      }
      Trace.FlatMapGrows(start, turns, CompletedTurn(me), n);
    }
    assert turns[..|turns|] == turns;
    exit, k := Completed, |turns|;
  }
}
