/** The machine both queue consumers implement: a message is ready, unacknowledged, acknowledged, or, if the
    queue is not durable, lost with the queue. */
module Queue {
  type Msg = nat

  datatype State = State(durable: bool, published: set<Msg>, ready: set<Msg>, unacked: set<Msg>, acked: set<Msg>,
                         lost: set<Msg>, succeeded: set<Msg>)

  function Start(durable: bool): State {
    State(durable, {}, {}, {}, {}, {}, {})
  }

  datatype Event =
    | Publish(m: Msg)
    | Deliver(m: Msg)
    | Succeed(m: Msg)
    | Requeue(ms: set<Msg>)
    | Acknowledge(m: Msg)
    | Delete
    | Nothing

  /** Acknowledge takes a message whose handler returned nil, also one already back in the queue. */
  predicate Enabled(s: State, e: Event) {
    match e
    case Publish(m) => m !in s.published
    case Deliver(m) => m in s.ready
    case Succeed(m) => m in s.published
    case Requeue(ms) => ms <= s.unacked
    case Acknowledge(m) => m in s.succeeded && m in s.ready + s.unacked
    case Delete => !s.durable
    case Nothing => true
  }

  function Step(s: State, e: Event): State
    requires Enabled(s, e)
  {
    match e
    case Publish(m) => s.(published := s.published + {m}, ready := s.ready + {m})
    case Deliver(m) => s.(ready := s.ready - {m}, unacked := s.unacked + {m})
    case Succeed(m) => s.(succeeded := s.succeeded + {m})
    case Requeue(ms) => s.(ready := s.ready + ms, unacked := s.unacked - ms)
    case Acknowledge(m) => s.(ready := s.ready - {m}, unacked := s.unacked - {m}, acked := s.acked + {m})
    case Delete => s.(ready := {}, unacked := {}, lost := s.lost + s.ready + s.unacked)
    case Nothing => s
  }

  /** Each published message is in exactly one place, acknowledged means handled, and a durable queue loses
      nothing. */
  ghost predicate Inv(s: State) {
    && s.published == s.ready + s.unacked + s.acked + s.lost
    && s.ready !! s.unacked !! s.acked !! s.lost
    && s.acked <= s.succeeded <= s.published
    && (s.durable ==> s.lost == {})
  }

  lemma StepKeepsInv(s: State, e: Event)
    requires Inv(s) && Enabled(s, e)
    ensures Inv(Step(s, e))
    ensures s.published <= Step(s, e).published && s.acked <= Step(s, e).acked
  {
    if e.Publish? { assert e.m !in s.ready + s.unacked + s.acked + s.lost; }
  }

  /** Some `n` steps or fewer lead here from the empty queue. */
  ghost predicate Reachable(s: State, n: nat)
    decreases n
  {
    s == Start(s.durable) || (n > 0 && exists r, e :: Reachable(r, n - 1) && Enabled(r, e) && s == Step(r, e))
  }

  lemma {:induction false} ReachableInv(s: State, n: nat)
    requires Reachable(s, n)
    ensures Inv(s)
    decreases n
  {
    if s != Start(s.durable) {
      var r, e :| Reachable(r, n - 1) && Enabled(r, e) && s == Step(r, e);
      ReachableInv(r, n - 1);
      StepKeepsInv(r, e);
    }
  }
}
