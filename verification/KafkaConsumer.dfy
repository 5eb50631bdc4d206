/** Consumer.Consume in the form kafka.go gives it, run against a group that others act on meanwhile. */
module KafkaConsumer {
  import opened Prelude
  import opened Kafka
  import Trace

  /** The broker, the group and all its readers, with the history of what happened. */
  class Group {
    const partitions: nat
    var state: State
    ghost var history: seq<Event>

    ghost predicate Valid()
      reads this
    {
      state == Run(Start(partitions), history)
    }

    constructor (partitions: nat)
      ensures Valid() && this.partitions == partitions && history == []
    {
      this.partitions := partitions;
      state := Start(partitions);
      history := [];
    }

    method Do(e: Event)
      requires Valid()
      modifies this
      ensures Valid() && state == Step(old(state), e) && history == old(history) + [e]
    {
      RunSnoc(Start(partitions), history, e);
      state := Step(state, e);
      history := history + [e];
    }

    method FetchMessage(me: nat, p: nat)
      requires Valid() && CanFetch(state, me, p)
      modifies this
      ensures Valid() && me < |state.members| && state.members[me].phase.Handling? && state.members[me].phase.p == p
      ensures Own(history, me) == Own(old(history), me) + [Fetch(me, p)]
    {
      Trace.FilterSnoc(history, ActedBy(me), Fetch(me, p));
      Do(Fetch(me, p));
    }

    method HandlerReturned(me: nat, isNil: bool)
      requires Valid() && me < |state.members| && state.members[me].phase.Handling?
      modifies this
      ensures Valid() && me < |state.members|
      ensures var before := old(state).members[me].phase;
              state.members[me].phase
              == if isNil then Committing(before.p, before.o) else Stopped(HandlerError(before.p, before.o))
      ensures Own(history, me) == Own(old(history), me) + [HandlerReturns(me, isNil)]
    {
      Trace.FilterSnoc(history, ActedBy(me), HandlerReturns(me, isNil));
      Do(HandlerReturns(me, isNil));
    }

    method CommitMessages(me: nat, d: Delivery)
      requires Valid() && me < |state.members| && state.members[me].phase.Committing?
      modifies this
      ensures Valid() && me < |state.members|
      ensures state.members[me].phase == if d.Answered? then Idle else Stopped(CommitError(d.AnswerLost?))
      ensures Own(history, me) == Own(old(history), me) + [Commit(me, d)]
    {
      Trace.FilterSnoc(history, ActedBy(me), Commit(me, d));
      Do(Commit(me, d));
    }

    /** Other members, producers and the group coordinator act; reader `me` takes no step of its own. */
    method Meanwhile(me: nat, others: seq<Event>)
      requires Valid() && me < |state.members| && Foreign(me, others)
      modifies this
      ensures Valid() && me < |state.members| && state.members[me].phase == old(state).members[me].phase
      ensures Own(history, me) == Own(old(history), me)
    {
      for n := 0 to |others|
        invariant Valid() && me < |state.members| && state.members[me].phase == old(state).members[me].phase
        invariant Own(history, me) == Own(old(history), me)
      {
        assert others[n] in others;
        Trace.FilterSnoc(history, ActedBy(me), others[n]);
        Do(others[n]);
      }
    }
  }

  /** The reader whose own step an event is; producing and rebalancing are nobody's. */
  function Actor(e: Event): Option<nat> {
    match e
    case Fetch(m, _) => Some(m)
    case HandlerReturns(m, _) => Some(m)
    case Commit(m, _) => Some(m)
    case FetchFails(m) => Some(m)
    case Die(m) => Some(m)
    case Resume(m) => Some(m)
    case _ => None
  }

  /** None of `es` is a step of reader `me`; rebalances may still give it partitions or take them. */
  ghost predicate Foreign(me: nat, es: seq<Event>) {
    forall e :: e in es ==> Actor(e) != Some(me)
  }

  function ActedBy(m: nat): Event -> bool {
    e => Actor(e) == Some(m)
  }

  /** The steps reader `m` has taken. */
  function Own(es: seq<Event>, m: nat): seq<Event> {
    Trace.Filter(es, ActedBy(m))
  }

  /** What one turn of the loop meets: a fetch that fails or is cancelled, or a message of partition `p`,
      the handler's result, and the fate of the commit; `before`, `during` and `after` are what others do
      while the reader fetches, handles and commits. */
  datatype Turn =
    | NoMessage(before: seq<Event>)
    | Message(p: nat, isNil: bool, d: Delivery, before: seq<Event>, during: seq<Event>, after: seq<Event>)

  ghost predicate TurnOk(me: nat, t: Turn) {
    Foreign(me, t.before) && (t.Message? ==> Foreign(me, t.during) && Foreign(me, t.after))
  }

  /** How a turn ends: with the next one, waiting for a message, or with Consume's return. */
  datatype Exit = Completed | Waiting | FetchFailed | HandlerFailed | CommitFailed

  /** Only an answered commit of a handled message leads on to the next fetch. */
  function ExitOf(t: Turn, arrived: bool): Exit {
    if t.NoMessage? then FetchFailed
    else if !arrived then Waiting
    else if !t.isNil then HandlerFailed
    else if !t.d.Answered? then CommitFailed
    else Completed
  }

  /** The reader's own steps in one turn: nothing is committed before its handler has returned nil. */
  function OwnSteps(me: nat, t: Turn, exit: Exit): seq<Event> {
    match (t, exit)
    case (NoMessage(_), _) => [FetchFails(me)]
    case (_, Waiting) => []
    case (Message(p, isNil, d, _, _, _), HandlerFailed) => [Fetch(me, p), HandlerReturns(me, false)]
    case (Message(p, isNil, d, _, _, _), _) => [Fetch(me, p), HandlerReturns(me, true), Commit(me, d)]
  }

  /** Where the reader is left. */
  predicate LeftAt(s: State, me: nat, t: Turn, exit: Exit) {
    && me < |s.members|
    && var phase := s.members[me].phase;
       match exit
       case Completed => phase == Idle
       case Waiting =>
         && phase == Idle && t.Message?
         && !(t.p in s.members[me].positions && t.p < |s.ends| && s.members[me].positions[t.p] < s.ends[t.p])
       case FetchFailed => phase == Stopped(FetchError)
       case HandlerFailed => phase.Stopped? && phase.why.HandlerError? && t.Message? && phase.why.p == t.p
       case CommitFailed => phase.Stopped? && phase.why.CommitError?
  }

  /** One turn of the loop. */
  method TakeTurn(g: Group, me: nat, t: Turn) returns (exit: Exit)
    requires g.Valid() && me < |g.state.members| && g.state.members[me].phase == Idle && TurnOk(me, t)
    modifies g
    ensures g.Valid() && LeftAt(g.state, me, t, exit) && exit == ExitOf(t, exit != Waiting)
    ensures Own(g.history, me) == Own(old(g.history), me) + OwnSteps(me, t, exit)
  {
    g.Meanwhile(me, t.before);
    if t.NoMessage? {
      Trace.FilterSnoc(g.history, ActedBy(me), FetchFails(me));
      g.Do(FetchFails(me));
      return FetchFailed;
    }
    if !CanFetch(g.state, me, t.p) {
      return Waiting;
    }
    g.FetchMessage(me, t.p);
    g.Meanwhile(me, t.during);

    g.HandlerReturned(me, t.isNil);
    if !t.isNil {
      return HandlerFailed;
    }
    g.Meanwhile(me, t.after);

    g.CommitMessages(me, t.d);
    exit := if t.d.Answered? then Completed else CommitFailed;
  }

  /** The reader's own steps when every turn completes. */
  function Completions(me: nat, turns: seq<Turn>): seq<Event> {
    Trace.FlatMap(turns, CompletedTurn(me))
  }

  function CompletedTurn(me: nat): Turn -> seq<Event> {
    t => OwnSteps(me, t, Completed)
  }

  predicate AllComplete(turns: seq<Turn>) {
    forall t :: t in turns ==> ExitOf(t, true) == Completed
  }

  /** Consume: every turn but the last one taken completes, with fetch, handler and commit in this order;
      the first that does not ends the loop, and the reader does nothing more. */
  method Consume(g: Group, me: nat, turns: seq<Turn>) returns (exit: Exit, k: nat)
    requires g.Valid() && me < |g.state.members| && g.state.members[me].phase == Idle
    requires forall i :: 0 <= i < |turns| ==> TurnOk(me, turns[i])
    modifies g
    ensures g.Valid() && k <= |turns|
    ensures AllComplete(turns[..k])
    ensures if k < |turns|
            then
              && exit != Completed && exit == ExitOf(turns[k], exit != Waiting)
              && LeftAt(g.state, me, turns[k], exit)
              && Own(g.history, me)
                 == Own(old(g.history), me) + Completions(me, turns[..k]) + OwnSteps(me, turns[k], exit)
            else exit == Completed && Own(g.history, me) == Own(old(g.history), me) + Completions(me, turns)
  {
    ghost var start := Own(g.history, me);
    for n := 0 to |turns|
      invariant g.Valid() && me < |g.state.members| && g.state.members[me].phase == Idle
      invariant AllComplete(turns[..n])
      invariant Own(g.history, me) == start + Completions(me, turns[..n])
    {
      exit := TakeTurn(g, me, turns[n]);
      if exit != Completed {
        return exit, n;
      }
      assert AllComplete(turns[..n + 1]) by { assert turns[..n + 1] == turns[..n] + [turns[n]]; }
      Trace.FlatMapGrows(start, turns, CompletedTurn(me), n);
    }
    assert turns[..|turns|] == turns;
    exit, k := Completed, |turns|;
  }
}
