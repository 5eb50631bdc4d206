/** connect, reconnectLoop and Close in the form rabbitmq.go gives them, interleaved with each other and
    with a failing network, and proved to be runs of the protocol in Reconnect. */
module ReconnectClient {
  import opened Prelude
  import opened Reconnect

  datatype Party = Goroutine | Closing | Network

  function Doer(e: Event): Party {
    match e
    case Fail(_) => Network
    case Report(_) => Network
    case CallClose => Closing
    case CloseChannel => Closing
    case CloseConnection => Closing
    case _ => Goroutine
  }

  /** How often the loop has turned to a connection or to a new attempt. */
  ghost function Rounds(es: seq<Event>): nat {
    if es == [] then 0
    else Rounds(es[..|es| - 1]) + if es[|es| - 1] == Register || es[|es| - 1].DelayOver? then 1 else 0
  }

  /** The parties other than `p` act. */
  ghost predicate Without(p: Party, es: seq<Event>) {
    forall e :: e in es ==> Doer(e) != p
  }

  /** The client's fields, the broker's connections and where each party is. */
  class Client {
    var state: State
    ghost var history: seq<Event>

    ghost predicate Valid()
      reads this
    {
      state == Run(START, history)
    }

    constructor ()
      ensures Valid() && history == [] && state == START
    {
      state, history := START, [];
    }

    method Do(e: Event)
      requires Valid() && Enabled(state, e)
      modifies this
      ensures Valid() && state == Step(old(state), e) && history == old(history) + [e]
      ensures Rounds(history) == Rounds(old(history)) + if e == Register || e.DelayOver? then 1 else 0
    {
      assert (history + [e])[..|history|] == history;
      state, history := Step(state, e), history + [e];
    }

    /** While the goroutine is between two of its steps, Close and the network act; neither touches the
        installed connection or where the goroutine is, and no connection comes up. */
    method Meanwhile(others: seq<Event>)
      requires Valid() && Without(Goroutine, others)
      modifies this
      ensures Valid() && state.pc == old(state).pc && state.conn == old(state).conn && state.ch == old(state).ch
      ensures state.started == old(state).started && |state.links| == |old(state).links|
      ensures old(state).closer != NotCalled ==> state.closer != NotCalled
      ensures Rounds(history) == Rounds(old(history))
    {
      for n := 0 to |others|
        invariant Valid() && state.pc == old(state).pc && state.conn == old(state).conn && state.ch == old(state).ch
        invariant state.started == old(state).started && |state.links| == |old(state).links|
        invariant old(state).closer != NotCalled ==> state.closer != NotCalled
        invariant Rounds(history) == Rounds(old(history))
      {
        assert others[n] in others;
        if Enabled(state, others[n]) { Do(others[n]); }
      }
    }

    /** Waiting for the lock: Close, if it holds it, runs on to its last step, which releases it. */
    method AwaitLock()
      requires Valid()
      modifies this
      ensures Valid() && LockFree(state) && state.pc == old(state).pc && state.started == old(state).started
      ensures old(state).closer != NotCalled ==> state.closer != NotCalled
      ensures state.conn == old(state).conn && state.ch == old(state).ch && |state.links| == |old(state).links|
      ensures Rounds(history) == Rounds(old(history))
    {
      if !LockFree(state) {
        Do(CloseConnection);
      }
    }

    /** While Close is between two of its steps, the goroutine and the network act. */
    method MeanwhileClosing(others: seq<Event>)
      requires Valid() && Without(Closing, others) && state.started
      modifies this
      ensures Valid() && state.closer == old(state).closer && state.started
      ensures !LockFree(old(state)) ==> state.conn == old(state).conn
    {
      for n := 0 to |others|
        invariant Valid() && state.closer == old(state).closer && state.started
        invariant !LockFree(old(state)) ==> state.conn == old(state).conn
      {
        assert others[n] in others;
        if Enabled(state, others[n]) { Do(others[n]); }
      }
    }
  }

  /** What the broker answers to one connection attempt, and what others do before each of its steps. */
  datatype Attempt = Attempt(dial: bool, channel: bool, declare: bool,
                             o1: seq<Event>, o2: seq<Event>, o3: seq<Event>)

  ghost predicate AttemptOk(a: Attempt) {
    Without(Goroutine, a.o1) && Without(Goroutine, a.o2) && Without(Goroutine, a.o3)
  }

  /** connect: success installs a connection and channel of this very dial; failure leaves the fields as
      they were and nothing open. */
  method Connect(c: Client, a: Attempt) returns (ok: bool)
    requires c.Valid() && c.state.pc.Dialing? && AttemptOk(a)
    modifies c
    ensures c.Valid() && Rounds(c.history) == Rounds(old(c.history))
    ensures old(c.state).closer != NotCalled ==> c.state.closer != NotCalled
    ensures ok ==> c.state.pc.AtTop? && c.state.started
                   && c.state.conn == c.state.ch == Some(|old(c.state).links|)
    ensures !ok ==> && c.state.pc == (if old(c.state).started then Backoff else Exited)
                    && c.state.conn == old(c.state).conn && c.state.ch == old(c.state).ch
                    && c.state.started == old(c.state).started
                    && forall i :: 0 <= i < |c.state.links| ==> !Live(c.state, i) && !c.state.links[i].channel.Open?
  {
    c.Do(Dial(a.dial));
    if !a.dial {
      FailedConnectLeavesNothingOpen(c.history);
      return false;
    }
    var id := c.state.pc.id;

    c.Meanwhile(a.o1);
    var channel := a.channel && Live(c.state, id);
    c.Do(OpenChannel(channel));
    if !channel {
      c.Do(UndoConnection);
      FailedConnectLeavesNothingOpen(c.history);
      return false;
    }

    c.Meanwhile(a.o2);
    var declared := a.declare && Live(c.state, id);
    c.Do(Declare(declared));
    if !declared {
      c.Do(UndoChannel);
      c.Do(UndoConnection);
      FailedConnectLeavesNothingOpen(c.history);
      return false;
    }

    c.Meanwhile(a.o3);
    c.AwaitLock();
    c.Do(Install);
    ok := true;
  }

  /** One round of choices for the loop: what others do before it and while it waits, whether a ready
      closeCh is picked, and how a connection attempt goes. */
  datatype Turn = Turn(others: seq<Event>, waiting: seq<Event>, signal: bool, attempt: Attempt)

  ghost predicate TurnOk(t: Turn) {
    Without(Goroutine, t.others) && Without(Goroutine, t.waiting) && AttemptOk(t.attempt)
  }

  predicate Notified(s: State) {
    s.pc.Watching? && (Has(s, s.pc.id, Reported) || Has(s, s.pc.id, ClosedByUs))
  }

  /** The select that watches a connection has nothing to return for. */
  predicate KeepsWatching(s: State) {
    s.pc.Watching? && !Notified(s) && s.closer.NotCalled?
  }

  /** The inner loop: wait, then connect, until it succeeds or Close is called. Once it has been, no round in which the
      select picks the signal goes on to a dial. */
  method Redial(c: Client, turns: seq<Turn>, first: nat) returns (n: nat, connected: bool)
    requires c.Valid() && c.state.pc.Backoff? && c.state.started && first <= |turns|
    requires forall i :: 0 <= i < |turns| ==> TurnOk(turns[i])
    modifies c
    ensures c.Valid() && c.state.started && first <= n <= |turns|
    ensures if connected then c.state.pc.AtTop? else c.state.pc.Exited? || (c.state.pc.Backoff? && n == |turns|)
    ensures Rounds(c.history) == Rounds(old(c.history)) + n - first
    ensures old(c.state).closer != NotCalled ==>
              c.state.closer != NotCalled && forall i :: first <= i < n ==> !turns[i].signal
  {
    n, connected := first, false;
    while !connected && n < |turns|
      invariant first <= n <= |turns| && c.Valid() && c.state.started
      invariant if connected then c.state.pc.AtTop? else c.state.pc.Backoff?
      invariant Rounds(c.history) == Rounds(old(c.history)) + n - first
      invariant old(c.state).closer != NotCalled ==>
                  c.state.closer != NotCalled && forall i :: first <= i < n ==> !turns[i].signal
      decreases |turns| - n
    {
      c.Meanwhile(turns[n].others);
      if !c.state.closer.NotCalled? && turns[n].signal {
        c.Do(NoticeSignal);
        return n, false;
      }
      c.Do(DelayOver);
      connected := Connect(c, turns[n].attempt);
      n := n + 1;
    }
  }

  /** The top of the loop: look at the installed connection, ask for its end, and wait for that or for the signal. It
      leaves, goes on to redial, or still watches a connection without news; once Close has been called, never past
      the signal. */
  method Watch(c: Client, turn: Turn)
    requires c.Valid() && c.state.pc.AtTop? && c.state.started && TurnOk(turn)
    modifies c
    ensures c.Valid() && c.state.started && Rounds(c.history) == Rounds(old(c.history)) + 1
    ensures c.state.pc.Exited? || c.state.pc.Backoff? || (c.state.pc.Watching? && KeepsWatching(c.state))
    ensures c.state.pc.Watching? ==>
              && c.state.closer == NotCalled && c.state.pc.id < |c.state.links|
              && (c.state.links[c.state.pc.id].status == Alive || c.state.links[c.state.pc.id].status == Failed)
    ensures old(c.state).closer != NotCalled ==>
              c.state.closer != NotCalled && (turn.signal ==> c.state.pc.Exited?)
  {
    RunKeepsInv(START, c.history);
    c.Meanwhile(turn.others);
    c.AwaitLock();
    c.Do(Register);
    if c.state.pc.Exited? {
      return;
    }
    c.Meanwhile(turn.waiting);
    if KeepsWatching(c.state) {
      RunKeepsInv(START, c.history);
      return;
    }
    if !c.state.closer.NotCalled? && (!Notified(c.state) || turn.signal) {
      c.Do(NoticeSignal);
      return;
    }
    c.Do(if Has(c.state, c.state.pc.id, ClosedByUs) then NoticeClosed else NoticeError);
  }

  /** reconnectLoop, for as many rounds as are given: it returns or, still running, has used them all or
      watches a connection that has not been notified. Once Close has been called it does not get past a round whose
      select picks the signal. `left` says it returned. */
  method ReconnectLoop(c: Client, turns: seq<Turn>) returns (left: bool)
    requires c.Valid() && c.state.pc.AtTop? && c.state.started
    requires forall i :: 0 <= i < |turns| ==> TurnOk(turns[i])
    modifies c
    ensures c.Valid() && (left <==> c.state.pc.Exited?)
    ensures left || Rounds(c.history) == Rounds(old(c.history)) + |turns| || (c.state.pc.Watching? && KeepsWatching(c.state))
    ensures old(c.state).closer != NotCalled && (exists i :: 0 <= i < |turns| && turns[i].signal) ==> left
    ensures !left && c.state.pc.Watching? ==>
              && c.state.closer == NotCalled && c.state.pc.id < |c.state.links|
              && (c.state.links[c.state.pc.id].status == Alive || c.state.links[c.state.pc.id].status == Failed)
  {
    var n := 0;
    while n < |turns|
      invariant 0 <= n <= |turns| && c.Valid() && c.state.pc.AtTop? && c.state.started
      invariant Rounds(c.history) == Rounds(old(c.history)) + n
      invariant old(c.state).closer != NotCalled ==>
                  c.state.closer != NotCalled && forall i :: 0 <= i < n ==> !turns[i].signal
    {
      Watch(c, turns[n]);
      if !c.state.pc.Backoff? {
        return c.state.pc.Exited?;
      }
      var connected;
      n, connected := Redial(c, turns, n + 1);
      if !connected {
        return c.state.pc.Exited?;
      }
    }
    left := false;
  }

  /** Close. A second call panics in the source, hence the first conjunct. When it is done, the connection
      it found installed is not alive. */
  method Close(c: Client, o1: seq<Event>, o2: seq<Event>)
    requires c.Valid() && c.state.closer.NotCalled? && c.state.started
    requires Without(Closing, o1) && Without(Closing, o2)
    modifies c
    ensures c.Valid() && c.state.closer.Finished?
    ensures c.state.conn.Some? && c.state.conn.value < |c.state.links|
    ensures var link := c.state.links[c.state.conn.value]; link.status != Alive && link.channel != Open
    ensures Final(c.state) <==> Settled(c.state)
  {
    c.Do(CallClose);
    c.MeanwhileClosing(o1);
    c.Do(CloseChannel);
    c.MeanwhileClosing(o2);
    RunKeepsInv(START, c.history);
    c.Do(CloseConnection);
    RunKeepsInv(START, c.history);
    CloseIsFinalExactlyWhenSettled(c.history);
  }
}
