/**
 The connection life cycle of rabbitmq.go. Three parties share one client: the goroutine that connects,
 watches and reconnects, a caller of Close, and a network that may kill any connection at any time. Every
 statement that another party can observe is a step of its own; a run is any sequence of events.
 */
module Reconnect {
  import opened Prelude

  /** A dialled connection and the one channel opened on it. A connection that failed is `Reported` once the
      library has told everyone who was listening; who asks later is told nothing. */
  datatype Status = Alive | Failed | Reported | ClosedByUs
  datatype Channel = NoChannel | Open | Shut
  datatype Link = Link(status: Status, channel: Channel)

  /** Where the goroutine is: inside connect, at the top of the loop, or in one of its two selects. */
  datatype Pc =
    | Dialing
    | Dialed(id: nat)
    | Opened(id: nat)
    | Declared(id: nat)
    | Undoing(id: nat, channelToo: bool)
    | AtTop
    | Watching(id: nat)
    | Backoff
    | Exited

  /** Where Close is; from ShutChannel on it holds the lock. */
  datatype Closer = NotCalled | Signalled | ShutChannel | Finished

  /** `conn` and `ch` name the dial they came from; `started` says New has returned a client. */
  datatype State = State(links: seq<Link>, conn: Option<nat>, ch: Option<nat>, started: bool, pc: Pc, closer: Closer)

  const START := State([], None, None, false, Dialing, NotCalled)

  datatype Event =
    | Dial(ok: bool)
    | OpenChannel(ok: bool)
    | Declare(ok: bool)
    | UndoChannel
    | UndoConnection
    | Install
    | Register
    | NoticeError
    | NoticeClosed
    | NoticeSignal
    | DelayOver
    | Fail(id: nat)
    | Report(id: nat)
    | CallClose
    | CloseChannel
    | CloseConnection

  predicate Has(s: State, id: nat, status: Status) {
    id < |s.links| && s.links[id].status == status
  }

  predicate Live(s: State, id: nat) {
    Has(s, id, Alive)
  }

  predicate LockFree(s: State) {
    !s.closer.ShutChannel?
  }

  /** The goroutine's connection attempt failed: New gives up, the loop waits. */
  function GiveUp(s: State): State {
    s.(pc := if s.started then Backoff else Exited)
  }

  function Shutdown(s: State, id: nat, status: Status): State {
    if Live(s, id) then s.(links := s.links[id := Link(status, if s.links[id].channel.Open? then Shut else s.links[id].channel)])
    else s
  }

  function SetChannel(s: State, id: nat, channel: Channel): State {
    if Live(s, id) then s.(links := s.links[id := s.links[id].(channel := channel)]) else s
  }

  predicate Enabled(s: State, e: Event) {
    match e
    case Dial(ok) => s.pc.Dialing?
    case OpenChannel(ok) => s.pc.Dialed? && (ok ==> Live(s, s.pc.id))
    case Declare(ok) => s.pc.Opened? && (ok ==> Live(s, s.pc.id))
    case UndoChannel => s.pc.Undoing? && s.pc.channelToo
    case UndoConnection => s.pc.Undoing? && !s.pc.channelToo
    case Install => s.pc.Declared? && LockFree(s)
    case Register => s.pc.AtTop? && LockFree(s) && s.conn.Some?
    case NoticeError => s.pc.Watching? && Has(s, s.pc.id, Reported)
    case NoticeClosed => s.pc.Watching? && Has(s, s.pc.id, ClosedByUs)
    case NoticeSignal => (s.pc.Watching? || s.pc.Backoff?) && !s.closer.NotCalled?
    case DelayOver => s.pc.Backoff?
    case Fail(id) => Live(s, id)
    case Report(id) => Has(s, id, Failed)
    case CallClose => s.started && s.closer.NotCalled?
    case CloseChannel => s.closer.Signalled?
    case CloseConnection => s.closer.ShutChannel?
  }

  /** Register: the loop asks to be notified of its connection's end, and will be, unless that has been reported
      before or the connection was closed by us: then it is told at once that there is no error. */
  function StepRegister(s: State): State
    requires s.conn.Some?
  {
    var id := s.conn.value;
    s.(pc := if Live(s, id) || Has(s, id, Failed) then Watching(id) else Exited)
  }

  function Step(s: State, e: Event): State {
    if !Enabled(s, e) then s else
    match e
    case Dial(ok) =>
      if ok then s.(links := s.links + [Link(Alive, NoChannel)], pc := Dialed(|s.links|)) else GiveUp(s)
    case OpenChannel(ok) =>
      if ok then SetChannel(s, s.pc.id, Open).(pc := Opened(s.pc.id)) else s.(pc := Undoing(s.pc.id, false))
    case Declare(ok) => s.(pc := if ok then Declared(s.pc.id) else Undoing(s.pc.id, true))
    case UndoChannel => SetChannel(s, s.pc.id, Shut).(pc := Undoing(s.pc.id, false))
    case UndoConnection => GiveUp(Shutdown(s, s.pc.id, ClosedByUs))
    case Install => s.(conn := Some(s.pc.id), ch := Some(s.pc.id), started := true, pc := AtTop)
    case Register => StepRegister(s)
    case NoticeError => s.(pc := Backoff)
    case NoticeClosed => s.(pc := Exited)
    case NoticeSignal => s.(pc := Exited)
    case DelayOver => s.(pc := Dialing)
    case Fail(id) => Shutdown(s, id, Failed)
    case Report(id) => s.(links := s.links[id := s.links[id].(status := Reported)])
    case CallClose => s.(closer := Signalled)
    case CloseChannel => (if s.ch.Some? then SetChannel(s, s.ch.value, Shut) else s).(closer := ShutChannel)
    case CloseConnection => (if s.conn.Some? then Shutdown(s, s.conn.value, ClosedByUs) else s).(closer := Finished)
  }

  function Run(s: State, es: seq<Event>): State {
    if es == [] then s else Step(Run(s, es[..|es| - 1]), es[|es| - 1])
  }

  lemma RunSnoc(s: State, es: seq<Event>, e: Event)
    ensures Run(s, es + [e]) == Step(Run(s, es), e)
  {
    assert (es + [e])[..|es|] == es;
  }

  lemma {:induction false} RunCons(s: State, e: Event, es: seq<Event>)
    ensures Run(s, [e] + es) == Run(Step(s, e), es)
  {
    if es == [] {
      RunSnoc(s, [], e);
      assert [e] + es == [] + [e];
    } else {
      var before, last := es[..|es| - 1], es[|es| - 1];
      RunCons(s, e, before);
      RunSnoc(s, [e] + before, last);
      RunSnoc(Step(s, e), before, last);
      assert [e] + before + [last] == [e] + es && before + [last] == es;
    }
  }

  // ---- The invariant ----

  /** The only connection that can be alive, given where the goroutine is. */
  function Candidate(s: State): Option<nat> {
    match s.pc
    case Dialing => None
    case Backoff => None
    case Dialed(id) => Some(id)
    case Opened(id) => Some(id)
    case Declared(id) => Some(id)
    case Undoing(id, _) => Some(id)
    case AtTop => s.conn
    case Watching(id) => Some(id)
    case Exited => s.conn
  }

  ghost predicate Inv(s: State) {
    && s.conn == s.ch
    && (s.started <==> s.conn.Some?)
    && (s.conn.Some? ==> s.conn.value < |s.links|)
    && (!s.started ==> s.closer.NotCalled? && !s.pc.Backoff? && !s.pc.AtTop? && !s.pc.Watching?)
    && (s.pc.AtTop? ==> s.started)
    && (s.pc.Watching? ==> s.conn == Some(s.pc.id))
    && (Candidate(s).Some? ==> Candidate(s).value < |s.links|)
    && (forall i :: 0 <= i < |s.links| && s.links[i].status.Alive? ==> Candidate(s) == Some(i))
    && (forall i :: 0 <= i < |s.links| && s.links[i].channel.Open? ==> s.links[i].status.Alive?)
    && (InConnect(s.pc) ==> s.conn != Some(s.pc.id) && s.links[s.pc.id].status != ClosedByUs)
  }

  /** Inside connect, with a connection of its own that Close does not know of. */
  predicate InConnect(pc: Pc) {
    pc.Dialed? || pc.Opened? || pc.Declared? || pc.Undoing?
  }

  lemma StepKeepsInv(s: State, e: Event)
    requires Inv(s)
    ensures Inv(Step(s, e))
  {
    if e.Fail? || e.UndoConnection? || e.CloseConnection? {
      ShutdownKeepsInv(s, e);
    } else if e.Dial? || e.OpenChannel? || e.UndoChannel? || e.CloseChannel? {
      OpeningKeepsInv(s, e);
    }
  }

  lemma OpeningKeepsInv(s: State, e: Event)
    requires Inv(s) && (e.Dial? || e.OpenChannel? || e.UndoChannel? || e.CloseChannel?)
    ensures Inv(Step(s, e))
  {
  }

  lemma ShutdownKeepsInv(s: State, e: Event)
    requires Inv(s) && (e.Fail? || e.UndoConnection? || e.CloseConnection?)
    ensures Inv(Step(s, e))
  {
  }

  lemma {:induction false} RunKeepsInv(s: State, es: seq<Event>)
    requires Inv(s)
    ensures Inv(Run(s, es))
  {
    if es != [] {
      RunKeepsInv(s, es[..|es| - 1]);
      StepKeepsInv(Run(s, es[..|es| - 1]), es[|es| - 1]);
    }
  }

  /** In every reachable state, also after Close, at most one connection is alive, open channels belong to
      it, and the installed connection and channel come from one dial. */
  lemma AtMostOneLive(es: seq<Event>, i: nat, j: nat)
    requires var s := Run(START, es); Live(s, i) && (Live(s, j) || (j < |s.links| && s.links[j].channel.Open?))
    ensures i == j && Run(START, es).conn == Run(START, es).ch
  {
    RunKeepsInv(START, es);
  }

  /** In every reachable state the installed connection and channel come from one dial, and there are some exactly
      if New has returned a client. */
  lemma {:induction false} FieldsFromOneDial(es: seq<Event>)
    ensures var s := Run(START, es); s.conn == s.ch && (s.started <==> s.conn.Some?)
  {
    RunKeepsInv(START, es);
  }

  /** A connect that has failed leaves no connection alive and no channel open. */
  lemma FailedConnectLeavesNothingOpen(es: seq<Event>)
    requires var s := Run(START, es); s.pc.Backoff? || (s.pc.Exited? && !s.started)
    ensures var s := Run(START, es);
            forall i :: 0 <= i < |s.links| ==> !s.links[i].status.Alive? && !s.links[i].channel.Open?
  {
    RunKeepsInv(START, es);
  }

  // ---- What Close guarantees ----

  /** The goroutine has left, or can only leave: it is about to look at a connection whose failure has been
      reported. */
  predicate Leaving(s: State) {
    || s.pc.Exited?
    || (s.pc.AtTop? && s.conn.Some? && Has(s, s.conn.value, Reported))
    || (s.pc.Declared? && Has(s, s.pc.id, Reported))
  }

  /** Nothing is alive and the goroutine can only leave: by itself, or because the connection it watches, or is
      about to watch, is one we closed. */
  ghost predicate Settled(s: State) {
    && (forall i :: 0 <= i < |s.links| ==> !s.links[i].status.Alive?)
    && (Leaving(s) || ((s.pc.AtTop? || s.pc.Watching?) && s.conn.Some? && Has(s, s.conn.value, ClosedByUs)))
  }

  ghost predicate SomeLive(s: State) {
    exists i :: Live(s, i)
  }

  lemma SettledStays(s: State, e: Event)
    requires Inv(s) && s.closer.Finished? && Settled(s)
    ensures Settled(Step(s, e)) && Step(s, e).closer.Finished?
  {
  }

  lemma {:induction false} SettledForever(s: State, es: seq<Event>)
    requires Inv(s) && s.closer.Finished? && Settled(s)
    ensures Inv(Run(s, es)) && Run(s, es).closer.Finished? && Settled(Run(s, es)) && !SomeLive(Run(s, es))
  {
    if es != [] {
      SettledForever(s, es[..|es| - 1]);
      SettledStays(Run(s, es[..|es| - 1]), es[|es| - 1]);
      StepKeepsInv(Run(s, es[..|es| - 1]), es[|es| - 1]);
    }
  }

  /** How far a goroutine that is not leaving is from its next dial, with all connections down. */
  function Distance(s: State): nat {
    match s.pc
    case Dialing => 0
    case Backoff => 1
    case Undoing(_, false) => 2
    case Undoing(_, true) => 3
    case Watching(id) => if Has(s, id, Failed) then 4 else 3
    case AtTop => 5
    case Declared(_) => 6
    case Opened(_) => 7
    case Dialed(_) => 8
    case Exited => 0
  }

  /** The next move of a goroutine on its way to a dial, or of the library to let it go on. */
  function Onward(s: State): Event {
    match s.pc
    case Dialing => Dial(true)
    case Backoff => DelayOver
    case Undoing(_, channelToo) => if channelToo then UndoChannel else UndoConnection
    case Watching(id) => if Has(s, id, Failed) then Report(id) else NoticeError
    case AtTop => Register
    case Declared(_) => Install
    case Opened(_) => Declare(false)
    case Dialed(_) => OpenChannel(false)
    case Exited => NoticeClosed
  }

  lemma OnwardIsCloser(s: State)
    requires Inv(s) && s.closer.Finished? && !Settled(s) && !SomeLive(s) && !s.pc.Dialing?
    ensures var t := Step(s, Onward(s)); !Settled(t) && t.closer.Finished? && Distance(t) < Distance(s)
  {
    forall i | 0 <= i < |s.links| ensures !s.links[i].status.Alive? { assert !Live(s, i); }
    match s.pc
    case Exited => assert false;
    case Watching(id) => assert Has(s, id, Failed) || Has(s, id, Reported);
    case AtTop => assert Has(s, s.conn.value, Failed);
    case Declared(id) => assert Has(s, id, Failed);
    case Backoff =>
    case Undoing(_, _) =>
    case Dialed(_) =>
    case Opened(_) =>
  }

  /** After Close has finished, a goroutine that is not settled can still bring a connection up. */
  lemma {:induction false} UnsettledDials(s: State) returns (es: seq<Event>)
    requires Inv(s) && s.closer.Finished? && !Settled(s)
    ensures SomeLive(Run(s, es))
    decreases Distance(s)
  {
    if SomeLive(s) {
      es := [];
    } else {
      var e := Onward(s);
      var t := Step(s, e);
      StepKeepsInv(s, e);
      if s.pc.Dialing? {
        assert Live(t, |s.links|);
        es := [e];
        RunCons(s, e, []);
        assert [e] + [] == [e];
      } else {
        OnwardIsCloser(s);
        var rest := UnsettledDials(t);
        RunCons(s, e, rest);
        es := [e] + rest;
      }
    }
  }

  /** No continuation has a live connection. */
  ghost predicate Final(s: State) {
    forall more :: !SomeLive(Run(s, more))
  }

  /** Exactly when Close leaves nothing behind: once it has finished, nothing can be alive again if and
      only if the client is settled. */
  lemma CloseIsFinalExactlyWhenSettled(es: seq<Event>)
    requires Run(START, es).closer.Finished?
    ensures Final(Run(START, es)) <==> Settled(Run(START, es))
  {
    var s := Run(START, es);
    RunKeepsInv(START, es);
    if Settled(s) {
      forall more ensures !SomeLive(Run(s, more)) { SettledForever(s, more); }
    } else {
      var more := UnsettledDials(s);
      assert SomeLive(Run(s, more));
    }
  }

  /** The goroutine has left, or has only this connection to look at, and Close will or did close it. */
  ghost predicate Quiet(s: State, id: nat) {
    && s.conn == Some(id)
    && if s.pc.Exited? then s.closer.Finished? ==> !Live(s, id)
       else (s.pc.AtTop? || s.pc == Watching(id)) && Has(s, id, if s.closer.Finished? then ClosedByUs else Alive)
  }

  lemma {:induction false} QuietStays(s: State, id: nat, es: seq<Event>)
    requires Inv(s) && Quiet(s, id) && Fail(id) !in es
    ensures Inv(Run(s, es)) && Quiet(Run(s, es), id)
  {
    if es != [] {
      var before, e := es[..|es| - 1], es[|es| - 1];
      assert e in es && Fail(id) !in before;
      QuietStays(s, id, before);
      StepKeepsInv(Run(s, before), e);
      QuietStep(Run(s, before), id, e);
    }
  }

  lemma QuietStep(s: State, id: nat, e: Event)
    requires Inv(s) && Quiet(s, id) && e != Fail(id)
    ensures Quiet(Step(s, e), id)
  {
  }

  /** If Close starts while the loop watches a live connection that does not fail before Close closes it,
      then no connection is alive once Close has finished, nor ever after. */
  lemma CloseOfHealthyConnectionIsFinal(es: seq<Event>, id: nat, closing: seq<Event>, more: seq<Event>)
    requires var s := Run(START, es); s.closer.NotCalled? && s.pc == Watching(id) && Live(s, id)
    requires Run(Run(START, es), closing).closer.Finished? && Fail(id) !in closing
    ensures Settled(Run(Run(START, es), closing))
    ensures !SomeLive(Run(Run(Run(START, es), closing), more))
  {
    var s := Run(START, es);
    RunKeepsInv(START, es);
    QuietStays(s, id, closing);
    SettledForever(Run(s, closing), more);
  }

  /** What a caller of Close can rely on: the goroutine can only leave, or it watches, or is about to watch, the
      installed connection and that is alive. */
  predicate Closeable(s: State) {
    Leaving(s) || ((s.pc.AtTop? || s.pc.Watching?) && s.conn.Some? && Live(s, s.conn.value))
  }

  /** Check: there is an installed connection and it is not down. */
  predicate CheckPasses(s: State) {
    s.conn.Some? && Live(s, s.conn.value)
  }

  /** The part of it a caller can see: a client that passes its health check may be closed. */
  lemma CloseableMeansCheckPasses(es: seq<Event>)
    requires Run(START, es).started
    ensures var s := Run(START, es); Closeable(s) <==> Leaving(s) || CheckPasses(s)
  {
    RunKeepsInv(START, es);
  }

  /** No connection fails. */
  ghost predicate NoFailure(es: seq<Event>) {
    forall e :: e in es ==> !e.Fail?
  }

  /** Every way for Close to run to its end from here, while no connection fails, is final. */
  ghost predicate CloseWillBeFinal(s: State) {
    forall closing :: NoFailure(closing) && Run(s, closing).closer.Finished? ==> Final(Run(s, closing))
  }

  /** Close all at once. */
  lemma CloseNow(s: State) returns (closing: seq<Event>)
    requires Inv(s) && s.started && s.closer.NotCalled?
    ensures NoFailure(closing)
    ensures Run(s, closing) == Step(Step(Step(s, CallClose), CloseChannel), CloseConnection)
  {
    closing := [CallClose, CloseChannel, CloseConnection];
    RunCons(s, CallClose, [CloseChannel, CloseConnection]);
    RunCons(Step(s, CallClose), CloseChannel, [CloseConnection]);
    RunCons(Step(Step(s, CallClose), CloseChannel), CloseConnection, []);
    assert [CallClose] + [CloseChannel, CloseConnection] == closing;
    assert [CloseChannel] + [CloseConnection] == [CloseChannel, CloseConnection];
    assert [CloseConnection] + [] == [CloseConnection];
  }

  lemma CloseNowUnsettles(s: State)
    requires Inv(s) && s.started && s.closer.NotCalled? && !Closeable(s)
    requires !Has(s, s.conn.value, ClosedByUs)
    ensures var t := Step(Step(Step(s, CallClose), CloseChannel), CloseConnection);
            Inv(t) && t.closer.Finished? && !Settled(t)
  {
    StepKeepsInv(s, CallClose);
    StepKeepsInv(Step(s, CallClose), CloseChannel);
    StepKeepsInv(Step(Step(s, CallClose), CloseChannel), CloseConnection);
  }

  lemma CloseNowLeaks(s: State) returns (closing: seq<Event>)
    requires Inv(s) && s.started && s.closer.NotCalled? && !Closeable(s) && !Has(s, s.conn.value, ClosedByUs)
    ensures NoFailure(closing) && Run(s, closing).closer.Finished? && !Final(Run(s, closing))
  {
    closing := CloseNow(s);
    CloseNowUnsettles(s);
    var more := UnsettledDials(Run(s, closing));
    assert SomeLive(Run(Run(s, closing), more));
  }

  /** Exactly when Close may be relied on, told before it is called: while no connection fails, every run that
      finishes Close leaves nothing alive for ever if and only if the state is closeable now. Only a loop that
      is waiting to dial, dialling, or watching a dead connection lets one outlive Close. */
  lemma CloseWillBeFinalExactlyWhenCloseable(es: seq<Event>)
    requires var s := Run(START, es); s.started && s.closer.NotCalled?
    ensures CloseWillBeFinal(Run(START, es)) <==> Closeable(Run(START, es))
  {
    var s := Run(START, es);
    RunKeepsInv(START, es);
    if Leaving(s) {
      forall closing | Run(s, closing).closer.Finished? ensures Final(Run(s, closing)) { LeavingIsFinal(s, closing); }
    } else if Closeable(s) {
      forall closing | NoFailure(closing) && Run(s, closing).closer.Finished? ensures Final(Run(s, closing)) {
        QuietStays(s, s.conn.value, closing);
        forall more ensures !SomeLive(Run(Run(s, closing), more)) { SettledForever(Run(s, closing), more); }
      }
    } else {
      NoUncalledClose(es);
      var closing := CloseNowLeaks(s);
      assert !Final(Run(s, closing));
    }
  }

  /** A goroutine that can only leave does, and what Close finds it closes. */
  lemma {:induction false} LeavingStays(s: State, es: seq<Event>)
    requires Inv(s) && s.started && Leaving(s) && !s.closer.Finished?
    ensures var t := Run(s, es);
            Inv(t) && t.started && Leaving(t) && (t.closer.Finished? ==> Settled(t))
  {
    if es != [] {
      var before := Run(s, es[..|es| - 1]);
      LeavingStays(s, es[..|es| - 1]);
      StepKeepsInv(before, es[|es| - 1]);
      LeavingStep(before, es[|es| - 1]);
    }
  }

  lemma LeavingStep(s: State, e: Event)
    requires Inv(s) && s.started && Leaving(s) && (s.closer.Finished? ==> Settled(s))
    ensures var t := Step(s, e); t.started && Leaving(t) && (t.closer.Finished? ==> Settled(t))
  {
  }

  lemma LeavingIsFinal(s: State, closing: seq<Event>)
    requires Inv(s) && s.started && Leaving(s) && s.closer.NotCalled? && Run(s, closing).closer.Finished?
    ensures Final(Run(s, closing))
  {
    LeavingStays(s, closing);
    forall more ensures !SomeLive(Run(Run(s, closing), more)) { SettledForever(Run(s, closing), more); }
  }

  /** Every way for Close to run to its end from here is final, whatever fails meanwhile. */
  ghost predicate CloseMustBeFinal(s: State) {
    forall closing :: Run(s, closing).closer.Finished? ==> Final(Run(s, closing))
  }

  /** If connections may fail while Close runs, it can be relied on exactly when the goroutine can only leave: the
      failure of the connection being closed sends any other goroutine off to dial. */
  lemma CloseMustBeFinalExactlyWhenLeaving(es: seq<Event>)
    requires var s := Run(START, es); s.started && s.closer.NotCalled?
    ensures CloseMustBeFinal(Run(START, es)) <==> Leaving(Run(START, es))
  {
    var s := Run(START, es);
    RunKeepsInv(START, es);
    NoUncalledClose(es);
    if Leaving(s) {
      forall closing | Run(s, closing).closer.Finished? ensures Final(Run(s, closing)) { LeavingIsFinal(s, closing); }
    } else if Closeable(s) {
      var e := Fail(s.conn.value);
      var t := Step(s, e);
      StepKeepsInv(s, e);
      assert Has(t, t.conn.value, Failed);
      var closing := CloseNowLeaks(t);
      RunCons(s, e, closing);
      assert !Final(Run(s, [e] + closing));
    } else {
      var closing := CloseNowLeaks(s);
      assert !Final(Run(s, closing));
    }
  }

  ghost predicate Reachable(s: State) {
    exists es :: s == Run(START, es)
  }

  lemma ReachableStep(s: State, e: Event)
    requires Reachable(s)
    ensures Reachable(Step(s, e))
  {
    var es :| s == Run(START, es);
    RunSnoc(START, es, e);
  }

  /** A connect that meets no trouble. */
  lemma ConnectInstalls(s: State) returns (t: State)
    requires Reachable(s) && s.pc.Dialing? && LockFree(s)
    ensures Reachable(t)
    ensures var id := |s.links|; t == State(s.links + [Link(Alive, Open)], Some(id), Some(id), true, AtTop, s.closer)
  {
    var t1 := Step(s, Dial(true));
    var t2 := Step(t1, OpenChannel(true));
    var t3 := Step(t2, Declare(true));
    t := Step(t3, Install);
    assert t2.links == s.links + [Link(Alive, Open)];
    ReachableStep(s, Dial(true));
    ReachableStep(t1, OpenChannel(true));
    ReachableStep(t2, Declare(true));
    ReachableStep(t3, Install);
  }

  /** And then the loop comes to the select that watches the new connection. */
  lemma ConnectSucceeds(s: State) returns (t: State)
    requires Reachable(s) && s.pc.Dialing? && LockFree(s)
    ensures Reachable(t)
    ensures var id := |s.links|;
            t == State(s.links + [Link(Alive, Open)], Some(id), Some(id), true, Watching(id), s.closer)
  {
    var top := ConnectInstalls(s);
    t := Step(top, Register);
    ReachableStep(top, Register);
  }

  /** The watched connection fails, and the loop is about to dial again. */
  lemma FailUntilRedial(s: State) returns (t: State)
    requires Reachable(s) && s == State([Link(Alive, Open)], Some(0), Some(0), true, Watching(0), NotCalled)
    ensures Reachable(t) && t == State([Link(Reported, Shut)], Some(0), Some(0), true, Dialing, NotCalled)
  {
    var t1 := Step(s, Fail(0));
    var t2 := Step(t1, Report(0));
    var t3 := Step(t2, NoticeError);
    t := Step(t3, DelayOver);
    ReachableStep(s, Fail(0));
    ReachableStep(t1, Report(0));
    ReachableStep(t2, NoticeError);
    ReachableStep(t3, DelayOver);
  }

  /** Then Close runs to its end. */
  lemma CloseBeforeRedial(s: State) returns (t: State)
    requires Reachable(s) && s == State([Link(Reported, Shut)], Some(0), Some(0), true, Dialing, NotCalled)
    ensures Reachable(t) && t == s.(closer := Finished)
  {
    var t1 := Step(s, CallClose);
    var t2 := Step(t1, CloseChannel);
    t := Step(t2, CloseConnection);
    ReachableStep(s, CallClose);
    ReachableStep(t1, CloseChannel);
    ReachableStep(t2, CloseConnection);
  }

  /** Without that a connection can outlive both Close and the goroutine: one dialled while Close runs is
      installed afterwards, and the loop then leaves without closing it. */
  lemma CloseDuringDialLeaks()
    ensures exists s :: Reachable(s) && s.closer.Finished? && s.pc.Exited? && SomeLive(s)
  {
    assert START == Run(START, []);
    var up := ConnectSucceeds(START);
    var redialing := FailUntilRedial(up);
    var closed := CloseBeforeRedial(redialing);
    var leaked := ConnectSucceeds(closed);
    ReachableStep(leaked, NoticeSignal);
    assert Live(Step(leaked, NoticeSignal), 1);
  }

  /** The loop turns to a connection whose failure has already been reported. */
  predicate TurnsTooLate(s: State, e: Event) {
    e == Register && s.pc.AtTop? && LockFree(s) && s.conn.Some? && Has(s, s.conn.value, Reported)
  }

  /** The loop's other weak spot, one step: without a Close it leaves exactly so. */
  lemma LeavesUncalledExactlyTooLate(es: seq<Event>, e: Event)
    requires var s := Run(START, es); s.started && s.closer.NotCalled? && !s.pc.Exited?
    ensures Step(Run(START, es), e).pc.Exited? <==> TurnsTooLate(Run(START, es), e)
  {
    RunKeepsInv(START, es);
    NoUncalledClose(es);
  }

  /** At some point of the run the loop turned to its connection too late. */
  ghost predicate TurnedTooLate(es: seq<Event>) {
    exists n :: 0 <= n < |es| && TurnsTooLate(Run(START, es[..n]), es[n])
  }

  lemma TurnedTooLateSnoc(es: seq<Event>)
    requires es != []
    ensures var before := es[..|es| - 1];
            TurnedTooLate(es) <==> TurnedTooLate(before) || TurnsTooLate(Run(START, before), es[|es| - 1])
  {
    var before := es[..|es| - 1];
    forall n | 0 <= n < |before| ensures before[..n] == es[..n] && before[n] == es[n] {}
    if TurnedTooLate(before) {
      var n :| 0 <= n < |before| && TurnsTooLate(Run(START, before[..n]), before[n]);
      assert TurnsTooLate(Run(START, es[..n]), es[n]);
    }
    if TurnedTooLate(es) {
      var n :| 0 <= n < |es| && TurnsTooLate(Run(START, es[..n]), es[n]);
      if n < |before| { assert TurnsTooLate(Run(START, before[..n]), before[n]); }
    }
  }

  lemma TooLateMeansStarted(es: seq<Event>)
    requires es != [] && TurnedTooLate(es)
    ensures Run(START, es[..|es| - 1]).started
  {
    var n :| 0 <= n < |es| && TurnsTooLate(Run(START, es[..n]), es[n]);
    RunKeepsInv(START, es[..n]);
    StartedStays(es, n);
  }

  /** Whole runs without a Close: the loop has given up for good if and only if at some point of the run it
      turned to a connection whose failure had been reported before it was listening. */
  lemma {:induction false} GivesUpUncalledExactlyWhenTooLate(es: seq<Event>)
    requires var s := Run(START, es); s.started && s.closer.NotCalled?
    ensures Run(START, es).pc.Exited? <==> TurnedTooLate(es)
  {
    if es != [] {
      var before, e := es[..|es| - 1], es[|es| - 1];
      var s := Run(START, before);
      TurnedTooLateSnoc(es);
      if s.started {
        GivesUpUncalledExactlyWhenTooLate(before);
        if s.pc.Exited? {
          ExitedStays(s, e);
        } else {
          LeavesUncalledExactlyTooLate(before, e);
        }
      } else {
        RunKeepsInv(START, before);
        if TurnedTooLate(es) { TooLateMeansStarted(es); }
      }
    }
  }

  lemma ExitedStays(s: State, e: Event)
    requires s.pc.Exited?
    ensures Step(s, e).pc.Exited?
  {
  }

  /** A client that has been handed out stays so. */
  lemma {:induction false} StartedStays(es: seq<Event>, n: nat)
    requires n < |es| && Run(START, es[..n]).started
    ensures Run(START, es[..|es| - 1]).started
  {
    if n < |es| - 1 {
      var before := es[..|es| - 1];
      assert before[..n] == es[..n];
      StartedStays(before, n);
    }
  }

  /** And it does: the new connection fails, and is reported to nobody, between its installation and the loop's
      first look at it. */
  lemma GivingUpUncalledHappens()
    ensures exists s :: Reachable(s) && s.started && s.closer.NotCalled? && s.pc.Exited?
  {
    assert START == Run(START, []);
    var top := ConnectInstalls(START);
    var down := Step(top, Fail(0));
    var reported := Step(down, Report(0));
    ReachableStep(top, Fail(0));
    ReachableStep(down, Report(0));
    ReachableStep(reported, Register);
    assert reported == State([Link(Reported, Shut)], Some(0), Some(0), true, AtTop, NotCalled);
  }

  /** Before Close is called, we have closed no connection that was ever installed. */
  lemma {:induction false} NoUncalledClose(es: seq<Event>)
    ensures var s := Run(START, es); s.closer.NotCalled? && s.conn.Some? ==> !Has(s, s.conn.value, ClosedByUs)
  {
    if es != [] {
      NoUncalledClose(es[..|es| - 1]);
      RunKeepsInv(START, es[..|es| - 1]);
    }
  }
}
