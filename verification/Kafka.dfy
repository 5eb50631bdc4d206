/**
 At-least-once consumption of kafka.go: every member of a consumer group runs fetch, handle, commit over
 the partitions it is assigned. Members join, lose and regain partitions, die, and commit late; a run is
 any sequence of events, and events that are not enabled change nothing.
 */
module Kafka {
  import opened Prelude

  /** Why a Consume call ended. `durable` says whether the commit that failed had reached the broker,
      `handled` whether the process died between a handler's success and the commit's answer. */
  datatype Why = HandlerError(p: nat, o: nat) | CommitError(durable: bool) | FetchError | Died(handled: bool)

  datatype Phase = Idle | Handling(p: nat, o: nat) | Committing(p: nat, o: nat) | Stopped(why: Why)

  /** A reader: the next offset it will fetch from each partition it is assigned. */
  datatype Member = Member(positions: map<nat, nat>, phase: Phase)

  /** One handler call that returned nil. */
  datatype Success = Success(m: nat, p: nat, o: nat)

  datatype State = State(ends: seq<nat>, committed: seq<nat>, members: seq<Member>, successes: seq<Success>)

  function Start(partitions: nat): State {
    State(seq(partitions, _ => 0), seq(partitions, _ => 0), [], [])
  }

  datatype Event =
    | Produce(p: nat)
    | Join
    | Assign(m: nat, p: nat)
    | Revoke(m: nat, p: nat)
    | Fetch(m: nat, p: nat)
    | HandlerReturns(m: nat, isNil: bool)
    | Commit(m: nat, d: Delivery)
    | FetchFails(m: nat)
    | Die(m: nat)
    | Resume(m: nat)

  function Put(s: State, m: nat, member: Member): State
    requires m < |s.members|
  {
    s.(members := s.members[m := member])
  }

  predicate CanFetch(s: State, m: nat, p: nat) {
    && m < |s.members| && s.members[m].phase.Idle? && p in s.members[m].positions
    && p < |s.ends| && s.members[m].positions[p] < s.ends[p]
  }

  function StepFetch(s: State, m: nat, p: nat): State
    requires CanFetch(s, m, p)
  {
    var o := s.members[m].positions[p];
    Put(s, m, Member(s.members[m].positions[p := o + 1], Handling(p, o)))
  }

  function StepHandler(s: State, m: nat, isNil: bool): State
    requires m < |s.members| && s.members[m].phase.Handling?
  {
    var phase := s.members[m].phase;
    if isNil
    then Put(s, m, s.members[m].(phase := Committing(phase.p, phase.o))).(successes := s.successes + [Success(m, phase.p, phase.o)])
    else Put(s, m, s.members[m].(phase := Stopped(HandlerError(phase.p, phase.o))))
  }

  /** The broker takes any commit, also one that moves the offset backwards. */
  function StepCommit(s: State, m: nat, d: Delivery): State
    requires m < |s.members| && s.members[m].phase.Committing?
  {
    var phase := s.members[m].phase;
    var t := if d.NotExecuted? || phase.p >= |s.committed| then s else s.(committed := s.committed[phase.p := phase.o + 1]);
    Put(t, m, s.members[m].(phase := if d.Answered? then Idle else Stopped(CommitError(d.AnswerLost?))))
  }

  function Step(s: State, e: Event): State {
    match e
    case Produce(p) => if p < |s.ends| then s.(ends := s.ends[p := s.ends[p] + 1]) else s
    case Join => s.(members := s.members + [Member(map[], Idle)])
    case Assign(m, p) =>
      if m < |s.members| && p < |s.committed|
      then Put(s, m, s.members[m].(positions := s.members[m].positions[p := s.committed[p]])) else s
    case Revoke(m, p) =>
      if m < |s.members| then Put(s, m, s.members[m].(positions := s.members[m].positions - {p})) else s
    case Fetch(m, p) => if CanFetch(s, m, p) then StepFetch(s, m, p) else s
    case HandlerReturns(m, isNil) =>
      if m < |s.members| && s.members[m].phase.Handling? then StepHandler(s, m, isNil) else s
    case Commit(m, d) =>
      if m < |s.members| && s.members[m].phase.Committing? then StepCommit(s, m, d) else s
    case FetchFails(m) =>
      if m < |s.members| && s.members[m].phase.Idle? then Put(s, m, s.members[m].(phase := Stopped(FetchError))) else s
    case Die(m) =>
      if m < |s.members| && !s.members[m].phase.Stopped?
      then Put(s, m, s.members[m].(phase := Stopped(Died(s.members[m].phase.Committing?)))) else s
    case Resume(m) =>
      if m < |s.members| && s.members[m].phase.Stopped? && !s.members[m].phase.why.Died?
      then Put(s, m, s.members[m].(phase := Idle)) else s
  }

  function Run(s: State, es: seq<Event>): State {
    if es == [] then s else Step(Run(s, es[..|es| - 1]), es[|es| - 1])
  }

  lemma RunSnoc(s: State, es: seq<Event>, e: Event)
    ensures Run(s, es + [e]) == Step(Run(s, es), e)
    ensures CarefulRun(s, es + [e]) <==> CarefulRun(s, es) && Careful(Run(s, es), e)
  {
    assert (es + [e])[..|es|] == es;
  }

  // ---- At least once ----

  predicate Handled(s: State, p: nat, o: nat) {
    exists i :: 0 <= i < |s.successes| && s.successes[i].p == p && s.successes[i].o == o
  }

  /** Every offset below a committed offset has had a handler call return nil. */
  ghost predicate AtLeastOnce(s: State) {
    forall p: nat, o: nat :: p < |s.committed| && o < s.committed[p] ==> Handled(s, p, o)
  }

  /** The member stopped on a handler error, its reader is already past that message, and no one has
      handled it since. */
  ghost predicate Skipped(s: State, m: nat) {
    && m < |s.members| && s.members[m].phase.Stopped? && s.members[m].phase.why.HandlerError?
    && var why := s.members[m].phase.why;
       why.p in s.members[m].positions && why.o < s.members[m].positions[why.p] && !Handled(s, why.p, why.o)
  }

  /** The one thing a caller must not do: call Consume again on a reader that has skipped a message. */
  ghost predicate Careful(s: State, e: Event) {
    e.Resume? ==> !Skipped(s, e.m)
  }

  ghost predicate CarefulRun(s: State, es: seq<Event>) {
    es == [] || (CarefulRun(s, es[..|es| - 1]) && Careful(Run(s, es[..|es| - 1]), es[|es| - 1]))
  }

  /** The message the member is in the middle of, or gave up on. */
  predicate Open(phase: Phase, p: nat, o: nat) {
    phase == Handling(p, o) || phase == Stopped(HandlerError(p, o))
  }

  ghost predicate MemberOk(s: State, m: nat)
    requires m < |s.members|
  {
    var member := s.members[m];
    && (forall p :: p in member.positions ==> p < |s.ends| && member.positions[p] <= s.ends[p])
    && (!(member.phase.Stopped? && member.phase.why.Died?) ==>
          forall p: nat, o: nat :: p in member.positions && o < member.positions[p]
                              ==> Handled(s, p, o) || Open(member.phase, p, o))
    && (member.phase.Handling? || member.phase.Committing? ==>
          && member.phase.p < |s.ends| && member.phase.o < s.ends[member.phase.p]
          && (forall o: nat :: o < member.phase.o ==> Handled(s, member.phase.p, o))
          && (member.phase.Committing? ==> Handled(s, member.phase.p, member.phase.o)))
  }

  ghost predicate Inv(s: State) {
    && |s.ends| == |s.committed|
    && (forall p :: 0 <= p < |s.committed| ==> s.committed[p] <= s.ends[p])
    && AtLeastOnce(s)
    && forall m :: 0 <= m < |s.members| ==> MemberOk(s, m)
  }

  lemma HandledStays(s: State, t: State)
    requires |s.successes| <= |t.successes| && t.successes[..|s.successes|] == s.successes
    ensures forall p: nat, o: nat :: Handled(s, p, o) ==> Handled(t, p, o)
  {
    forall p: nat, o: nat | Handled(s, p, o) ensures Handled(t, p, o) {
      var i :| 0 <= i < |s.successes| && s.successes[i].p == p && s.successes[i].o == o;
      assert t.successes[..|s.successes|][i] == s.successes[i];
    }
  }

  lemma MemberStays(s: State, t: State, m: nat)
    requires m < |s.members| && MemberOk(s, m) && m < |t.members| && t.members[m] == s.members[m]
    requires |t.ends| == |s.ends| && forall p :: 0 <= p < |s.ends| ==> s.ends[p] <= t.ends[p]
    requires forall p: nat, o: nat :: Handled(s, p, o) ==> Handled(t, p, o)
    ensures MemberOk(t, m)
  {
  }

  lemma HandlerKeepsInv(s: State, m: nat, isNil: bool)
    requires Inv(s) && m < |s.members| && s.members[m].phase.Handling?
    ensures Inv(StepHandler(s, m, isNil))
  {
    var t := StepHandler(s, m, isNil);
    HandledStays(s, t);
    var phase := s.members[m].phase;
    assert MemberOk(s, m);
    if isNil {
      assert t.successes[|s.successes|] == Success(m, phase.p, phase.o);
      assert Handled(t, phase.p, phase.o);
    }
    assert MemberOk(t, m);
    forall n | 0 <= n < |t.members| ensures MemberOk(t, n) { if n != m { MemberStays(s, t, n); } }
  }

  lemma CommitKeepsInv(s: State, m: nat, d: Delivery)
    requires Inv(s) && m < |s.members| && s.members[m].phase.Committing?
    ensures Inv(StepCommit(s, m, d))
  {
    var t := StepCommit(s, m, d);
    HandledStays(s, t);
    assert MemberOk(s, m);
    assert MemberOk(t, m);
    forall n | 0 <= n < |t.members| ensures MemberOk(t, n) { if n != m { MemberStays(s, t, n); } }
  }

  /** The remaining events change at most the member they name. */
  lemma OtherKeepsMember(s: State, e: Event, m: nat)
    requires Inv(s) && Careful(s, e) && !e.HandlerReturns? && !e.Commit? && m < |s.members|
    ensures MemberOk(Step(s, e), m)
  {
    var t := Step(s, e);
    HandledStays(s, t);
    assert MemberOk(s, m);
    if t.members[m] == s.members[m] { MemberStays(s, t, m); }
  }

  lemma StepKeepsInv(s: State, e: Event)
    requires Inv(s) && Careful(s, e)
    ensures Inv(Step(s, e))
  {
    var t := Step(s, e);
    if e.HandlerReturns? {
      if t != s { HandlerKeepsInv(s, e.m, e.isNil); }
    } else if e.Commit? {
      if t != s { CommitKeepsInv(s, e.m, e.d); }
    } else {
      HandledStays(s, t);
      forall n | 0 <= n < |t.members| ensures MemberOk(t, n) {
        if n < |s.members| { OtherKeepsMember(s, e, n); }
      }
    }
  }

  lemma {:induction false} RunKeepsInv(s: State, es: seq<Event>)
    requires Inv(s) && CarefulRun(s, es)
    ensures Inv(Run(s, es))
  {
    if es != [] {
      RunKeepsInv(s, es[..|es| - 1]);
      StepKeepsInv(Run(s, es[..|es| - 1]), es[|es| - 1]);
    }
  }

  /** Some careful run from an empty topic leads to `s`. */
  ghost predicate Reachable(partitions: nat, s: State) {
    exists es :: CarefulRun(Start(partitions), es) && s == Run(Start(partitions), es)
  }

  lemma ReachableStep(partitions: nat, s: State, e: Event)
    requires Reachable(partitions, s) && Careful(s, e)
    ensures Reachable(partitions, Step(s, e))
  {
    var es :| CarefulRun(Start(partitions), es) && s == Run(Start(partitions), es);
    RunSnoc(Start(partitions), es, e);
  }

  lemma ReachableInv(partitions: nat, s: State)
    requires Reachable(partitions, s)
    ensures Inv(s)
  {
    var es :| CarefulRun(Start(partitions), es) && s == Run(Start(partitions), es);
    RunKeepsInv(Start(partitions), es);
  }

  /** At least once, in every careful run of any number of members and partitions. */
  lemma CommittedMeansHandled(partitions: nat, s: State)
    requires Reachable(partitions, s)
    ensures AtLeastOnce(s)
  {
    ReachableInv(partitions, s);
  }

  /** A member that joins and is given a partition starts at the committed offset. */
  lemma JoinAndFetch(s: State, p: nat)
    requires Inv(s) && p < |s.committed| && p < |s.ends| && s.committed[p] < s.ends[p]
    ensures var m := |s.members|;
            var t := Step(Step(Step(s, Join), Assign(m, p)), Fetch(m, p));
            |t.members| == m + 1 && t.members[m].phase == Handling(p, s.committed[p]) && t.committed == s.committed
  {
    var m := |s.members|;
    var t2 := Step(Step(s, Join), Assign(m, p));
    assert t2.members[m] == Member(map[p := s.committed[p]], Idle);
    assert CanFetch(t2, m, p);
  }

  /** And what is not committed is not lost: from any point of any careful run, a member that joins and is given the
      partition has the first message behind the committed offset in its handler next. */
  lemma UncommittedIsHandledNext(partitions: nat, s: State, p: nat)
    requires Reachable(partitions, s) && p < |s.committed| && p < |s.ends| && s.committed[p] < s.ends[p]
    ensures exists t, m: nat :: Reachable(partitions, t) && m < |t.members| && t.members[m].phase == Handling(p, s.committed[p])
              && t.committed == s.committed
  {
    ReachableInv(partitions, s);
    var m := |s.members|;
    ReachableStep(partitions, s, Join);
    ReachableStep(partitions, Step(s, Join), Assign(m, p));
    ReachableStep(partitions, Step(Step(s, Join), Assign(m, p)), Fetch(m, p));
    JoinAndFetch(s, p);
  }

  /** One more message on partition `p`, fetched, handled and committed by member `m`. */
  function OneMoreMessage(m: nat, p: nat): seq<Event> {
    [Produce(p), Fetch(m, p), HandlerReturns(m, true), Commit(m, Answered)]
  }

  lemma RunOneMoreMessage(s: State, m: nat, p: nat)
    ensures var es := OneMoreMessage(m, p);
            && CarefulRun(s, es)
            && Run(s, es) == Step(Step(Step(Step(s, es[0]), es[1]), es[2]), es[3])
  {
    var es := OneMoreMessage(m, p);
    RunSnoc(s, [], es[0]);
    RunSnoc(s, [es[0]], es[1]);
    RunSnoc(s, [es[0], es[1]], es[2]);
    RunSnoc(s, [es[0], es[1], es[2]], es[3]);
    assert [] + [es[0]] == [es[0]] && [es[0]] + [es[1]] == [es[0], es[1]];
    assert [es[0], es[1]] + [es[2]] == [es[0], es[1], es[2]] && [es[0], es[1], es[2]] + [es[3]] == es;
  }

  lemma NewSuccessOnly(s: State, t: State, x: Success, p: nat, o: nat)
    requires t.successes == s.successes + [x] && !Handled(s, p, o) && (x.p != p || x.o != o)
    ensures !Handled(t, p, o)
  {
    forall i | 0 <= i < |t.successes| ensures t.successes[i].p != p || t.successes[i].o != o {
      if i < |s.successes| { assert t.successes[i] == s.successes[i]; }
    }
  }

  /** Calling Consume again on such a reader loses the message: the next commit passes it. */
  lemma SkippedMessageIsLost(partitions: nat, s: State, m: nat)
    requires Reachable(partitions, s) && Skipped(s, m)
    ensures !AtLeastOnce(Run(Step(s, Resume(m)), OneMoreMessage(m, s.members[m].phase.why.p)))
  {
    ReachableInv(partitions, s);
    NextCommitPasses(s, m);
  }

  lemma NextCommitPasses(s: State, m: nat)
    requires Inv(s) && Skipped(s, m)
    ensures !AtLeastOnce(Run(Step(s, Resume(m)), OneMoreMessage(m, s.members[m].phase.why.p)))
  {
    var p, lost := s.members[m].phase.why.p, s.members[m].phase.why.o;
    assert MemberOk(s, m);
    var o, t := s.members[m].positions[p], Step(s, Resume(m));
    RunOneMoreMessage(t, m, p);
    var t1 := Step(t, Produce(p));
    assert t1.members[m] == Member(s.members[m].positions, Idle) && CanFetch(t1, m, p);
    var t2 := StepFetch(t1, m, p);
    assert t2.members[m].phase == Handling(p, o);
    var t3 := StepHandler(t2, m, true);
    assert t3.members[m].phase == Committing(p, o);
    var u := StepCommit(t3, m, Answered);
    NewSuccessOnly(s, u, Success(m, p, o), p, lost);
    assert lost < u.committed[p];
  }

  /** Re-entering Consume is safe exactly when no message was skipped: then every careful continuation
      keeps the promise, and otherwise one more message breaks it. */
  lemma ResumeSafeExactlyWhenNothingSkipped(partitions: nat, s: State, m: nat)
    requires Reachable(partitions, s)
    ensures var t := Step(s, Resume(m));
            (forall es :: CarefulRun(t, es) ==> AtLeastOnce(Run(t, es))) <==> !Skipped(s, m)
  {
    var t := Step(s, Resume(m));
    if Skipped(s, m) {
      SkippedMessageIsLost(partitions, s, m);
      RunOneMoreMessage(t, m, s.members[m].phase.why.p);
    } else {
      ReachableInv(partitions, s);
      StepKeepsInv(s, Resume(m));
      forall es | CarefulRun(t, es) ensures AtLeastOnce(Run(t, es)) {
        RunKeepsInv(t, es);
      }
    }
  }

  /** A reader does get there: one failing handler call is enough. */
  lemma SkippingHappens()
    ensures exists s :: Reachable(1, s) && Skipped(s, 0)
  {
    var s1 := State([1], [0], [], []);
    var s2 := s1.(members := [Member(map[], Idle)]);
    var s3 := s1.(members := [Member(map[0 := 0], Idle)]);
    var s4 := s1.(members := [Member(map[0 := 1], Handling(0, 0))]);
    FourSteps(s1, s2, s3, s4);
    assert Run(Start(1), []) == Start(1);
    ReachableStep(1, Start(1), Produce(0));
    ReachableStep(1, s1, Join);
    ReachableStep(1, s2, Assign(0, 0));
    ReachableStep(1, s3, Fetch(0, 0));
    ReachableStep(1, s4, HandlerReturns(0, false));
  }

  lemma FourSteps(s1: State, s2: State, s3: State, s4: State)
    requires s1 == State([1], [0], [], []) && s2 == s1.(members := [Member(map[], Idle)])
    requires s3 == s1.(members := [Member(map[0 := 0], Idle)])
    requires s4 == s1.(members := [Member(map[0 := 1], Handling(0, 0))])
    ensures Step(Start(1), Produce(0)) == s1 && Step(s1, Join) == s2 && Step(s2, Assign(0, 0)) == s3
    ensures Step(s3, Fetch(0, 0)) == s4 && Skipped(Step(s4, HandlerReturns(0, false)), 0)
  {
    assert Start(1).ends[0 := 1] == [1] && Start(1).committed == [0];
    assert map[0 := 0][0 := 1] == map[0 := 1];
    assert Step(s3, Fetch(0, 0)).members[0] == s4.members[0];
  }
}
