/** How often a message is handled when one reader at a time consumes the topic and nobody rebalances. */
module KafkaSessions {
  import opened Prelude
  import opened Kafka

  function Sum(xs: seq<nat>): nat {
    if xs == [] then 0 else Sum(xs[..|xs| - 1]) + xs[|xs| - 1]
  }

  lemma {:induction false} SumUpdate(xs: seq<nat>, i: nat, v: nat)
    requires i < |xs|
    ensures Sum(xs[i := v]) + xs[i] == Sum(xs) + v
  {
    var n := |xs| - 1;
    if i < n {
      SumUpdate(xs[..n], i, v);
      assert xs[i := v][..n] == xs[..n][i := v];
    } else {
      assert xs[i := v][..n] == xs[..n];
    }
  }

  /** The session ended between a handler's success and a durable commit. */
  predicate EndedUncommitted(member: Member) {
    member.phase.Stopped? && (member.phase.why == CommitError(false) || member.phase.why == Died(true))
  }

  function Uncommitted(members: seq<Member>): nat {
    if members == [] then 0
    else Uncommitted(members[..|members| - 1]) + if EndedUncommitted(members[|members| - 1]) then 1 else 0
  }

  /** One reader at a time, each a fresh one: a new session starts only when every earlier one has ended,
      partitions are handed out once per session, and none is taken away. */
  ghost predicate Alone(s: State, e: Event) {
    match e
    case Join => forall m :: 0 <= m < |s.members| ==> s.members[m].phase.Stopped?
    case Assign(m, p) => m < |s.members| && s.members[m].phase.Idle? && p !in s.members[m].positions
    case Revoke(m, p) => false
    case Resume(m) => false
    case _ => true
  }

  ghost predicate AloneRun(s: State, es: seq<Event>) {
    es == [] || (AloneRun(s, es[..|es| - 1]) && Alone(Run(s, es[..|es| - 1]), es[|es| - 1]))
  }

  /** The offset the session will hand to the handler next from partition `p`. */
  function Next(member: Member, p: nat): int
    requires p in member.positions
  {
    (member.positions[p] as int) - if member.phase.Handling? && member.phase.p == p then 1 else 0
  }

  function InFlight(members: seq<Member>): nat {
    if members != [] && members[|members| - 1].phase.Committing? then 1 else 0
  }

  /** The offsets of partition `p` that session `m` handled, in order. */
  function Offsets(successes: seq<Success>, m: nat, p: nat): seq<nat> {
    if successes == [] then []
    else
      var x := successes[|successes| - 1];
      Offsets(successes[..|successes| - 1], m, p) + if x.m == m && x.p == p then [x.o] else []
  }

  ghost predicate Contiguous(os: seq<nat>) {
    forall i :: 0 < i < |os| ==> os[i] == os[i - 1] + 1
  }

  predicate Busy(phase: Phase) {
    phase.Handling? || phase.Committing?
  }

  /** The running session reads each partition from the committed offset on, one message ahead at most. */
  ghost predicate CurrentOk(s: State, m: nat)
    requires m < |s.members|
  {
    var member := s.members[m];
    && (forall p :: p in member.positions ==>
          && p < |s.committed|
          && member.positions[p] == s.committed[p] + if Busy(member.phase) && member.phase.p == p then 1 else 0)
    && (Busy(member.phase) ==>
          member.phase.p in member.positions && member.phase.o + 1 == member.positions[member.phase.p])
  }

  ghost predicate Shape(s: State) {
    && |s.ends| == |s.committed|
    && (forall m :: 0 <= m < |s.members| - 1 ==> s.members[m].phase.Stopped?)
    && (forall m :: 0 <= m < |s.members| && !s.members[m].phase.Stopped? ==> CurrentOk(s, m))
  }

  ghost predicate Counted(s: State) {
    |s.successes| == Sum(s.committed) + Uncommitted(s.members) + InFlight(s.members)
  }

  ghost predicate Follows(s: State, m: nat, p: nat) {
    var os := Offsets(s.successes, m, p);
    && Contiguous(os)
    && (os != [] && m < |s.members| && !s.members[m].phase.Stopped? ==>
          p in s.members[m].positions && os[|os| - 1] + 1 == Next(s.members[m], p))
  }

  ghost predicate Ordered(s: State) {
    && (forall i :: 0 <= i < |s.successes| ==> s.successes[i].m < |s.members|)
    && (forall m: nat, p: nat :: Follows(s, m, p))
  }

  ghost predicate Inv(s: State) {
    Shape(s) && Counted(s) && Ordered(s)
  }

  lemma UncommittedUpdate(members: seq<Member>, member: Member)
    requires members != []
    ensures var n := |members| - 1;
            Uncommitted(members[n := member]) == Uncommitted(members[..n]) + if EndedUncommitted(member) then 1 else 0
  {
    var n := |members| - 1;
    assert members[n := member][..n] == members[..n];
  }

  /** A live member is the last one. */
  lemma LiveIsLast(s: State, m: nat)
    requires Shape(s) && m < |s.members| && !s.members[m].phase.Stopped?
    ensures m == |s.members| - 1 && CurrentOk(s, m)
  {
  }

  lemma StepKeepsShape(s: State, e: Event)
    requires Shape(s) && Alone(s, e)
    ensures Shape(Step(s, e))
  {
    var t := Step(s, e);
    forall m | 0 <= m < |t.members| && !t.members[m].phase.Stopped? ensures CurrentOk(t, m) {
      if m < |s.members| { LiveIsLast(s, m); }
    }
  }

  /** What the count owes to the last member. */
  function Debt(member: Member): nat {
    if EndedUncommitted(member) || member.phase.Committing? then 1 else 0
  }

  lemma LastMemberCounts(members: seq<Member>, member: Member)
    requires members != []
    ensures var n := |members| - 1;
            Uncommitted(members[n := member]) + InFlight(members[n := member])
              == Uncommitted(members[..n]) + Debt(member)
  {
    UncommittedUpdate(members, member);
  }

  lemma CommitKeepsCount(s: State, m: nat, d: Delivery)
    requires Shape(s) && Counted(s) && m < |s.members| && s.members[m].phase.Committing?
    ensures Counted(StepCommit(s, m, d))
  {
    var t := StepCommit(s, m, d);
    LiveIsLast(s, m);
    LastMemberCounts(s.members, s.members[m]);
    LastMemberCounts(s.members, t.members[m]);
    SumUpdate(s.committed, s.members[m].phase.p, s.members[m].phase.o + 1);
  }

  lemma MemberKeepsCount(s: State, t: State, m: nat)
    requires Counted(s) && m == |s.members| - 1 && |t.members| == |s.members|
    requires t.members == s.members[m := t.members[m]] && t.committed == s.committed
    requires |t.successes| + Debt(s.members[m]) == |s.successes| + Debt(t.members[m])
    ensures Counted(t)
  {
    LastMemberCounts(s.members, s.members[m]);
    LastMemberCounts(s.members, t.members[m]);
  }

  lemma StepKeepsCount(s: State, e: Event)
    requires Shape(s) && Counted(s) && Alone(s, e)
    ensures Counted(Step(s, e))
  {
    var t := Step(s, e);
    if e.Join? {
      assert t.members[..|s.members|] == s.members;
    } else if e.Commit? {
      if t != s { CommitKeepsCount(s, e.m, e.d); }
    } else if t.members != s.members {
      LiveIsLast(s, e.m);
      MemberKeepsCount(s, t, e.m);
    }
  }

  lemma {:induction false} NoOffsetsYet(successes: seq<Success>, m: nat, p: nat)
    requires forall i :: 0 <= i < |successes| ==> successes[i].m < m
    ensures Offsets(successes, m, p) == []
  {
    if successes != [] { NoOffsetsYet(successes[..|successes| - 1], m, p); }
  }

  lemma SuccessKeepsOrder(s: State, n: nat, m: nat, p: nat)
    requires Shape(s) && n < |s.members| && s.members[n].phase.Handling? && Follows(s, m, p)
    requires m < |s.members| || Offsets(s.successes, m, p) == []
    ensures Follows(StepHandler(s, n, true), m, p)
  {
    var t := StepHandler(s, n, true);
    LiveIsLast(s, n);
    assert t.successes[..|s.successes|] == s.successes;
    var os, more := Offsets(s.successes, m, p), Offsets(t.successes, m, p);
    if m == n && p == s.members[n].phase.p {
      assert more == os + [s.members[n].phase.o];
    } else {
      assert more == os + [];
      assert os + [] == os;
    }
  }

  /** No event but a success moves the place a live session continues from, nor opens an ended one. */
  lemma NextStays(s: State, e: Event, m: nat, p: nat)
    requires Alone(s, e) && Step(s, e).successes == s.successes && m < |s.members|
    requires !s.members[m].phase.Stopped? ==> CurrentOk(s, m)
    requires !Step(s, e).members[m].phase.Stopped?
    ensures !s.members[m].phase.Stopped?
    ensures p in s.members[m].positions
            ==> p in Step(s, e).members[m].positions && Next(Step(s, e).members[m], p) == Next(s.members[m], p)
  {
  }

  lemma OtherKeepsOrder(s: State, e: Event, m: nat, p: nat)
    requires Shape(s) && Follows(s, m, p) && Alone(s, e)
    requires m < |s.members| || Offsets(s.successes, m, p) == []
    requires Step(s, e).successes == s.successes
    ensures Follows(Step(s, e), m, p)
  {
    if m < |s.members| && !Step(s, e).members[m].phase.Stopped? {
      NextStays(s, e, m, p);
    }
  }

  lemma StepKeepsOrder(s: State, e: Event, m: nat, p: nat)
    requires Shape(s) && Ordered(s) && Alone(s, e)
    ensures Follows(Step(s, e), m, p)
  {
    assert Follows(s, m, p);
    if m >= |s.members| { NoOffsetsYet(s.successes, m, p); }
    if Step(s, e).successes != s.successes {
      SuccessKeepsOrder(s, e.m, m, p);
    } else {
      OtherKeepsOrder(s, e, m, p);
    }
  }

  lemma StepKeepsInv(s: State, e: Event)
    requires Inv(s) && Alone(s, e)
    ensures Inv(Step(s, e))
  {
    StepKeepsShape(s, e);
    StepKeepsCount(s, e);
    forall m: nat, p: nat ensures Follows(Step(s, e), m, p) { StepKeepsOrder(s, e, m, p); }
  }

  lemma {:induction false} RunKeepsInv(s: State, es: seq<Event>)
    requires Inv(s) && AloneRun(s, es)
    ensures Inv(Run(s, es))
  {
    if es != [] {
      RunKeepsInv(s, es[..|es| - 1]);
      StepKeepsInv(Run(s, es[..|es| - 1]), es[|es| - 1]);
    }
  }

  lemma {:induction false} SumOfZeros(n: nat)
    ensures Sum(Start(n).committed) == 0
  {
    if n > 0 {
      SumOfZeros(n - 1);
      assert Start(n).committed[..n - 1] == Start(n - 1).committed;
    }
  }

  lemma {:induction false} UncommittedBound(members: seq<Member>)
    ensures Uncommitted(members) <= |members|
  {
    if members != [] { UncommittedBound(members[..|members| - 1]); }
  }

  /** Conservation: successful handler calls are the committed messages, plus one for each session that
      ended between success and durable commit, plus the one whose commit is still under way. So a
      session costs at most one repeated message over all its partitions. */
  lemma {:induction false} SuccessesAccounted(partitions: nat, es: seq<Event>)
    requires AloneRun(Start(partitions), es)
    ensures var s := Run(Start(partitions), es);
            && |s.successes| == Sum(s.committed) + Uncommitted(s.members) + InFlight(s.members)
            && (InFlight(s.members) == 0 ==> |s.successes| <= Sum(s.committed) + |s.members|)
  {
    SumOfZeros(partitions);
    RunKeepsInv(Start(partitions), es);
    UncommittedBound(Run(Start(partitions), es).members);
  }

  /** Order: within one session the offsets handled from a partition follow one another without a gap. */
  lemma SessionsHandleInOrder(partitions: nat, es: seq<Event>, m: nat, p: nat)
    requires AloneRun(Start(partitions), es)
    ensures Contiguous(Offsets(Run(Start(partitions), es).successes, m, p))
  {
    SumOfZeros(partitions);
    RunKeepsInv(Start(partitions), es);
    assert Follows(Run(Start(partitions), es), m, p);
  }

  // ---- Repeated messages ----

  /** The messages that have been handled, each once. */
  function Distinct(successes: seq<Success>): set<(nat, nat)> {
    set x | x in successes :: (x.p, x.o)
  }

  /** The first `n` messages of partition `p`. */
  function Prefix(p: nat, n: nat): (ms: set<(nat, nat)>)
    ensures forall m :: m in ms <==> m.0 == p && m.1 < n
  {
    if n == 0 then {} else Prefix(p, n - 1) + {(p, n - 1)}
  }

  lemma {:induction false} PrefixSize(p: nat, n: nat)
    ensures |Prefix(p, n)| == n
  {
    if n > 0 { PrefixSize(p, n - 1); }
  }

  /** The messages below the committed offsets. */
  function Behind(committed: seq<nat>): (ms: set<(nat, nat)>)
    ensures forall m :: m in ms <==> m.0 < |committed| && m.1 < committed[m.0]
  {
    if committed == [] then {}
    else
      var n := |committed| - 1;
      Behind(committed[..n]) + Prefix(n, committed[n])
  }

  lemma {:induction false} BehindSize(committed: seq<nat>)
    ensures |Behind(committed)| == Sum(committed)
  {
    if committed != [] {
      var n := |committed| - 1;
      BehindSize(committed[..n]);
      PrefixSize(n, committed[n]);
      assert Behind(committed[..n]) !! Prefix(n, committed[n]);
    }
  }

  lemma {:induction false} AloneIsCareful(s: State, es: seq<Event>)
    requires AloneRun(s, es)
    ensures CarefulRun(s, es)
  {
    if es != [] { AloneIsCareful(s, es[..|es| - 1]); }
  }

  /** At most one repeated message for each session that ended before its commit was durable, and one for the
      session in flight: that many successful handler calls are of messages handled before. */
  lemma {:induction false} RepeatsAccounted(partitions: nat, es: seq<Event>)
    requires AloneRun(Start(partitions), es)
    ensures var s := Run(Start(partitions), es);
            |s.successes| <= |Distinct(s.successes)| + Uncommitted(s.members) + InFlight(s.members)
  {
    var s := Run(Start(partitions), es);
    SuccessesAccounted(partitions, es);
    AloneIsCareful(Start(partitions), es);
    CommittedMeansHandled(partitions, s);
    BehindSize(s.committed);
    var behind, distinct := Behind(s.committed), Distinct(s.successes);
    forall m | m in behind ensures m in distinct { assert Handled(s, m.0, m.1); }
    assert distinct == behind + (distinct - behind);
  }
}
