/** What every run of the limiter guarantees. */
module RateLimitGuarantees {
  import opened Prelude
  import opened RateLimit

  ghost predicate Reachable(c: Limiter, s: State)
    requires c.Valid()
  {
    exists es :: s == Run(c, START, es)
  }

  lemma {:induction false} RunKeepsInv(c: Limiter, s: State, es: seq<Event>)
    requires c.Valid() && Inv(c, s)
    ensures Inv(c, Run(c, s, es))
  {
    if es != [] {
      RunKeepsInv(c, s, es[..|es| - 1]);
      StepKeepsInv(c, Run(c, s, es[..|es| - 1]), es[|es| - 1]);
    }
  }

  lemma ReachableInv(c: Limiter, s: State)
    requires c.Valid() && Reachable(c, s)
    ensures Inv(c, s)
  {
    var es :| s == Run(c, START, es);
    RunKeepsInv(c, START, es);
  }

  lemma ReachableStep(c: Limiter, s: State, e: Event)
    requires c.Valid() && Reachable(c, s)
    ensures Reachable(c, Step(c, s, e))
  {
    var es :| s == Run(c, START, es);
    assert (es + [e])[..|es|] == es;
    assert Step(c, s, e) == Run(c, START, es + [e]);
  }

  /** Every INCR on `k` executed before the bucket of `k` was over. */
  ghost predicate Prompt(c: Limiter, s: State, k: Key) {
    forall j :: 0 <= j < |s.log| && s.log[j].key == k ==> s.log[j].at < End(c, k)
  }

  /** The INCRs on `k` that executed only after its bucket had ended, by position. */
  function LateLandings(c: Limiter, log: seq<Landing>, k: Key): (late: set<nat>)
    ensures forall j: nat :: j in late <==> j < |log| && log[j].key == k && log[j].at >= End(c, k)
  {
    set j | j in Below(|log|) && log[j].key == k && log[j].at >= End(c, k)
  }

  function Late(c: Limiter, log: seq<Landing>, k: Key): nat {
    |LateLandings(c, log, k)|
  }

  function Cap(c: Limiter): nat {
    if c.limit > 0 then c.limit else 0
  }

  predicate IsAllowed(s: State, i: nat) {
    i < |s.calls| && s.calls[i].pc.Done? && s.calls[i].pc.reply.Allowed?
  }

  /** The calls on key `k` that were told they may proceed. */
  function AllowedCalls(s: State, k: Key): set<nat> {
    set i | i in Below(|s.calls|) && s.calls[i].key == k && IsAllowed(s, i)
  }

  /** The incarnation of the key this call's INCR hit. */
  function EpochOf(s: State, i: nat): nat {
    if i < |s.calls| && s.calls[i].landed.Some? && s.calls[i].landed.value < |s.log|
    then s.log[s.calls[i].landed.value].epoch else 0
  }

  /** Two calls on one incarnation never get the same count from INCR. */
  lemma DistinctCounts(c: Limiter, s: State, i: nat, j: nat)
    requires Inv(c, s) && i < |s.calls| && j < |s.calls|
    requires s.calls[i].landed.Some? && s.calls[j].landed.Some? && s.calls[i].key == s.calls[j].key
    requires EpochOf(s, i) == EpochOf(s, j) && CountOf(s, i) == CountOf(s, j)
    ensures i == j
  {
    assert CallOk(c, s, i) && CallOk(c, s, j);
    var a, b := s.calls[i].landed.value, s.calls[j].landed.value;
    var lo, hi := if a <= b then a else b, if a <= b then b else a;
    TallyGrows(s.log, lo + 1, hi + 1, s.calls[i].key, EpochOf(s, i));
  }

  /** The calls on one incarnation of a key that were allowed. */
  function AllowedOn(s: State, k: Key, epoch: nat): set<nat> {
    set i | i in AllowedCalls(s, k) && EpochOf(s, i) == epoch
  }

  lemma CountIsPositive(c: Limiter, s: State, i: nat)
    requires Inv(c, s) && i < |s.calls| && s.calls[i].landed.Some?
    ensures 1 <= CountOf(s, i)
  {
    assert CallOk(c, s, i);
    var j := s.calls[i].landed.value;
    TallyGrows(s.log, 0, j + 1, s.calls[i].key, EpochOf(s, i));
  }

  /** Whatever interleaves, one incarnation of a key admits at most the limit. */
  lemma CapPerIncarnation(c: Limiter, s: State, k: Key, epoch: nat)
    requires c.Valid() && Inv(c, s)
    ensures |AllowedOn(s, k, epoch)| <= Cap(c)
  {
    var a := AllowedOn(s, k, epoch);
    forall i | i in a ensures CountOf(s, i) in Range(1, Cap(c) + 1) {
      assert CallOk(c, s, i);
      CountIsPositive(c, s, i);
    }
    forall i, j | i in a && j in a && CountOf(s, i) == CountOf(s, j) ensures i == j {
      assert CallOk(c, s, i) && CallOk(c, s, j);
      DistinctCounts(c, s, i, j);
    }
    Injection(a, (i: nat) => CountOf(s, i), Range(1, Cap(c) + 1));
    RangeSize(1, Cap(c) + 1);
  }

  /** Where in the log this call's INCR stands. */
  function Position(s: State, i: nat): nat {
    if i < |s.calls| && s.calls[i].landed.Some? then s.calls[i].landed.value else 0
  }

  /** With no assumption on timing, every INCR that lands after its bucket costs at most one more call: the
      first incarnation admits the limit, and every admission on a later one is such an INCR. */
  lemma CapWithLateIncrs(c: Limiter, s: State, k: Key)
    requires c.Valid() && Reachable(c, s)
    ensures |AllowedCalls(s, k)| <= Cap(c) + Late(c, s.log, k)
  {
    ReachableInv(c, s);
    CapPerIncarnation(c, s, k, 0);
    var later := AllowedCalls(s, k) - AllowedOn(s, k, 0);
    forall i | i in later ensures Position(s, i) in LateLandings(c, s.log, k) {
      assert CallOk(c, s, i);
      assert LandingOk(c, s, Position(s, i));
    }
    forall i, j | i in later && j in later && Position(s, i) == Position(s, j) ensures i == j {
      assert CallOk(c, s, i) && CallOk(c, s, j);
    }
    Injection(later, (i: nat) => Position(s, i), LateLandings(c, s.log, k));
    assert AllowedCalls(s, k) == AllowedOn(s, k, 0) + later;
  }

  /** The limit: if the INCRs on one key and bucket are prompt, at most the limit of them is admitted. */
  lemma AtMostLimit(c: Limiter, s: State, k: Key)
    requires c.Valid() && Reachable(c, s) && Prompt(c, s, k)
    ensures |AllowedCalls(s, k)| <= Cap(c)
  {
    CapWithLateIncrs(c, s, k);
    assert LateLandings(c, s.log, k) == {};
  }

  // ---- Refinement of an atomic counter ----

  /** The reference limiter: one counter per key and bucket, each request decided in one step. */
  datatype Verdict = Admit(remaining: int) | Reject

  function Atomic(limit: int, requests: seq<Key>): (verdicts: seq<Verdict>)
    ensures |verdicts| == |requests|
  {
    if requests == [] then []
    else
      var before := requests[..|requests| - 1];
      var n := multiset(requests)[requests[|requests| - 1]];
      Atomic(limit, before) + [if n > limit then Reject else Admit(limit - n)]
  }

  function Requests(log: seq<Landing>): (r: seq<Key>)
    ensures |r| == |log| && forall j :: 0 <= j < |log| ==> r[j] == log[j].key
  {
    seq(|log|, j requires 0 <= j < |log| => log[j].key)
  }

  lemma {:induction false} AtomicAt(limit: int, requests: seq<Key>, j: nat)
    requires j < |requests|
    ensures Atomic(limit, requests)[j]
            == var n := multiset(requests[..j + 1])[requests[j]]; if n > limit then Reject else Admit(limit - n)
  {
    if j == |requests| - 1 {
      assert requests[..j + 1] == requests;
    } else {
      AtomicAt(limit, requests[..|requests| - 1], j);
      assert requests[..|requests| - 1][..j + 1] == requests[..j + 1];
    }
  }

  lemma {:induction false} TallyIsMultiplicity(log: seq<Landing>, k: Key)
    requires forall j :: 0 <= j < |log| && log[j].key == k ==> log[j].epoch == 0
    ensures Tally(log, k, 0) == multiset(Requests(log))[k]
  {
    if log != [] {
      var n := |log| - 1;
      TallyIsMultiplicity(log[..n], k);
      assert Requests(log) == Requests(log[..n]) + [log[n].key];
    }
  }

  lemma PromptEpochs(c: Limiter, s: State, k: Key)
    requires c.Valid() && Inv(c, s) && Prompt(c, s, k)
    ensures forall j :: 0 <= j < |s.log| && s.log[j].key == k ==> s.log[j].epoch == 0
  {
    forall j | 0 <= j < |s.log| && s.log[j].key == k ensures s.log[j].epoch == 0 { assert LandingOk(c, s, j); }
  }

  /** The interleaved limiter refines the atomic one, linearised at INCR: whatever a call is told is
      what the atomic limiter answers at the position of its INCR. */
  lemma RefinesAtomic(c: Limiter, s: State, i: nat)
    requires c.Valid() && Reachable(c, s) && i < |s.calls| && Prompt(c, s, s.calls[i].key)
    requires s.calls[i].pc.Done? && !s.calls[i].pc.reply.Errored?
    ensures s.calls[i].landed.Some? && s.calls[i].landed.value < |s.log|
    ensures var verdict := Atomic(c.limit, Requests(s.log))[s.calls[i].landed.value];
            match s.calls[i].pc.reply
            case Allowed(remaining, _) => verdict == Admit(remaining)
            case Denied(_) => verdict == Reject
            case Errored => true
  {
    ReachableInv(c, s);
    assert CallOk(c, s, i);
    var j := s.calls[i].landed.value;
    PromptEpochs(c, s, s.log[j].key);
    TallyIsMultiplicity(s.log[..j + 1], s.log[j].key);
    assert Requests(s.log)[..j + 1] == Requests(s.log[..j + 1]);
    AtomicAt(c.limit, Requests(s.log), j);
  }

  /** The calls whose INCR executed on `k`. */
  function LandedCalls(s: State, k: Key): set<nat> {
    set i | i in Below(|s.calls|) && s.calls[i].key == k && s.calls[i].landed.Some?
  }

  lemma {:induction false} EveryRankTaken(log: seq<Landing>, k: Key, n: nat) returns (j: nat)
    requires 1 <= n <= Tally(log, k, 0)
    ensures j < |log| && log[j].key == k && log[j].epoch == 0 && Tally(log[..j + 1], k, 0) == n
  {
    var last := |log| - 1;
    if n <= Tally(log[..last], k, 0) {
      j := EveryRankTaken(log[..last], k, n);
      assert log[..last][..j + 1] == log[..j + 1];
    } else {
      j := last;
      assert log[..j + 1] == log;
    }
  }

  /** The calls on `k` whose INCR returned at most `m`. */
  function FirstCalls(s: State, k: Key, m: nat): set<nat> {
    set i | i in LandedCalls(s, k) && CountOf(s, i) <= m
  }

  lemma CallWithRank(c: Limiter, s: State, k: Key, n: nat) returns (i: nat)
    requires c.Valid() && Inv(c, s) && Prompt(c, s, k) && 1 <= n <= Tally(s.log, k, 0)
    ensures i in LandedCalls(s, k) && CountOf(s, i) == n
  {
    var j := EveryRankTaken(s.log, k, n);
    assert LandingOk(c, s, j);
    i := s.log[j].call;
  }

  lemma FirstCallsDiffer(c: Limiter, s: State, k: Key, i: nat, j: nat)
    requires c.Valid() && Inv(c, s) && Prompt(c, s, k)
    requires i in LandedCalls(s, k) && j in LandedCalls(s, k) && CountOf(s, i) == CountOf(s, j)
    ensures i == j
  {
    PromptEpochs(c, s, k);
    assert CallOk(c, s, i) && CallOk(c, s, j);
    DistinctCounts(c, s, i, j);
  }

  /** As many calls as ranks: the counts 1 to `m` each went to exactly one call. */
  lemma FirstRanks(c: Limiter, s: State, k: Key, m: nat)
    requires c.Valid() && Inv(c, s) && Prompt(c, s, k) && m <= Tally(s.log, k, 0)
    ensures |FirstCalls(s, k, m)| == m
  {
    var first, ranks, count := FirstCalls(s, k, m), Range(1, m + 1), (i: nat) => CountOf(s, i);
    forall i | i in first ensures count(i) in ranks { CountIsPositive(c, s, i); }
    forall i, j | i in first && j in first && count(i) == count(j) ensures i == j {
      FirstCallsDiffer(c, s, k, i, j);
    }
    forall n | n in ranks ensures exists i :: i in first && count(i) == n {
      var i := CallWithRank(c, s, k, n);
      assert i in first && count(i) == n;
    }
    Bijection(first, count, ranks);
    RangeSize(1, m + 1);
  }

  /** With prompt INCRs on a key and bucket and every landed call answered, `n` calls in a bucket give exactly the lesser of
      `n` and the limit admissions. */
  lemma ExactlyLimit(c: Limiter, s: State, k: Key)
    requires c.Valid() && Reachable(c, s) && Prompt(c, s, k)
    requires forall i :: i in LandedCalls(s, k) ==> s.calls[i].pc.Done? && !s.calls[i].pc.reply.Errored?
    ensures var n := |LandedCalls(s, k)|; |AllowedCalls(s, k)| == if n < Cap(c) then n else Cap(c)
  {
    ReachableInv(c, s);
    PromptEpochs(c, s, k);
    var total := Tally(s.log, k, 0);
    forall i | i in LandedCalls(s, k) ensures CountOf(s, i) <= total {
      assert CallOk(c, s, i);
      TallyGrows(s.log, s.calls[i].landed.value + 1, |s.log|, k, 0);
      assert s.log[..|s.log|] == s.log;
    }
    assert LandedCalls(s, k) == FirstCalls(s, k, total);
    FirstRanks(c, s, k, total);
    var m := if total < Cap(c) then total else Cap(c);
    forall i: nat ensures i in AllowedCalls(s, k) <==> i in FirstCalls(s, k, m) {
      if i < |s.calls| { assert CallOk(c, s, i); }
      if i in LandedCalls(s, k) { CountIsPositive(c, s, i); }
    }
    assert AllowedCalls(s, k) == FirstCalls(s, k, m);
    FirstRanks(c, s, k, m);
  }

  /** Requests the fail-open middleware lets through: allowed, or answered with an error. */
  predicate Passed(s: State, i: nat) {
    i < |s.calls| && s.calls[i].pc.Done? && !s.calls[i].pc.reply.Denied?
  }

  function PassedCalls(s: State, k: Key): set<nat> {
    set i | i in Below(|s.calls|) && s.calls[i].key == k && Passed(s, i)
  }

  function ErroredCalls(s: State, k: Key): set<nat> {
    set i | i in Below(|s.calls|) && s.calls[i].key == k && s.calls[i].pc.Done? && s.calls[i].pc.reply.Errored?
  }

  /** Failing open costs at most one extra request for each Redis error. */
  lemma FailOpenCost(c: Limiter, s: State, k: Key)
    requires c.Valid() && Reachable(c, s) && Prompt(c, s, k)
    ensures |PassedCalls(s, k)| == |AllowedCalls(s, k)| + |ErroredCalls(s, k)| <= Cap(c) + |ErroredCalls(s, k)|
  {
    AtMostLimit(c, s, k);
    assert PassedCalls(s, k) == AllowedCalls(s, k) + ErroredCalls(s, k);
    assert AllowedCalls(s, k) !! ErroredCalls(s, k);
  }

  // ---- Retry-After ----

  /** The whole seconds the middleware writes: a negative TTL truncates to zero. */
  function RetryAfter(ttl: Ttl): nat {
    match ttl
    case Left(seconds, _) => seconds
    case Unread(window) => window
    case _ => 0
  }

  /** Retrying a denied call after Retry-After lands in a later bucket, except exactly when TTL found
      the key without an expiry while the bucket was still running; and the wait never exceeds the
      lifetime EXPIRE sets. */
  lemma RetryLandsLater(c: Limiter, s: State, i: nat)
    requires c.Valid() && Reachable(c, s) && i < |s.calls|
    requires s.calls[i].pc.Done? && s.calls[i].pc.reply.Denied?
    ensures var at, ttl, k := s.calls[i].pc.at, s.calls[i].pc.reply.ttl, s.calls[i].key;
            && ((at + RetryAfter(ttl)) / c.period > k.bucket <==> !(ttl.Persistent? && at < End(c, k)))
            && RetryAfter(ttl) <= c.life
  {
    ReachableInv(c, s);
    assert CallOk(c, s, i);
    var at, ttl, k := s.calls[i].pc.at, s.calls[i].pc.reply.ttl, s.calls[i].key;
    LaterBucket(c.period, k.bucket, at + RetryAfter(ttl));
  }

  /** Second `t` is past bucket `b` of length `p` exactly when it is at or after the bucket's end. */
  lemma LaterBucket(p: nat, b: nat, t: nat)
    requires p >= 1
    ensures t / p > b <==> t >= b * p + p
  {
    var q := t / p;
    assert t == q * p + t % p;
    if q > b {
      MulMonotone(b + 1, q, p);
    } else {
      MulMonotone(q, b, p);
    }
  }

  /** The exception: TTL finds no expiry only while the call that created the key has not set one. */
  lemma PersistentMeansUnset(c: Limiter, s: State, i: nat, d: Delivery)
    requires c.Valid() && Reachable(c, s) && At(s, i, AtTtl)
    ensures StepTtl(c, s, i, d).calls[i].pc.reply != Errored
    ensures StepTtl(c, s, i, d).calls[i].pc.reply.ttl.Persistent? ==> Unset(s, s.calls[i].key)
  {
    ReachableInv(c, s);
    assert CallOk(c, s, i);
    assert LandingOk(c, s, s.calls[i].landed.value);
    assert EntryOk(c, s, s.calls[i].key);
  }

  /** `n` calls have executed their INCR by now, and the first has not set the expiry yet. */
  ghost predicate Piled(s: State, k: Key, n: nat) {
    && |s.calls| == |s.log| == n >= 1
    && k in s.store && s.store[k].count == n && s.store[k].expiry.None?
    && s.calls[0] == Call(k, Some(0), AtExpire)
    && (forall i :: 0 < i < n ==> s.calls[i] == Call(k, Some(i), AtTtl))
    && s.log[n - 1].count == n
  }

  lemma OneMorePiled(c: Limiter, s: State, k: Key, n: nat)
    requires c.Valid() && k.bucket == s.now / c.period
    requires if n == 0 then s == START.(now := s.now) else Piled(s, k, n)
    ensures Piled(Step(c, Step(c, s, Begin(k.name)), Incr(n, Answered)), k, n + 1)
  {
    assert Step(c, s, Begin(k.name)).calls == s.calls + [Call(k, None, AtIncr)];
  }

  lemma {:induction false} PileUp(c: Limiter, start: State, k: Key, n: nat) returns (s: State)
    requires c.Valid() && Reachable(c, start) && start == START.(now := start.now) && k.bucket == start.now / c.period
    ensures Reachable(c, s) && s.now == start.now && if n == 0 then s == start else Piled(s, k, n)
  {
    if n == 0 {
      s := start;
    } else {
      var before := PileUp(c, start, k, n - 1);
      var m := Step(c, before, Begin(k.name));
      ReachableStep(c, before, Begin(k.name));
      ReachableStep(c, m, Incr(n - 1, Answered));
      OneMorePiled(c, before, k, n - 1);
      s := Step(c, m, Incr(n - 1, Answered));
    }
  }

  /** And it does happen, under every limit: the calls that overtake the first one between its INCR and its
      EXPIRE are told to retry at once, inside the bucket that denies them. */
  lemma DeniedWithoutExpiryHappens(c: Limiter, name: string)
    requires c.Valid()
    ensures exists s, i: nat :: Reachable(c, s) && i < |s.calls| && s.calls[i].pc.Done?
              && s.calls[i].pc.reply == Denied(Persistent) && s.calls[i].pc.at < End(c, s.calls[i].key)
  {
    var k, n := Key(name, 0), Cap(c) + 2;
    assert START == Run(c, START, []) && 0 / c.period == 0;
    var s := PileUp(c, START, k, n);
    ReachableStep(c, s, ReadTtl(n - 1, Answered));
    assert Step(c, s, ReadTtl(n - 1, Answered)).calls[n - 1].pc == Done(Denied(Persistent), 0);
  }

  // ---- What the commands do at Redis ----

  /** INCR, written out: a key that is absent or whose expiry has come starts again at 1 without an expiry, any other
      counts one up and keeps its expiry; so it is also when the answer is lost, and nothing happens when the command
      is not executed. The call goes on to EXPIRE only if it was told 1. */
  lemma IncrAtRedis(c: Limiter, s: State, i: nat, d: Delivery)
    requires c.Valid() && At(s, i, AtIncr)
    ensures var t, k := Step(c, s, Incr(i, d)), s.calls[i].key;
            if d.NotExecuted? then t.store == s.store && t.log == s.log && t.calls[i].pc == Done(Errored, s.now)
            else
              var fresh_ := k !in s.store || (s.store[k].expiry.Some? && s.store[k].expiry.value <= s.now);
              && k in t.store && t.store == s.store[k := t.store[k]]
              && t.store[k].count == (if fresh_ then 1 else s.store[k].count + 1)
              && t.store[k].expiry == (if fresh_ then None else s.store[k].expiry)
              && |t.log| == |s.log| + 1 && t.log[|s.log|].count == t.store[k].count
              && t.calls[i].pc == if d.AnswerLost? then Done(Errored, s.now)
                                  else if t.store[k].count == 1 then AtExpire else AtTtl
  {
  }

  /** EXPIRE, written out: a key that is there lives for the lifetime from now on; so it does when the answer is
      lost, and nothing happens when the command is not executed. TTL changes nothing. */
  lemma ExpireAtRedis(c: Limiter, s: State, i: nat, d: Delivery)
    requires c.Valid() && At(s, i, AtExpire)
    ensures var t, k := Step(c, s, Expire(i, d)), s.calls[i].key;
            && t.store.Keys == s.store.Keys && (forall l :: l in s.store && l != k ==> t.store[l] == s.store[l])
            && (k in s.store ==>
                  && t.store[k].count == s.store[k].count
                  && t.store[k].expiry == if !d.NotExecuted? && (s.store[k].expiry.None? || s.now < s.store[k].expiry.value)
                                          then Some(s.now + c.life) else s.store[k].expiry)
            && t.calls[i].pc == if d.Answered? then AtTtl else Done(Errored, s.now)
  {
  }

  // ---- How far Retry-After is from the end of the bucket ----

  predicate WasDenied(s: State, i: nat) {
    i < |s.calls| && s.calls[i].pc.Done? && s.calls[i].pc.reply.Denied?
  }

  /** The wait that a key's expiry gives ends after the bucket by as much as EXPIRE came after the bucket's
      start, plus what its lifetime has over the window. */
  lemma RetryOvershoot(c: Limiter, s: State, i: nat)
    requires c.Valid() && Reachable(c, s) && WasDenied(s, i) && s.calls[i].pc.reply.ttl.Left?
    ensures var at, ttl, k := s.calls[i].pc.at, s.calls[i].pc.reply.ttl, s.calls[i].key;
            && k.bucket * c.period <= ttl.since <= at
            && at + RetryAfter(ttl) == End(c, k) + (ttl.since - k.bucket * c.period) + (c.life - c.period)
  {
    ReachableInv(c, s);
    assert CallOk(c, s, i);
  }

  /** Exactly when Retry-After is the time until the window resets, for a call denied inside its bucket: EXPIRE
      ran at the bucket's very start and set no more than the window; or TTL went unanswered at the very start. */
  lemma RetryAfterIsExact(c: Limiter, s: State, i: nat)
    requires c.Valid() && Reachable(c, s) && WasDenied(s, i) && s.calls[i].pc.at < End(c, s.calls[i].key)
    ensures var at, ttl, k := s.calls[i].pc.at, s.calls[i].pc.reply.ttl, s.calls[i].key;
            var start := k.bucket * c.period;
            at + RetryAfter(ttl) == End(c, k)
            <==> match ttl
                 case Left(_, since) => since == start && c.life == c.period
                 case Unread(_) => at == start
                 case _ => false
  {
    ReachableInv(c, s);
    assert CallOk(c, s, i);
  }

  /** The call was denied inside its bucket and told to wait beyond the bucket's end. */
  predicate Overshot(c: Limiter, s: State, i: nat) {
    && WasDenied(s, i) && s.calls[i].pc.reply.ttl.Left?
    && var at, k := s.calls[i].pc.at, s.calls[i].key;
       at < End(c, k) < at + RetryAfter(s.calls[i].pc.reply.ttl)
  }

  /** The first call sets the expiry at last, and the latest one reads it. */
  lemma PiledOvershoots(c: Limiter, s: State, k: Key, n: nat)
    requires c.Valid() && Reachable(c, s) && Piled(s, k, n) && n >= 2 && n > c.limit
    requires k.bucket == 0 && s.now < c.period < s.now + c.life
    ensures exists t, i: nat :: Reachable(c, t) && Overshot(c, t, i)
  {
    var s1 := StepExpire(c, s, 0, Answered);
    ReachableStep(c, s, Expire(0, Answered));
    ReachableStep(c, s1, ReadTtl(n - 1, Answered));
    var t := StepTtl(c, s1, n - 1, Answered);
    assert t.calls[n - 1].pc == Done(Denied(Left(c.life, s.now)), s.now);
    assert Overshot(c, t, n - 1);
  }

  /** Overshooting happens under every limiter but one whose window is a single second and whose keys live no
      longer, for which it cannot. */
  lemma OvershootHappensExactly(c: Limiter, name: string)
    requires c.Valid()
    ensures (exists s, i: nat :: Reachable(c, s) && Overshot(c, s, i)) <==> c.period >= 2 || c.life > c.period
  {
    if c.period >= 2 || c.life > c.period {
      var start := START.(now := if c.period >= 2 then 1 else 0);
      assert START == Run(c, START, []);
      ReachableStep(c, START, Tick);
      assert start.now / c.period == 0 by { LaterBucket(c.period, 0, start.now); }
      var s := PileUp(c, start, Key(name, 0), Cap(c) + 2);
      PiledOvershoots(c, s, Key(name, 0), Cap(c) + 2);
    } else {
      forall s, i: nat | Reachable(c, s) ensures !Overshot(c, s, i) {
        if Overshot(c, s, i) { RetryOvershoot(c, s, i); }
      }
    }
  }
}
