/** How many calls fit into a stretch of time: the cost of fixed windows at their boundaries. */
module RateLimitBursts {
  import opened Prelude
  import opened RateLimit
  import opened RateLimitGuarantees

  /** Every INCR for `name` executed before the bucket its call had computed was over. */
  ghost predicate PromptFor(c: Limiter, s: State, name: string) {
    forall j :: 0 <= j < |s.log| && s.log[j].key.name == name ==> s.log[j].at < End(c, s.log[j].key)
  }

  /** When this call's INCR executed. */
  function LandedAt(s: State, i: nat): nat {
    if i < |s.calls| && s.calls[i].landed.Some? && s.calls[i].landed.value < |s.log|
    then s.log[s.calls[i].landed.value].at else 0
  }

  /** The calls for `name` that were allowed and whose INCR executed at a time from `t` to `t + span`. */
  function AllowedDuring(s: State, name: string, t: nat, span: nat): set<nat> {
    set i | i in Below(|s.calls|) && s.calls[i].key.name == name && IsAllowed(s, i)
            && t <= LandedAt(s, i) <= t + span
  }

  /** The call was allowed, and its INCR executed before its bucket was over. */
  predicate OnTime(c: Limiter, s: State, i: nat) {
    IsAllowed(s, i) && LandedAt(s, i) < End(c, s.calls[i].key)
  }

  function OnTimeInBuckets(c: Limiter, s: State, name: string, lo: nat, n: nat): set<nat> {
    set i | i in Below(|s.calls|) && s.calls[i].key.name == name && OnTime(c, s, i)
            && lo <= s.calls[i].key.bucket < lo + n
  }

  lemma OnTimeIsFirstIncarnation(c: Limiter, s: State, i: nat)
    requires c.Valid() && Inv(c, s) && OnTime(c, s, i)
    ensures i in AllowedOn(s, s.calls[i].key, 0)
  {
    assert CallOk(c, s, i);
    assert LandingOk(c, s, s.calls[i].landed.value);
  }

  lemma BucketCap(c: Limiter, s: State, name: string, b: nat)
    requires c.Valid() && Inv(c, s)
    ensures |OnTimeInBuckets(c, s, name, b, 1)| <= Cap(c)
  {
    forall i | i in OnTimeInBuckets(c, s, name, b, 1) ensures i in AllowedOn(s, Key(name, b), 0) {
      OnTimeIsFirstIncarnation(c, s, i);
    }
    CapPerIncarnation(c, s, Key(name, b), 0);
    SubsetSize(OnTimeInBuckets(c, s, name, b, 1), AllowedOn(s, Key(name, b), 0));
  }

  lemma BucketsSplit(c: Limiter, s: State, name: string, lo: nat, n: nat)
    requires n >= 1
    ensures OnTimeInBuckets(c, s, name, lo, n)
            == OnTimeInBuckets(c, s, name, lo, n - 1) + OnTimeInBuckets(c, s, name, lo + n - 1, 1)
  {
    var all, most, last :=
      OnTimeInBuckets(c, s, name, lo, n), OnTimeInBuckets(c, s, name, lo, n - 1), OnTimeInBuckets(c, s, name, lo + n - 1, 1);
    forall i: nat ensures i in all <==> i in most || i in last {
      if i < |s.calls| { var b := s.calls[i].key.bucket; }
    }
  }

  lemma UnionSize(a: set<nat>, b: set<nat>)
    ensures |a + b| <= |a| + |b|
  {
    assert a + b == a + (b - a);
    assert b == (b - a) + (a * b);
  }

  lemma AddsUp(most: nat, last: nat, n: nat, m: nat)
    requires n >= 1 && most <= (n - 1) * m && last <= m
    ensures most + last <= n * m
  {
    OneMore(n, m);
  }

  lemma {:induction false} BucketsCap(c: Limiter, s: State, name: string, lo: nat, n: nat)
    requires c.Valid() && Inv(c, s)
    ensures |OnTimeInBuckets(c, s, name, lo, n)| <= n * Cap(c)
  {
    if n == 0 {
      assert OnTimeInBuckets(c, s, name, lo, n) == {};
    } else {
      BucketsCap(c, s, name, lo, n - 1);
      BucketCap(c, s, name, lo + n - 1);
      BucketsSplit(c, s, name, lo, n);
      UnionSize(OnTimeInBuckets(c, s, name, lo, n - 1), OnTimeInBuckets(c, s, name, lo + n - 1, 1));
      AddsUp(|OnTimeInBuckets(c, s, name, lo, n - 1)|, |OnTimeInBuckets(c, s, name, lo + n - 1, 1)|, n, Cap(c));
    }
  }

  function CeilDiv(a: nat, b: nat): nat
    requires b >= 1
  {
    (a + b - 1) / b
  }

  lemma BucketsTouched(t: nat, span: nat, p: nat)
    requires p >= 1
    ensures (t + span) / p <= t / p + CeilDiv(span, p)
  {
    var q, m := t / p, CeilDiv(span, p);
    LaterBucket(p, q, t);
    LaterBucket(p, m, span + p - 1);
    assert (q + m) * p == q * p + m * p;
    LaterBucket(p, q + m, t + span);
  }

  lemma DivMonotone(a: nat, b: nat, p: nat)
    requires p >= 1 && a <= b
    ensures a / p <= b / p
  {
    if a / p > 0 {
      LaterBucket(p, a / p - 1, a);
      LaterBucket(p, a / p - 1, b);
    }
  }

  lemma BucketOf(p: nat, b: nat, t: nat)
    requires p >= 1 && b * p <= t < b * p + p
    ensures t / p == b
  {
    LaterBucket(p, b, t);
    if b > 0 {
      OneMore(b, p);
      LaterBucket(p, b - 1, t);
    }
  }

  lemma LandedInItsBucket(c: Limiter, s: State, i: nat)
    requires c.Valid() && Inv(c, s) && OnTime(c, s, i)
    ensures s.calls[i].key.bucket == LandedAt(s, i) / c.period
  {
    assert CallOk(c, s, i);
    assert LandingOk(c, s, s.calls[i].landed.value);
    BucketOf(c.period, s.calls[i].key.bucket, LandedAt(s, i));
  }

  /** The calls of a stretch of time whose INCRs were on time. */
  function OnTimeDuring(c: Limiter, s: State, name: string, t: nat, span: nat): set<nat> {
    set i | i in AllowedDuring(s, name, t, span) && OnTime(c, s, i)
  }

  lemma OnTimeBound(c: Limiter, s: State, name: string, t: nat, span: nat)
    requires c.Valid() && Inv(c, s)
    ensures |OnTimeDuring(c, s, name, t, span)| <= (CeilDiv(span, c.period) + 1) * Cap(c)
  {
    var lo, hi := t / c.period, (t + span) / c.period;
    DivMonotone(t, t + span, c.period);
    var touched := OnTimeInBuckets(c, s, name, lo, hi - lo + 1);
    forall i | i in OnTimeDuring(c, s, name, t, span) ensures i in touched {
      LandedInItsBucket(c, s, i);
      DivMonotone(t, LandedAt(s, i), c.period);
      DivMonotone(LandedAt(s, i), t + span, c.period);
    }
    SubsetSize(OnTimeDuring(c, s, name, t, span), touched);
    BucketsCap(c, s, name, lo, hi - lo + 1);
    BucketsTouched(t, span, c.period);
    MulMonotone(hi - lo + 1, CeilDiv(span, c.period) + 1, Cap(c));
  }

  /** The INCRs for `name` that executed from `t` to `t + span` and after their bucket, by position. */
  function LateDuring(c: Limiter, log: seq<Landing>, name: string, t: nat, span: nat): set<nat> {
    set j | j in Below(|log|) && log[j].key.name == name && log[j].at >= End(c, log[j].key) && t <= log[j].at <= t + span
  }

  /** With no assumption on timing, any stretch of `span` seconds admits at most the limit for each bucket it can
      touch, plus one call for each INCR of that name and stretch that comes after its bucket. */
  lemma BurstBoundWithLate(c: Limiter, s: State, name: string, t: nat, span: nat)
    requires c.Valid() && Reachable(c, s)
    ensures |AllowedDuring(s, name, t, span)|
            <= (CeilDiv(span, c.period) + 1) * Cap(c) + |LateDuring(c, s.log, name, t, span)|
  {
    ReachableInv(c, s);
    OnTimeBound(c, s, name, t, span);
    var later := AllowedDuring(s, name, t, span) - OnTimeDuring(c, s, name, t, span);
    forall i | i in later ensures Position(s, i) in LateDuring(c, s.log, name, t, span) { assert CallOk(c, s, i); }
    forall i, j | i in later && j in later && Position(s, i) == Position(s, j) ensures i == j {
      assert CallOk(c, s, i) && CallOk(c, s, j);
    }
    Injection(later, (i: nat) => Position(s, i), LateDuring(c, s.log, name, t, span));
    assert AllowedDuring(s, name, t, span) == OnTimeDuring(c, s, name, t, span) + later;
  }

  /** If the INCRs of the name are prompt, the limit for each bucket it can touch is all. */
  lemma BurstBound(c: Limiter, s: State, name: string, t: nat, span: nat)
    requires c.Valid() && Reachable(c, s) && PromptFor(c, s, name)
    ensures |AllowedDuring(s, name, t, span)| <= (CeilDiv(span, c.period) + 1) * Cap(c)
  {
    BurstBoundWithLate(c, s, name, t, span);
    assert LateDuring(c, s.log, name, t, span) == {};
  }

  /** One window's worth of time admits at most twice the limit. */
  lemma WindowBound(c: Limiter, s: State, name: string, t: nat)
    requires c.Valid() && Reachable(c, s) && PromptFor(c, s, name)
    ensures |AllowedDuring(s, name, t, c.period)| <= 2 * Cap(c)
  {
    BurstBound(c, s, name, t, c.period);
    assert CeilDiv(c.period, c.period) == 1 by {
      LaterBucket(c.period, 0, 2 * c.period - 1);
      LaterBucket(c.period, 1, 2 * c.period - 1);
    }
  }

  lemma SubsetSize(a: set<nat>, b: set<nat>)
    requires a <= b
    ensures |a| <= |b|
  {
    assert b == a + (b - a);
  }

  // ---- The bound is reached ----

  function Ticks(n: nat): seq<Event> {
    seq(n, _ => Tick)
  }

  /** One undisturbed call; the Expire event does nothing unless the count was 1. */
  function Alone(i: nat, name: string): seq<Event> {
    [Begin(name), Incr(i, Answered), Expire(i, Answered), ReadTtl(i, Answered)]
  }

  /** `n` undisturbed calls, numbered from `first`. */
  function Calls(first: nat, n: nat, name: string): seq<Event> {
    if n == 0 then [] else Calls(first, n - 1, name) + Alone(first + n - 1, name)
  }

  /** `n` times `m`, by adding. */
  function Times(n: nat, m: nat): nat {
    if n == 0 then 0 else Times(n - 1, m) + m
  }

  lemma {:induction false} TimesIsProduct(n: nat, m: nat)
    ensures Times(n, m) == n * m
  {
    if n > 0 {
      TimesIsProduct(n - 1, m);
      OneMore(n, m);
    }
  }

  lemma {:induction false} RunTicks(c: Limiter, s: State, n: nat)
    requires c.Valid()
    ensures Run(c, s, Ticks(n)) == s.(now := s.now + n)
  {
    if n > 0 {
      RunTicks(c, s, n - 1);
      assert Ticks(n)[..n - 1] == Ticks(n - 1);
    }
  }

  /** `t` is `s` after one undisturbed call on `k`, the `n`-th to hit it. */
  ghost predicate AfterCall(c: Limiter, s: State, t: State, k: Key, n: nat) {
    && k in t.store && t.store == s.store[k := t.store[k]]
    && Live(t, k) && t.store[k].count == n && t.now == s.now
    && |t.calls| == |s.calls| + 1 && t.calls[..|s.calls|] == s.calls
    && t.calls[|s.calls|].key == k && t.calls[|s.calls|].landed == Some(|s.log|)
    && (n <= c.limit ==> IsAllowed(t, |s.calls|))
    && |t.log| == |s.log| + 1 && t.log[..|s.log|] == s.log
    && t.log[|s.log|].at == s.now && t.log[|s.log|].key == k
  }

  lemma AloneSteps(c: Limiter, s: State, i: nat, name: string)
    requires c.Valid()
    ensures Run(c, s, Alone(i, name))
            == Step(c, Step(c, Step(c, Step(c, s, Begin(name)), Incr(i, Answered)), Expire(i, Answered)), ReadTtl(i, Answered))
  {
    var es := Alone(i, name);
    assert es[..3][..2] == es[..2] && es[..2][..1] == es[..1] && es[..1][..0] == [];
    assert Run(c, s, es[..1]) == Step(c, s, es[0]);
    assert Run(c, s, es[..2]) == Step(c, Run(c, s, es[..1]), es[1]);
    assert Run(c, s, es[..3]) == Step(c, Run(c, s, es[..2]), es[2]);
  }

  /** The state in which the call is about to read the TTL. */
  function AtLastStep(c: Limiter, s: State, k: Key, n: nat): State {
    var i := |s.calls|;
    var entry := Incremented(s, k, i);
    State(s.now, s.store[k := if n == 0 then entry.(expiry := Some(s.now + c.life), since := s.now) else entry],
          s.calls + [Call(k, Some(|s.log|), AtTtl)], s.log + [Landing(i, k, entry.epoch, n + 1, s.now)])
  }

  lemma FirstThreeSteps(c: Limiter, s: State, k: Key, n: nat)
    requires c.Valid() && k.bucket == s.now / c.period
    requires if n == 0 then k !in s.store else Live(s, k) && s.store[k].count == n
    ensures Step(c, Step(c, Step(c, s, Begin(k.name)), Incr(|s.calls|, Answered)), Expire(|s.calls|, Answered))
            == AtLastStep(c, s, k, n)
  {
    var i := |s.calls|;
    var s1 := s.(calls := s.calls + [Call(k, None, AtIncr)]);
    assert Step(c, s, Begin(k.name)) == s1;
    var s2 := StepIncr(s1, i, Answered);
    assert s2.calls == s.calls + [Call(k, Some(|s.log|), if n == 0 then AtExpire else AtTtl)];
  }

  lemma RunAlone(c: Limiter, s: State, k: Key, n: nat)
    requires c.Valid() && k.bucket == s.now / c.period
    requires if n == 0 then k !in s.store else Live(s, k) && s.store[k].count == n
    ensures AfterCall(c, s, Run(c, s, Alone(|s.calls|, k.name)), k, n + 1)
  {
    AloneSteps(c, s, |s.calls|, k.name);
    FirstThreeSteps(c, s, k, n);
    LastStep(c, s, k, n);
  }

  lemma LastStep(c: Limiter, s: State, k: Key, n: nat)
    requires c.Valid() && k.bucket == s.now / c.period
    requires if n == 0 then k !in s.store else Live(s, k) && s.store[k].count == n
    ensures AfterCall(c, s, Step(c, AtLastStep(c, s, k, n), ReadTtl(|s.calls|, Answered)), k, n + 1)
  {
    var s3 := AtLastStep(c, s, k, n);
    assert At(s3, |s.calls|, AtTtl) && CountOf(s3, |s.calls|) == n + 1;
  }

  /** The state is `s` after `n` more calls on `k`, all allowed and all landed at `s.now`. */
  ghost predicate AfterCalls(c: Limiter, s: State, t: State, k: Key, n: nat) {
    && t.now == s.now && |t.calls| == |s.calls| + n && |t.log| == |s.log| + n
    && s.calls == t.calls[..|s.calls|] && s.log == t.log[..|s.log|]
    && (forall k' :: k' != k ==> (k' in t.store <==> k' in s.store))
    && (n == 0 ==> k !in t.store)
    && (n > 0 ==> Live(t, k) && t.store[k].count == n)
    && (forall i :: |s.calls| <= i < |t.calls| ==>
          && t.calls[i].key == k && IsAllowed(t, i)
          && t.calls[i].landed.Some? && |s.log| <= t.calls[i].landed.value < |t.log|)
    && (forall j :: |s.log| <= j < |t.log| ==> t.log[j].at == s.now && t.log[j].key == k)
  }

  lemma CallAfterCalls(c: Limiter, s: State, m: State, t: State, k: Key, n: nat)
    requires AfterCalls(c, s, m, k, n) && AfterCall(c, m, t, k, n + 1) && n < c.limit
    ensures AfterCalls(c, s, t, k, n + 1)
  {
    assert t.calls[..|s.calls|] == t.calls[..|m.calls|][..|s.calls|];
    assert t.log[..|s.log|] == t.log[..|m.log|][..|s.log|];
    forall i | |s.calls| <= i < |m.calls| ensures t.calls[i] == m.calls[i] {
      assert t.calls[..|m.calls|][i] == m.calls[i];
    }
    forall j | |s.log| <= j < |m.log| ensures t.log[j] == m.log[j] {
      assert t.log[..|m.log|][j] == m.log[j];
    }
  }

  lemma RunOneMore(c: Limiter, s: State, m: State, k: Key, n: nat)
    requires c.Valid() && n < c.limit && k.bucket == s.now / c.period && AfterCalls(c, s, m, k, n)
    ensures AfterCalls(c, s, Run(c, m, Alone(|m.calls|, k.name)), k, n + 1)
  {
    RunAlone(c, m, k, n);
    CallAfterCalls(c, s, m, Run(c, m, Alone(|m.calls|, k.name)), k, n);
  }

  lemma {:induction false} RunCalls(c: Limiter, s: State, n: nat, name: string)
    requires c.Valid() && n <= Cap(c) && Key(name, s.now / c.period) !in s.store
    ensures AfterCalls(c, s, Run(c, s, Calls(|s.calls|, n, name)), Key(name, s.now / c.period), n)
  {
    if n > 0 {
      var before := Calls(|s.calls|, n - 1, name);
      var m := Run(c, s, before);
      RunCalls(c, s, n - 1, name);
      RunConcat(c, s, before, Alone(|m.calls|, name));
      RunOneMore(c, s, m, Key(name, s.now / c.period), n - 1);
    }
  }

  /** When burst `r` takes place: the first at the last second of bucket 0, the others at the first second of
      theirs. */
  function BurstTime(c: Limiter, r: nat): nat
    requires c.period >= 1
  {
    if r == 0 then c.period - 1 else Times(r, c.period)
  }

  /** After `rounds` bursts, one in each bucket: every call allowed, every landing prompt, none before the
      first burst or after the latest. */
  ghost predicate AfterBursts(c: Limiter, s: State, name: string, rounds: nat)
    requires c.period >= 1
  {
    && s.now == (if rounds == 0 then 0 else BurstTime(c, rounds - 1))
    && |s.calls| == Times(rounds, Cap(c))
    && (forall k :: k in s.store ==> k.bucket < rounds)
    && (forall i :: 0 <= i < |s.calls| ==> s.calls[i].key.name == name && IsAllowed(s, i)
                                            && s.calls[i].landed.Some? && s.calls[i].landed.value < |s.log|)
    && (forall j :: 0 <= j < |s.log| ==> c.period - 1 <= s.log[j].at <= s.now && s.log[j].at < End(c, s.log[j].key))
  }

  lemma BurstAfterBursts(c: Limiter, s: State, t: State, u: State, name: string, rounds: nat)
    requires c.Valid() && AfterBursts(c, s, name, rounds)
    requires t == s.(now := BurstTime(c, rounds)) && t.now >= s.now && t.now >= c.period - 1
    requires AfterCalls(c, t, u, Key(name, rounds), Cap(c))
    ensures AfterBursts(c, u, name, rounds + 1)
  {
    TimesIsProduct(rounds, c.period);
    forall i | 0 <= i < |s.calls| ensures u.calls[i] == s.calls[i] { assert u.calls[..|t.calls|][i] == s.calls[i]; }
    forall j | 0 <= j < |s.log| ensures u.log[j] == s.log[j] { assert u.log[..|t.log|][j] == s.log[j]; }
  }

  lemma ReachableOnward(c: Limiter, s: State, es: seq<Event>)
    requires c.Valid() && Reachable(c, s)
    ensures Reachable(c, Run(c, s, es))
  {
    var before :| s == Run(c, START, before);
    RunConcat(c, START, before, es);
  }

  lemma WaitReachable(c: Limiter, s: State, n: nat)
    requires c.Valid() && Reachable(c, s)
    ensures Reachable(c, s.(now := s.now + n))
  {
    RunTicks(c, s, n);
    ReachableOnward(c, s, Ticks(n));
  }

  lemma WaitForBurst(c: Limiter, s: State, name: string, rounds: nat) returns (t: State)
    requires c.Valid() && Reachable(c, s) && AfterBursts(c, s, name, rounds)
    ensures Reachable(c, t) && t == s.(now := BurstTime(c, rounds))
    ensures t.now / c.period == rounds && t.now >= s.now && t.now >= c.period - 1
  {
    TimesIsProduct(rounds, c.period);
    if rounds >= 1 { MulMonotone(1, rounds, c.period); }
    t := s.(now := BurstTime(c, rounds));
    WaitReachable(c, s, t.now - s.now);
    BucketOf(c.period, rounds, t.now);
  }

  lemma NextBurst(c: Limiter, s: State, rounds: nat, name: string) returns (u: State)
    requires c.Valid() && Reachable(c, s) && AfterBursts(c, s, name, rounds)
    ensures Reachable(c, u) && AfterBursts(c, u, name, rounds + 1)
  {
    var t := WaitForBurst(c, s, name, rounds);
    var calls := Calls(|t.calls|, Cap(c), name);
    RunCalls(c, t, Cap(c), name);
    ReachableOnward(c, t, calls);
    u := Run(c, t, calls);
    BurstAfterBursts(c, s, t, u, name, rounds);
  }

  /** In each of the buckets 0, ..., `rounds` - 1 as many calls as the limit. */
  lemma {:induction false} Bursts(c: Limiter, rounds: nat, name: string) returns (s: State)
    requires c.Valid()
    ensures Reachable(c, s) && AfterBursts(c, s, name, rounds)
  {
    if rounds == 0 {
      s := START;
      assert s == Run(c, START, []);
    } else {
      var before := Bursts(c, rounds - 1, name);
      s := NextBurst(c, before, rounds - 1, name);
    }
  }

  lemma AllDuringBursts(c: Limiter, s: State, name: string, rounds: nat, span: nat)
    requires c.Valid() && rounds >= 1 && AfterBursts(c, s, name, rounds)
    requires s.now <= c.period - 1 + span
    ensures PromptFor(c, s, name)
    ensures AllowedDuring(s, name, c.period - 1, span) == Below(|s.calls|)
  {
    forall i: nat | i < |s.calls| ensures c.period - 1 <= LandedAt(s, i) <= c.period - 1 + span {
      assert IsAllowed(s, i);
    }
  }

  lemma LastBurstInSpan(c: Limiter, span: nat)
    requires c.Valid()
    ensures BurstTime(c, CeilDiv(span, c.period)) <= c.period - 1 + span
  {
    var r := CeilDiv(span, c.period);
    TimesIsProduct(r, c.period);
    if r >= 1 {
      OneMore(r, c.period);
      LaterBucket(c.period, r - 1, span + c.period - 1);
    }
  }

  lemma BurstsFill(c: Limiter, rounds: nat, span: nat, name: string) returns (s: State)
    requires c.Valid() && rounds >= 1 && BurstTime(c, rounds - 1) <= c.period - 1 + span
    ensures Reachable(c, s) && PromptFor(c, s, name)
    ensures |AllowedDuring(s, name, c.period - 1, span)| == rounds * Cap(c)
  {
    s := Bursts(c, rounds, name);
    TimesIsProduct(rounds, Cap(c));
    AllDuringBursts(c, s, name, rounds, span);
    BelowSize(|s.calls|);
  }

  /** The bound is tight: for every span there is a prompt run that reaches it. */
  lemma BurstsReachBound(c: Limiter, span: nat, name: string)
    requires c.Valid()
    ensures exists s :: Reachable(c, s) && PromptFor(c, s, name)
              && |AllowedDuring(s, name, c.period - 1, span)| == (CeilDiv(span, c.period) + 1) * Cap(c)
  {
    LastBurstInSpan(c, span);
    var s := BurstsFill(c, CeilDiv(span, c.period) + 1, span, name);
  }

  lemma {:induction false} BelowSize(n: nat)
    ensures |Below(n)| == n
  {
    if n > 0 { BelowSize(n - 1); }
  }

  // ---- Promptness is needed, and costs no more than CapWithLateIncrs says ----

  /** `n` replicas read the clock and stall; then the limit is used up; then `m` of the stalled ones go on, each
      when the key has lapsed once more. */
  ghost predicate Stalled(c: Limiter, s: State, k: Key, n: nat, m: nat) {
    && m <= n && |s.calls| == n + Cap(c)
    && (forall i :: 0 <= i < |s.calls| ==> s.calls[i].key == k)
    && (forall i :: m <= i < n ==> s.calls[i].pc == AtIncr)
    && (forall i :: 0 <= i < |s.calls| && !(m <= i < n) ==> IsAllowed(s, i))
    && k in s.store && Late(c, s.log, k) == m
  }

  lemma {:induction false} Stall(c: Limiter, s: State, name: string, n: nat) returns (t: State)
    requires c.Valid() && Reachable(c, s) && s.calls == []
    ensures Reachable(c, t) && t == s.(calls := t.calls) && |t.calls| == n
    ensures forall i :: 0 <= i < n ==> t.calls[i] == Call(Key(name, s.now / c.period), None, AtIncr)
  {
    if n == 0 {
      t := s;
    } else {
      var before := Stall(c, s, name, n - 1);
      t := Step(c, before, Begin(name));
      ReachableStep(c, before, Begin(name));
    }
  }

  lemma LimitUsedUp(c: Limiter, s: State, t: State, k: Key, n: nat)
    requires c.Valid() && c.limit >= 1 && |s.calls| == n && s.log == [] && s.now < End(c, k)
    requires forall i :: 0 <= i < n ==> s.calls[i] == Call(k, None, AtIncr)
    requires AfterCalls(c, s, t, k, Cap(c))
    ensures Stalled(c, t, k, n, 0)
  {
    forall i | 0 <= i < n ensures t.calls[i] == s.calls[i] { assert t.calls[..n][i] == s.calls[i]; }
    assert LateLandings(c, t.log, k) == {};
  }

  /** Once a lifetime has gone by the key has lapsed, and its bucket is over. */
  lemma KeyLapses(c: Limiter, s: State, k: Key, n: nat, m: nat)
    requires c.Valid() && Reachable(c, s) && Stalled(c, s, k, n, m) && n + Cap(c) >= 1
    ensures var t := s.(now := s.now + c.life); !Live(t, k) && End(c, k) <= t.now && Stalled(c, t, k, n, m)
  {
    ReachableInv(c, s);
    assert CallOk(c, s, 0);
    assert EntryOk(c, s, k);
    var i := s.store[k].creator;
    assert s.calls[i].pc.AtIncr? || IsAllowed(s, i);
    assert CallOk(c, s, i);
    var t := s.(now := s.now + c.life);
    forall j | 0 <= j < |s.calls| && IsAllowed(s, j) ensures IsAllowed(t, j) {}
  }

  /** A call that has waited for its key to lapse: INCR creates the key anew, and the call is allowed. */
  function AfterLateCall(c: Limiter, s: State, k: Key, m: nat): State
    requires k in s.store && m < |s.calls|
  {
    var epoch := s.store[k].epoch + 1;
    State(s.now, s.store[k := Entry(1, Some(s.now + c.life), s.now, epoch, m)],
          s.calls[m := Call(k, Some(|s.log|), Done(Allowed(c.limit - 1, Left(c.life, s.now)), s.now))],
          s.log + [Landing(m, k, epoch, 1, s.now)])
  }

  lemma RunLateCall(c: Limiter, s: State, k: Key, m: nat)
    requires c.Valid() && c.limit >= 1 && Reachable(c, s)
    requires At(s, m, AtIncr) && s.calls[m].key == k && k in s.store && !Live(s, k)
    ensures Reachable(c, AfterLateCall(c, s, k, m))
  {
    var s1 := StepIncr(s, m, Answered);
    assert s1.calls[m] == Call(k, Some(|s.log|), AtExpire) && CountOf(s1, m) == 1;
    var s2 := StepExpire(c, s1, m, Answered);
    assert s2.calls[m] == Call(k, Some(|s.log|), AtTtl) && CountOf(s2, m) == 1;
    ReachableStep(c, s, Incr(m, Answered));
    ReachableStep(c, s1, Expire(m, Answered));
    ReachableStep(c, s2, ReadTtl(m, Answered));
    assert StepTtl(c, s2, m, Answered) == AfterLateCall(c, s, k, m);
  }

  lemma LateCall(c: Limiter, s: State, k: Key, n: nat, m: nat)
    requires Stalled(c, s, k, n, m) && m < n && End(c, k) <= s.now
    ensures Stalled(c, AfterLateCall(c, s, k, m), k, n, m + 1)
  {
    var t := AfterLateCall(c, s, k, m);
    assert LateLandings(c, t.log, k) == LateLandings(c, s.log, k) + {|s.log|};
    forall i | 0 <= i < |t.calls| && i != m && IsAllowed(s, i) ensures IsAllowed(t, i) {}
  }

  lemma NextLateCall(c: Limiter, s: State, k: Key, n: nat, m: nat) returns (t: State)
    requires c.Valid() && c.limit >= 1 && Reachable(c, s) && Stalled(c, s, k, n, m) && m < n
    ensures Reachable(c, t) && Stalled(c, t, k, n, m + 1)
  {
    var lapsed := s.(now := s.now + c.life);
    KeyLapses(c, s, k, n, m);
    WaitReachable(c, s, c.life);
    RunLateCall(c, lapsed, k, m);
    LateCall(c, lapsed, k, n, m);
    t := AfterLateCall(c, lapsed, k, m);
  }

  lemma {:induction false} LateCalls(c: Limiter, s: State, k: Key, n: nat, m: nat) returns (t: State)
    requires c.Valid() && c.limit >= 1 && Reachable(c, s) && Stalled(c, s, k, n, 0) && m <= n
    ensures Reachable(c, t) && Stalled(c, t, k, n, m)
  {
    if m == 0 {
      t := s;
    } else {
      var before := LateCalls(c, s, k, n, m - 1);
      t := NextLateCall(c, before, k, n, m - 1);
    }
  }

  /** For every limiter that admits anything, every key and bucket, and every number of late INCRs there is a run
      in which each of them costs its call: the cap of CapWithLateIncrs cannot be lowered. */
  lemma LateIncrsReachCap(c: Limiter, k: Key, n: nat)
    requires c.Valid() && c.limit >= 1
    ensures exists s :: Reachable(c, s) && Late(c, s.log, k) == n && |AllowedCalls(s, k)| == Cap(c) + n
  {
    assert START == Run(c, START, []);
    WaitReachable(c, START, k.bucket * c.period);
    var s0 := START.(now := k.bucket * c.period);
    BucketOf(c.period, k.bucket, s0.now);
    var s1 := Stall(c, s0, k.name, n);
    RunCalls(c, s1, Cap(c), k.name);
    var calls := Calls(|s1.calls|, Cap(c), k.name);
    ReachableOnward(c, s1, calls);
    LimitUsedUp(c, s1, Run(c, s1, calls), k, n);
    var s := LateCalls(c, Run(c, s1, calls), k, n, n);
    assert AllowedCalls(s, k) == Below(|s.calls|);
    BelowSize(|s.calls|);
  }
}
