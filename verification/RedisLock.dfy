/**
 The lock of cache/redis/redis.go: SETNX with a lifetime to acquire, an unconditional DEL to release.
 The stored value names no owner, so exclusion rests on when the DEL executes; this module states how.
 Runs are arbitrary event sequences, as in RateLimit.
 */
module RedisLock {
  import opened Prelude

  /** `holder` is bookkeeping: the source stores "1". */
  datatype Entry = Entry(holder: nat, expiry: Option<nat>)

  datatype Phase = Holding | Refused | Failed | Released | Crashed

  /** One call of Lock. `until` is when the entry it set lapses, None for a lifetime of zero. */
  datatype Attempt = Attempt(key: string, until: Option<nat>, acquired: bool, phase: Phase)

  datatype State = State(now: nat, locks: map<string, Entry>, attempts: seq<Attempt>)

  const START := State(0, map[], [])

  datatype Event =
    | Tick
    | Acquire(key: string, ttl: nat, d: Delivery)
    | Release(attempt: nat, d: Delivery)
    | Crash(attempt: nat)

  predicate Lapsed(expiry: Option<nat>, now: nat) {
    expiry.Some? && now >= expiry.value
  }

  predicate Live(s: State, key: string) {
    key in s.locks && !Lapsed(s.locks[key].expiry, s.now)
  }

  function Expiry(now: nat, ttl: nat): Option<nat> {
    if ttl == 0 then None else Some(now + ttl)
  }

  /** SETNX sets the key only if it is absent or lapsed. */
  function StepAcquire(s: State, key: string, ttl: nat, d: Delivery): State {
    var free, until := !Live(s, key), Expiry(s.now, ttl);
    var phase := if !d.Answered? then Failed else if free then Holding else Refused;
    State(s.now,
          if free && !d.NotExecuted? then s.locks[key := Entry(|s.attempts|, until)] else s.locks,
          s.attempts + [Attempt(key, until, phase.Holding?, phase)])
  }

  /** DEL removes the key, whoever set it. */
  function StepRelease(s: State, i: nat, d: Delivery): State
    requires i < |s.attempts|
  {
    State(s.now,
          if d.NotExecuted? then s.locks else s.locks - {s.attempts[i].key},
          s.attempts[i := s.attempts[i].(phase := if s.attempts[i].phase.Holding? then Released else s.attempts[i].phase)])
  }

  /** Only a call that acquired the lock has a release closure. */
  function Step(s: State, e: Event): State {
    match e
    case Tick => s.(now := s.now + 1)
    case Acquire(key, ttl, d) => StepAcquire(s, key, ttl, d)
    case Release(i, d) => if i < |s.attempts| && s.attempts[i].acquired then StepRelease(s, i, d) else s
    case Crash(i) =>
      if i < |s.attempts| && s.attempts[i].phase.Holding?
      then s.(attempts := s.attempts[i := s.attempts[i].(phase := Crashed)]) else s
  }

  function Run(s: State, es: seq<Event>): State {
    if es == [] then s else Step(Run(s, es[..|es| - 1]), es[|es| - 1])
  }

  /** The client acquired the lock, has not released it or crashed, and its lifetime has not lapsed. */
  predicate Holds(s: State, i: nat) {
    i < |s.attempts| && s.attempts[i].phase.Holding? && !Lapsed(s.attempts[i].until, s.now)
  }

  predicate Executes(e: Event) {
    e.Release? && !e.d.NotExecuted?
  }

  /** The discipline: a DEL executes only for a holder that has not released before, has not crashed,
      and is within its own lifetime. */
  predicate Timely(s: State, e: Event) {
    Executes(e) && e.attempt < |s.attempts| && s.attempts[e.attempt].acquired ==> Holds(s, e.attempt)
  }

  predicate Disciplined(s: State, es: seq<Event>) {
    es == [] || (Disciplined(s, es[..|es| - 1]) && Timely(Run(s, es[..|es| - 1]), es[|es| - 1]))
  }

  ghost predicate AttemptOk(s: State, i: nat)
    requires i < |s.attempts|
  {
    var a := s.attempts[i];
    && (a.phase.Holding? ==> a.acquired)
    && (a.phase.Holding? && !Lapsed(a.until, s.now) ==> a.key in s.locks && s.locks[a.key] == Entry(i, a.until))
  }

  ghost predicate EntryOk(s: State, key: string)
    requires key in s.locks
  {
    var entry := s.locks[key];
    entry.holder < |s.attempts| && s.attempts[entry.holder].key == key && s.attempts[entry.holder].until == entry.expiry
  }

  ghost predicate Inv(s: State) {
    && (forall i :: 0 <= i < |s.attempts| ==> AttemptOk(s, i))
    && (forall key :: key in s.locks ==> EntryOk(s, key))
  }

  lemma StepKeepsInv(s: State, e: Event)
    requires Inv(s) && Timely(s, e)
    ensures Inv(Step(s, e))
  {
    var t := Step(s, e);
    forall i | 0 <= i < |t.attempts| ensures AttemptOk(t, i) {
      if i < |s.attempts| { assert AttemptOk(s, i); }
      if e.Release? && e.attempt < |s.attempts| { assert AttemptOk(s, e.attempt); }
    }
    forall key | key in t.locks ensures EntryOk(t, key) {
      if key in s.locks { assert EntryOk(s, key); }
    }
  }

  lemma {:induction false} RunKeepsInv(s: State, es: seq<Event>)
    requires Inv(s) && Disciplined(s, es)
    ensures Inv(Run(s, es))
  {
    if es != [] {
      RunKeepsInv(s, es[..|es| - 1]);
      StepKeepsInv(Run(s, es[..|es| - 1]), es[|es| - 1]);
    }
  }

  /** Mutual exclusion: in every disciplined run at most one client holds a lock. */
  lemma MutualExclusion(es: seq<Event>, i: nat, j: nat)
    requires Disciplined(START, es)
    requires var s := Run(START, es); Holds(s, i) && Holds(s, j) && s.attempts[i].key == s.attempts[j].key
    ensures i == j
  {
    RunKeepsInv(START, es);
    InvIsExclusive(Run(START, es));
  }

  /** In a disciplined run every DEL that executes removes the caller's own entry and nothing else. */
  lemma DelRemovesOwnEntry(es: seq<Event>, i: nat, d: Delivery)
    requires Disciplined(START, es + [Release(i, d)]) && !d.NotExecuted?
    requires i < |Run(START, es).attempts| && Run(START, es).attempts[i].acquired
    ensures var s, t := Run(START, es), Run(START, es + [Release(i, d)]);
            var key := s.attempts[i].key;
            && Live(s, key) && s.locks[key].holder == i
            && t.locks.Keys == s.locks.Keys - {key} && (forall k :: k in t.locks ==> t.locks[k] == s.locks[k])
  {
    assert (es + [Release(i, d)])[..|es|] == es;
    RunKeepsInv(START, es);
    assert AttemptOk(Run(START, es), i);
  }

  /** Whether the next Lock call acquires: exactly when the entry present has lapsed, whether its setter still
      holds it, crashed, never heard that it was set, or could not delete it. So a holder that crashed is got past
      once its lifetime is over, and never if it asked for none. */
  lemma {:induction false} AcquiresExactlyWhenLapsed(es: seq<Event>, key: string, ttl: nat)
    requires Disciplined(START, es) && key in Run(START, es).locks
    ensures var s := Run(START, es);
            var t, i := Step(s, Acquire(key, ttl, Answered)), s.locks[key].holder;
            && i < |s.attempts| && s.attempts[i].key == key
            && (Holds(t, |s.attempts|) <==> s.attempts[i].until.Some? && s.now >= s.attempts[i].until.value)
  {
    RunKeepsInv(START, es);
    assert EntryOk(Run(START, es), key);
  }

  /** An entry without a lifetime whose setter does not hold it, having crashed, failed to hear of it or failed to
      delete it, blocks its lock for the rest of every disciplined run. */
  lemma {:induction false} NoLifetimeNoRecovery(s: State, i: nat, es: seq<Event>)
    requires Inv(s) && i < |s.attempts| && !s.attempts[i].phase.Holding? && s.attempts[i].key in s.locks
    requires s.locks[s.attempts[i].key] == Entry(i, None)
    requires Disciplined(s, es)
    ensures var t := Run(s, es);
            && |t.attempts| >= |s.attempts| && t.attempts[i] == s.attempts[i]
            && s.attempts[i].key in t.locks && t.locks[s.attempts[i].key] == Entry(i, None)
            && forall j :: |s.attempts| <= j < |t.attempts| && t.attempts[j].key == s.attempts[i].key
                           ==> !t.attempts[j].acquired
  {
    if es != [] {
      var before, e := es[..|es| - 1], es[|es| - 1];
      NoLifetimeNoRecovery(s, i, before);
      RunKeepsInv(s, before);
      var m := Run(s, before);
      if e.Release? && e.attempt < |m.attempts| { assert AttemptOk(m, e.attempt); }
    }
  }

  // ---- What the commands do at Redis ----

  /** SETNX, written out: it sets the key, with its lifetime, only if there is none or the one there has lapsed; so it
      does when the answer is lost, and nothing happens when it is not executed. */
  lemma SetNxAtRedis(s: State, key: string, ttl: nat, d: Delivery)
    ensures var t := Step(s, Acquire(key, ttl, d));
            var free := key !in s.locks || (s.locks[key].expiry.Some? && s.now >= s.locks[key].expiry.value);
            if d.NotExecuted? || !free then t.locks == s.locks
            else t.locks == s.locks[key := Entry(|s.attempts|, if ttl == 0 then None else Some(s.now + ttl))]
  {
  }

  /** DEL, written out: it removes the key, whoever set it, answer or no answer; nothing happens when it is not
      executed. */
  lemma DelAtRedis(s: State, i: nat, d: Delivery)
    requires i < |s.attempts| && s.attempts[i].acquired
    ensures Step(s, Release(i, d)).locks == if d.NotExecuted? then s.locks else s.locks - {s.attempts[i].key}
  {
  }

  // ---- How long a lock lasts ----

  /** A DEL on `key` executes. */
  predicate Deletes(s: State, e: Event, key: string) {
    && e.Release? && !e.d.NotExecuted?
    && e.attempt < |s.attempts| && s.attempts[e.attempt].acquired && s.attempts[e.attempt].key == key
  }

  predicate Undeleted(s: State, es: seq<Event>, key: string) {
    es == [] || (Undeleted(s, es[..|es| - 1], key) && !Deletes(Run(s, es[..|es| - 1]), es[|es| - 1], key))
  }

  /** No SETNX on `key` executes. */
  ghost predicate Unasked(es: seq<Event>, key: string) {
    forall e :: e in es && e.Acquire? && e.key == key ==> e.d.NotExecuted?
  }

  /** The attempt after all those of `s` is to lock `key`, and got it. */
  predicate Got(s: State, key: string, ttl: nat) {
    Step(s, Acquire(key, ttl, Answered)).attempts[|s.attempts|].phase.Holding?
  }

  lemma {:induction false} TimePasses(s: State, es: seq<Event>)
    ensures Run(s, es).now >= s.now
  {
    if es != [] { TimePasses(s, es[..|es| - 1]); }
  }

  /** The entry stays, as long as it is not deleted, for its whole lifetime, and after that until the next SETNX. */
  lemma {:induction false} EntryStays(s: State, key: string, ttl: nat, es: seq<Event>)
    requires Got(s, key, ttl)
    requires var t := Step(s, Acquire(key, ttl, Answered));
             && Undeleted(t, es, key)
             && (ttl == 0 || Run(t, es).now < s.now + ttl || Unasked(es, key))
    ensures var u := Run(Step(s, Acquire(key, ttl, Answered)), es);
            key in u.locks && u.locks[key] == Entry(|s.attempts|, if ttl == 0 then None else Some(s.now + ttl))
  {
    if es != [] {
      var t, before := Step(s, Acquire(key, ttl, Answered)), es[..|es| - 1];
      assert forall e :: e in before ==> e in es;
      assert es[|es| - 1] in es;
      assert Run(t, before).now <= Run(t, es).now;
      EntryStays(s, key, ttl, before);
    }
  }

  /** A lock lasts for the lifetime it was asked for. After an answered Lock(key, ttl) that acquired, and while no
      DEL on the key executes, nobody else gets the lock before `ttl` has passed, ever if `ttl` is zero; and the
      first to ask does get it once it has. */
  lemma LockLastsItsLifetime(s: State, key: string, ttl: nat, es: seq<Event>, other: nat)
    requires Got(s, key, ttl) && Undeleted(Step(s, Acquire(key, ttl, Answered)), es, key)
    ensures var u := Run(Step(s, Acquire(key, ttl, Answered)), es);
            && (ttl == 0 || u.now < s.now + ttl ==> !Got(u, key, other))
            && (Unasked(es, key) ==> (Got(u, key, other) <==> ttl > 0 && u.now >= s.now + ttl))
  {
    var u := Run(Step(s, Acquire(key, ttl, Answered)), es);
    if ttl == 0 || u.now < s.now + ttl || Unasked(es, key) { EntryStays(s, key, ttl, es); }
  }

  /** And so long its holder may take it to be held: no longer, and no less unless it releases or crashes. */
  lemma {:induction false} HeldForItsLifetime(s: State, key: string, ttl: nat, es: seq<Event>)
    requires Got(s, key, ttl)
    ensures var u := Run(Step(s, Acquire(key, ttl, Answered)), es);
            && |s.attempts| < |u.attempts| && u.attempts[|s.attempts|].key == key
            && (Holds(u, |s.attempts|)
                <==> u.attempts[|s.attempts|].phase.Holding? && (ttl == 0 || u.now < s.now + ttl))
  {
    var t := Step(s, Acquire(key, ttl, Answered));
    AttemptStays(t, |s.attempts|, es);
  }

  lemma {:induction false} AttemptStays(s: State, i: nat, es: seq<Event>)
    requires i < |s.attempts|
    ensures var t := Run(s, es);
            i < |t.attempts| && t.attempts[i].key == s.attempts[i].key && t.attempts[i].until == s.attempts[i].until
  {
    if es != [] { AttemptStays(s, i, es[..|es| - 1]); }
  }

  ghost predicate HeldByAnother(s: State, key: string, i: nat) {
    exists j: nat :: j != i && Holds(s, j) && s.attempts[j].key == key
  }

  ghost predicate Exclusive(s: State) {
    forall i: nat, j: nat :: Holds(s, i) && Holds(s, j) && s.attempts[i].key == s.attempts[j].key ==> i == j
  }

  lemma InvIsExclusive(s: State)
    requires Inv(s)
    ensures Exclusive(s)
  {
    forall i: nat, j: nat | Holds(s, i) && Holds(s, j) && s.attempts[i].key == s.attempts[j].key ensures i == j {
      assert AttemptOk(s, i) && AttemptOk(s, j);
    }
  }

  /** A release that takes no other client's lock leaves everything in order, timely or not. */
  lemma HarmlessRelease(s: State, i: nat, d: Delivery)
    requires Inv(s) && i < |s.attempts| && s.attempts[i].acquired && !HeldByAnother(s, s.attempts[i].key, i)
    ensures Inv(StepRelease(s, i, d))
  {
    var t := StepRelease(s, i, d);
    forall j | 0 <= j < |t.attempts| ensures AttemptOk(t, j) {
      assert AttemptOk(s, j);
      assert j != i && Holds(s, j) ==> s.attempts[j].key != s.attempts[i].key;
    }
    forall key | key in t.locks ensures EntryOk(t, key) { assert EntryOk(s, key); }
  }

  /** If it does take another client's, the next client to ask is a second holder. */
  lemma HarmfulRelease(s: State, i: nat, d: Delivery) returns (es: seq<Event>)
    requires i < |s.attempts| && !d.NotExecuted? && HeldByAnother(s, s.attempts[i].key, i)
    ensures var t := StepRelease(s, i, d); Disciplined(t, es) && !Exclusive(Run(t, es))
  {
    var key, t := s.attempts[i].key, StepRelease(s, i, d);
    var j: nat :| j != i && Holds(s, j) && s.attempts[j].key == key;
    es := [Acquire(key, 0, Answered)];
    assert es[..0] == [] && Run(t, []) == t;
    var u := StepAcquire(t, key, 0, Answered);
    assert Run(t, es) == u;
    assert u.attempts[j] == t.attempts[j] == s.attempts[j];
    assert Holds(u, j) && Holds(u, |s.attempts|) && u.attempts[j].key == u.attempts[|s.attempts|].key;
    assert Disciplined(t, []) && Timely(t, es[0]);
  }

  /** The discipline is exactly what exclusion needs. After a DEL has executed, timely or not, every
      disciplined continuation keeps one holder to a lock if and only if no other client held this one. */
  lemma ReleaseIsSafeExactlyWhenNoOtherHolds(es: seq<Event>, i: nat, d: Delivery)
    requires Disciplined(START, es) && !d.NotExecuted?
    requires var s := Run(START, es); i < |s.attempts| && s.attempts[i].acquired
    ensures var s := Run(START, es);
            var t := Step(s, Release(i, d));
            (forall more :: Disciplined(t, more) ==> Exclusive(Run(t, more)))
            <==> !HeldByAnother(s, s.attempts[i].key, i)
  {
    var s := Run(START, es);
    var t := Step(s, Release(i, d));
    RunKeepsInv(START, es);
    if HeldByAnother(s, s.attempts[i].key, i) {
      var more := HarmfulRelease(s, i, d);
      assert Disciplined(t, more) && !Exclusive(Run(t, more));
    } else {
      HarmlessRelease(s, i, d);
      forall more | Disciplined(t, more) ensures Exclusive(Run(t, more)) {
        RunKeepsInv(t, more);
        InvIsExclusive(Run(t, more));
      }
    }
  }

  /** What the caller can know: another client can hold its lock only if the caller has released before, has
      crashed, or is past its own lifetime. */
  lemma OwnerKnowsWhenReleaseIsSafe(es: seq<Event>, i: nat)
    requires Disciplined(START, es)
    requires var s := Run(START, es);
             i < |s.attempts| && s.attempts[i].acquired && HeldByAnother(s, s.attempts[i].key, i)
    ensures var s := Run(START, es);
            || s.attempts[i].phase.Released? || s.attempts[i].phase.Crashed?
            || Lapsed(s.attempts[i].until, s.now)
  {
    RunKeepsInv(START, es);
    InvIsExclusive(Run(START, es));
    AcquiredPhases(es, i);
  }

  /** A call that acquired is holding, has released, or has crashed. */
  lemma {:induction false} AcquiredPhases(es: seq<Event>, i: nat)
    requires i < |Run(START, es).attempts| && Run(START, es).attempts[i].acquired
    ensures var phase := Run(START, es).attempts[i].phase; phase.Holding? || phase.Released? || phase.Crashed?
  {
    if es != [] && i < |Run(START, es[..|es| - 1]).attempts| { AcquiredPhases(es[..|es| - 1], i); }
  }

  /** And undisciplined releases do happen: a holder that overstays and then releases. */
  lemma LateReleaseBreaksExclusion()
    ensures exists es :: var s := Run(START, es); Holds(s, 1) && Holds(s, 2) && s.attempts[1].key == s.attempts[2].key
  {
    var a, x := [Acquire("k", 1, Answered)], Release(0, Answered);
    var b := a + [Tick];
    var c := b + [Acquire("k", 9, Answered)];
    var d := c + [x];
    var es := d + [Acquire("k", 9, Answered)];
    assert a[..0] == [] && b[..1] == a && c[..2] == b && d[..3] == c && es[..4] == d;
    assert Run(START, a).attempts == [Attempt("k", Some(1), true, Holding)];
    assert Run(START, b).now == 1 && !Live(Run(START, b), "k");
    assert Holds(Run(START, c), 1);
    assert !Live(Run(START, d), "k");
    assert Holds(Run(START, es), 1) && Holds(Run(START, es), 2);
  }

  // ---- Client.Lock and the closure it returns ----

  class Redis {
    var state: State
    ghost var history: seq<Event>

    ghost predicate Valid()
      reads this
    {
      state == Run(START, history)
    }

    constructor ()
      ensures Valid() && history == []
    {
      state := START;
      history := [];
    }

    method Do(e: Event)
      requires Valid()
      modifies this
      ensures Valid() && state == Step(old(state), e) && history == old(history) + [e]
    {
      state := Step(state, e);
      history := history + [e];
    }

    /** SETNX: whether the key was set, None when no answer came back. */
    method SetNX(key: string, ttl: nat, d: Delivery) returns (set_: Option<bool>)
      requires Valid()
      modifies this
      ensures Valid() && history == old(history) + [Acquire(key, ttl, d)]
      ensures state == StepAcquire(old(state), key, ttl, d)
      ensures set_ == if d.Answered? then Some(!Live(old(state), key)) else None
    {
      set_ := if d.Answered? then Some(!Live(state, key)) else None;
      Do(Acquire(key, ttl, d));
    }
  }

  datatype LockResult = Locked(release: ReleaseFunc) | Busy | Error

  class ReleaseFunc {
    const redis: Redis
    const attempt: nat

    constructor (redis: Redis, attempt: nat)
      ensures this.redis == redis && this.attempt == attempt
    {
      this.redis, this.attempt := redis, attempt;
    }

    /** The closure: one DEL, whenever and however often it is called. */
    method Call(d: Delivery) returns (ok: bool)
      requires redis.Valid() && attempt < |redis.state.attempts| && redis.state.attempts[attempt].acquired
      modifies redis
      ensures redis.Valid() && redis.history == old(redis.history) + [Release(attempt, d)]
      ensures ok == d.Answered?
    {
      redis.Do(Release(attempt, d));
      ok := d.Answered?;
    }
  }

  /** Lock hands out a release exactly when its SETNX was answered and found no entry that is still alive. What it
      then holds lapses `ttl` later, or never if `ttl` is zero. */
  method Lock(redis: Redis, key: string, ttl: nat, d: Delivery) returns (r: LockResult)
    requires redis.Valid()
    modifies redis
    ensures redis.Valid() && redis.history == old(redis.history) + [Acquire(key, ttl, d)]
    ensures |redis.state.attempts| == |old(redis.state).attempts| + 1
    ensures r.Locked? <==>
              && d.Answered?
              && (key in old(redis.state).locks ==>
                    var expiry := old(redis.state).locks[key].expiry;
                    expiry.Some? && old(redis.state).now >= expiry.value)
    ensures r.Locked? ==>
              && key in redis.state.locks
              && redis.state.locks[key].expiry == if ttl == 0 then None else Some(old(redis.state).now + ttl)
    ensures var me := |old(redis.state).attempts|;
            match redis.state.attempts[me].phase
            case Holding => r.Locked? && r.release.redis == redis && r.release.attempt == me && Holds(redis.state, me)
            case Refused => r == Busy && Live(old(redis.state), key)
            case Failed => r == Error && !d.Answered?
            case _ => false
  {
    var me := |redis.state.attempts|;
    var acquired := redis.SetNX(key, ttl, d);
    if acquired.None? {
      return Error;
    }
    if !acquired.value {
      return Busy;
    }
    var release := new ReleaseFunc(redis, me);
    r := Locked(release);
  }
}
