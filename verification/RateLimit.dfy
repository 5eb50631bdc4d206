/**
 The fixed-window limiter of ratelimit.go as a protocol: any number of replicas run Allow against one
 Redis, and the clock reading, INCR, EXPIRE and TTL of different calls interleave freely with each
 other, with the clock, with key expiry, with lost commands and with crashes.

 A run is any sequence of events; an event that is not enabled leaves the state alone, so a theorem
 about Run(c, START, es) for every es is a theorem about every interleaving.
 */
module RateLimit {
  import opened Prelude

  /** `period` is int64(window.Seconds()); `life` is the lifetime EXPIRE gives a key, both in seconds. */
  datatype Limiter = Limiter(limit: int, period: nat, life: nat) {
    // A window under one second makes the source divide by zero.
    ghost predicate Valid() {
      1 <= period <= life
    }
  }

  /** A Redis key: the caller's key and the bucket number the replica computed. */
  datatype Key = Key(name: string, bucket: nat)

  /** A stored counter. `since`, `epoch` and `creator` are bookkeeping: when the expiry was set, which
      incarnation of the key this is, and which call's INCR created it. */
  datatype Entry = Entry(count: nat, expiry: Option<nat>, since: nat, epoch: nat, creator: nat)

  /** What a call makes of TTL: the key is gone, has no expiry (go-redis turns these into -2ns and -1ns), or has
      time left, from an expiry set at `since` (bookkeeping again); without an answer the window stands in. */
  datatype Ttl = Missing | Persistent | Left(seconds: nat, since: nat) | Unread(window: nat)

  datatype Reply = Allowed(remaining: int, ttl: Ttl) | Denied(ttl: Ttl) | Errored

  datatype Pc = AtIncr | AtExpire | AtTtl | Done(reply: Reply, at: nat) | Crashed

  /** One invocation of Allow. `landed` is the position of its INCR in the order Redis executed them. */
  datatype Call = Call(key: Key, landed: Option<nat>, pc: Pc)

  /** One executed INCR: whose it was, what it hit, what it returned, and when. */
  datatype Landing = Landing(call: nat, key: Key, epoch: nat, count: nat, at: nat)

  datatype State = State(now: nat, store: map<Key, Entry>, calls: seq<Call>, log: seq<Landing>)

  const START := State(0, map[], [], [])

  datatype Event =
    | Tick
    | Begin(name: string)
    | Incr(call: nat, d: Delivery)
    | Expire(call: nat, d: Delivery)
    | ReadTtl(call: nat, d: Delivery)
    | Crash(call: nat)

  predicate Live(s: State, k: Key) {
    k in s.store && (s.store[k].expiry.None? || s.now < s.store[k].expiry.value)
  }

  /** INCR: an expired or absent key starts again at 1 without an expiry. */
  function Incremented(s: State, k: Key, i: nat): Entry {
    if Live(s, k) then s.store[k].(count := s.store[k].count + 1)
    else Entry(1, None, 0, if k in s.store then s.store[k].epoch + 1 else 0, i)
  }

  function TtlOf(s: State, k: Key): Ttl {
    if !Live(s, k) then Missing
    else if s.store[k].expiry.None? then Persistent
    else Left(s.store[k].expiry.value - s.now, s.store[k].since)
  }

  function Decide(limit: int, count: nat, ttl: Ttl): Reply {
    if count > limit then Denied(ttl) else Allowed(limit - count, ttl)
  }

  predicate At(s: State, i: nat, pc: Pc) {
    i < |s.calls| && s.calls[i].pc == pc
  }

  function Goto(s: State, i: nat, pc: Pc): State
    requires i < |s.calls|
  {
    s.(calls := s.calls[i := s.calls[i].(pc := pc)])
  }

  function StepIncr(s: State, i: nat, d: Delivery): State
    requires At(s, i, AtIncr)
  {
    if d.NotExecuted? then Goto(s, i, Done(Errored, s.now))
    else
      var k := s.calls[i].key;
      var entry := Incremented(s, k, i);
      var pc := if d.AnswerLost? then Done(Errored, s.now) else if entry.count == 1 then AtExpire else AtTtl;
      State(s.now, s.store[k := entry], s.calls[i := Call(k, Some(|s.log|), pc)],
            s.log + [Landing(i, k, entry.epoch, entry.count, s.now)])
  }

  function StepExpire(c: Limiter, s: State, i: nat, d: Delivery): State
    requires At(s, i, AtExpire)
  {
    var k := s.calls[i].key;
    var t := if d.NotExecuted? || !Live(s, k) then s
             else s.(store := s.store[k := s.store[k].(expiry := Some(s.now + c.life), since := s.now)]);
    Goto(t, i, if d.Answered? then AtTtl else Done(Errored, s.now))
  }

  function StepTtl(c: Limiter, s: State, i: nat, d: Delivery): State
    requires At(s, i, AtTtl)
  {
    var ttl := if d.Answered? then TtlOf(s, s.calls[i].key) else Unread(c.period);
    Goto(s, i, Done(Decide(c.limit, CountOf(s, i), ttl), s.now))
  }

  /** The value this call's INCR returned. */
  function CountOf(s: State, i: nat): nat {
    if i < |s.calls| && s.calls[i].landed.Some? && s.calls[i].landed.value < |s.log|
    then s.log[s.calls[i].landed.value].count else 0
  }

  function Step(c: Limiter, s: State, e: Event): State
    requires c.period >= 1
  {
    match e
    case Tick => s.(now := s.now + 1)
    case Begin(name) => s.(calls := s.calls + [Call(Key(name, s.now / c.period), None, AtIncr)])
    case Incr(i, d) => if At(s, i, AtIncr) then StepIncr(s, i, d) else s
    case Expire(i, d) => if At(s, i, AtExpire) then StepExpire(c, s, i, d) else s
    case ReadTtl(i, d) => if At(s, i, AtTtl) then StepTtl(c, s, i, d) else s
    case Crash(i) => if i < |s.calls| && !s.calls[i].pc.Done? then Goto(s, i, Crashed) else s
  }

  function Run(c: Limiter, s: State, es: seq<Event>): State
    requires c.period >= 1
  {
    if es == [] then s else Step(c, Run(c, s, es[..|es| - 1]), es[|es| - 1])
  }

  lemma {:induction false} RunConcat(c: Limiter, s: State, a: seq<Event>, b: seq<Event>)
    requires c.period >= 1
    ensures Run(c, s, a + b) == Run(c, Run(c, s, a), b)
  {
    if b == [] {
      assert a + b == a;
    } else {
      assert (a + b)[..|a + b| - 1] == a + b[..|b| - 1];
      RunConcat(c, s, a, b[..|b| - 1]);
    }
  }

  // ---- The invariant ----

  /** How many INCRs of `log` hit incarnation `epoch` of key `k`. */
  function Tally(log: seq<Landing>, k: Key, epoch: nat): nat {
    if log == [] then 0
    else Tally(log[..|log| - 1], k, epoch)
         + if log[|log| - 1].key == k && log[|log| - 1].epoch == epoch then 1 else 0
  }

  /** Every executed INCR returned its rank among the INCRs of the same incarnation. */
  ghost predicate CountsAreRanks(log: seq<Landing>) {
    forall j :: 0 <= j < |log| ==> log[j].count == Tally(log[..j + 1], log[j].key, log[j].epoch)
  }

  function End(c: Limiter, k: Key): nat {
    k.bucket * c.period + c.period
  }

  ghost predicate CallOk(c: Limiter, s: State, i: nat)
    requires i < |s.calls|
  {
    var call := s.calls[i];
    && call.key.bucket * c.period <= s.now
    && (call.landed.Some? ==>
          && call.landed.value < |s.log|
          && s.log[call.landed.value].call == i
          && s.log[call.landed.value].key == call.key)
    && match call.pc
       case AtIncr => call.landed.None?
       case AtExpire =>
         && call.landed.Some? && CountOf(s, i) == 1 && call.key in s.store
         && s.store[call.key].creator == i && s.store[call.key].expiry.None?
       case AtTtl => call.landed.Some?
       case Crashed => true
       case Done(reply, at) =>
         && at <= s.now
         && call.key.bucket * c.period <= at
         && match reply
            case Errored => true
            case Allowed(r, ttl) =>
              call.landed.Some? && r == c.limit - CountOf(s, i) && r >= 0 && TtlOk(c, call.key, at, ttl)
            case Denied(ttl) => call.landed.Some? && CountOf(s, i) > c.limit && TtlOk(c, call.key, at, ttl)
  }

  /** What the TTL step can have returned at time `at`. */
  ghost predicate TtlOk(c: Limiter, k: Key, at: nat, ttl: Ttl) {
    match ttl
    case Missing => at >= End(c, k)
    case Persistent => true
    case Left(n, since) => at + n == since + c.life && k.bucket * c.period <= since <= at
    case Unread(n) => n == c.period
  }

  ghost predicate EntryOk(c: Limiter, s: State, k: Key)
    requires k in s.store
  {
    var entry := s.store[k];
    && entry.creator < |s.calls|
    && entry.count == Tally(s.log, k, entry.epoch) >= 1
    && (entry.expiry.Some? ==>
          entry.expiry.value == entry.since + c.life && k.bucket * c.period <= entry.since <= s.now)
    && (entry.expiry.None? ==> Unset(s, k))
    && (entry.epoch > 0 ==> End(c, k) <= s.now)
  }

  /** The call that created the key has not set its expiry: it is still to do so, died, or failed. */
  ghost predicate Unset(s: State, k: Key) {
    && k in s.store && s.store[k].creator < |s.calls|
    && s.calls[s.store[k].creator].key == k
    && CountOf(s, s.store[k].creator) == 1
    && var pc := s.calls[s.store[k].creator].pc;
       pc.AtExpire? || pc.Crashed? || (pc.Done? && pc.reply.Errored?)
  }

  ghost predicate LandingOk(c: Limiter, s: State, j: nat)
    requires j < |s.log|
  {
    var l := s.log[j];
    && l.call < |s.calls| && s.calls[l.call].landed == Some(j) && s.calls[l.call].key == l.key
    && l.key in s.store && l.epoch <= s.store[l.key].epoch
    && l.key.bucket * c.period <= l.at <= s.now
    && (l.epoch > 0 ==> End(c, l.key) <= l.at)
  }

  ghost predicate Inv(c: Limiter, s: State) {
    && (forall i :: 0 <= i < |s.calls| ==> CallOk(c, s, i))
    && (forall k :: k in s.store ==> EntryOk(c, s, k))
    && (forall j :: 0 <= j < |s.log| ==> LandingOk(c, s, j))
    && CountsAreRanks(s.log)
  }

  lemma TallySnoc(log: seq<Landing>, l: Landing, k: Key, epoch: nat)
    ensures Tally(log + [l], k, epoch) == Tally(log, k, epoch) + if l.key == k && l.epoch == epoch then 1 else 0
  {
    assert (log + [l])[..|log|] == log;
  }

  /** Ranks grow along the log, so one incarnation never returns the same count twice. */
  lemma {:induction false} TallyGrows(log: seq<Landing>, m: nat, n: nat, k: Key, epoch: nat)
    requires m <= n <= |log|
    ensures Tally(log[..m], k, epoch) <= Tally(log[..n], k, epoch)
    ensures m < n && log[n - 1].key == k && log[n - 1].epoch == epoch
            ==> Tally(log[..m], k, epoch) < Tally(log[..n], k, epoch)
  {
    if m < n {
      TallyGrows(log, m, n - 1, k, epoch);
      assert log[..n] == log[..n - 1] + [log[n - 1]];
      TallySnoc(log[..n - 1], log[n - 1], k, epoch);
    }
  }

  lemma {:induction false} NoEntryNoTally(log: seq<Landing>, k: Key, epoch: nat)
    requires forall j :: 0 <= j < |log| ==> log[j].key != k || log[j].epoch != epoch
    ensures Tally(log, k, epoch) == 0
  {
    if log != [] { NoEntryNoTally(log[..|log| - 1], k, epoch); }
  }

  /** An event other than INCR leaves the log alone; what it must re-establish is stated call by call
      and key by key. */
  lemma Keeps(c: Limiter, s: State, t: State)
    requires Inv(c, s) && t.log == s.log && |s.calls| <= |t.calls| && s.now <= t.now
    requires t.store.Keys == s.store.Keys
    requires forall k :: k in s.store ==> t.store[k].epoch == s.store[k].epoch
    requires forall i :: 0 <= i < |s.calls| ==> t.calls[i].key == s.calls[i].key && t.calls[i].landed == s.calls[i].landed
    requires forall i :: 0 <= i < |t.calls| && (i < |s.calls| ==> CallOk(c, s, i)) ==> CallOk(c, t, i)
    requires forall k :: k in t.store && EntryOk(c, s, k) ==> EntryOk(c, t, k)
    ensures Inv(c, t)
  {
    forall j | 0 <= j < |t.log| ensures LandingOk(c, t, j) { assert LandingOk(c, s, j); }
  }

  lemma IncrKeepsInv(c: Limiter, s: State, i: nat, d: Delivery)
    requires c.Valid() && Inv(c, s) && At(s, i, AtIncr)
    ensures Inv(c, StepIncr(s, i, d))
  {
    var t := StepIncr(s, i, d);
    var k := s.calls[i].key;
    assert CallOk(c, s, i);
    if d.NotExecuted? {
      Keeps(c, s, t);
    } else {
      forall j | 0 <= j < |t.log| ensures LandingOk(c, t, j) { IncrKeepsLanding(c, s, i, d, j); }
      IncrKeepsRanks(c, s, i, d);
      forall n | 0 <= n < |t.calls| ensures CallOk(c, t, n) { IncrKeepsCall(c, s, i, d, n); }
      forall k' | k' in t.store ensures EntryOk(c, t, k') { IncrKeepsEntry(c, s, i, d, k'); }
    }
  }

  /** The INCR about to land returns its rank. */
  lemma NewRank(c: Limiter, s: State, i: nat, d: Delivery)
    requires c.Valid() && Inv(c, s) && At(s, i, AtIncr) && !d.NotExecuted?
    ensures var t := StepIncr(s, i, d);
            forall k, epoch :: Tally(t.log, k, epoch)
              == if k == s.calls[i].key && epoch == t.store[k].epoch then t.store[k].count
                 else Tally(s.log, k, epoch)
  {
    var t := StepIncr(s, i, d);
    var k := s.calls[i].key;
    if k in s.store { assert EntryOk(c, s, k); }
    forall j | 0 <= j < |s.log| ensures s.log[j].key == k ==> s.log[j].epoch < t.store[k].epoch || Live(s, k) {
      assert LandingOk(c, s, j);
    }
    if !Live(s, k) { NoEntryNoTally(s.log, k, t.store[k].epoch); }
    forall k', epoch { TallySnoc(s.log, t.log[|s.log|], k', epoch); }
  }

  lemma IncrKeepsEntry(c: Limiter, s: State, i: nat, d: Delivery, k: Key)
    requires c.Valid() && Inv(c, s) && At(s, i, AtIncr) && !d.NotExecuted?
    requires k in StepIncr(s, i, d).store
    ensures EntryOk(c, StepIncr(s, i, d), k)
  {
    var t := StepIncr(s, i, d);
    assert CallOk(c, s, i);
    NewRank(c, s, i, d);
    if k in s.store {
      assert EntryOk(c, s, k);
      assert CallOk(c, s, s.store[k].creator);
    }
    assert t.log[..|s.log|] == s.log;
  }

  lemma IncrKeepsCall(c: Limiter, s: State, i: nat, d: Delivery, n: nat)
    requires At(s, i, AtIncr) && !d.NotExecuted? && n < |s.calls|
    requires CallOk(c, s, n) && CallOk(c, s, i)
    requires s.calls[i].key in s.store ==> EntryOk(c, s, s.calls[i].key)
    ensures CallOk(c, StepIncr(s, i, d), n)
  {
    var t := StepIncr(s, i, d);
    if n == i {
      assert CountOf(t, i) == t.store[s.calls[i].key].count;
    } else {
      var call := s.calls[n];
      assert t.calls[n] == call && CountOf(t, n) == CountOf(s, n);
      if call.pc.AtExpire? && call.key == s.calls[i].key {
        assert Live(s, call.key);
      }
    }
  }

  lemma IncrKeepsLanding(c: Limiter, s: State, i: nat, d: Delivery, j: nat)
    requires c.Valid() && Inv(c, s) && At(s, i, AtIncr) && !d.NotExecuted? && j <= |s.log|
    ensures LandingOk(c, StepIncr(s, i, d), j)
  {
    assert CallOk(c, s, i);
    if j < |s.log| { assert LandingOk(c, s, j); }
  }

  lemma IncrKeepsRanks(c: Limiter, s: State, i: nat, d: Delivery)
    requires c.Valid() && Inv(c, s) && At(s, i, AtIncr) && !d.NotExecuted?
    ensures CountsAreRanks(StepIncr(s, i, d).log)
  {
    var t := StepIncr(s, i, d);
    NewRank(c, s, i, d);
    forall j | 0 <= j < |t.log| ensures t.log[j].count == Tally(t.log[..j + 1], t.log[j].key, t.log[j].epoch) {
      assert t.log[..j + 1] == if j < |s.log| then s.log[..j + 1] else t.log;
    }
  }

  lemma ExpireKeepsInv(c: Limiter, s: State, i: nat, d: Delivery)
    requires c.Valid() && Inv(c, s) && At(s, i, AtExpire)
    ensures Inv(c, StepExpire(c, s, i, d))
  {
    var t := StepExpire(c, s, i, d);
    assert CallOk(c, s, i);
    forall n | 0 <= n < |t.calls| ensures CallOk(c, t, n) { ExpireKeepsCall(c, s, i, d, n); }
    forall k | k in t.store ensures EntryOk(c, t, k) { ExpireKeepsEntry(c, s, i, d, k); }
    Keeps(c, s, StepExpire(c, s, i, d));
  }

  lemma ExpireKeepsCall(c: Limiter, s: State, i: nat, d: Delivery, n: nat)
    requires c.Valid() && At(s, i, AtExpire) && n < |s.calls| && CallOk(c, s, n) && CallOk(c, s, i)
    ensures CallOk(c, StepExpire(c, s, i, d), n)
  {
    var t := StepExpire(c, s, i, d);
    assert CountOf(t, n) == CountOf(s, n);
  }

  lemma ExpireKeepsEntry(c: Limiter, s: State, i: nat, d: Delivery, k: Key)
    requires c.Valid() && At(s, i, AtExpire) && k in s.store && CallOk(c, s, i) && EntryOk(c, s, k)
    ensures EntryOk(c, StepExpire(c, s, i, d), k)
  {
    var t := StepExpire(c, s, i, d);
    assert CountOf(t, t.store[k].creator) == CountOf(s, s.store[k].creator);
  }

  lemma TtlKeepsInv(c: Limiter, s: State, i: nat, d: Delivery)
    requires c.Valid() && Inv(c, s) && At(s, i, AtTtl)
    ensures Inv(c, StepTtl(c, s, i, d))
  {
    var t := StepTtl(c, s, i, d);
    forall n | 0 <= n < |t.calls| ensures CallOk(c, t, n) {
      assert CallOk(c, s, n);
      TtlReported(c, s, i, d);
      assert CountOf(t, n) == CountOf(s, n);
    }
    forall k | k in t.store ensures EntryOk(c, t, k) { assert EntryOk(c, s, k); }
    Keeps(c, s, t);
  }

  /** A TTL step reports an expiry set within or after the bucket, or no expiry at all. */
  lemma TtlReported(c: Limiter, s: State, i: nat, d: Delivery)
    requires c.Valid() && Inv(c, s) && At(s, i, AtTtl)
    ensures TtlOk(c, s.calls[i].key, s.now, if d.Answered? then TtlOf(s, s.calls[i].key) else Unread(c.period))
  {
    assert CallOk(c, s, i);
    assert LandingOk(c, s, s.calls[i].landed.value);
    assert EntryOk(c, s, s.calls[i].key);
  }

  lemma CrashKeepsInv(c: Limiter, s: State, i: nat)
    requires c.Valid() && Inv(c, s) && i < |s.calls| && !s.calls[i].pc.Done?
    ensures Inv(c, Goto(s, i, Crashed))
  {
    assert CallOk(c, s, i);
    Keeps(c, s, Goto(s, i, Crashed));
  }

  lemma BeginKeepsInv(c: Limiter, s: State, name: string)
    requires c.Valid() && Inv(c, s)
    ensures Inv(c, Step(c, s, Begin(name)))
  {
    assert s.now / c.period * c.period <= s.now;
    Keeps(c, s, Step(c, s, Begin(name)));
  }

  lemma StepKeepsInv(c: Limiter, s: State, e: Event)
    requires c.Valid() && Inv(c, s)
    ensures Inv(c, Step(c, s, e))
  {
    var t := Step(c, s, e);
    match e
    case Tick => Keeps(c, s, t);
    case Begin(name) => BeginKeepsInv(c, s, name);
    case Incr(i, d) => if At(s, i, AtIncr) { IncrKeepsInv(c, s, i, d); }
    case Expire(i, d) => if At(s, i, AtExpire) { ExpireKeepsInv(c, s, i, d); }
    case ReadTtl(i, d) => if At(s, i, AtTtl) { TtlKeepsInv(c, s, i, d); }
    case Crash(i) => if i < |s.calls| && !s.calls[i].pc.Done? { CrashKeepsInv(c, s, i); }
  }
}
