/** Allow and the Gin middleware in the form ratelimit.go gives them, run against a Redis that other
    replicas use at the same time, and proved to be runs of the protocol in RateLimit. */
module RateLimitClient {
  import opened Prelude
  import opened RateLimit
  import opened RateLimitGuarantees
  import opened Text

  /** The shared server and clock, with the history of everything every replica has done. */
  class Redis {
    const c: Limiter
    var state: State
    ghost var history: seq<Event>

    ghost predicate Valid()
      reads this
    {
      c.Valid() && state == Run(c, START, history)
    }

    constructor (c: Limiter)
      requires c.Valid()
      ensures Valid() && this.c == c && state == START && history == []
    {
      this.c := c;
      state := START;
      history := [];
    }

    /** One atomic step of one replica, of the clock, or of a failure. */
    method Do(e: Event)
      requires Valid()
      modifies this
      ensures Valid() && state == Step(c, old(state), e) && history == old(history) + [e]
    {
      state := Step(c, state, e);
      history := history + [e];
    }

    method Begin(name: string) returns (me: nat)
      requires Valid()
      modifies this
      ensures Valid() && history == old(history) + [Event.Begin(name)]
      ensures me == |old(state).calls| && |state.calls| == me + 1
      ensures state.calls[me] == Call(Key(name, old(state).now / c.period), None, AtIncr)
    {
      me := |state.calls|;
      Do(Event.Begin(name));
    }

    /** INCR for call `me`; on an answer, `count` is what it returned. */
    method Incr(me: nat, d: Delivery) returns (count: nat)
      requires Valid() && At(state, me, AtIncr)
      modifies this
      ensures Valid() && history == old(history) + [Event.Incr(me, d)] && |state.calls| == |old(state).calls|
      ensures state.calls[me].key == old(state).calls[me].key
      ensures if d.Answered?
              then state.calls[me].landed.Some? && CountOf(state, me) == count
                   && state.calls[me].pc == if count == 1 then AtExpire else AtTtl
              else state.calls[me].pc == Done(Errored, old(state).now)
    {
      Do(Event.Incr(me, d));
      count := CountOf(state, me);
    }

    method Expire(me: nat, d: Delivery)
      requires Valid() && At(state, me, AtExpire)
      modifies this
      ensures Valid() && history == old(history) + [Event.Expire(me, d)] && |state.calls| == |old(state).calls|
      ensures CountOf(state, me) == CountOf(old(state), me)
      ensures state.calls[me]
              == old(state).calls[me].(pc := if d.Answered? then AtTtl else Done(Errored, old(state).now))
    {
      Do(Event.Expire(me, d));
    }

    /** TTL for call `me`, its last command: an unanswered one counts as a whole window. */
    method ReadTtl(me: nat, d: Delivery) returns (ttl: Ttl)
      requires Valid() && At(state, me, AtTtl)
      modifies this
      ensures Valid() && history == old(history) + [Event.ReadTtl(me, d)] && |state.calls| == |old(state).calls|
      ensures ttl == if d.Answered? then TtlOf(old(state), old(state).calls[me].key) else Unread(c.period)
      ensures CountOf(state, me) == CountOf(old(state), me) && state.calls[me].key == old(state).calls[me].key
      ensures state.calls[me].pc == Done(Decide(c.limit, CountOf(state, me), ttl), old(state).now)
    {
      ttl := if d.Answered? then TtlOf(state, state.calls[me].key) else Unread(c.period);
      Do(Event.ReadTtl(me, d));
    }

    /** Anything at all may happen meanwhile, except a step of call `me`. */
    method Meanwhile(me: nat, others: seq<Event>)
      requires Valid() && me < |state.calls| && Foreign(me, others)
      modifies this
      ensures Valid() && history == old(history) + others
      ensures |old(state).calls| <= |state.calls| && state.calls[me] == old(state).calls[me]
      ensures CountOf(state, me) == CountOf(old(state), me) || old(state).calls[me].landed.None?
    {
      ghost var before := state;
      for n := 0 to |others|
        invariant Valid() && history == old(history) + others[..n]
        invariant |before.calls| <= |state.calls| && state.calls[me] == before.calls[me]
        invariant before.log <= state.log
      {
        assert others[n] in others;
        Do(others[n]);
      }
      assert others[..|others|] == others;
      ReachableInv(c, before);
      assert CallOk(c, before, me);
    }
  }

  /** The call whose step an event is. */
  function Actor(e: Event): Option<nat> {
    match e
    case Incr(i, _) => Some(i)
    case Expire(i, _) => Some(i)
    case ReadTtl(i, _) => Some(i)
    case Crash(i) => Some(i)
    case _ => None
  }

  /** None of `es` is a step of call `me`. */
  ghost predicate Foreign(me: nat, es: seq<Event>) {
    forall e :: e in es ==> Actor(e) != Some(me)
  }

  /** How the three commands of one call fare. */
  datatype Network = Network(incr: Delivery, expire: Delivery, ttl: Delivery)

  /** Limiter.Allow. `o1`, `o2`, `o3` are what everybody else does between this call's steps. The call's own
      steps put it, under the identifier `me`, into the protocol's history with the reply returned. */
  method Allow(redis: Redis, name: string, net: Network, o1: seq<Event>, o2: seq<Event>, o3: seq<Event>)
    returns (me: nat, reply: Reply)
    requires redis.Valid()
    requires var me := |redis.state.calls|; Foreign(me, o1) && Foreign(me, o2) && Foreign(me, o3)
    modifies redis
    ensures redis.Valid() && me == |old(redis.state).calls| < |redis.state.calls|
    ensures redis.state.calls[me].key == Key(name, old(redis.state).now / redis.c.period)
    ensures redis.state.calls[me].pc.Done? && redis.state.calls[me].pc.reply == reply
    ensures reply.Errored? <==> !net.incr.Answered? || (CountOf(redis.state, me) == 1 && !net.expire.Answered?)
  {
    me := redis.Begin(name);
    redis.Meanwhile(me, o1);

    var count := redis.Incr(me, net.incr);
    if !net.incr.Answered? {
      return me, Errored;
    }
    redis.Meanwhile(me, o2);

    if count == 1 {
      redis.Expire(me, net.expire);
      if !net.expire.Answered? {
        return me, Errored;
      }
    }
    redis.Meanwhile(me, o3);

    var ttl := redis.ReadTtl(me, net.ttl);
    if count > redis.c.limit {
      return me, Denied(ttl);
    }
    reply := Allowed(redis.c.limit - count, ttl);
  }

  /** What the middleware did with one request. */
  class Exchange {
    var passedOn: bool
    var status: Option<nat>
    var remaining: Option<int>
    var retryAfter: Option<nat>

    constructor ()
      ensures !passedOn && status == None && remaining == None && retryAfter == None
    {
      passedOn, status, remaining, retryAfter := false, None, None, None;
    }
  }

  const TOO_MANY_REQUESTS: nat := 429

  /** GinMiddleware: the request goes on exactly when the protocol counts its call as passed. */
  method Middleware(redis: Redis, x: Exchange, name: string, net: Network, o1: seq<Event>, o2: seq<Event>, o3: seq<Event>)
    returns (me: nat)
    requires redis.Valid()
    requires var me := |redis.state.calls|; Foreign(me, o1) && Foreign(me, o2) && Foreign(me, o3)
    requires !x.passedOn && x.status == None && x.remaining == None && x.retryAfter == None
    modifies redis, x
    ensures redis.Valid() && me < |redis.state.calls| && redis.state.calls[me].pc.Done?
    ensures x.passedOn <==> Passed(redis.state, me)
    ensures x.passedOn <==> !redis.state.calls[me].pc.reply.Denied?
    ensures match redis.state.calls[me].pc.reply
            case Errored => x.remaining == None && x.status == None && x.retryAfter == None
            case Allowed(r, _) => x.remaining == Some(r) && x.status == None && x.retryAfter == None
            case Denied(ttl) =>
              x.remaining == Some(0) && x.status == Some(429)
              && x.retryAfter == Some(match ttl case Left(n, _) => n case Unread(n) => n case _ => 0)
  {
    var reply;
    me, reply := Allow(redis, name, net, o1, o2, o3);
    match reply {
      case Errored => x.passedOn := true;
      case Allowed(remaining, _) =>
        x.remaining := Some(remaining);
        x.passedOn := true;
      case Denied(ttl) =>
        x.remaining := Some(0);
        x.retryAfter := Some(RetryAfter(ttl));
        x.status := Some(TOO_MANY_REQUESTS);
    }
  }

  // ---- Redis key strings ----

  function RedisKey(prefix: string, k: Key): string {
    prefix + ":" + k.name + ":" + Decimal(k.bucket)
  }

  /** A text is cut in one way only at its last colon. */
  lemma LastColon(a: string, b: string, u: string, v: string)
    requires ':' !in u && ':' !in v && a + ":" + u == b + ":" + v
    ensures a == b && u == v
  {
    var s, t := a + ":" + u, b + ":" + v;
    assert s[|a|] == ':' && t[|b|] == ':';
    forall i | |a| < i < |s| ensures s[i] != ':' { assert s[i] == u[i - |a| - 1]; }
    forall i | |b| < i < |t| ensures t[i] != ':' { assert t[i] == v[i - |b| - 1]; }
    assert |a| == |b|;
    assert a == s[..|a|] && b == t[..|b|] && u == s[|a| + 1..] && v == t[|b| + 1..];
  }

  /** One limiter's Redis keys never collide, whatever colons the callers' keys contain, so the protocol
      may treat a key and a bucket as the name of a counter. */
  lemma RedisKeyInjective(prefix: string, k: Key, l: Key)
    requires RedisKey(prefix, k) == RedisKey(prefix, l)
    ensures k == l
  {
    var a, b := prefix + ":" + k.name, prefix + ":" + l.name;
    LastColon(a, b, Decimal(k.bucket), Decimal(l.bucket));
    DecimalInjective(k.bucket, l.bucket);
    assert k.name == a[|prefix| + 1..] && l.name == b[|prefix| + 1..];
  }

  /** New: an empty prefix is replaced by the default. */
  function PrefixOf(keyPrefix: string): string {
    if keyPrefix == "" then "ratelimit" else keyPrefix
  }

  predicate StartsWith(s: string, prefix: string) {
    prefix <= s
  }

  /** The key as Redis sees it: what precedes the last colon is the prefix, a colon and the caller's key, and what
      follows is the bucket in decimal. Left to the default, the prefix is "ratelimit". */
  lemma KeyText(keyPrefix: string, k: Key)
    ensures exists digits :: RedisKey(PrefixOf(keyPrefix), k) == PrefixOf(keyPrefix) + ":" + k.name + ":" + digits
              && ':' !in digits && Value(digits) == Some(k.bucket)
    ensures RedisKey(PrefixOf(""), Key("u", 7)) == "ratelimit:u:7"
    ensures keyPrefix != "" ==> PrefixOf(keyPrefix) == keyPrefix
  {
    ValueOfDecimal(k.bucket);
    var digits := Decimal(k.bucket);
    assert RedisKey(PrefixOf(keyPrefix), k) == PrefixOf(keyPrefix) + ":" + k.name + ":" + digits;
    assert Decimal(7) == "7";
  }

  /** Two limiters' counters are the same exactly when prefix and key together read the same. */
  lemma SharedCounter(p: string, k: Key, q: string, l: Key)
    ensures RedisKey(p, k) == RedisKey(q, l) <==> p + ":" + k.name == q + ":" + l.name && k.bucket == l.bucket
  {
    if RedisKey(p, k) == RedisKey(q, l) {
      LastColon(p + ":" + k.name, q + ":" + l.name, Decimal(k.bucket), Decimal(l.bucket));
      DecimalInjective(k.bucket, l.bucket);
    }
  }

  /** Two limiters on one Redis can ever share a counter exactly when one prefix, followed by the colon, begins
      the other: so "a" and "a:b" can, as can two left to the default, and "a" and "ab" cannot. */
  lemma LimitersShareExactlyOnPrefix(one: string, other: string)
    ensures var p, q := PrefixOf(one) + ":", PrefixOf(other) + ":";
            (exists k, l :: RedisKey(PrefixOf(one), k) == RedisKey(PrefixOf(other), l))
            <==> StartsWith(p, q) || StartsWith(q, p)
  {
    var p, q := PrefixOf(one) + ":", PrefixOf(other) + ":";
    if StartsWith(p, q) {
      var l := Key(p[|q|..], 0);
      SharedCounter(PrefixOf(one), Key("", 0), PrefixOf(other), l);
      assert p + "" == p && q + p[|q|..] == p;
      assert RedisKey(PrefixOf(one), Key("", 0)) == RedisKey(PrefixOf(other), l);
    } else if StartsWith(q, p) {
      var k := Key(q[|p|..], 0);
      SharedCounter(PrefixOf(one), k, PrefixOf(other), Key("", 0));
      assert q + "" == q && p + q[|p|..] == q;
      assert RedisKey(PrefixOf(one), k) == RedisKey(PrefixOf(other), Key("", 0));
    } else {
      forall k, l ensures RedisKey(PrefixOf(one), k) != RedisKey(PrefixOf(other), l) {
        SharedCounter(PrefixOf(one), k, PrefixOf(other), l);
        if p + k.name == q + l.name { PrefixesOfOne(p, k.name, q, l.name); }
      }
    }
  }

  lemma PrefixesOfOne(p: string, u: string, q: string, v: string)
    requires p + u == q + v
    ensures StartsWith(p, q) || StartsWith(q, p)
  {
    if |p| <= |q| {
      assert p == (p + u)[..|p|] == q[..|p|];
    } else {
      assert q == (q + v)[..|q|] == p[..|q|];
    }
  }
}
