/** Client.Do of httpclient.go: retry with exponential backoff. Durations are whole nanoseconds. */
module HttpClient {
  import opened Prelude

  const SECOND: nat := 1_000_000_000
  const TOO_MANY_REQUESTS: int := 429

  /** The reader a request carries: none, or one with `content` left, or one that has been closed. The transport
      closes the reader at the end of every send; `closes` says whether that closes it for good. A plain io.Reader
      that http.NewRequest wrapped goes on from where it was left. */
  datatype Body = NoBody | Reader(content: seq<bv8>, closes: bool) | Closed

  /** What one send meets: a transport error, or a response; `took` is the time of the whole attempt, draining
      the response included, and `read` how many bytes of the body it had taken by its end. A send that could not
      connect takes none, and an early answer may leave some. */
  datatype Answer = NetError(took: nat, read: nat) | Response(status: int, took: nat, read: nat)

  datatype Wait = Elapsed | Cancelled(after: nat)

  /** Everything outside the client's control: the answer to send `j`, the fate of the wait before it, what
      GetBody returns for it, and what the float conversion makes of a backoff beyond 63 bits. */
  datatype World = World(answer: nat -> Answer, wait: nat -> Wait, getBody: Option<nat -> Option<Body>>, overflow: nat)

  function OrDefault(v: int, default: nat): nat {
    if v <= 0 then default else v
  }

  datatype Failure = Transport | Status(code: int)

  datatype Result =
    | Returned(status: int)
    | GivingUp(attempts: nat, last: Failure)
    | Rewinding
    | ContextDone

  function Min(a: nat, b: nat): nat {
    if a < b then a else b
  }

  predicate Retryable(a: Answer) {
    a.NetError? || a.status == TOO_MANY_REQUESTS || a.status >= 500
  }

  function Cause(a: Answer): Failure {
    if a.NetError? then Transport else Status(a.status)
  }

  function Pow2(n: nat): (r: nat)
    ensures r >= 1
  {
    if n == 0 then 1 else 2 * Pow2(n - 1)
  }

  /** backoff: the base doubled `attempt - 1` times, as long as that fits a Duration. */
  function Backoff(delay: nat, attempt: nat, w: World): nat
    requires attempt >= 1
  {
    var d := delay * Pow2(attempt - 1);
    if d < TWO63 then d else w.overflow
  }

  /** The waits before sends 1 to `k`, and the attempts 0 to `k - 1`, added up. */
  function Backoffs(delay: nat, k: nat, w: World): nat {
    if k == 0 then 0 else Backoffs(delay, k - 1, w) + Backoff(delay, k, w)
  }

  function Took(w: World, k: nat): nat {
    if k == 0 then 0 else Took(w, k - 1) + w.answer(k - 1).took
  }

  /** The first `k` answers that came with a response, by number. */
  function Responses(w: World, k: nat): seq<nat> {
    if k == 0 then [] else Responses(w, k - 1) + if w.answer(k - 1).Response? then [k - 1] else []
  }

  function AfterSend(body: Body, read: nat): Body {
    match body
    case Reader(content, closes) => if closes then Closed else Reader(content[Min(read, |content|)..], false)
    case _ => body
  }

  /** The body send `j` carries. */
  function Sent(w: World, original: Body, j: nat): Body {
    if j == 0 then original
    else if w.getBody.Some? then (var b := w.getBody.value(j); if b.Some? then b.value else original)
    else AfterSend(Sent(w, original, j - 1), w.answer(j - 1).read)
  }

  /** What the request holds before send `j`: without GetBody, already what that send will carry. */
  predicate Ready(body: Body, w: World, original: Body, j: nat) {
    w.getBody.None? ==> body == Sent(w, original, j)
  }

  /** Send `j` is due: the answer before it asks for a retry, its body can be had again, and its wait runs to
      the end. */
  predicate Due(w: World, j: nat)
    requires j >= 1
  {
    Retryable(w.answer(j - 1)) && (w.getBody.Some? ==> w.getBody.value(j).Some?) && w.wait(j).Elapsed?
  }

  /** Every retry among `n` sends was due. */
  ghost predicate AllDue(w: World, n: nat) {
    forall j: nat :: 1 <= j < n ==> Due(w, j)
  }

  /** Each send carried what it had to. */
  ghost predicate Carried(sends: seq<Body>, w: World, original: Body) {
    forall j: nat :: j < |sends| ==> sends[j] == Sent(w, original, j)
  }

  /** How a call that made `n` sends may end, and which response bodies it has closed by then. */
  ghost predicate Explained(w: World, r: Result, retries: nat, n: nat, closed: seq<nat>)
    requires n >= 1
  {
    var last := w.answer(n - 1);
    match r
    case Returned(status) => !Retryable(last) && last.status == status && closed == Responses(w, n - 1)
    case GivingUp(attempts, cause) =>
      n == retries + 1 == attempts && Retryable(last) && cause == Cause(last) && closed == Responses(w, n)
    case Rewinding =>
      n <= retries && Retryable(last) && closed == Responses(w, n)
      && w.getBody.Some? && w.getBody.value(n).None?
    case ContextDone => n <= retries && Retryable(last) && closed == Responses(w, n) && w.wait(n).Cancelled?
  }

  /** One request as the client and the network see it. */
  class Request {
    var body: Body
    var sends: seq<Body>
    var closed: seq<nat>
    var elapsed: nat
    var waited: nat

    constructor (body: Body)
      ensures this.body == body && sends == [] && closed == [] && elapsed == 0 && waited == 0
    {
      this.body := body;
      sends, closed, elapsed, waited := [], [], 0, 0;
    }

    /** http.Client.Do. */
    method Send(w: World) returns (a: Answer)
      modifies this
      ensures a == w.answer(|old(sends)|)
      ensures sends == old(sends) + [old(body)] && elapsed == old(elapsed) + a.took
      ensures body == AfterSend(old(body), a.read)
      ensures closed == old(closed) && waited == old(waited)
    {
      a := w.answer(|sends|);
      sends, elapsed := sends + [body], elapsed + a.took;
      body := AfterSend(body, a.read);
    }

    method Sleep(d: nat)
      modifies this`elapsed, this`waited
      ensures elapsed == old(elapsed) + d && waited == old(waited) + d
    {
      elapsed, waited := elapsed + d, waited + d;
    }
  }

  class Client {
    const timeout: nat
    const retries: nat
    const delay: nat

    /** New: a value that is not positive is replaced by its default. */
    constructor (timeout: int, maxRetries: int, baseDelay: int)
      ensures this.timeout == OrDefault(timeout, 10_000_000_000)
      ensures retries == OrDefault(maxRetries, 3)
      ensures delay == OrDefault(baseDelay, 200_000_000)
    {
      this.timeout := if timeout <= 0 then 10 * SECOND else timeout;
      retries := if maxRetries <= 0 then 3 else maxRetries;
      delay := if baseDelay <= 0 then 200_000_000 else baseDelay;
    }

    /** What a retry does before it sends: rewind the body, if it can be, and wait. */
    method BeforeRetry(req: Request, w: World, attempt: nat, ghost original: Body) returns (stop: Option<Result>)
      requires attempt >= 1 && Ready(req.body, w, original, attempt)
      modifies req`body, req`elapsed, req`waited
      ensures var rewound := w.getBody.None? || w.getBody.value(attempt).Some?;
              var d := Backoff(delay, attempt, w);
              var spent := if !rewound then 0 else if w.wait(attempt).Cancelled? then Min(w.wait(attempt).after, d) else d;
              && stop == (if !rewound then Some(Rewinding)
                          else if w.wait(attempt).Cancelled? then Some(ContextDone) else None)
              && req.elapsed == old(req.elapsed) + spent && req.waited == old(req.waited) + spent
              && (stop.None? ==> req.body == Sent(w, original, attempt))
    {
      if w.getBody.Some? {
        var body := w.getBody.value(attempt);
        if body.None? {
          return Some(Rewinding);
        }
        req.body := body.value;
      }
      var d := Backoff(delay, attempt, w);
      match w.wait(attempt) {
        case Cancelled(after) =>
          req.Sleep(Min(after, d));
          stop := Some(ContextDone);
        case Elapsed =>
          req.Sleep(d);
          stop := None;
      }
    }

    /** Attempt number `attempt`: send, and discard the response if it asks for a retry. `stop` is the result if
        it does not, `last` the failure if it does. */
    method Attempt(req: Request, w: World, attempt: nat, ghost original: Body)
      returns (stop: Option<Result>, last: Failure)
      requires |req.sends| == attempt && req.closed == Responses(w, attempt) && req.body == Sent(w, original, attempt)
      requires Carried(req.sends, w, original)
      modifies req
      ensures var a := w.answer(attempt);
              stop == None <==> a.NetError? || a.status == 429 || a.status >= 500
      ensures var a := w.answer(attempt);
              && |req.sends| == attempt + 1 && Carried(req.sends, w, original) && req.elapsed == old(req.elapsed) + a.took
              && req.waited == old(req.waited)
              && Ready(req.body, w, original, attempt + 1)
              && if Retryable(a)
                 then stop == None && last == Cause(a) && req.closed == Responses(w, attempt + 1)
                 else stop == Some(Returned(a.status)) && req.closed == old(req.closed)
    {
      var answer := req.Send(w);
      if answer.NetError? {
        return None, Transport;
      }
      if answer.status == TOO_MANY_REQUESTS || answer.status >= 500 {
        req.closed := req.closed + [attempt];
        return None, Status(answer.status);
      }
      return Some(Returned(answer.status)), Transport;
    }

    /** Do: at most `retries + 1` sends, each after a retryable answer and its own wait. A response handed
        back is the last answer and not retryable; each discarded response was closed exactly once, in
        order, the returned one not at all; and time is spent on attempts and waits alone. */
    method Do(req: Request, w: World) returns (r: Result)
      requires req.sends == [] && req.closed == [] && req.elapsed == 0 && req.waited == 0
      modifies req
      ensures 1 <= |req.sends| <= retries + 1
      ensures Carried(req.sends, w, old(req.body)) && AllDue(w, |req.sends|)
      ensures Explained(w, r, retries, |req.sends|, req.closed)
      ensures var n := |req.sends|;
              req.waited == Backoffs(delay, n - 1, w)
                + if r.ContextDone? then Min(w.wait(n).after, Backoff(delay, n, w)) else 0
      ensures req.elapsed == Took(w, |req.sends|) + req.waited
    {
      var last := Transport;
      for attempt := 0 to retries + 1
        invariant |req.sends| == attempt
        invariant Carried(req.sends, w, old(req.body)) && AllDue(w, attempt)
        invariant if attempt == 0 then req.body == old(req.body) else Ready(req.body, w, old(req.body), attempt)
        invariant attempt > 0 ==> Retryable(w.answer(attempt - 1)) && last == Cause(w.answer(attempt - 1))
        invariant req.closed == Responses(w, attempt)
        invariant req.waited == if attempt == 0 then 0 else Backoffs(delay, attempt - 1, w)
        invariant req.elapsed == Took(w, attempt) + req.waited
      {
        if attempt > 0 {
          var stop := BeforeRetry(req, w, attempt, old(req.body));
          if stop.Some? {
            return stop.value;
          }
        }

        var stop;
        stop, last := Attempt(req, w, attempt, old(req.body));
        if stop.Some? {
          return stop.value;
        }
      }
      r := GivingUp(retries + 1, last);
    }
  }

  // ---- What follows ----

  lemma {:induction false} Pow2Monotone(a: nat, b: nat)
    requires a <= b
    ensures Pow2(a) <= Pow2(b)
    decreases b - a
  {
    if a < b { Pow2Monotone(a, b - 1); }
  }

  lemma DoubleLessOne(p: nat, d: nat)
    requires p >= 1
    ensures d * (2 * p - 1) == d * (p - 1) + d * p
  {
  }

  /** Exponential backoff sums to the base times one less than a power of two, while the last wait fits a
      Duration. */
  lemma {:induction false} BackoffTotal(delay: nat, k: nat, w: World)
    requires k == 0 || delay * Pow2(k - 1) < TWO63
    ensures Backoffs(delay, k, w) == delay * (Pow2(k) - 1)
  {
    if k > 0 {
      if k > 1 {
        Pow2Monotone(k - 2, k - 1);
        MulMonotone(Pow2(k - 2), Pow2(k - 1), delay);
      }
      BackoffTotal(delay, k - 1, w);
      DoubleLessOne(Pow2(k - 1), delay);
    }
  }

  lemma {:induction false} TookBound(w: World, k: nat, timeout: nat)
    requires forall j: nat :: w.answer(j).took <= timeout
    ensures Took(w, k) <= k * timeout
  {
    if k > 0 {
      TookBound(w, k - 1, timeout);
      assert k * timeout == (k - 1) * timeout + timeout;
    }
  }

  /** Worst case: with attempts bounded by the timeout, the time a Do takes is at most all attempts and all
      waits together; `cut` says the last wait was cut short. */
  lemma WorstCaseTime(retries: nat, delay: nat, timeout: nat, sends: nat, cut: bool, w: World)
    requires retries >= 1 && delay * Pow2(retries - 1) < TWO63 && 1 <= sends <= retries + 1
    requires cut ==> sends <= retries && w.wait(sends).Cancelled?
    requires forall j: nat :: w.answer(j).took <= timeout
    ensures Took(w, sends) + Backoffs(delay, sends - 1, w)
              + (if cut then Min(w.wait(sends).after, Backoff(delay, sends, w)) else 0)
            <= (retries + 1) * timeout + delay * (Pow2(retries) - 1)
  {
    assert Took(w, sends) <= (retries + 1) * timeout by {
      TookBound(w, sends, timeout);
      MulMonotone(sends, retries + 1, timeout);
    }
    var waits := if cut then sends else sends - 1;
    assert Backoffs(delay, waits, w) <= delay * (Pow2(retries) - 1) by { WaitBound(retries, delay, waits, w); }
    if cut { assert Backoffs(delay, sends, w) == Backoffs(delay, sends - 1, w) + Backoff(delay, sends, w); }
  }

  lemma WaitBound(retries: nat, delay: nat, k: nat, w: World)
    requires retries >= 1 && delay * Pow2(retries - 1) < TWO63 && k <= retries
    ensures Backoffs(delay, k, w) <= delay * (Pow2(retries) - 1)
  {
    Fits(delay, k, retries);
    BackoffTotal(delay, k, w);
    Pow2Monotone(k, retries);
    MulMonotone(Pow2(k) - 1, Pow2(retries) - 1, delay);
  }

  lemma Fits(delay: nat, k: nat, retries: nat)
    requires retries >= 1 && delay * Pow2(retries - 1) < TWO63 && k <= retries
    ensures k == 0 || delay * Pow2(k - 1) < TWO63
  {
    if k > 0 {
      Pow2Monotone(k - 1, retries - 1);
      MulMonotone(Pow2(k - 1), Pow2(retries - 1), delay);
    }
  }

  // ---- Which body a retry carries ----

  /** GetBody gives the original again for every retry; or, without GetBody, there is nothing to use up, or a
      reader that survives being closed and that no send but the last has read from. */
  ghost predicate Replays(w: World, original: Body, n: nat) {
    if w.getBody.Some? then forall j: nat :: 1 <= j < n ==> w.getBody.value(j) == Some(original)
    else
      || n <= 1 || !original.Reader?
      || (!original.closes && (original.content == [] || forall j: nat :: j < n - 1 ==> w.answer(j).read == 0))
  }

  lemma {:induction false} UnreadStays(w: World, original: Body, n: nat, j: nat)
    requires w.getBody.None? && Replays(w, original, n) && j < n
    ensures Sent(w, original, j) == original
  {
    if j > 0 { UnreadStays(w, original, n, j - 1); }
  }

  /** All `n` sends carry the original body. */
  ghost predicate AllCarry(w: World, original: Body, n: nat) {
    forall j: nat :: j < n ==> Sent(w, original, j) == original
  }

  /** A send that reads from the body, or closes it for good, leaves less for the next. */
  lemma UsedUp(w: World, original: Body, j: nat)
    requires w.getBody.None? && original.Reader? && Sent(w, original, j) == original
    requires original.closes || (original.content != [] && w.answer(j).read != 0)
    ensures Sent(w, original, j + 1) != original
  {
    if !original.closes {
      assert |original.content[Min(w.answer(j).read, |original.content|)..]| < |original.content|;
    }
  }

  /** Each of `n` sends carries the original body if and only if it is replayed or left alone. Otherwise a retry
      without GetBody carries what the sends before it have left. */
  lemma {:induction false} EveryAttemptCarriesBody(w: World, original: Body, n: nat)
    requires w.getBody.Some? ==> forall j: nat :: 1 <= j < n ==> w.getBody.value(j).Some?
    ensures AllCarry(w, original, n) <==> Replays(w, original, n)
  {
    if w.getBody.Some? {
      forall j: nat | 1 <= j < n ensures Sent(w, original, j) == w.getBody.value(j).value {}
    } else if Replays(w, original, n) {
      forall j: nat | j < n ensures Sent(w, original, j) == original { UnreadStays(w, original, n, j); }
    } else {
      var j: nat :| j < n - 1 && (original.closes || w.answer(j).read != 0);
      if Sent(w, original, j) == original { UsedUp(w, original, j); }
      var next := j + 1;
      assert !(Sent(w, original, j) == original && Sent(w, original, next) == original);
    }
  }

  lemma DueBodies(w: World, n: nat)
    requires AllDue(w, n)
    ensures w.getBody.Some? ==> forall j: nat :: 1 <= j < n ==> w.getBody.value(j).Some?
  {
    if w.getBody.Some? {
      forall j: nat | 1 <= j < n ensures w.getBody.value(j).Some? { assert Due(w, j); }
    }
  }

  /** The bytes the first `k` sends have taken. */
  function ReadBy(w: World, k: nat): nat {
    if k == 0 then 0 else ReadBy(w, k - 1) + w.answer(k - 1).read
  }

  /** Without GetBody a retry carries exactly the rest, what no send before it has read, or finds its reader
      closed. */
  lemma {:induction false} RetryCarriesRest(w: World, content: seq<bv8>, closes: bool, j: nat)
    requires w.getBody.None? && j >= 1
    ensures Sent(w, Reader(content, closes), j)
            == if closes then Closed else Reader(content[Min(ReadBy(w, j), |content|)..], false)
  {
    var original, read := Reader(content, closes), w.answer(j - 1).read;
    if j == 1 {
      assert Sent(w, original, 1) == AfterSend(Sent(w, original, 0), read);
    } else {
      RetryCarriesRest(w, content, closes, j - 1);
      var left := content[Min(ReadBy(w, j - 1), |content|)..];
      assert left[Min(read, |left|)..] == content[Min(ReadBy(w, j), |content|)..];
    }
  }

  lemma {:induction false} ResponsesListed(w: World, k: nat)
    ensures forall j: nat :: j in Responses(w, k) <==> j < k && w.answer(j).Response?
    ensures forall i, j :: 0 <= i < j < |Responses(w, k)| ==> Responses(w, k)[i] < Responses(w, k)[j]
  {
    if k > 0 {
      ResponsesListed(w, k - 1);
      var before := Responses(w, k - 1);
      assert forall i :: 0 <= i < |before| ==> before[i] in before;
    }
  }

  /** The outcome in figures: what was retried, what was returned, and which responses were closed. */
  lemma RetriesInFigures(w: World, r: Result, retries: nat, n: nat, closed: seq<nat>)
    requires n >= 1 && Explained(w, r, retries, n, closed) && AllDue(w, n)
    ensures forall j: nat :: j < n - 1 ==>
              w.answer(j).NetError? || w.answer(j).status == 429 || w.answer(j).status >= 500
    ensures var last := w.answer(n - 1);
            if r.Returned?
            then last.Response? && r.status == last.status && last.status != 429 && last.status < 500
            else last.NetError? || last.status == 429 || last.status >= 500
    ensures forall j: nat :: j in closed <==>
              j < n && w.answer(j).Response? && (w.answer(j).status == 429 || w.answer(j).status >= 500)
    ensures forall i, j :: 0 <= i < j < |closed| ==> closed[i] < closed[j]
  {
    forall j: nat | j < n - 1 ensures Retryable(w.answer(j)) { assert Due(w, j + 1); }
    ResponsesListed(w, if r.Returned? then n - 1 else n);
  }

  /** New, and one Do of its client. With every setting, zero and negative ones included, a retryable first
      answer is retried unless its body or the context prevents it; and while the waits fit a Duration and no
      attempt outlasts the timeout, the call is over after all attempts and all waits. It retries after transport
      errors, 429 and 5xx and after nothing else; exactly the responses with these statuses it has closed, each once.
      Every attempt carried the body exactly when it is replayed or left alone. */
  method Fetch(timeout: int, maxRetries: int, baseDelay: int, body: Body, w: World)
    returns (r: Result, sends: seq<Body>, elapsed: nat, closed: seq<nat>)
    ensures 1 <= |sends| <= OrDefault(maxRetries, 3) + 1
    ensures Retryable(w.answer(0)) && Due(w, 1) ==> |sends| >= 2
    ensures var limit, retries, delay :=
              OrDefault(timeout, 10_000_000_000), OrDefault(maxRetries, 3), OrDefault(baseDelay, 200_000_000);
            delay * Pow2(retries - 1) < TWO63 && (forall j: nat :: w.answer(j).took <= limit)
            ==> elapsed <= (retries + 1) * limit + delay * (Pow2(retries) - 1)
    ensures forall j: nat :: j < |sends| - 1 ==>
              w.answer(j).NetError? || w.answer(j).status == 429 || w.answer(j).status >= 500
    ensures var last := w.answer(|sends| - 1);
            if r.Returned?
            then last.Response? && r.status == last.status && last.status != 429 && last.status < 500
            else last.NetError? || last.status == 429 || last.status >= 500
    ensures forall j: nat :: j in closed <==>
              j < |sends| && w.answer(j).Response? && (w.answer(j).status == 429 || w.answer(j).status >= 500)
    ensures forall i, j :: 0 <= i < j < |closed| ==> closed[i] < closed[j]
    ensures Carried(sends, w, body) && (AllCarry(w, body, |sends|) <==> Replays(w, body, |sends|))
  {
    var client := new Client(timeout, maxRetries, baseDelay);
    var req := new Request(body);
    r := client.Do(req, w);
    sends, elapsed, closed := req.sends, req.elapsed, req.closed;
    RetriesInFigures(w, r, client.retries, |sends|, closed);
    DueBodies(w, |sends|);
    EveryAttemptCarriesBody(w, body, |sends|);
    ghost var fits := client.delay * Pow2(client.retries - 1) < TWO63 && forall j: nat :: w.answer(j).took <= client.timeout;
    if fits {
      WorstCaseTime(client.retries, client.delay, client.timeout, |sends|, r.ContextDone?, w);
    }
  }
}
