/** The authentication middleware of middleware.go on Gin's handler chain: Next runs the elements by a shared
    index, Abort moves the index out of reach. Token validation is a function fixed for the request. */
module AuthChain {
  import opened Prelude
  import Text
  import Claims

  datatype AuthError = MissingToken | InsufficientRole | Refused(reason: string)

  datatype Validation = Valid(claims: Claims.Raw) | Invalid(error: AuthError)

  /** One element of a chain. A handler neither calls Next nor aborts. */
  datatype Element =
    | RequiredAuth(validate: string -> Validation)
    | OptionalAuth(validate: string -> Validation)
    | RequireRoles(extract: Claims.Raw -> seq<string>, roles: seq<string>)
    | Handler

  /** What an aborting element wrote. */
  datatype Reply = Reply(status: int, error: AuthError)

  // ---- The token ----

  const PREFIX := "Bearer "

  function BearerToken(header: string): (token: Option<string>)
    ensures token.Some? ==> token.value != [] && Text.Trimmed(token.value)
  {
    if !(PREFIX <= header) then None
    else
      var token := Text.TrimSpace(header[|PREFIX|..]);
      Text.TrimSpaceIsClean(header[|PREFIX|..]);
      if token == [] then None else Some(token)
  }

  /** A header that carries a token gives it back, and an empty or unprefixed header none. */
  lemma BearerRoundTrip(token: string)
    ensures BearerToken(PREFIX + token) == Some(token) <==> token != [] && Text.Trimmed(token)
    ensures BearerToken(token).Some? ==> PREFIX <= token
  {
    assert (PREFIX + token)[|PREFIX|..] == token;
    Text.TrimSpaceIsClean(token);
  }

  function Authenticate(validate: string -> Validation, header: string): Validation {
    match BearerToken(header)
    case None => Invalid(MissingToken)
    case Some(token) => validate(token)
  }

  /** Which text reaches the validator: what follows "Bearer ", without the white space around it. A header without
      that prefix, or with nothing but white space after it, reaches none. */
  lemma AuthenticateReads(validate: string -> Validation, header: string, text: string)
    ensures var token := Text.TrimSpace(text);
            Authenticate(validate, "Bearer " + text) == if token == [] then Invalid(MissingToken) else validate(token)
    ensures (forall rest :: header != "Bearer " + rest) ==> Authenticate(validate, header) == Invalid(MissingToken)
  {
    assert ("Bearer " + text)[|PREFIX|..] == text;
    if PREFIX <= header { assert header == "Bearer " + header[|PREFIX|..]; }
  }

  // ---- What a chain does, element by element ----

  /** The claims an element puts in the context, if any. */
  function Stored(e: Element, header: string): Option<Claims.Raw> {
    if (e.RequiredAuth? || e.OptionalAuth?) && Authenticate(e.validate, header).Valid?
    then Some(Authenticate(e.validate, header).claims)
    else None
  }

  /** The claims in the context when element `k` starts: those of the latest element before it that stored any. */
  function ClaimsAt(chain: seq<Element>, header: string, k: nat): Option<Claims.Raw>
    requires k <= |chain|
  {
    if k == 0 then None
    else if Stored(chain[k - 1], header).Some? then Stored(chain[k - 1], header)
    else ClaimsAt(chain, header, k - 1)
  }

  /** Element `k` lets the request go on. */
  predicate LetsThrough(chain: seq<Element>, header: string, k: nat)
    requires k < |chain|
  {
    match chain[k]
    case RequiredAuth(validate) => Authenticate(validate, header).Valid?
    case RequireRoles(extract, roles) =>
      var held := ClaimsAt(chain, header, k);
      held.Some? && Claims.HasAny(extract(held.value), roles)
    case _ => true
  }

  /** What element `k` answers when it stops the request. */
  function Refusal(chain: seq<Element>, header: string, k: nat): Reply
    requires k < |chain| && !LetsThrough(chain, header, k)
  {
    match chain[k]
    case RequiredAuth(validate) => Reply(401, Authenticate(validate, header).error)
    case _ => if ClaimsAt(chain, header, k).None? then Reply(401, MissingToken) else Reply(403, InsufficientRole)
  }

  /** The first element from `k` on that stops the request, or the length of the chain. */
  function Stop(chain: seq<Element>, header: string, k: nat): (s: nat)
    requires k <= |chain|
    ensures k <= s <= |chain|
    ensures forall j: nat :: k <= j < s ==> LetsThrough(chain, header, j)
    ensures s < |chain| ==> !LetsThrough(chain, header, s)
    decreases |chain| - k
  {
    if k == |chain| || !LetsThrough(chain, header, k) then k else Stop(chain, header, k + 1)
  }

  /** How many elements start: everything up to the one that stops the request. */
  function Started(chain: seq<Element>, header: string): (n: nat)
    ensures n <= |chain|
  {
    var s := Stop(chain, header, 0);
    if s < |chain| then s + 1 else s
  }

  // ---- Gin's context ----

  const ABORT_INDEX := 63

  class Context {
    const handlers: seq<Element>
    const header: string
    /** An int8 in Gin. */
    var index: int
    var claims: Option<Claims.Raw>
    var reply: Option<Reply>
    /** The elements started so far. */
    var ran: seq<nat>

    /** Gin refuses to register a chain that reaches the abort index. */
    constructor (handlers: seq<Element>, header: string)
      requires |handlers| < ABORT_INDEX
      ensures this.handlers == handlers && this.header == header
      ensures index == -1 && claims == None && reply == None && ran == []
    {
      this.handlers, this.header := handlers, header;
      index, claims, reply, ran := -1, None, None, [];
    }

    /** The first `k` elements have run and let the request through. */
    ghost predicate Reached(k: nat)
      reads this
    {
      && k <= |handlers| < ABORT_INDEX
      && Stop(handlers, header, 0) == Stop(handlers, header, k)
      && ran == UpTo(k) && reply == None && claims == ClaimsAt(handlers, header, k)
    }

    /** The chain is over: an element stopped the request, or none was left. */
    ghost predicate Over()
      reads this
    {
      var s := Stop(handlers, header, 0);
      && |handlers| <= index
      && ran == UpTo(Started(handlers, header))
      && claims == ClaimsAt(handlers, header, s)
      && reply == if s < |handlers| then Some(Refusal(handlers, header, s)) else None
    }

    method Abort(with: Reply)
      modifies this`index, this`reply
      ensures index == ABORT_INDEX && reply == Some(with)
    {
      index, reply := ABORT_INDEX, Some(with);
    }

    /** Context.Next: the elements after the current one, unless one of them has already gone on by itself. */
    method Next()
      requires -1 <= index < |handlers| && Reached((index + 1) as nat)
      modifies this
      ensures Over()
      ensures index < ABORT_INDEX + |handlers| - old(index)
      decreases |handlers| - index, 0
    {
      index := index + 1;
      while index < |handlers|
        invariant old(index) < index < ABORT_INDEX + |handlers| - old(index)
        invariant if index < |handlers| then Reached(index as nat) else Over()
        decreases |handlers| - index
      {
        Run();
        index := index + 1;
      }
    }

    /** The element the index stands at. A handler leaves the rest to the loop that called it. */
    method Run()
      requires 0 <= index < |handlers| && Reached(index as nat)
      modifies this
      ensures var k := old(index) as nat;
              if handlers[k].Handler?
              then index == k && Reached(k + 1)
              else Over() && index < ABORT_INDEX + |handlers| - k
      decreases |handlers| - index, 1
    {
      ran := ran + [index as nat];
      match handlers[index] {
        case RequiredAuth(validate) =>
          var v := Authenticate(validate, header);
          if v.Invalid? {
            Abort(Reply(401, v.error));
            return;
          }
          claims := Some(v.claims);
          Next();
        case OptionalAuth(validate) =>
          var v := Authenticate(validate, header);
          if v.Valid? {
            claims := Some(v.claims);
          }
          Next();
        case RequireRoles(extract, roles) =>
          if claims == None {
            Abort(Reply(401, MissingToken));
            return;
          }
          var ok := Claims.HasAnyRole(extract(claims.value), roles);
          if !ok {
            Abort(Reply(403, InsufficientRole));
            return;
          }
          Next();
        case Handler =>
      }
    }
  }

  /** Every element before `k` lets the request through. */
  ghost predicate Admitted(chain: seq<Element>, header: string, k: nat)
    requires k <= |chain|
  {
    forall j: nat :: j < k ==> LetsThrough(chain, header, j)
  }

  /** An element that authenticates, and does so with these claims. */
  predicate Authenticates(e: Element, header: string, claims: Claims.Raw) {
    match e
    case RequiredAuth(validate) => Authenticate(validate, header) == Valid(claims)
    case OptionalAuth(validate) => Authenticate(validate, header) == Valid(claims)
    case _ => false
  }

  /** The claims in the context are those of the latest element before that authenticated. */
  lemma {:induction false} ClaimsAreLatest(chain: seq<Element>, header: string, k: nat, claims: Claims.Raw)
    requires k <= |chain|
    ensures ClaimsAt(chain, header, k) == Some(claims)
            <==> exists i :: 0 <= i < k && Authenticates(chain[i], header, claims)
                   && forall j, other :: i < j < k ==> !Authenticates(chain[j], header, other)
  {
    if k > 0 {
      ClaimsAreLatest(chain, header, k - 1, claims);
      var last := chain[k - 1];
      var stored := Stored(last, header);
      if stored.Some? {
        assert Authenticates(last, header, stored.value);
      } else {
        assert forall other :: !Authenticates(last, header, other);
      }
    }
  }

  /** The usual wiring, written out: RequiredAuth, a role test, a handler. */
  lemma GuardedHandler(validate: string -> Validation, extract: Claims.Raw -> seq<string>, roles: seq<string>, header: string)
    ensures var chain := [RequiredAuth(validate), RequireRoles(extract, roles), Handler];
            var v := Authenticate(validate, header);
            && (LetsThrough(chain, header, 0) <==> v.Valid?)
            && (v.Valid? ==>
                  (LetsThrough(chain, header, 1) <==> roles == [] || exists w :: w in roles && w in extract(v.claims)))
            && LetsThrough(chain, header, 2)
            && (v.Invalid? ==> Refusal(chain, header, 0) == Reply(401, v.error))
            && (v.Valid? && !LetsThrough(chain, header, 1) ==> Refusal(chain, header, 1) == Reply(403, InsufficientRole))
  {
    var chain := [RequiredAuth(validate), RequireRoles(extract, roles), Handler];
    assert ClaimsAt(chain, header, 0) == None;
    assert ClaimsAt(chain, header, 1) == Stored(chain[0], header);
  }

  /** Past a RequiredAuth there are always claims, so a role test there can only answer 403. */
  lemma {:induction false} RequiredAuthGivesClaims(chain: seq<Element>, header: string, i: nat, k: nat)
    requires i < k <= |chain| && chain[i].RequiredAuth? && LetsThrough(chain, header, i)
    ensures ClaimsAt(chain, header, k).Some?
    ensures k < |chain| && chain[k].RequireRoles? && !LetsThrough(chain, header, k)
            ==> Refusal(chain, header, k) == Reply(403, InsufficientRole)
  {
    if i < k - 1 { RequiredAuthGivesClaims(chain, header, i, k - 1); }
  }

  /** A role test with no authenticating element before it refuses every request, whatever roles it lists. */
  lemma {:induction false} RolesAloneRefuseAll(chain: seq<Element>, header: string, k: nat)
    requires k <= |chain| && forall j :: 0 <= j < k ==> chain[j].RequireRoles? || chain[j].Handler?
    ensures ClaimsAt(chain, header, k) == None
    ensures k < |chain| && chain[k].RequireRoles?
            ==> !LetsThrough(chain, header, k) && Refusal(chain, header, k) == Reply(401, MissingToken)
  {
    if k > 0 { RolesAloneRefuseAll(chain, header, k - 1); }
  }

  /** A request through a chain. Elements run in order and once each; element `k` runs exactly when every element
      before it lets the request through, and the first that does not writes the only reply. */
  method Serve(chain: seq<Element>, header: string) returns (ran: seq<nat>, reply: Option<Reply>)
    requires |chain| < ABORT_INDEX
    ensures ran == UpTo(|ran|) && |ran| <= |chain|
    ensures forall k: nat :: k < |chain| ==> (k in ran <==> Admitted(chain, header, k))
    ensures reply == None <==> Admitted(chain, header, |chain|)
    ensures reply.Some? ==>
              && |ran| > 0 && !LetsThrough(chain, header, |ran| - 1)
              && reply.value == Refusal(chain, header, |ran| - 1)
  {
    var c := new Context(chain, header);
    if chain == [] {
      return [], None;
    }
    c.Next();
    ran, reply := c.ran, c.reply;
  }
}
