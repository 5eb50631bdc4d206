/** The readiness registry of health.go: one goroutine per checker, all writing into one slice, while other
    goroutines keep registering. */
module Health {
  import opened Prelude

  /** A registered checker, by identity; what its Check returns is given by the run. */
  type Checker = nat

  /** None is healthy, otherwise the error's text. */
  type Verdict = Option<string>

  datatype Status = Ok | Error

  datatype Result = Result(name: string, status: Status, error: string)

  datatype Report = Report(ready: bool, results: seq<Result>)

  /** One goroutine's progress: it calls its checker, stores the result, and signs off. */
  datatype Pc = Started | Checked(verdict: Verdict) | Stored | Finished

  /** What the scheduler lets happen next: another goroutine registers a checker, or goroutine `i` takes
      its next step. */
  datatype Turn = Register(name: string, checker: Checker) | Run(i: nat)

  function ResultOf(name: string, verdict: Verdict): Result {
    if verdict.None? then Result(name, Ok, "") else Result(name, Error, verdict.value)
  }

  /** `order` lists each name of `names` once: the order in which Go happens to iterate the map. */
  ghost predicate Enumerates(order: seq<string>, names: set<string>) {
    && (forall n :: n in order <==> n in names)
    && (forall i, j :: 0 <= i < j < |order| ==> order[i] != order[j])
  }

  function Results(order: seq<string>, snapshot: map<string, Checker>, verdict: Checker -> Verdict): (r: seq<Result>)
    requires forall n :: n in order ==> n in snapshot
    ensures |r| == |order|
    ensures forall i :: 0 <= i < |r| ==> r[i] == ResultOf(order[i], verdict(snapshot[order[i]]))
  {
    seq(|order|, i requires 0 <= i < |order| => assert order[i] in order; ResultOf(order[i], verdict(snapshot[order[i]])))
  }

  function Registered(checkers: map<string, Checker>, turns: seq<Turn>): map<string, Checker> {
    if turns == [] then checkers
    else
      var before, t := Registered(checkers, turns[..|turns| - 1]), turns[|turns| - 1];
      if t.Register? then before[t.name := t.checker] else before
  }

  class Registry {
    var checkers: map<string, Checker>
    const timeout: nat

    /** Durations in milliseconds. */
    constructor (perCheckTimeout: int)
      ensures checkers == map[] && timeout == if perCheckTimeout <= 0 then 2000 else perCheckTimeout
    {
      checkers := map[];
      timeout := if perCheckTimeout <= 0 then 2000 else perCheckTimeout;
    }

    method Register(name: string, c: Checker)
      modifies this
      ensures checkers == old(checkers)[name := c]
    {
      checkers := checkers[name := c];
    }

    /** Check under the iteration order and the schedule given: it returns exactly when every goroutine has
        signed off, and then every slot was written once and the report is that of the snapshot taken at
        the start, whatever was registered meanwhile. */
    method Check(order: seq<string>, turns: seq<Turn>, verdict: Checker -> Verdict)
      returns (report: Option<Report>, ghost writes: seq<nat>)
      requires Enumerates(order, checkers.Keys)
      modifies this
      ensures checkers == Registered(old(checkers), turns)
      ensures report.Some? <==> forall i :: 0 <= i < |order| ==> Steps(turns, i) >= 3
      ensures report.Some? ==>
                && report.value.results == Results(order, old(checkers), verdict)
                && (report.value.ready <==> forall n :: n in old(checkers) ==> verdict(old(checkers)[n]).None?)
      ensures report.Some? ==>
                forall i :: 0 <= i < |order| ==>
                  var result, v := report.value.results[i], verdict(old(checkers)[order[i]]);
                  result.name == order[i] && if v.None? then result.status == Ok && result.error == ""
                                             else result.status == Error && result.error == v.value
      ensures report.Some? ==> |writes| == |order| && forall i :: 0 <= i < |order| ==> writes[i] == 1
    {
      ghost var snapshot := checkers;
      var names, cs := [], [];
      for i := 0 to |order|
        invariant names == order[..i] && |cs| == i
        invariant forall j :: 0 <= j < i ==> order[j] in snapshot && cs[j] == snapshot[order[j]]
      {
        assert order[i] in order;
        names, cs := names + [order[i]], cs + [checkers[order[i]]];
      }
      var fan := new FanOut(names, cs);

      for t := 0 to |turns|
        invariant checkers == Registered(snapshot, turns[..t])
        invariant fan.Valid(verdict) && fan.order == order && fan.checkers == cs && fresh(fan) && fresh(fan.results) && fresh(fan.pc)
        invariant forall i :: 0 <= i < |order| ==> fan.steps[i] == Steps(turns[..t], i)
      {
        assert turns[..t + 1][..t] == turns[..t];
        match turns[t] {
          case Register(name, checker) => Register(name, checker);
          case Run(i) => if i < |order| { fan.Step(i, verdict); }
        }
      }
      assert turns[..|turns|] == turns;

      var done := fan.AllFinished(verdict);
      writes := fan.writes;
      if !done {
        return None, writes;
      }
      var results := fan.results[..];
      forall i | 0 <= i < |order|
        ensures results[i] == ResultOf(order[i], verdict(cs[i])) && writes[i] == 1
      {
        assert fan.SlotOk(i, verdict(cs[i]));
      }
      assert results == Results(order, snapshot, verdict);
      var ready := AllOk(results);
      ReadyMeaning(order, snapshot, verdict, results);
      report := Some(Report(ready, results));
    }
  }

  /** The loop that decides readiness, leaving at the first result that is not ok. */
  method AllOk(results: seq<Result>) returns (ready: bool)
    ensures ready <==> forall i :: 0 <= i < |results| ==> results[i].status == Ok
  {
    ready := true;
    for i := 0 to |results|
      invariant ready && forall j :: 0 <= j < i ==> results[j].status == Ok
    {
      if results[i].status != Ok {
        ready := false;
        break;
      }
    }
  }

  lemma {:induction false} ReadyMeaning(order: seq<string>, snapshot: map<string, Checker>, verdict: Checker -> Verdict, results: seq<Result>)
    requires Enumerates(order, snapshot.Keys) && results == Results(order, snapshot, verdict)
    ensures (forall i :: 0 <= i < |results| ==> results[i].status == Ok)
            <==> forall n :: n in snapshot ==> verdict(snapshot[n]).None?
  {
    forall n | n in snapshot ensures exists i :: 0 <= i < |order| && order[i] == n { assert n in order; }
    forall i | 0 <= i < |order| ensures order[i] in snapshot { assert order[i] in order; }
  }

  /** The goroutines of one Check: its slices, the shared result slice, and how far each has come. */
  class FanOut {
    const order: seq<string>
    const checkers: seq<Checker>
    const results: array<Result>
    const pc: array<Pc>
    ghost var steps: seq<nat>
    ghost var writes: seq<nat>

    ghost predicate Valid(verdict: Checker -> Verdict)
      reads this, results, pc
    {
      && |checkers| == |order| == results.Length == pc.Length == |steps| == |writes|
      && (forall i :: 0 <= i < |order| ==> SlotOk(i, verdict(checkers[i])))
    }

    /** Slot `i` holds its result once its goroutine has stored it, and has been written that once. */
    ghost predicate SlotOk(i: nat, v: Verdict)
      requires i < |order| == results.Length == pc.Length == |steps| == |writes|
      reads this, results, pc
    {
      && pc[i] == PcAfter(steps[i], v)
      && writes[i] == (if steps[i] >= 2 then 1 else 0)
      && (steps[i] >= 2 ==> results[i] == ResultOf(order[i], v))
    }

    constructor (order: seq<string>, checkers: seq<Checker>)
      requires |order| == |checkers|
      ensures this.order == order && this.checkers == checkers && fresh(results) && fresh(pc)
      ensures forall verdict :: Valid(verdict)
      ensures forall i :: 0 <= i < |order| ==> steps[i] == 0
    {
      this.order, this.checkers := order, checkers;
      results := new Result[|order|](_ => Result("", Ok, ""));
      pc := new Pc[|order|](_ => Started);
      steps := seq(|order|, _ => 0);
      writes := seq(|order|, _ => 0);
    }

    /** The next step of goroutine `i`. */
    method Step(i: nat, verdict: Checker -> Verdict)
      requires Valid(verdict) && i < |order|
      modifies this, results, pc
      ensures Valid(verdict) && steps == old(steps)[i := old(steps)[i] + 1]
      ensures forall j :: 0 <= j < |order| && j != i ==> results[j] == old(results[j]) && pc[j] == old(pc[j])
    {
      match pc[i] {
        case Started =>
          pc[i] := Checked(verdict(checkers[i]));
        case Checked(v) =>
          results[i] := ResultOf(order[i], v);
          writes := writes[i := writes[i] + 1];
          pc[i] := Stored;
        case Stored =>
          pc[i] := Finished;
        case Finished =>
      }
      steps := steps[i := steps[i] + 1];
    }

    /** Whether Wait would return now. */
    method AllFinished(verdict: Checker -> Verdict) returns (done: bool)
      requires Valid(verdict)
      ensures done <==> forall i :: 0 <= i < |order| ==> steps[i] >= 3
    {
      done := true;
      for i := 0 to |order|
        invariant done && forall j :: 0 <= j < i ==> steps[j] >= 3
      {
        assert SlotOk(i, verdict(checkers[i]));
        if pc[i] != Finished {
          return false;
        }
      }
    }
  }

  /** How often the scheduler ran goroutine `i`. */
  function Steps(turns: seq<Turn>, i: nat): nat {
    if turns == [] then 0
    else Steps(turns[..|turns| - 1], i) + if turns[|turns| - 1] == Run(i) then 1 else 0
  }

  function PcAfter(steps: nat, verdict: Verdict): Pc {
    if steps == 0 then Started else if steps == 1 then Checked(verdict) else if steps == 2 then Stored else Finished
  }

  // ---- Independence of the schedule ----

  lemma TakeOut<T>(b: seq<T>, k: nat)
    requires k < |b|
    ensures multiset(b) == multiset(b[..k] + b[k + 1..]) + multiset{b[k]}
  {
    assert b == b[..k] + [b[k]] + b[k + 1..];
  }

  lemma {:induction false} EachOnce(order: seq<string>)
    requires forall i, j :: 0 <= i < j < |order| ==> order[i] != order[j]
    ensures forall x :: multiset(order)[x] == if x in order then 1 else 0
  {
    if order != [] {
      var n := |order| - 1;
      EachOnce(order[..n]);
      assert order == order[..n] + [order[n]];
    }
  }

  lemma SamePermutation(a: seq<string>, b: seq<string>, names: set<string>)
    requires Enumerates(a, names) && Enumerates(b, names)
    ensures multiset(a) == multiset(b)
  {
    EachOnce(a);
    EachOnce(b);
    forall x ensures multiset(a)[x] == multiset(b)[x] {}
  }

  lemma {:induction false} ResultsAsMultiset(a: seq<string>, b: seq<string>, snapshot: map<string, Checker>, verdict: Checker -> Verdict)
    requires multiset(a) == multiset(b)
    requires (forall n :: n in a ==> n in snapshot) && forall n :: n in b ==> n in snapshot
    ensures multiset(Results(a, snapshot, verdict)) == multiset(Results(b, snapshot, verdict))
  {
    if a == [] {
      assert |multiset(b)| == |b| && |multiset(a)| == 0;
    } else {
      var n := |a| - 1;
      assert a[n] in multiset(b);
      var k :| 0 <= k < |b| && b[k] == a[n];
      var rest := b[..k] + b[k + 1..];
      TakeOut(a, n);
      TakeOut(b, k);
      assert a[..n] + a[n + 1..] == a[..n];
      assert multiset(a[..n]) == multiset(a) - multiset{a[n]} && multiset(rest) == multiset(b) - multiset{a[n]};
      forall x | x in rest ensures x in snapshot { assert x in b; }
      forall x | x in a[..n] ensures x in snapshot { assert x in a; }
      ResultsAsMultiset(a[..n], rest, snapshot, verdict);
      ResultsTakenOut(a, n, snapshot, verdict);
      ResultsTakenOut(b, k, snapshot, verdict);
    }
  }

  lemma ResultsTakenOut(b: seq<string>, k: nat, snapshot: map<string, Checker>, verdict: Checker -> Verdict)
    requires k < |b| && forall n :: n in b ==> n in snapshot
    ensures var rest := b[..k] + b[k + 1..];
            && (forall n :: n in rest ==> n in snapshot)
            && multiset(Results(b, snapshot, verdict))
               == multiset(Results(rest, snapshot, verdict)) + multiset{ResultOf(b[k], verdict(snapshot[b[k]]))}
  {
    var rest, r := b[..k] + b[k + 1..], Results(b, snapshot, verdict);
    forall n | n in rest ensures n in snapshot { assert n in b; }
    TakeOut(r, k);
    assert Results(rest, snapshot, verdict) == r[..k] + r[k + 1..];
  }

  /** Given what the checkers return, the results of any two runs of Check on one registry are the same up
      to order, one for each registered name, whatever the iteration orders and schedules. */
  lemma ScheduleIndependent(a: seq<string>, b: seq<string>, snapshot: map<string, Checker>, verdict: Checker -> Verdict)
    requires Enumerates(a, snapshot.Keys) && Enumerates(b, snapshot.Keys)
    ensures multiset(Results(a, snapshot, verdict)) == multiset(Results(b, snapshot, verdict))
    ensures |Results(a, snapshot, verdict)| == |snapshot|
  {
    SamePermutation(a, b, snapshot.Keys);
    ResultsAsMultiset(a, b, snapshot, verdict);
    EnumerationSize(a, snapshot.Keys);
  }

  lemma {:induction false} EnumerationSize(order: seq<string>, names: set<string>)
    requires Enumerates(order, names)
    ensures |order| == |names|
  {
    if order == [] {
      assert names == {};
    } else {
      var n := |order| - 1;
      var x := order[n];
      assert x in order;
      forall y ensures y in order[..n] <==> y in names - {x} {
        if y in order[..n] { assert y in order; }
      }
      EnumerationSize(order[..n], names - {x});
    }
  }
}
