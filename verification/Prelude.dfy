/** Vocabulary shared by the models: optional values, the fate of a command, and the counting facts the
    protocol proofs need. */
module Prelude {
  datatype Option<+T> = None | Some(value: T)

  /** A command to a server is answered, or executed with its answer lost, or never executed. */
  datatype Delivery = Answered | AnswerLost | NotExecuted

  const TWO63: nat := 0x8000_0000_0000_0000

  lemma MulMonotone(a: nat, b: nat, m: nat)
    requires a <= b
    ensures a * m <= b * m
  {
  }

  lemma OneMore(n: nat, m: nat)
    requires n >= 1
    ensures n * m == (n - 1) * m + m
  {
  }

  /** The numbers `lo`, `lo + 1`, ..., `hi - 1`. */
  function Range(lo: int, hi: int): (r: set<int>)
    ensures forall x :: x in r <==> lo <= x < hi
    decreases hi - lo
  {
    if lo >= hi then {} else Range(lo, hi - 1) + {hi - 1}
  }

  /** The natural numbers below `n`. */
  function Below(n: nat): (r: set<nat>)
    ensures forall x: nat :: x in r <==> x < n
  {
    if n == 0 then {} else Below(n - 1) + {n - 1}
  }

  /** The sequence 0, 1, ..., `n - 1`. */
  function UpTo(n: nat): (r: seq<nat>)
    ensures |r| == n && forall i :: 0 <= i < n ==> r[i] == i
    ensures forall x: nat :: x in r <==> x < n
  {
    if n == 0 then [] else UpTo(n - 1) + [n - 1]
  }

  lemma {:induction false} RangeSize(lo: int, hi: int)
    requires lo <= hi
    ensures |Range(lo, hi)| == hi - lo
    decreases hi - lo
  {
    if lo == hi {
      assert Range(lo, hi) == {};
    } else {
      RangeSize(lo, hi - 1);
      assert Range(lo, hi) == Range(lo, hi - 1) + {hi - 1};
    }
  }

  /** A set that `f` maps one-to-one into another is no larger. */
  lemma {:induction false} Injection(s: set<nat>, f: nat -> int, t: set<int>)
    requires forall x :: x in s ==> f(x) in t
    requires forall x, y :: x in s && y in s && f(x) == f(y) ==> x == y
    ensures |s| <= |t|
  {
    if s != {} {
      var x :| x in s;
      Injection(s - {x}, f, t - {f(x)});
    }
  }

  /** A set that `f` maps one-to-one onto another has the same size. */
  lemma {:induction false} Bijection(s: set<nat>, f: nat -> int, t: set<int>)
    requires forall x :: x in s ==> f(x) in t
    requires forall x, y :: x in s && y in s && f(x) == f(y) ==> x == y
    requires forall y :: y in t ==> exists x :: x in s && f(x) == y
    ensures |s| == |t|
  {
    if s == {} {
      assert forall y :: y !in t;
    } else {
      var x :| x in s;
      forall y | y in t - {f(x)} ensures exists z :: z in s - {x} && f(z) == y {
        var z :| z in s && f(z) == y;
        assert z in s - {x};
      }
      Bijection(s - {x}, f, t - {f(x)});
    }
  }
}
