/** Sequences of events: those of one party, and those a loop's turns add up to. */
module Trace {
  /** The elements `keep` selects, in order. */
  function Filter<E>(es: seq<E>, keep: E -> bool): seq<E> {
    if es == [] then []
    else
      var e := es[|es| - 1];
      Filter(es[..|es| - 1], keep) + if keep(e) then [e] else []
  }

  lemma FilterSnoc<E>(es: seq<E>, keep: E -> bool, e: E)
    ensures Filter(es + [e], keep) == Filter(es, keep) + if keep(e) then [e] else []
  {
    assert (es + [e])[..|es|] == es;
  }

  /** What all of `ts` contribute, one after the other. */
  function FlatMap<T, E>(ts: seq<T>, f: T -> seq<E>): seq<E> {
    if ts == [] then [] else FlatMap(ts[..|ts| - 1], f) + f(ts[|ts| - 1])
  }

  /** Behind `before`, one more turn contributes at the end. */
  lemma FlatMapGrows<T, E>(before: seq<E>, ts: seq<T>, f: T -> seq<E>, n: nat)
    requires n < |ts|
    ensures before + FlatMap(ts[..n + 1], f) == before + FlatMap(ts[..n], f) + f(ts[n])
  {
    assert ts[..n + 1][..n] == ts[..n];
    assert before + FlatMap(ts[..n], f) + f(ts[n]) == before + (FlatMap(ts[..n], f) + f(ts[n]));
  }
}
