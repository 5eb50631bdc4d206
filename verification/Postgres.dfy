/** DB.WithTx of postgres.go: one transaction around one function call, ended by a deferred closure. */
module Postgres {
  import opened Prelude

  type Data = map<string, string>

  datatype Write = Write(key: string, value: string)

  /** How the function given to WithTx leaves: it returns, panics, or ends its goroutine (runtime.Goexit),
      which runs deferred calls with no panic to recover. */
  datatype Leaving = ReturnsNil | ReturnsError(e: string) | Panics(p: string) | ExitsGoroutine

  /** One call: whether Begin succeeds, what the function writes, how it leaves, and whether a Commit would
      take effect. */
  datatype Call = Call(begins: bool, writes: seq<Write>, leaving: Leaving, commits: bool)

  datatype Result = Succeeded | BeginFailed | FunctionFailed(e: string) | CommitFailed | Panicked(p: string) | Exited

  datatype Ending = Commit(tx: nat) | Rollback(tx: nat)

  function ApplyAll(d: Data, writes: seq<Write>): Data
    decreases writes
  {
    if writes == [] then d else ApplyAll(d[writes[0].key := writes[0].value], writes[1..])
  }

  /** `after` is `before` with the writes made, in order: every written key has its last written value, and every
      other key is as it was. */
  ghost predicate Written(before: Data, after: Data, writes: seq<Write>) {
    && (forall i :: 0 <= i < |writes| && LastOfItsKey(writes, i) ==>
          writes[i].key in after && after[writes[i].key] == writes[i].value)
    && (forall key :: (forall i :: 0 <= i < |writes| ==> writes[i].key != key) ==>
          (key in after <==> key in before) && (key in before && key in after ==> after[key] == before[key]))
  }

  ghost predicate LastOfItsKey(writes: seq<Write>, i: nat)
    requires i < |writes|
  {
    forall j :: i < j < |writes| ==> writes[j].key != writes[i].key
  }

  lemma {:induction false} ApplyAllWrites(d: Data, writes: seq<Write>)
    ensures Written(d, ApplyAll(d, writes), writes)
    decreases writes
  {
    if writes != [] {
      var rest, mid, after := writes[1..], d[writes[0].key := writes[0].value], ApplyAll(d, writes);
      ApplyAllWrites(mid, rest);
      forall i | 0 <= i < |writes| && LastOfItsKey(writes, i)
        ensures writes[i].key in after && after[writes[i].key] == writes[i].value
      {
        if i > 0 {
          assert rest[i - 1] == writes[i] && LastOfItsKey(rest, i - 1);
        } else {
          forall j | 0 <= j < |rest| ensures rest[j].key != writes[0].key { assert rest[j] == writes[j + 1]; }
        }
      }
      forall key | forall i :: 0 <= i < |writes| ==> writes[i].key != key
        ensures (key in after <==> key in d) && (key in d && key in after ==> after[key] == d[key])
      {
        forall j | 0 <= j < |rest| ensures rest[j].key != key { assert rest[j] == writes[j + 1]; }
        assert writes[0].key != key;
      }
    }
  }

  class Database {
    var data: Data
    var begun: nat
    var endings: seq<Ending>
    var connections: nat

    constructor ()
      ensures data == map[] && begun == 0 && endings == [] && connections == 0
    {
      data, begun, endings, connections := map[], 0, [], 0;
    }
  }

  /** An open transaction holds a connection and its writes until it is ended. */
  class Tx {
    const db: Database
    const id: nat
    var open: bool
    var writes: seq<Write>

    constructor (db: Database)
      modifies db
      ensures this.db == db && id == old(db.begun) && open && writes == []
      ensures db.begun == old(db.begun) + 1 && db.connections == old(db.connections) + 1
      ensures db.data == old(db.data) && db.endings == old(db.endings)
    {
      this.db, id, open, writes := db, db.begun, true, [];
      new;
      db.begun, db.connections := db.begun + 1, db.connections + 1;
    }

    method Commit(takes: bool) returns (ok: bool)
      requires open && db.connections > 0
      modifies this, db
      ensures !open && ok == takes && db.begun == old(db.begun)
      ensures db.connections == old(db.connections) - 1
      ensures db.endings == old(db.endings) + [Ending.Commit(id)]
      ensures db.data == if takes then ApplyAll(old(db.data), old(writes)) else old(db.data)
    {
      open := false;
      db.connections, db.endings := db.connections - 1, db.endings + [Ending.Commit(id)];
      if takes {
        db.data := ApplyAll(db.data, writes);
      }
      ok := takes;
    }

    method Rollback()
      requires open && db.connections > 0
      modifies this, db
      ensures !open && db.begun == old(db.begun) && db.data == old(db.data)
      ensures db.connections == old(db.connections) - 1
      ensures db.endings == old(db.endings) + [Ending.Rollback(id)]
    {
      open := false;
      db.connections, db.endings := db.connections - 1, db.endings + [Ending.Rollback(id)];
    }
  }

  /** Commit is attempted when the function returned nil, and also when it ended its goroutine: the named
      error is still nil then and there is no panic to see. */
  predicate AttemptsCommit(leaving: Leaving) {
    leaving.ReturnsNil? || leaving.ExitsGoroutine?
  }

  predicate TakesEffect(call: Call) {
    call.begins && AttemptsCommit(call.leaving) && call.commits
  }

  function ResultOf(call: Call): Result {
    if !call.begins then BeginFailed
    else match call.leaving
         case ReturnsNil => if call.commits then Succeeded else CommitFailed
         case ReturnsError(e) => FunctionFailed(e)
         case Panics(p) => Panicked(p)
         case ExitsGoroutine => Exited
  }

  /** WithTx: a begun transaction gets exactly one ending call, a Commit if the function returned nil and a Rollback
      if it returned an error or panicked, which is what the caller then sees; its connection goes back; and the data
      changes only by a commit that takes effect, which makes all the function's writes. */
  method WithTx(db: Database, call: Call) returns (r: Result)
    modifies db
    ensures r == ResultOf(call)
    ensures db.connections == old(db.connections)
    ensures db.begun == old(db.begun) + if call.begins then 1 else 0
    ensures db.endings == old(db.endings)
              + if !call.begins then []
                else if AttemptsCommit(call.leaving) then [Ending.Commit(old(db.begun))]
                else [Ending.Rollback(old(db.begun))]
    ensures db.data == if TakesEffect(call) then ApplyAll(old(db.data), call.writes) else old(db.data)
    ensures call.begins && call.leaving.ReturnsNil? ==> db.endings == old(db.endings) + [Ending.Commit(old(db.begun))]
    ensures call.begins && (call.leaving.ReturnsError? || call.leaving.Panics?) ==>
              db.endings == old(db.endings) + [Ending.Rollback(old(db.begun))] && db.data == old(db.data)
    ensures r == Succeeded <==> call.begins && call.leaving.ReturnsNil? && call.commits
    ensures r == Succeeded ==> Written(old(db.data), db.data, call.writes)
    ensures r.BeginFailed? <==> !call.begins
    ensures r.BeginFailed? || r.CommitFailed? ==> db.data == old(db.data)
    ensures call.begins && call.leaving.ReturnsError? ==> r == FunctionFailed(call.leaving.e)
    ensures call.begins && call.leaving.Panics? ==> r == Panicked(call.leaving.p)
    ensures call.begins && call.leaving.ExitsGoroutine? && call.commits ==> Written(old(db.data), db.data, call.writes)
  {
    ApplyAllWrites(db.data, call.writes);
    if !call.begins {
      return BeginFailed;
    }
    var tx := new Tx(db);
    tx.writes := call.writes;

    var err := match call.leaving case ReturnsError(e) => Some(e) case _ => None;
    // The deferred closure.
    if call.leaving.Panics? {
      tx.Rollback();
      return Panicked(call.leaving.p);
    }
    if err.Some? {
      tx.Rollback();
      return FunctionFailed(err.value);
    }
    var ok := tx.Commit(call.commits);
    if call.leaving.ExitsGoroutine? {
      return Exited;
    }
    r := if ok then Succeeded else CommitFailed;
  }

  /** The data after exactly the calls whose commit took effect. */
  function Fold(d: Data, calls: seq<Call>): Data {
    if calls == [] then d
    else
      var before, c := Fold(d, calls[..|calls| - 1]), calls[|calls| - 1];
      if TakesEffect(c) then ApplyAll(before, c.writes) else before
  }

  /** Transaction `i` was ended by the `i`-th ending call, so each exactly once. */
  ghost predicate Balanced(db: Database)
    reads db
  {
    |db.endings| == db.begun && forall i :: 0 <= i < |db.endings| ==> db.endings[i].tx == i
  }

  /** Any sequence of WithTx calls, each failing, panicking or succeeding as it may. */
  method RunAll(db: Database, calls: seq<Call>)
    requires Balanced(db)
    modifies db
    ensures Balanced(db) && db.connections == old(db.connections)
    ensures db.data == Fold(old(db.data), calls)
    ensures |db.endings| == |old(db.endings)| + Begun(calls)
  {
    for i := 0 to |calls|
      invariant Balanced(db) && db.connections == old(db.connections)
      invariant db.data == Fold(old(db.data), calls[..i])
      invariant |db.endings| == |old(db.endings)| + Begun(calls[..i])
    {
      var _ := WithTx(db, calls[i]);
      assert calls[..i + 1][..i] == calls[..i];
    }
    assert calls[..|calls|] == calls;
  }

  function Begun(calls: seq<Call>): nat {
    if calls == [] then 0 else Begun(calls[..|calls| - 1]) + if calls[|calls| - 1].begins then 1 else 0
  }

  function Effective(calls: seq<Call>): seq<Call> {
    if calls == [] then []
    else
      var c := calls[|calls| - 1];
      Effective(calls[..|calls| - 1]) + if TakesEffect(c) then [c] else []
  }

  /** Calls that fail, panic or do not commit leave no trace: the data is as if only the others ran, and
      every one of those reported success or ended its goroutine. */
  lemma {:induction false} FailedCallsLeaveNoTrace(d: Data, calls: seq<Call>)
    ensures Fold(d, calls) == Fold(d, Effective(calls))
    ensures forall c :: c in Effective(calls) ==> c in calls && (ResultOf(c) == Succeeded || ResultOf(c) == Exited)
  {
    if calls != [] {
      var n := |calls| - 1;
      FailedCallsLeaveNoTrace(d, calls[..n]);
      var before, c := Effective(calls[..n]), calls[n];
      assert c in calls && forall x :: x in calls[..n] ==> x in calls;
      if TakesEffect(c) {
        assert (before + [c])[..|before|] == before;
      } else {
        assert before + [] == before;
      }
    }
  }
}
