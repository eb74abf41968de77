/** What the monitor promises: `refresh` leaves no unqueued computation claiming to wait
    or work, `partition_by_state` puts each state in the bucket of its class and the
    counts add up to the number of states, and the resets and aborts touch exactly the
    selected positions. */
module MonitorFacts {
  import opened Common
  import opened States
  import opened StateFacts
  import opened Monitors

  // ---------------------------------------------------------------- refresh

  /** After `refresh` with the queued jobs known, a state that still claims to wait or work
      belongs to a queued computation; every state keeps its computation and progress, and
      a state that claimed nothing is kept as it was. */
  lemma RefreshSettles(loaded: seq<State>, upJobs: Option<seq<string>>)
    ensures var r := Refreshed(loaded, upJobs);
      (upJobs.None? ==> r == loaded) &&
      forall i :: 0 <= i < |r| ==>
        SameRun(loaded[i], r[i]) &&
        (upJobs.Some? && ClaimsUp(r[i]) ==> r[i].compName in upJobs.value) &&
        (!ClaimsUp(loaded[i]) ==> r[i] == loaded[i]) &&
        (upJobs.Some? && loaded[i].compName in upJobs.value ==> r[i] == loaded[i])
  {
  }

  /** Refreshing twice against the same queue is refreshing once. */
  lemma RefreshIdempotent(loaded: seq<State>, upJobs: Option<seq<string>>)
    ensures Refreshed(Refreshed(loaded, upJobs), upJobs) == Refreshed(loaded, upJobs)
  {
    var r := Refreshed(loaded, upJobs);
    if upJobs.Some? {
      forall i | 0 <= i < |r| ensures Refreshed(r, upJobs)[i] == r[i] {
        IsNotUpIdempotent(loaded[i]);
      }
    }
  }

  // ---------------------------------------------------------------- partition_by_state

  /** The states of one class are exactly the states with that name. */
  lemma {:induction false} OfNameMember(states: seq<State>, name: string, s: State)
    ensures s in OfName(states, name) <==> s in states && Name(s) == name
  {
    if states != [] {
      var n := |states| - 1;
      OfNameMember(states[..n], name, s);
      assert states == states[..n] + [states[n]];
    }
  }

  /** The buckets have distinct names. */
  lemma {:induction false} PartitionDistinct(states: seq<State>)
    ensures DistinctKeys(Partition(states))
  {
    if states != [] {
      var n := |states| - 1;
      PartitionDistinct(states[..n]);
      var d := Partition(states[..n]);
      PutFacts(d, Name(states[n]), Bucket(d, Name(states[n])) + [states[n]]);
    }
  }

  /** Each bucket holds the states of its class in their order, and a class has a bucket
      exactly when some state is of that class. */
  lemma {:induction false} PartitionBucket(states: seq<State>, name: string)
    ensures Bucket(Partition(states), name) == OfName(states, name)
    ensures HasKey(Partition(states), name) <==> OfName(states, name) != []
  {
    if states != [] {
      var n := |states| - 1;
      PartitionBucket(states[..n], name);
      var d := Partition(states[..n]);
      var k := Name(states[n]);
      PutFacts(d, k, Bucket(d, k) + [states[n]]);
      if k != name {
        assert OfName(states, name) == OfName(states[..n], name) + [];
      }
    }
  }

  /** Replacing one item changes the sum by the difference of the two terms. */
  lemma SumReplace<T>(d: seq<T>, p: nat, y: T, f: T -> int)
    requires p < |d|
    ensures SumOf(d[p := y], f) == SumOf(d, f) - f(d[p]) + f(y)
  {
    assert d == d[..p] + ([d[p]] + d[p + 1..]);
    assert d[p := y] == d[..p] + ([y] + d[p + 1..]);
    SumConcat(d[..p], [d[p]] + d[p + 1..], f);
    SumConcat(d[..p], [y] + d[p + 1..], f);
    SumConcat([d[p]], d[p + 1..], f);
    SumConcat([y], d[p + 1..], f);
    assert SumOf([d[p]], f) == f(d[p]) by { assert [d[p]][..0] == []; }
    assert SumOf([y], f) == f(y) by { assert [y][..0] == []; }
  }

  /** The size of one bucket. */
  function BucketSize(item: (string, seq<State>)): int {
    |item.1|
  }

  /** The buckets hold every state once. */
  lemma {:induction false} PartitionSize(states: seq<State>)
    ensures SumOf(Partition(states), BucketSize) == |states|
  {
    if states != [] {
      var n := |states| - 1;
      PartitionSize(states[..n]);
      var d := Partition(states[..n]);
      var k := Name(states[n]);
      var v := Bucket(d, k) + [states[n]];
      if HasKey(d, k) {
        var p := Common.Slot(d, k);
        assert Put(d, k, v) == d[p := (k, v)];
        SumReplace(d, p, (k, v), BucketSize);
      } else {
        SumConcat(d, [(k, v)], BucketSize);
        assert SumOf([(k, v)], BucketSize) == 1 by { assert [(k, v)][..0] == []; }
      }
    }
  }

  /** The counts of `count_by_state` add up to the number of states, and each is the
      number of states of its class. */
  lemma CountByStateSum(states: seq<State>)
    ensures var c := Counts(Partition(states));
      SumOf(c, (item: (string, nat)) => item.1 as int) == |states| &&
      DistinctKeys(c) &&
      forall name :: HasKey(c, name) ==> Get(c, name) == |OfName(states, name)|
  {
    var d := Partition(states);
    var c := Counts(d);
    PartitionSize(states);
    SumPointwise(c, (item: (string, nat)) => item.1 as int, d, BucketSize);
    PartitionDistinct(states);
    assert Keys(c) == Keys(d);
    forall name | HasKey(c, name) ensures Get(c, name) == |OfName(states, name)| {
      var p := Common.Slot(c, name);
      assert Common.Slot(d, name) == p;
      PartitionBucket(states, name);
    }
  }

  // ---------------------------------------------------------------- to_launchables

  /** Some listed index reaches position `j`. */
  predicate Hit(indices: seq<int>, n: int, j: int) {
    exists k :: 0 <= k < |indices| && InBounds(indices[k], n) && Position(indices[k], n) == j
  }

  /** `to_launchables` raises `IndexError` exactly when some index is out of bounds, and
      keeps the number of states either way. */
  lemma {:induction false} ResetEachErr(states: seq<State>, indices: seq<int>)
    ensures var (t, r) := ResetEach(states, indices);
      |t| == |states| &&
      (r.Err? <==> exists k :: 0 <= k < |indices| && !InBounds(indices[k], |states|)) &&
      (r.Err? ==> r.error == IndexError)
  {
    if indices != [] {
      var n := |indices| - 1;
      ResetEachErr(states, indices[..n]);
      var (t, r) := ResetEach(states, indices[..n]);
      if r.Err? {
        var k :| 0 <= k < n && !InBounds(indices[..n][k], |states|);
        assert !InBounds(indices[k], |states|);
      } else if InBounds(indices[n], |states|) {
        forall k | 0 <= k < |indices| ensures InBounds(indices[k], |states|) {
          if k < n {
            assert indices[k] == indices[..n][k];
          }
        }
      }
    }
  }

  /** When every index is in bounds, `to_launchables` resets exactly the listed positions,
      each once however often it is listed. */
  lemma {:induction false} ResetEachAt(states: seq<State>, indices: seq<int>, j: nat)
    requires forall k :: 0 <= k < |indices| ==> InBounds(indices[k], |states|)
    requires j < |states|
    ensures var (t, r) := ResetEach(states, indices);
      r.Ok? && |t| == |states| &&
      t[j] == if Hit(indices, |states|, j) then Reset(states[j]) else states[j]
  {
    ResetEachErr(states, indices);
    if indices != [] {
      var n := |indices| - 1;
      ResetEachAt(states, indices[..n], j);
      ResetEachErr(states, indices[..n]);
      var (t, r) := ResetEach(states, indices[..n]);
      var p := Position(indices[n], |states|);
      ResetForgets(states[j], "");
      if Hit(indices[..n], |states|, j) {
        var k :| 0 <= k < n && InBounds(indices[..n][k], |states|) && Position(indices[..n][k], |states|) == j;
        assert indices[k] == indices[..n][k];
      } else if p != j {
        forall k | 0 <= k < |indices| && InBounds(indices[k], |states|) ensures Position(indices[k], |states|) != j {
          if k < n {
            assert indices[k] == indices[..n][k];
          }
        }
      }
    }
  }

  /** `reset(from_state, predicate)` (and so `aborted_to_launchable`,
      `incomplete_to_launchable` and `to_launchable(comp_name)`) resets exactly the states
      of that class passing the predicate and leaves every other state as it was. */
  lemma ResetSelected(states: seq<State>, c: StateClass, pred: State -> bool, j: nat)
    requires j < |states|
    ensures var (t, r) := ResetEach(states, Indices(states, c, pred));
      r.Ok? && |t| == |states| &&
      t[j] == if IsInstance(states[j], c) && pred(states[j]) then Reset(states[j]) else states[j]
  {
    var idx := Indices(states, c, pred);
    ResetEachAt(states, idx, j);
    if IsInstance(states[j], c) && pred(states[j]) {
      var k :| 0 <= k < |idx| && idx[k] == j;
      assert InBounds(idx[k], |states|) && Position(idx[k], |states|) == j;
    }
  }

  // ---------------------------------------------------------------- abort

  /** The aborts replace exactly the listed positions. */
  lemma {:induction false} AbortEachAt(states: seq<State>, indices: seq<int>, e: Exception, j: nat)
    requires forall k :: 0 <= k < |indices| ==> 0 <= indices[k] < |states|
    requires j < |states|
    ensures AbortEach(states, indices, e)[j] == if j in indices then Abort(states[j], e) else states[j]
  {
    if indices != [] {
      var n := |indices| - 1;
      AbortEachAt(states, indices[..n], e, j);
      assert indices == indices[..n] + [indices[n]];
    }
  }

  /** `abort(exception, from_state, predicate)` aborts exactly the states of that class
      passing the predicate, keeping their computation and progress. */
  lemma AbortSelected(states: seq<State>, c: StateClass, pred: State -> bool, e: Exception, j: nat)
    requires j < |states|
    ensures var t := AbortEach(states, Indices(states, c, pred), e);
      |t| == |states| &&
      t[j] == if IsInstance(states[j], c) && pred(states[j]) then Abort(states[j], e) else states[j]
  {
    AbortEachAt(states, Indices(states, c, pred), e, j);
  }
}
