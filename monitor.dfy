/** `Monitor` (`clustertools/state.py`): the states of one experiment's computations and
    the list operations over them. The states the storage loads and the jobs the
    environment lists as queued are parameters; `update_state` of the pickle storage
    returns its argument, so writing a state back changes nothing here. */
module Monitors {
  import opened Common
  import opened States

  // ---------------------------------------------------------------- refresh

  /** The states `refresh` keeps: all of them when the environment cannot list its jobs,
      otherwise each one whose computation is not queued corrected by `is_not_up`. */
  function Refreshed(loaded: seq<State>, upJobs: Option<seq<string>>): (r: seq<State>)
    ensures |r| == |loaded|
  {
    if upJobs.None? then loaded
    else
      var queued := upJobs.value;
      seq(|loaded|, i requires 0 <= i < |loaded| =>
        if loaded[i].compName in queued then loaded[i] else IsNotUp(loaded[i]))
  }

  // ---------------------------------------------------------------- _filter

  /** The `state_cls` argument of `_filter`: `State`, `WorkingState` or one concrete class,
      given by its `get_name()`. */
  datatype StateClass = AnyState | WorkingState | Concrete(name: string)

  /** `isinstance(state, state_cls)`. */
  predicate IsInstance(s: State, c: StateClass) {
    match c
    case AnyState => true
    case WorkingState => IsWorking(s)
    case Concrete(n) => Name(s) == n
  }

  /** `_indices(state_cls, predicate)`: the positions whose state passes, in order. */
  function Indices(states: seq<State>, c: StateClass, pred: State -> bool): (r: seq<int>)
    ensures forall k :: 0 <= k < |r| ==> 0 <= r[k] < |states|
    ensures forall k, l :: 0 <= k < l < |r| ==> r[k] < r[l]
    ensures forall i :: i in r <==> 0 <= i < |states| && IsInstance(states[i], c) && pred(states[i])
  {
    if states == [] then []
    else
      var n := |states| - 1;
      var front := Indices(states[..n], c, pred);
      assert forall i :: 0 <= i < n ==> states[..n][i] == states[i];
      front + (if IsInstance(states[n], c) && pred(states[n]) then [n] else [])
  }

  /** The names of the computations in states of class `c`. */
  function NamesIn(states: seq<State>, c: StateClass): (r: set<string>)
    ensures forall x :: x in r <==> exists i :: 0 <= i < |states| && IsInstance(states[i], c) && states[i].compName == x
  {
    var idx := Indices(states, c, s => true);
    var r := set k | 0 <= k < |idx| :: states[idx[k]].compName;
    assert forall i :: 0 <= i < |states| && IsInstance(states[i], c) ==> exists k :: 0 <= k < |idx| && idx[k] == i;
    r
  }

  /** `unlaunchable_comp_names()`: the names of the states whose computation is not among
      the launchable ones. */
  function Unlaunchable(states: seq<State>): set<string> {
    var launchables := NamesIn(states, Concrete(LAUNCHABLE));
    var idx := Indices(states, AnyState, (s: State) => s.compName !in launchables);
    set k | 0 <= k < |idx| :: states[idx[k]].compName
  }

  /** A name is unlaunchable exactly when some state has it and none of its states is
      launchable. */
  lemma UnlaunchableMember(states: seq<State>, x: string)
    ensures x in Unlaunchable(states) <==>
      (exists i :: 0 <= i < |states| && states[i].compName == x) &&
      (forall i :: 0 <= i < |states| && states[i].compName == x ==> !states[i].Launchable?)
  {
    if x in Unlaunchable(states) {
      UnlaunchableSound(states, x);
    }
    if exists i :: 0 <= i < |states| && states[i].compName == x {
      var i :| 0 <= i < |states| && states[i].compName == x;
      if forall j :: 0 <= j < |states| && states[j].compName == x ==> !states[j].Launchable? {
        UnlaunchableComplete(states, x, i);
      }
    }
  }

  lemma UnlaunchableSound(states: seq<State>, x: string)
    requires x in Unlaunchable(states)
    ensures exists i :: 0 <= i < |states| && states[i].compName == x
    ensures forall i :: 0 <= i < |states| && states[i].compName == x ==> !states[i].Launchable?
  {
    var launchables := NamesIn(states, Concrete(LAUNCHABLE));
    var idx := Indices(states, AnyState, (s: State) => s.compName !in launchables);
    var k :| 0 <= k < |idx| && states[idx[k]].compName == x;
    assert idx[k] in idx;
    assert x !in launchables;
    forall i | 0 <= i < |states| && states[i].compName == x ensures !states[i].Launchable? {
      assert IsInstance(states[i], Concrete(LAUNCHABLE)) <==> states[i].Launchable?;
    }
  }

  lemma UnlaunchableComplete(states: seq<State>, x: string, i: nat)
    requires i < |states| && states[i].compName == x
    requires forall j :: 0 <= j < |states| && states[j].compName == x ==> !states[j].Launchable?
    ensures x in Unlaunchable(states)
  {
    var launchables := NamesIn(states, Concrete(LAUNCHABLE));
    var idx := Indices(states, AnyState, (s: State) => s.compName !in launchables);
    assert x !in launchables;
    assert i in idx;
    var k :| 0 <= k < |idx| && idx[k] == i;
    assert states[idx[k]].compName == x;
  }

  // ---------------------------------------------------------------- partition_by_state

  /** The bucket of `name`, or an empty list. */
  function Bucket(d: Dict<string, seq<State>>, name: string): seq<State> {
    if HasKey(d, name) then Get(d, name) else []
  }

  /** `partition_by_state()`: each state appended to the list of its `get_name()`. */
  function Partition(states: seq<State>): Dict<string, seq<State>> {
    if states == [] then []
    else
      var n := |states| - 1;
      var d := Partition(states[..n]);
      Put(d, Name(states[n]), Bucket(d, Name(states[n])) + [states[n]])
  }

  /** The states of one class, in order. */
  function OfName(states: seq<State>, name: string): (r: seq<State>)
    ensures |r| <= |states|
  {
    if states == [] then []
    else
      var n := |states| - 1;
      OfName(states[..n], name) + (if Name(states[n]) == name then [states[n]] else [])
  }

  /** `count_by_state()`: the length of each bucket. */
  function Counts(d: Dict<string, seq<State>>): (r: Dict<string, nat>)
    ensures |r| == |d| && forall i :: 0 <= i < |d| ==> r[i] == (d[i].0, |d[i].1|)
  {
    seq(|d|, i requires 0 <= i < |d| => (d[i].0, |d[i].1|))
  }

  // ---------------------------------------------------------------- to_launchables and abort

  /** Python's `xs[index]` bounds: a negative index counts from the end. */
  predicate InBounds(index: int, n: int) {
    -n <= index < n
  }

  /** The position `xs[index]` reaches. */
  function Position(index: int, n: int): (p: nat)
    requires InBounds(index, n)
    ensures p < n
  {
    if index < 0 then index + n else index
  }

  /** `to_launchables(indices)`: reset each listed position in turn; an index out of bounds
      raises `IndexError` with the earlier positions already reset. */
  function ResetEach(states: seq<State>, indices: seq<int>): (seq<State>, Result<()>) {
    if indices == [] then (states, Ok(()))
    else
      var n := |indices| - 1;
      var (t, r) := ResetEach(states, indices[..n]);
      if r.Err? then (t, r)
      else if !InBounds(indices[n], |t|) then (t, Err(IndexError))
      else
        var p := Position(indices[n], |t|);
        (t[p := Reset(t[p])], Ok(()))
  }

  /** The loop of `abort`: each listed position replaced by its aborted state. */
  function AbortEach(states: seq<State>, indices: seq<int>, e: Exception): (r: seq<State>)
    requires forall k :: 0 <= k < |indices| ==> 0 <= indices[k] < |states|
    ensures |r| == |states|
  {
    if indices == [] then states
    else
      var n := |indices| - 1;
      var t := AbortEach(states, indices[..n], e);
      t[indices[n] := Abort(t[indices[n]], e)]
  }

  /** `range(len(self.states))` when no indices are given. */
  function AllIndices(n: nat): (r: seq<int>)
    ensures |r| == n && forall k :: 0 <= k < n ==> r[k] == k
  {
    seq(n, k requires 0 <= k < n => k)
  }

  // ---------------------------------------------------------------- the monitor

  class Monitor {
    var states: seq<State>

    /** `Monitor(exp_name)` with the loaded states and the queued jobs given. */
    constructor (loaded: seq<State>, upJobs: Option<seq<string>>)
      ensures states == Refreshed(loaded, upJobs)
    {
      states := [];
      new;
      Refresh(loaded, upJobs);
    }

    /** `refresh()`: reload, then correct each state whose computation is not queued. */
    method Refresh(loaded: seq<State>, upJobs: Option<seq<string>>)
      modifies this
      ensures states == Refreshed(loaded, upJobs)
    {
      if upJobs.None? {
        states := loaded;
        return;
      }
      states := [];
      var queued := upJobs.value;
      var i := 0;
      while i < |loaded|
        invariant i <= |loaded| && |states| == i
        invariant forall k :: 0 <= k < i ==> states[k] == Refreshed(loaded, upJobs)[k]
      {
        var state := loaded[i];
        if state.compName !in queued {
          state := IsNotUp(state);
        }
        states := states + [state];
        i := i + 1;
      }
    }

    /** `__len__`. */
    function Length(): (n: nat)
      reads this
      ensures n == |states|
    {
      |states|
    }

    /** `_indices(state_cls, predicate)`. */
    function IndicesOf(c: StateClass, pred: State -> bool): seq<int>
      reads this
    {
      Indices(states, c, pred)
    }

    /** `computation_names(state_cls)`. */
    function ComputationNames(c: StateClass): set<string>
      reads this
    {
      NamesIn(states, c)
    }

    /** `unlaunchable_comp_names()`. */
    function UnlaunchableCompNames(): set<string>
      reads this
    {
      Unlaunchable(states)
    }

    /** `partition_by_state()`: one pass appending each state to its class's list. */
    method PartitionByState() returns (byState: Dict<string, seq<State>>)
      ensures byState == Partition(states)
    {
      byState := [];
      var i := 0;
      while i < |states|
        invariant i <= |states| && byState == Partition(states[..i])
      {
        assert states[..i + 1][..i] == states[..i];
        var name := Name(states[i]);
        byState := Put(byState, name, Bucket(byState, name) + [states[i]]);
        i := i + 1;
      }
      assert states[..i] == states;
    }

    /** `count_by_state()`. */
    method CountByState() returns (counts: Dict<string, nat>)
      ensures counts == Counts(Partition(states))
    {
      var byState := PartitionByState();
      counts := Counts(byState);
    }

    /** `to_launchables(indices)`: every position when `indices` is None. */
    method ToLaunchables(indices: Option<seq<int>>) returns (r: Result<()>)
      modifies this
      ensures var idx := if indices.Some? then indices.value else AllIndices(|old(states)|);
        (states, r) == ResetEach(old(states), idx)
    {
      var idx := if indices.Some? then indices.value else AllIndices(|states|);
      ghost var s0 := states;
      var k := 0;
      r := Ok(());
      while k < |idx|
        invariant k <= |idx| && (states, r) == ResetEach(s0, idx[..k]) && r.Ok?
      {
        assert idx[..k + 1][..k] == idx[..k];
        var index := idx[k];
        if !(-|states| <= index < |states|) {
          r := Err(IndexError);
          assert (states, r) == ResetEach(s0, idx[..k + 1]);
          PrefixErr(s0, idx, k + 1);
          assert idx[..|idx|] == idx;
          return;
        }
        var p := if index < 0 then index + |states| else index;
        var state := states[p];
        states := states[p := States.Reset(state)];
        k := k + 1;
      }
      assert idx[..k] == idx;
    }

    /** `to_launchable(comp_name)`: reset every state of that computation. */
    method ToLaunchable(compName: string)
      modifies this
      ensures (states, Ok(())) == ResetEach(old(states), Indices(old(states), AnyState, (s: State) => s.compName == compName))
    {
      var idx := Indices(states, AnyState, (s: State) => s.compName == compName);
      ResetEachValid(states, idx);
      var r := ToLaunchables(Some(idx));
    }

    /** `reset(from_state, predicate)`. */
    method Reset(fromState: StateClass, pred: State -> bool)
      modifies this
      ensures (states, Ok(())) == ResetEach(old(states), Indices(old(states), fromState, pred))
    {
      var idx := Indices(states, fromState, pred);
      ResetEachValid(states, idx);
      var r := ToLaunchables(Some(idx));
    }

    /** `aborted_to_launchable(predicate)`. */
    method AbortedToLaunchable(pred: State -> bool)
      modifies this
      ensures (states, Ok(())) == ResetEach(old(states), Indices(old(states), Concrete(ABORTED), pred))
    {
      Reset(Concrete(ABORTED), pred);
    }

    /** `incomplete_to_launchable(predicate)`. */
    method IncompleteToLaunchable(pred: State -> bool)
      modifies this
      ensures (states, Ok(())) == ResetEach(old(states), Indices(old(states), Concrete(INCOMPLETE), pred))
    {
      Reset(Concrete(INCOMPLETE), pred);
    }

    /** `abort(exception, from_state, predicate)`. */
    method Abort(e: Exception, fromState: StateClass, pred: State -> bool)
      modifies this
      ensures states == AbortEach(old(states), Indices(old(states), fromState, pred), e)
    {
      var idx := Indices(states, fromState, pred);
      ghost var s0 := states;
      var k := 0;
      while k < |idx|
        invariant k <= |idx| && states == AbortEach(s0, idx[..k], e)
      {
        assert idx[..k + 1][..k] == idx[..k];
        var index := idx[k];
        var state := states[index];
        states := states[index := States.Abort(state, e)];
        k := k + 1;
      }
      assert idx[..k] == idx;
    }
  }

  /** Once `to_launchables` raises, later indices change nothing. */
  lemma {:induction false} PrefixErr(states: seq<State>, idx: seq<int>, k: nat)
    requires k <= |idx| && ResetEach(states, idx[..k]).1.Err?
    ensures ResetEach(states, idx) == ResetEach(states, idx[..k])
  {
    if k < |idx| {
      var n := |idx| - 1;
      assert idx[..n][..k] == idx[..k];
      PrefixErr(states, idx[..n], k);
      assert idx[..|idx|] == idx;
    } else {
      assert idx[..k] == idx;
    }
  }

  /** Resetting keeps the length, and indices within bounds never raise. */
  lemma {:induction false} ResetEachValid(states: seq<State>, idx: seq<int>)
    requires forall k :: 0 <= k < |idx| ==> 0 <= idx[k] < |states|
    ensures |ResetEach(states, idx).0| == |states| && ResetEach(states, idx).1.Ok?
  {
    if idx != [] {
      ResetEachValid(states, idx[..|idx| - 1]);
    }
  }
}
