/** The parameter sets of `clustertools/parameterset.py`. Each yields `(index, parameter
    dict)` pairs; the cartesian builder grows its stages, and two decorators filter and
    reorder a wrapped set. Python sets are duplicate-free lists and dicts keep insertion
    order (the file is Python 3). */
module ParamSets {
  import opened Common
  import opened Sorting
  import opened Values
  import opened Cartesian

  /** A parameter tuple: parameter name to value. */
  type ParamDict = Dict<string, Value>

  /** What a parameter set's `__iter__` yields, in order. */
  type Enumeration = seq<(int, ParamDict)>

  /** `[x for x in vals if x not in dom]`. */
  function Fresh<T(==,!new)>(vals: seq<T>, dom: seq<T>): (r: seq<T>)
    ensures forall x :: x in r <==> x in vals && x !in dom
    ensures NoDup(vals) ==> NoDup(r)
  {
    if vals == [] then []
    else (if vals[0] in dom then [] else [vals[0]]) + Fresh(vals[1..], dom)
  }

  /** `s.add(v)`. */
  function AddTo<T(==,!new)>(s: seq<T>, v: T): (r: seq<T>)
    ensures forall x :: x in r <==> x in s || x == v
    ensures NoDup(s) ==> NoDup(r)
  {
    if v in s then s else s + [v]
  }

  /** `s.update(t)`: each element of `t` added in turn. */
  function Union<T(==,!new)>(s: seq<T>, t: seq<T>): (r: seq<T>)
    ensures forall x :: x in r <==> x in s || x in t
    ensures NoDup(s) ==> NoDup(r)
  {
    if t == [] then s
    else
      var n := |t| - 1;
      var r := AddTo(Union(s, t[..n]), t[n]);
      assert forall x :: x in t <==> x in t[..n] || x == t[n] by {
        assert t == t[..n] + [t[n]];
      }
      r
  }

  /** `[(i, x) for i, x in enumerate(s)]`. */
  function Enumerate(s: seq<ParamDict>): (r: Enumeration)
    ensures |r| == |s| && forall i :: 0 <= i < |s| ==> r[i] == (i, s[i])
  {
    seq(|s|, i requires 0 <= i < |s| => (i, s[i]))
  }

  /** The indices of an enumeration, in order. */
  function IndexList(ys: Enumeration): (r: seq<int>)
    ensures |r| == |ys| && forall i :: 0 <= i < |ys| ==> r[i] == ys[i].0
  {
    seq(|ys|, i requires 0 <= i < |ys| => ys[i].0)
  }

  /** The pairs whose dict satisfies `keep`, in order. */
  function KeepIf(ys: Enumeration, keep: ParamDict -> bool): (r: Enumeration)
    ensures |r| <= |ys|
    ensures forall y :: y in r <==> y in ys && keep(y.1)
  {
    if ys == [] then []
    else
      var n := |ys| - 1;
      KeepIf(ys[..n], keep) + (if keep(ys[n].1) then [ys[n]] else [])
  }

  // ---------------------------------------------------------------- AbstractParameterSet

  /** Every named parameter holds a value of its set. */
  predicate Fits(d: ParamDict, kw: Dict<string, seq<Value>>) {
    forall i :: 0 <= i < |kw| ==> HasKey(d, kw[i].0) && Get(d, kw[i].0) in kw[i].1
  }

  /** The inner loop of `get_indices_with` on one dict: `Ok(false)` at the first named
      value outside its set, `KeyError` when a name it reaches is not in the dict. */
  function Matches(d: ParamDict, kw: Dict<string, seq<Value>>): (r: Result<bool>)
    ensures r == Ok(true) <==> Fits(d, kw)
    ensures r.Err? ==> r.error == KeyError && exists i :: 0 <= i < |kw| && !HasKey(d, kw[i].0)
    ensures (forall i :: 0 <= i < |kw| ==> HasKey(d, kw[i].0)) ==> r.Ok?
  {
    if kw == [] then Ok(true)
    else if !HasKey(d, kw[0].0) then Err(KeyError)
    else if Get(d, kw[0].0) !in kw[0].1 then Ok(false)
    else
      var r := Matches(d, kw[1..]);
      assert forall i :: 1 <= i < |kw| ==> kw[i] == kw[1..][i - 1];
      r
  }

  /** `list(ps.get_indices_with(**kw))` for a set that enumerates `ys`; the exception
      raised while walking the tuples, if any. */
  function IndicesWith(ys: Enumeration, kw: Dict<string, seq<Value>>): Result<seq<int>> {
    if ys == [] then Ok([])
    else
      var n := |ys| - 1;
      var front := IndicesWith(ys[..n], kw);
      var m := Matches(ys[n].1, kw);
      if front.Err? then front
      else if m.Err? then Err(m.error)
      else if m.value then Ok(front.value + [ys[n].0])
      else front
  }

  /** `ps[index]`: the dict of the first pair enumerated under `index`, else `KeyError`. */
  function ItemAt(ys: Enumeration, index: int): (r: Result<ParamDict>)
    ensures r.Err? ==> r.error == KeyError && forall i :: 0 <= i < |ys| ==> ys[i].0 != index
    ensures r.Ok? ==> exists i :: 0 <= i < |ys| && ys[i] == (index, r.value)
  {
    if ys == [] then Err(KeyError)
    else if ys[0].0 == index then Ok(ys[0].1)
    else
      var r := ItemAt(ys[1..], index);
      assert forall i :: 1 <= i < |ys| ==> ys[i] == ys[1..][i - 1];
      r
  }

  /** The loop over the names in `get_indices_with`, `yield_it` as its result. */
  method MatchesLoop(d: ParamDict, kw: Dict<string, seq<Value>>) returns (r: Result<bool>)
    ensures r == Matches(d, kw)
  {
    var k := 0;
    while k < |kw|
      invariant k <= |kw| && Matches(d, kw) == Matches(d, kw[k..])
    {
      var name := kw[k].0;
      if !HasKey(d, name) {
        return Err(KeyError);
      }
      if Get(d, name) !in kw[k].1 {
        return Ok(false);
      }
      assert kw[k..][1..] == kw[k + 1..];
      k := k + 1;
    }
    return Ok(true);
  }

  /** `AbstractParameterSet.get_indices_with`, collecting what it yields. */
  method GetIndicesWith(ys: Enumeration, kw: Dict<string, seq<Value>>) returns (r: Result<seq<int>>)
    ensures r == IndicesWith(ys, kw)
  {
    var out := [];
    var i := 0;
    while i < |ys|
      invariant i <= |ys| && IndicesWith(ys[..i], kw) == Ok(out)
    {
      assert ys[..i + 1][..i] == ys[..i];
      var yieldIt := MatchesLoop(ys[i].1, kw);
      if yieldIt.Err? {
        IndicesStuck(ys, kw, i + 1);
        return Err(yieldIt.error);
      }
      if yieldIt.value {
        out := out + [ys[i].0];
      }
      i := i + 1;
    }
    assert ys[..i] == ys;
    return Ok(out);
  }

  /** Once the walk has raised, the later tuples do not change the outcome. */
  lemma {:induction false} IndicesStuck(ys: Enumeration, kw: Dict<string, seq<Value>>, n: nat)
    requires 0 < n <= |ys| && IndicesWith(ys[..n], kw).Err?
    ensures IndicesWith(ys, kw) == IndicesWith(ys[..n], kw)
    decreases |ys| - n
  {
    if n < |ys| {
      assert ys[..n + 1][..n] == ys[..n];
      IndicesStuck(ys, kw, n + 1);
    } else {
      assert ys[..n] == ys;
    }
  }

  lemma IndexListConcat(a: Enumeration, b: Enumeration)
    ensures IndexList(a + b) == IndexList(a) + IndexList(b)
  {
  }

  /** `get_indices_with` raises, and raises `KeyError`, exactly when the check of some
      tuple reaches a name the tuple lacks. */
  lemma {:induction false} IndicesWithErr(ys: Enumeration, kw: Dict<string, seq<Value>>)
    ensures var r := IndicesWith(ys, kw);
      (r.Err? <==> exists i :: 0 <= i < |ys| && Matches(ys[i].1, kw).Err?) && (r.Err? ==> r.error == KeyError)
  {
    if ys != [] {
      var n := |ys| - 1;
      IndicesWithErr(ys[..n], kw);
      if IndicesWith(ys[..n], kw).Err? {
        var i :| 0 <= i < n && Matches(ys[..n][i].1, kw).Err?;
        assert ys[i] == ys[..n][i];
      } else if Matches(ys[n].1, kw).Ok? {
        forall i | 0 <= i < |ys| ensures Matches(ys[i].1, kw).Ok? {
          if i < n {
            assert ys[i] == ys[..n][i];
          }
        }
      }
    }
  }

  /** When `get_indices_with` does not raise, it yields, in order, the indices of the
      tuples whose named parameters each hold a value of their set. */
  lemma {:induction false} IndicesWithFits(ys: Enumeration, kw: Dict<string, seq<Value>>)
    ensures var r := IndicesWith(ys, kw);
      r.Ok? ==> r.value == IndexList(KeepIf(ys, d => Fits(d, kw)))
  {
    if ys != [] {
      var n := |ys| - 1;
      IndicesWithFits(ys[..n], kw);
      var m := Matches(ys[n].1, kw);
      var front := IndicesWith(ys[..n], kw);
      if front.Ok? && m.Ok? {
        var kept := KeepIf(ys[..n], d => Fits(d, kw));
        var tail := if m.value then [ys[n]] else [];
        assert m.value == Fits(ys[n].1, kw);
        assert KeepIf(ys, d => Fits(d, kw)) == kept + tail;
        if m.value {
          assert IndexList(tail) == [ys[n].0];
        } else {
          assert front.value + IndexList(tail) == front.value;
        }
        assert IndicesWith(ys, kw) == Ok(front.value + IndexList(tail));
        IndexListConcat(kept, tail);
      }
    }
  }

  /** `AbstractParameterSet.__getitem__`. */
  method GetItem(ys: Enumeration, index: int) returns (r: Result<ParamDict>)
    ensures r == ItemAt(ys, index)
  {
    var k := 0;
    while k < |ys|
      invariant k <= |ys| && ItemAt(ys, index) == ItemAt(ys[k..], index)
    {
      if ys[k].0 == index {
        return Ok(ys[k].1);
      }
      assert ys[k..][1..] == ys[k + 1..];
      k := k + 1;
    }
    return Err(KeyError);
  }

  // ---------------------------------------------------------------- ExplicitParameterSet

  /** `ExplicitParameterSet`: a FIFO queue of parameter dicts. */
  class ExplicitParameterSet {
    var queue: seq<ParamDict>

    /** `queue if queue is not None else []`. */
    constructor (queue: Option<seq<ParamDict>>)
      ensures this.queue == (if queue.Some? then queue.value else [])
    {
      this.queue := if queue.Some? then queue.value else [];
    }

    /** `add_parameter_tuple(**kwargs)`. */
    method AddParameterTuple(kwargs: ParamDict)
      modifies this
      ensures queue == old(queue) + [kwargs]
    {
      queue := queue + [kwargs];
    }

    function Length(): nat
      reads this
    {
      |queue|
    }

    /** `list(iter(self))`: the queue in insertion order, numbered from 0. */
    function Iter(): Enumeration
      reads this
    {
      Enumerate(queue)
    }
  }

  // ---------------------------------------------------------------- CartesianParameterSet

  /** One stage of `param_map_seq`: parameter name to its set of values. */
  type Stage = Dict<string, seq<Value>>

  /** `param_map[name]` on a `defaultdict(set)`. */
  function Members(m: Stage, name: string): seq<Value> {
    if HasKey(m, name) then Get(m, name) else []
  }

  /** `param_map[name].add(v)`. */
  function AddValue(m: Stage, name: string, v: Value): Stage {
    Put(m, name, AddTo(Members(m, name), v))
  }

  /** A dict of sets: distinct keys, duplicate-free values. */
  predicate StageOk(m: Stage) {
    DistinctKeys(m) && forall i :: 0 <= i < |m| ==> NoDup(m[i].1)
  }

  /** A `CartesianParameterSet`'s state: `param_map_seq` and `parameter_names`. */
  datatype Builder = Builder(stages: seq<Stage>, names: seq<string>)

  /** There is a stage, every stage is a dict of sets and the names are a set. */
  predicate WellFormed(b: Builder) {
    |b.stages| >= 1 && NoDup(b.names) && forall s :: 0 <= s < |b.stages| ==> StageOk(b.stages[s])
  }

  /** `parameter_names` holds exactly the keys of the stages. */
  ghost predicate Synced(b: Builder) {
    forall x :: x in b.names <==> exists s :: 0 <= s < |b.stages| && HasKey(b.stages[s], x)
  }

  /** `set().update(keys)` for every stage in turn. */
  function NamesOf(stages: seq<Stage>): (ns: seq<string>)
    ensures NoDup(ns)
    ensures forall x :: x in ns <==> exists s :: 0 <= s < |stages| && HasKey(stages[s], x)
  {
    if stages == [] then []
    else
      var n := |stages| - 1;
      var front := NamesOf(stages[..n]);
      assert forall s :: 0 <= s < n ==> stages[..n][s] == stages[s];
      Union(front, Keys(stages[n]))
  }

  /** `CartesianParameterSet(param_map_seq)`: an empty sequence gives one empty stage. */
  function Init(paramMapSeq: seq<Stage>): Builder {
    var stages := if paramMapSeq == [] then [[]] else paramMapSeq;
    Builder(stages, NamesOf(stages))
  }

  /** One binding of `add_single_values`: a new name is refused once a separator exists. */
  function AddSingle(b: Builder, name: string, v: Value): (Builder, Result<()>)
    requires |b.stages| >= 1
  {
    var n := |b.stages| - 1;
    if name !in b.names && n != 0 then (b, Err(ValueError))
    else
      (Builder(b.stages[n := AddValue(b.stages[n], name, v)], AddTo(b.names, name)), Ok(()))
  }

  /** `add_single_values(**kwargs)`: the bindings in order; the state reached when one raises. */
  function AddSingles(b: Builder, kwargs: ParamDict): (Builder, Result<()>)
    requires |b.stages| >= 1
  {
    if kwargs == [] then (b, Ok(()))
    else
      var n := |kwargs| - 1;
      var (c, r) := AddSingles(b, kwargs[..n]);
      if r.Err? || |c.stages| == 0 then (c, r) else AddSingle(c, kwargs[n].0, kwargs[n].1)
  }

  /** How `add_parameters` reads one argument: a string or a non-iterable is one value,
      a tuple is its items. */
  function ValuesOf(v: Value): seq<Value> {
    match v
    case Tuple(items) => items
    case _ => [v]
  }

  /** `self.add_single_values(**{name: val})` for each value in turn. */
  function AddEach(b: Builder, name: string, vals: seq<Value>): (Builder, Result<()>)
    requires |b.stages| >= 1
  {
    if vals == [] then (b, Ok(()))
    else
      var n := |vals| - 1;
      var (c, r) := AddEach(b, name, vals[..n]);
      if r.Err? || |c.stages| == 0 then (c, r) else AddSingle(c, name, vals[n])
  }

  /** `add_parameters(**kwargs)`. */
  function AddParams(b: Builder, kwargs: ParamDict): (Builder, Result<()>)
    requires |b.stages| >= 1
  {
    if kwargs == [] then (b, Ok(()))
    else
      var n := |kwargs| - 1;
      var (c, r) := AddParams(b, kwargs[..n]);
      if r.Err? || |c.stages| == 0 then (c, r) else AddEach(c, kwargs[n].0, ValuesOf(kwargs[n].1))
  }

  /** The first loop of `add_separator`: register each name, raising on a known one. */
  function Register(names: seq<string>, keys: seq<string>): (seq<string>, Result<()>) {
    if keys == [] then (names, Ok(()))
    else
      var n := |keys| - 1;
      var (ns, r) := Register(names, keys[..n]);
      if r.Err? then (ns, r)
      else if keys[n] in ns then (ns, Err(ValueError))
      else (ns + [keys[n]], Ok(()))
  }

  /** `param_map[name].add(value)` for each binding in turn. */
  function AddDefaults(m: Stage, kwargs: ParamDict): Stage {
    if kwargs == [] then m
    else
      var n := |kwargs| - 1;
      AddValue(AddDefaults(m, kwargs[..n]), kwargs[n].0, kwargs[n].1)
  }

  /** `add_separator(**kwargs)`: defaults join stage 0, then a new empty stage begins. */
  function WithSeparator(b: Builder, kwargs: ParamDict): (Builder, Result<()>)
    requires |b.stages| >= 1
  {
    var (ns, r) := Register(b.names, Keys(kwargs));
    if r.Err? then (Builder(b.stages, ns), r)
    else (Builder(b.stages[0 := AddDefaults(b.stages[0], kwargs)] + [[]], ns), Ok(()))
  }

  /** `domains[name].update(param_domain)` for every item of one stage. */
  function MergeStage(d: Stage, m: Stage): Stage {
    if m == [] then d
    else
      var n := |m| - 1;
      var e := MergeStage(d, m[..n]);
      Put(e, m[n].0, Union(Members(e, m[n].0), m[n].1))
  }

  /** The `domains` dict of `__len__`: every stage merged in turn. */
  function Merged(stages: seq<Stage>): Stage {
    if stages == [] then []
    else
      var n := |stages| - 1;
      MergeStage(Merged(stages[..n]), stages[n])
  }

  function DomainSizes(d: Stage): (r: seq<nat>)
    ensures |r| == |d| && forall i :: 0 <= i < |d| ==> r[i] == |d[i].1|
  {
    seq(|d|, i requires 0 <= i < |d| => |d[i].1|)
  }

  /** `CartesianParameterSet.__len__`. */
  function LenOf(stages: seq<Stage>): nat {
    Product(DomainSizes(Merged(stages)))
  }

  /** Tuples yielded so far by `_iter`, and its `domains` list (one list per sorted name). */
  datatype Walked = Walked(tuples: seq<seq<Value>>, domains: seq<seq<Value>>)

  /** `domains` as `_iter` first builds it: stage 0's values of each name, sorted. */
  function FirstDomains(m: Stage, sn: seq<string>): (ds: seq<seq<Value>>)
    ensures |ds| == |sn| && forall i :: 0 <= i < |sn| ==> ds[i] == Sorted(Members(m, sn[i]))
  {
    seq(|sn|, i requires 0 <= i < |sn| => Sorted(Members(m, sn[i])))
  }

  /** `new_values`: the stage's values for a name that the domain lacks, sorted. */
  function NewValues(m: Stage, name: string, dom: seq<Value>): seq<Value>
    requires HasKey(m, name)
  {
    Sorted(Fresh(Get(m, name), dom))
  }

  /** One later stage `m` of `_iter` over the names `sn[..k]`: for each name the stage
      holds, the product with that name narrowed to its new values, then the domain grows. */
  function StagePass(ds: seq<seq<Value>>, m: Stage, sn: seq<string>, k: nat): (w: Walked)
    requires |ds| == |sn| && k <= |sn|
    ensures |w.domains| == |sn|
  {
    if k == 0 then Walked([], ds)
    else
      var p := StagePass(ds, m, sn, k - 1);
      if !HasKey(m, sn[k - 1]) then p
      else
        var es := p.domains;
        var nv := NewValues(m, sn[k - 1], es[k - 1]);
        Walked(p.tuples + Cart(es[k - 1 := nv]), es[k - 1 := es[k - 1] + nv])
  }

  /** `_iter` through the stages `stages[..n]`: stage 0's product, then each later pass. */
  function WalkTo(stages: seq<Stage>, sn: seq<string>, n: nat): (w: Walked)
    requires 1 <= n <= |stages|
    ensures |w.domains| == |sn|
  {
    if n == 1 then
      var ds := FirstDomains(stages[0], sn);
      Walked(Cart(ds), ds)
    else
      var w := WalkTo(stages, sn, n - 1);
      var p := StagePass(w.domains, stages[n - 1], sn, |sn|);
      Walked(w.tuples + p.tuples, p.domains)
  }

  /** The value tuples `_iter` yields, over the sorted names. */
  function IterTuples(b: Builder): seq<seq<Value>>
    requires |b.stages| >= 1
  {
    WalkTo(b.stages, SortedText(b.names), |b.stages|).tuples
  }

  /** `{k: t for k, t in zip(names, t)}` for distinct names. */
  function Bind(names: seq<string>, t: seq<Value>): ParamDict {
    var n := if |names| <= |t| then |names| else |t|;
    seq(n, i requires 0 <= i < n => (names[i], t[i]))
  }

  /** `list(iter(ps))`: the tuples of `_iter`, bound to the sorted names and numbered. */
  function IterOf(b: Builder): Enumeration
    requires |b.stages| >= 1
  {
    var sn := SortedText(b.names);
    var ts := IterTuples(b);
    seq(|ts|, i requires 0 <= i < |ts| => (i, Bind(sn, ts[i])))
  }

  /** `CartesianParameterSet`, whose methods are proved against the functions above. */
  class CartesianParameterSet {
    var stages: seq<Stage>
    var names: seq<string>

    function View(): Builder
      reads this
    {
      Builder(stages, names)
    }

    ghost predicate Valid()
      reads this
    {
      WellFormed(View())
    }

    /** `__init__`: the names are collected from every stage. */
    constructor (paramMapSeq: seq<Stage>)
      requires forall s :: 0 <= s < |paramMapSeq| ==> StageOk(paramMapSeq[s])
      ensures View() == Init(paramMapSeq) && Valid()
    {
      var st := if paramMapSeq == [] then [[]] else paramMapSeq;
      var ns := CollectNames(st);
      stages, names := st, ns;
    }

    /** `add_single_values(**kwargs)`. */
    method AddSingleValues(kwargs: ParamDict) returns (r: Result<()>)
      requires Valid()
      modifies this
      ensures (View(), r) == AddSingles(old(View()), kwargs)
    {
      ghost var b0 := View();
      var i := 0;
      while i < |kwargs|
        invariant i <= |kwargs| && |stages| == |b0.stages|
        invariant AddSingles(b0, kwargs[..i]) == (View(), Ok(()))
      {
        assert kwargs[..i + 1][..i] == kwargs[..i];
        var (name, v) := kwargs[i];
        var last := |stages| - 1;
        if name !in names {
          if last != 0 {
            AddSinglesStuck(b0, kwargs, i + 1);
            return Err(ValueError);
          }
          names := names + [name];
        }
        stages := stages[last := AddValue(stages[last], name, v)];
        i := i + 1;
      }
      assert kwargs[..i] == kwargs;
      return Ok(());
    }

    /** `add_parameters(**kwargs)`. */
    method AddParameters(kwargs: ParamDict) returns (r: Result<()>)
      requires Valid()
      modifies this
      ensures (View(), r) == AddParams(old(View()), kwargs)
    {
      ghost var b0 := View();
      var i := 0;
      while i < |kwargs|
        invariant i <= |kwargs| && |stages| == |b0.stages|
        invariant AddParams(b0, kwargs[..i]) == (View(), Ok(()))
      {
        assert kwargs[..i + 1][..i] == kwargs[..i];
        var (name, v) := kwargs[i];
        var added := AddValues(name, ValuesOf(v));
        if added.Err? {
          AddParamsStuck(b0, kwargs, i + 1);
          return added;
        }
        i := i + 1;
      }
      assert kwargs[..i] == kwargs;
      return Ok(());
    }

    /** The loop of `add_parameters` over one argument's values. */
    method AddValues(name: string, values: seq<Value>) returns (r: Result<()>)
      requires |stages| >= 1
      modifies this
      ensures (View(), r) == AddEach(old(View()), name, values)
      ensures |stages| == |old(stages)|
    {
      ghost var c := View();
      var k := 0;
      while k < |values|
        invariant k <= |values| && |stages| == |c.stages|
        invariant AddEach(c, name, values[..k]) == (View(), Ok(()))
      {
        assert values[..k + 1][..k] == values[..k];
        var last := |stages| - 1;
        if name !in names {
          if last != 0 {
            AddEachStuck(c, name, values, k + 1);
            return Err(ValueError);
          }
          names := names + [name];
        }
        stages := stages[last := AddValue(stages[last], name, values[k])];
        k := k + 1;
      }
      assert values[..k] == values;
      return Ok(());
    }

    /** `add_separator(**kwargs)`. */
    method AddSeparator(kwargs: ParamDict) returns (r: Result<()>)
      requires Valid()
      modifies this
      ensures (View(), r) == WithSeparator(old(View()), kwargs)
    {
      ghost var b0 := View();
      var keys := Keys(kwargs);
      var i := 0;
      while i < |keys|
        invariant i <= |keys| && stages == b0.stages
        invariant Register(b0.names, keys[..i]) == (names, Ok(()))
      {
        assert keys[..i + 1][..i] == keys[..i];
        if keys[i] in names {
          RegisterStuck(b0.names, keys, i + 1);
          return Err(ValueError);
        }
        names := names + [keys[i]];
        i := i + 1;
      }
      assert keys[..i] == keys;
      var m := stages[0];
      var j := 0;
      while j < |kwargs|
        invariant j <= |kwargs| && m == AddDefaults(stages[0], kwargs[..j])
      {
        assert kwargs[..j + 1][..j] == kwargs[..j];
        m := AddValue(m, kwargs[j].0, kwargs[j].1);
        j := j + 1;
      }
      assert kwargs[..j] == kwargs;
      stages := stages[0 := m] + [[]];
      return Ok(());
    }

    /** `__len__`. */
    method Length() returns (nb: nat)
      ensures nb == LenOf(stages)
    {
      var domains: Stage := [];
      var s := 0;
      while s < |stages|
        invariant s <= |stages| && domains == Merged(stages[..s])
      {
        assert stages[..s + 1][..s] == stages[..s];
        domains := MergeLoop(domains, stages[s]);
        s := s + 1;
      }
      assert stages[..s] == stages;
      nb := SizeProduct(domains);
    }

    /** `list(iter(self))`. */
    function Iter(): Enumeration
      reads this
      requires |stages| >= 1
    {
      IterOf(View())
    }
  }

  /** The loop of `__init__` gathering `parameter_names`. */
  method CollectNames(stages: seq<Stage>) returns (ns: seq<string>)
    ensures ns == NamesOf(stages)
  {
    ns := [];
    var s := 0;
    while s < |stages|
      invariant s <= |stages| && ns == NamesOf(stages[..s])
    {
      assert stages[..s + 1][..s] == stages[..s];
      ns := Update(ns, Keys(stages[s]));
      s := s + 1;
    }
    assert stages[..s] == stages;
  }

  lemma {:induction false} AddSinglesStuck(b: Builder, kwargs: ParamDict, n: nat)
    requires |b.stages| >= 1 && 0 < n <= |kwargs| && AddSingles(b, kwargs[..n]).1.Err?
    ensures AddSingles(b, kwargs) == AddSingles(b, kwargs[..n])
    decreases |kwargs| - n
  {
    if n < |kwargs| {
      assert kwargs[..n + 1][..n] == kwargs[..n];
      AddSinglesStuck(b, kwargs, n + 1);
    } else {
      assert kwargs[..n] == kwargs;
    }
  }

  lemma {:induction false} AddEachStuck(b: Builder, name: string, vals: seq<Value>, n: nat)
    requires |b.stages| >= 1 && 0 < n <= |vals| && AddEach(b, name, vals[..n]).1.Err?
    ensures AddEach(b, name, vals) == AddEach(b, name, vals[..n])
    decreases |vals| - n
  {
    if n < |vals| {
      assert vals[..n + 1][..n] == vals[..n];
      AddEachStuck(b, name, vals, n + 1);
    } else {
      assert vals[..n] == vals;
    }
  }

  lemma {:induction false} AddParamsStuck(b: Builder, kwargs: ParamDict, n: nat)
    requires |b.stages| >= 1 && 0 < n <= |kwargs| && AddParams(b, kwargs[..n]).1.Err?
    ensures AddParams(b, kwargs) == AddParams(b, kwargs[..n])
    decreases |kwargs| - n
  {
    if n < |kwargs| {
      assert kwargs[..n + 1][..n] == kwargs[..n];
      AddParamsStuck(b, kwargs, n + 1);
    } else {
      assert kwargs[..n] == kwargs;
    }
  }

  lemma {:induction false} RegisterStuck(names: seq<string>, keys: seq<string>, n: nat)
    requires 0 < n <= |keys| && Register(names, keys[..n]).1.Err?
    ensures Register(names, keys) == Register(names, keys[..n])
    decreases |keys| - n
  {
    if n < |keys| {
      assert keys[..n + 1][..n] == keys[..n];
      RegisterStuck(names, keys, n + 1);
    } else {
      assert keys[..n] == keys;
    }
  }

  /** The last loop of `__len__`: `nb *= len(val)` over the merged domains. */
  method SizeProduct(domains: Stage) returns (nb: nat)
    ensures nb == Product(DomainSizes(domains))
  {
    nb := 1;
    var i := 0;
    while i < |domains|
      invariant i <= |domains| && nb == Product(DomainSizes(domains)[..i])
    {
      assert DomainSizes(domains)[..i + 1] == DomainSizes(domains)[..i] + [|domains[i].1|];
      ProductAppend(DomainSizes(domains)[..i], |domains[i].1|);
      nb := nb * |domains[i].1|;
      i := i + 1;
    }
    assert DomainSizes(domains)[..i] == DomainSizes(domains);
  }

  /** `s.update(t)` as a loop. */
  method Update<T(==,!new)>(s: seq<T>, t: seq<T>) returns (r: seq<T>)
    ensures r == Union(s, t)
  {
    r := s;
    var k := 0;
    while k < |t|
      invariant k <= |t| && r == Union(s, t[..k])
    {
      assert t[..k + 1][..k] == t[..k];
      r := AddTo(r, t[k]);
      k := k + 1;
    }
    assert t[..k] == t;
  }

  /** The inner loop of `__len__`: `domains[name].update(param_domain)` for each item. */
  method MergeLoop(d: Stage, m: Stage) returns (domains: Stage)
    ensures domains == MergeStage(d, m)
  {
    domains := d;
    var k := 0;
    while k < |m|
      invariant k <= |m| && domains == MergeStage(d, m[..k])
    {
      assert m[..k + 1][..k] == m[..k];
      var (name, vals) := m[k];
      var merged := Update(Members(domains, name), vals);
      domains := Put(domains, name, merged);
      k := k + 1;
    }
    assert m[..k] == m;
  }

  // ---------------------------------------------------------------- ConstrainedParameterSet

  /** A constraint: a predicate on the detupled parameter dict. */
  type Constraint = ParamDict -> bool

  /** Every constraint of every filter holds. */
  predicate Admits(filters: Dict<string, seq<Constraint>>, d: ParamDict) {
    forall i, j :: 0 <= i < |filters| && 0 <= j < |filters[i].1| ==> filters[i].1[j](d)
  }

  /** `self.filters[k].append(v)` for each constraint in turn. */
  function AddConstraintsTo(filters: Dict<string, seq<Constraint>>, kwargs: Dict<string, Constraint>): Dict<string, seq<Constraint>> {
    if kwargs == [] then filters
    else
      var n := |kwargs| - 1;
      var f := AddConstraintsTo(filters, kwargs[..n]);
      Put(f, kwargs[n].0, (if HasKey(f, kwargs[n].0) then Get(f, kwargs[n].0) else []) + [kwargs[n].1])
  }

  /** `ConstrainedParameterSet`; the wrapped set is given by what it enumerates. */
  class ConstrainedParameterSet {
    var filters: Dict<string, seq<Constraint>>

    /** `__init__(param_set, filters)`: no filters gives an empty `defaultdict(list)`. */
    constructor (filters: Option<Dict<string, seq<Constraint>>>)
      ensures this.filters == (if filters.Some? then filters.value else [])
    {
      this.filters := if filters.Some? then filters.value else [];
    }

    /** `add_constraints(**kwargs)`. */
    method AddConstraints(kwargs: Dict<string, Constraint>)
      modifies this
      ensures filters == AddConstraintsTo(old(filters), kwargs)
    {
      ghost var f0 := filters;
      var i := 0;
      while i < |kwargs|
        invariant i <= |kwargs| && filters == AddConstraintsTo(f0, kwargs[..i])
      {
        assert kwargs[..i + 1][..i] == kwargs[..i];
        var (k, v) := kwargs[i];
        var current := if HasKey(filters, k) then Get(filters, k) else [];
        filters := Put(filters, k, current + [v]);
        i := i + 1;
      }
      assert kwargs[..i] == kwargs;
    }

    /** `list(iter(self))` when the wrapped set enumerates `inner`. */
    function Iter(inner: Enumeration): Enumeration
      reads this
    {
      var f := filters;
      KeepIf(inner, d => Admits(f, d))
    }

    /** The two loops of `__iter__` on one dict: `yield_it`. */
    method Allowed(d: ParamDict) returns (yieldIt: bool)
      ensures yieldIt == Admits(filters, d)
    {
      yieldIt := true;
      var i := 0;
      while i < |filters|
        invariant i <= |filters|
        invariant yieldIt <==> forall a, j :: 0 <= a < i && 0 <= j < |filters[a].1| ==> filters[a].1[j](d)
      {
        var constraints := filters[i].1;
        var j := 0;
        while j < |constraints|
          invariant j <= |constraints|
          invariant yieldIt <==> (forall a, c :: 0 <= a < i && 0 <= c < |filters[a].1| ==> filters[a].1[c](d)) &&
                                 forall c :: 0 <= c < j ==> constraints[c](d)
        {
          if !constraints[j](d) {
            yieldIt := false;
            break;
          }
          j := j + 1;
        }
        i := i + 1;
      }
    }

    /** `__len__`: counts what `__iter__` yields. */
    method Length(inner: Enumeration) returns (n: nat)
      ensures n == |Iter(inner)|
    {
      var f := filters;
      n := 0;
      var k := 0;
      while k < |inner|
        invariant k <= |inner| && n == |KeepIf(inner[..k], d => Admits(f, d))|
      {
        assert inner[..k + 1][..k] == inner[..k];
        var ok := Allowed(inner[k].1);
        if ok {
          n := n + 1;
        }
        k := k + 1;
      }
      assert inner[..k] == inner;
    }
  }

  // ---------------------------------------------------------------- PrioritizedParamSet

  /** `2**e` for an integer exponent, as Python computes it (a fraction below zero). */
  function Pow2Real(e: int): (r: real)
    ensures r > 0.0
  {
    if e >= 0 then Pow2(e) as real else 1.0 / Pow2(-e) as real
  }

  /** The weight one binding adds: `2**(n_priorities - p - 1)` when it has a rank `p >= 0`. */
  function Weight(priorities: Dict<(string, Value), int>, count: int, item: (string, Value)): real {
    var p := if HasKey(priorities, item) then Get(priorities, item) else -1;
    if p >= 0 then Pow2Real(count - p - 1) else 0.0
  }

  /** `get_priority(param_dict)`: the weights of the dict's bindings summed in order. */
  function Priority(priorities: Dict<(string, Value), int>, count: int, d: ParamDict): real {
    if d == [] then 0.0
    else
      var n := |d| - 1;
      Priority(priorities, count, d[..n]) + Weight(priorities, count, d[n])
  }

  /** `(priority, i, param)` triples in enumeration order. */
  function Triples(priorities: Dict<(string, Value), int>, count: int, inner: Enumeration): (r: seq<(real, int, ParamDict)>)
    ensures |r| == |inner|
    ensures forall k :: 0 <= k < |inner| ==> r[k] == (Priority(priorities, count, inner[k].1), inner[k].0, inner[k].1)
  {
    seq(|inner|, k requires 0 <= k < |inner| => (Priority(priorities, count, inner[k].1), inner[k].0, inner[k].1))
  }

  /** `sort(key=lambda t: t[0], reverse=True)`: a stable descending order on the priority. */
  function ByPriority(a: (real, int, ParamDict), b: (real, int, ParamDict)): bool {
    a.0 >= b.0
  }

  /** Drop the priority of each triple. */
  function Untag(ts: seq<(real, int, ParamDict)>): (r: Enumeration)
    ensures |r| == |ts| && forall k :: 0 <= k < |ts| ==> r[k] == (ts[k].1, ts[k].2)
  {
    seq(|ts|, k requires 0 <= k < |ts| => (ts[k].1, ts[k].2))
  }

  /** `PrioritizedParamSet`; the wrapped set is given by what it enumerates. */
  class PrioritizedParamSet {
    var priorities: Dict<(string, Value), int>
    var count: int

    /** `__init__(param_set, priorities)`: `n_priorities` starts at their number. */
    constructor (priorities: Option<Dict<(string, Value), int>>)
      ensures this.priorities == (if priorities.Some? then priorities.value else [])
      ensures count == |this.priorities|
    {
      this.priorities := if priorities.Some? then priorities.value else [];
      count := if priorities.Some? then |priorities.value| else 0;
    }

    /** `prioritize(name, value)`: the binding gets the next rank. */
    method Prioritize(name: string, value: Value)
      modifies this
      ensures priorities == Put(old(priorities), (name, value), old(count))
      ensures count == old(count) + 1
    {
      priorities := Put(priorities, (name, value), count);
      count := count + 1;
    }

    /** `get_priority(param_dict)`. */
    method GetPriority(d: ParamDict) returns (priority: real)
      ensures priority == Priority(priorities, count, d)
    {
      priority := 0.0;
      var k := 0;
      while k < |d|
        invariant k <= |d| && priority == Priority(priorities, count, d[..k])
      {
        assert d[..k + 1][..k] == d[..k];
        var p := if HasKey(priorities, d[k]) then Get(priorities, d[k]) else -1;
        if p >= 0 {
          priority := priority + Pow2Real(count - p - 1);
        }
        k := k + 1;
      }
      assert d[..k] == d;
    }

    /** `list(iter(self))` when the wrapped set enumerates `inner`. */
    function Iter(inner: Enumeration): Enumeration
      reads this
    {
      Untag(Sort(Triples(priorities, count, inner), ByPriority))
    }

    /** `__len__`: the wrapped set's length, which is what `__iter__` yields. */
    function Length(inner: Enumeration): (n: nat)
      reads this
      ensures n == |Iter(inner)|
    {
      SortPermutes(Triples(priorities, count, inner), ByPriority);
      |inner|
    }
  }

  // ---------------------------------------------------------------- delegation of both decorators

  /** `get_indices_with` of both decorators as written: the call builds the wrapped set's
      generator, drops it and returns `None`. */
  function DecoratorIndicesAsWritten(inner: Enumeration, kw: Dict<string, seq<Value>>): Option<Result<seq<int>>> {
    None
  }

  /** `get_indices_with` of both decorators with the missing `return`: what the wrapped set
      yields for the same names. */
  function DecoratorIndices(inner: Enumeration, kw: Dict<string, seq<Value>>): (r: Option<Result<seq<int>>>)
    ensures r.Some?
    ensures r.value.Err? <==> exists i :: 0 <= i < |inner| && Matches(inner[i].1, kw).Err?
    ensures r.value.Ok? ==> r.value.value == IndexList(KeepIf(inner, d => Fits(d, kw)))
  {
    IndicesWithErr(inner, kw);
    IndicesWithFits(inner, kw);
    Some(IndicesWith(inner, kw))
  }
}
