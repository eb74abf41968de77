/** `Datacube.__getitem__` and `Datacube.__call__`: each element of the index is resolved to
    a slice or a list of positions, and the result is the cube itself, one stored value, or a
    narrowed clone that shares the data list and the hasher. */
module CubeSelect {
  import opened Common
  import opened Values
  import opened Hashing
  import opened CubeBuild
  import opened PySlices

  /** An element of a list index: a position or a name to look up. */
  datatype Key = KeyPos(n: int) | KeyName(s: string)

  /** A bound of a slice index. */
  datatype Bound = Open | BoundPos(n: int) | BoundName(s: string)

  /** An element of the index tuple: `...`, an int, a str, a slice or a list. */
  datatype Sel = Ellipsis | Pos(n: int) | Name(s: string) | Range(start: Bound, stop: Bound, step: Option<int>) | Pick(keys: seq<Key>)

  /** An entry of `fixed`: a `slice` object or a list of positions. */
  datatype Fixed = Span(start: Option<int>, stop: Option<int>, step: Option<int>) | Idx(ixs: seq<int>)

  /** What `__getitem__` returns: `self`, a stored value, or a clone. */
  datatype Outcome = Whole | Scalar(value: Option<Value>) | Sub(view: CubeView)

  const Full := Span(None, None, None)

  /** `[slice(None)] * k`; a negative count gives the empty list. */
  function Fulls(k: int): (r: seq<Fixed>)
    ensures |r| == (if k > 0 then k else 0) && forall j :: 0 <= j < |r| ==> r[j] == Full
  {
    if k > 0 then seq(k, _ => Full) else []
  }

  /** `len(self)`, which is `shape[0]`. */
  function Len(c: CubeView): Result<nat> {
    if |c.shape| == 0 then Err(IndexError) else Ok(c.shape[0])
  }

  /** Negative ints wrap by `len(self)` on every axis; still negative raises IndexError. */
  function Wrap(c: CubeView, n: int): (r: Result<nat>)
    ensures n >= 0 ==> r == Ok(n)
    ensures n < 0 ==> (r.Ok? <==> |c.shape| > 0 && n + c.shape[0] >= 0)
    ensures n < 0 && r.Ok? ==> r.value == n + c.shape[0]
    ensures r.Err? ==> r.error == IndexError
  {
    if n >= 0 then Ok(n)
    else
      var len := Len(c);
      if len.Err? then Err(len.error)
      else if n + len.value < 0 then Err(IndexError)
      else Ok(n + len.value)
  }

  /** The values (or metric names) an index at position `nDim` of the index tuple looks names
      up in. */
  function Lookups(c: CubeView, nDim: nat): Result<seq<string>> {
    if nDim < |c.shape| - 1 then
      if nDim >= |c.parameters| then Err(IndexError)
      else if !HasKey(c.domain, c.parameters[nDim]) then Err(KeyError)
      else Ok(Get(c.domain, c.parameters[nDim]))
    else Ok(c.metrics)
  }

  /** `_get_index_by_name(n_dim, value)`: the first position of `value`, else KeyError. */
  function IndexByName(c: CubeView, nDim: nat, value: string): (r: Result<nat>)
    ensures r.Ok? ==> Lookups(c, nDim).Ok? && r.value < |Lookups(c, nDim).value| && Lookups(c, nDim).value[r.value] == value
    ensures Lookups(c, nDim).Ok? ==> (r.Ok? <==> value in Lookups(c, nDim).value)
    ensures Lookups(c, nDim).Ok? && r.Err? ==> r.error == KeyError
    ensures r.Ok? ==> forall j :: 0 <= j < r.value ==> Lookups(c, nDim).value[j] != value
  {
    var lku := Lookups(c, nDim);
    if lku.Err? then Err(lku.error)
    else if value in lku.value then Ok(FirstIndex(lku.value, value))
    else Err(KeyError)
  }

  /** A slice bound: a name is looked up (plus one for `stop`), an int is kept. */
  function BoundIndex(c: CubeView, nDim: nat, b: Bound, isStop: bool): Result<Option<int>> {
    match b
    case Open => Ok(None)
    case BoundPos(n) => Ok(Some(n))
    case BoundName(s) =>
      var idx := IndexByName(c, nDim, s);
      if idx.Err? then Err(idx.error) else Ok(Some(if isStop then idx.value + 1 else idx.value))
  }

  /** The positions of a list index, names looked up and negative ints wrapped. */
  function PickIndices(c: CubeView, nDim: nat, keys: seq<Key>): Result<seq<int>> {
    if keys == [] then Ok([])
    else
      var n := |keys| - 1;
      var front := PickIndices(c, nDim, keys[..n]);
      if front.Err? then front
      else
        var ix := match keys[n] case KeyName(s) => IndexByName(c, nDim, s) case KeyPos(m) => Wrap(c, m);
        if ix.Err? then Err(ix.error) else Ok(front.value + [ix.value as int])
  }

  /** The state of the resolution loop: `fixed`, `length` and `return_scalar`. */
  datatype Resolving = Resolving(fixed: seq<Fixed>, length: int, scalar: bool)

  /** One round of the resolution loop, for element `i` of the index tuple. */
  function ResolveStep(c: CubeView, st: Resolving, i: nat, sel: Sel): Result<Resolving> {
    match sel
    case Ellipsis =>
      var f := st.fixed + Fulls(|c.shape| - st.length + 1);
      Ok(Resolving(f, |f|, false))
    case Pos(n) =>
      var w := Wrap(c, n);
      if w.Err? then Err(w.error)
      else Ok(st.(fixed := st.fixed + [Span(Some(w.value), Some(w.value + 1), Some(1))]))
    case Name(s) =>
      var idx := IndexByName(c, i, s);
      if idx.Err? then Err(idx.error)
      else Ok(st.(fixed := st.fixed + [Span(Some(idx.value), Some(idx.value + 1), Some(1))]))
    case Range(a, b, step) =>
      var start := BoundIndex(c, i, a, false);
      if start.Err? then Err(start.error)
      else
        var stop := BoundIndex(c, i, b, true);
        if stop.Err? then Err(stop.error)
        else Ok(Resolving(st.fixed + [Span(start.value, stop.value, step)], st.length, false))
    case Pick(keys) =>
      var ixs := PickIndices(c, i, keys);
      if ixs.Err? then Err(ixs.error)
      else Ok(Resolving(st.fixed + [Idx(ixs.value)], st.length, false))
  }

  /** The resolution loop over the first `n` elements of the index tuple. */
  function Resolve(c: CubeView, sels: seq<Sel>, n: nat): Result<Resolving>
    requires n <= |sels|
  {
    if n == 0 then Ok(Resolving([], |sels|, true))
    else
      var st := Resolve(c, sels, n - 1);
      if st.Err? then st else ResolveStep(c, st.value, n - 1, sels[n - 1])
  }

  /** `index`, padded with whole slices up to one entry per axis, and `return_scalar`. */
  function Index(c: CubeView, sels: seq<Sel>): Result<(seq<Fixed>, bool)> {
    if |sels| > |c.shape| then Err(IndexError)
    else
      var st := Resolve(c, sels, |sels|);
      if st.Err? then Err(st.error)
      else if |st.value.fixed| < |c.shape| then Ok((st.value.fixed + Fulls(|c.shape| - |st.value.fixed|), false))
      else Ok((st.value.fixed, st.value.scalar))
  }

  /** The values of axis `i`, or the metrics for the last axis. */
  function AxisValues(c: CubeView, i: nat): Result<seq<string>> {
    if i < |c.shape| - 1 then
      if i >= |c.parameters| then Err(IndexError)
      else if !HasKey(c.domain, c.parameters[i]) then Err(KeyError)
      else Ok(Get(c.domain, c.parameters[i]))
    else Ok(c.metrics)
  }

  /** Whether entry `f` keeps the whole of axis `i`: a slice from the start, past the end, with
      unit step; a list of ints equals a list of strings only when both are empty. */
  function Keeps(f: Fixed, vals: seq<string>): bool {
    match f
    case Span(a, b, st) =>
      (a.None? || a == Some(0)) && (b.None? || 0 < |vals| < b.value) && (st.None? || st == Some(1))
    case Idx(ixs) => ixs == [] && vals == []
  }

  /** The `same_obj` loop over the first `n` entries. */
  function IsWhole(c: CubeView, fixed: seq<Fixed>, n: nat): Result<bool>
    requires n <= |fixed|
  {
    if n == 0 then Ok(true)
    else
      var acc := IsWhole(c, fixed, n - 1);
      if acc.Err? then acc
      else
        var vals := AxisValues(c, n - 1);
        if vals.Err? then Err(vals.error) else Ok(acc.value && Keeps(fixed[n - 1], vals.value))
  }

  /** The `params` of the scalar path: the metadata, then each fixed axis's value. */
  function ScalarParams(c: CubeView, pfixed: seq<Fixed>): Result<Dict<string, string>> {
    if pfixed == [] then Ok(c.metadata)
    else
      var n := |pfixed| - 1;
      var front := ScalarParams(c, pfixed[..n]);
      if front.Err? then front
      else if n >= |c.parameters| then Err(IndexError)
      else if !HasKey(c.domain, c.parameters[n]) then Err(KeyError)
      else
        if pfixed[n].Idx? || pfixed[n].start.None? then Err(TypeError)
        else
          var v := PyIndex(Get(c.domain, c.parameters[n]), pfixed[n].start.value);
          if v.Err? then Err(v.error) else Ok(Put(front.value, c.parameters[n], v.value))
  }

  /** The scalar path: `self.data[self.hash(metric, params)]`. */
  function ScalarValue(c: CubeView, fixed: seq<Fixed>): Result<Option<Value>>
    requires fixed != []
  {
    var m := fixed[|fixed| - 1];
    if m.Idx? || m.start.None? then Err(TypeError)
    else
      var metric := PyIndex(c.metrics, m.start.value);
      if metric.Err? then Err(metric.error)
      else
        var params := ScalarParams(c, fixed[..|fixed| - 1]);
        if params.Err? then Err(params.error)
        else
          var h := HashOf(c.layout, metric.value, params.value);
          if h.Err? then Err(h.error)
          else if h.value >= |c.data| then Err(IndexError)
          else Ok(c.data[h.value])
  }

  /** `reorder(vals, idx)`, taken as `[vals[i] for i in idx]`. */
  function Reorder<T>(vals: seq<T>, ixs: seq<int>): (r: Result<seq<T>>)
    ensures r.Ok? <==> forall j :: 0 <= j < |ixs| ==> -|vals| <= ixs[j] < |vals|
    ensures r.Err? ==> r.error == IndexError
    ensures r.Ok? ==> |r.value| == |ixs| && forall j :: 0 <= j < |ixs| ==> Ok(r.value[j]) == PyIndex(vals, ixs[j])
  {
    if ixs == [] then Ok([])
    else
      var n := |ixs| - 1;
      var front := Reorder(vals, ixs[..n]);
      var x := PyIndex(vals, ixs[n]);
      if front.Err? then front
      else if x.Err? then Err(x.error)
      else Ok(front.value + [x.value])
  }

  /** `vals[slc]` for a slice, `reorder(vals, slc)` for a list. */
  function Narrow<T>(vals: seq<T>, f: Fixed): Result<seq<T>> {
    match f
    case Span(a, b, st) => PySlice(vals, a, b, st)
    case Idx(ixs) => Reorder(vals, ixs)
  }

  /** The attributes of the clone being built. */
  datatype Parts = Parts(metadata: Dict<string, string>, domain: Domain, parameters: seq<string>, shape: seq<nat>)

  /** The clone loop over the first `n` axis entries: an axis narrowed to one value moves to
      the metadata, any other is narrowed. */
  function CloneAxes(c: CubeView, pfixed: seq<Fixed>, n: nat): Result<Parts>
    requires n <= |pfixed|
  {
    if n == 0 then Ok(Parts(c.metadata, c.domain, c.parameters, []))
    else CloneRound(c, pfixed, n - 1, CloneAxes(c, pfixed, n - 1))
  }

  /** Round `i` of the clone loop, applied to what the earlier rounds left. */
  function CloneRound(c: CubeView, pfixed: seq<Fixed>, i: nat, front: Result<Parts>): Result<Parts>
    requires i < |pfixed|
  {
    if front.Err? then front
    else if i >= |c.parameters| then Err(IndexError)
    else if !HasKey(c.domain, c.parameters[i]) then Err(KeyError)
    else
      var name := c.parameters[i];
      var newvals := Narrow(Get(c.domain, name), pfixed[i]);
      var p := front.value;
      if newvals.Err? then Err(newvals.error)
      else if |newvals.value| == 1 then
        if !HasKey(p.domain, name) then Err(KeyError)
        else Ok(Parts(Put(p.metadata, name, newvals.value[0]), Remove(p.domain, name), Without(p.parameters, name), p.shape))
      else Ok(p.(domain := Put(p.domain, name, newvals.value), shape := p.shape + [|newvals.value|]))
  }

  /** The clone: narrowed axes, demoted axes in the metadata, and the narrowed metrics. */
  function CloneView(c: CubeView, fixed: seq<Fixed>): Result<CubeView>
    requires fixed != []
  {
    var pfixed := fixed[..|fixed| - 1];
    var parts := CloneAxes(c, pfixed, |pfixed|);
    if parts.Err? then Err(parts.error)
    else
      var metrics := Narrow(c.metrics, fixed[|fixed| - 1]);
      if metrics.Err? then Err(metrics.error)
      else
        var p := parts.value;
        Ok(c.(metadata := p.metadata, domain := p.domain, parameters := p.parameters, metrics := metrics.value,
              shape := p.shape + [|metrics.value|]))
  }

  /** `cube[index]`. */
  function Select(c: CubeView, sels: seq<Sel>): Result<Outcome> {
    var ix := Index(c, sels);
    if ix.Err? then Err(ix.error)
    else
      var fixed := ix.value.0;
      var whole := IsWhole(c, fixed, |fixed|);
      if whole.Err? then Err(whole.error)
      else if whole.value then Ok(Whole)
      else if ix.value.1 then
        var v := ScalarValue(c, fixed);
        if v.Err? then Err(v.error) else Ok(Scalar(v.value))
      else
        var sub := CloneView(c, fixed);
        if sub.Err? then Err(sub.error) else Ok(Sub(sub.value))
  }

  /** The index tuple `__call__` builds: each parameter's keyword, or a whole slice. */
  function CallIndex(parameters: seq<string>, metric: Option<Sel>, kwargs: Dict<string, Sel>): (r: seq<Sel>)
    ensures |r| == |parameters| + 1
  {
    seq(|parameters|, i requires 0 <= i < |parameters| =>
      var v := Lookup(kwargs, parameters[i]); if v.None? then Range(Open, Open, None) else v.value) +
    [if metric.None? then Range(Open, Open, None) else metric.value]
  }

  /** `cube(metric, **kwargs)`. */
  function Call(c: CubeView, metric: Option<Sel>, kwargs: Dict<string, Sel>): Result<Outcome> {
    if |kwargs| == 0 && metric.None? then Ok(Whole)
    else if exists j :: 0 <= j < |kwargs| && kwargs[j].0 !in c.parameters then Err(IndexError)
    else Select(c, CallIndex(c.parameters, metric, kwargs))
  }

  /** Once the resolution loop has raised, later elements change nothing. */
  lemma {:induction false} ResolveStuck(c: CubeView, sels: seq<Sel>, n: nat, m: nat)
    requires n <= m <= |sels| && Resolve(c, sels, n).Err?
    ensures Resolve(c, sels, m) == Resolve(c, sels, n)
    decreases m
  {
    if m > n { ResolveStuck(c, sels, n, m - 1); }
  }

  /** The loop of `__getitem__` that builds `fixed`, then the padding with whole slices. */
  method ResolveIndex(c: CubeView, sels: seq<Sel>) returns (r: Result<(seq<Fixed>, bool)>)
    ensures r == Index(c, sels)
  {
    if |sels| > |c.shape| {
      return Err(IndexError);
    }
    var fixed: seq<Fixed> := [];
    var length: int := |sels|;
    var scalar := true;
    for i := 0 to |sels|
      invariant Resolve(c, sels, i) == Ok(Resolving(fixed, length, scalar))
    {
      assert Resolve(c, sels, i + 1) == ResolveStep(c, Resolving(fixed, length, scalar), i, sels[i]);
      match sels[i]
      case Ellipsis =>
        fixed := fixed + Fulls(|c.shape| - length + 1);
        length := |fixed|;
        scalar := false;
      case Pos(n) =>
        var w := Wrap(c, n);
        if w.Err? {
          ResolveStuck(c, sels, i + 1, |sels|);
          return Err(w.error);
        }
        fixed := fixed + [Span(Some(w.value), Some(w.value + 1), Some(1))];
      case Name(s) =>
        var idx := IndexByName(c, i, s);
        if idx.Err? {
          ResolveStuck(c, sels, i + 1, |sels|);
          return Err(idx.error);
        }
        fixed := fixed + [Span(Some(idx.value), Some(idx.value + 1), Some(1))];
      case Range(a, b, step) =>
        var start := BoundIndex(c, i, a, false);
        if start.Err? {
          ResolveStuck(c, sels, i + 1, |sels|);
          return Err(start.error);
        }
        var stop := BoundIndex(c, i, b, true);
        if stop.Err? {
          ResolveStuck(c, sels, i + 1, |sels|);
          return Err(stop.error);
        }
        fixed := fixed + [Span(start.value, stop.value, step)];
        scalar := false;
      case Pick(keys) =>
        var ixs := PickIndices(c, i, keys);
        if ixs.Err? {
          ResolveStuck(c, sels, i + 1, |sels|);
          return Err(ixs.error);
        }
        fixed := fixed + [Idx(ixs.value)];
        scalar := false;
    }
    if |fixed| < |c.shape| {
      fixed := fixed + Fulls(|c.shape| - |fixed|);
      scalar := false;
    }
    return Ok((fixed, scalar));
  }

  /** Once the `same_obj` loop has raised, later entries change nothing. */
  lemma {:induction false} WholeStuck(c: CubeView, fixed: seq<Fixed>, n: nat, m: nat)
    requires n <= m <= |fixed| && IsWhole(c, fixed, n).Err?
    ensures IsWhole(c, fixed, m) == IsWhole(c, fixed, n)
    decreases m
  {
    if m > n { WholeStuck(c, fixed, n, m - 1); }
  }

  /** The `same_obj` loop of `__getitem__`. */
  method CheckWhole(c: CubeView, fixed: seq<Fixed>) returns (r: Result<bool>)
    ensures r == IsWhole(c, fixed, |fixed|)
  {
    var same := true;
    for i := 0 to |fixed|
      invariant IsWhole(c, fixed, i) == Ok(same)
    {
      var tmp := c.metrics;
      if i < |c.shape| - 1 {
        if i >= |c.parameters| {
          WholeStuck(c, fixed, i + 1, |fixed|);
          return Err(IndexError);
        }
        if !HasKey(c.domain, c.parameters[i]) {
          WholeStuck(c, fixed, i + 1, |fixed|);
          return Err(KeyError);
        }
        tmp := Get(c.domain, c.parameters[i]);
      }
      match fixed[i]
      case Span(a, b, st) =>
        same := same && (a.None? || a == Some(0));
        same := same && (b.None? || 0 < |tmp| < b.value);
        same := same && (st.None? || st == Some(1));
      case Idx(ixs) =>
        same := same && ixs == [] && tmp == [];
    }
    return Ok(same);
  }

  /** Once building `params` has raised, the longer prefixes raise the same. */
  lemma {:induction false} ParamsStuck(c: CubeView, pfixed: seq<Fixed>, n: nat, m: nat)
    requires n <= m <= |pfixed| && ScalarParams(c, pfixed[..n]).Err?
    ensures ScalarParams(c, pfixed[..m]) == ScalarParams(c, pfixed[..n])
    decreases m
  {
    if m > n {
      ParamsStuck(c, pfixed, n, m - 1);
      assert pfixed[..m][..m - 1] == pfixed[..m - 1];
    }
  }

  /** Once building `params` has raised at entry `i`, the whole list raises the same. */
  lemma ParamsFail(c: CubeView, pfixed: seq<Fixed>, i: nat)
    requires i < |pfixed| && ScalarParams(c, pfixed[..i + 1]).Err?
    ensures ScalarParams(c, pfixed) == ScalarParams(c, pfixed[..i + 1])
  {
    ParamsStuck(c, pfixed, i + 1, |pfixed|);
    assert pfixed[..|pfixed|] == pfixed;
  }

  /** The loop of the scalar path that builds `params` from the metadata and the value picked
      on each axis. */
  method CollectParams(c: CubeView, pfixed: seq<Fixed>) returns (r: Result<Dict<string, string>>)
    ensures r == ScalarParams(c, pfixed)
  {
    var params := c.metadata;
    for i := 0 to |pfixed|
      invariant ScalarParams(c, pfixed[..i]) == Ok(params)
    {
      assert pfixed[..i + 1][..i] == pfixed[..i];
      if i >= |c.parameters| {
        ParamsFail(c, pfixed, i);
        return Err(IndexError);
      }
      var name := c.parameters[i];
      if !HasKey(c.domain, name) {
        ParamsFail(c, pfixed, i);
        return Err(KeyError);
      }
      var slc := pfixed[i];
      if slc.Idx? || slc.start.None? {
        ParamsFail(c, pfixed, i);
        return Err(TypeError);
      }
      var v := PyIndex(Get(c.domain, name), slc.start.value);
      if v.Err? {
        ParamsFail(c, pfixed, i);
        return Err(v.error);
      }
      params := Put(params, name, v.value);
    }
    assert pfixed[..|pfixed|] == pfixed;
    return Ok(params);
  }

  /** The scalar path of `__getitem__`, hashing through the cube's hasher. */
  method ReadScalar(c: CubeView, hasher: Hasher, fixed: seq<Fixed>) returns (r: Result<Option<Value>>)
    requires fixed != [] && hasher.View() == c.layout
    ensures r == ScalarValue(c, fixed)
  {
    var m := fixed[|fixed| - 1];
    if m.Idx? || m.start.None? {
      return Err(TypeError);
    }
    var metric := PyIndex(c.metrics, m.start.value);
    if metric.Err? {
      return Err(metric.error);
    }
    var params := CollectParams(c, fixed[..|fixed| - 1]);
    if params.Err? {
      return Err(params.error);
    }
    var h := hasher.Hash(metric.value, params.value);
    if h.Err? {
      return Err(h.error);
    }
    if h.value >= |c.data| {
      return Err(IndexError);
    }
    return Ok(c.data[h.value]);
  }

  /** Once the clone loop has raised, later axes change nothing. */
  lemma {:induction false} CloneStuck(c: CubeView, pfixed: seq<Fixed>, n: nat, m: nat)
    requires n <= m <= |pfixed| && CloneAxes(c, pfixed, n).Err?
    ensures CloneAxes(c, pfixed, m) == CloneAxes(c, pfixed, n)
    decreases m
  {
    if m > n { CloneStuck(c, pfixed, n, m - 1); }
  }

  /** One pass of the clone loop, on axis `i`: the axis is narrowed by its entry, and moves to
      the metadata when one value is left; `demoted` tells whether it moved. */
  method AxisRound(c: CubeView, pfixed: seq<Fixed>, i: nat, p: Parts) returns (r: Result<Parts>, demoted: bool)
    requires i < |pfixed| && CloneAxes(c, pfixed, i) == Ok(p)
    ensures r == CloneAxes(c, pfixed, i + 1)
    ensures r.Ok? && demoted ==> i < |c.parameters| && r.value.parameters == Without(p.parameters, c.parameters[i])
    ensures r.Ok? && !demoted ==> r.value.parameters == p.parameters
  {
    demoted := false;
    if i >= |c.parameters| {
      return Err(IndexError), demoted;
    }
    var name := c.parameters[i];
    if !HasKey(c.domain, name) {
      return Err(KeyError), demoted;
    }
    var newvals := Narrow(Get(c.domain, name), pfixed[i]);
    if newvals.Err? {
      return Err(newvals.error), demoted;
    }
    if |newvals.value| == 1 {
      var metadata := Put(p.metadata, name, newvals.value[0]);
      if !HasKey(p.domain, name) {
        return Err(KeyError), demoted;
      }
      demoted := true;
      r := Ok(Parts(metadata, Remove(p.domain, name), Without(p.parameters, name), p.shape));
    } else {
      r := Ok(p.(domain := Put(p.domain, name, newvals.value), shape := p.shape + [|newvals.value|]));
    }
  }

  /** The loop of the clone path over the axes; `dropped` tells whether some axis was demoted,
      so that the clone gets a parameter list of its own rather than sharing the original's. */
  method NarrowAxes(c: CubeView, pfixed: seq<Fixed>) returns (r: Result<Parts>, dropped: bool)
    ensures r == CloneAxes(c, pfixed, |pfixed|)
    ensures r.Ok? ==> (dropped <==> r.value.parameters != c.parameters)
  {
    var p := Parts(c.metadata, c.domain, c.parameters, []);
    dropped := false;
    var i := 0;
    while i < |pfixed|
      invariant i <= |pfixed| && CloneAxes(c, pfixed, i) == Ok(p)
      invariant !dropped ==> p.parameters == c.parameters
      invariant dropped ==> |p.parameters| < |c.parameters|
    {
      var next, demoted := AxisRound(c, pfixed, i, p);
      if next.Err? {
        CloneStuck(c, pfixed, i + 1, |pfixed|);
        r := next;
        return;
      }
      p := next.value;
      dropped := dropped || demoted;
      i := i + 1;
    }
    return Ok(p), dropped;
  }

  /** The clone path of `__getitem__`; `dropped` tells whether the clone got a parameter list
      of its own (some axis was demoted) rather than sharing the original's. */
  method CloneParts(c: CubeView, fixed: seq<Fixed>) returns (r: Result<CubeView>, dropped: bool)
    requires fixed != []
    ensures r == CloneView(c, fixed)
    ensures r.Ok? ==> (dropped <==> r.value.parameters != c.parameters)
  {
    var pfixed := fixed[..|fixed| - 1];
    var parts;
    parts, dropped := NarrowAxes(c, pfixed);
    if parts.Err? {
      return Err(parts.error), dropped;
    }
    var metadata, domain, parameters, shape := parts.value.metadata, parts.value.domain, parts.value.parameters, parts.value.shape;
    var newmetrics := Narrow(c.metrics, fixed[|fixed| - 1]);
    if newmetrics.Err? {
      return Err(newmetrics.error), dropped;
    }
    r := Ok(c.(metadata := metadata, domain := domain, parameters := parameters, metrics := newmetrics.value,
               shape := shape + [|newmetrics.value|]));
  }
}
