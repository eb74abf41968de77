/** The read-only queries of a `Datacube`: `items`, `in_domain`, `out_of_domain`,
    `_missing_ratio`, `_some_miss_vs_all_there`, `iter_dimensions`, `__len__` and `__eq__`.
    A generator is modelled by the whole list it yields, or by the error it raises. */
module CubeQuery {
  import opened Common
  import opened Values
  import opened Hashing
  import opened Cartesian
  import opened CubeBuild
  import opened CubeSelect

  /** `[self.domain[p] for p in self.parameters]`. */
  function Axes(c: CubeView): (r: Result<seq<seq<string>>>)
    ensures r.Ok? <==> forall p :: p in c.parameters ==> HasKey(c.domain, p)
    ensures r.Err? ==> r.error == KeyError
    ensures r.Ok? ==> (|r.value| == |c.parameters| &&
      forall i :: 0 <= i < |c.parameters| ==> r.value[i] == Get(c.domain, c.parameters[i]))
  {
    if forall p :: p in c.parameters ==> HasKey(c.domain, p) then
      Ok(seq(|c.parameters|, i requires 0 <= i < |c.parameters| => Get(c.domain, c.parameters[i])))
    else Err(KeyError)
  }

  /** `{k: v for k, v in zip(names, vals)}`. */
  function Zip(names: seq<string>, vals: seq<string>): Dict<string, string> {
    var n := if |names| <= |vals| then |names| else |vals|;
    PutAll([], seq(n, i requires 0 <= i < n => (names[i], vals[i])))
  }

  /** `p_dict` in `items`: the assignment, then `p_dict.update(self.metadata)`. */
  function ItemKey(c: CubeView, t: seq<string>): Dict<string, string> {
    PutAll(Zip(c.parameters, t), c.metadata)
  }

  /** `[self.hash(m, key) for m in self.metrics[:n]]`. */
  function Indices(c: CubeView, key: Dict<string, string>, n: nat): (r: Result<seq<nat>>)
    requires n <= |c.metrics|
    ensures r.Ok? ==> (|r.value| == n &&
      forall j :: 0 <= j < n ==> HashOf(c.layout, c.metrics[j], key) == Ok(r.value[j]))
  {
    if n == 0 then Ok([])
    else
      var front := Indices(c, key, n - 1);
      var x := HashOf(c.layout, c.metrics[n - 1], key);
      if front.Err? then front
      else if x.Err? then Err(x.error)
      else Ok(front.value + [x.value])
  }

  /** `tuple(self.data[x] for x in idx)`. */
  function Fetch(data: seq<Option<Value>>, idx: seq<nat>): (r: Result<seq<Option<Value>>>)
    ensures r.Ok? <==> forall j :: 0 <= j < |idx| ==> idx[j] < |data|
    ensures r.Err? ==> r.error == IndexError
    ensures r.Ok? ==> |r.value| == |idx| && forall j :: 0 <= j < |idx| ==> r.value[j] == data[idx[j]]
  {
    if forall j :: 0 <= j < |idx| ==> idx[j] < |data| then
      Ok(seq(|idx|, j requires 0 <= j < |idx| && idx[j] < |data| => data[idx[j]]))
    else Err(IndexError)
  }

  /** What `items` yields for one assignment of the axes. */
  function Row(c: CubeView, t: seq<string>): Result<seq<Option<Value>>> {
    var idx := Indices(c, ItemKey(c, t), |c.metrics|);
    if idx.Err? then Err(idx.error) else Fetch(c.data, idx.value)
  }

  /** What `items` yields for the assignments `ts`, in order. */
  function RowsOf(c: CubeView, ts: seq<seq<string>>): (r: Result<seq<(seq<string>, seq<Option<Value>>)>>)
    ensures r.Ok? ==> (|r.value| == |ts| &&
      forall i :: 0 <= i < |ts| ==> r.value[i].0 == ts[i] && Row(c, ts[i]) == Ok(r.value[i].1))
  {
    if ts == [] then Ok([])
    else
      var n := |ts| - 1;
      var front := RowsOf(c, ts[..n]);
      var row := Row(c, ts[n]);
      if front.Err? then front
      else if row.Err? then Err(row.error)
      else Ok(front.value + [(ts[n], row.value)])
  }

  /** `list(self.items())`: each assignment of the axes in `itertools.product` order, with
      the values of every metric under it. */
  function Items(c: CubeView): Result<seq<(seq<string>, seq<Option<Value>>)>> {
    var axes := Axes(c);
    if axes.Err? then Err(axes.error) else RowsOf(c, Cart(axes.value))
  }

  /** No metric of the row is missing. */
  predicate Present(vs: seq<Option<Value>>) {
    forall j :: 0 <= j < |vs| ==> vs[j].Some?
  }

  /** The assignments of the rows with no missing metric, as `in_domain` collects them. */
  function Filled(params: seq<string>, rows: seq<(seq<string>, seq<Option<Value>>)>): (r: seq<Dict<string, string>>)
    ensures |r| <= |rows|
  {
    if rows == [] then []
    else
      var n := |rows| - 1;
      Filled(params, rows[..n]) + (if Present(rows[n].1) then [Zip(params, rows[n].0)] else [])
  }

  /** `in_domain()`. */
  function InDomain(c: CubeView): Result<seq<Dict<string, string>>> {
    var items := Items(c);
    if items.Err? then Err(items.error) else Ok(Filled(c.parameters, items.value))
  }

  /** The `(assignment, metric)` pairs of one row's missing metrics among the first `n`. */
  function Gaps(params: seq<string>, metrics: seq<string>, t: seq<string>, vs: seq<Option<Value>>, n: nat):
    (r: seq<(Dict<string, string>, string)>)
    requires n <= |vs| && |vs| <= |metrics|
    ensures |r| <= n
  {
    if n == 0 then []
    else
      Gaps(params, metrics, t, vs, n - 1) + (if vs[n - 1].None? then [(Zip(params, t), metrics[n - 1])] else [])
  }

  /** Each row's metrics are listed against the cube's metrics. */
  predicate RowsFit(metrics: seq<string>, rows: seq<(seq<string>, seq<Option<Value>>)>) {
    forall i :: 0 <= i < |rows| ==> |rows[i].1| == |metrics|
  }

  /** The missing pairs of the rows, in order, as `out_of_domain` collects them. */
  function Missing(params: seq<string>, metrics: seq<string>, rows: seq<(seq<string>, seq<Option<Value>>)>):
    (r: seq<(Dict<string, string>, string)>)
    requires RowsFit(metrics, rows)
  {
    if rows == [] then []
    else
      var n := |rows| - 1;
      Missing(params, metrics, rows[..n]) + Gaps(params, metrics, rows[n].0, rows[n].1, |rows[n].1|)
  }

  /** `out_of_domain()`. */
  function OutOfDomain(c: CubeView): Result<seq<(Dict<string, string>, string)>> {
    var items := Items(c);
    if items.Err? then Err(items.error)
    else Ok(Missing(c.parameters, c.metrics, items.value))
  }

  /** `_missing_ratio(ood)` as the fraction `(len(ood), size())`; with `ood` omitted it is
      `out_of_domain()`. A cube of size 0 raises ZeroDivisionError. */
  function MissingRatio(c: CubeView, ood: Option<seq<(Dict<string, string>, string)>>): Result<(nat, nat)> {
    var o := if ood.Some? then Ok(ood.value) else OutOfDomain(c);
    if o.Err? then Err(o.error)
    else if Product(c.shape) == 0 then Err(ZeroDivisionError)
    else Ok((|o.value|, Product(c.shape)))
  }

  /** `sets[param]` after the loop of `_some_miss_vs_all_there`: the values `param` takes in
      the missing assignments. */
  function MissedValues(ood: seq<(Dict<string, string>, string)>, param: string): seq<string>
    requires forall i :: 0 <= i < |ood| ==> HasKey(ood[i].0, param)
  {
    seq(|ood|, i requires 0 <= i < |ood| && HasKey(ood[i].0, param) => Get(ood[i].0, param))
  }

  /** `[v for v in domls if (v in missed) == want]`. */
  function Split(domls: seq<string>, missed: seq<string>, want: bool): (r: seq<string>)
    ensures |r| <= |domls|
  {
    if domls == [] then []
    else
      var n := |domls| - 1;
      Split(domls[..n], missed, want) + (if (domls[n] in missed) == want then [domls[n]] else [])
  }

  /** Both dictionaries of `_some_miss_vs_all_there`, for the axes `domain[..n]`. An empty
      axis never reads `sets[param]`. */
  function MissSplit(domain: Domain, ood: seq<(Dict<string, string>, string)>, n: nat):
    (r: (Dict<string, seq<string>>, Dict<string, seq<string>>))
    requires n <= |domain|
    requires forall i, k :: 0 <= i < |ood| && 0 <= k < n && domain[k].1 != [] ==> HasKey(ood[i].0, domain[k].0)
  {
    if n == 0 then ([], [])
    else
      var front := MissSplit(domain, ood, n - 1);
      var (name, domls) := domain[n - 1];
      var missed := if domls == [] then [] else MissedValues(ood, name);
      (Put(front.0, name, Split(domls, missed, true)), Put(front.1, name, Split(domls, missed, false)))
  }

  /** Some missing assignment lacks some parameter. */
  predicate MissesParam(params: seq<string>, ood: seq<(Dict<string, string>, string)>) {
    exists i, p :: 0 <= i < |ood| && p in params && !HasKey(ood[i].0, p)
  }

  /** `_some_miss_vs_all_there(ood)`: per axis, the values missing under at least one
      assignment and the values never missing, each in the axis's order. A missing assignment
      without some parameter, or a non-empty axis that is not a parameter, raises KeyError
      (the comprehensions read `sets[param]` only for a value of the axis). */
  function SomeMissVsAllThere(c: CubeView, ood: Option<seq<(Dict<string, string>, string)>>):
    Result<(Dict<string, seq<string>>, Dict<string, seq<string>>)>
  {
    var o := if ood.Some? then Ok(ood.value) else OutOfDomain(c);
    if o.Err? then Err(o.error)
    else if MissesParam(c.parameters, o.value) then Err(KeyError)
    else if exists k :: 0 <= k < |c.domain| && c.domain[k].0 !in c.parameters && |c.domain[k].1| > 0 then
      Err(KeyError)
    else Ok(MissSplit(c.domain, o.value, |c.domain|))
  }

  /** What `iter_dimensions(*dims)` yields: the values of the dimensions, and the cube for
      them. A dimension in the metadata contributes its one value; any other is walked value
      by value through `self(**{dim: value})`. */
  function IterDimensions(c: CubeView, dims: seq<string>): Result<seq<(seq<string>, CubeView)>>
    decreases |dims|, 1
  {
    if dims == [] then Ok([([], c)])
    else
      var dim := dims[0];
      if HasKey(c.metadata, dim) then
        var rest := IterDimensions(c, dims[1..]);
        if rest.Err? then rest else Ok(Label(Get(c.metadata, dim), rest.value))
      else if !HasKey(c.domain, dim) then Err(KeyError)
      else IterValues(c, dim, Get(c.domain, dim), dims[1..])
  }

  /** `[((v,) + vals, cube) for vals, cube in ys]`. */
  function Label(v: string, ys: seq<(seq<string>, CubeView)>): (r: seq<(seq<string>, CubeView)>)
    ensures |r| == |ys| && forall i :: 0 <= i < |ys| ==> r[i] == ([v] + ys[i].0, ys[i].1)
  {
    seq(|ys|, i requires 0 <= i < |ys| => ([v] + ys[i].0, ys[i].1))
  }

  /** `self(**{dim: value})`. Python binds a keyword called `metric` to the `metric`
      parameter of `__call__`, so that value is looked up among the metrics; any other name
      narrows its own axis. */
  function KeywordCall(c: CubeView, dim: string, value: string): Result<Outcome> {
    if dim == "metric" then Call(c, Some(Name(value)), []) else Call(c, None, [(dim, Name(value))])
  }

  /** The loop of `iter_dimensions` over the values `vals` of `dim`. A call that hands back a
      stored value instead of a cube fails on `.iter_dimensions` with AttributeError. */
  function IterValues(c: CubeView, dim: string, vals: seq<string>, rest: seq<string>): Result<seq<(seq<string>, CubeView)>>
    decreases |rest| + 1, 0, |vals|
  {
    if vals == [] then Ok([])
    else
      var sub := KeywordCall(c, dim, vals[0]);
      if sub.Err? then Err(sub.error)
      else if sub.value.Scalar? then Err(AttributeError)
      else
        var v := if sub.value.Whole? then c else sub.value.view;
        var inner := IterDimensions(v, rest);
        if inner.Err? then inner
        else
          var more := IterValues(c, dim, vals[1..], rest);
          if more.Err? then more else Ok(Label(vals[0], inner.value) + more.value)
  }

  /** `len(cube)`: the first entry of the shape. */
  function Len(c: CubeView): (r: Result<nat>)
    ensures r.Ok? <==> c.shape != []
    ensures r.Ok? ==> r.value == c.shape[0]
  {
    if c.shape == [] then Err(IndexError) else Ok(c.shape[0])
  }

  /** Python dict equality: the same keys, each with the same value, in any order. */
  predicate SameDict<K(==), V(==)>(a: Dict<K, V>, b: Dict<K, V>) {
    (forall i :: 0 <= i < |a| ==> HasKey(b, a[i].0) && Get(b, a[i].0) == Get(a, a[i].0)) &&
    forall i :: 0 <= i < |b| ==> HasKey(a, b[i].0)
  }

  /** `__eq__` between two cubes: name, metadata, parameters, domain, metrics and data agree;
      the hasher and the shape are not compared. */
  predicate CubeEq(a: CubeView, b: CubeView) {
    a.name == b.name && SameDict(a.metadata, b.metadata) && a.parameters == b.parameters &&
    SameDict(a.domain, b.domain) && a.metrics == b.metrics && a.data == b.data
  }

  /** The inner loop of `in_domain`: does the row miss no metric? */
  method AllPresent(vs: seq<Option<Value>>) returns (append: bool)
    ensures append == Present(vs)
  {
    append := true;
    for j := 0 to |vs|
      invariant append <==> forall q :: 0 <= q < j ==> vs[q].Some?
    {
      if vs[j].None? {
        append := false;
        break;
      }
    }
  }

  /** The loop of `in_domain` over the rows `items` yields. */
  method CollectFilled(params: seq<string>, rows: seq<(seq<string>, seq<Option<Value>>)>)
    returns (idom: seq<Dict<string, string>>)
    ensures idom == Filled(params, rows)
  {
    idom := [];
    for i := 0 to |rows|
      invariant idom == Filled(params, rows[..i])
    {
      assert rows[..i + 1][..i] == rows[..i];
      var append := AllPresent(rows[i].1);
      if append {
        idom := idom + [Zip(params, rows[i].0)];
      }
    }
    assert rows[..|rows|] == rows;
  }

  /** The inner loop of `out_of_domain` over one row. */
  method CollectGaps(params: seq<string>, metrics: seq<string>, t: seq<string>, vs: seq<Option<Value>>)
    returns (gaps: seq<(Dict<string, string>, string)>)
    requires |vs| == |metrics|
    ensures gaps == Gaps(params, metrics, t, vs, |vs|)
  {
    gaps := [];
    for j := 0 to |vs|
      invariant gaps == Gaps(params, metrics, t, vs, j)
    {
      if vs[j].None? {
        gaps := gaps + [(Zip(params, t), metrics[j])];
      }
    }
  }

  /** The outer loop of `out_of_domain` over the rows `items` yields. */
  method CollectMissing(params: seq<string>, metrics: seq<string>, rows: seq<(seq<string>, seq<Option<Value>>)>)
    returns (ood: seq<(Dict<string, string>, string)>)
    requires RowsFit(metrics, rows)
    ensures ood == Missing(params, metrics, rows)
  {
    ood := [];
    for i := 0 to |rows|
      invariant ood == Missing(params, metrics, rows[..i])
    {
      assert rows[..i + 1][..i] == rows[..i];
      var gaps := CollectGaps(params, metrics, rows[i].0, rows[i].1);
      ood := ood + gaps;
    }
    assert rows[..|rows|] == rows;
  }

  /** `in_domain()`. */
  method CollectInDomain(c: CubeView) returns (r: Result<seq<Dict<string, string>>>)
    ensures r == InDomain(c)
  {
    var items := Items(c);
    if items.Err? {
      return Err(items.error);
    }
    var idom := CollectFilled(c.parameters, items.value);
    return Ok(idom);
  }

  /** `out_of_domain()`. */
  method CollectOutOfDomain(c: CubeView) returns (r: Result<seq<(Dict<string, string>, string)>>)
    ensures r == OutOfDomain(c)
  {
    var items := Items(c);
    if items.Err? {
      return Err(items.error);
    }
    var ood := CollectMissing(c.parameters, c.metrics, items.value);
    return Ok(ood);
  }
}
