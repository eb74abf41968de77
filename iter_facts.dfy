/** What `iter_dimensions(*dims)` yields on a consistent cube whose axes all have more or fewer
    than one value: the value tuples are exactly the cartesian product of the dimensions'
    values (one value for a metadatum), in `itertools.product` order, and each cube yielded
    carries every dimension as a metadatum holding the value of its tuple. */
module IterFacts {
  import opened Common
  import opened Cartesian
  import opened CubeBuild
  import opened CubeSelect
  import opened CubeSelectFacts
  import opened CloneFacts
  import opened CubeQuery

  /** No axis holds exactly one value, as after construction or slicing. */
  ghost predicate NoSingle(c: CubeView) {
    forall p :: p in c.parameters ==> HasKey(c.domain, p) && |Get(c.domain, p)| != 1
  }

  /** Every dimension is a metadatum or a parameter. */
  ghost predicate Walkable(c: CubeView, dims: seq<string>) {
    forall k :: 0 <= k < |dims| ==> HasKey(c.metadata, dims[k]) || dims[k] in c.parameters
  }

  /** A dimension called `"metric"` is a metadatum, so no call binds it to the metric
      argument of `__call__`. */
  ghost predicate MetricBound(c: CubeView, dims: seq<string>) {
    "metric" in dims ==> HasKey(c.metadata, "metric")
  }

  /** The values each dimension runs through: its one value, or its axis. */
  ghost function DimValues(c: CubeView, dims: seq<string>): (r: seq<seq<string>>)
    requires Consistent(c) && Walkable(c, dims)
    ensures |r| == |dims|
  {
    seq(|dims|, k requires 0 <= k < |dims| =>
      if HasKey(c.metadata, dims[k]) then [Get(c.metadata, dims[k])] else Get(c.domain, dims[k]))
  }

  /** `w` holds every metadatum of `c` unchanged. */
  ghost predicate Kept(c: CubeView, w: CubeView) {
    forall x :: HasKey(c.metadata, x) ==> HasKey(w.metadata, x) && Get(w.metadata, x) == Get(c.metadata, x)
  }

  /** `w` holds each dimension as a metadatum with the value of `vals`. */
  ghost predicate Labelled(w: CubeView, dims: seq<string>, vals: seq<string>) {
    |vals| == |dims| && forall k :: 0 <= k < |dims| ==> HasKey(w.metadata, dims[k]) && Get(w.metadata, dims[k]) == vals[k]
  }

  /** The value tuples of what `iter_dimensions` yields. */
  function Firsts(ys: seq<(seq<string>, CubeView)>): (r: seq<seq<string>>)
    ensures |r| == |ys| && forall i :: 0 <= i < |ys| ==> r[i] == ys[i].0
  {
    seq(|ys|, i requires 0 <= i < |ys| => ys[i].0)
  }

  /** Every yielded cube keeps the metadata of `c` and is labelled with its tuple. */
  ghost predicate Yields(c: CubeView, dims: seq<string>, ys: seq<(seq<string>, CubeView)>) {
    forall i :: 0 <= i < |ys| ==> Kept(c, ys[i].1) && Labelled(ys[i].1, dims, ys[i].0)
  }

  /** One step of the walk: `cube(dim=value)` is a clone like `c` in which `dim` became a
      metadatum, so the remaining dimensions run through the same values. */
  lemma CallStep(c: CubeView, dim: string, val: string, rest: seq<string>)
    requires Consistent(c) && NoSingle(c) && dim in c.parameters && val in Get(c.domain, dim)
    requires dim != "metric" && dim !in rest && Walkable(c, rest)
    ensures KeywordCall(c, dim, val) == Call(c, None, [(dim, Name(val))])
    ensures var r := Call(c, None, [(dim, Name(val))]);
      r.Ok? && r.value.Sub? && Consistent(r.value.view) && NoSingle(r.value.view) &&
      Walkable(r.value.view, rest) && DimValues(r.value.view, rest) == DimValues(c, rest) &&
      Kept(c, r.value.view) && HasKey(r.value.view.metadata, dim) && Get(r.value.view.metadata, dim) == val
  {
    CallOne(c, dim, val);
    var v := Call(c, None, [(dim, Name(val))]).value.view;
    forall k | 0 <= k < |rest| ensures HasKey(v.metadata, rest[k]) || rest[k] in v.parameters {
      assert rest[k] != dim;
    }
    assert DimValues(v, rest) == DimValues(c, rest) by {
      forall k | 0 <= k < |rest| ensures DimValues(v, rest)[k] == DimValues(c, rest)[k] {
        assert rest[k] != dim;
        if !HasKey(c.metadata, rest[k]) {
          assert rest[k] in v.parameters;
        }
      }
    }
  }

  /** The tuples of a labelled list are the value prepended to the inner tuples. */
  lemma FirstsLabel(v: string, ys: seq<(seq<string>, CubeView)>)
    ensures Firsts(Label(v, ys)) == Prepend(v, Firsts(ys))
  {
  }

  /** Labelling a walk of `v` with `dim = val` gives walks of `c` for `[dim] + rest`. */
  lemma YieldsLabel(c: CubeView, v: CubeView, dim: string, val: string, rest: seq<string>,
                    ys: seq<(seq<string>, CubeView)>)
    requires Kept(c, v) && HasKey(v.metadata, dim) && Get(v.metadata, dim) == val
    requires Yields(v, rest, ys)
    ensures Yields(c, [dim] + rest, Label(val, ys))
  {
    var zs := Label(val, ys);
    forall i | 0 <= i < |zs| ensures Kept(c, zs[i].1) && Labelled(zs[i].1, [dim] + rest, zs[i].0) {
      var w := ys[i].1;
      assert Kept(v, w) && Labelled(w, rest, ys[i].0);
      forall k | 0 <= k < |rest| + 1
        ensures HasKey(w.metadata, ([dim] + rest)[k]) && Get(w.metadata, ([dim] + rest)[k]) == zs[i].0[k]
      {
        if k > 0 {
          assert ([dim] + rest)[k] == rest[k - 1];
        }
      }
    }
  }

  /** Joining two walks joins their tuples and keeps what each yielded cube holds. */
  lemma YieldsJoin(c: CubeView, dims: seq<string>, a: seq<(seq<string>, CubeView)>, b: seq<(seq<string>, CubeView)>)
    requires Yields(c, dims, a) && Yields(c, dims, b)
    ensures Yields(c, dims, a + b) && Firsts(a + b) == Firsts(a) + Firsts(b)
  {
    forall i | 0 <= i < |a + b| ensures Kept(c, (a + b)[i].1) && Labelled((a + b)[i].1, dims, (a + b)[i].0) {
      if i >= |a| {
        assert (a + b)[i] == b[i - |a|];
      }
    }
  }

  /** The walk over the values `vals` of the axis `dim`. */
  lemma {:induction false} WalkValues(c: CubeView, dim: string, vals: seq<string>, rest: seq<string>)
    requires Consistent(c) && NoSingle(c) && dim in c.parameters
    requires forall v :: v in vals ==> v in Get(c.domain, dim)
    requires dim != "metric" && dim !in rest && NoDup(rest) && Walkable(c, rest) && MetricBound(c, rest)
    ensures IterValues(c, dim, vals, rest).Ok?
    ensures Firsts(IterValues(c, dim, vals, rest).value) == Spread(vals, Cart(DimValues(c, rest)))
    ensures Yields(c, [dim] + rest, IterValues(c, dim, vals, rest).value)
    decreases |rest| + 1, 0, |vals|
  {
    if vals != [] {
      CallStep(c, dim, vals[0], rest);
      var v := Call(c, None, [(dim, Name(vals[0]))]).value.view;
      WalkDimensions(v, rest);
      var inner := IterDimensions(v, rest).value;
      WalkValues(c, dim, vals[1..], rest);
      var more := IterValues(c, dim, vals[1..], rest).value;
      FirstsLabel(vals[0], inner);
      YieldsLabel(c, v, dim, vals[0], rest, inner);
      YieldsJoin(c, [dim] + rest, Label(vals[0], inner), more);
    }
  }

  /** The walk over the dimensions `dims`. */
  lemma {:induction false} WalkDimensions(c: CubeView, dims: seq<string>)
    requires Consistent(c) && NoSingle(c) && NoDup(dims) && Walkable(c, dims) && MetricBound(c, dims)
    ensures IterDimensions(c, dims).Ok?
    ensures Firsts(IterDimensions(c, dims).value) == Cart(DimValues(c, dims))
    ensures Yields(c, dims, IterDimensions(c, dims).value)
    decreases |dims|, 1
  {
    if dims == [] {
      assert Yields(c, dims, [([], c)]);
    } else {
      var dim := dims[0];
      var rest := dims[1..];
      assert dims == [dim] + rest;
      assert DimValues(c, dims)[1..] == DimValues(c, rest);
      assert dim !in rest;
      if HasKey(c.metadata, dim) {
        WalkDimensions(c, rest);
        var ys := IterDimensions(c, rest).value;
        FirstsLabel(Get(c.metadata, dim), ys);
        assert Kept(c, c);
        YieldsLabel(c, c, dim, Get(c.metadata, dim), rest, ys);
      } else {
        WalkValues(c, dim, Get(c.domain, dim), rest);
      }
    }
  }

  /** `iter_dimensions(*dims)` on a consistent cube without one-value axes, for distinct
      dimensions that are parameters or metadata, raises nothing; the tuples are the cartesian
      product of the dimensions' values, so there are as many as the product of their counts;
      and each cube yielded holds every dimension as a metadatum with its tuple's value. */
  lemma IterDimensionsProduct(c: CubeView, dims: seq<string>)
    requires Consistent(c) && NoSingle(c) && NoDup(dims) && Walkable(c, dims) && MetricBound(c, dims)
    ensures var r := IterDimensions(c, dims);
      r.Ok? && Firsts(r.value) == Cart(DimValues(c, dims)) &&
      |r.value| == Product(Sizes(DimValues(c, dims))) &&
      forall i :: 0 <= i < |r.value| ==> Labelled(r.value[i].1, dims, r.value[i].0)
  {
    WalkDimensions(c, dims);
    CartSize(DimValues(c, dims));
  }

  /** `iter_dimensions("metric", ...)` on a cube with an axis called `"metric"`: the call
      `self(metric=value)` selects a metric rather than narrowing the axis, so a first axis
      value that is not a metric name raises KeyError. */
  lemma IterMetricAxis(c: CubeView, rest: seq<string>)
    requires Consistent(c) && "metric" in c.parameters
    requires |Get(c.domain, "metric")| >= 1 && Get(c.domain, "metric")[0] !in c.metrics
    ensures IterDimensions(c, ["metric"] + rest) == Err(KeyError)
  {
    CallUnknownMetric(c, Get(c.domain, "metric")[0]);
    assert (["metric"] + rest)[1..] == rest;
  }
}
