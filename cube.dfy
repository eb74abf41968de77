/** The `Datacube` object: its attributes, its construction from the stored parameter and
    result dictionaries, indexing, calling, `add_metadata` and `reorder_parameters`. The
    parameter list is an array because `reorder_parameters` overwrites it in place and a clone
    that demotes no axis shares it with the cube it came from; `hash` is shared the same way. */
module Cube {
  import opened Common
  import opened Values
  import opened Hashing
  import opened CubeBuild
  import opened CubeSelect

  /** What `__getitem__` and `__call__` hand back: `self`, a stored value, or a clone. */
  datatype Got = Same | Stored(value: Option<Value>) | Cloned(cube: Datacube)

  /** `order` in `reorder_parameters`: an int is kept, a name is looked up with `list.index`. */
  function OrderOf(params: seq<string>, args: seq<Key>): (r: Result<seq<int>>)
    ensures r.Ok? <==> forall j :: 0 <= j < |args| && args[j].KeyName? ==> args[j].s in params
    ensures r.Err? ==> r.error == ValueError
    ensures r.Ok? ==> |r.value| == |args|
    ensures r.Ok? ==> forall j :: 0 <= j < |args| && args[j].KeyPos? ==> r.value[j] == args[j].n
    ensures r.Ok? ==> forall j :: 0 <= j < |args| && args[j].KeyName? ==>
      0 <= r.value[j] < |params| && params[r.value[j]] == args[j].s
  {
    if args == [] then Ok([])
    else
      var n := |args| - 1;
      var front := OrderOf(params, args[..n]);
      assert forall j :: 0 <= j < n ==> args[..n][j] == args[j];
      if front.Err? then front
      else
        match args[n]
        case KeyPos(i) => Ok(front.value + [i])
        case KeyName(s) => if s in params then Ok(front.value + [FirstIndex(params, s) as int]) else Err(ValueError)
  }

  /** `diff`: the positions below `n` that `order` does not mention, in increasing order. */
  function Unmentioned(order: seq<int>, n: nat): (r: seq<int>)
    ensures forall i :: i in r <==> 0 <= i < n && i !in order
    ensures forall j :: 0 <= j < |r| ==> 0 <= r[j] < n
    ensures forall j, k :: 0 <= j < k < |r| ==> r[j] < r[k]
  {
    if n == 0 then [] else Unmentioned(order, n - 1) + (if n - 1 in order then [] else [n - 1])
  }

  /** The parameter list after `reorder_parameters(*args)`, and whether it raised. An unknown
      name (ValueError) or a position out of range (IndexError) leaves the list as it was; a
      repeated position makes `tmps` longer than the list, whose entries are then all
      overwritten before the write past its end raises IndexError. */
  function Reordering(params: seq<string>, args: seq<Key>): (seq<string>, Result<()>) {
    var order := OrderOf(params, args);
    if order.Err? then (params, Err(order.error))
    else
      var tmps := Reorder(params, order.value + Unmentioned(order.value, |params|));
      if tmps.Err? then (params, Err(tmps.error))
      else Overwritten(params, tmps.value)
  }

  /** The part of `Datacube.__init__` before the data list is allocated: the observed values,
      their split into axes and metadata, the sorted parameter list, the metrics and the shape. */
  method Attributes(ps: seq<Dict<string, Value>>, rs: seq<Dict<string, Value>>)
    returns (metadata: Dict<string, string>, domain: Domain, parameters: seq<string>, metrics: seq<string>,
             shape: seq<nat>)
    ensures var c := Skeleton(ps, rs, "");
      metadata == c.metadata && domain == c.domain && parameters == c.parameters && metrics == c.metrics &&
      shape == c.shape
  {
    var tmp := CollectValues(ps);
    ObserveAllOk(ps);
    SplitDomain(tmp);
    var names;
    domain, metadata, names := SplitParameters(tmp);
    parameters := SortedText(names);
    SortedNames(names);
    metrics := CollectMetrics(rs);
    shape := AxisShape(domain, parameters);
    shape := shape + [|metrics|];
  }

  /** `Datacube.__init__` up to the fill loop: the data list of `None`s and the hasher. */
  method Allocate(ps: seq<Dict<string, Value>>, rs: seq<Dict<string, Value>>, name: string)
    returns (metadata: Dict<string, string>, domain: Domain, parameters: seq<string>, metrics: seq<string>,
             shape: seq<nat>, cells: array<Option<Value>>, hasher: Hasher)
    ensures fresh(cells) && fresh(hasher)
    ensures CubeView(name, metadata, domain, parameters, metrics, cells[..], hasher.View(), shape) == Skeleton(ps, rs, name)
  {
    metadata, domain, parameters, metrics, shape := Attributes(ps, rs);
    cells := new Option<Value>[Product(shape)](_ => None);
    hasher := new Hasher(metrics, domain, Some(metadata));
  }

  /** The loop building `order` in `reorder_parameters`. */
  method ResolveOrder(params: seq<string>, args: seq<Key>) returns (r: Result<seq<int>>)
    ensures r == OrderOf(params, args)
  {
    var order: seq<int> := [];
    for j := 0 to |args|
      invariant OrderOf(params, args[..j]) == Ok(order)
    {
      assert args[..j + 1][..j] == args[..j];
      match args[j]
      case KeyPos(i) =>
        order := order + [i];
      case KeyName(s) =>
        if s !in params {
          assert args[j] == args[..j + 1][j];
          return Err(ValueError);
        }
        order := order + [FirstIndex(params, s) as int];
    }
    assert args[..|args|] == args;
    return Ok(order);
  }

  /** `diff = [i for i in range(n) if i not in order]`. */
  method Unlisted(order: seq<int>, n: nat) returns (diff: seq<int>)
    ensures diff == Unmentioned(order, n)
  {
    diff := [];
    for i := 0 to n
      invariant diff == Unmentioned(order, i)
    {
      if i !in order {
        diff := diff + [i];
      }
    }
  }

  /** `tmps = [lst[i] for i in order]`. */
  method Gather(lst: seq<string>, order: seq<int>) returns (r: Result<seq<string>>)
    ensures r == Reorder(lst, order)
  {
    var tmps: seq<string> := [];
    for j := 0 to |order|
      invariant Reorder(lst, order[..j]) == Ok(tmps)
    {
      assert order[..j + 1][..j] == order[..j];
      var x := PyIndex(lst, order[j]);
      if x.Err? {
        assert order[j] == order[..j + 1][j];
        return Err(IndexError);
      }
      tmps := tmps + [x.value];
    }
    assert order[..|order|] == order;
    return Ok(tmps);
  }

  /** The list after `for i, param in enumerate(tmps): lst[i] = param`, and whether a write
      past its end raised IndexError. */
  function Overwritten(lst: seq<string>, tmps: seq<string>): (seq<string>, Result<()>) {
    if |tmps| <= |lst| then (tmps + lst[|tmps|..], Ok(())) else (tmps[..|lst|], Err(IndexError))
  }

  /** The write loop of `reorder_parameters`, in place. */
  method Overwrite(a: array<string>, tmps: seq<string>) returns (r: Result<()>)
    modifies a
    ensures (a[..], r) == Overwritten(old(a[..]), tmps)
  {
    for i := 0 to |tmps|
      invariant i <= a.Length
      invariant forall j :: 0 <= j < i ==> a[j] == tmps[j]
      invariant forall j :: i <= j < a.Length ==> a[j] == old(a[j])
    {
      if i >= a.Length {
        assert a[..] == tmps[..a.Length];
        return Err(IndexError);
      }
      a[i] := tmps[i];
    }
    assert a[..] == tmps + old(a[..])[|tmps|..];
    return Ok(());
  }

  class Datacube {
    var name: string
    var metadata: Dict<string, string>
    var domain: Domain
    var parameters: array<string>
    var metrics: seq<string>
    var data: seq<Option<Value>>
    var hash: Hasher
    var shape: seq<nat>

    /** The attributes as a value; `layout` is what the hasher holds. */
    function View(): CubeView
      reads this, hash, parameters
    {
      CubeView(name, metadata, domain, parameters[..], metrics, data, hash.View(), shape)
    }

    /** Sets every attribute; the parameter list gets an array of its own. */
    constructor (name: string, metadata: Dict<string, string>, domain: Domain, parameters: seq<string>,
                 metrics: seq<string>, data: seq<Option<Value>>, hash: Hasher, shape: seq<nat>)
      ensures fresh(this.parameters) && this.hash == hash
      ensures View() == CubeView(name, metadata, domain, parameters, metrics, data, hash.View(), shape)
    {
      this.name := name;
      this.metadata := metadata;
      this.domain := domain;
      this.parameters := new string[|parameters|](i requires 0 <= i < |parameters| => parameters[i]);
      this.metrics := metrics;
      this.data := data;
      this.hash := hash;
      this.shape := shape;
      new;
      assert this.parameters[..] == parameters;
    }

    /** `Datacube(parameters_ls, results_ls, exp_name)`. */
    static method Make(ps: seq<Dict<string, Value>>, rs: seq<Dict<string, Value>>, name: string)
      returns (r: Result<Datacube>)
      ensures Built(ps, rs, name).Err? ==> r == Err(Built(ps, rs, name).error)
      ensures Built(ps, rs, name).Ok? ==>
        r.Ok? && fresh(r.value) && fresh(r.value.hash) && fresh(r.value.parameters) &&
        r.value.View() == Built(ps, rs, name).value
    {
      var metadata, domain, parameters, metrics, shape, cells, hasher := Allocate(ps, rs, name);
      var filled := Fill(hasher, cells, ps, rs);
      if filled.Err? {
        return Err(filled.error);
      }
      var cube := new Datacube(name, metadata, domain, parameters, metrics, cells[..], hasher, shape);
      return Ok(cube);
    }

    /** `size()`: the product of the shape, metric axis included. */
    function Size(): nat
      reads this
    {
      Product(shape)
    }

    /** `add_metadata(**kwargs)`: the cube's metadata and its (possibly shared) hasher both
        take the new entries. */
    method AddMetadata(kwargs: Dict<string, string>)
      modifies this, hash
      ensures metadata == PutAll(old(metadata), kwargs)
      ensures hash == old(hash) && hash.View() == WithMetadata(old(hash.View()), kwargs)
      ensures name == old(name) && domain == old(domain) && parameters == old(parameters)
      ensures metrics == old(metrics) && data == old(data) && shape == old(shape)
    {
      metadata := PutAll(metadata, kwargs);
      hash.AddMetadata(kwargs);
    }

    /** `cube[index]`: the cube itself for a whole selection, the stored value when every axis
        is fixed, otherwise a new cube sharing `data` and `hash`, and sharing the parameter list
        unless some axis was demoted to metadata. */
    method GetItem(sels: seq<Sel>) returns (r: Result<Got>)
      ensures match Select(View(), sels)
        case Err(e) => r == Err(e)
        case Ok(Whole) => r == Ok(Same)
        case Ok(Scalar(v)) => r == Ok(Stored(v))
        case Ok(Sub(v)) =>
          r.Ok? && r.value.Cloned? && fresh(r.value.cube) && r.value.cube.View() == v &&
          r.value.cube.hash == hash && r.value.cube.data == data &&
          (if v.parameters == parameters[..] then r.value.cube.parameters == parameters
           else fresh(r.value.cube.parameters))
    {
      var c := View();
      var ix := ResolveIndex(c, sels);
      if ix.Err? {
        return Err(ix.error);
      }
      var fixed, scalar := ix.value.0, ix.value.1;
      var whole := CheckWhole(c, fixed);
      if whole.Err? {
        return Err(whole.error);
      }
      if whole.value {
        return Ok(Same);
      }
      if scalar {
        var v := ReadScalar(c, hash, fixed);
        if v.Err? {
          return Err(v.error);
        }
        return Ok(Stored(v.value));
      }
      var sub, dropped := CloneParts(c, fixed);
      if sub.Err? {
        return Err(sub.error);
      }
      var v := sub.value;
      var clone := new Datacube(name, v.metadata, v.domain, v.parameters, v.metrics, data, hash, v.shape);
      if !dropped {
        clone.parameters := parameters;
      }
      return Ok(Cloned(clone));
    }

    /** `cube(metric, **kwargs)`: an index tuple with each parameter's keyword, or a whole slice,
        and the metric last. */
    method Call(metric: Option<Sel>, kwargs: Dict<string, Sel>) returns (r: Result<Got>)
      ensures match CubeSelect.Call(View(), metric, kwargs)
        case Err(e) => r == Err(e)
        case Ok(Whole) => r == Ok(Same)
        case Ok(Scalar(v)) => r == Ok(Stored(v))
        case Ok(Sub(v)) =>
          r.Ok? && r.value.Cloned? && fresh(r.value.cube) && r.value.cube.View() == v &&
          r.value.cube.hash == hash && r.value.cube.data == data &&
          (if v.parameters == parameters[..] then r.value.cube.parameters == parameters
           else fresh(r.value.cube.parameters))
    {
      if |kwargs| == 0 && metric.None? {
        return Ok(Same);
      }
      ghost var full := CallIndex(parameters[..], metric, kwargs);
      var slices: seq<Sel> := [];
      for i := 0 to parameters.Length
        invariant slices == full[..i]
      {
        var v := Lookup(kwargs, parameters[i]);
        slices := slices + [if v.None? then Range(Open, Open, None) else v.value];
      }
      for j := 0 to |kwargs|
        invariant forall q :: 0 <= q < j ==> kwargs[q].0 in parameters[..]
      {
        if kwargs[j].0 !in parameters[..] {
          return Err(IndexError);
        }
      }
      slices := slices + [if metric.None? then Range(Open, Open, None) else metric.value];
      assert slices == full;
      r := GetItem(slices);
    }

    /** `reorder_parameters(*args)`, writing the new order into the parameter list in place. */
    method ReorderParameters(args: seq<Key>) returns (r: Result<()>)
      modifies parameters
      ensures (parameters[..], r) == Reordering(old(parameters[..]), args)
    {
      var order := ResolveOrder(parameters[..], args);
      if order.Err? {
        return Err(order.error);
      }
      var diff := Unlisted(order.value, parameters.Length);
      var tmps := Gather(parameters[..], order.value + diff);
      if tmps.Err? {
        return Err(tmps.error);
      }
      r := Overwrite(parameters, tmps.value);
    }
  }
}
