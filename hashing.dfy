/** The datacube's `Hasher`: a mixed-radix index from a metric name and one
    value per parameter into the datacube's flat data list. Domain axes get
    strides in the iteration order of the `domain` mapping (the first axis
    varies fastest), the metric gets the product of all domain sizes, and
    metadata names get stride 0. */
module Hashing {
  import opened Common
  import opened Sorting
  import opened Values
  import opened Radix

  /** `{p: i for i, p in enumerate(vals)}`: a repeated value keeps its last index. */
  function Inverse<T(==,!new)>(vals: seq<T>): (r: Dict<T, nat>)
    ensures DistinctKeys(r)
    ensures forall x :: HasKey(r, x) <==> x in vals
  {
    if vals == [] then []
    else
      var n := |vals| - 1;
      assert vals == vals[..n] + [vals[n]];
      PutFacts(Inverse(vals[..n]), vals[n], n);
      Put(Inverse(vals[..n]), vals[n], n)
  }

  /** `list(enumerate(vals))` with each pair flipped to `(value, index)`. */
  function Enumerated<T>(vals: seq<T>): (r: Dict<T, nat>)
    ensures |r| == |vals| && forall i :: 0 <= i < |vals| ==> r[i] == (vals[i], i)
  {
    seq(|vals|, i requires 0 <= i < |vals| => (vals[i], i))
  }

  /** `(index, name)` tuples in Python's order: by index, then by name. */
  predicate PairLe(a: (nat, string), b: (nat, string)) {
    a.0 < b.0 || (a.0 == b.0 && TextLe(a.1, b.1))
  }

  /** The order `sort(reverse=True)` arranges pairs in. */
  predicate PairGe(a: (nat, string), b: (nat, string)) {
    PairLe(b, a)
  }

  /** `[(v, k) for k, v in d.items()]`. */
  function Flip(d: Dict<string, nat>): (r: seq<(nat, string)>)
    ensures |r| == |d| && forall i :: 0 <= i < |d| ==> r[i] == (d[i].1, d[i].0)
  {
    seq(|d|, i requires 0 <= i < |d| => (d[i].1, d[i].0))
  }

  function Seconds(t: seq<(nat, string)>): (r: seq<string>)
    ensures |r| == |t| && forall i :: 0 <= i < |t| ==> r[i] == t[i].1
  {
    seq(|t|, i requires 0 <= i < |t| => t[i].1)
  }

  /** `Hasher.sort_back`: the keys of `d` ordered by their values. */
  function SortBack(d: Dict<string, nat>): seq<string> {
    Seconds(Sort(Flip(d), PairLe))
  }

  /** A parameter domain: axis name and its values, in mapping order. */
  type Domain = Dict<string, seq<string>>

  function DomainSizes(domain: Domain): (r: seq<nat>)
    ensures |r| == |domain| && forall i :: 0 <= i < |domain| ==> r[i] == |domain[i].1|
  {
    seq(|domain|, i requires 0 <= i < |domain| => |domain[i].1|)
  }

  /** `(name, stride)` for each domain axis. */
  function StrideItems(domain: Domain): (r: Dict<string, nat>)
    ensures |r| == |domain|
    ensures forall i :: 0 <= i < |domain| ==> r[i] == (domain[i].0, Weight(DomainSizes(domain), i))
  {
    seq(|domain|, i requires 0 <= i < |domain| => (domain[i].0, Weight(DomainSizes(domain), i)))
  }

  /** `(name, inverse of its values)` for each domain axis. */
  function InverseItems(domain: Domain): (r: Dict<string, Dict<string, nat>>)
    ensures |r| == |domain| && forall i :: 0 <= i < |domain| ==> r[i] == (domain[i].0, Inverse(domain[i].1))
  {
    seq(|domain|, i requires 0 <= i < |domain| => (domain[i].0, Inverse(domain[i].1)))
  }

  /** `(name, 0)` for each metadata name. */
  function ZeroItems(meta: Dict<string, string>): (r: Dict<string, nat>)
    ensures |r| == |meta| && forall i :: 0 <= i < |meta| ==> r[i] == (meta[i].0, 0)
  {
    seq(|meta|, i requires 0 <= i < |meta| => (meta[i].0, 0))
  }

  /** `(name, {value: 0})` for each metadata name. */
  function SingletonItems(meta: Dict<string, string>): (r: Dict<string, Dict<string, nat>>)
    ensures |r| == |meta| && forall i :: 0 <= i < |meta| ==> r[i] == (meta[i].0, Inverse([meta[i].1]))
  {
    seq(|meta|, i requires 0 <= i < |meta| => (meta[i].0, Inverse([meta[i].1])))
  }

  /** The state of a `Hasher`. */
  datatype Layout = Layout(
    metricInv: Dict<string, nat>,
    domInv: Dict<string, Dict<string, nat>>,
    strides: Dict<string, nat>,
    metricStride: nat)

  /** `Hasher.add_metadata`: stride 0 and the single value `{v: 0}` per name. */
  function WithMetadata(l: Layout, meta: Dict<string, string>): Layout {
    l.(strides := PutAll(l.strides, ZeroItems(meta)), domInv := PutAll(l.domInv, SingletonItems(meta)))
  }

  /** The state `Hasher(metrics, domain)` builds before it adds any metadata. */
  function Bare(metrics: seq<string>, domain: Domain): Layout {
    Layout(Inverse(metrics), PutAll([], InverseItems(domain)), PutAll([], StrideItems(domain)), Product(DomainSizes(domain)))
  }

  /** The state `Hasher(metrics, domain, metadata)` builds (no metadata is an empty mapping). */
  function Build(metrics: seq<string>, domain: Domain, meta: Dict<string, string>): Layout {
    WithMetadata(Bare(metrics, domain), meta)
  }

  /** `self.strides[p]` and `self.dom_inv[p][v]` both exist. */
  predicate Resolvable(l: Layout, item: (string, string)) {
    HasKey(l.strides, item.0) && HasKey(l.domInv, item.0) && HasKey(Get(l.domInv, item.0), item.1)
  }

  /** `self.strides[p] * self.dom_inv[p][v]`, or 0 where a lookup would fail. */
  function Term(l: Layout, item: (string, string)): nat {
    if Resolvable(l, item) then Get(l.strides, item.0) * Get(Get(l.domInv, item.0), item.1) else 0
  }

  /** `Σ Term(l, item)` over the items in order. */
  function TermSum(l: Layout, items: Dict<string, string>): nat {
    if items == [] then 0 else TermSum(l, items[..|items| - 1]) + Term(l, items[|items| - 1])
  }

  lemma TermSumStep(l: Layout, items: Dict<string, string>, i: nat)
    requires i < |items| && Resolvable(l, items[i])
    ensures TermSum(l, items[..i + 1]) ==
      TermSum(l, items[..i]) + Get(l.strides, items[i].0) * Get(Get(l.domInv, items[i].0), items[i].1)
  {
    assert items[..i + 1][..i] == items[..i];
  }

  lemma HashUnresolved(l: Layout, metric: string, params: Dict<string, string>, i: nat)
    requires |params| == |l.strides| && HasKey(l.metricInv, metric)
    requires i < |params| && !Resolvable(l, params[i])
    ensures HashOf(l, metric, params) == Err(KeyError)
  {
  }

  lemma HashResolved(l: Layout, metric: string, params: Dict<string, string>)
    requires |params| == |l.strides| && HasKey(l.metricInv, metric)
    requires forall j :: 0 <= j < |params| ==> Resolvable(l, params[j])
    ensures HashOf(l, metric, params) == Ok(Get(l.metricInv, metric) * l.metricStride + TermSum(l, params[..|params|]))
  {
    assert params[..|params|] == params;
  }

  /** `Hasher.hash(metric, params)`. */
  function HashOf(l: Layout, metric: string, params: Dict<string, string>): Result<nat> {
    if |params| != |l.strides| then Err(IndexError)
    else if !HasKey(l.metricInv, metric) then Err(KeyError)
    else if exists i :: 0 <= i < |params| && !Resolvable(l, params[i]) then Err(KeyError)
    else Ok(Get(l.metricInv, metric) * l.metricStride + TermSum(l, params))
  }

  /** The dimensions `dehash` walks: `(stride, name)`, largest first. */
  function Dims(l: Layout): seq<(nat, string)> {
    Sort(Flip(l.strides), PairGe)
  }

  /** The loop of `dehash` over `dims`, with the remaining index and the result so far. */
  function DehashDims(l: Layout, dims: seq<(nat, string)>, index: nat, res: Dict<string, string>): Result<Dict<string, string>> {
    if dims == [] then Ok(res)
    else
      var stride := dims[0].0;
      var param := dims[0].1;
      if stride == 0 then DehashDims(l, dims[1..], index, res)
      else if !HasKey(l.domInv, param) then Err(KeyError)
      else
        var dom := SortBack(Get(l.domInv, param));
        var p := index / stride;
        if p >= |dom| then Err(IndexError)
        else DehashDims(l, dims[1..], index % stride, Put(res, param, dom[p]))
  }

  /** `Hasher.dehash(index)`. */
  function DehashOf(l: Layout, index: int): Result<Dict<string, string>> {
    if l.metricStride == 0 then Err(ZeroDivisionError)
    else
      var metric := PyIndex(SortBack(l.metricInv), index / l.metricStride);
      if metric.Err? then Err(IndexError)
      else DehashDims(l, Dims(l), index % l.metricStride, [("metric", metric.value)])
  }

  /** The rest of `get_cons_args`'s loop over `items`, from the domain and metadata built so far:
      stride 0 means metadata. */
  function ConsSplit(l: Layout, items: Dict<string, Dict<string, nat>>, domain: Domain, meta: Dict<string, string>): Result<(Domain, Dict<string, string>)> {
    if items == [] then Ok((domain, meta))
    else
      var param := items[0].0;
      if !HasKey(l.strides, param) then Err(KeyError)
      else if Get(l.strides, param) == 0 then
        var back := SortBack(items[0].1);
        if back == [] then Err(IndexError)
        else ConsSplit(l, items[1..], domain, Put(meta, param, back[0]))
      else ConsSplit(l, items[1..], Put(domain, param, SortBack(items[0].1)), meta)
  }

  /** `Hasher.get_cons_args()`: the metrics, domain and metadata (`None` when empty). */
  function ConsArgsOf(l: Layout): Result<(seq<string>, Domain, Option<Dict<string, string>>)> {
    var split := ConsSplit(l, l.domInv, [], []);
    if split.Err? then Err(split.error)
    else Ok((SortBack(l.metricInv), split.value.0, if split.value.1 == [] then None else Some(split.value.1)))
  }

  /** The loop of `Hasher.__init__` over the axes: value indices, strides and the running stride. */
  method AxisTables(domain: Domain) returns (inv: Dict<string, Dict<string, nat>>, str: Dict<string, nat>, lastStride: nat)
    ensures inv == PutAll([], InverseItems(domain)) && str == PutAll([], StrideItems(domain))
    ensures lastStride == Product(DomainSizes(domain))
  {
    inv, str, lastStride := [], [], 1;
    for i := 0 to |domain|
      invariant inv == PutAll([], InverseItems(domain)[..i])
      invariant str == PutAll([], StrideItems(domain)[..i])
      invariant lastStride == Weight(DomainSizes(domain), i)
    {
      var name := domain[i].0;
      var vals := domain[i].1;
      PutAllStep([], InverseItems(domain), i);
      PutAllStep([], StrideItems(domain), i);
      inv := Put(inv, name, Inverse(vals));
      str := Put(str, name, lastStride);
      WeightStep(DomainSizes(domain), i);
      lastStride := lastStride * |vals|;
    }
    AxisDone(domain);
  }

  lemma AxisDone(domain: Domain)
    ensures InverseItems(domain)[..|domain|] == InverseItems(domain)
    ensures StrideItems(domain)[..|domain|] == StrideItems(domain)
    ensures Weight(DomainSizes(domain), |domain|) == Product(DomainSizes(domain))
  {
    assert DomainSizes(domain)[..|domain|] == DomainSizes(domain);
  }

  /** The loop of `Hasher.__init__` over the metadata: stride 0 and the single value `{v: 0}`. */
  method MetadataTables(inv0: Dict<string, Dict<string, nat>>, str0: Dict<string, nat>, meta: Dict<string, string>)
    returns (inv: Dict<string, Dict<string, nat>>, str: Dict<string, nat>)
    ensures inv == PutAll(inv0, SingletonItems(meta)) && str == PutAll(str0, ZeroItems(meta))
  {
    inv, str := inv0, str0;
    for j := 0 to |meta|
      invariant inv == PutAll(inv0, SingletonItems(meta)[..j])
      invariant str == PutAll(str0, ZeroItems(meta)[..j])
    {
      PutAllStep(inv0, SingletonItems(meta), j);
      PutAllStep(str0, ZeroItems(meta), j);
      str := Put(str, meta[j].0, 0);
      inv := Put(inv, meta[j].0, Inverse([meta[j].1]));
    }
    assert SingletonItems(meta)[..|meta|] == SingletonItems(meta);
    assert ZeroItems(meta)[..|meta|] == ZeroItems(meta);
  }

  class Hasher {
    var metricInv: Dict<string, nat>
    var domInv: Dict<string, Dict<string, nat>>
    var strides: Dict<string, nat>
    var metricStride: nat

    function View(): Layout
      reads this
    {
      Layout(metricInv, domInv, strides, metricStride)
    }

    /** `Hasher(metrics, domain, metadata)`. */
    constructor (metrics: seq<string>, domain: Domain, metadata: Option<Dict<string, string>>)
      ensures View() == Build(metrics, domain, if metadata.Some? then metadata.value else [])
    {
      var inv, str, lastStride := AxisTables(domain);
      metricStride := lastStride;
      if metadata.Some? {
        inv, str := MetadataTables(inv, str, metadata.value);
      } else {
        assert ZeroItems([]) == [] && SingletonItems([]) == [];
      }
      metricInv := Inverse(metrics);
      domInv := inv;
      strides := str;
    }

    /** `Hasher.add_metadata(**kwargs)`. */
    method AddMetadata(kwargs: Dict<string, string>)
      modifies this
      ensures View() == WithMetadata(old(View()), kwargs)
    {
      ghost var inv0, str0 := domInv, strides;
      for j := 0 to |kwargs|
        invariant domInv == PutAll(inv0, SingletonItems(kwargs)[..j])
        invariant strides == PutAll(str0, ZeroItems(kwargs)[..j])
        invariant metricInv == old(metricInv) && metricStride == old(metricStride)
      {
        PutAllStep(inv0, SingletonItems(kwargs), j);
        PutAllStep(str0, ZeroItems(kwargs), j);
        strides := Put(strides, kwargs[j].0, 0);
        domInv := Put(domInv, kwargs[j].0, Inverse([kwargs[j].1]));
      }
      assert SingletonItems(kwargs)[..|kwargs|] == SingletonItems(kwargs);
      assert ZeroItems(kwargs)[..|kwargs|] == ZeroItems(kwargs);
    }

    /** `Hasher.hash(metric, params)` (also `__call__`). */
    method Hash(metric: string, params: Dict<string, string>) returns (r: Result<nat>)
      ensures r == HashOf(View(), metric, params)
    {
      ghost var l := View();
      var st, di := strides, domInv;
      if |params| != |st| {
        return Err(IndexError);
      }
      if !HasKey(metricInv, metric) {
        return Err(KeyError);
      }
      var base := Get(metricInv, metric) * metricStride;
      var index := base;
      for i := 0 to |params|
        invariant forall j :: 0 <= j < i ==> Resolvable(l, params[j])
        invariant index == base + TermSum(l, params[..i])
      {
        var p, pv := params[i].0, params[i].1;
        if !HasKey(st, p) || !HasKey(di, p) || !HasKey(Get(di, p), pv) {
          HashUnresolved(l, metric, params, i);
          return Err(KeyError);
        }
        assert Resolvable(l, params[i]);
        assert forall j :: 0 <= j < i + 1 ==> Resolvable(l, params[j]);
        TermSumStep(l, params, i);
        index := index + Get(st, p) * Get(Get(di, p), pv);
      }
      HashResolved(l, metric, params);
      return Ok(index);
    }

    /** `Hasher.dehash(index)`. */
    method Dehash(index: int) returns (r: Result<Dict<string, string>>)
      ensures r == DehashOf(View(), index)
    {
      if metricStride == 0 {
        return Err(ZeroDivisionError);
      }
      var metric := PyIndex(SortBack(metricInv), index / metricStride);
      if metric.Err? {
        return Err(IndexError);
      }
      var dims := Dims(View());
      r := DehashFrom(dims, index % metricStride, [("metric", metric.value)]);
    }

    /** The loop of `dehash` over the dimensions, from the remaining index. */
    method DehashFrom(dims: seq<(nat, string)>, index: nat, res0: Dict<string, string>) returns (r: Result<Dict<string, string>>)
      ensures r == DehashDims(View(), dims, index, res0)
    {
      var res := res0;
      var rest := index;
      assert dims[0..] == dims;
      for i := 0 to |dims|
        invariant DehashDims(View(), dims, index, res0) == DehashDims(View(), dims[i..], rest, res)
      {
        assert dims[i..][0] == dims[i] && dims[i..][1..] == dims[i + 1..];
        var stride := dims[i].0;
        var param := dims[i].1;
        if stride != 0 {
          if !HasKey(domInv, param) {
            return Err(KeyError);
          }
          var dom := SortBack(Get(domInv, param));
          var pIdx := rest / stride;
          if pIdx >= |dom| {
            return Err(IndexError);
          }
          res := Put(res, param, dom[pIdx]);
          rest := rest % stride;
        }
      }
      return Ok(res);
    }

    /** `Hasher.get_cons_args()`. */
    method GetConsArgs() returns (r: Result<(seq<string>, Domain, Option<Dict<string, string>>)>)
      ensures r == ConsArgsOf(View())
    {
      var metrics := SortBack(metricInv);
      var metadata: Dict<string, string> := [];
      var domain: Domain := [];
      for i := 0 to |domInv|
        invariant ConsSplit(View(), domInv, [], []) == ConsSplit(View(), domInv[i..], domain, metadata)
      {
        assert domInv[i..][1..] == domInv[i + 1..];
        var param := domInv[i].0;
        var domdic := domInv[i].1;
        if !HasKey(strides, param) {
          return Err(KeyError);
        }
        if Get(strides, param) == 0 {
          var back := SortBack(domdic);
          if back == [] {
            return Err(IndexError);
          }
          metadata := Put(metadata, param, back[0]);
        } else {
          domain := Put(domain, param, SortBack(domdic));
        }
      }
      return Ok((metrics, domain, if metadata == [] then None else Some(metadata)));
    }
  }
}
