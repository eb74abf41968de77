/** The legacy `Hasher` of `clustertools/experiment.py`: a mixed-radix index from a metric
    name and a parameter assignment. The domain axes get running-product strides in the
    iteration order of the `domain` mapping, the metric gets the product of all domain
    sizes, and metadata names get stride 0 and the single value index 0. Unlike the
    datacube's hasher it takes any parameter values and does not check how many parameters
    `hash` is given. */
module LegacyHashing {
  import opened Common
  import opened Values
  import opened Radix
  import Hashing

  /** Each axis name and its values, in mapping order. */
  type Domain = Dict<string, seq<Value>>

  function DomainSizes(domain: Domain): (r: seq<nat>)
    ensures |r| == |domain| && forall i :: 0 <= i < |domain| ==> r[i] == |domain[i].1|
  {
    seq(|domain|, i requires 0 <= i < |domain| => |domain[i].1|)
  }

  /** `(name, {p: i for i, p in enumerate(vals)})` for each axis. */
  function InverseItems(domain: Domain): (r: Dict<string, Dict<Value, nat>>)
    ensures |r| == |domain| && forall i :: 0 <= i < |domain| ==> r[i] == (domain[i].0, Hashing.Inverse(domain[i].1))
  {
    seq(|domain|, i requires 0 <= i < |domain| => (domain[i].0, Hashing.Inverse(domain[i].1)))
  }

  /** `(name, stride)` for each axis: the product of the sizes of the axes before it. */
  function StrideItems(domain: Domain): (r: Dict<string, nat>)
    ensures |r| == |domain|
    ensures forall i :: 0 <= i < |domain| ==> r[i] == (domain[i].0, Weight(DomainSizes(domain), i))
  {
    seq(|domain|, i requires 0 <= i < |domain| => (domain[i].0, Weight(DomainSizes(domain), i)))
  }

  /** `(name, {val: 0})` for each metadata name. */
  function SingletonItems(meta: Dict<string, Value>): (r: Dict<string, Dict<Value, nat>>)
    ensures |r| == |meta| && forall i :: 0 <= i < |meta| ==> r[i] == (meta[i].0, [(meta[i].1, 0)])
  {
    seq(|meta|, i requires 0 <= i < |meta| => (meta[i].0, [(meta[i].1, 0)]))
  }

  /** `(name, 0)` for each metadata name. */
  function ZeroItems(meta: Dict<string, Value>): (r: Dict<string, nat>)
    ensures |r| == |meta| && forall i :: 0 <= i < |meta| ==> r[i] == (meta[i].0, 0)
  {
    seq(|meta|, i requires 0 <= i < |meta| => (meta[i].0, 0))
  }

  /** The state of a `Hasher`. */
  datatype Layout = Layout(
    metricInv: Dict<string, nat>,
    domInv: Dict<string, Dict<Value, nat>>,
    strides: Dict<string, nat>,
    metricStride: nat)

  /** The state `Hasher(metrics, domain, metadata)` builds; no metadata adds nothing. */
  function Build(metrics: seq<string>, domain: Domain, metadata: Option<Dict<string, Value>>): Layout {
    var meta := if metadata.Some? then metadata.value else [];
    Layout(
      Hashing.Inverse(metrics),
      PutAll(PutAll([], InverseItems(domain)), SingletonItems(meta)),
      PutAll(PutAll([], StrideItems(domain)), ZeroItems(meta)),
      Product(DomainSizes(domain)))
  }

  /** `self.strides[p]` and `self.dom_inv[p][pv]` both exist. */
  predicate Resolvable(l: Layout, item: (string, Value)) {
    HasKey(l.strides, item.0) && HasKey(l.domInv, item.0) && HasKey(Get(l.domInv, item.0), item.1)
  }

  /** `self.strides[p] * self.dom_inv[p][pv]`. */
  function Term(l: Layout, item: (string, Value)): nat
    requires Resolvable(l, item)
  {
    Get(l.strides, item.0) * Get(Get(l.domInv, item.0), item.1)
  }

  /** The loop of `hash` over `params`: the sum of the terms, or `KeyError` at the first
      parameter it cannot look up. */
  function Terms(l: Layout, params: Dict<string, Value>): Result<nat> {
    if params == [] then Ok(0)
    else
      var n := |params| - 1;
      var r := Terms(l, params[..n]);
      if r.Err? then r
      else if !Resolvable(l, params[n]) then Err(KeyError)
      else Ok(r.value + Term(l, params[n]))
  }

  /** `hash(metric, params)` (also `__call__`): `KeyError` for an unknown metric. */
  function HashOf(l: Layout, metric: string, params: Dict<string, Value>): Result<nat> {
    if !HasKey(l.metricInv, metric) then Err(KeyError)
    else
      var t := Terms(l, params);
      if t.Err? then Err(t.error) else Ok(Get(l.metricInv, metric) * l.metricStride + t.value)
  }

  lemma TermsStep(l: Layout, params: Dict<string, Value>, i: nat)
    requires i < |params|
    ensures var r := Terms(l, params[..i]);
      Terms(l, params[..i + 1]) ==
        if r.Err? then r
        else if !Resolvable(l, params[i]) then Err(KeyError)
        else Ok(r.value + Term(l, params[i]))
  {
    assert params[..i + 1][..i] == params[..i];
  }

  /** The loop of `Hasher.__init__` over the domain, with its running stride. */
  method AxisTables(domain: Domain) returns (inv: Dict<string, Dict<Value, nat>>, str: Dict<string, nat>, lastStride: nat)
    ensures inv == PutAll([], InverseItems(domain)) && str == PutAll([], StrideItems(domain))
    ensures lastStride == Product(DomainSizes(domain))
  {
    inv, str, lastStride := [], [], 1;
    for i := 0 to |domain|
      invariant inv == PutAll([], InverseItems(domain)[..i])
      invariant str == PutAll([], StrideItems(domain)[..i])
      invariant lastStride == Weight(DomainSizes(domain), i)
    {
      AxisStep(domain, i);
      inv := Put(inv, domain[i].0, Hashing.Inverse(domain[i].1));
      str := Put(str, domain[i].0, lastStride);
      lastStride := lastStride * |domain[i].1|;
    }
    AxisDone(domain);
  }

  lemma AxisDone(domain: Domain)
    ensures InverseItems(domain)[..|domain|] == InverseItems(domain)
    ensures StrideItems(domain)[..|domain|] == StrideItems(domain)
    ensures Weight(DomainSizes(domain), |domain|) == Product(DomainSizes(domain))
  {
    assert DomainSizes(domain)[..|domain|] == DomainSizes(domain);
  }

  /** One more axis of the loop of `Hasher.__init__`. */
  lemma AxisStep(domain: Domain, i: nat)
    requires i < |domain|
    ensures PutAll([], InverseItems(domain)[..i + 1]) ==
      Put(PutAll([], InverseItems(domain)[..i]), domain[i].0, Hashing.Inverse(domain[i].1))
    ensures PutAll([], StrideItems(domain)[..i + 1]) ==
      Put(PutAll([], StrideItems(domain)[..i]), domain[i].0, Weight(DomainSizes(domain), i))
    ensures Weight(DomainSizes(domain), i + 1) == Weight(DomainSizes(domain), i) * |domain[i].1|
  {
    PutAllStep([], InverseItems(domain), i);
    PutAllStep([], StrideItems(domain), i);
    WeightStep(DomainSizes(domain), i);
  }

  /** The loop of `Hasher.__init__` over the metadata: stride 0 and `{val: 0}`. */
  method MetadataTables(inv0: Dict<string, Dict<Value, nat>>, str0: Dict<string, nat>, meta: Dict<string, Value>)
    returns (inv: Dict<string, Dict<Value, nat>>, str: Dict<string, nat>)
    ensures inv == PutAll(inv0, SingletonItems(meta)) && str == PutAll(str0, ZeroItems(meta))
  {
    inv, str := inv0, str0;
    for j := 0 to |meta|
      invariant inv == PutAll(inv0, SingletonItems(meta)[..j])
      invariant str == PutAll(str0, ZeroItems(meta)[..j])
    {
      PutAllStep(inv0, SingletonItems(meta), j);
      PutAllStep(str0, ZeroItems(meta), j);
      str := Put(str, meta[j].0, 0);
      inv := Put(inv, meta[j].0, [(meta[j].1, 0)]);
    }
    assert SingletonItems(meta)[..|meta|] == SingletonItems(meta);
    assert ZeroItems(meta)[..|meta|] == ZeroItems(meta);
  }

  class Hasher {
    var metricInv: Dict<string, nat>
    var domInv: Dict<string, Dict<Value, nat>>
    var strides: Dict<string, nat>
    var metricStride: nat

    function View(): Layout
      reads this
    {
      Layout(metricInv, domInv, strides, metricStride)
    }

    /** `Hasher(metrics, domain, metadata)`. */
    constructor (metrics: seq<string>, domain: Domain, metadata: Option<Dict<string, Value>>)
      ensures View() == Build(metrics, domain, metadata)
    {
      var inv, str, lastStride := AxisTables(domain);
      metricStride := lastStride;
      var meta := if metadata.Some? then metadata.value else [];
      inv, str := MetadataTables(inv, str, meta);
      metricInv := Hashing.Inverse(metrics);
      domInv := inv;
      strides := str;
    }

    /** `hash(metric, params)`. */
    method Hash(metric: string, params: Dict<string, Value>) returns (r: Result<nat>)
      ensures r == HashOf(View(), metric, params)
    {
      if !HasKey(metricInv, metric) {
        return Err(KeyError);
      }
      var index := Get(metricInv, metric) * metricStride;
      for i := 0 to |params|
        invariant Terms(View(), params[..i]).Ok?
        invariant index == Get(metricInv, metric) * metricStride + Terms(View(), params[..i]).value
      {
        TermsStep(View(), params, i);
        var p, pv := params[i].0, params[i].1;
        if !HasKey(strides, p) || !HasKey(domInv, p) || !HasKey(Get(domInv, p), pv) {
          TermsPropagate(View(), params, i + 1);
          return Err(KeyError);
        }
        index := index + Get(strides, p) * Get(Get(domInv, p), pv);
      }
      assert params[..|params|] == params;
      r := Ok(index);
    }
  }

  /** Once the loop has raised, the rest of `params` does not matter. */
  lemma {:induction false} TermsPropagate(l: Layout, params: Dict<string, Value>, i: nat)
    requires i <= |params| && Terms(l, params[..i]).Err?
    ensures Terms(l, params) == Terms(l, params[..i])
    decreases |params| - i
  {
    if i < |params| {
      TermsStep(l, params, i);
      TermsPropagate(l, params, i + 1);
    } else {
      assert params[..i] == params;
    }
  }
}
