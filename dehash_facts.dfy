/** `dehash` inverts `hash` on the domain axes when every axis has at least
    two values: it walks the strides from the largest down, peeling one
    mixed-radix digit per axis, and skips the metadata (stride 0). */
module DehashFacts {
  import opened Common
  import opened Sorting
  import opened Radix
  import opened Hashing
  import opened HashingFacts
  import opened Values

  /** Every axis offers a choice: at least two values. */
  predicate Branching(domain: Domain) {
    forall i :: 0 <= i < |domain| ==> |domain[i].1| >= 2
  }

  /** `(name_i, vals_i[cs_i])` for each axis. */
  function Picked(domain: Domain, cs: seq<nat>): (r: Dict<string, string>)
    requires |cs| >= |domain| && forall i :: 0 <= i < |domain| ==> cs[i] < |domain[i].1|
    ensures |r| == |domain| && forall i :: 0 <= i < |domain| ==> r[i] == (domain[i].0, domain[i].1[cs[i]])
  {
    seq(|domain|, i requires 0 <= i < |domain| && |cs| >= |domain| && cs[i] < |domain[i].1| => (domain[i].0, domain[i].1[cs[i]]))
  }

  lemma WeightPositive(sizes: seq<nat>, i: nat)
    requires i <= |sizes| && forall j :: 0 <= j < |sizes| ==> sizes[j] >= 1
    ensures Weight(sizes, i) >= 1
    decreases i
  {
    if i > 0 {
      WeightPositive(sizes, i - 1);
      WeightStep(sizes, i - 1);
      MulMonotonic(Weight(sizes, i - 1), 1, sizes[i - 1]);
    }
  }

  /** With at least two values per axis, strides strictly increase along the mapping order. */
  lemma {:induction false} WeightIncreasing(sizes: seq<nat>, i: nat, j: nat)
    requires i < j <= |sizes| && forall k :: 0 <= k < |sizes| ==> sizes[k] >= 2
    ensures Weight(sizes, i) < Weight(sizes, j)
    decreases j
  {
    WeightPositive(sizes, j - 1);
    WeightStep(sizes, j - 1);
    MulMonotonic(Weight(sizes, j - 1), 2, sizes[j - 1]);
    if i < j - 1 {
      WeightIncreasing(sizes, i, j - 1);
    }
  }

  lemma ReversePrefix<T>(s: seq<T>, n: nat)
    requires 0 < n <= |s|
    ensures Reverse(s[..n]) == [s[n - 1]] + Reverse(s[..n - 1])
  {
    assert s[..n][..n - 1] == s[..n - 1];
  }

  /** The axes' `(stride, name)` pairs, largest stride first. */
  function AxisDims(domain: Domain): seq<(nat, string)> {
    Reverse(Flip(StrideItems(domain)))
  }

  lemma AxisDimsDecreasing(domain: Domain)
    requires Branching(domain)
    ensures SortedBy(AxisDims(domain), PairGe)
    ensures forall i :: 0 <= i < |AxisDims(domain)| ==> AxisDims(domain)[i].0 >= 1
  {
    var sizes := DomainSizes(domain);
    var r := AxisDims(domain);
    var n := |domain|;
    forall i, j | 0 <= i < j < |r| ensures PairGe(r[i], r[j]) {
      WeightIncreasing(sizes, n - 1 - j, n - 1 - i);
    }
    forall i | 0 <= i < |r| ensures r[i].0 >= 1 {
      WeightPositive(sizes, n - 1 - i);
    }
  }

  /** Sorted metadata pairs, all of stride 0. */
  lemma ZeroDims(meta: Dict<string, string>)
    ensures SortedBy(Sort(Flip(ZeroItems(meta)), PairGe), PairGe)
    ensures forall j :: 0 <= j < |Sort(Flip(ZeroItems(meta)), PairGe)| ==> Sort(Flip(ZeroItems(meta)), PairGe)[j].0 == 0
  {
    var z := Sort(Flip(ZeroItems(meta)), PairGe);
    PairOrder();
    SortSorted(Flip(ZeroItems(meta)), PairGe);
    SortPermutes(Flip(ZeroItems(meta)), PairGe);
    forall j | 0 <= j < |z| ensures z[j].0 == 0 {
      assert z[j] in multiset(Flip(ZeroItems(meta)));
    }
  }

  lemma SortedAppend(a: seq<(nat, string)>, z: seq<(nat, string)>)
    requires SortedBy(a, PairGe) && SortedBy(z, PairGe)
    requires forall i :: 0 <= i < |a| ==> a[i].0 >= 1
    requires forall j :: 0 <= j < |z| ==> z[j].0 == 0
    ensures SortedBy(a + z, PairGe)
  {
    var c := a + z;
    forall i, j | 0 <= i < j < |c| ensures PairGe(c[i], c[j]) {
      if j < |a| {
        assert PairGe(a[i], a[j]);
      } else if i >= |a| {
        assert PairGe(z[i - |a|], z[j - |a|]);
      }
    }
  }

  lemma FlipConcat(a: Dict<string, nat>, b: Dict<string, nat>)
    ensures Flip(a + b) == Flip(a) + Flip(b)
  {
  }

  lemma DimsPermutes(l: Layout, metrics: seq<string>, domain: Domain, meta: Dict<string, string>)
    requires Shaped(l, metrics, domain, meta)
    ensures multiset(Dims(l)) == multiset(AxisDims(domain) + Sort(Flip(ZeroItems(meta)), PairGe))
  {
    var fa, fz := Flip(StrideItems(domain)), Flip(ZeroItems(meta));
    SortPermutes(fz, PairGe);
    ReversePermutes(fa);
    FlipConcat(StrideItems(domain), ZeroItems(meta));
    SortPermutes(Flip(l.strides), PairGe);
    calc {
      multiset(Dims(l));
      multiset(fa + fz);
      multiset(fa) + multiset(fz);
      multiset(Reverse(fa)) + multiset(Sort(fz, PairGe));
      multiset(Reverse(fa) + Sort(fz, PairGe));
    }
  }

  /** `dims` after `dims.sort(reverse=True)`: the axes by decreasing stride, then the metadata. */
  lemma DimsShape(l: Layout, metrics: seq<string>, domain: Domain, meta: Dict<string, string>)
    requires Shaped(l, metrics, domain, meta) && Branching(domain)
    ensures Dims(l) == AxisDims(domain) + Sort(Flip(ZeroItems(meta)), PairGe)
  {
    PairOrder();
    AxisDimsDecreasing(domain);
    ZeroDims(meta);
    SortedAppend(AxisDims(domain), Sort(Flip(ZeroItems(meta)), PairGe));
    SortSorted(Flip(l.strides), PairGe);
    DimsPermutes(l, metrics, domain, meta);
    SortedUnique(Dims(l), AxisDims(domain) + Sort(Flip(ZeroItems(meta)), PairGe), PairGe);
  }

  /** The metadata part of `dims` is skipped. */
  lemma {:induction false} SkipZeros(l: Layout, z: seq<(nat, string)>, index: nat, res: Dict<string, string>)
    requires forall i :: 0 <= i < |z| ==> z[i].0 == 0
    ensures DehashDims(l, z, index, res) == Ok(res)
  {
    if z != [] {
      SkipZeros(l, z[1..], index, res);
    }
  }

  /** One step of the loop: the top remaining digit names the value of axis `k`. */
  lemma DehashStep(l: Layout, metrics: seq<string>, domain: Domain, meta: Dict<string, string>,
                   cs: seq<nat>, k: nat, rest: seq<(nat, string)>, res: Dict<string, string>)
    requires Shaped(l, metrics, domain, meta) && WellFormed(metrics, domain, meta)
    requires Digits(cs, DomainSizes(domain)) && k < |domain|
    requires !HasKey(res, domain[k].0)
    ensures DehashDims(l, [Flip(StrideItems(domain))[k]] + rest, Encode(cs[..k + 1], DomainSizes(domain)[..k + 1]), res) ==
      DehashDims(l, rest, Encode(cs[..k], DomainSizes(domain)[..k]), res + [(domain[k].0, domain[k].1[cs[k]])])
  {
    var sizes := DomainSizes(domain);
    var n := k + 1;
    assert Digits(cs[..n], sizes[..n]);
    TopDigit(cs[..n], sizes[..n]);
    assert cs[..n][..k] == cs[..k] && sizes[..n][..k] == sizes[..k];
    AxisLookup(l, metrics, domain, meta, k);
    SortBackInverse(domain[k].1);
    var dims := [Flip(StrideItems(domain))[k]] + rest;
    assert dims[1..] == rest;
  }

  /** Peeling the top `n` axes, largest stride first, appends their values in that order. */
  lemma {:induction false} DehashPeel(l: Layout, metrics: seq<string>, domain: Domain, meta: Dict<string, string>,
                                      cs: seq<nat>, n: nat, z: seq<(nat, string)>, res: Dict<string, string>)
    requires Shaped(l, metrics, domain, meta) && WellFormed(metrics, domain, meta)
    requires Digits(cs, DomainSizes(domain)) && n <= |domain|
    requires forall i :: 0 <= i < |z| ==> z[i].0 == 0
    requires forall i :: 0 <= i < n ==> !HasKey(res, domain[i].0)
    ensures DehashDims(l, Reverse(Flip(StrideItems(domain))[..n]) + z, Encode(cs[..n], DomainSizes(domain)[..n]), res) ==
      Ok(res + Reverse(Picked(domain, cs)[..n]))
  {
    var f := Flip(StrideItems(domain));
    var p := Picked(domain, cs);
    if n == 0 {
      assert Reverse(f[..0]) + z == z && res + Reverse(p[..0]) == res;
      SkipZeros(l, z, 0, res);
    } else {
      var k := n - 1;
      PeelSplit(f, p, z, res, n);
      DehashStep(l, metrics, domain, meta, cs, k, Reverse(f[..k]) + z, res);
      PeeledFresh(domain, res, p[k].1, k);
      DehashPeel(l, metrics, domain, meta, cs, k, z, res + [p[k]]);
    }
  }

  /** The top of the peeled axes and of the picked values, split off. */
  lemma PeelSplit(f: seq<(nat, string)>, p: Dict<string, string>, z: seq<(nat, string)>, res: Dict<string, string>, n: nat)
    requires 0 < n <= |f| && n <= |p|
    ensures Reverse(f[..n]) + z == [f[n - 1]] + (Reverse(f[..n - 1]) + z)
    ensures (res + [p[n - 1]]) + Reverse(p[..n - 1]) == res + Reverse(p[..n])
  {
    ReversePrefix(f, n);
    ReversePrefix(p, n);
  }

  /** Appending the value of axis `k` leaves the names of the axes before it unused. */
  lemma PeeledFresh(domain: Domain, res: Dict<string, string>, v: string, k: nat)
    requires DistinctKeys(domain) && k < |domain|
    requires forall i :: 0 <= i < k ==> !HasKey(res, domain[i].0)
    ensures forall i :: 0 <= i < k ==> !HasKey(res + [(domain[k].0, v)], domain[i].0)
  {
    forall i | 0 <= i < k ensures !HasKey(res + [(domain[k].0, v)], domain[i].0) {
      KeysConcat(res, [(domain[k].0, v)]);
      assert Keys(domain)[i] != Keys(domain)[k];
    }
  }

  /** `dehash` of the flat index with digits `cs`: the metric first, then each axis's value, largest stride first. */
  lemma DehashOfIndex(l: Layout, metrics: seq<string>, domain: Domain, meta: Dict<string, string>, cs: seq<nat>)
    requires Shaped(l, metrics, domain, meta) && WellFormed(metrics, domain, meta) && Branching(domain)
    requires !HasKey(domain, "metric")
    requires Digits(cs, DomainSizes(domain) + [|metrics|])
    ensures DehashOf(l, Encode(cs, DomainSizes(domain) + [|metrics|])) ==
      Ok([("metric", metrics[cs[|domain|]])] + Reverse(Picked(domain, cs)))
  {
    var k := |domain|;
    var sizes := DomainSizes(domain);
    var all := sizes + [|metrics|];
    var low := cs[..k];
    assert all[..k] == sizes;
    TopDigit(cs, all);
    SortBackInverse(metrics);
    var res := [("metric", metrics[cs[k]])];
    forall i | 0 <= i < k ensures !HasKey(res, domain[i].0) {
      assert HasKey(domain, domain[i].0);
    }
    assert Digits(low, sizes);
    DehashAxes(l, metrics, domain, meta, low, res);
    assert Picked(domain, low) == Picked(domain, cs);
  }

  /** The loop over all of `dims` appends every axis's value, largest stride first. */
  lemma DehashAxes(l: Layout, metrics: seq<string>, domain: Domain, meta: Dict<string, string>,
                   low: seq<nat>, res: Dict<string, string>)
    requires Shaped(l, metrics, domain, meta) && WellFormed(metrics, domain, meta) && Branching(domain)
    requires Digits(low, DomainSizes(domain))
    requires forall i :: 0 <= i < |domain| ==> !HasKey(res, domain[i].0)
    ensures DehashDims(l, Dims(l), Encode(low, DomainSizes(domain)), res) == Ok(res + Reverse(Picked(domain, low)))
  {
    var k := |domain|;
    DimsShape(l, metrics, domain, meta);
    ZeroDims(meta);
    var f := Flip(StrideItems(domain));
    assert f[..k] == f;
    assert low[..k] == low && DomainSizes(domain)[..k] == DomainSizes(domain);
    assert Picked(domain, low)[..k] == Picked(domain, low);
    DehashPeel(l, metrics, domain, meta, low, k, Sort(Flip(ZeroItems(meta)), PairGe), res);
  }

  /** The axis values of `params`, in mapping order. */
  function AxisValues(domain: Domain, params: Dict<string, string>): (r: Dict<string, string>)
    requires forall i :: 0 <= i < |domain| ==> HasKey(params, domain[i].0)
    ensures |r| == |domain| && forall i :: 0 <= i < |domain| ==> r[i] == (domain[i].0, Get(params, domain[i].0))
  {
    seq(|domain|, i requires 0 <= i < |domain| && HasKey(params, domain[i].0) => (domain[i].0, Get(params, domain[i].0)))
  }

  /** `dehash(hash(metric, params))` gives back the metric under `"metric"` and the value of every
      axis (largest stride first), provided every axis has two values or more and no axis is
      called `"metric"`; metadata is not part of the result. */
  lemma DehashHash(metrics: seq<string>, domain: Domain, meta: Dict<string, string>, m: string, params: Dict<string, string>)
    requires WellFormed(metrics, domain, meta) && ValidKey(metrics, domain, meta, m, params)
    requires Branching(domain) && !HasKey(domain, "metric")
    ensures var l := Build(metrics, domain, meta);
      HashOf(l, m, params).Ok? &&
      DehashOf(l, HashOf(l, m, params).value) == Ok([("metric", m)] + Reverse(AxisValues(domain, params)))
  {
    BuildShape(metrics, domain, meta);
    DehashHashOf(Build(metrics, domain, meta), metrics, domain, meta, m, params);
  }

  /** `DehashHash` for any hasher laid out from the metrics, domain and metadata. */
  lemma DehashHashOf(l: Layout, metrics: seq<string>, domain: Domain, meta: Dict<string, string>, m: string, params: Dict<string, string>)
    requires Shaped(l, metrics, domain, meta) && WellFormed(metrics, domain, meta) && ValidKey(metrics, domain, meta, m, params)
    requires Branching(domain) && !HasKey(domain, "metric")
    ensures HashOf(l, m, params).Ok? &&
      DehashOf(l, HashOf(l, m, params).value) == Ok([("metric", m)] + Reverse(AxisValues(domain, params)))
  {
    HashValueOf(l, metrics, domain, meta, m, params);
    var cs := Codes(domain, params) + [FirstIndex(metrics, m)];
    CodesPicked(metrics, domain, params, m);
    DehashOfIndex(l, metrics, domain, meta, cs);
  }

  /** The digits of a valid key are in range and pick back its axis values and its metric. */
  lemma CodesPicked(metrics: seq<string>, domain: Domain, params: Dict<string, string>, m: string)
    requires m in metrics
    requires forall i :: 0 <= i < |domain| ==> HasKey(params, domain[i].0) && Get(params, domain[i].0) in domain[i].1
    ensures var cs := Codes(domain, params) + [FirstIndex(metrics, m)];
      Digits(cs, DomainSizes(domain) + [|metrics|]) && metrics[cs[|domain|]] == m &&
      Picked(domain, cs) == AxisValues(domain, params)
  {
    var cs := Codes(domain, params) + [FirstIndex(metrics, m)];
    assert Digits(cs, DomainSizes(domain) + [|metrics|]);
    assert Picked(domain, cs) == AxisValues(domain, params);
  }

  // ---------------------------------------------------------------- an axis with one value

  /** `dehash` as written fails on a hasher with a one-value axis: that axis's stride equals
      the next axis's, `dims.sort(reverse=True)` breaks the tie by name, and here it visits the
      one-value axis `b` first, divides the whole remaining index by its stride and indexes past
      its single value. The arguments are the example, pinned down by the requires. */
  lemma DehashOneValueAxis(metrics: seq<string>, domain: Domain, params: Dict<string, string>)
    requires metrics == ["m"] && domain == [("b", ["v"]), ("a", ["x", "y", "z"])] && params == [("b", "v"), ("a", "z")]
    ensures WellFormed(metrics, domain, []) && ValidKey(metrics, domain, [], "m", params)
    ensures HashOf(Build(metrics, domain, []), "m", params) == Ok(2)
    ensures DehashOf(Build(metrics, domain, []), 2) == Err(IndexError)
  {
    var l := Build(metrics, domain, []);
    OneValueHash(metrics, domain, params);
    OneValueTables(metrics, domain, l);
    OneValueDims(Flip(l.strides));
    SortBackInverse(["v"]);
    SortBackInverse(metrics);
    assert Dims(l) == [(1, "b"), (1, "a")];
  }

  /** The hasher of the example: axis `b` with one value, then axis `a` with three. */
  lemma OneValueTables(metrics: seq<string>, domain: Domain, l: Layout)
    requires metrics == ["m"] && domain == [("b", ["v"]), ("a", ["x", "y", "z"])] && l == Build(metrics, domain, [])
    ensures l.strides == [("b", 1), ("a", 1)] && l.metricStride == 3 && l.metricInv == Inverse(metrics)
    ensures HasKey(l.domInv, "b") && Get(l.domInv, "b") == Inverse(["v"])
  {
    assert Keys(domain) == ["b", "a"];
    var sizes := DomainSizes(domain);
    assert sizes == [1, 3];
    BuildShape(metrics, domain, []);
    assert Weight(sizes, 0) == 1 && Weight(sizes, 1) == 1 by {
      assert sizes[..0] == [] && sizes[..1] == [1];
    }
    assert Product(sizes) == 3 by {
      ProductAppend([1], 3);
      assert [1] + [3] == sizes;
    }
    AxisLookup(l, metrics, domain, [], 0);
  }

  /** The example key is valid and hashes to 2: `a`'s value `z` sits at position 2 and `a`'s
      stride is 1. */
  lemma OneValueHash(metrics: seq<string>, domain: Domain, params: Dict<string, string>)
    requires metrics == ["m"] && domain == [("b", ["v"]), ("a", ["x", "y", "z"])] && params == [("b", "v"), ("a", "z")]
    ensures WellFormed(metrics, domain, []) && ValidKey(metrics, domain, [], "m", params)
    ensures HashOf(Build(metrics, domain, []), "m", params) == Ok(2)
  {
    assert Keys(domain) == ["b", "a"];
    assert Keys(params) == ["b", "a"];
    GetAt(params, 0);
    GetAt(params, 1);
    HashValue(metrics, domain, [], "m", params);
    var cs := Codes(domain, params);
    assert cs == [0, 2];
    OneValueIndex(cs, DomainSizes(domain));
  }

  /** The digits `[0, 2, 0]` under the radices `[1, 3, 1]` spell 2. */
  lemma OneValueIndex(cs: seq<nat>, sizes: seq<nat>)
    requires cs == [0, 2] && sizes == [1, 3]
    ensures Encode(cs + [0], sizes + [1]) == 2
  {
    EncodeAppend(cs, sizes, 0, 1);
    EncodePrefixStep(cs, sizes, 1);
    EncodePrefixStep(cs, sizes, 0);
    assert cs[..2] == cs && sizes[..2] == sizes;
    assert cs[..1] == [0] && sizes[..1] == [1] && cs[..0] == [] && sizes[..0] == [];
  }

  /** Sorting `[(1, "b"), (1, "a")]` in reverse leaves it as it is, so `b` is visited first. */
  lemma OneValueDims(dims: seq<(nat, string)>)
    requires dims == [(1, "b"), (1, "a")]
    ensures Sort(dims, PairGe) == dims
  {
    assert TextLe("a", "b") by {
      FirstDiffIs("a", "b", 0);
    }
    assert SortedBy(dims, PairGe);
    SortPermutes(dims, PairGe);
    PairOrder();
    SortSorted(dims, PairGe);
    SortedUnique(Sort(dims, PairGe), dims, PairGe);
  }

  /** `dehash` as evidently intended: the strides are visited from the last axis inserted
      (the largest stride) down to the first, in reverse insertion order rather than by
      sorting `(stride, name)` pairs, so a one-value axis sharing its stride with the next axis
      is visited after it. */
  function DehashInOrder(l: Layout, index: int): Result<Dict<string, string>> {
    if l.metricStride == 0 then Err(ZeroDivisionError)
    else
      var metric := PyIndex(SortBack(l.metricInv), index / l.metricStride);
      if metric.Err? then Err(IndexError)
      else DehashDims(l, Reverse(Flip(l.strides)), index % l.metricStride, [("metric", metric.value)])
  }

  lemma {:induction false} ReverseConcat<T>(a: seq<T>, b: seq<T>)
    ensures Reverse(a + b) == Reverse(b) + Reverse(a)
    decreases |b|
  {
    if b != [] {
      var n := |b| - 1;
      assert (a + b)[..|a + b| - 1] == a + b[..n];
      ReverseConcat(a, b[..n]);
    } else {
      assert a + b == a;
    }
  }

  /** Dimensions of stride 0 in front of the rest are skipped. */
  lemma {:induction false} SkipLeadingZeros(l: Layout, z: seq<(nat, string)>, rest: seq<(nat, string)>, index: nat, res: Dict<string, string>)
    requires forall i :: 0 <= i < |z| ==> z[i].0 == 0
    ensures DehashDims(l, z + rest, index, res) == DehashDims(l, rest, index, res)
    decreases |z|
  {
    if z != [] {
      assert (z + rest)[0] == z[0] && (z + rest)[1..] == z[1..] + rest;
      SkipLeadingZeros(l, z[1..], rest, index, res);
    } else {
      assert z + rest == rest;
    }
  }

  /** The metadata pairs, reversed, all have stride 0. */
  lemma ReversedZeros(meta: Dict<string, string>)
    ensures forall i :: 0 <= i < |Reverse(Flip(ZeroItems(meta)))| ==> Reverse(Flip(ZeroItems(meta)))[i].0 == 0
  {
    var f := Flip(ZeroItems(meta));
    ReversePermutes(f);
    forall i | 0 <= i < |Reverse(f)| ensures Reverse(f)[i].0 == 0 {
      assert Reverse(f)[i] in multiset(Reverse(f));
      assert Reverse(f)[i] in f;
    }
  }

  /** The corrected `dehash` of the flat index with digits `cs`, for any axes with at least
      one value each. */
  lemma DehashInOrderIndex(l: Layout, metrics: seq<string>, domain: Domain, meta: Dict<string, string>, cs: seq<nat>)
    requires Shaped(l, metrics, domain, meta) && WellFormed(metrics, domain, meta)
    requires !HasKey(domain, "metric")
    requires Digits(cs, DomainSizes(domain) + [|metrics|])
    ensures DehashInOrder(l, Encode(cs, DomainSizes(domain) + [|metrics|])) ==
      Ok([("metric", metrics[cs[|domain|]])] + Reverse(Picked(domain, cs)))
  {
    var k := |domain|;
    var sizes := DomainSizes(domain);
    var all := sizes + [|metrics|];
    var low := cs[..k];
    assert all[..k] == sizes;
    TopDigit(cs, all);
    SortBackInverse(metrics);
    var res := [("metric", metrics[cs[k]])];
    forall i | 0 <= i < k ensures !HasKey(res, domain[i].0) {
      assert HasKey(domain, domain[i].0);
    }
    assert Digits(low, sizes);
    DehashInOrderAxes(l, metrics, domain, meta, low, res);
    assert Picked(domain, low) == Picked(domain, cs);
  }

  /** The strides in reverse insertion order: the metadata (stride 0), then the axes from the
      last one inserted to the first. */
  lemma InOrderDims(l: Layout, metrics: seq<string>, domain: Domain, meta: Dict<string, string>)
    requires Shaped(l, metrics, domain, meta)
    ensures Reverse(Flip(l.strides)) == Reverse(Flip(ZeroItems(meta))) + AxisDims(domain)
  {
    FlipConcat(StrideItems(domain), ZeroItems(meta));
    ReverseConcat(Flip(StrideItems(domain)), Flip(ZeroItems(meta)));
  }

  /** The corrected loop skips the metadata and appends every axis's value, last axis first. */
  lemma DehashInOrderAxes(l: Layout, metrics: seq<string>, domain: Domain, meta: Dict<string, string>,
                          low: seq<nat>, res: Dict<string, string>)
    requires Shaped(l, metrics, domain, meta) && WellFormed(metrics, domain, meta)
    requires Digits(low, DomainSizes(domain))
    requires forall i :: 0 <= i < |domain| ==> !HasKey(res, domain[i].0)
    ensures DehashDims(l, Reverse(Flip(l.strides)), Encode(low, DomainSizes(domain)), res) == Ok(res + Reverse(Picked(domain, low)))
  {
    InOrderSkipsMeta(l, metrics, domain, meta, Encode(low, DomainSizes(domain)), res);
    PeelAllAxes(l, metrics, domain, meta, low, res);
  }

  /** The metadata at the front of the reversed strides is skipped. */
  lemma InOrderSkipsMeta(l: Layout, metrics: seq<string>, domain: Domain, meta: Dict<string, string>, index: nat, res: Dict<string, string>)
    requires Shaped(l, metrics, domain, meta)
    ensures DehashDims(l, Reverse(Flip(l.strides)), index, res) == DehashDims(l, AxisDims(domain), index, res)
  {
    InOrderDims(l, metrics, domain, meta);
    ReversedZeros(meta);
    SkipLeadingZeros(l, Reverse(Flip(ZeroItems(meta))), AxisDims(domain), index, res);
  }

  /** Walking all the axes, last first, appends each axis's value. */
  lemma PeelAllAxes(l: Layout, metrics: seq<string>, domain: Domain, meta: Dict<string, string>,
                    low: seq<nat>, res: Dict<string, string>)
    requires Shaped(l, metrics, domain, meta) && WellFormed(metrics, domain, meta)
    requires Digits(low, DomainSizes(domain))
    requires forall i :: 0 <= i < |domain| ==> !HasKey(res, domain[i].0)
    ensures DehashDims(l, AxisDims(domain), Encode(low, DomainSizes(domain)), res) == Ok(res + Reverse(Picked(domain, low)))
  {
    var k := |domain|;
    var f := Flip(StrideItems(domain));
    assert f[..k] == f && Reverse(f[..k]) + [] == AxisDims(domain);
    assert low[..k] == low && DomainSizes(domain)[..k] == DomainSizes(domain);
    assert Picked(domain, low)[..k] == Picked(domain, low);
    DehashPeel(l, metrics, domain, meta, low, k, [], res);
  }

  /** The corrected `dehash` inverts `hash` on every axis, whatever the number of values of
      each axis, provided no axis is called `"metric"`. */
  lemma DehashInOrderHash(metrics: seq<string>, domain: Domain, meta: Dict<string, string>, m: string, params: Dict<string, string>)
    requires WellFormed(metrics, domain, meta) && ValidKey(metrics, domain, meta, m, params)
    requires !HasKey(domain, "metric")
    ensures var l := Build(metrics, domain, meta);
      HashOf(l, m, params).Ok? &&
      DehashInOrder(l, HashOf(l, m, params).value) == Ok([("metric", m)] + Reverse(AxisValues(domain, params)))
  {
    var l := Build(metrics, domain, meta);
    BuildShape(metrics, domain, meta);
    HashValueOf(l, metrics, domain, meta, m, params);
    var cs := Codes(domain, params) + [FirstIndex(metrics, m)];
    CodesPicked(metrics, domain, params, m);
    DehashInOrderIndex(l, metrics, domain, meta, cs);
  }
}
