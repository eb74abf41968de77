/** Properties of `Datacube.__init__`: the shape of the cube, the split of the observed
    parameters into axes and metadata, and where the results land. */
module CubeBuildFacts {
  import opened Common
  import opened Sorting
  import opened Values
  import opened Hashing
  import opened HashingFacts
  import opened CubeBuild

  lemma AxisSizesConcat(domain: Domain, s: seq<string>, t: seq<string>)
    requires forall p :: p in s + t ==> HasKey(domain, p)
    ensures AxisSizes(domain, s + t) == AxisSizes(domain, s) + AxisSizes(domain, t)
  {
  }

  /** Reordering the names only reorders their sizes. */
  lemma {:induction false} AxisSizesPermutation(domain: Domain, s: seq<string>, t: seq<string>)
    requires forall p :: p in s ==> HasKey(domain, p)
    requires forall p :: p in t ==> HasKey(domain, p)
    requires multiset(s) == multiset(t)
    ensures multiset(AxisSizes(domain, s)) == multiset(AxisSizes(domain, t))
  {
    if s != [] {
      assert s == [s[0]] + s[1..];
      var t1, t2 := PickMatch(s[0], s[1..], t);
      assert forall p :: p in t1 + t2 ==> p in t;
      AxisSizesPermutation(domain, s[1..], t1 + t2);
      AxisSizesConcat(domain, [s[0]], s[1..]);
      AxisSizesMiddle(domain, t1, s[0], t2);
    } else {
      assert |t| == |multiset(t)| == 0;
    }
  }

  /** A list with the same elements as `[x] + rest` holds `x` between two parts that together
      have the elements of `rest`. */
  lemma PickMatch<T>(x: T, rest: seq<T>, t: seq<T>) returns (t1: seq<T>, t2: seq<T>)
    requires multiset([x] + rest) == multiset(t)
    ensures t == t1 + [x] + t2 && multiset(rest) == multiset(t1 + t2)
  {
    assert x in multiset(t);
    var j :| 0 <= j < |t| && t[j] == x;
    t1, t2 := t[..j], t[j + 1..];
    assert t == t1 + [x] + t2;
    MultisetCancel(multiset([x]), multiset(rest), multiset(t1 + t2));
  }

  /** The sizes of `t1 + [x] + t2` are those of `[x]` and of `t1 + t2`, in some order. */
  lemma AxisSizesMiddle(domain: Domain, t1: seq<string>, x: string, t2: seq<string>)
    requires forall p :: p in t1 + [x] + t2 ==> HasKey(domain, p)
    ensures multiset(AxisSizes(domain, t1 + [x] + t2)) == multiset(AxisSizes(domain, [x])) + multiset(AxisSizes(domain, t1 + t2))
  {
    AxisSizesConcat(domain, t1 + [x], t2);
    AxisSizesConcat(domain, t1, [x]);
    AxisSizesConcat(domain, t1, t2);
  }

  /** Listing the axes in the domain's own order gives the sizes the hasher's strides use. */
  lemma AxisSizesInOrder(domain: Domain)
    requires DistinctKeys(domain)
    ensures forall p :: p in Keys(domain) ==> HasKey(domain, p)
    ensures AxisSizes(domain, Keys(domain)) == DomainSizes(domain)
  {
    forall i | 0 <= i < |domain| ensures AxisSizes(domain, Keys(domain))[i] == DomainSizes(domain)[i] {
      GetAt(domain, i);
    }
  }

  /** `reduce(mul, shape, 1)` is the number of metrics times the product of the axis sizes,
      whatever order `parameters` lists the axes in. */
  lemma ShapeProduct(domain: Domain, parameters: seq<string>, metrics: seq<string>)
    requires DistinctKeys(domain) && multiset(parameters) == multiset(Keys(domain))
    ensures forall p :: p in parameters ==> HasKey(domain, p)
    ensures Product(Shape(domain, parameters, metrics)) == Product(DomainSizes(domain)) * |metrics|
  {
    forall p | p in parameters ensures HasKey(domain, p) {
      assert p in multiset(parameters);
    }
    AxisSizesInOrder(domain);
    AxisSizesPermutation(domain, parameters, Keys(domain));
    ProductPermutation(AxisSizes(domain, parameters), DomainSizes(domain));
    ProductAppend(AxisSizes(domain, parameters), |metrics|);
  }

  /** `parameters` lists the axis names once each, sorted. */
  lemma SkeletonParameters(ps: seq<Dict<string, Value>>, rs: seq<Dict<string, Value>>, name: string)
    ensures var c := Skeleton(ps, rs, name);
      SortedBy(c.parameters, TextLe) && NoDup(c.parameters) && DistinctKeys(c.domain) &&
      multiset(c.parameters) == multiset(Keys(c.domain)) &&
      forall p :: p in c.parameters <==> HasKey(c.domain, p)
  {
    var tmp := ObserveAll(ps);
    ObserveAllOk(ps);
    SplitDomain(tmp);
    var part := SplitItems(tmp);
    SortedNames(part.names);
    PermutationNoDup(part.names, SortedText(part.names));
  }

  /** `shape` is the axis sizes in `parameters` order and then the metric count. */
  lemma SkeletonShape(ps: seq<Dict<string, Value>>, rs: seq<Dict<string, Value>>, name: string)
    ensures var c := Skeleton(ps, rs, name);
      |c.shape| == |c.parameters| + 1 && c.shape[|c.parameters|] == |c.metrics| &&
      forall i :: 0 <= i < |c.parameters| ==> HasKey(c.domain, c.parameters[i]) && c.shape[i] == |Get(c.domain, c.parameters[i])|
  {
    SkeletonParameters(ps, rs, name);
  }

  /** The data list, all `None`, has one slot per metric and combination of axis values. */
  lemma SkeletonData(ps: seq<Dict<string, Value>>, rs: seq<Dict<string, Value>>, name: string)
    ensures var c := Skeleton(ps, rs, name);
      |c.data| == Product(c.shape) == Product(DomainSizes(c.domain)) * |c.metrics| &&
      forall x :: 0 <= x < |c.data| ==> c.data[x] == None
  {
    var c := Skeleton(ps, rs, name);
    SkeletonParameters(ps, rs, name);
    assert c.shape == Shape(c.domain, c.parameters, c.metrics);
    ShapeProduct(c.domain, c.parameters, c.metrics);
  }

  /** The metric list holds every metric name reported in some result, sorted, once each. */
  lemma SkeletonMetrics(ps: seq<Dict<string, Value>>, rs: seq<Dict<string, Value>>, name: string)
    ensures var c := Skeleton(ps, rs, name);
      SortedBy(c.metrics, TextLe) && NoDup(c.metrics) &&
      forall m :: m in c.metrics <==> exists i :: 0 <= i < |rs| && HasKey(rs[i], m)
  {
    MetricsFacts(rs);
  }

  /** Value `v` of parameter `k` appears in some row of `parameters_ls`. */
  predicate Seen(ps: seq<Dict<string, Value>>, k: string, v: Value) {
    exists i :: 0 <= i < |ps| && (k, v) in ps[i]
  }

  /** `vs` lists the values seen for `k` once each, in some order: one way of iterating over
      the set `param_tmp[k]`. */
  ghost predicate Enumerates(vs: seq<Value>, ps: seq<Dict<string, Value>>, k: string) {
    NoDup(vs) && forall v :: v in vs <==> Seen(ps, k, v)
  }

  /** `param_tmp` holds, under each name seen, the values seen for it. */
  lemma ObservedList(ps: seq<Dict<string, Value>>, k: string)
    ensures HasKey(ObserveAll(ps), k) <==> exists v :: Seen(ps, k, v)
    ensures HasKey(ObserveAll(ps), k) ==> Get(ObserveAll(ps), k) != [] && Enumerates(Get(ObserveAll(ps), k), ps, k)
  {
    var tmp := ObserveAll(ps);
    ObserveAllOk(ps);
    ObservedValues(ps);
    if HasKey(tmp, k) {
      var vs := Get(tmp, k);
      assert vs == tmp[Common.Slot(tmp, k)].1;
      assert Holds(tmp, k, vs[0]);
      forall v ensures v in vs <==> Seen(ps, k, v) {
        assert v in vs <==> Holds(tmp, k, v);
      }
    } else {
      forall v ensures !Seen(ps, k, v) {
        assert !Holds(tmp, k, v);
      }
    }
  }

  /** Two orderings of the same values sort alike. */
  lemma SortedAlike(a: seq<Value>, b: seq<Value>)
    requires NoDup(a) && NoDup(b) && forall v :: v in a <==> v in b
    ensures Sorted(a) == Sorted(b)
  {
    SameElementsPermutation(a, b);
    ValueOrder();
    SortedUnique(Sorted(a), Sorted(b), Le);
  }

  lemma AxisOf(ps: seq<Dict<string, Value>>, rs: seq<Dict<string, Value>>, name: string, k: string)
    ensures var c := Skeleton(ps, rs, name);
      (HasKey(c.domain, k) <==> exists v, w :: Seen(ps, k, v) && Seen(ps, k, w) && v != w) &&
      (forall vs :: HasKey(c.domain, k) && Enumerates(vs, ps, k) ==> Get(c.domain, k) == Strs(Sorted(vs)))
  {
    var tmp := ObserveAll(ps);
    ObserveAllOk(ps);
    SplitDomain(tmp);
    ObservedList(ps, k);
    if HasKey(tmp, k) {
      var list := Get(tmp, k);
      if |list| > 1 {
        assert Seen(ps, k, list[0]) && Seen(ps, k, list[1]) && list[0] != list[1];
      } else {
        assert forall v :: Seen(ps, k, v) ==> v == list[0];
      }
      forall vs | Enumerates(vs, ps, k) ensures Sorted(vs) == Sorted(list) {
        SortedAlike(vs, list);
      }
    }
  }

  /** A parameter becomes an axis exactly when two different values of it were seen; the axis
      holds the stringified values in sorted order, however the set of values is iterated. */
  lemma SkeletonAxes(ps: seq<Dict<string, Value>>, rs: seq<Dict<string, Value>>, name: string)
    ensures var c := Skeleton(ps, rs, name);
      (forall k :: HasKey(c.domain, k) <==> exists v, w :: Seen(ps, k, v) && Seen(ps, k, w) && v != w) &&
      (forall k, vs :: HasKey(c.domain, k) && Enumerates(vs, ps, k) ==> Get(c.domain, k) == Strs(Sorted(vs)))
  {
    forall k {
      AxisOf(ps, rs, name, k);
    }
  }

  lemma MetadatumOf(ps: seq<Dict<string, Value>>, rs: seq<Dict<string, Value>>, name: string, k: string)
    ensures var c := Skeleton(ps, rs, name);
      (HasKey(c.metadata, k) <==> (exists v :: Seen(ps, k, v)) && forall v, w :: Seen(ps, k, v) && Seen(ps, k, w) ==> v == w) &&
      (forall v :: HasKey(c.metadata, k) && Seen(ps, k, v) ==> Get(c.metadata, k) == Str(v))
  {
    var tmp := ObserveAll(ps);
    ObserveAllOk(ps);
    SplitMetadata(tmp);
    ObservedList(ps, k);
    if HasKey(tmp, k) {
      var list := Get(tmp, k);
      if |list| > 1 {
        assert Seen(ps, k, list[0]) && Seen(ps, k, list[1]) && list[0] != list[1];
      } else {
        assert forall v :: Seen(ps, k, v) ==> v == list[0];
      }
    }
  }

  /** A parameter becomes metadata exactly when it was seen with a single value, which it holds
      stringified. */
  lemma SkeletonMetadata(ps: seq<Dict<string, Value>>, rs: seq<Dict<string, Value>>, name: string)
    ensures var c := Skeleton(ps, rs, name);
      DistinctKeys(c.metadata) &&
      (forall k :: HasKey(c.metadata, k) <==> (exists v :: Seen(ps, k, v)) && forall v, w :: Seen(ps, k, v) && Seen(ps, k, w) ==> v == w) &&
      (forall k, v :: HasKey(c.metadata, k) && Seen(ps, k, v) ==> Get(c.metadata, k) == Str(v))
  {
    ObserveAllOk(ps);
    SplitMetadata(ObserveAll(ps));
    forall k {
      MetadatumOf(ps, rs, name, k);
    }
  }

  /** Every row of `parameters_ls` names the same parameters, once each. */
  ghost predicate Uniform(ps: seq<Dict<string, Value>>) {
    forall i :: 0 <= i < |ps| ==> DistinctKeys(ps[i]) && forall x :: x in Keys(ps[i]) <==> x in Keys(ps[0])
  }

  /** `str` tells apart the values seen for each parameter. */
  ghost predicate StrFaithful(ps: seq<Dict<string, Value>>) {
    forall k, v, w :: Seen(ps, k, v) && Seen(ps, k, w) && Str(v) == Str(w) ==> v == w
  }

  lemma StringifyFacts(p: Dict<string, Value>)
    ensures Keys(Stringify(p)) == Keys(p)
    ensures forall k :: HasKey(p, k) ==> HasKey(Stringify(p), k) && Get(Stringify(p), k) == Str(Get(p, k))
  {
    assert Keys(Stringify(p)) == Keys(p);
  }

  /** Each observed name lands in exactly one of the axes and the metadata. */
  lemma {:induction false} SplitSizes(tmp: Observed)
    requires SetsOk(tmp)
    ensures |SplitItems(tmp).domain| + |SplitItems(tmp).metadata| == |tmp|
  {
    if tmp != [] {
      var n := |tmp| - 1;
      SplitPrefix(tmp, n);
      SplitDomain(tmp[..n]);
      SplitMetadata(tmp[..n]);
      SplitSizes(tmp[..n]);
      assert tmp[..n + 1] == tmp;
    }
  }

  /** Under uniform rows, a row names exactly the observed parameters. */
  lemma RowNames(ps: seq<Dict<string, Value>>, i: nat)
    requires Uniform(ps) && i < |ps|
    ensures forall x :: x in Keys(ps[i]) <==> HasKey(ObserveAll(ps), x)
    ensures |ps[i]| == |ObserveAll(ps)|
  {
    ObservedNames(ps);
    ObserveAllOk(ps);
    forall x | x in Keys(ps[i]) ensures HasKey(ObserveAll(ps), x) {
      assert 0 <= i < |ps| && x in Keys(ps[i]);
    }
    forall x | HasKey(ObserveAll(ps), x) ensures x in Keys(ps[i]) {
      var i' :| 0 <= i' < |ps| && x in Keys(ps[i']);
      assert x in Keys(ps[0]);
    }
    SameElementsPermutation(Keys(ps[i]), Keys(ObserveAll(ps)));
    assert |multiset(Keys(ps[i]))| == |multiset(Keys(ObserveAll(ps)))|;
  }

  /** The seen value `v` of an axis `k` is on the axis, stringified. */
  lemma OnAxis(ps: seq<Dict<string, Value>>, rs: seq<Dict<string, Value>>, name: string, k: string, v: Value)
    requires Seen(ps, k, v) && HasKey(Skeleton(ps, rs, name).domain, k)
    ensures Str(v) in Get(Skeleton(ps, rs, name).domain, k)
  {
    var tmp := ObserveAll(ps);
    ObserveAllOk(ps);
    SplitDomain(tmp);
    ObservedList(ps, k);
    var sorted := Sorted(Get(tmp, k));
    assert v in multiset(sorted);
    var j :| 0 <= j < |sorted| && sorted[j] == v;
    assert Strs(sorted)[j] == Str(v);
  }

  /** Distinct values of an axis stay distinct once stringified. */
  lemma AxisNoDup(ps: seq<Dict<string, Value>>, rs: seq<Dict<string, Value>>, name: string, k: string)
    requires StrFaithful(ps) && HasKey(Skeleton(ps, rs, name).domain, k)
    ensures NoDup(Get(Skeleton(ps, rs, name).domain, k))
  {
    var tmp := ObserveAll(ps);
    ObserveAllOk(ps);
    SplitDomain(tmp);
    ObservedList(ps, k);
    var list := Get(tmp, k);
    var sorted := Sorted(list);
    assert Get(Skeleton(ps, rs, name).domain, k) == Strs(sorted);
    PermutationNoDup(list, sorted);
    forall v | v in sorted ensures Seen(ps, k, v) {
      assert v in multiset(sorted);
    }
    StrsNoDup(ps, k, sorted);
  }

  lemma StrsNoDup(ps: seq<Dict<string, Value>>, k: string, vs: seq<Value>)
    requires StrFaithful(ps) && NoDup(vs)
    requires forall v :: v in vs ==> Seen(ps, k, v)
    ensures NoDup(Strs(vs))
  {
    forall a, b | 0 <= a < b < |vs| ensures Strs(vs)[a] != Strs(vs)[b] {
      assert vs[a] in vs && vs[b] in vs && vs[a] != vs[b];
    }
  }

  /** The constructed hasher's inputs meet the conditions the hash lemmas need. */
  lemma SkeletonWellFormed(ps: seq<Dict<string, Value>>, rs: seq<Dict<string, Value>>, name: string)
    requires StrFaithful(ps)
    ensures var c := Skeleton(ps, rs, name);
      WellFormed(c.metrics, c.domain, c.metadata) && c.layout == Build(c.metrics, c.domain, c.metadata)
  {
    var c := Skeleton(ps, rs, name);
    var tmp := ObserveAll(ps);
    ObserveAllOk(ps);
    SplitDomain(tmp);
    SplitMetadata(tmp);
    MetricsFacts(rs);
    forall i | 0 <= i < |c.domain| ensures NoDup(c.domain[i].1) {
      GetAt(c.domain, i);
      AxisNoDup(ps, rs, name, c.domain[i].0);
    }
  }

  lemma RowOnAxes(ps: seq<Dict<string, Value>>, rs: seq<Dict<string, Value>>, name: string, i: nat)
    requires Uniform(ps) && i < |ps|
    ensures var d := Skeleton(ps, rs, name).domain;
      forall a :: 0 <= a < |d| ==> HasKey(Stringify(ps[i]), d[a].0) && Get(Stringify(ps[i]), d[a].0) in d[a].1
  {
    var d := Skeleton(ps, rs, name).domain;
    ObserveAllOk(ps);
    SplitDomain(ObserveAll(ps));
    RowNames(ps, i);
    StringifyFacts(ps[i]);
    forall a | 0 <= a < |d|
      ensures HasKey(Stringify(ps[i]), d[a].0) && Get(Stringify(ps[i]), d[a].0) in d[a].1
    {
      var k := d[a].0;
      GetAt(d, a);
      ItemIn(ps[i], k, Get(ps[i], k));
      OnAxis(ps, rs, name, k, Get(ps[i], k));
    }
  }

  lemma RowOnMetadata(ps: seq<Dict<string, Value>>, rs: seq<Dict<string, Value>>, name: string, i: nat)
    requires Uniform(ps) && i < |ps|
    ensures var meta := Skeleton(ps, rs, name).metadata;
      forall b :: 0 <= b < |meta| ==> HasKey(Stringify(ps[i]), meta[b].0) && Get(Stringify(ps[i]), meta[b].0) == meta[b].1
  {
    ObserveAllOk(ps);
    RowOnObserved(ps, i);
    assert Skeleton(ps, rs, name).metadata == SplitItems(ObserveAll(ps)).metadata;
  }

  /** The metadata split from the observed values: each row holds the one value of each. */
  lemma RowOnObserved(ps: seq<Dict<string, Value>>, i: nat)
    requires Uniform(ps) && i < |ps| && SetsOk(ObserveAll(ps))
    ensures var meta := SplitItems(ObserveAll(ps)).metadata;
      forall b :: 0 <= b < |meta| ==> HasKey(Stringify(ps[i]), meta[b].0) && Get(Stringify(ps[i]), meta[b].0) == meta[b].1
  {
    var meta := SplitItems(ObserveAll(ps)).metadata;
    SplitMetadata(ObserveAll(ps));
    forall b | 0 <= b < |meta|
      ensures HasKey(Stringify(ps[i]), meta[b].0) && Get(Stringify(ps[i]), meta[b].0) == meta[b].1
    {
      GetAt(meta, b);
      MetadatumInRow(ps, i, meta[b].0);
    }
  }

  /** A name seen with one value only holds that value in every row. */
  lemma MetadatumInRow(ps: seq<Dict<string, Value>>, i: nat, k: string)
    requires Uniform(ps) && i < |ps| && SetsOk(ObserveAll(ps))
    requires HasKey(ObserveAll(ps), k) && |Get(ObserveAll(ps), k)| == 1
    ensures HasKey(Stringify(ps[i]), k) && Get(Stringify(ps[i]), k) == Str(Get(ObserveAll(ps), k)[0])
  {
    var tmp := ObserveAll(ps);
    RowNames(ps, i);
    StringifyFacts(ps[i]);
    var v := Get(ps[i], k);
    ItemIn(ps[i], k, v);
    ObservedList(ps, k);
    assert Seen(ps, k, v);
    assert v in Get(tmp, k);
  }

  /** Under uniform rows, every row's stringified parameters with any reported metric form a
      key the constructed hasher accepts. */
  lemma RowValid(ps: seq<Dict<string, Value>>, rs: seq<Dict<string, Value>>, name: string, i: nat, m: string)
    requires Uniform(ps) && i < |ps| && i < |rs| && HasKey(rs[i], m)
    ensures var c := Skeleton(ps, rs, name);
      ValidKey(c.metrics, c.domain, c.metadata, m, Stringify(ps[i]))
  {
    var c := Skeleton(ps, rs, name);
    ObserveAllOk(ps);
    SplitSizes(ObserveAll(ps));
    MetricsFacts(rs);
    RowNames(ps, i);
    StringifyFacts(ps[i]);
    RowOnAxes(ps, rs, name, i);
    RowOnMetadata(ps, rs, name, i);
    assert m in c.metrics;
  }

  /** Each write of the fill loop comes from one result of one `(params, _metrics)` pair. */
  lemma {:induction false} JobsOrigin(ps: seq<Dict<string, Value>>, rs: seq<Dict<string, Value>>, n: nat, q: nat)
    requires n <= |ps| && n <= |rs| && q < |JobsUpTo(ps, rs, n)|
    ensures exists i, j :: 0 <= i < n && 0 <= j < |rs[i]| && JobsUpTo(ps, rs, n)[q] == Job(rs[i][j].0, rs[i][j].1, Stringify(ps[i]))
  {
    var prev := JobsUpTo(ps, rs, n - 1);
    if q < |prev| {
      JobsOrigin(ps, rs, n - 1, q);
    } else {
      var j := q - |prev|;
      assert JobsUpTo(ps, rs, n)[q] == RowJobs(ps[n - 1], rs[n - 1])[j];
    }
  }

  /** When every write hashes to an index inside the list, the fill loop raises nothing. */
  lemma {:induction false} FillOk(l: Layout, cells: seq<Option<Value>>, jobs: seq<Job>, k: nat)
    requires k <= |jobs|
    requires forall q :: k <= q < |jobs| ==>
      HashOf(l, jobs[q].metric, jobs[q].params).Ok? && HashOf(l, jobs[q].metric, jobs[q].params).value < |cells|
    ensures FillFrom(l, cells, jobs, k).Ok?
    decreases |jobs| - k
  {
    if k < |jobs| {
      var h := HashOf(l, jobs[k].metric, jobs[k].params).value;
      FillOk(l, cells[h := Some(jobs[k].val)], jobs, k + 1);
    }
  }

  /** Under uniform rows, write `q` of the fill loop is a key the constructed hasher accepts. */
  lemma JobValid(ps: seq<Dict<string, Value>>, rs: seq<Dict<string, Value>>, name: string, q: nat)
    requires Uniform(ps) && q < |Jobs(ps, rs)|
    ensures var c := Skeleton(ps, rs, name); var job := Jobs(ps, rs)[q];
      ValidKey(c.metrics, c.domain, c.metadata, job.metric, job.params)
  {
    JobsOrigin(ps, rs, Paired(ps, rs), q);
    var i, j :| 0 <= i < Paired(ps, rs) && 0 <= j < |rs[i]| &&
      Jobs(ps, rs)[q] == Job(rs[i][j].0, rs[i][j].1, Stringify(ps[i]));
    assert Keys(rs[i])[j] == rs[i][j].0;
    RowValid(ps, rs, name, i, rs[i][j].0);
  }

  /** When every row names the same parameters and `str` keeps their values apart, the
      construction raises nothing, and each result is written at the index the hasher gives
      its metric and parameters. */
  lemma BuiltFill(ps: seq<Dict<string, Value>>, rs: seq<Dict<string, Value>>, name: string)
    requires Uniform(ps) && StrFaithful(ps)
    ensures Built(ps, rs, name).Ok?
    ensures var c := Skeleton(ps, rs, name); var jobs := Jobs(ps, rs);
      forall q :: 0 <= q < |jobs| ==>
        ValidKey(c.metrics, c.domain, c.metadata, jobs[q].metric, jobs[q].params) &&
        Hits(c.layout, jobs[q], KeyIndex(c.metrics, c.domain, jobs[q].metric, jobs[q].params)) &&
        KeyIndex(c.metrics, c.domain, jobs[q].metric, jobs[q].params) < |c.data|
  {
    var c := Skeleton(ps, rs, name);
    var jobs := Jobs(ps, rs);
    var metrics, domain, meta, l := c.metrics, c.domain, c.metadata, c.layout;
    SkeletonWellFormed(ps, rs, name);
    SkeletonData(ps, rs, name);
    assert |c.data| == |metrics| * Product(DomainSizes(domain));
    forall q | 0 <= q < |jobs|
      ensures ValidKey(metrics, domain, meta, jobs[q].metric, jobs[q].params) &&
        Hits(l, jobs[q], KeyIndex(metrics, domain, jobs[q].metric, jobs[q].params)) &&
        KeyIndex(metrics, domain, jobs[q].metric, jobs[q].params) < |c.data|
    {
      JobValid(ps, rs, name, q);
      HashValue(metrics, domain, meta, jobs[q].metric, jobs[q].params);
      KeyIndexBound(metrics, domain, jobs[q].metric, jobs[q].params);
    }
    FillOk(l, c.data, jobs, 0);
  }

  /** After construction each slot holds the last result written to it, and a slot no result
      was written to is still `None`. */
  lemma BuiltCells(ps: seq<Dict<string, Value>>, rs: seq<Dict<string, Value>>, name: string)
    requires Built(ps, rs, name).Ok?
    ensures var c := Skeleton(ps, rs, name); var jobs := Jobs(ps, rs); var data := Built(ps, rs, name).value.data;
      |data| == |c.data| &&
      (forall x :: 0 <= x < |data| ==> data[x] == LastHit(c.layout, jobs, 0, x)) &&
      (forall x :: 0 <= x < |data| ==> (data[x] == None <==> forall q :: 0 <= q < |jobs| ==> !Hits(c.layout, jobs[q], x)))
  {
    var c := Skeleton(ps, rs, name);
    var jobs := Jobs(ps, rs);
    SkeletonData(ps, rs, name);
    FillFacts(c.layout, c.data, jobs, 0);
    forall x | 0 <= x < |c.data| {
      LastHitFacts(c.layout, jobs, 0, x);
    }
  }

  /** The other attributes are those set before the fill loop. */
  lemma BuiltSkeleton(ps: seq<Dict<string, Value>>, rs: seq<Dict<string, Value>>, name: string)
    requires Built(ps, rs, name).Ok?
    ensures Built(ps, rs, name).value.(data := Skeleton(ps, rs, name).data) == Skeleton(ps, rs, name)
  {
  }
}
