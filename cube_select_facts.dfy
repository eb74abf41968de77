/** What indexing and calling a cube promise: too many indices fail, whole selections give the
    cube back, a scalar comes out only when every axis is fixed and is then the value the hasher
    finds, and a clone only narrows axes or moves them into the metadata. */
module CubeSelectFacts {
  import opened Common
  import opened Values
  import opened Hashing
  import opened HashingFacts
  import opened CubeBuild
  import opened CubeBuildFacts
  import opened CubeSelect
  import opened PySlices

  /** The attributes of a cube agree with each other: one shape entry per parameter and one for
      the metrics, each parameter named once and an axis of the domain, and no name both an
      axis and a metadatum. */
  ghost predicate Consistent(c: CubeView) {
    |c.shape| == |c.parameters| + 1 && NoDup(c.parameters) && DistinctKeys(c.domain) &&
    DistinctKeys(c.metadata) &&
    (forall p :: p in c.parameters <==> HasKey(c.domain, p)) &&
    (forall p :: HasKey(c.domain, p) ==> !HasKey(c.metadata, p))
  }

  /** A freshly constructed cube is consistent. */
  lemma SkeletonConsistent(ps: seq<Dict<string, Value>>, rs: seq<Dict<string, Value>>, name: string)
    ensures Consistent(Skeleton(ps, rs, name))
  {
    var c := Skeleton(ps, rs, name);
    SkeletonParameters(ps, rs, name);
    SkeletonShape(ps, rs, name);
    SkeletonMetadata(ps, rs, name);
    forall p | HasKey(c.domain, p) ensures !HasKey(c.metadata, p) {
      AxisOf(ps, rs, name, p);
      MetadatumOf(ps, rs, name, p);
    }
  }

  /** A consistent cube has as many axes as parameters. */
  lemma AxisCount(c: CubeView)
    requires Consistent(c)
    ensures |c.domain| == |c.parameters|
  {
    assert forall p :: p in c.parameters <==> p in Keys(c.domain);
    SameElementsPermutation(c.parameters, Keys(c.domain));
    assert |multiset(c.parameters)| == |multiset(Keys(c.domain))|;
  }

  /** `cube[index]` with more entries than axes raises IndexError. */
  lemma TooManyIndices(c: CubeView, sels: seq<Sel>)
    requires |sels| > |c.shape|
    ensures Select(c, sels) == Err(IndexError)
  {
  }

  /** On a consistent cube the `same_obj` loop raises nothing and answers whether every entry
      keeps its whole axis. */
  lemma {:induction false} WholeValue(c: CubeView, fixed: seq<Fixed>, n: nat)
    requires Consistent(c) && n <= |fixed|
    ensures forall i :: 0 <= i < n ==> AxisValues(c, i).Ok?
    ensures IsWhole(c, fixed, n) == Ok(forall i :: 0 <= i < n ==> Keeps(fixed[i], AxisValues(c, i).value))
  {
    if n > 0 {
      WholeValue(c, fixed, n - 1);
      if n - 1 < |c.shape| - 1 {
        assert c.parameters[n - 1] in c.parameters;
      }
    }
  }

  /** An index element that keeps its whole axis: `...`, `:`, `0:`, `::1` or `0::1`. */
  predicate Everything(s: Sel) {
    s.Ellipsis? ||
    (s.Range? && (s.start == Open || s.start == BoundPos(0)) && s.stop == Open && (s.step.None? || s.step == Some(1)))
  }

  /** A slice that keeps its whole axis, whatever the axis. */
  predicate WholeSpan(f: Fixed) {
    f.Span? && (f.start.None? || f.start == Some(0)) && f.stop.None? && (f.step.None? || f.step == Some(1))
  }

  lemma {:induction false} ResolveWhole(c: CubeView, sels: seq<Sel>, n: nat)
    requires n <= |sels| && forall i :: 0 <= i < n ==> Everything(sels[i])
    ensures Resolve(c, sels, n).Ok?
    ensures forall j :: 0 <= j < |Resolve(c, sels, n).value.fixed| ==> WholeSpan(Resolve(c, sels, n).value.fixed[j])
  {
    if n > 0 {
      ResolveWhole(c, sels, n - 1);
    }
  }

  /** An index made only of `...` and whole slices, no longer than the number of axes, gives
      back the cube itself. */
  lemma WholeSelections(c: CubeView, sels: seq<Sel>)
    requires Consistent(c) && |sels| <= |c.shape|
    requires forall i :: 0 <= i < |sels| ==> Everything(sels[i])
    ensures Select(c, sels) == Ok(Whole)
  {
    ResolveWhole(c, sels, |sels|);
    var fixed := Index(c, sels).value.0;
    assert forall j :: 0 <= j < |fixed| ==> WholeSpan(fixed[j]);
    WholeValue(c, fixed, |fixed|);
  }

  /** A call without arguments, or whose arguments all keep whole axes, gives back the cube. */
  lemma CallWhole(c: CubeView, metric: Option<Sel>, kwargs: Dict<string, Sel>)
    requires Consistent(c)
    requires metric.None? || Everything(metric.value)
    requires forall j :: 0 <= j < |kwargs| ==> kwargs[j].0 in c.parameters && Everything(kwargs[j].1)
    ensures Call(c, metric, kwargs) == Ok(Whole)
  {
    if |kwargs| > 0 || metric.Some? {
      var sels := CallIndex(c.parameters, metric, kwargs);
      forall i | 0 <= i < |sels| ensures Everything(sels[i]) {
        if i < |c.parameters| && HasKey(kwargs, c.parameters[i]) {
          var s := Common.Slot(kwargs, c.parameters[i]);
          assert Lookup(kwargs, c.parameters[i]) == Some(kwargs[s].1);
        }
      }
      WholeSelections(c, sels);
    }
  }

  /** A keyword that is not a parameter makes the call raise IndexError. */
  lemma CallUnknown(c: CubeView, metric: Option<Sel>, kwargs: Dict<string, Sel>, k: string)
    requires HasKey(kwargs, k) && k !in c.parameters
    ensures Call(c, metric, kwargs) == Err(IndexError)
  {
    var j := Common.Slot(kwargs, k);
    assert kwargs[j].0 !in c.parameters;
  }

  /** Asking a consistent cube for a metric it does not have raises KeyError. */
  lemma CallUnknownMetric(c: CubeView, m: string)
    requires Consistent(c) && m !in c.metrics
    ensures Call(c, Some(Name(m)), []) == Err(KeyError)
  {
    var sels := CallIndex(c.parameters, Some(Name(m)), []);
    ResolveWhole(c, sels, |c.parameters|);
  }

  /** Element `s` at position `i` of the index tuple picks the single position `n`: an int
      that needs no wrapping, or a name found at `n`. */
  predicate Point(c: CubeView, i: nat, s: Sel, n: nat) {
    s == Pos(n) || (s.Name? && IndexByName(c, i, s.s) == Ok(n))
  }

  /** `slice(n, n + 1, 1)` for each position. */
  function Spans(ns: seq<nat>): (r: seq<Fixed>)
    ensures |r| == |ns| && forall j :: 0 <= j < |ns| ==> r[j] == Span(Some(ns[j]), Some(ns[j] + 1), Some(1))
  {
    seq(|ns|, j requires 0 <= j < |ns| => Span(Some(ns[j]), Some(ns[j] + 1), Some(1)))
  }

  /** An index tuple of ints and names resolves to one-element slices and keeps `return_scalar`. */
  lemma {:induction false} ResolvePoints(c: CubeView, sels: seq<Sel>, ns: seq<nat>, n: nat)
    requires |ns| == |sels| && n <= |sels|
    requires forall i :: 0 <= i < n ==> Point(c, i, sels[i], ns[i])
    ensures Resolve(c, sels, n) == Ok(Resolving(Spans(ns[..n]), |sels|, true))
  {
    if n > 0 {
      ResolvePoints(c, sels, ns, n - 1);
      var st := Resolve(c, sels, n - 1).value;
      assert Resolve(c, sels, n) == ResolveStep(c, st, n - 1, sels[n - 1]);
      PointStep(c, st, n - 1, sels[n - 1], ns[n - 1]);
      assert Spans(ns[..n]) == Spans(ns[..n - 1]) + [Span(Some(ns[n - 1]), Some(ns[n - 1] + 1), Some(1))];
    }
  }

  /** One round of the resolution loop on an int or a name appends its one-element slice. */
  lemma PointStep(c: CubeView, st: Resolving, i: nat, sel: Sel, n: nat)
    requires Point(c, i, sel, n)
    ensures ResolveStep(c, st, i, sel) == Ok(st.(fixed := st.fixed + [Span(Some(n), Some(n + 1), Some(1))]))
  {
  }

  /** A one-element slice never keeps a whole axis, so such an index is never the cube itself. */
  lemma PointsNotWhole(c: CubeView, ns: seq<nat>)
    requires Consistent(c) && ns != []
    ensures IsWhole(c, Spans(ns), |ns|) == Ok(false)
  {
    WholeValue(c, Spans(ns), |ns|);
    assert !Keeps(Spans(ns)[0], AxisValues(c, 0).value);
  }

  /** Each parameter paired with its value at the chosen position. */
  function Chosen(c: CubeView, ns: seq<nat>): (r: Dict<string, string>)
    requires |ns| <= |c.parameters|
    requires forall i :: 0 <= i < |ns| ==> HasKey(c.domain, c.parameters[i]) && ns[i] < |Get(c.domain, c.parameters[i])|
    ensures |r| == |ns| && forall i :: 0 <= i < |ns| ==> r[i] == (c.parameters[i], Get(c.domain, c.parameters[i])[ns[i]])
  {
    seq(|ns|, i requires 0 <= i < |ns| => (c.parameters[i], Get(c.domain, c.parameters[i])[ns[i]]))
  }

  /** Positions that lie on their axes. */
  ghost predicate OnAxes(c: CubeView, ns: seq<nat>) {
    |ns| <= |c.parameters| &&
    forall i :: 0 <= i < |ns| ==> HasKey(c.domain, c.parameters[i]) && ns[i] < |Get(c.domain, c.parameters[i])|
  }

  /** The scalar path's `params` are the metadata updated with each chosen axis value. */
  lemma {:induction false} ScalarParamsPoints(c: CubeView, ns: seq<nat>)
    requires OnAxes(c, ns)
    ensures ScalarParams(c, Spans(ns)) == Ok(PutAll(c.metadata, Chosen(c, ns)))
  {
    if ns != [] {
      var n := |ns| - 1;
      assert Spans(ns)[..n] == Spans(ns[..n]);
      assert Chosen(c, ns)[..n] == Chosen(c, ns[..n]);
      ScalarParamsPoints(c, ns[..n]);
    }
  }

  /** An index of ints and names, one per axis, resolves to one-element slices with
      `return_scalar` kept. */
  lemma IndexPoints(c: CubeView, sels: seq<Sel>, ns: seq<nat>)
    requires |sels| == |c.shape| && |ns| == |sels|
    requires forall i :: 0 <= i < |sels| ==> Point(c, i, sels[i], ns[i])
    ensures Index(c, sels) == Ok((Spans(ns), true))
  {
    ResolvePoints(c, sels, ns, |sels|);
    assert ns[..|sels|] == ns;
  }

  /** The scalar path on one-element slices. */
  lemma ScalarValuePoints(c: CubeView, ns: seq<nat>)
    requires ns != [] && OnAxes(c, ns[..|ns| - 1]) && ns[|ns| - 1] < |c.metrics|
    ensures var h := HashOf(c.layout, c.metrics[ns[|ns| - 1]], PutAll(c.metadata, Chosen(c, ns[..|ns| - 1])));
      ScalarValue(c, Spans(ns)) == if h.Err? then Err(h.error) else if h.value >= |c.data| then Err(IndexError) else Ok(c.data[h.value])
  {
    var last := |ns| - 1;
    var f := Spans(ns);
    assert f[..last] == Spans(ns[..last]);
    ScalarParamsPoints(c, ns[..last]);
    ScalarValueOf(c, f, PutAll(c.metadata, Chosen(c, ns[..last])));
  }

  /** The scalar path with the metric picked by a one-element slice and `params` built. */
  lemma ScalarValueOf(c: CubeView, fixed: seq<Fixed>, params: Dict<string, string>)
    requires fixed != [] && ScalarParams(c, fixed[..|fixed| - 1]) == Ok(params)
    requires var m := fixed[|fixed| - 1]; m.Span? && m.start.Some? && 0 <= m.start.value < |c.metrics|
    ensures var h := HashOf(c.layout, c.metrics[fixed[|fixed| - 1].start.value], params);
      ScalarValue(c, fixed) == if h.Err? then Err(h.error) else if h.value >= |c.data| then Err(IndexError) else Ok(c.data[h.value])
  {
  }

  /** An index of ints and names, one per axis, on a consistent cube reads the data list at the
      index the hasher gives the chosen metric and the metadata updated with the chosen values. */
  lemma ScalarPoints(c: CubeView, sels: seq<Sel>, ns: seq<nat>)
    requires Consistent(c) && |sels| == |c.shape| && |ns| == |sels|
    requires forall i :: 0 <= i < |sels| ==> Point(c, i, sels[i], ns[i])
    requires OnAxes(c, ns[..|ns| - 1]) && ns[|ns| - 1] < |c.metrics|
    ensures var h := HashOf(c.layout, c.metrics[ns[|ns| - 1]], PutAll(c.metadata, Chosen(c, ns[..|ns| - 1])));
      Select(c, sels) == if h.Err? then Err(h.error) else if h.value >= |c.data| then Err(IndexError) else Ok(Scalar(c.data[h.value]))
  {
    IndexPoints(c, sels, ns);
    PointsNotWhole(c, ns);
    ScalarValuePoints(c, ns);
  }

  /** Two parameter dicts name the same parameters with the same values, in any order. */
  ghost predicate SameItems(a: Dict<string, string>, b: Dict<string, string>) {
    forall x :: (HasKey(a, x) <==> HasKey(b, x)) && (HasKey(a, x) ==> Get(a, x) == Get(b, x))
  }

  /** Write `job` of the fill loop recorded metric `m` under the parameters `key`. */
  ghost predicate Records(job: Job, m: string, key: Dict<string, string>) {
    job.metric == m && SameItems(job.params, key)
  }

  /** What the hash lemmas need of a cube: consistent attributes, a well-formed hasher laid
      out from its own metrics, domain and metadata, and a data list covering every key. */
  ghost predicate Hashed(c: CubeView) {
    Consistent(c) && WellFormed(c.metrics, c.domain, c.metadata) &&
    Shaped(c.layout, c.metrics, c.domain, c.metadata) &&
    |c.data| == |c.metrics| * Product(DomainSizes(c.domain))
  }

  /** Every write of the fill loop lands on the index of a key the hasher accepts exactly when
      it records the same metric under the same parameters. */
  ghost predicate HitsRecords(c: CubeView, jobs: seq<Job>) {
    forall m, key :: ValidKey(c.metrics, c.domain, c.metadata, m, key) ==>
      forall q :: 0 <= q < |jobs| ==> (Hits(c.layout, jobs[q], KeyIndex(c.metrics, c.domain, m, key)) <==> Records(jobs[q], m, key))
  }

  /** Writes whose keys the hasher accepts land where their keys say. */
  lemma JobsHitRecords(c: CubeView, jobs: seq<Job>)
    requires Hashed(c)
    requires forall q :: 0 <= q < |jobs| ==> ValidKey(c.metrics, c.domain, c.metadata, jobs[q].metric, jobs[q].params)
    ensures HitsRecords(c, jobs)
  {
    forall m, key, q | ValidKey(c.metrics, c.domain, c.metadata, m, key) && 0 <= q < |jobs|
      ensures Hits(c.layout, jobs[q], KeyIndex(c.metrics, c.domain, m, key)) <==> Records(jobs[q], m, key)
    {
      HitRecords(c, jobs[q], m, key);
    }
  }

  /** With uniform rows and a faithful `str`, construction succeeds, the cube it starts from is
      hashed and every write of the fill loop lands where its key says. */
  lemma SkeletonHits(ps: seq<Dict<string, Value>>, rs: seq<Dict<string, Value>>, name: string)
    requires Uniform(ps) && StrFaithful(ps)
    ensures Built(ps, rs, name).Ok?
    ensures Hashed(Skeleton(ps, rs, name)) && HitsRecords(Skeleton(ps, rs, name), Jobs(ps, rs))
  {
    SkeletonHashed(ps, rs, name);
    BuiltFill(ps, rs, name);
    JobsHitRecords(Skeleton(ps, rs, name), Jobs(ps, rs));
  }

  /** With a faithful `str`, the cube construction starts from is hashed. */
  lemma SkeletonHashed(ps: seq<Dict<string, Value>>, rs: seq<Dict<string, Value>>, name: string)
    requires StrFaithful(ps)
    ensures Hashed(Skeleton(ps, rs, name))
  {
    SkeletonConsistent(ps, rs, name);
    SkeletonWellFormed(ps, rs, name);
    SkeletonData(ps, rs, name);
    HashedOfBuild(Skeleton(ps, rs, name));
  }

  /** A consistent cube whose hasher `Hasher.__init__` built from its own well-formed
      attributes, and whose data list has one slot per key, is hashed. */
  lemma HashedOfBuild(c: CubeView)
    requires Consistent(c) && WellFormed(c.metrics, c.domain, c.metadata)
    requires c.layout == Build(c.metrics, c.domain, c.metadata)
    requires |c.data| == Product(DomainSizes(c.domain)) * |c.metrics|
    ensures Hashed(c)
  {
    BuildShape(c.metrics, c.domain, c.metadata);
  }

  /** With uniform rows and a faithful `str`, construction succeeds; the cube is hashed, every
      write of the fill loop lands where its key says, and every slot holds the last value
      written to it. */
  lemma BuiltView(ps: seq<Dict<string, Value>>, rs: seq<Dict<string, Value>>, name: string)
    requires Uniform(ps) && StrFaithful(ps)
    ensures Built(ps, rs, name).Ok?
    ensures var c := Built(ps, rs, name).value; var jobs := Jobs(ps, rs);
      Hashed(c) && HitsRecords(c, jobs) &&
      (forall x :: 0 <= x < |c.data| ==> c.data[x] == LastHit(c.layout, jobs, 0, x))
  {
    var s := Skeleton(ps, rs, name);
    SkeletonHits(ps, rs, name);
    BuiltCells(ps, rs, name);
    BuiltSkeleton(ps, rs, name);
    var c := Built(ps, rs, name).value;
    assert c == s.(data := c.data);
    HashedRefill(s, c.data);
  }

  /** Replacing the data list by one of the same length keeps a cube hashed. */
  lemma HashedRefill(s: CubeView, data: seq<Option<Value>>)
    requires Hashed(s) && |data| == |s.data|
    ensures Hashed(s.(data := data))
  {
  }

  /** Choosing a value on every axis of a hashed cube, with its metadata, makes a key its
      hasher accepts. */
  lemma ChosenKey(c: CubeView, ns: seq<nat>, m: string)
    requires Consistent(c) && OnAxes(c, ns) && |ns| == |c.parameters| && m in c.metrics
    ensures var key := PutAll(c.metadata, Chosen(c, ns));
      key == c.metadata + Chosen(c, ns) && ValidKey(c.metrics, c.domain, c.metadata, m, key)
  {
    AxisCount(c);
    var ch := Chosen(c, ns);
    assert Keys(ch) == c.parameters;
    forall x | HasKey(ch, x) ensures !HasKey(c.metadata, x) {
      assert x in c.parameters;
    }
    DisjointKeys(c.metadata, ch);
    PutAllFresh(c.metadata, ch);
    var key := c.metadata + ch;
    forall i | 0 <= i < |c.domain| ensures HasKey(key, c.domain[i].0) && Get(key, c.domain[i].0) in c.domain[i].1 {
      var p := c.domain[i].0;
      GetAt(c.domain, i);
      assert p in c.parameters;
      var j := FirstIndex(c.parameters, p);
      assert ch[j] == (p, Get(c.domain, p)[ns[j]]);
      assert key[|c.metadata| + j] == ch[j];
      ItemIn(key, p, Get(c.domain, p)[ns[j]]);
    }
    forall j | 0 <= j < |c.metadata| ensures HasKey(key, c.metadata[j].0) && Get(key, c.metadata[j].0) == c.metadata[j].1 {
      assert key[j] == c.metadata[j];
      ItemIn(key, c.metadata[j].0, c.metadata[j].1);
    }
  }

  /** Keys that agree on every axis value have the same index. */
  lemma KeyIndexSame(metrics: seq<string>, domain: Domain, m: string, p1: Dict<string, string>, p2: Dict<string, string>)
    requires m in metrics && SameItems(p1, p2)
    requires forall i :: 0 <= i < |domain| ==> HasKey(p1, domain[i].0) && Get(p1, domain[i].0) in domain[i].1
    ensures forall i :: 0 <= i < |domain| ==> HasKey(p2, domain[i].0) && Get(p2, domain[i].0) in domain[i].1
    ensures KeyIndex(metrics, domain, m, p1) == KeyIndex(metrics, domain, m, p2)
  {
    assert Codes(domain, p1) == Codes(domain, p2);
  }

  /** A write with a key the hasher accepts lands on the index of a valid key exactly when it
      records the same metric under the same parameters. */
  lemma HitRecords(c: CubeView, job: Job, m: string, key: Dict<string, string>)
    requires Hashed(c) && ValidKey(c.metrics, c.domain, c.metadata, m, key)
    requires ValidKey(c.metrics, c.domain, c.metadata, job.metric, job.params)
    ensures Hits(c.layout, job, KeyIndex(c.metrics, c.domain, m, key)) <==> Records(job, m, key)
  {
    var k := KeyIndex(c.metrics, c.domain, m, key);
    HashValueOf(c.layout, c.metrics, c.domain, c.metadata, m, key);
    HashValueOf(c.layout, c.metrics, c.domain, c.metadata, job.metric, job.params);
    var h := HashOf(c.layout, job.metric, job.params);
    assert h == Ok(KeyIndex(c.metrics, c.domain, job.metric, job.params));
    if h == Ok(k) {
      IndexDigitsEqual(c.metrics, c.domain, job.metric, job.params, m, key);
      DigitsDetermineKey(c.metrics, c.domain, c.metadata, job.metric, job.params, m, key);
      assert SameItems(job.params, key);
    }
    if Records(job, m, key) {
      KeyIndexSame(c.metrics, c.domain, m, job.params, key);
      assert h == Ok(k);
    }
  }

  /** `v` is the value of the last write that recorded metric `m` under `key`, or `None` when
      no write did. */
  ghost predicate LastRecord(jobs: seq<Job>, m: string, key: Dict<string, string>, v: Option<Value>) {
    (v.None? <==> forall q :: 0 <= q < |jobs| ==> !Records(jobs[q], m, key)) &&
    (v.Some? ==>
      exists q :: 0 <= q < |jobs| && Records(jobs[q], m, key) && jobs[q].val == v.value &&
        forall q' :: q < q' < |jobs| ==> !Records(jobs[q'], m, key))
  }

  /** The last write landing on the index of a valid key is the last one recording it. */
  lemma LastHitRecord(c: CubeView, jobs: seq<Job>, m: string, key: Dict<string, string>)
    requires ValidKey(c.metrics, c.domain, c.metadata, m, key) && HitsRecords(c, jobs)
    ensures LastRecord(jobs, m, key, LastHit(c.layout, jobs, 0, KeyIndex(c.metrics, c.domain, m, key)))
  {
    LastHitFacts(c.layout, jobs, 0, KeyIndex(c.metrics, c.domain, m, key));
  }

  /** On a hashed cube an int or a name on every axis and on the metrics reads the slot of the
      chosen metric under the metadata and the chosen values. */
  lemma HashedLookup(c: CubeView, sels: seq<Sel>, ns: seq<nat>)
    requires Hashed(c) && |sels| == |c.shape| && |ns| == |sels| && ns != [] && OnAxes(c, ns[..|ns| - 1]) && ns[|ns| - 1] < |c.metrics|
    requires forall i :: 0 <= i < |sels| ==> Point(c, i, sels[i], ns[i])
    ensures var m := c.metrics[ns[|ns| - 1]]; var key := c.metadata + Chosen(c, ns[..|ns| - 1]);
      ValidKey(c.metrics, c.domain, c.metadata, m, key) &&
      KeyIndex(c.metrics, c.domain, m, key) < |c.data| &&
      Select(c, sels) == Ok(Scalar(c.data[KeyIndex(c.metrics, c.domain, m, key)]))
  {
    var last := |ns| - 1;
    ChosenIndex(c, ns[..last], c.metrics[ns[last]]);
    ScalarPoints(c, sels, ns);
  }

  /** On a hashed cube the key of a metric and a value on every axis is valid, and its index
      lies inside the data list. */
  lemma ChosenIndex(c: CubeView, ns: seq<nat>, m: string)
    requires Hashed(c) && OnAxes(c, ns) && |ns| == |c.parameters| && m in c.metrics
    ensures var key := c.metadata + Chosen(c, ns);
      PutAll(c.metadata, Chosen(c, ns)) == key && ValidKey(c.metrics, c.domain, c.metadata, m, key) &&
      HashOf(c.layout, m, key) == Ok(KeyIndex(c.metrics, c.domain, m, key)) &&
      KeyIndex(c.metrics, c.domain, m, key) < |c.data|
  {
    ChosenKey(c, ns, m);
    HashedIndex(c, m, c.metadata + Chosen(c, ns));
  }

  /** On a hashed cube a valid key hashes to its index, which lies inside the data list. */
  lemma HashedIndex(c: CubeView, m: string, key: Dict<string, string>)
    requires Hashed(c) && ValidKey(c.metrics, c.domain, c.metadata, m, key)
    ensures HashOf(c.layout, m, key) == Ok(KeyIndex(c.metrics, c.domain, m, key))
    ensures KeyIndex(c.metrics, c.domain, m, key) < |c.data|
  {
    HashValueOf(c.layout, c.metrics, c.domain, c.metadata, m, key);
    KeyIndexBound(c.metrics, c.domain, m, key);
  }

  /** On a hashed cube whose every slot holds the last write landing on it, an int or a name on
      every axis and on the metrics reads the last value recorded under the chosen key. */
  lemma SlotLookup(c: CubeView, jobs: seq<Job>, sels: seq<Sel>, ns: seq<nat>)
    requires Hashed(c) && HitsRecords(c, jobs)
    requires forall x :: 0 <= x < |c.data| ==> c.data[x] == LastHit(c.layout, jobs, 0, x)
    requires |sels| == |c.shape| && |ns| == |sels| && ns != [] && OnAxes(c, ns[..|ns| - 1]) && ns[|ns| - 1] < |c.metrics|
    requires forall i :: 0 <= i < |sels| ==> Point(c, i, sels[i], ns[i])
    ensures var r := Select(c, sels);
      r.Ok? && r.value.Scalar? &&
      LastRecord(jobs, c.metrics[ns[|ns| - 1]], c.metadata + Chosen(c, ns[..|ns| - 1]), r.value.value)
  {
    var m := c.metrics[ns[|ns| - 1]];
    var key := c.metadata + Chosen(c, ns[..|ns| - 1]);
    HashedLookup(c, sels, ns);
    var k := KeyIndex(c.metrics, c.domain, m, key);
    LastHitRecord(c, jobs, m, key);
    assert Select(c, sels) == Ok(Scalar(LastHit(c.layout, jobs, 0, k)));
  }

  /** Indexing a constructed cube with an int or a name on every axis and on the metrics gives
      the last result recorded for that metric under those parameter values and the metadata,
      and `None` when no such result was recorded. */
  lemma BuiltLookup(ps: seq<Dict<string, Value>>, rs: seq<Dict<string, Value>>, name: string, c: CubeView,
                    sels: seq<Sel>, ns: seq<nat>)
    requires Uniform(ps) && StrFaithful(ps) && Built(ps, rs, name) == Ok(c)
    requires |sels| == |c.shape| && |ns| == |sels| && ns != [] && OnAxes(c, ns[..|ns| - 1]) && ns[|ns| - 1] < |c.metrics|
    requires forall i :: 0 <= i < |sels| ==> Point(c, i, sels[i], ns[i])
    ensures var r := Select(c, sels);
      r.Ok? && r.value.Scalar? &&
      LastRecord(Jobs(ps, rs), c.metrics[ns[|ns| - 1]], c.metadata + Chosen(c, ns[..|ns| - 1]), r.value.value)
  {
    BuiltView(ps, rs, name);
    SlotLookup(c, Jobs(ps, rs), sels, ns);
  }

  /** Each parameter paired with the name its keyword gives. */
  function Assigned(parameters: seq<string>, kwargs: Dict<string, Sel>): (r: Dict<string, string>)
    requires forall p :: p in parameters ==> HasKey(kwargs, p) && Get(kwargs, p).Name?
    ensures |r| == |parameters| && forall i :: 0 <= i < |parameters| ==> r[i] == (parameters[i], Get(kwargs, parameters[i]).s)
  {
    seq(|parameters|, i requires 0 <= i < |parameters| => (parameters[i], Get(kwargs, parameters[i]).s))
  }

  /** Where each named value sits on its axis, and where the metric sits among the metrics. */
  function NamePositions(c: CubeView, m: string, kwargs: Dict<string, Sel>): (ns: seq<nat>)
    requires m in c.metrics
    requires forall p :: p in c.parameters ==>
      HasKey(kwargs, p) && Get(kwargs, p).Name? && HasKey(c.domain, p) && Get(kwargs, p).s in Get(c.domain, p)
    ensures |ns| == |c.parameters| + 1 && ns[|c.parameters|] == FirstIndex(c.metrics, m)
    ensures forall i :: 0 <= i < |c.parameters| ==>
      ns[i] == FirstIndex(Get(c.domain, c.parameters[i]), Get(kwargs, c.parameters[i]).s)
  {
    Positions(c, kwargs, |c.parameters|) + [FirstIndex(c.metrics, m)]
  }

  function Positions(c: CubeView, kwargs: Dict<string, Sel>, n: nat): (ns: seq<nat>)
    requires n <= |c.parameters|
    requires forall p :: p in c.parameters ==>
      HasKey(kwargs, p) && Get(kwargs, p).Name? && HasKey(c.domain, p) && Get(kwargs, p).s in Get(c.domain, p)
    ensures |ns| == n
    ensures forall i :: 0 <= i < n ==> ns[i] == FirstIndex(Get(c.domain, c.parameters[i]), Get(kwargs, c.parameters[i]).s)
  {
    if n == 0 then []
    else
      assert c.parameters[n - 1] in c.parameters;
      Positions(c, kwargs, n - 1) + [FirstIndex(Get(c.domain, c.parameters[n - 1]), Get(kwargs, c.parameters[n - 1]).s)]
  }

  /** Each name of the index `__call__` builds picks the position of that name. */
  lemma NamePoints(c: CubeView, m: string, kwargs: Dict<string, Sel>)
    requires Consistent(c) && m in c.metrics
    requires forall p :: p in c.parameters ==>
      HasKey(kwargs, p) && Get(kwargs, p).Name? && HasKey(c.domain, p) && Get(kwargs, p).s in Get(c.domain, p)
    ensures var sels := CallIndex(c.parameters, Some(Name(m)), kwargs); var ns := NamePositions(c, m, kwargs);
      forall i :: 0 <= i < |sels| ==> Point(c, i, sels[i], ns[i])
  {
    var sels := CallIndex(c.parameters, Some(Name(m)), kwargs);
    var ns := NamePositions(c, m, kwargs);
    forall i | 0 <= i < |sels| ensures Point(c, i, sels[i], ns[i]) {
      if i < |c.parameters| {
        assert c.parameters[i] in c.parameters;
      }
    }
  }

  /** With a value named for every parameter, `__call__` indexes by those names and the metric,
      and the values it picks are the named ones. */
  lemma CallPoints(c: CubeView, m: string, kwargs: Dict<string, Sel>)
    requires Consistent(c) && m in c.metrics
    requires forall j :: 0 <= j < |kwargs| ==> kwargs[j].0 in c.parameters
    requires forall p :: p in c.parameters ==>
      HasKey(kwargs, p) && Get(kwargs, p).Name? && HasKey(c.domain, p) && Get(kwargs, p).s in Get(c.domain, p)
    ensures var sels := CallIndex(c.parameters, Some(Name(m)), kwargs); var ns := NamePositions(c, m, kwargs);
      var n := |c.parameters|;
      Call(c, Some(Name(m)), kwargs) == Select(c, sels) && |sels| == |c.shape| &&
      (forall i :: 0 <= i < |sels| ==> Point(c, i, sels[i], ns[i])) &&
      OnAxes(c, ns[..n]) && c.metrics[ns[n]] == m && Chosen(c, ns[..n]) == Assigned(c.parameters, kwargs)
  {
    var n := |c.parameters|;
    var ns := NamePositions(c, m, kwargs);
    NamePoints(c, m, kwargs);
    assert OnAxes(c, ns[..n]);
    assert Chosen(c, ns[..n]) == Assigned(c.parameters, kwargs);
  }

  /** `cube(metric, **kwargs)` with a value named for every parameter, on a constructed cube,
      gives the last result recorded for that metric under those values and the metadata, and
      `None` when no such result was recorded. */
  lemma CallLookup(ps: seq<Dict<string, Value>>, rs: seq<Dict<string, Value>>, name: string, c: CubeView,
                   m: string, kwargs: Dict<string, Sel>)
    requires Uniform(ps) && StrFaithful(ps) && Built(ps, rs, name) == Ok(c) && m in c.metrics
    requires forall j :: 0 <= j < |kwargs| ==> kwargs[j].0 in c.parameters
    requires forall p :: p in c.parameters ==>
      HasKey(kwargs, p) && Get(kwargs, p).Name? && HasKey(c.domain, p) && Get(kwargs, p).s in Get(c.domain, p)
    ensures var r := Call(c, Some(Name(m)), kwargs);
      r.Ok? && r.value.Scalar? && LastRecord(Jobs(ps, rs), m, c.metadata + Assigned(c.parameters, kwargs), r.value.value)
  {
    BuiltView(ps, rs, name);
    CallPoints(c, m, kwargs);
    BuiltLookup(ps, rs, name, c, CallIndex(c.parameters, Some(Name(m)), kwargs), NamePositions(c, m, kwargs));
  }
}
