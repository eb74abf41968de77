/** `Datacube.__init__`: the observed parameter values are split into domain
    axes (more than one value) and metadata (exactly one), the metric names
    are collected and sorted, and every result is written through the
    hasher into a flat list of `None`s. */
module CubeBuild {
  import opened Common
  import opened Sorting
  import opened Values
  import opened Hashing

  /** `param_tmp`: for each name, the set of its observed values, kept in order of first sight. */
  type Observed = Dict<string, seq<Value>>

  /** Every name appears once and holds a non-empty list of distinct values. */
  predicate SetsOk(tmp: Observed) {
    DistinctKeys(tmp) && forall i :: 0 <= i < |tmp| ==> tmp[i].1 != [] && NoDup(tmp[i].1)
  }

  /** `v in param_tmp[k]`. */
  predicate Holds(tmp: Observed, k: string, v: Value) {
    HasKey(tmp, k) && v in Get(tmp, k)
  }

  /** `_set = param_tmp.get(k)`, a new set stored under `k` on first sight, then `_set.add(v)`. */
  function AddValue(tmp: Observed, k: string, v: Value): Observed {
    var found := Lookup(tmp, k);
    if found.None? then Put(tmp, k, [v])
    else if v in found.value then tmp
    else Put(tmp, k, found.value + [v])
  }

  /** The inner loop over `parameters.items()`. */
  function ObserveItems(tmp: Observed, items: Dict<string, Value>): Observed {
    if items == [] then tmp
    else
      var n := |items| - 1;
      AddValue(ObserveItems(tmp, items[..n]), items[n].0, items[n].1)
  }

  /** The outer loop over `parameters_ls`. */
  function ObserveAll(ps: seq<Dict<string, Value>>): Observed {
    if ps == [] then []
    else
      var n := |ps| - 1;
      ObserveItems(ObserveAll(ps[..n]), ps[n])
  }

  /** Replacing or appending the entry of `k` keeps every other entry. */
  lemma PutEntries(tmp: Observed, k: string, vs: seq<Value>)
    ensures forall i :: 0 <= i < |Put(tmp, k, vs)| ==> Put(tmp, k, vs)[i] == (k, vs) || Put(tmp, k, vs)[i] in tmp
  {
  }

  lemma AddValueFacts(tmp: Observed, k: string, v: Value)
    requires SetsOk(tmp)
    ensures SetsOk(AddValue(tmp, k, v))
    ensures forall x :: HasKey(AddValue(tmp, k, v), x) <==> HasKey(tmp, x) || x == k
    ensures forall x, w :: Holds(AddValue(tmp, k, v), x, w) <==> Holds(tmp, x, w) || (x == k && w == v)
  {
    var r := AddValue(tmp, k, v);
    if !HasKey(tmp, k) {
      PutFacts(tmp, k, [v]);
      PutEntries(tmp, k, [v]);
    } else if v !in Get(tmp, k) {
      var vs := Get(tmp, k) + [v];
      GetAt(tmp, Common.Slot(tmp, k));
      NoDupAppend(Get(tmp, k), v);
      PutFacts(tmp, k, vs);
      PutEntries(tmp, k, vs);
    }
  }

  lemma {:induction false} ObserveItemsFacts(tmp: Observed, items: Dict<string, Value>)
    requires SetsOk(tmp)
    ensures SetsOk(ObserveItems(tmp, items))
    ensures forall x :: HasKey(ObserveItems(tmp, items), x) <==> HasKey(tmp, x) || x in Keys(items)
    ensures forall x, w :: Holds(ObserveItems(tmp, items), x, w) <==> Holds(tmp, x, w) || (x, w) in items
  {
    if items != [] {
      var n := |items| - 1;
      ObserveItemsFacts(tmp, items[..n]);
      AddValueFacts(ObserveItems(tmp, items[..n]), items[n].0, items[n].1);
      assert items == items[..n] + [items[n]];
      assert Keys(items) == Keys(items[..n]) + [items[n].0];
    }
  }

  lemma {:induction false} ObserveAllOk(ps: seq<Dict<string, Value>>)
    ensures SetsOk(ObserveAll(ps))
  {
    if ps != [] {
      var n := |ps| - 1;
      ObserveAllOk(ps[..n]);
      ObserveItemsFacts(ObserveAll(ps[..n]), ps[n]);
    }
  }

  /** `param_tmp` holds exactly the observed names. */
  lemma {:induction false} ObservedNames(ps: seq<Dict<string, Value>>)
    ensures forall x :: HasKey(ObserveAll(ps), x) <==> exists i :: 0 <= i < |ps| && x in Keys(ps[i])
  {
    if ps != [] {
      var n := |ps| - 1;
      ObservedNames(ps[..n]);
      ObserveAllOk(ps[..n]);
      ObserveItemsFacts(ObserveAll(ps[..n]), ps[n]);
      forall x | exists i :: 0 <= i < |ps| && x in Keys(ps[i])
        ensures HasKey(ObserveAll(ps), x)
      {
        var i :| 0 <= i < |ps| && x in Keys(ps[i]);
        if i < n {
          assert ps[..n][i] == ps[i];
        }
      }
    }
  }

  /** Each name holds exactly the values observed for it. */
  lemma {:induction false} ObservedValues(ps: seq<Dict<string, Value>>)
    ensures forall x, w :: Holds(ObserveAll(ps), x, w) <==> exists i :: 0 <= i < |ps| && (x, w) in ps[i]
  {
    if ps != [] {
      var n := |ps| - 1;
      ObservedValues(ps[..n]);
      ObserveAllOk(ps[..n]);
      ObserveItemsFacts(ObserveAll(ps[..n]), ps[n]);
      forall x, w | exists i :: 0 <= i < |ps| && (x, w) in ps[i]
        ensures Holds(ObserveAll(ps), x, w)
      {
        var i :| 0 <= i < |ps| && (x, w) in ps[i];
        if i < n {
          assert ps[..n][i] == ps[i];
        }
      }
    }
  }

  /** The first loop of `Datacube.__init__`, building `param_tmp`. */
  method CollectValues(ps: seq<Dict<string, Value>>) returns (tmp: Observed)
    ensures tmp == ObserveAll(ps)
  {
    tmp := [];
    for i := 0 to |ps|
      invariant tmp == ObserveAll(ps[..i])
    {
      assert ps[..i + 1][..i] == ps[..i];
      var items := ps[i];
      ghost var tmp0 := tmp;
      for j := 0 to |items|
        invariant tmp == ObserveItems(tmp0, items[..j])
      {
        assert items[..j + 1][..j] == items[..j];
        var k, v := items[j].0, items[j].1;
        var found := Lookup(tmp, k);
        if found.None? {
          tmp := Put(tmp, k, [v]);
        } else if v !in found.value {
          tmp := Put(tmp, k, found.value + [v]);
        }
      }
      assert items[..|items|] == items;
    }
    assert ps[..|ps|] == ps;
  }

  /** `[str(x) for x in ls]`. */
  function Strs(vs: seq<Value>): (r: seq<string>)
    ensures |r| == |vs| && forall i :: 0 <= i < |vs| ==> r[i] == Str(vs[i])
  {
    seq(|vs|, i requires 0 <= i < |vs| => Str(vs[i]))
  }

  /** `domain`, `metadata` and `parameter_list` before it is sorted. */
  datatype Partition = Partition(domain: Domain, metadata: Dict<string, string>, names: seq<string>)

  /** The loop over `param_tmp.items()`: several values make a domain axis with its values sorted
      and stringified, a single value is stringified into the metadata. */
  function SplitItems(tmp: Observed): Partition
    requires forall i :: 0 <= i < |tmp| ==> tmp[i].1 != []
  {
    if tmp == [] then Partition([], [], [])
    else
      var n := |tmp| - 1;
      var s := SplitItems(tmp[..n]);
      var k, vs := tmp[n].0, tmp[n].1;
      if |vs| > 1 then Partition(Put(s.domain, k, Strs(Sorted(vs))), s.metadata, s.names + [k])
      else Partition(s.domain, Put(s.metadata, k, Str(vs[0])), s.names)
  }

  /** The prefix of `param_tmp` the split has seen answers like `param_tmp` itself. */
  lemma SplitPrefix(tmp: Observed, n: nat)
    requires SetsOk(tmp) && n < |tmp|
    ensures SetsOk(tmp[..n]) && !HasKey(tmp[..n], tmp[n].0)
    ensures HasKey(tmp, tmp[n].0) && Get(tmp, tmp[n].0) == tmp[n].1
    ensures forall x :: HasKey(tmp[..n + 1], x) <==> HasKey(tmp[..n], x) || x == tmp[n].0
    ensures forall x :: HasKey(tmp[..n], x) ==> Get(tmp, x) == Get(tmp[..n], x)
  {
    DistinctKeysPrefix(tmp, n);
    GetAt(tmp, n);
    assert Keys(tmp[..n + 1]) == Keys(tmp[..n]) + [tmp[n].0];
    forall x | HasKey(tmp[..n], x) ensures Get(tmp, x) == Get(tmp[..n], x) {
      GetPrefix(tmp, n, x);
    }
  }

  /** A name with several observed values becomes an axis holding them sorted and stringified,
      and the axis names are listed in the order the axes were added. */
  lemma {:induction false} SplitDomain(tmp: Observed)
    requires SetsOk(tmp)
    ensures var s := SplitItems(tmp);
      DistinctKeys(s.domain) && s.names == Keys(s.domain) &&
      (forall k :: HasKey(s.domain, k) <==> HasKey(tmp, k) && |Get(tmp, k)| > 1) &&
      (forall k :: HasKey(s.domain, k) ==> Get(s.domain, k) == Strs(Sorted(Get(tmp, k))))
  {
    if tmp != [] {
      var n := |tmp| - 1;
      SplitPrefix(tmp, n);
      SplitDomain(tmp[..n]);
      assert tmp[..n + 1] == tmp;
      var s := SplitItems(tmp[..n]);
      if |tmp[n].1| > 1 {
        PutFacts(s.domain, tmp[n].0, Strs(Sorted(tmp[n].1)));
      }
    }
  }

  /** A name with a single observed value becomes metadata holding it stringified. */
  lemma {:induction false} SplitMetadata(tmp: Observed)
    requires SetsOk(tmp)
    ensures var s := SplitItems(tmp);
      DistinctKeys(s.metadata) &&
      (forall k :: HasKey(s.metadata, k) <==> HasKey(tmp, k) && |Get(tmp, k)| == 1) &&
      (forall k :: HasKey(s.metadata, k) ==> Get(s.metadata, k) == Str(Get(tmp, k)[0]))
  {
    if tmp != [] {
      var n := |tmp| - 1;
      SplitPrefix(tmp, n);
      SplitMetadata(tmp[..n]);
      assert tmp[..n + 1] == tmp;
      var s := SplitItems(tmp[..n]);
      if |tmp[n].1| <= 1 {
        PutFacts(s.metadata, tmp[n].0, Str(tmp[n].1[0]));
      }
    }
  }

  /** The loop over `param_tmp.items()`. */
  method SplitParameters(tmp: Observed) returns (domain: Domain, metadata: Dict<string, string>, names: seq<string>)
    requires forall i :: 0 <= i < |tmp| ==> tmp[i].1 != []
    ensures Partition(domain, metadata, names) == SplitItems(tmp)
  {
    domain, metadata, names := [], [], [];
    for i := 0 to |tmp|
      invariant Partition(domain, metadata, names) == SplitItems(tmp[..i])
    {
      assert tmp[..i + 1][..i] == tmp[..i];
      var k, ls := tmp[i].0, tmp[i].1;
      if |ls| > 1 {
        ls := Sorted(ls);
        domain := Put(domain, k, Strs(ls));
        names := names + [k];
      } else {
        metadata := Put(metadata, k, Str(ls[0]));
      }
    }
    assert tmp[..|tmp|] == tmp;
  }

  /** `s.update(names)` on a set kept in order of first sight. */
  function AddNames(s: seq<string>, names: seq<string>): seq<string> {
    if names == [] then s
    else
      var n := |names| - 1;
      var t := AddNames(s, names[..n]);
      if names[n] in t then t else t + [names[n]]
  }

  /** The metric names of every result mapping, each once. */
  function MetricSet(rs: seq<Dict<string, Value>>): seq<string> {
    if rs == [] then []
    else
      var n := |rs| - 1;
      AddNames(MetricSet(rs[..n]), Keys(rs[n]))
  }

  lemma {:induction false} AddNamesFacts(s: seq<string>, names: seq<string>)
    requires NoDup(s)
    ensures NoDup(AddNames(s, names))
    ensures forall x :: x in AddNames(s, names) <==> x in s || x in names
  {
    if names != [] {
      var n := |names| - 1;
      AddNamesFacts(s, names[..n]);
      assert names == names[..n] + [names[n]];
    }
  }

  lemma {:induction false} MetricSetFacts(rs: seq<Dict<string, Value>>)
    ensures NoDup(MetricSet(rs))
    ensures forall x :: x in MetricSet(rs) <==> exists i :: 0 <= i < |rs| && HasKey(rs[i], x)
  {
    if rs != [] {
      var n := |rs| - 1;
      MetricSetFacts(rs[..n]);
      AddNamesFacts(MetricSet(rs[..n]), Keys(rs[n]));
      forall x | exists i :: 0 <= i < |rs| && HasKey(rs[i], x)
        ensures x in MetricSet(rs)
      {
        var i :| 0 <= i < |rs| && HasKey(rs[i], x);
        if i < n {
          assert rs[..n][i] == rs[i];
        }
      }
    }
  }

  /** `metrics`: every metric name of every result, once each, sorted. */
  function Metrics(rs: seq<Dict<string, Value>>): seq<string> {
    SortedText(MetricSet(rs))
  }

  /** The metric list is sorted, repeats no name, and names exactly the metrics some result has. */
  lemma MetricsFacts(rs: seq<Dict<string, Value>>)
    ensures SortedBy(Metrics(rs), TextLe) && NoDup(Metrics(rs))
    ensures forall x :: x in Metrics(rs) <==> exists i :: 0 <= i < |rs| && HasKey(rs[i], x)
  {
    MetricSetFacts(rs);
    PermutationNoDup(MetricSet(rs), Metrics(rs));
    forall x ensures x in Metrics(rs) <==> x in MetricSet(rs) {
      assert x in multiset(Metrics(rs)) <==> x in multiset(MetricSet(rs));
    }
  }

  /** The loop over `results_ls` that collects the metric names, then the sort. */
  method CollectMetrics(rs: seq<Dict<string, Value>>) returns (metrics: seq<string>)
    ensures metrics == Metrics(rs)
  {
    var names: seq<string> := [];
    for i := 0 to |rs|
      invariant names == MetricSet(rs[..i])
    {
      assert rs[..i + 1][..i] == rs[..i];
      var keys := Keys(rs[i]);
      ghost var names0 := names;
      for j := 0 to |keys|
        invariant names == AddNames(names0, keys[..j])
      {
        assert keys[..j + 1][..j] == keys[..j];
        if keys[j] !in names {
          names := names + [keys[j]];
        }
      }
      assert keys[..|keys|] == keys;
    }
    assert rs[..|rs|] == rs;
    metrics := SortedText(names);
  }

  /** The size of each named axis, in the order of `names`. */
  function AxisSizes(domain: Domain, names: seq<string>): (r: seq<nat>)
    requires forall p :: p in names ==> HasKey(domain, p)
    ensures |r| == |names| && forall i :: 0 <= i < |names| ==> r[i] == |Get(domain, names[i])|
  {
    seq(|names|, i requires 0 <= i < |names| => |Get(domain, names[i])|)
  }

  /** The loop `for p in parameter_list: shape.append(len(domain[p]))`. */
  method AxisShape(domain: Domain, parameters: seq<string>) returns (shape: seq<nat>)
    requires forall p :: p in parameters ==> HasKey(domain, p)
    ensures shape == AxisSizes(domain, parameters)
  {
    shape := [];
    for i := 0 to |parameters|
      invariant |shape| == i && forall j :: 0 <= j < i ==> shape[j] == |Get(domain, parameters[j])|
    {
      shape := shape + [|Get(domain, parameters[i])|];
    }
  }

  /** `shape`: the size of each axis in `parameters` order, then the number of metrics. */
  function Shape(domain: Domain, parameters: seq<string>, metrics: seq<string>): seq<nat>
    requires forall p :: p in parameters ==> HasKey(domain, p)
  {
    AxisSizes(domain, parameters) + [|metrics|]
  }

  /** `parameter_list.sort()` lists the axis names. */
  lemma SortedNames(names: seq<string>)
    ensures forall p :: p in SortedText(names) <==> p in names
  {
    forall p ensures p in SortedText(names) <==> p in names {
      assert p in SortedText(names) <==> p in multiset(SortedText(names));
    }
  }

  /** `{k: str(v) for k, v in params.items()}`. */
  function Stringify(params: Dict<string, Value>): (r: Dict<string, string>)
    ensures |r| == |params| && forall i :: 0 <= i < |params| ==> r[i] == (params[i].0, Str(params[i].1))
  {
    seq(|params|, i requires 0 <= i < |params| => (params[i].0, Str(params[i].1)))
  }

  /** One write of the fill loop: the metric name, its value and the stringified parameters. */
  datatype Job = Job(metric: string, val: Value, params: Dict<string, string>)

  function RowJobs(params: Dict<string, Value>, results: Dict<string, Value>): (r: seq<Job>)
    ensures |r| == |results| && forall j :: 0 <= j < |results| ==> r[j] == Job(results[j].0, results[j].1, Stringify(params))
  {
    seq(|results|, j requires 0 <= j < |results| => Job(results[j].0, results[j].1, Stringify(params)))
  }

  /** The writes of the first `n` pairs of `zip(parameters_ls, results_ls)`, in order. */
  function JobsUpTo(ps: seq<Dict<string, Value>>, rs: seq<Dict<string, Value>>, n: nat): seq<Job>
    requires n <= |ps| && n <= |rs|
  {
    if n == 0 then [] else JobsUpTo(ps, rs, n - 1) + RowJobs(ps[n - 1], rs[n - 1])
  }

  /** `zip` stops at the shorter list. */
  function Paired(ps: seq<Dict<string, Value>>, rs: seq<Dict<string, Value>>): nat {
    if |ps| < |rs| then |ps| else |rs|
  }

  function Jobs(ps: seq<Dict<string, Value>>, rs: seq<Dict<string, Value>>): seq<Job> {
    JobsUpTo(ps, rs, Paired(ps, rs))
  }

  /** Job `job` writes at index `x`. */
  predicate Hits(l: Layout, job: Job, x: nat) {
    HashOf(l, job.metric, job.params) == Ok(x)
  }

  /** The writes from job `k` on applied to `cells`: a failing hash raises its error and an index
      past the end raises IndexError. */
  function FillFrom(l: Layout, cells: seq<Option<Value>>, jobs: seq<Job>, k: nat): Result<seq<Option<Value>>>
    requires k <= |jobs|
    decreases |jobs| - k, 1
  {
    if k == |jobs| then Ok(cells) else WriteFrom(l, cells, jobs, k)
  }

  /** Job `k` writes, then the jobs after it. */
  function WriteFrom(l: Layout, cells: seq<Option<Value>>, jobs: seq<Job>, k: nat): Result<seq<Option<Value>>>
    requires k < |jobs|
    decreases |jobs| - k, 0
  {
    var h := HashOf(l, jobs[k].metric, jobs[k].params);
    if h.Err? then Err(h.error)
    else if h.value >= |cells| then Err(IndexError)
    else FillFrom(l, cells[h.value := Some(jobs[k].val)], jobs, k + 1)
  }

  /** The value the last job from `k` on that writes at `x` writes there, if any does. */
  function LastHit(l: Layout, jobs: seq<Job>, k: nat, x: nat): Option<Value>
    decreases |jobs| - k
  {
    if k >= |jobs| then None
    else
      var later := LastHit(l, jobs, k + 1, x);
      if later.Some? then later
      else if Hits(l, jobs[k], x) then Some(jobs[k].val)
      else None
  }

  /** `LastHit` is empty exactly when no job writes at `x`, and otherwise holds the value of a
      job that writes at `x` and is followed by no other such job. */
  lemma {:induction false} LastHitFacts(l: Layout, jobs: seq<Job>, k: nat, x: nat)
    requires k <= |jobs|
    ensures LastHit(l, jobs, k, x).None? <==> forall q :: k <= q < |jobs| ==> !Hits(l, jobs[q], x)
    ensures LastHit(l, jobs, k, x).Some? ==>
      exists q :: k <= q < |jobs| && Hits(l, jobs[q], x) && jobs[q].val == LastHit(l, jobs, k, x).value &&
        forall q' :: q < q' < |jobs| ==> !Hits(l, jobs[q'], x)
    decreases |jobs| - k
  {
    if k < |jobs| {
      LastHitFacts(l, jobs, k + 1, x);
    }
  }

  lemma FillStep(l: Layout, cells: seq<Option<Value>>, jobs: seq<Job>, k: nat)
    requires k < |jobs|
    ensures var h := HashOf(l, jobs[k].metric, jobs[k].params);
      FillFrom(l, cells, jobs, k) ==
        if h.Err? then Err(h.error)
        else if h.value >= |cells| then Err(IndexError)
        else FillFrom(l, cells[h.value := Some(jobs[k].val)], jobs, k + 1)
  {
  }

  /** With no writes left, the cells stay as they are. */
  lemma FillEnd(l: Layout, cells: seq<Option<Value>>, jobs: seq<Job>)
    ensures FillFrom(l, cells, jobs, |jobs|) == Ok(cells)
  {
  }

  /** After the writes, a cell holds what the last write to it put there, or what it held. */
  lemma {:induction false} FillFacts(l: Layout, cells: seq<Option<Value>>, jobs: seq<Job>, k: nat)
    requires k <= |jobs| && FillFrom(l, cells, jobs, k).Ok?
    ensures |FillFrom(l, cells, jobs, k).value| == |cells|
    ensures forall x :: 0 <= x < |cells| ==>
      FillFrom(l, cells, jobs, k).value[x] == (if LastHit(l, jobs, k, x).Some? then LastHit(l, jobs, k, x) else cells[x])
    decreases |jobs| - k
  {
    if k < |jobs| {
      var h := HashOf(l, jobs[k].metric, jobs[k].params).value;
      var next := cells[h := Some(jobs[k].val)];
      FillFacts(l, next, jobs, k + 1);
      forall x | 0 <= x < |cells|
        ensures FillFrom(l, cells, jobs, k).value[x] == (if LastHit(l, jobs, k, x).Some? then LastHit(l, jobs, k, x) else cells[x])
      {
        if x != h {
          assert !Hits(l, jobs[k], x);
        }
      }
    }
  }

  /** Writing jobs `a + b` from `k` on is writing those of `a`, then those of `b`. */
  lemma {:induction false} FillAppend(l: Layout, cells: seq<Option<Value>>, a: seq<Job>, b: seq<Job>, k: nat)
    requires k <= |a|
    ensures FillFrom(l, cells, a + b, k) ==
      var c := FillFrom(l, cells, a, k); if c.Err? then c else FillFrom(l, c.value, b, 0)
    decreases |a| - k
  {
    if k < |a| {
      assert (a + b)[k] == a[k];
      var h := HashOf(l, a[k].metric, a[k].params);
      if h.Ok? && h.value < |cells| {
        FillAppend(l, cells[h.value := Some(a[k].val)], a, b, k + 1);
      }
    } else {
      FillShift(l, cells, a, b, 0);
    }
  }

  /** Writing the jobs of `a + b` that come from `b`. */
  lemma {:induction false} FillShift(l: Layout, cells: seq<Option<Value>>, a: seq<Job>, b: seq<Job>, m: nat)
    requires m <= |b|
    ensures FillFrom(l, cells, a + b, |a| + m) == FillFrom(l, cells, b, m)
    decreases |b| - m
  {
    if m < |b| {
      assert (a + b)[|a| + m] == b[m];
      var h := HashOf(l, b[m].metric, b[m].params);
      if h.Ok? && h.value < |cells| {
        FillShift(l, cells[h.value := Some(b[m].val)], a, b, m + 1);
      }
    }
  }

  /** The writes of the first `n` pairs applied pair by pair. */
  function FillRows(l: Layout, cells: seq<Option<Value>>, ps: seq<Dict<string, Value>>, rs: seq<Dict<string, Value>>, n: nat): Result<seq<Option<Value>>>
    requires n <= |ps| && n <= |rs|
  {
    if n == 0 then Ok(cells)
    else
      var c := FillRows(l, cells, ps, rs, n - 1);
      if c.Err? then c else FillFrom(l, c.value, RowJobs(ps[n - 1], rs[n - 1]), 0)
  }

  /** Applying the writes pair by pair is applying them all in order. */
  lemma {:induction false} FillRowsJobs(l: Layout, cells: seq<Option<Value>>, ps: seq<Dict<string, Value>>, rs: seq<Dict<string, Value>>, n: nat)
    requires n <= |ps| && n <= |rs|
    ensures FillFrom(l, cells, JobsUpTo(ps, rs, n), 0) == FillRows(l, cells, ps, rs, n)
  {
    if n > 0 {
      var a := JobsUpTo(ps, rs, n - 1);
      var b := RowJobs(ps[n - 1], rs[n - 1]);
      assert JobsUpTo(ps, rs, n) == a + b;
      FillRowsJobs(l, cells, ps, rs, n - 1);
      FillAppend(l, cells, a, b, 0);
    }
  }

  /** Once a pair has raised, later pairs change nothing. */
  lemma {:induction false} RowsStuck(l: Layout, cells: seq<Option<Value>>, ps: seq<Dict<string, Value>>, rs: seq<Dict<string, Value>>, i: nat, n: nat)
    requires i <= n <= |ps| && n <= |rs| && FillRows(l, cells, ps, rs, i).Err?
    ensures FillRows(l, cells, ps, rs, n) == FillRows(l, cells, ps, rs, i)
    decreases n
  {
    if n > i { RowsStuck(l, cells, ps, rs, i, n - 1); }
  }

  /** The inner fill loop over the results of one `(params, _metrics)` pair. */
  method FillRow(hasher: Hasher, data: array<Option<Value>>, params: Dict<string, Value>,
                 results: Dict<string, Value>, ghost l: Layout)
    returns (r: Result<()>)
    requires l == hasher.View()
    modifies data
    ensures r.Ok? ==> FillFrom(l, old(data[..]), RowJobs(params, results), 0) == Ok(data[..])
    ensures r.Err? ==> FillFrom(l, old(data[..]), RowJobs(params, results), 0) == Err(r.error)
  {
    ghost var jobs := RowJobs(params, results);
    ghost var cells0 := data[..];
    for j := 0 to |results|
      invariant FillFrom(l, cells0, jobs, 0) == FillFrom(l, data[..], jobs, j)
    {
      var params_ := Stringify(params);
      var index := hasher.Hash(results[j].0, params_);
      FillStep(l, data[..], jobs, j);
      if index.Err? {
        return Err(index.error);
      }
      if index.value >= data.Length {
        return Err(IndexError);
      }
      ghost var before := data[..];
      data[index.value] := Some(results[j].1);
      assert data[..] == before[index.value := Some(results[j].1)];
    }
    FillEnd(l, data[..], jobs);
    return Ok(());
  }

  /** The fill loop: each result of each `(params, _metrics)` pair is written where the hasher puts it. */
  method Fill(hasher: Hasher, data: array<Option<Value>>, ps: seq<Dict<string, Value>>, rs: seq<Dict<string, Value>>)
    returns (r: Result<()>)
    modifies data
    ensures var spec := FillFrom(hasher.View(), old(data[..]), Jobs(ps, rs), 0);
      (spec.Ok? ==> r.Ok? && data[..] == spec.value) && (spec.Err? ==> r == Err(spec.error))
  {
    ghost var l := hasher.View();
    ghost var cells0 := data[..];
    var n := Paired(ps, rs);
    for i := 0 to n
      invariant FillRows(l, cells0, ps, rs, i) == Ok(data[..])
    {
      r := FillRow(hasher, data, ps[i], rs[i], l);
      if r.Err? {
        RowsStuck(l, cells0, ps, rs, i + 1, n);
        FillRowsJobs(l, cells0, ps, rs, n);
        return;
      }
    }
    FillRowsJobs(l, cells0, ps, rs, n);
    return Ok(());
  }

  /** The attributes of a `Datacube`; `layout` is what its `hash` attribute holds. */
  datatype CubeView = CubeView(name: string, metadata: Dict<string, string>, domain: Domain,
                               parameters: seq<string>, metrics: seq<string>, data: seq<Option<Value>>,
                               layout: Layout, shape: seq<nat>)

  /** What `Datacube.__init__` sets up before the fill loop: the data list is all `None`. */
  function Skeleton(ps: seq<Dict<string, Value>>, rs: seq<Dict<string, Value>>, name: string): CubeView {
    var tmp := ObserveAll(ps);
    ObserveAllOk(ps);
    SplitDomain(tmp);
    var part := SplitItems(tmp);
    var parameters := SortedText(part.names);
    SortedNames(part.names);
    var metrics := Metrics(rs);
    var shape := Shape(part.domain, parameters, metrics);
    CubeView(name, part.metadata, part.domain, parameters, metrics, seq(Product(shape), _ => None),
             Build(metrics, part.domain, part.metadata), shape)
  }

  /** `Datacube(parameters_ls, results_ls, exp_name)`, or the error the fill loop raises. */
  function Built(ps: seq<Dict<string, Value>>, rs: seq<Dict<string, Value>>, name: string): Result<CubeView> {
    var c := Skeleton(ps, rs, name);
    var filled := FillFrom(c.layout, c.data, Jobs(ps, rs), 0);
    if filled.Err? then Err(filled.error) else Ok(c.(data := filled.value))
  }
}
