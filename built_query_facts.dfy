/** What the queries of a constructed cube report about the results it was built from: `items`
    yields every assignment of the axes with, for each metric, the last result recorded under
    it; `in_domain` lists exactly the assignments with a result for every metric; and
    `out_of_domain` exactly the (assignment, metric) pairs with no result. */
module BuiltQueryFacts {
  import opened Common
  import opened Values
  import opened Hashing
  import opened HashingFacts
  import opened Cartesian
  import opened CubeBuild
  import opened CubeBuildFacts
  import opened CubeSelect
  import opened CubeSelectFacts
  import opened CubeQuery
  import opened QueryFacts

  /** An assignment of the axes: one value of each parameter's axis, in parameter order. */
  ghost predicate Assignment(c: CubeView, t: seq<string>) {
    |t| == |c.parameters| &&
    forall i :: 0 <= i < |t| ==> HasKey(c.domain, c.parameters[i]) && t[i] in Get(c.domain, c.parameters[i])
  }

  /** Some write of the fill loop recorded metric `m` under `key`. */
  ghost predicate Recorded(jobs: seq<Job>, m: string, key: Dict<string, string>) {
    exists q :: 0 <= q < |jobs| && Records(jobs[q], m, key)
  }

  /** On a consistent cube the assignments are exactly the tuples `items` walks through. */
  lemma AssignmentCart(c: CubeView, t: seq<string>)
    requires Consistent(c)
    ensures Axes(c).Ok? && (Assignment(c, t) <==> t in Cart(Axes(c).value))
  {
    CartMember(t, Axes(c).value);
  }

  /** On distinct names `Zip` pairs each name with its value, in order. */
  lemma ZipPairs(names: seq<string>, vals: seq<string>)
    requires NoDup(names) && |vals| == |names|
    ensures var z := Zip(names, vals);
      |z| == |names| && Keys(z) == names && DistinctKeys(z) &&
      forall i :: 0 <= i < |names| ==> z[i] == (names[i], vals[i])
  {
    var n := |names|;
    var pairs := seq(n, i requires 0 <= i < n => (names[i], vals[i]));
    assert Zip(names, vals) == PutAll([], pairs);
    assert Keys(pairs) == names;
    assert [] + pairs == pairs;
    PutAllFresh([], pairs);
  }

  /** The key `items` hashes for an assignment is the assignment followed by the metadata,
      with no name twice and one entry per axis and per metadatum. */
  lemma ItemKeyShape(c: CubeView, t: seq<string>)
    requires Consistent(c) && Assignment(c, t)
    ensures var z := Zip(c.parameters, t);
      ItemKey(c, t) == z + c.metadata && DistinctKeys(ItemKey(c, t)) &&
      |ItemKey(c, t)| == |c.parameters| + |c.metadata| &&
      forall j :: 0 <= j < |c.parameters| ==> ItemKey(c, t)[j] == (c.parameters[j], t[j])
  {
    AxisCount(c);
    var z := Zip(c.parameters, t);
    ZipPairs(c.parameters, t);
    forall x | HasKey(z, x) ensures !HasKey(c.metadata, x) {
      assert x in c.parameters;
    }
    DisjointKeys(z, c.metadata);
    PutAllFresh(z, c.metadata);
  }

  /** The key `items` hashes for an assignment gives each axis its value and each metadatum its
      value. */
  lemma ItemKeyEntries(c: CubeView, t: seq<string>)
    requires Consistent(c) && Assignment(c, t)
    ensures var key := ItemKey(c, t);
      (forall i :: 0 <= i < |c.domain| ==> HasKey(key, c.domain[i].0) && Get(key, c.domain[i].0) in c.domain[i].1) &&
      (forall j :: 0 <= j < |c.metadata| ==> HasKey(key, c.metadata[j].0) && Get(key, c.metadata[j].0) == c.metadata[j].1)
  {
    ItemKeyShape(c, t);
    var key := ItemKey(c, t);
    var n := |c.parameters|;
    forall i | 0 <= i < |c.domain| ensures HasKey(key, c.domain[i].0) && Get(key, c.domain[i].0) in c.domain[i].1 {
      var p := c.domain[i].0;
      GetAt(c.domain, i);
      var j := FirstIndex(c.parameters, p);
      ItemIn(key, p, t[j]);
    }
    forall j | 0 <= j < |c.metadata| ensures HasKey(key, c.metadata[j].0) && Get(key, c.metadata[j].0) == c.metadata[j].1 {
      assert key[n + j] == c.metadata[j];
      ItemIn(key, c.metadata[j].0, c.metadata[j].1);
    }
  }

  /** The hasher accepts the key `items` builds for an assignment, with every metric. */
  lemma ItemKeyValid(c: CubeView, t: seq<string>, m: string)
    requires Consistent(c) && Assignment(c, t) && m in c.metrics
    ensures ValidKey(c.metrics, c.domain, c.metadata, m, ItemKey(c, t))
  {
    AxisCount(c);
    ItemKeyShape(c, t);
    ItemKeyEntries(c, t);
  }

  /** `self.hash(m, key)` for each metric raises nothing, so neither do the hashes of the
      first `n` metrics. */
  lemma {:induction false} IndicesOk(c: CubeView, key: Dict<string, string>, n: nat)
    requires n <= |c.metrics| && forall j :: 0 <= j < n ==> HashOf(c.layout, c.metrics[j], key).Ok?
    ensures Indices(c, key, n).Ok?
  {
    if n > 0 {
      IndicesOk(c, key, n - 1);
    }
  }

  /** On a hashed cube an assignment's key hashes, for each metric, to its index in the data
      list. */
  lemma ItemHash(c: CubeView, t: seq<string>, m: string)
    requires Hashed(c) && Assignment(c, t) && m in c.metrics
    ensures ValidKey(c.metrics, c.domain, c.metadata, m, ItemKey(c, t))
    ensures HashOf(c.layout, m, ItemKey(c, t)) == Ok(KeyIndex(c.metrics, c.domain, m, ItemKey(c, t)))
    ensures KeyIndex(c.metrics, c.domain, m, ItemKey(c, t)) < |c.data|
  {
    ItemKeyValid(c, t, m);
    HashedIndex(c, m, ItemKey(c, t));
  }

  /** On a hashed cube the row `items` yields for an assignment holds, for each metric, the
      entry of the data list its key hashes to. */
  lemma RowHashed(c: CubeView, t: seq<string>)
    requires Hashed(c) && Assignment(c, t)
    ensures var r := Row(c, t);
      r.Ok? && |r.value| == |c.metrics| &&
      forall j :: 0 <= j < |c.metrics| ==>
        var h := HashOf(c.layout, c.metrics[j], ItemKey(c, t)); h.Ok? && h.value < |c.data| && r.value[j] == c.data[h.value]
  {
    forall j | 0 <= j < |c.metrics|
      ensures var h := HashOf(c.layout, c.metrics[j], ItemKey(c, t)); h.Ok? && h.value < |c.data|
    {
      ItemHash(c, t, c.metrics[j]);
    }
    IndicesOk(c, ItemKey(c, t), |c.metrics|);
  }

  /** When no row raises, neither does the list of rows. */
  lemma {:induction false} RowsOk(c: CubeView, ts: seq<seq<string>>)
    requires forall i :: 0 <= i < |ts| ==> Row(c, ts[i]).Ok?
    ensures RowsOf(c, ts).Ok?
  {
    if ts != [] {
      var n := |ts| - 1;
      assert forall i :: 0 <= i < n ==> ts[..n][i] == ts[i];
      RowsOk(c, ts[..n]);
    }
  }

  /** On a hashed cube `items` raises nothing: it yields every assignment of the axes once, in
      `itertools.product` order, with each metric's slot of the data list. */
  lemma ItemsHashed(c: CubeView)
    requires Hashed(c)
    ensures Axes(c).Ok? && Items(c).Ok?
    ensures var rows := Items(c).value;
      |rows| == |Cart(Axes(c).value)| &&
      forall i :: 0 <= i < |rows| ==> (rows[i].0 == Cart(Axes(c).value)[i] && Assignment(c, rows[i].0) &&
        |rows[i].1| == |c.metrics| &&
        forall j :: 0 <= j < |c.metrics| ==>
          var h := HashOf(c.layout, c.metrics[j], ItemKey(c, rows[i].0)); h.Ok? && h.value < |c.data| && rows[i].1[j] == c.data[h.value])
  {
    var ts := Cart(Axes(c).value);
    forall i | 0 <= i < |ts| ensures Assignment(c, ts[i]) && Row(c, ts[i]).Ok? {
      AssignmentCart(c, ts[i]);
      RowHashed(c, ts[i]);
    }
    RowsOk(c, ts);
    var rows := Items(c).value;
    forall i | 0 <= i < |rows|
      ensures |rows[i].1| == |c.metrics| &&
        forall j :: 0 <= j < |c.metrics| ==>
          var h := HashOf(c.layout, c.metrics[j], ItemKey(c, rows[i].0)); h.Ok? && h.value < |c.data| && rows[i].1[j] == c.data[h.value]
    {
      RowHashed(c, ts[i]);
    }
  }

  /** Every slot of the cube that an assignment and a metric name holds the last result
      recorded for that metric under the assignment's key. */
  ghost predicate SlotsRecord(c: CubeView, jobs: seq<Job>) {
    forall t, m :: Assignment(c, t) && m in c.metrics ==>
      var h := HashOf(c.layout, m, ItemKey(c, t));
      h.Ok? && LastRecord(jobs, m, ItemKey(c, t), LastHit(c.layout, jobs, 0, h.value))
  }

  /** When every write lands where its key says, the last write landing on the slot of a metric under
      an assignment is the last job recording that metric under the assignment's key. */
  lemma SlotsRecorded(c: CubeView, jobs: seq<Job>)
    requires Hashed(c) && HitsRecords(c, jobs)
    ensures SlotsRecord(c, jobs)
  {
    forall t, m | Assignment(c, t) && m in c.metrics
      ensures var h := HashOf(c.layout, m, ItemKey(c, t));
        h.Ok? && LastRecord(jobs, m, ItemKey(c, t), LastHit(c.layout, jobs, 0, h.value))
    {
      ItemHash(c, t, m);
      LastHitRecord(c, jobs, m, ItemKey(c, t));
    }
  }

  /** On a hashed cube whose every slot holds the last write landing on it, every metric of a
      row of `items` holds the last result recorded for it under the row's key. */
  lemma HashedRecords(c: CubeView, jobs: seq<Job>)
    requires Hashed(c) && SlotsRecord(c, jobs)
    requires forall x :: 0 <= x < |c.data| ==> c.data[x] == LastHit(c.layout, jobs, 0, x)
    ensures Items(c).Ok?
    ensures var rows := Items(c).value;
      forall i, j :: 0 <= i < |rows| && 0 <= j < |c.metrics| ==>
        |rows[i].1| == |c.metrics| && LastRecord(jobs, c.metrics[j], ItemKey(c, rows[i].0), rows[i].1[j])
  {
    ItemsHashed(c);
    var rows := Items(c).value;
    forall i, j | 0 <= i < |rows| && 0 <= j < |c.metrics|
      ensures |rows[i].1| == |c.metrics| && LastRecord(jobs, c.metrics[j], ItemKey(c, rows[i].0), rows[i].1[j])
    {
      ItemHash(c, rows[i].0, c.metrics[j]);
    }
  }

  /** The rows of `items` walk every assignment of the axes once, in product order, and each
      metric of a row holds the last result recorded for it under the row's key. */
  ghost predicate Walked(c: CubeView, jobs: seq<Job>, rows: seq<(seq<string>, seq<Option<Value>>)>) {
    Axes(c).Ok? &&
    (forall t :: Assignment(c, t) <==> t in Cart(Axes(c).value)) &&
    |rows| == |Cart(Axes(c).value)| &&
    forall i :: 0 <= i < |rows| ==> (rows[i].0 == Cart(Axes(c).value)[i] && |rows[i].1| == |c.metrics| &&
      forall j :: 0 <= j < |c.metrics| ==> LastRecord(jobs, c.metrics[j], ItemKey(c, rows[i].0), rows[i].1[j]))
  }

  /** `items()` on a constructed cube: every assignment of the axes comes once, and each metric
      holds the last result recorded for it under the assignment and the metadata, or `None`
      when none was. */
  lemma BuiltItems(ps: seq<Dict<string, Value>>, rs: seq<Dict<string, Value>>, name: string, c: CubeView)
    requires Uniform(ps) && StrFaithful(ps) && Built(ps, rs, name) == Ok(c)
    ensures Items(c).Ok? && Walked(c, Jobs(ps, rs), Items(c).value)
  {
    BuiltView(ps, rs, name);
    ItemsHashed(c);
    SlotsRecorded(c, Jobs(ps, rs));
    HashedRecords(c, Jobs(ps, rs));
    forall t ensures Assignment(c, t) <==> t in Cart(Axes(c).value) {
      AssignmentCart(c, t);
    }
  }

  /** Every metric has a result recorded under the assignment's key. */
  ghost predicate Complete(c: CubeView, jobs: seq<Job>, t: seq<string>) {
    forall j :: 0 <= j < |c.metrics| ==> Recorded(jobs, c.metrics[j], ItemKey(c, t))
  }

  /** A slot holding the last record for a key is filled exactly when something was recorded. */
  lemma RecordPresence(jobs: seq<Job>, m: string, key: Dict<string, string>, v: Option<Value>)
    requires LastRecord(jobs, m, key, v)
    ensures v.Some? <==> Recorded(jobs, m, key)
  {
  }

  /** Each assignment has its row among rows that walk the axes. */
  lemma WalkedRow(c: CubeView, jobs: seq<Job>, rows: seq<(seq<string>, seq<Option<Value>>)>, t: seq<string>)
    requires Walked(c, jobs, rows) && Assignment(c, t)
    ensures exists i :: 0 <= i < |rows| && rows[i].0 == t
  {
    var axes := Axes(c).value;
    var i :| 0 <= i < |Cart(axes)| && Cart(axes)[i] == t;
    assert rows[i].0 == t;
  }

  /** Over rows that walk the axes, the complete rows are exactly the complete assignments. */
  lemma WalkedFilled(c: CubeView, jobs: seq<Job>, rows: seq<(seq<string>, seq<Option<Value>>)>, d: Dict<string, string>)
    requires Walked(c, jobs, rows)
    ensures d in Filled(c.parameters, rows) <==>
      exists t :: Assignment(c, t) && d == Zip(c.parameters, t) && Complete(c, jobs, t)
  {
    FilledExact(c.parameters, rows, d);
    var axes := Axes(c).value;
    forall i | 0 <= i < |rows| ensures Assignment(c, rows[i].0) && (Present(rows[i].1) <==> Complete(c, jobs, rows[i].0)) {
      assert rows[i].0 in Cart(axes);
      forall j | 0 <= j < |c.metrics| ensures rows[i].1[j].Some? <==> Recorded(jobs, c.metrics[j], ItemKey(c, rows[i].0)) {
        RecordPresence(jobs, c.metrics[j], ItemKey(c, rows[i].0), rows[i].1[j]);
      }
    }
    if t :| Assignment(c, t) && d == Zip(c.parameters, t) && Complete(c, jobs, t) {
      WalkedRow(c, jobs, rows, t);
    }
  }

  /** Over rows that walk the axes, the missing slots are exactly the pairs of an assignment
      and a metric with nothing recorded. */
  lemma WalkedMissing(c: CubeView, jobs: seq<Job>, rows: seq<(seq<string>, seq<Option<Value>>)>,
                      e: (Dict<string, string>, string))
    requires Walked(c, jobs, rows)
    ensures RowsFit(c.metrics, rows)
    ensures e in Missing(c.parameters, c.metrics, rows) <==>
      exists t, j :: Assignment(c, t) && 0 <= j < |c.metrics| && !Recorded(jobs, c.metrics[j], ItemKey(c, t)) &&
        e == (Zip(c.parameters, t), c.metrics[j])
  {
    MissingExact(c.parameters, c.metrics, rows, e);
    var axes := Axes(c).value;
    forall i, j | 0 <= i < |rows| && 0 <= j < |c.metrics|
      ensures Assignment(c, rows[i].0) && (rows[i].1[j].None? <==> !Recorded(jobs, c.metrics[j], ItemKey(c, rows[i].0)))
    {
      assert rows[i].0 in Cart(axes);
      RecordPresence(jobs, c.metrics[j], ItemKey(c, rows[i].0), rows[i].1[j]);
    }
    if t, j :| Assignment(c, t) && 0 <= j < |c.metrics| && !Recorded(jobs, c.metrics[j], ItemKey(c, t)) &&
               e == (Zip(c.parameters, t), c.metrics[j]) {
      WalkedRow(c, jobs, rows, t);
    }
  }

  /** `in_domain()` on a constructed cube lists, as parameter dicts, exactly the assignments
      of the axes under which every metric has a recorded result. */
  lemma BuiltInDomain(ps: seq<Dict<string, Value>>, rs: seq<Dict<string, Value>>, name: string, c: CubeView,
                      d: Dict<string, string>)
    requires Uniform(ps) && StrFaithful(ps) && Built(ps, rs, name) == Ok(c)
    ensures InDomain(c).Ok?
    ensures d in InDomain(c).value <==>
      exists t :: Assignment(c, t) && d == Zip(c.parameters, t) && Complete(c, Jobs(ps, rs), t)
  {
    BuiltItems(ps, rs, name, c);
    WalkedFilled(c, Jobs(ps, rs), Items(c).value, d);
  }

  /** `out_of_domain()` on a constructed cube lists exactly the pairs of an assignment of the
      axes, as a parameter dict, and a metric with no result recorded under it. */
  lemma BuiltOutOfDomain(ps: seq<Dict<string, Value>>, rs: seq<Dict<string, Value>>, name: string, c: CubeView,
                         e: (Dict<string, string>, string))
    requires Uniform(ps) && StrFaithful(ps) && Built(ps, rs, name) == Ok(c)
    ensures OutOfDomain(c).Ok?
    ensures e in OutOfDomain(c).value <==>
      exists t, j :: Assignment(c, t) && 0 <= j < |c.metrics| && !Recorded(Jobs(ps, rs), c.metrics[j], ItemKey(c, t)) &&
        e == (Zip(c.parameters, t), c.metrics[j])
  {
    BuiltItems(ps, rs, name, c);
    WalkedMissing(c, Jobs(ps, rs), Items(c).value, e);
  }
}
