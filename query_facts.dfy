/** What the queries of a cube promise: `items` walks the product of the axes and reads the
    slot of every metric; `out_of_domain` lists exactly the missing (assignment, metric) pairs
    and `in_domain` exactly the complete assignments; the missing ratio lies in [0, 1];
    `_some_miss_vs_all_there` splits every axis in two; `__eq__` is an equivalence. */
module QueryFacts {
  import opened Common
  import opened Values
  import opened Hashing
  import opened HashingFacts
  import opened Cartesian
  import opened CubeBuild
  import opened CubeBuildFacts
  import opened CubeSelectFacts
  import opened CloneFacts
  import opened CubeQuery

  /** A row is complete exactly when `in_domain` lists its assignment. */
  lemma {:induction false} FilledExact(params: seq<string>, rows: seq<(seq<string>, seq<Option<Value>>)>, d: Dict<string, string>)
    ensures d in Filled(params, rows) <==>
      exists i :: 0 <= i < |rows| && Present(rows[i].1) && d == Zip(params, rows[i].0)
  {
    if rows != [] {
      var n := |rows| - 1;
      FilledExact(params, rows[..n], d);
      assert forall i :: 0 <= i < n ==> rows[..n][i] == rows[i];
    }
  }

  /** The pairs one row contributes are its missing metrics. */
  lemma {:induction false} GapsExact(params: seq<string>, metrics: seq<string>, t: seq<string>, vs: seq<Option<Value>>,
                                     n: nat, e: (Dict<string, string>, string))
    requires n <= |vs| && |vs| <= |metrics|
    ensures e in Gaps(params, metrics, t, vs, n) <==>
      exists j :: 0 <= j < n && vs[j].None? && e == (Zip(params, t), metrics[j])
  {
    if n > 0 {
      GapsExact(params, metrics, t, vs, n - 1, e);
    }
  }

  /** A pair is listed by `out_of_domain` exactly when some row misses that metric. */
  lemma {:induction false} MissingExact(params: seq<string>, metrics: seq<string>, rows: seq<(seq<string>, seq<Option<Value>>)>,
                                        e: (Dict<string, string>, string))
    requires RowsFit(metrics, rows)
    ensures e in Missing(params, metrics, rows) <==>
      exists i, j :: 0 <= i < |rows| && 0 <= j < |metrics| && rows[i].1[j].None? && e == (Zip(params, rows[i].0), metrics[j])
  {
    if rows != [] {
      var n := |rows| - 1;
      assert RowsFit(metrics, rows[..n]) by {
        forall i | 0 <= i < n ensures |rows[..n][i].1| == |metrics| {
          assert rows[..n][i] == rows[i];
        }
      }
      MissingExact(params, metrics, rows[..n], e);
      GapsExact(params, metrics, rows[n].0, rows[n].1, |rows[n].1|, e);
      assert forall i :: 0 <= i < n ==> rows[..n][i] == rows[i];
    }
  }

  /** Every row contributes at most one pair per metric. */
  lemma {:induction false} MissingCount(params: seq<string>, metrics: seq<string>, rows: seq<(seq<string>, seq<Option<Value>>)>)
    requires RowsFit(metrics, rows)
    ensures |Missing(params, metrics, rows)| <= |rows| * |metrics|
  {
    if rows != [] {
      var n := |rows| - 1;
      assert RowsFit(metrics, rows[..n]) by {
        forall i | 0 <= i < n ensures |rows[..n][i].1| == |metrics| {
          assert rows[..n][i] == rows[i];
        }
      }
      MissingCount(params, metrics, rows[..n]);
      assert |rows| * |metrics| == n * |metrics| + |metrics|;
    }
  }

  /** `items` yields one row per assignment of the product of the axes, in product order, and
      each row lists one value per metric. */
  lemma ItemsShape(c: CubeView)
    requires Items(c).Ok?
    ensures var axes := Axes(c).value; var rows := Items(c).value;
      |rows| == |Cart(axes)| == Product(Sizes(axes)) && RowsFit(c.metrics, rows) &&
      forall i :: 0 <= i < |rows| ==> rows[i].0 == Cart(axes)[i] && InProduct(rows[i].0, axes)
  {
    var axes := Axes(c).value;
    var rows := Items(c).value;
    CartSize(axes);
    forall i | 0 <= i < |rows| ensures |rows[i].1| == |c.metrics| && InProduct(rows[i].0, axes) {
      CartMember(rows[i].0, axes);
      var idx := Indices(c, ItemKey(c, rows[i].0), |c.metrics|);
      assert Row(c, rows[i].0) == Ok(rows[i].1);
    }
  }

  /** The shape of a sized cube is the sizes of the axes, then the number of metrics. */
  lemma SizedProduct(c: CubeView)
    requires Sized(c) && Axes(c).Ok?
    ensures Product(c.shape) == Product(Sizes(Axes(c).value)) * |c.metrics|
  {
    var n := |c.parameters|;
    assert c.shape == Sizes(Axes(c).value) + [|c.metrics|];
    ProductAppend(Sizes(Axes(c).value), |c.metrics|);
  }

  /** On a sized cube whose `items` raises nothing, the missing ratio is a fraction in [0, 1],
      and ZeroDivisionError exactly when the cube is empty. */
  lemma MissingRatioBounds(c: CubeView)
    requires Sized(c) && Items(c).Ok?
    ensures var r := MissingRatio(c, None);
      (r.Err? <==> Product(c.shape) == 0) && (r.Err? ==> r.error == ZeroDivisionError) &&
      (r.Ok? ==> r.value.0 <= r.value.1 && r.value.1 == Product(c.shape) && r.value.1 > 0)
  {
    ItemsShape(c);
    SizedProduct(c);
    MissingCount(c.parameters, c.metrics, Items(c).value);
  }

  /** `(v in Split(domls, missed, want))` is `v in domls` and `(v in missed) == want`. */
  lemma {:induction false} SplitMember(domls: seq<string>, missed: seq<string>, want: bool, v: string)
    ensures v in Split(domls, missed, want) <==> v in domls && (v in missed) == want
  {
    if domls != [] {
      var n := |domls| - 1;
      SplitMember(domls[..n], missed, want, v);
      assert domls == domls[..n] + [domls[n]];
    }
  }

  /** The two halves together are a permutation of the axis. */
  lemma {:induction false} SplitPermutes(domls: seq<string>, missed: seq<string>)
    ensures multiset(Split(domls, missed, true)) + multiset(Split(domls, missed, false)) == multiset(domls)
  {
    if domls != [] {
      var n := |domls| - 1;
      SplitPermutes(domls[..n], missed);
      assert domls == domls[..n] + [domls[n]];
    }
  }

  /** The value of axis `k` in both dictionaries of the partition. */
  lemma {:induction false} MissSplitGet(domain: Domain, ood: seq<(Dict<string, string>, string)>, n: nat, k: nat)
    requires DistinctKeys(domain) && k < n <= |domain|
    requires forall i, q :: 0 <= i < |ood| && 0 <= q < n ==> HasKey(ood[i].0, domain[q].0)
    ensures var (sm, at) := MissSplit(domain, ood, n); var (name, domls) := domain[k];
      HasKey(sm, name) && HasKey(at, name) &&
      Get(sm, name) == Split(domls, MissedValues(ood, name), true) &&
      Get(at, name) == Split(domls, MissedValues(ood, name), false)
  {
    var front := MissSplit(domain, ood, n - 1);
    var name := domain[n - 1].0;
    var sm := Split(domain[n - 1].1, MissedValues(ood, name), true);
    var at := Split(domain[n - 1].1, MissedValues(ood, name), false);
    assert MissSplit(domain, ood, n) == (Put(front.0, name, sm), Put(front.1, name, at));
    PutFacts(front.0, name, sm);
    PutFacts(front.1, name, at);
    if k < n - 1 {
      MissSplitGet(domain, ood, n - 1, k);
      assert Keys(domain)[k] != Keys(domain)[n - 1];
    }
  }

  /** The values of `domls` some missing assignment gives `name`, and the others: together
      a permutation of `domls`. */
  lemma SplitByMisses(domls: seq<string>, ood: seq<(Dict<string, string>, string)>, name: string)
    requires forall i :: 0 <= i < |ood| ==> HasKey(ood[i].0, name)
    ensures var missed := MissedValues(ood, name);
      (forall v :: v in Split(domls, missed, true) <==>
        v in domls && exists i :: 0 <= i < |ood| && Get(ood[i].0, name) == v) &&
      (forall v :: v in Split(domls, missed, false) <==>
        v in domls && forall i :: 0 <= i < |ood| ==> Get(ood[i].0, name) != v) &&
      multiset(Split(domls, missed, true)) + multiset(Split(domls, missed, false)) == multiset(domls)
  {
    var missed := MissedValues(ood, name);
    forall v ensures v in missed <==> exists i :: 0 <= i < |ood| && Get(ood[i].0, name) == v {
      if v in missed {
        var i :| 0 <= i < |missed| && missed[i] == v;
        assert Get(ood[i].0, name) == v;
      } else {
        forall i | 0 <= i < |ood| ensures Get(ood[i].0, name) != v {
          assert missed[i] == Get(ood[i].0, name);
        }
      }
    }
    forall v ensures (v in Split(domls, missed, true)) == (v in domls && v in missed) {
      SplitMember(domls, missed, true, v);
    }
    forall v ensures (v in Split(domls, missed, false)) == (v in domls && v !in missed) {
      SplitMember(domls, missed, false, v);
    }
    SplitPermutes(domls, missed);
  }

  /** When `_some_miss_vs_all_there(ood)` raises nothing, every missing assignment gives
      every axis a value. */
  lemma OodHasAxes(c: CubeView, ood: seq<(Dict<string, string>, string)>)
    requires Consistent(c) && SomeMissVsAllThere(c, Some(ood)).Ok?
    ensures forall i, q :: 0 <= i < |ood| && 0 <= q < |c.domain| ==> HasKey(ood[i].0, c.domain[q].0)
  {
    assert !MissesParam(c.parameters, ood);
    forall i, q | 0 <= i < |ood| && 0 <= q < |c.domain| ensures HasKey(ood[i].0, c.domain[q].0) {
      var p := c.domain[q].0;
      assert p in c.parameters;
      assert !(p in c.parameters && !HasKey(ood[i].0, p));
    }
  }

  /** `_some_miss_vs_all_there(ood)` on a consistent cube: every axis is split into the values
      some missing assignment takes and the values none takes, each in axis order, and the two
      lists together are a permutation of the axis. */
  lemma SomeMissSplits(c: CubeView, ood: seq<(Dict<string, string>, string)>, k: nat)
    requires Consistent(c) && k < |c.domain|
    requires SomeMissVsAllThere(c, Some(ood)).Ok?
    ensures var (sm, at) := SomeMissVsAllThere(c, Some(ood)).value; var (name, domls) := c.domain[k];
      (forall i :: 0 <= i < |ood| ==> HasKey(ood[i].0, name)) && HasKey(sm, name) && HasKey(at, name) &&
      (forall v :: v in Get(sm, name) <==> v in domls && exists i :: 0 <= i < |ood| && Get(ood[i].0, name) == v) &&
      (forall v :: v in Get(at, name) <==> v in domls && forall i :: 0 <= i < |ood| ==> Get(ood[i].0, name) != v) &&
      multiset(Get(sm, name)) + multiset(Get(at, name)) == multiset(domls)
  {
    var (name, domls) := c.domain[k];
    OodHasAxes(c, ood);
    assert SomeMissVsAllThere(c, Some(ood)).value == MissSplit(c.domain, ood, |c.domain|);
    MissSplitGet(c.domain, ood, |c.domain|, k);
    SplitByMisses(domls, ood, name);
  }

  /** A missing assignment without some parameter makes `_some_miss_vs_all_there` raise
      KeyError. */
  lemma SomeMissKeyError(c: CubeView, ood: seq<(Dict<string, string>, string)>, i: nat, p: string)
    requires i < |ood| && p in c.parameters && !HasKey(ood[i].0, p)
    ensures SomeMissVsAllThere(c, Some(ood)) == Err(KeyError)
  {
    assert MissesParam(c.parameters, ood);
  }

  /** `==` on dicts: the same lookups, whatever the order of the items. */
  lemma SameDictLookups<K(!new), V>(a: Dict<K, V>, b: Dict<K, V>)
    ensures SameDict(a, b) <==> forall k :: Lookup(a, k) == Lookup(b, k)
  {
    if SameDict(a, b) {
      forall k ensures Lookup(a, k) == Lookup(b, k) {
        if HasKey(a, k) {
          var i := Slot(a, k);
        } else if HasKey(b, k) {
          var i := Slot(b, k);
        }
      }
    }
    if forall k :: Lookup(a, k) == Lookup(b, k) {
      forall i | 0 <= i < |a| ensures HasKey(b, a[i].0) && Get(b, a[i].0) == Get(a, a[i].0) {
        assert Keys(a)[i] == a[i].0;
        assert Lookup(a, a[i].0) == Lookup(b, a[i].0);
      }
      forall i | 0 <= i < |b| ensures HasKey(a, b[i].0) {
        assert Keys(b)[i] == b[i].0;
        assert Lookup(a, b[i].0) == Lookup(b, b[i].0);
      }
    }
  }

  /** Cube equality is reflexive, symmetric and transitive. */
  lemma CubeEqEquivalence(a: CubeView, b: CubeView, c: CubeView)
    ensures CubeEq(a, a)
    ensures CubeEq(a, b) ==> CubeEq(b, a)
    ensures CubeEq(a, b) && CubeEq(b, c) ==> CubeEq(a, c)
  {
    SameDictLookups(a.metadata, a.metadata);
    SameDictLookups(a.domain, a.domain);
    SameDictLookups(a.metadata, b.metadata);
    SameDictLookups(a.domain, b.domain);
    SameDictLookups(b.metadata, a.metadata);
    SameDictLookups(b.domain, a.domain);
    SameDictLookups(b.metadata, c.metadata);
    SameDictLookups(b.domain, c.domain);
    SameDictLookups(a.metadata, c.metadata);
    SameDictLookups(a.domain, c.domain);
  }

  /** `len(cube)` is the number of values of the first parameter, or the number of metrics
      when no parameter is left. */
  lemma LenFirstAxis(c: CubeView)
    requires Sized(c)
    ensures Len(c) == Ok(if c.parameters == [] then |c.metrics| else |Get(c.domain, c.parameters[0])|)
  {
  }

  /** `size()` of a constructed cube is the length of its data list. */
  lemma BuiltSize(ps: seq<Dict<string, Value>>, rs: seq<Dict<string, Value>>, name: string)
    requires Built(ps, rs, name).Ok?
    ensures Product(Built(ps, rs, name).value.shape) == |Built(ps, rs, name).value.data|
  {
    SkeletonData(ps, rs, name);
    BuiltCells(ps, rs, name);
  }
}
