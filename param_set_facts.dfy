/** What the parameter sets promise: lookups by index, the effect and the errors of the
    cartesian builder's updates, and the order the two decorators yield in. */
module ParamSetFacts {
  import opened Common
  import opened Sorting
  import opened Values
  import opened Cartesian
  import opened ParamSets
  import opened ParamWalkFacts

  // ---------------------------------------------------------------- lookups by index

  /** Each pair is numbered by its position, as `enumerate` numbers it. */
  predicate Numbered(ys: Enumeration) {
    forall i :: 0 <= i < |ys| ==> ys[i].0 == i
  }

  /** On a numbered enumeration `ps[index]` is the dict at that position, and `KeyError`
      out of range. */
  lemma ItemAtNumbered(ys: Enumeration, index: int)
    requires Numbered(ys)
    ensures ItemAt(ys, index) == if 0 <= index < |ys| then Ok(ys[index].1) else Err(KeyError)
  {
    var r := ItemAt(ys, index);
    if r.Ok? {
      var i :| 0 <= i < |ys| && ys[i] == (index, r.value);
    } else if 0 <= index < |ys| {
      assert ys[index].0 == index;
    }
  }

  /** `ExplicitParameterSet`: `ps[index]` is the `index`-th dict added. */
  lemma ExplicitItem(queue: seq<ParamDict>, index: int)
    ensures ItemAt(Enumerate(queue), index) == if 0 <= index < |queue| then Ok(queue[index]) else Err(KeyError)
  {
    ItemAtNumbered(Enumerate(queue), index);
  }

  /** `CartesianParameterSet`: `ps[index]` binds the sorted names to the `index`-th tuple
      `_iter` yields. */
  lemma CartesianItem(b: Builder, index: int)
    requires |b.stages| >= 1
    ensures var ts := IterTuples(b);
      ItemAt(IterOf(b), index) ==
        if 0 <= index < |ts| then Ok(Bind(SortedText(b.names), ts[index])) else Err(KeyError)
  {
    ItemAtNumbered(IterOf(b), index);
  }

  /** Every dict iteration yields binds each sorted name, in order, to the value the tuple
      holds at its position. */
  lemma IterBindings(b: Builder)
    requires WellFormed(b)
    ensures var sn := SortedText(b.names);
      forall k :: 0 <= k < |IterOf(b)| ==>
        Keys(IterOf(b)[k].1) == sn &&
        forall i :: 0 <= i < |sn| ==> IterOf(b)[k].1[i].1 == IterTuples(b)[k][i]
  {
    var sn := SortedText(b.names);
    var w := WalkTo(b.stages, sn, |b.stages|);
    WalkCovers(b.stages, sn, |b.stages|);
    forall k | 0 <= k < |w.tuples| ensures |w.tuples[k]| == |sn| {
      assert InProduct(w.tuples[k], w.domains);
    }
  }

  // ---------------------------------------------------------------- one stage

  /** `param_map[name].add(w)` adds `w` to the set of `name` and touches no other set. */
  lemma AddValueMember(m: Stage, name: string, w: Value, x: string, v: Value)
    ensures v in Members(AddValue(m, name, w), x) <==> v in Members(m, x) || (x == name && v == w)
  {
    PutFacts(m, name, AddTo(Members(m, name), w));
  }

  /** `param_map[name].add(w)` keeps a dict of sets, with `name` now among its keys. */
  lemma AddValueOk(m: Stage, name: string, w: Value)
    requires StageOk(m)
    ensures StageOk(AddValue(m, name, w))
    ensures forall x :: HasKey(AddValue(m, name, w), x) <==> HasKey(m, x) || x == name
  {
    var u := AddTo(Members(m, name), w);
    var r := AddValue(m, name, w);
    MembersNoDup(m, name);
    PutFacts(m, name, u);
    forall i | 0 <= i < |r| ensures NoDup(r[i].1) {
      GetAt(r, i);
      if r[i].0 != name {
        MembersNoDup(m, r[i].0);
      }
    }
  }

  /** The defaults of `add_separator` join the sets binding by binding. */
  lemma {:induction false} AddDefaultsMember(m: Stage, kwargs: ParamDict, x: string, v: Value)
    ensures v in Members(AddDefaults(m, kwargs), x) <==> v in Members(m, x) || (x, v) in kwargs
  {
    if kwargs != [] {
      var n := |kwargs| - 1;
      AddDefaultsMember(m, kwargs[..n], x, v);
      AddValueMember(AddDefaults(m, kwargs[..n]), kwargs[n].0, kwargs[n].1, x, v);
      assert kwargs == kwargs[..n] + [kwargs[n]];
      assert (x, v) in kwargs <==> (x, v) in kwargs[..n] || (x, v) == kwargs[n];
    }
  }

  /** The defaults keep a dict of sets and add their names to its keys. */
  lemma {:induction false} AddDefaultsOk(m: Stage, kwargs: ParamDict)
    requires StageOk(m)
    ensures StageOk(AddDefaults(m, kwargs))
    ensures forall x :: HasKey(AddDefaults(m, kwargs), x) <==> HasKey(m, x) || x in Keys(kwargs)
  {
    if kwargs != [] {
      var n := |kwargs| - 1;
      AddDefaultsOk(m, kwargs[..n]);
      AddValueOk(AddDefaults(m, kwargs[..n]), kwargs[n].0, kwargs[n].1);
      assert Keys(kwargs) == Keys(kwargs[..n]) + [kwargs[n].0];
    }
  }

  // ---------------------------------------------------------------- add_single_values

  /** One binding keeps the builder well formed and its names those of the stages. */
  lemma AddSingleKeeps(b: Builder, name: string, v: Value)
    requires WellFormed(b) && Synced(b)
    ensures WellFormed(AddSingle(b, name, v).0) && Synced(AddSingle(b, name, v).0)
  {
    var n := |b.stages| - 1;
    if !(name !in b.names && n != 0) {
      var c := AddSingle(b, name, v).0;
      AddValueOk(b.stages[n], name, v);
      assert c.stages == b.stages[n := AddValue(b.stages[n], name, v)];
      forall x ensures x in c.names <==> exists s :: 0 <= s < |c.stages| && HasKey(c.stages[s], x) {
        if x in c.names {
          if x == name {
            assert HasKey(c.stages[n], x);
          } else {
            var s :| 0 <= s < |b.stages| && HasKey(b.stages[s], x);
            assert HasKey(c.stages[s], x);
          }
        } else {
          forall s | 0 <= s < |c.stages| ensures !HasKey(c.stages[s], x) {
            if s != n {
              assert c.stages[s] == b.stages[s];
            }
          }
        }
      }
    }
  }

  /** `add_single_values` keeps the builder well formed and its names those of the
      stages, whether or not it raises. */
  lemma {:induction false} AddSinglesKeeps(b: Builder, kwargs: ParamDict)
    requires WellFormed(b) && Synced(b)
    ensures WellFormed(AddSingles(b, kwargs).0) && Synced(AddSingles(b, kwargs).0)
  {
    if kwargs != [] {
      var n := |kwargs| - 1;
      AddSinglesKeeps(b, kwargs[..n]);
      var (c, r) := AddSingles(b, kwargs[..n]);
      if r.Ok? {
        AddSingleKeeps(c, kwargs[n].0, kwargs[n].1);
      }
    }
  }

  /** `add_single_values` raises `ValueError` exactly when a separator exists and some
      binding names a new parameter; after a separator it never changes the names. */
  lemma {:induction false} AddSinglesErr(b: Builder, kwargs: ParamDict)
    requires |b.stages| >= 1
    ensures var (c, r) := AddSingles(b, kwargs);
      |c.stages| == |b.stages| &&
      (r.Err? <==> |b.stages| != 1 && exists i :: 0 <= i < |kwargs| && kwargs[i].0 !in b.names) &&
      (r.Err? ==> r.error == ValueError) &&
      (|b.stages| != 1 ==> c.names == b.names)
  {
    if kwargs != [] {
      var n := |kwargs| - 1;
      AddSinglesErr(b, kwargs[..n]);
      var (c, r) := AddSingles(b, kwargs[..n]);
      if r.Err? {
        var i :| 0 <= i < n && kwargs[..n][i].0 !in b.names;
        assert kwargs[i] == kwargs[..n][i];
      } else if |b.stages| != 1 && kwargs[n].0 in b.names {
        forall i | 0 <= i < |kwargs| ensures kwargs[i].0 in b.names {
          if i < n {
            assert kwargs[i] == kwargs[..n][i];
          }
        }
      }
    }
  }

  /** When `add_single_values` does not raise, the last stage gets every binding's value
      and the names grow by the bound names. */
  lemma {:induction false} AddSinglesOk(b: Builder, kwargs: ParamDict)
    requires |b.stages| >= 1
    ensures var (c, r) := AddSingles(b, kwargs);
      var last := |b.stages| - 1;
      r.Ok? ==>
        c.stages == b.stages[last := AddDefaults(b.stages[last], kwargs)] &&
        forall x :: x in c.names <==> x in b.names || x in Keys(kwargs)
  {
    if kwargs != [] {
      var n := |kwargs| - 1;
      var last := |b.stages| - 1;
      AddSinglesOk(b, kwargs[..n]);
      AddSinglesErr(b, kwargs[..n]);
      var (c, r) := AddSingles(b, kwargs[..n]);
      assert Keys(kwargs) == Keys(kwargs[..n]) + [kwargs[n].0];
      if r.Ok? && AddSingle(c, kwargs[n].0, kwargs[n].1).1.Ok? {
        assert c.stages[last := AddValue(c.stages[last], kwargs[n].0, kwargs[n].1)]
          == b.stages[last := AddDefaults(b.stages[last], kwargs)];
      }
    }
  }

  /** When `add_single_values` does not raise, each set of the last stage gains exactly
      the values bound to its name. */
  lemma AddSinglesMember(b: Builder, kwargs: ParamDict, x: string, v: Value)
    requires |b.stages| >= 1
    ensures var (c, r) := AddSingles(b, kwargs);
      var last := |b.stages| - 1;
      |c.stages| == |b.stages| &&
      (r.Ok? ==> (v in Members(c.stages[last], x) <==> v in Members(b.stages[last], x) || (x, v) in kwargs))
  {
    AddSinglesErr(b, kwargs);
    AddSinglesOk(b, kwargs);
    AddDefaultsMember(b.stages[|b.stages| - 1], kwargs, x, v);
  }

  // ---------------------------------------------------------------- add_parameters

  /** `{name: val}` for each value in turn. */
  function Pairs(name: string, vals: seq<Value>): (r: ParamDict)
    ensures |r| == |vals| && forall i :: 0 <= i < |vals| ==> r[i] == (name, vals[i])
  {
    seq(|vals|, i requires 0 <= i < |vals| => (name, vals[i]))
  }

  /** The single bindings `add_parameters` hands on, argument by argument. */
  function Flat(kwargs: ParamDict): ParamDict {
    if kwargs == [] then []
    else
      var n := |kwargs| - 1;
      Flat(kwargs[..n]) + Pairs(kwargs[n].0, ValuesOf(kwargs[n].1))
  }

  /** A binding is handed on exactly when its value is one of an argument's values. */
  lemma {:induction false} FlatMember(kwargs: ParamDict, x: string, v: Value)
    ensures (x, v) in Flat(kwargs) <==> exists i :: 0 <= i < |kwargs| && kwargs[i].0 == x && v in ValuesOf(kwargs[i].1)
  {
    if kwargs != [] {
      var n := |kwargs| - 1;
      FlatMember(kwargs[..n], x, v);
      var p := Pairs(kwargs[n].0, ValuesOf(kwargs[n].1));
      assert (x, v) in p <==> kwargs[n].0 == x && v in ValuesOf(kwargs[n].1);
      if (x, v) in Flat(kwargs[..n]) {
        var i :| 0 <= i < n && kwargs[..n][i].0 == x && v in ValuesOf(kwargs[..n][i].1);
        assert kwargs[i] == kwargs[..n][i];
      } else if (x, v) !in p {
        forall i | 0 <= i < |kwargs| && kwargs[i].0 == x ensures v !in ValuesOf(kwargs[i].1) {
          if i < n {
            assert kwargs[i] == kwargs[..n][i];
          }
        }
      }
    }
  }

  /** A name is handed on exactly when its argument has at least one value. */
  lemma {:induction false} FlatNames(kwargs: ParamDict)
    ensures forall x :: x in Keys(Flat(kwargs)) <==> exists i :: 0 <= i < |kwargs| && kwargs[i].0 == x && ValuesOf(kwargs[i].1) != []
  {
    var f := Flat(kwargs);
    forall i | 0 <= i < |kwargs| && ValuesOf(kwargs[i].1) != [] ensures kwargs[i].0 in Keys(f) {
      var v := ValuesOf(kwargs[i].1)[0];
      FlatMember(kwargs, kwargs[i].0, v);
      var j :| 0 <= j < |f| && f[j] == (kwargs[i].0, v);
      assert Keys(f)[j] == kwargs[i].0;
    }
    forall x | x in Keys(f) ensures exists i :: 0 <= i < |kwargs| && kwargs[i].0 == x && ValuesOf(kwargs[i].1) != [] {
      var j :| 0 <= j < |f| && f[j].0 == x;
      FlatMember(kwargs, x, f[j].1);
      assert f[j] in f;
    }
  }

  /** Running `add_single_values` on two lists of bindings is running it on the first and,
      unless that raises, on the second. */
  lemma {:induction false} AddSinglesConcat(b: Builder, a: ParamDict, c: ParamDict)
    requires |b.stages| >= 1
    ensures |AddSingles(b, a).0.stages| == |b.stages|
    ensures AddSingles(b, a + c) ==
      if AddSingles(b, a).1.Err? then AddSingles(b, a) else AddSingles(AddSingles(b, a).0, c)
  {
    AddSinglesErr(b, a);
    if c == [] {
      assert a + c == a;
    } else {
      var n := |c| - 1;
      assert (a + c)[..|a + c| - 1] == a + c[..n];
      assert (a + c)[|a + c| - 1] == c[n];
      AddSinglesConcat(b, a, c[..n]);
    }
  }

  /** The loop over one argument's values is `add_single_values` over its pairs. */
  lemma {:induction false} AddEachSingles(b: Builder, name: string, vals: seq<Value>)
    requires |b.stages| >= 1
    ensures AddEach(b, name, vals) == AddSingles(b, Pairs(name, vals))
  {
    if vals != [] {
      var n := |vals| - 1;
      AddEachSingles(b, name, vals[..n]);
      assert Pairs(name, vals)[..n] == Pairs(name, vals[..n]);
    }
  }

  /** `add_parameters` is `add_single_values` over every value of every argument, in order. */
  lemma {:induction false} AddParamsFlat(b: Builder, kwargs: ParamDict)
    requires |b.stages| >= 1
    ensures AddParams(b, kwargs) == AddSingles(b, Flat(kwargs))
  {
    if kwargs != [] {
      var n := |kwargs| - 1;
      AddParamsFlat(b, kwargs[..n]);
      var (c, r) := AddSingles(b, Flat(kwargs[..n]));
      AddSinglesConcat(b, Flat(kwargs[..n]), Pairs(kwargs[n].0, ValuesOf(kwargs[n].1)));
      if r.Ok? {
        AddEachSingles(c, kwargs[n].0, ValuesOf(kwargs[n].1));
      }
    }
  }

  /** `add_parameters` raises `ValueError` exactly when a separator exists and an argument
      with at least one value names a new parameter. */
  lemma AddParamsErr(b: Builder, kwargs: ParamDict)
    requires |b.stages| >= 1
    ensures var (c, r) := AddParams(b, kwargs);
      |c.stages| == |b.stages| &&
      (r.Err? <==>
        (|b.stages| != 1 && exists i :: 0 <= i < |kwargs| && kwargs[i].0 !in b.names && ValuesOf(kwargs[i].1) != [])) &&
      (r.Err? ==> r.error == ValueError)
  {
    AddParamsFlat(b, kwargs);
    AddSinglesErr(b, Flat(kwargs));
    FlatNew(kwargs, b.names);
  }

  /** Some handed-on binding names a parameter outside `names` exactly when an argument with
      at least one value does. */
  lemma FlatNew(kwargs: ParamDict, names: seq<string>)
    ensures (exists j :: 0 <= j < |Flat(kwargs)| && Flat(kwargs)[j].0 !in names) <==>
      (exists i :: 0 <= i < |kwargs| && kwargs[i].0 !in names && ValuesOf(kwargs[i].1) != [])
  {
    FlatNames(kwargs);
    var f := Flat(kwargs);
    if j :| 0 <= j < |f| && f[j].0 !in names {
      assert Keys(f)[j] == f[j].0;
      assert f[j].0 in Keys(f);
      var i :| 0 <= i < |kwargs| && kwargs[i].0 == f[j].0 && ValuesOf(kwargs[i].1) != [];
      assert 0 <= i < |kwargs| && kwargs[i].0 !in names && ValuesOf(kwargs[i].1) != [];
    }
    if i :| 0 <= i < |kwargs| && kwargs[i].0 !in names && ValuesOf(kwargs[i].1) != [] {
      assert kwargs[i].0 in Keys(f);
      var j :| 0 <= j < |f| && Keys(f)[j] == kwargs[i].0;
      assert f[j].0 == Keys(f)[j];
      assert 0 <= j < |Flat(kwargs)| && Flat(kwargs)[j].0 !in names;
    }
  }

  /** When `add_parameters` does not raise, each set of the last stage gains exactly the
      values given for its name. */
  lemma AddParamsMember(b: Builder, kwargs: ParamDict, x: string, v: Value)
    requires |b.stages| >= 1
    ensures var (c, r) := AddParams(b, kwargs);
      var last := |b.stages| - 1;
      |c.stages| == |b.stages| &&
      (r.Ok? ==> (v in Members(c.stages[last], x) <==>
        (v in Members(b.stages[last], x) || exists i :: 0 <= i < |kwargs| && kwargs[i].0 == x && v in ValuesOf(kwargs[i].1))))
  {
    AddParamsFlat(b, kwargs);
    AddSinglesMember(b, Flat(kwargs), x, v);
    FlatMember(kwargs, x, v);
  }

  // ---------------------------------------------------------------- add_separator

  /** Registering distinct names raises `ValueError` exactly when one of them is known;
      otherwise they all join the names, in order. */
  lemma {:induction false} RegisterFacts(names: seq<string>, keys: seq<string>)
    requires NoDup(keys)
    ensures var (ns, r) := Register(names, keys);
      (r.Err? <==> exists i :: 0 <= i < |keys| && keys[i] in names) &&
      (r.Err? ==> r.error == ValueError) &&
      (r.Ok? ==> ns == names + keys)
  {
    if keys != [] {
      var n := |keys| - 1;
      assert NoDup(keys[..n]) by {
        forall i, j | 0 <= i < j < n ensures keys[..n][i] != keys[..n][j] {
          assert keys[..n][i] == keys[i] && keys[..n][j] == keys[j];
        }
      }
      RegisterFacts(names, keys[..n]);
      var (ns, r) := Register(names, keys[..n]);
      if r.Err? {
        var i :| 0 <= i < n && keys[..n][i] in names;
        assert keys[i] in names;
      } else {
        assert keys[n] !in keys[..n] by {
          forall i | 0 <= i < n ensures keys[..n][i] != keys[n] {
            assert keys[..n][i] == keys[i];
          }
        }
        assert keys[n] in ns <==> keys[n] in names;
        if keys[n] !in names {
          forall i | 0 <= i < |keys| ensures keys[i] !in names {
            if i < n {
              assert keys[i] == keys[..n][i];
            }
          }
          assert keys == keys[..n] + [keys[n]];
        }
      }
    }
  }

  /** `add_separator` raises `ValueError` exactly when it names a known parameter, and then
      leaves the stages as they were. */
  lemma SeparatorErr(b: Builder, kwargs: ParamDict)
    requires |b.stages| >= 1 && DistinctKeys(kwargs)
    ensures var (c, r) := WithSeparator(b, kwargs);
      (r.Err? <==> exists i :: 0 <= i < |kwargs| && kwargs[i].0 in b.names) &&
      (r.Err? ==> r.error == ValueError && c.stages == b.stages)
  {
    RegisterFacts(b.names, Keys(kwargs));
    var ks := Keys(kwargs);
    if exists i :: 0 <= i < |ks| && ks[i] in b.names {
      var i :| 0 <= i < |ks| && ks[i] in b.names;
      assert 0 <= i < |kwargs| && kwargs[i].0 in b.names;
    }
    if exists i :: 0 <= i < |kwargs| && kwargs[i].0 in b.names {
      var i :| 0 <= i < |kwargs| && kwargs[i].0 in b.names;
      assert 0 <= i < |ks| && ks[i] in b.names;
    }
  }

  /** A separator that does not raise keeps the builder well formed and its names those of
      the stages: the defaults join stage 0 and a new empty stage is open. */
  lemma SeparatorOk(b: Builder, kwargs: ParamDict)
    requires WellFormed(b) && Synced(b) && DistinctKeys(kwargs)
    ensures var (c, r) := WithSeparator(b, kwargs);
      r.Ok? ==>
        |c.stages| == |b.stages| + 1 && c.stages[|b.stages|] == [] &&
        (forall s :: 0 < s < |b.stages| ==> c.stages[s] == b.stages[s]) &&
        c.names == b.names + Keys(kwargs) &&
        WellFormed(c) && Synced(c)
  {
    RegisterFacts(b.names, Keys(kwargs));
    var (c, r) := WithSeparator(b, kwargs);
    if r.Ok? {
      var m := AddDefaults(b.stages[0], kwargs);
      AddDefaultsOk(b.stages[0], kwargs);
      assert c.stages == b.stages[0 := m] + [[]];
      assert c.names == b.names + Keys(kwargs);
      assert NoDup(c.names) by {
        forall i, j | 0 <= i < j < |c.names| ensures c.names[i] != c.names[j] {
          if j >= |b.names| && i < |b.names| {
            assert c.names[j] == Keys(kwargs)[j - |b.names|];
          }
        }
      }
      forall s | 0 <= s < |c.stages| ensures StageOk(c.stages[s]) {
        if 0 < s < |b.stages| {
          assert c.stages[s] == b.stages[s];
        }
      }
      forall x | x in c.names ensures exists s :: 0 <= s < |c.stages| && HasKey(c.stages[s], x) {
        if x in b.names {
          var s :| 0 <= s < |b.stages| && HasKey(b.stages[s], x);
          if s != 0 {
            assert c.stages[s] == b.stages[s];
          }
          assert HasKey(c.stages[s], x);
        } else {
          assert HasKey(c.stages[0], x);
        }
      }
      forall x, s | 0 <= s < |c.stages| && HasKey(c.stages[s], x) ensures x in c.names {
        if s == 0 {
          assert HasKey(b.stages[0], x) || x in Keys(kwargs);
        } else if s < |b.stages| {
          assert c.stages[s] == b.stages[s];
          assert HasKey(b.stages[s], x);
        }
      }
    }
  }

  /** A separator that does not raise gives each set of stage 0 exactly its default. */
  lemma SeparatorMember(b: Builder, kwargs: ParamDict, x: string, v: Value)
    requires |b.stages| >= 1
    ensures var (c, r) := WithSeparator(b, kwargs);
      r.Ok? ==> (v in Members(c.stages[0], x) <==> v in Members(b.stages[0], x) || (x, v) in kwargs)
  {
    AddDefaultsMember(b.stages[0], kwargs, x, v);
  }

  /** The constructor: an empty sequence of dicts gives one empty stage, and the names are
      those of the stages. */
  lemma InitOk(paramMapSeq: seq<Stage>)
    requires forall s :: 0 <= s < |paramMapSeq| ==> StageOk(paramMapSeq[s])
    ensures WellFormed(Init(paramMapSeq)) && Synced(Init(paramMapSeq))
    ensures paramMapSeq == [] ==> Init(paramMapSeq).stages == [[]]
  {
    var b := Init(paramMapSeq);
    if paramMapSeq == [] {
      assert b.stages == [[]];
      assert StageOk(b.stages[0]);
    }
  }

  // ---------------------------------------------------------------- ConstrainedParameterSet

  /** The indices of an enumeration increase along it. */
  predicate Increasing(ys: Enumeration) {
    forall i, j :: 0 <= i < j < |ys| ==> ys[i].0 < ys[j].0
  }

  /** An item whose index exceeds every index of an increasing enumeration extends it. */
  lemma IncreasingAppend(front: Enumeration, y: (int, ParamDict))
    requires Increasing(front) && forall k :: 0 <= k < |front| ==> front[k].0 < y.0
    ensures Increasing(front + [y])
  {
    var r := front + [y];
    forall i, j | 0 <= i < j < |r| ensures r[i].0 < r[j].0 {
      assert r[i] == front[i];
    }
  }

  /** The prefix of an increasing enumeration is increasing, and its indices are all below
      the last one. */
  lemma IncreasingPrefix(ys: Enumeration)
    requires |ys| > 0 && Increasing(ys)
    ensures var n := |ys| - 1; Increasing(ys[..n]) && forall y :: y in ys[..n] ==> y.0 < ys[n].0
  {
    var n := |ys| - 1;
    forall i, j | 0 <= i < j < n ensures ys[..n][i].0 < ys[..n][j].0 {
      assert ys[..n][i] == ys[i] && ys[..n][j] == ys[j];
    }
  }

  /** Filtering keeps the order of what it keeps. */
  lemma {:induction false} KeepIfIncreasing(ys: Enumeration, keep: ParamDict -> bool)
    requires Increasing(ys)
    ensures Increasing(KeepIf(ys, keep))
  {
    if ys != [] {
      var n := |ys| - 1;
      IncreasingPrefix(ys);
      KeepIfIncreasing(ys[..n], keep);
      var front := KeepIf(ys[..n], keep);
      if keep(ys[n].1) {
        forall k | 0 <= k < |front| ensures front[k].0 < ys[n].0 {
          assert front[k] in front;
        }
        IncreasingAppend(front, ys[n]);
      } else {
        assert front + [] == front;
      }
    }
  }

  /** Filtering with a test every item passes keeps everything. */
  lemma {:induction false} KeepIfAll(ys: Enumeration, keep: ParamDict -> bool)
    requires forall k :: 0 <= k < |ys| ==> keep(ys[k].1)
    ensures KeepIf(ys, keep) == ys
  {
    if ys != [] {
      var n := |ys| - 1;
      assert forall k :: 0 <= k < n ==> ys[..n][k] == ys[k];
      KeepIfAll(ys[..n], keep);
      KeepIfLast(ys, keep);
      assert ys[..n] + [ys[n]] == ys;
    }
  }

  /** Filtering one more item. */
  lemma KeepIfLast(ys: Enumeration, keep: ParamDict -> bool)
    requires ys != []
    ensures var n := |ys| - 1;
      KeepIf(ys, keep) == KeepIf(ys[..n], keep) + if keep(ys[n].1) then [ys[n]] else []
  {
  }

  /** `self.filters[k].append(c)` adds `c` to the constraints and removes none. */
  lemma AdmitsAppend(f: Dict<string, seq<Constraint>>, k: string, c: Constraint, d: ParamDict)
    ensures var g := Put(f, k, (if HasKey(f, k) then Get(f, k) else []) + [c]);
      Admits(g, d) <==> Admits(f, d) && c(d)
  {
    if HasKey(f, k) {
      var p := Common.Slot(f, k);
      assert Put(f, k, Get(f, k) + [c]) == f[p := (k, f[p].1 + [c])];
      AdmitsAppendAt(f, p, k, c, d);
    } else {
      assert [] + [c] == [c];
      AdmitsAppendNew(f, k, c, d);
    }
  }

  /** Appending `c` to the constraints in slot `p`. */
  lemma AdmitsAppendAt(f: Dict<string, seq<Constraint>>, p: nat, k: string, c: Constraint, d: ParamDict)
    requires p < |f|
    ensures Admits(f[p := (k, f[p].1 + [c])], d) <==> Admits(f, d) && c(d)
  {
    var g := f[p := (k, f[p].1 + [c])];
    assert g[p].1[|f[p].1|] == c;
    if Admits(f, d) && c(d) {
      forall i, j | 0 <= i < |g| && 0 <= j < |g[i].1| ensures g[i].1[j](d) {
        if i == p && j < |f[p].1| {
          assert g[i].1[j] == f[p].1[j];
        }
      }
    }
    if Admits(g, d) {
      forall i, j | 0 <= i < |f| && 0 <= j < |f[i].1| ensures f[i].1[j](d) {
        if i == p {
          assert g[i].1[j] == f[p].1[j];
        } else {
          assert g[i] == f[i];
        }
      }
    }
  }

  /** A new key with the single constraint `c`. */
  lemma AdmitsAppendNew(f: Dict<string, seq<Constraint>>, k: string, c: Constraint, d: ParamDict)
    ensures Admits(f + [(k, [c])], d) <==> Admits(f, d) && c(d)
  {
    var g := f + [(k, [c])];
    assert g[|f|].1[0] == c;
    if Admits(g, d) {
      forall i, j | 0 <= i < |f| && 0 <= j < |f[i].1| ensures f[i].1[j](d) {
        assert g[i] == f[i];
      }
    }
  }

  /** After `add_constraints` a dict is yielded exactly when it passed before and passes
      every new constraint. */
  lemma {:induction false} AddConstraintsAdmits(f: Dict<string, seq<Constraint>>, kwargs: Dict<string, Constraint>, d: ParamDict)
    ensures Admits(AddConstraintsTo(f, kwargs), d) <==>
      (Admits(f, d) && forall i :: 0 <= i < |kwargs| ==> kwargs[i].1(d))
  {
    if kwargs != [] {
      var n := |kwargs| - 1;
      AddConstraintsAdmits(f, kwargs[..n], d);
      var g := AddConstraintsTo(f, kwargs[..n]);
      AdmitsAppend(g, kwargs[n].0, kwargs[n].1, d);
      if forall i :: 0 <= i < n ==> kwargs[..n][i].1(d) {
        forall i | 0 <= i < n ensures kwargs[i].1(d) {
          assert kwargs[i] == kwargs[..n][i];
        }
      } else {
        var i :| 0 <= i < n && !kwargs[..n][i].1(d);
        assert !kwargs[i].1(d);
      }
    }
  }

  /** Without filters the decorator yields what it wraps, unchanged. */
  lemma NoFiltersKeepAll(inner: Enumeration)
    ensures KeepIf(inner, d => Admits([], d)) == inner
  {
    KeepIfAll(inner, d => Admits([], d));
  }

  // ---------------------------------------------------------------- delegation of both decorators

  /** One dict whose parameter `a` is 1, looked up by `a = 1`: the wrapped set finds index 0,
      each decorator as written gives `None`. */
  lemma DecoratorsDropIndices()
    ensures var inner: Enumeration := [(0, [("a", Num(1))])];
      var kw := [("a", [Num(1)])];
      DecoratorIndicesAsWritten(inner, kw) == None &&
      DecoratorIndices(inner, kw) == Some(Ok([0])) &&
      IndicesWith(inner, kw) == Ok([0])
  {
    var inner: Enumeration := [(0, [("a", Num(1))])];
    var kw := [("a", [Num(1)])];
    var d := inner[0].1;
    assert Keys(d)[0] == "a";
    assert HasKey(d, "a") && Get(d, "a") == Num(1);
    assert kw[1..] == [];
    assert Matches(inner[0].1, kw) == Ok(true);
    assert inner[..0] == [];
    assert IndicesWith(inner[..0], kw) == Ok([]);
    assert IndicesWith(inner, kw) == Ok([] + [0]);
    assert [] + [0] == [0];
    assert DecoratorIndices(inner, kw) == Some(IndicesWith(inner, kw));
  }

  /** For every wrapped set and every query, each decorator as written gives `None` where the
      wrapped set has an answer, a list of indices or an error. */
  lemma DecoratorsDropIndicesAlways(inner: Enumeration, kw: Dict<string, seq<Value>>)
    ensures DecoratorIndicesAsWritten(inner, kw) == None
    ensures DecoratorIndices(inner, kw) == Some(IndicesWith(inner, kw))
  {
  }
}
