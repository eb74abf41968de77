/** What `CartesianParameterSet._iter` yields: distinct tuples that together form the
    cartesian product of the final domains, as many as `__len__` says, the tuples of stage
    0's domains first. */
module ParamWalkFacts {
  import opened Common
  import opened Sorting
  import opened Values
  import opened Cartesian
  import opened ParamSets

  /** The tuples yielded so far are distinct and are exactly the product of the domains. */
  ghost predicate Covers(ts: seq<seq<Value>>, ds: seq<seq<Value>>) {
    NoDup(ts) && forall t :: t in ts <==> InProduct(t, ds)
  }

  ghost predicate DomainsOk(ds: seq<seq<Value>>) {
    forall i :: 0 <= i < |ds| ==> NoDup(ds[i])
  }

  /** The product of duplicate-free domains lists each of its tuples once. */
  lemma CartCovers(ds: seq<seq<Value>>)
    requires DomainsOk(ds)
    ensures Covers(Cart(ds), ds)
  {
    CartNoDup(ds);
    forall t ensures t in Cart(ds) <==> InProduct(t, ds) {
      CartMember(t, ds);
    }
  }

  /** Narrowing domain `i` to values it lacks yields exactly the tuples the grown domain adds. */
  lemma StepCovers(ts: seq<seq<Value>>, ds: seq<seq<Value>>, i: nat, nv: seq<Value>)
    requires Covers(ts, ds) && DomainsOk(ds) && i < |ds|
    requires NoDup(nv) && forall x :: x in nv ==> x !in ds[i]
    ensures Covers(ts + Cart(ds[i := nv]), ds[i := ds[i] + nv])
    ensures DomainsOk(ds[i := ds[i] + nv])
  {
    var narrow := ds[i := nv];
    var grown := ds[i := ds[i] + nv];
    NoDupConcat(ds[i], nv);
    CartCovers(narrow);
    var c := Cart(narrow);
    forall t | t in ts ensures t !in c {
      assert InProduct(t, ds) && t[i] in ds[i];
    }
    NoDupConcat(ts, c);
    forall t | t in ts + c ensures InProduct(t, grown) {
      if t in ts {
        assert InProduct(t, ds);
      } else {
        assert InProduct(t, narrow);
      }
    }
    forall t | InProduct(t, grown) ensures t in ts + c {
      if t[i] in ds[i] {
        assert InProduct(t, ds);
      } else {
        assert InProduct(t, narrow);
      }
    }
  }

  /** A stage's set of values for a name has no repeats. */
  lemma MembersNoDup(m: Stage, name: string)
    requires StageOk(m)
    ensures NoDup(Members(m, name))
  {
    if HasKey(m, name) {
      assert Members(m, name) == m[Common.Slot(m, name)].1;
    }
  }

  /** Sorting keeps the elements and the absence of repeats. */
  lemma SortedFacts(vs: seq<Value>)
    ensures forall x :: x in Sorted(vs) <==> x in vs
    ensures NoDup(vs) ==> NoDup(Sorted(vs))
  {
    forall x ensures x in Sorted(vs) <==> x in vs {
      assert x in Sorted(vs) <==> x in multiset(Sorted(vs));
    }
    if NoDup(vs) {
      PermutationNoDup(vs, Sorted(vs));
    }
  }

  /** `new_values` has no repeats and holds the stage's values the domain lacks. */
  lemma NewFacts(m: Stage, name: string, dom: seq<Value>)
    requires StageOk(m) && HasKey(m, name)
    ensures NoDup(NewValues(m, name, dom))
    ensures forall x :: x in NewValues(m, name, dom) <==> x in Members(m, name) && x !in dom
  {
    MembersNoDup(m, name);
    SortedFacts(Fresh(Get(m, name), dom));
  }

  /** One later stage keeps the domains duplicate-free. */
  lemma {:induction false} PassOk(ds: seq<seq<Value>>, m: Stage, sn: seq<string>, k: nat)
    requires |ds| == |sn| && k <= |sn| && DomainsOk(ds) && StageOk(m)
    ensures DomainsOk(StagePass(ds, m, sn, k).domains)
  {
    if k > 0 {
      PassOk(ds, m, sn, k - 1);
      var es := StagePass(ds, m, sn, k - 1).domains;
      var es' := StagePass(ds, m, sn, k).domains;
      if HasKey(m, sn[k - 1]) {
        var nv := NewValues(m, sn[k - 1], es[k - 1]);
        NewFacts(m, sn[k - 1], es[k - 1]);
        NoDupConcat(es[k - 1], nv);
        assert es' == es[k - 1 := es[k - 1] + nv];
        forall i | 0 <= i < |es'| ensures NoDup(es'[i]) {
          if i != k - 1 {
            assert es'[i] == es[i];
          }
        }
      } else {
        assert es' == es;
      }
    }
  }

  /** One later stage grows each domain it names by the new values, without repeats. */
  lemma {:induction false} PassDomains(ds: seq<seq<Value>>, m: Stage, sn: seq<string>, k: nat)
    requires |ds| == |sn| && k <= |sn| && DomainsOk(ds) && StageOk(m)
    ensures var p := StagePass(ds, m, sn, k);
      DomainsOk(p.domains) &&
      forall i, x :: 0 <= i < |sn| ==> (x in p.domains[i] <==> x in ds[i] || (i < k && x in Members(m, sn[i])))
  {
    if k > 0 {
      PassDomains(ds, m, sn, k - 1);
      var es := StagePass(ds, m, sn, k - 1).domains;
      var es' := StagePass(ds, m, sn, k).domains;
      if HasKey(m, sn[k - 1]) {
        var nv := NewValues(m, sn[k - 1], es[k - 1]);
        NewFacts(m, sn[k - 1], es[k - 1]);
        NoDupConcat(es[k - 1], nv);
        assert es' == es[k - 1 := es[k - 1] + nv];
        forall i, x | 0 <= i < |sn| ensures x in es'[i] <==> x in ds[i] || (i < k && x in Members(m, sn[i])) {
          if i == k - 1 {
            assert x in es'[i] <==> x in es[i] || x in nv;
          } else {
            assert es'[i] == es[i];
          }
        }
      } else {
        assert es' == es;
        forall i, x | 0 <= i < |sn| ensures x in es'[i] <==> x in ds[i] || (i < k && x in Members(m, sn[i])) {
          if i == k - 1 {
            assert Members(m, sn[i]) == [];
          }
        }
      }
    }
  }

  /** One name of a later stage, on plain lists: after tuples that complete the product of
      `es`, the product with domain `i` narrowed to values `es[i]` lacks completes the
      grown product. */
  lemma PassStep(ts: seq<seq<Value>>, qs: seq<seq<Value>>, es: seq<seq<Value>>, i: nat, nv: seq<Value>)
    requires i < |es| && DomainsOk(es) && Covers(ts + qs, es)
    requires NoDup(nv) && forall x :: x in nv ==> x !in es[i]
    ensures Covers(ts + (qs + Cart(es[i := nv])), es[i := es[i] + nv])
  {
    var c := Cart(es[i := nv]);
    StepCovers(ts + qs, es, i, nv);
    assert ts + qs + c == ts + (qs + c);
  }

  /** Each domain of `ds` is inside the same domain of `es`. */
  ghost predicate Within(ds: seq<seq<Value>>, es: seq<seq<Value>>) {
    |ds| == |es| && forall k, x :: 0 <= k < |ds| && x in ds[k] ==> x in es[k]
  }

  /** No tuple of the product with domain `i` narrowed to values `es[i]` lacks lies in the
      product of domains within `es`. */
  lemma NarrowAvoids(ds: seq<seq<Value>>, es: seq<seq<Value>>, i: nat, nv: seq<Value>)
    requires Within(ds, es) && i < |es| && forall x :: x in nv ==> x !in es[i]
    ensures forall t :: t in Cart(es[i := nv]) ==> !InProduct(t, ds)
  {
    forall t | t in Cart(es[i := nv]) ensures !InProduct(t, ds) {
      CartMember(t, es[i := nv]);
      assert t[i] in nv;
    }
  }

  /** One later stage: the tuples it adds complete the product of the grown domains. */
  lemma {:induction false} PassTuples(ts: seq<seq<Value>>, ds: seq<seq<Value>>, m: Stage, sn: seq<string>, k: nat)
    requires |ds| == |sn| && k <= |sn| && DomainsOk(ds) && Covers(ts, ds) && StageOk(m)
    ensures Covers(ts + StagePass(ds, m, sn, k).tuples, StagePass(ds, m, sn, k).domains)
  {
    if k > 0 {
      PassTuples(ts, ds, m, sn, k - 1);
      var q := StagePass(ds, m, sn, k - 1);
      if HasKey(m, sn[k - 1]) {
        PassOk(ds, m, sn, k - 1);
        var es := q.domains;
        var nv := NewValues(m, sn[k - 1], es[k - 1]);
        NewFacts(m, sn[k - 1], es[k - 1]);
        PassStep(ts, q.tuples, es, k - 1, nv);
      }
    }
  }

  /** A later stage only grows the domains. */
  lemma {:induction false} PassGrows(ds: seq<seq<Value>>, m: Stage, sn: seq<string>, k: nat)
    requires |ds| == |sn| && k <= |sn|
    ensures Within(ds, StagePass(ds, m, sn, k).domains)
  {
    if k > 0 {
      PassGrows(ds, m, sn, k - 1);
      var es := StagePass(ds, m, sn, k - 1).domains;
      if HasKey(m, sn[k - 1]) {
        var nv := NewValues(m, sn[k - 1], es[k - 1]);
        var es' := es[k - 1 := es[k - 1] + nv];
        assert StagePass(ds, m, sn, k).domains == es';
        forall i, x | 0 <= i < |ds| && x in ds[i] ensures x in es'[i] {
          assert x in es[i];
        }
      }
    }
  }

  /** No tuple a later stage adds lies in the product of the domains before it. */
  lemma {:induction false} PassAvoids(ds: seq<seq<Value>>, m: Stage, sn: seq<string>, k: nat)
    requires |ds| == |sn| && k <= |sn| && StageOk(m)
    ensures forall t :: t in StagePass(ds, m, sn, k).tuples ==> !InProduct(t, ds)
  {
    if k > 0 {
      PassAvoids(ds, m, sn, k - 1);
      var q := StagePass(ds, m, sn, k - 1);
      if HasKey(m, sn[k - 1]) {
        PassGrows(ds, m, sn, k - 1);
        var es := q.domains;
        var nv := NewValues(m, sn[k - 1], es[k - 1]);
        NewFacts(m, sn[k - 1], es[k - 1]);
        NarrowAvoids(ds, es, k - 1, nv);
        var c := Cart(es[k - 1 := nv]);
        forall t | t in q.tuples + c ensures !InProduct(t, ds) {
          if t !in q.tuples {
            assert t in c;
          }
        }
      }
    }
  }

  /** The domains `_iter` starts from are duplicate-free and hold stage 0's values. */
  lemma FirstFacts(m: Stage, sn: seq<string>)
    requires StageOk(m)
    ensures var ds := FirstDomains(m, sn);
      DomainsOk(ds) && forall i, x :: 0 <= i < |sn| ==> (x in ds[i] <==> x in Members(m, sn[i]))
  {
    forall i | 0 <= i < |sn|
      ensures NoDup(FirstDomains(m, sn)[i])
      ensures forall x :: x in FirstDomains(m, sn)[i] <==> x in Members(m, sn[i])
    {
      MembersNoDup(m, sn[i]);
      SortedFacts(Members(m, sn[i]));
    }
  }

  /** `_iter` through `n` stages keeps duplicate-free domains holding every value the
      stages so far give. */
  lemma {:induction false} WalkDomains(stages: seq<Stage>, sn: seq<string>, n: nat)
    requires 1 <= n <= |stages| && forall s :: 0 <= s < |stages| ==> StageOk(stages[s])
    ensures var w := WalkTo(stages, sn, n);
      DomainsOk(w.domains) &&
      forall i, x :: 0 <= i < |sn| ==>
        (x in w.domains[i] <==> exists s :: 0 <= s < n && x in Members(stages[s], sn[i]))
  {
    if n == 1 {
      FirstFacts(stages[0], sn);
    } else {
      WalkDomains(stages, sn, n - 1);
      var w := WalkTo(stages, sn, n - 1);
      PassDomains(w.domains, stages[n - 1], sn, |sn|);
    }
  }

  /** `_iter` through `n` stages yields distinct tuples forming the product of its domains. */
  lemma {:induction false} WalkCovers(stages: seq<Stage>, sn: seq<string>, n: nat)
    requires 1 <= n <= |stages| && forall s :: 0 <= s < |stages| ==> StageOk(stages[s])
    ensures Covers(WalkTo(stages, sn, n).tuples, WalkTo(stages, sn, n).domains)
  {
    if n == 1 {
      FirstFacts(stages[0], sn);
      CartCovers(FirstDomains(stages[0], sn));
    } else {
      WalkCovers(stages, sn, n - 1);
      WalkDomains(stages, sn, n - 1);
      var w := WalkTo(stages, sn, n - 1);
      PassTuples(w.tuples, w.domains, stages[n - 1], sn, |sn|);
    }
  }

  /** `_iter` through `n` stages only grows stage 0's domains. */
  lemma {:induction false} WalkGrows(stages: seq<Stage>, sn: seq<string>, n: nat)
    requires 1 <= n <= |stages|
    ensures Within(FirstDomains(stages[0], sn), WalkTo(stages, sn, n).domains)
  {
    if n > 1 {
      WalkGrows(stages, sn, n - 1);
      var w := WalkTo(stages, sn, n - 1);
      PassGrows(w.domains, stages[n - 1], sn, |sn|);
      var es := WalkTo(stages, sn, n).domains;
      assert es == StagePass(w.domains, stages[n - 1], sn, |sn|).domains;
      var ds0 := FirstDomains(stages[0], sn);
      forall i, x | 0 <= i < |ds0| && x in ds0[i] ensures x in es[i] {
        assert x in w.domains[i];
      }
    }
  }

  /** A tuple of a product lies in the product of larger domains. */
  lemma ProductGrows(t: seq<Value>, ds: seq<seq<Value>>, es: seq<seq<Value>>)
    requires Within(ds, es) && InProduct(t, ds)
    ensures InProduct(t, es)
  {
    forall k | 0 <= k < |es| ensures t[k] in es[k] {
      assert t[k] in ds[k];
    }
  }

  /** `_iter` through `n` stages yields stage 0's product first, and every later tuple
      lies outside it. */
  lemma {:induction false} WalkOrder(stages: seq<Stage>, sn: seq<string>, n: nat)
    requires 1 <= n <= |stages| && forall s :: 0 <= s < |stages| ==> StageOk(stages[s])
    ensures var ts := WalkTo(stages, sn, n).tuples;
      var ds0 := FirstDomains(stages[0], sn);
      |Cart(ds0)| <= |ts| && ts[..|Cart(ds0)|] == Cart(ds0) &&
      forall j :: |Cart(ds0)| <= j < |ts| ==> !InProduct(ts[j], ds0)
  {
    if n > 1 {
      var ds0 := FirstDomains(stages[0], sn);
      WalkOrder(stages, sn, n - 1);
      WalkGrows(stages, sn, n - 1);
      var w := WalkTo(stages, sn, n - 1);
      PassAvoids(w.domains, stages[n - 1], sn, |sn|);
      var ps := StagePass(w.domains, stages[n - 1], sn, |sn|).tuples;
      var all := w.tuples + ps;
      assert WalkTo(stages, sn, n).tuples == all;
      assert all[..|Cart(ds0)|] == w.tuples[..|Cart(ds0)|];
      forall j | |w.tuples| <= j < |all| ensures !InProduct(all[j], ds0) {
        assert all[j] in ps;
        if InProduct(all[j], ds0) {
          ProductGrows(all[j], ds0, w.domains);
        }
      }
    }
  }

  /** The value tuples `_iter` may yield: each value given to its name by some stage. */
  ghost predicate Reachable(b: Builder, t: seq<Value>) {
    var sn := SortedText(b.names);
    |t| == |sn| && forall i :: 0 <= i < |sn| ==> exists s :: 0 <= s < |b.stages| && t[i] in Members(b.stages[s], sn[i])
  }

  /** Iteration yields distinct tuples, and yields exactly the tuples of the cartesian product
      of the final domains (every stage's values of each name). */
  lemma IterProduct(b: Builder)
    requires WellFormed(b)
    ensures NoDup(IterTuples(b))
    ensures forall t :: t in IterTuples(b) <==> Reachable(b, t)
  {
    var sn := SortedText(b.names);
    WalkCovers(b.stages, sn, |b.stages|);
    WalkDomains(b.stages, sn, |b.stages|);
    var w := WalkTo(b.stages, sn, |b.stages|);
    forall t ensures InProduct(t, w.domains) <==> Reachable(b, t) {
      if InProduct(t, w.domains) {
        forall i | 0 <= i < |sn| ensures exists s :: 0 <= s < |b.stages| && t[i] in Members(b.stages[s], sn[i]) {
          assert t[i] in w.domains[i];
        }
      }
    }
  }

  /** Separator ordering: first the product of stage 0's domains, and after it only tuples
      that need a value some later stage added. */
  lemma IterSeparated(b: Builder)
    requires WellFormed(b)
    ensures var ts := IterTuples(b);
      var ds0 := FirstDomains(b.stages[0], SortedText(b.names));
      |Cart(ds0)| <= |ts| && ts[..|Cart(ds0)|] == Cart(ds0) &&
      forall j :: 0 <= j < |ts| && InProduct(ts[j], ds0) ==> j < |Cart(ds0)|
  {
    WalkOrder(b.stages, SortedText(b.names), |b.stages|);
  }

  /** The sizes of the sets `md` holds for `names`, in that order. */
  function SizesOf(md: Stage, names: seq<string>): seq<nat> {
    Map(names, (x: string) => |Members(md, x)|)
  }

  /** Merging one stage into the `domains` dict of `__len__` keeps it a dict of sets. */
  lemma {:induction false} MergeStageOk(d: Stage, m: Stage)
    requires StageOk(d) && StageOk(m)
    ensures StageOk(MergeStage(d, m))
  {
    if m != [] {
      var n := |m| - 1;
      DistinctKeysPrefix(m, n);
      MergeStageOk(d, m[..n]);
      var e := MergeStage(d, m[..n]);
      var key := m[n].0;
      MembersNoDup(e, key);
      var r := Put(e, key, Union(Members(e, key), m[n].1));
      PutFacts(e, key, Union(Members(e, key), m[n].1));
      forall i | 0 <= i < |r| ensures NoDup(r[i].1) {
        GetAt(r, i);
        if r[i].0 != key {
          MembersNoDup(e, r[i].0);
        }
      }
    }
  }

  /** Merging one stage adds its names to the keys. */
  lemma {:induction false} MergeStageKeys(d: Stage, m: Stage)
    ensures forall x :: HasKey(MergeStage(d, m), x) <==> HasKey(d, x) || HasKey(m, x)
  {
    if m != [] {
      var n := |m| - 1;
      MergeStageKeys(d, m[..n]);
      var e := MergeStage(d, m[..n]);
      PutFacts(e, m[n].0, Union(Members(e, m[n].0), m[n].1));
      assert Keys(m) == Keys(m[..n]) + [m[n].0];
    }
  }

  /** Merging one stage unions the sets name by name. */
  lemma {:induction false} MergeStageMember(d: Stage, m: Stage, x: string, v: Value)
    requires DistinctKeys(m)
    ensures v in Members(MergeStage(d, m), x) <==> v in Members(d, x) || v in Members(m, x)
  {
    if m != [] {
      var n := |m| - 1;
      DistinctKeysPrefix(m, n);
      MergeStageMember(d, m[..n], x, v);
      var e := MergeStage(d, m[..n]);
      var key := m[n].0;
      var u := Union(Members(e, key), m[n].1);
      PutFacts(e, key, u);
      assert MergeStage(d, m) == Put(e, key, u);
      assert Keys(m) == Keys(m[..n]) + [key];
      if x == key {
        GetAt(m, n);
        assert Members(m[..n], x) == [];
        assert Members(MergeStage(d, m), x) == u;
        assert Members(m, x) == m[n].1;
      } else {
        assert Members(MergeStage(d, m), x) == Members(e, x);
        if HasKey(m[..n], x) {
          GetPrefix(m, n, x);
        }
        assert Members(m, x) == Members(m[..n], x);
      }
    }
  }

  /** The `domains` dict of `__len__` is a dict of sets. */
  lemma {:induction false} MergedOk(stages: seq<Stage>)
    requires forall s :: 0 <= s < |stages| ==> StageOk(stages[s])
    ensures StageOk(Merged(stages))
  {
    if stages != [] {
      var n := |stages| - 1;
      MergedOk(stages[..n]);
      MergeStageOk(Merged(stages[..n]), stages[n]);
    }
  }

  /** The `domains` dict of `__len__` holds each name of any stage. */
  lemma {:induction false} MergedHas(stages: seq<Stage>)
    ensures forall x :: HasKey(Merged(stages), x) <==> exists s :: 0 <= s < |stages| && HasKey(stages[s], x)
  {
    if stages != [] {
      var n := |stages| - 1;
      var pre := stages[..n];
      MergedHas(pre);
      MergeStageKeys(Merged(pre), stages[n]);
      assert Merged(stages) == MergeStage(Merged(pre), stages[n]);
      forall x ensures HasKey(Merged(stages), x) <==> exists s :: 0 <= s < |stages| && HasKey(stages[s], x) {
        if HasKey(Merged(stages), x) {
          if HasKey(Merged(pre), x) {
            var s :| 0 <= s < n && HasKey(pre[s], x);
            assert stages[s] == pre[s];
          } else {
            assert HasKey(stages[n], x);
          }
        } else {
          forall s | 0 <= s < |stages| ensures !HasKey(stages[s], x) {
            if s < n {
              assert stages[s] == pre[s];
            }
          }
        }
      }
    }
  }

  /** The `domains` dict of `__len__` holds value `v` for name `x` when some stage does. */
  lemma {:induction false} MergedMember(stages: seq<Stage>, x: string, v: Value)
    requires forall s :: 0 <= s < |stages| ==> StageOk(stages[s])
    ensures v in Members(Merged(stages), x) <==> exists s :: 0 <= s < |stages| && v in Members(stages[s], x)
  {
    if stages != [] {
      var n := |stages| - 1;
      var pre := stages[..n];
      MergedMember(pre, x, v);
      MergeStageMember(Merged(pre), stages[n], x, v);
      assert Merged(stages) == MergeStage(Merged(pre), stages[n]);
      if v in Members(Merged(stages), x) {
        if v in Members(Merged(pre), x) {
          var s :| 0 <= s < n && v in Members(pre[s], x);
          assert stages[s] == pre[s];
        } else {
          assert v in Members(stages[n], x);
        }
      } else {
        forall s | 0 <= s < |stages| ensures v !in Members(stages[s], x) {
          if s < n {
            assert stages[s] == pre[s];
          }
        }
      }
    }
  }

  /** The `domains` dict of `__len__` holds, for each name, every stage's values of it. */
  lemma MergedMembers(stages: seq<Stage>)
    requires forall s :: 0 <= s < |stages| ==> StageOk(stages[s])
    ensures forall x, v :: v in Members(Merged(stages), x) <==> exists s :: 0 <= s < |stages| && v in Members(stages[s], x)
  {
    forall x, v ensures v in Members(Merged(stages), x) <==> exists s :: 0 <= s < |stages| && v in Members(stages[s], x) {
      MergedMember(stages, x, v);
    }
  }

  /** Two duplicate-free lists with the same elements have the same length. */
  lemma SameLength<T>(s: seq<T>, t: seq<T>)
    requires NoDup(s) && NoDup(t) && forall x :: x in s <==> x in t
    ensures |s| == |t|
  {
    SameElementsPermutation(s, t);
    assert |multiset(s)| == |multiset(t)|;
  }

  /** Iteration yields as many tuples as the product of the final domain sizes. */
  lemma IterLength(b: Builder)
    requires WellFormed(b)
    ensures |IterTuples(b)| == Product(Sizes(WalkTo(b.stages, SortedText(b.names), |b.stages|).domains))
  {
    var w := WalkTo(b.stages, SortedText(b.names), |b.stages|);
    WalkCovers(b.stages, SortedText(b.names), |b.stages|);
    WalkDomains(b.stages, SortedText(b.names), |b.stages|);
    CartCovers(w.domains);
    SameLength(w.tuples, Cart(w.domains));
    CartSize(w.domains);
  }

  /** Each final domain of `_iter` is as large as the merged set of `__len__` for its name. */
  lemma FinalSizes(b: Builder)
    requires WellFormed(b)
    ensures var sn := SortedText(b.names);
      Sizes(WalkTo(b.stages, sn, |b.stages|).domains) == SizesOf(Merged(b.stages), sn)
  {
    var sn := SortedText(b.names);
    var w := WalkTo(b.stages, sn, |b.stages|);
    WalkDomains(b.stages, sn, |b.stages|);
    MergedOk(b.stages);
    MergedMembers(b.stages);
    var md := Merged(b.stages);
    forall i | 0 <= i < |sn| ensures Sizes(w.domains)[i] == SizesOf(md, sn)[i] {
      MembersNoDup(md, sn[i]);
      SameLength(w.domains[i], Members(md, sn[i]));
    }
  }

  /** The keys of the merged dict are the sorted names in another order. */
  lemma MergedKeys(b: Builder)
    requires WellFormed(b) && Synced(b)
    ensures multiset(Keys(Merged(b.stages))) == multiset(SortedText(b.names))
  {
    var sn := SortedText(b.names);
    PermutationNoDup(b.names, sn);
    MergedHas(b.stages);
    MergedOk(b.stages);
    var md := Merged(b.stages);
    forall x ensures x in Keys(md) <==> x in sn {
      assert x in sn <==> x in b.names by {
        assert x in sn <==> x in multiset(sn);
        assert x in b.names <==> x in multiset(b.names);
      }
      assert HasKey(md, x) <==> x in Keys(md);
    }
    SameElementsPermutation(Keys(md), sn);
  }

  /** The sizes `__len__` multiplies are the sizes of the merged sets, key by key. */
  lemma MergedSizes(md: Stage)
    requires StageOk(md)
    ensures DomainSizes(md) == SizesOf(md, Keys(md))
  {
    forall i | 0 <= i < |md| ensures DomainSizes(md)[i] == SizesOf(md, Keys(md))[i] {
      GetAt(md, i);
    }
  }

  /** `len(ps)` is the number of tuples iteration yields: both are the product of the sizes
      of the final domains, taken in two orders. */
  lemma IterCount(b: Builder)
    requires WellFormed(b) && Synced(b)
    ensures |IterOf(b)| == LenOf(b.stages)
  {
    var sn := SortedText(b.names);
    var md := Merged(b.stages);
    IterLength(b);
    FinalSizes(b);
    MergedKeys(b);
    MergedOk(b.stages);
    MergedSizes(md);
    MapPermutation(Keys(md), sn, (x: string) => |Members(md, x)|);
    ProductPermutation(DomainSizes(md), SizesOf(md, sn));
  }

  /** An `add_separator` that raises on its second name has already registered the first:
      after `add_parameters(p=[1, 2])` and `add_separator(q=0, p=5)`, `q` is a name no stage
      holds. */
  lemma FailedSeparatorRegisters()
    ensures var b := Builder([[("p", [Num(1), Num(2)])]], ["p"]);
      WithSeparator(b, [("q", Num(0)), ("p", Num(5))]) == (Builder(b.stages, ["p", "q"]), Err(ValueError))
  {
    var kwargs := [("q", Num(0)), ("p", Num(5))];
    assert Keys(kwargs) == ["q", "p"];
    assert ["q", "p"][..1] == ["q"] && ["q"][..0] == [];
    assert Register(["p"], []) == (["p"], Ok(()));
    assert "q" !in ["p"] && ["p"] + ["q"] == ["p", "q"];
    assert Register(["p"], ["q"]) == (["p", "q"], Ok(()));
    assert "p" in ["p", "q"];
  }

  /** `__len__`'s merged domains for the stages of `FailedSeparatorRegisters`. */
  lemma FailedSeparatorMerged()
    ensures Merged([[("p", [Num(1), Num(2)])]]) == [("p", [Num(1), Num(2)])]
  {
    var vs := [Num(1), Num(2)];
    var stages := [[("p", vs)]];
    assert vs[..1] == [Num(1)] && [Num(1)][..0] == [];
    assert Union([], vs) == vs;
    assert stages[..0] == [] && stages[0][..0] == [];
    assert Members([], "p") == [];
    assert MergeStage([], stages[0]) == [("p", vs)];
    assert Merged(stages[..0]) == [];
  }

  /** A registered name that no stage holds has an empty domain, so iteration yields
      nothing, whatever `__len__` says. */
  lemma UnheldNameYieldsNothing(b: Builder, x: string)
    requires WellFormed(b) && x in b.names
    requires forall s :: 0 <= s < |b.stages| ==> !HasKey(b.stages[s], x)
    ensures |IterOf(b)| == 0
  {
    var sn := SortedText(b.names);
    var md := Merged(b.stages);
    IterLength(b);
    FinalSizes(b);
    MergedHas(b.stages);
    assert x in multiset(b.names);
    var j :| 0 <= j < |sn| && sn[j] == x;
    assert SizesOf(md, sn)[j] == 0;
    ProductRemoveAt(SizesOf(md, sn), j);
  }

  /** The builder a failed separator leaves behind: `len(ps)` is still 2 while iteration,
      whose domain for `q` is empty, yields nothing. `IterCount` therefore needs `Synced`. */
  lemma FailedSeparatorDiverges()
    ensures var c := Builder([[("p", [Num(1), Num(2)])]], ["p", "q"]);
      !Synced(c) && LenOf(c.stages) == 2 && |IterOf(c)| == 0
  {
    var c := Builder([[("p", [Num(1), Num(2)])]], ["p", "q"]);
    assert !Synced(c) by {
      assert !HasKey(c.stages[0], "q") && |c.stages| == 1 && "q" in c.names;
    }
    assert LenOf(c.stages) == 2 by {
      FailedSeparatorMerged();
      assert DomainSizes(Merged(c.stages)) == [2];
      assert [2][1..] == [] && Product([2]) == 2;
    }
    assert |IterOf(c)| == 0 by {
      assert !HasKey(c.stages[0], "q");
      UnheldNameYieldsNothing(c, "q");
    }
  }
}
