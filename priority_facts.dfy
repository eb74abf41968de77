/** What `PrioritizedParamSet` promises: it yields what it wraps, by decreasing priority,
    in the wrapped order among equal priorities, and a dict holding an earlier-prioritized
    binding before every dict that lacks it but agrees on all earlier ones. */
module PriorityFacts {
  import opened Common
  import opened Sorting
  import opened Values
  import opened ParamSets
  import opened ParamSetFacts

  // ---------------------------------------------------------------- what is yielded

  /** Drop the priority of one triple. */
  function Strip(t: (real, int, ParamDict)): (int, ParamDict) {
    (t.1, t.2)
  }

  lemma UntagIsMap(ts: seq<(real, int, ParamDict)>)
    ensures Untag(ts) == Map(ts, Strip)
  {
  }

  /** The decorator yields every pair the wrapped set yields, as often, and nothing else. */
  lemma PrioritizedPermutes(ps: PrioritizedParamSet, inner: Enumeration)
    ensures multiset(ps.Iter(inner)) == multiset(inner)
  {
    var t := Triples(ps.priorities, ps.count, inner);
    var s := Sort(t, ByPriority);
    SortPermutes(t, ByPriority);
    MapPermutation(s, t, Strip);
    UntagIsMap(s);
    assert Map(t, Strip) == inner;
  }

  lemma ByPriorityPreorder()
    ensures TotalPreorder(ByPriority)
  {
  }

  /** The decorator yields by decreasing priority; among equal priorities it keeps the
      order of the wrapped set, whose indices increase. */
  lemma PrioritizedOrder(ps: PrioritizedParamSet, inner: Enumeration)
    requires Increasing(inner)
    ensures var out := ps.Iter(inner);
      forall i, j :: 0 <= i < j < |out| ==>
        Priority(ps.priorities, ps.count, out[i].1) >= Priority(ps.priorities, ps.count, out[j].1) &&
        (Priority(ps.priorities, ps.count, out[i].1) == Priority(ps.priorities, ps.count, out[j].1) ==>
          out[i].0 < out[j].0)
  {
    var pr, count := ps.priorities, ps.count;
    var t := Triples(pr, count, inner);
    var s := Sort(t, ByPriority);
    var rank := (x: (real, int, ParamDict)) => x.1;
    assert Ranked(t, rank) by {
      forall i, j | 0 <= i < j < |t| ensures rank(t[i]) < rank(t[j]) {
        assert t[i].1 == inner[i].0 && t[j].1 == inner[j].0;
      }
    }
    ByPriorityPreorder();
    SortStable(t, ByPriority, rank);
    SortPermutes(t, ByPriority);
    forall k | 0 <= k < |s| ensures s[k].0 == Priority(pr, count, s[k].2) {
      assert s[k] in multiset(t);
      var m :| 0 <= m < |t| && t[m] == s[k];
    }
    var out := Untag(s);
    forall i, j | 0 <= i < j < |out|
      ensures Priority(pr, count, out[i].1) >= Priority(pr, count, out[j].1)
      ensures Priority(pr, count, out[i].1) == Priority(pr, count, out[j].1) ==> out[i].0 < out[j].0
    {
      assert ByPriority(s[i], s[j]) && (ByPriority(s[j], s[i]) ==> rank(s[i]) < rank(s[j]));
    }
  }

  // ---------------------------------------------------------------- ranks

  /** The rank `prioritize` gave a binding, or -1. */
  function Rank(priorities: Dict<(string, Value), int>, item: (string, Value)): int {
    if HasKey(priorities, item) then Get(priorities, item) else -1
  }

  /** The ranks of a dict's bindings, in its order. */
  function RanksOf(priorities: Dict<(string, Value), int>, d: ParamDict): seq<int> {
    Map(d, (item: (string, Value)) => Rank(priorities, item))
  }

  /** What `prioritize` maintains: distinct ranks, each below `n_priorities`. */
  predicate RanksOk(priorities: Dict<(string, Value), int>, count: int) {
    0 <= count && DistinctKeys(priorities) &&
    (forall i :: 0 <= i < |priorities| ==> 0 <= priorities[i].1 < count) &&
    (forall i, j :: 0 <= i < j < |priorities| ==> priorities[i].1 != priorities[j].1)
  }

  /** The constructor without priorities starts with none. */
  lemma NoRanksOk()
    ensures RanksOk([], 0)
  {
  }

  /** `prioritize` keeps the ranks distinct and below the count. */
  lemma PrioritizeKeeps(priorities: Dict<(string, Value), int>, count: int, name: string, value: Value)
    requires RanksOk(priorities, count)
    ensures RanksOk(Put(priorities, (name, value), count), count + 1)
  {
    var k := (name, value);
    var r := Put(priorities, k, count);
    PutFacts(priorities, k, count);
    if HasKey(priorities, k) {
      var p := Common.Slot(priorities, k);
      assert r == priorities[p := (k, count)];
      forall i, j | 0 <= i < j < |r| ensures r[i].1 != r[j].1 {
        if i != p && j != p {
          assert r[i] == priorities[i] && r[j] == priorities[j];
        }
      }
    } else {
      forall i, j | 0 <= i < j < |r| ensures r[i].1 != r[j].1 {
        if j < |priorities| {
          assert r[i] == priorities[i] && r[j] == priorities[j];
        } else {
          assert r[i] == priorities[i];
        }
      }
    }
  }

  /** Under distinct ranks, two distinct bindings do not share a rank, and every rank is
      below the count. */
  lemma RankFacts(priorities: Dict<(string, Value), int>, count: int, a: (string, Value), b: (string, Value))
    requires RanksOk(priorities, count)
    ensures Rank(priorities, a) < count
    ensures a != b && Rank(priorities, a) >= 0 ==> Rank(priorities, a) != Rank(priorities, b)
  {
    if HasKey(priorities, a) {
      var i := Common.Slot(priorities, a);
      if HasKey(priorities, b) && a != b {
        var j := Common.Slot(priorities, b);
        assert i != j;
      }
    }
  }

  // ---------------------------------------------------------------- the priority as a binary number

  /** A dict's ranks as bits, the lowest rank first. */
  function Bits(priorities: Dict<(string, Value), int>, count: nat, d: ParamDict): (r: seq<bool>)
    ensures |r| == count
  {
    seq(count, q requires 0 <= q < count => q in RanksOf(priorities, d))
  }

  /** The number whose binary digits, most significant first, are `bits`. */
  function Val(bits: seq<bool>): nat {
    if bits == [] then 0 else (if bits[0] then Pow2(|bits| - 1) else 0) + Val(bits[1..])
  }

  lemma {:induction false} ValBound(bits: seq<bool>)
    ensures Val(bits) < Pow2(|bits|)
  {
    if bits != [] {
      ValBound(bits[1..]);
    }
  }

  /** Two numbers agreeing on their leading digits are ordered by the first digit where they
      differ. */
  lemma {:induction false} ValDominates(a: seq<bool>, b: seq<bool>, p: nat)
    requires |a| == |b| && p < |a| && a[..p] == b[..p] && a[p] && !b[p]
    ensures Val(a) > Val(b)
  {
    if p == 0 {
      ValBound(b[1..]);
    } else {
      assert a[0] == a[..p][0] == b[..p][0] == b[0];
      assert a[1..][..p - 1] == a[..p][1..] == b[..p][1..] == b[1..][..p - 1];
      ValDominates(a[1..], b[1..], p - 1);
    }
  }

  /** Setting a clear digit adds its place value. */
  lemma {:induction false} ValSet(s: seq<bool>, q: nat)
    requires q < |s| && !s[q]
    ensures Val(s[q := true]) == Val(s) + Pow2(|s| - q - 1)
  {
    if q == 0 {
      assert s[q := true][1..] == s[1..];
    } else {
      assert s[q := true][1..] == s[1..][q - 1 := true];
      ValSet(s[1..], q - 1);
    }
  }

  /** The ranks of a dict's prefix, then that of its next binding. */
  lemma RanksOfStep(priorities: Dict<(string, Value), int>, d: ParamDict)
    requires |d| > 0
    ensures RanksOf(priorities, d) == RanksOf(priorities, d[..|d| - 1]) + [Rank(priorities, d[|d| - 1])]
  {
  }

  /** The last binding of a dict, when ranked, has a rank none of the earlier bindings has
      (two distinct keys never share a rank). */
  lemma FreshRank(priorities: Dict<(string, Value), int>, count: int, d: ParamDict)
    requires RanksOk(priorities, count) && DistinctKeys(d) && |d| > 0
    ensures var n := |d| - 1;
      Rank(priorities, d[n]) >= 0 ==> Rank(priorities, d[n]) !in RanksOf(priorities, d[..n])
  {
    var n := |d| - 1;
    var rs := RanksOf(priorities, d[..n]);
    forall k | 0 <= k < n ensures rs[k] != Rank(priorities, d[n]) || Rank(priorities, d[n]) < 0 {
      assert Keys(d)[k] == d[k].0 && Keys(d)[n] == d[n].0;
      assert d[..n][k] == d[k];
      RankFacts(priorities, count, d[n], d[k]);
    }
  }

  /** With distinct ranks, `get_priority` reads the dict's ranks as a binary number. */
  lemma {:induction false} PriorityBits(priorities: Dict<(string, Value), int>, count: int, d: ParamDict)
    requires RanksOk(priorities, count) && DistinctKeys(d)
    ensures Priority(priorities, count, d) == Val(Bits(priorities, count, d)) as real
  {
    if d == [] {
      assert RanksOf(priorities, d) == [];
      assert Bits(priorities, count, d) == seq(count, q => false);
      ValZero(count);
    } else {
      var n := |d| - 1;
      DistinctKeysPrefix(d, n);
      PriorityBits(priorities, count, d[..n]);
      RanksOfStep(priorities, d);
      FreshRank(priorities, count, d);
      var q := Rank(priorities, d[n]);
      var front := Bits(priorities, count, d[..n]);
      RankFacts(priorities, count, d[n], d[n]);
      if q >= 0 {
        assert Bits(priorities, count, d) == front[q := true];
        ValSet(front, q);
      } else {
        assert Bits(priorities, count, d) == front;
      }
    }
  }

  lemma {:induction false} ValZero(count: nat)
    ensures Val(seq(count, q => false)) == 0
  {
    if count > 0 {
      assert seq(count, q => false)[1..] == seq(count - 1, q => false);
      ValZero(count - 1);
    }
  }

  // ---------------------------------------------------------------- precedence

  /** `d1` holds a binding of rank `r` that `d2` lacks, and they agree on every earlier rank. */
  predicate Dominates(priorities: Dict<(string, Value), int>, d1: ParamDict, d2: ParamDict) {
    exists r :: 0 <= r && r in RanksOf(priorities, d1) && r !in RanksOf(priorities, d2) &&
      forall q :: 0 <= q < r ==> (q in RanksOf(priorities, d1) <==> q in RanksOf(priorities, d2))
  }

  /** A dict holding an earlier-prioritized binding has the greater priority. */
  lemma PriorityDominates(priorities: Dict<(string, Value), int>, count: int, d1: ParamDict, d2: ParamDict)
    requires RanksOk(priorities, count) && DistinctKeys(d1) && DistinctKeys(d2)
    ensures Dominates(priorities, d1, d2) ==> Priority(priorities, count, d1) > Priority(priorities, count, d2)
  {
    if Dominates(priorities, d1, d2) {
      var r :| 0 <= r && r in RanksOf(priorities, d1) && r !in RanksOf(priorities, d2) &&
        forall q :: 0 <= q < r ==> (q in RanksOf(priorities, d1) <==> q in RanksOf(priorities, d2));
      var k :| 0 <= k < |d1| && RanksOf(priorities, d1)[k] == r;
      RankFacts(priorities, count, d1[k], d1[k]);
      var a, b := Bits(priorities, count, d1), Bits(priorities, count, d2);
      assert a[..r] == b[..r];
      ValDominates(a, b, r);
      PriorityBits(priorities, count, d1);
      PriorityBits(priorities, count, d2);
    }
  }

  /** The docstring's promise: every dict holding the first-prioritized binding comes
      first, then among the rest those holding the second, and so on. */
  lemma PrioritizedFirst(ps: PrioritizedParamSet, inner: Enumeration)
    requires RanksOk(ps.priorities, ps.count) && Increasing(inner)
    requires forall k :: 0 <= k < |inner| ==> DistinctKeys(inner[k].1)
    ensures var out := ps.Iter(inner);
      forall i, j :: 0 <= i < j < |out| ==> !Dominates(ps.priorities, out[j].1, out[i].1)
  {
    var out := ps.Iter(inner);
    PrioritizedOrder(ps, inner);
    PrioritizedPermutes(ps, inner);
    forall k | 0 <= k < |out| ensures DistinctKeys(out[k].1) {
      assert out[k] in multiset(inner);
      var m :| 0 <= m < |inner| && inner[m] == out[k];
    }
    forall i, j | 0 <= i < j < |out| ensures !Dominates(ps.priorities, out[j].1, out[i].1) {
      PriorityDominates(ps.priorities, ps.count, out[j].1, out[i].1);
    }
  }
}
