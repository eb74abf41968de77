/** Python's `sorted`/`list.sort`: a stable sort under a total preorder.
    Ascending sorts use `<=` as the preorder; `reverse=True` on a key uses
    `key(a) >= key(b)`, which keeps equal keys in their original order just
    as Python's sort does. */
module Sorting {
  import opened Common

  /** `le` is total and transitive. */
  ghost predicate TotalPreorder<T(!new)>(le: (T, T) -> bool) {
    (forall a, b :: le(a, b) || le(b, a)) &&
    (forall a, b, c :: le(a, b) && le(b, c) ==> le(a, c))
  }

  predicate SortedBy<T>(s: seq<T>, le: (T, T) -> bool) {
    forall i, j :: 0 <= i < j < |s| ==> le(s[i], s[j])
  }

  /** Where `x` goes: before the first element it is `le` to. */
  function Slot<T>(x: T, s: seq<T>, le: (T, T) -> bool): (p: nat)
    ensures p <= |s|
    ensures forall i :: 0 <= i < p ==> !le(x, s[i])
    ensures p < |s| ==> le(x, s[p])
  {
    if s == [] || le(x, s[0]) then 0 else 1 + Slot(x, s[1..], le)
  }

  function Insert<T>(x: T, s: seq<T>, le: (T, T) -> bool): (r: seq<T>)
    ensures multiset(r) == multiset(s) + multiset{x}
    ensures |r| == |s| + 1
  {
    var p := Slot(x, s, le);
    assert s == s[..p] + s[p..];
    s[..p] + [x] + s[p..]
  }

  function Sort<T>(s: seq<T>, le: (T, T) -> bool): (r: seq<T>)
  {
    if s == [] then [] else Insert(s[0], Sort(s[1..], le), le)
  }

  /** The sort returns a permutation of its input. */
  lemma {:induction false} SortPermutes<T>(s: seq<T>, le: (T, T) -> bool)
    ensures multiset(Sort(s, le)) == multiset(s)
    ensures |Sort(s, le)| == |s|
  {
    if s != [] {
      SortPermutes(s[1..], le);
      assert s == [s[0]] + s[1..];
    }
  }

  lemma InsertSorted<T(!new)>(x: T, s: seq<T>, le: (T, T) -> bool)
    requires TotalPreorder(le) && SortedBy(s, le)
    ensures SortedBy(Insert(x, s, le), le)
  {
    var p := Slot(x, s, le);
    var r := Insert(x, s, le);
    forall i, j | 0 <= i < j < |r|
      ensures le(r[i], r[j])
    {
      if j == p {
        assert !le(x, s[i]);
      } else if i == p && j > p + 1 {
        assert le(s[p], s[j - 1]);
      }
    }
  }

  /** The sort's output is ordered by `le`. */
  lemma {:induction false} SortSorted<T(!new)>(s: seq<T>, le: (T, T) -> bool)
    requires TotalPreorder(le)
    ensures SortedBy(Sort(s, le), le)
  {
    if s != [] {
      SortSorted(s[1..], le);
      InsertSorted(s[0], Sort(s[1..], le), le);
    }
  }

  /** An already sorted list is left as it is. */
  lemma {:induction false} SortIdentity<T>(s: seq<T>, le: (T, T) -> bool)
    requires SortedBy(s, le)
    ensures Sort(s, le) == s
  {
    if s != [] {
      SortIdentity(s[1..], le);
      assert Slot(s[0], s[1..], le) == 0;
      assert s == [s[0]] + s[1..];
    }
  }

  ghost predicate Antisymmetric<T(!new)>(le: (T, T) -> bool) {
    forall a, b :: le(a, b) && le(b, a) ==> a == b
  }

  /** Under an antisymmetric order a list has one sorted arrangement. */
  lemma {:induction false} SortedUnique<T(!new)>(a: seq<T>, b: seq<T>, le: (T, T) -> bool)
    requires Antisymmetric(le)
    requires SortedBy(a, le) && SortedBy(b, le) && multiset(a) == multiset(b)
    ensures a == b
  {
    if a == [] {
      assert |b| == |multiset(b)| == 0;
    } else {
      assert |b| == |multiset(b)| == |a|;
      assert a[0] in multiset(b) && b[0] in multiset(a);
      var j :| 0 <= j < |b| && b[j] == a[0];
      var i :| 0 <= i < |a| && a[i] == b[0];
      if i > 0 && j > 0 {
        assert le(a[0], a[i]) && le(b[0], b[j]);
      }
      assert a == [a[0]] + a[1..] && b == [b[0]] + b[1..];
      assert multiset(a) == multiset([a[0]]) + multiset(a[1..]);
      assert multiset(b) == multiset([b[0]]) + multiset(b[1..]);
      MultisetCancel(multiset([a[0]]), multiset(a[1..]), multiset(b[1..]));
      SortedUnique(a[1..], b[1..], le);
    }
  }

  /** `s` lists elements in increasing `rank` (for instance by enumeration index). */
  predicate Ranked<T>(s: seq<T>, rank: T -> int) {
    forall i, j :: 0 <= i < j < |s| ==> rank(s[i]) < rank(s[j])
  }

  /** Sorted, and elements that `le` cannot tell apart stay in increasing rank. */
  predicate StablySorted<T>(s: seq<T>, le: (T, T) -> bool, rank: T -> int) {
    forall i, j :: 0 <= i < j < |s| ==> le(s[i], s[j]) && (le(s[j], s[i]) ==> rank(s[i]) < rank(s[j]))
  }

  lemma InsertStable<T(!new)>(x: T, s: seq<T>, le: (T, T) -> bool, rank: T -> int)
    requires TotalPreorder(le) && StablySorted(s, le, rank)
    requires forall y :: y in s ==> rank(x) < rank(y)
    ensures StablySorted(Insert(x, s, le), le, rank)
  {
    var p := Slot(x, s, le);
    var r := Insert(x, s, le);
    forall i, j | 0 <= i < j < |r|
      ensures le(r[i], r[j]) && (le(r[j], r[i]) ==> rank(r[i]) < rank(r[j]))
    {
      if j == p {
        assert !le(x, s[i]);
      } else if i == p {
        assert s[j - 1] in s;
        if j > p + 1 {
          assert le(s[p], s[j - 1]);
        }
      }
    }
  }

  /** When the input is ranked, the sort keeps elements with equal keys in rank order:
      this is Python's sort stability. */
  lemma {:induction false} SortStable<T(!new)>(s: seq<T>, le: (T, T) -> bool, rank: T -> int)
    requires TotalPreorder(le) && Ranked(s, rank)
    ensures StablySorted(Sort(s, le), le, rank)
  {
    if s != [] {
      SortStable(s[1..], le, rank);
      SortPermutes(s[1..], le);
      forall y | y in Sort(s[1..], le)
        ensures rank(s[0]) < rank(y)
      {
        assert y in multiset(Sort(s[1..], le));
        assert y in s[1..];
      }
      InsertStable(s[0], Sort(s[1..], le), le, rank);
    }
  }
}
