/** What `reorder_parameters` does to the parameter list: with distinct positions it is a
    permutation that puts the named axes first and keeps the others in their previous order;
    an unknown name or a position out of range leaves the list alone; a repeated or negative
    position makes the list of new entries too long, so the writes run past the end. */
module ReorderFacts {
  import opened Common
  import opened CubeSelect
  import opened Cube

  /** Every position below `n` occurs in `s`. */
  predicate Covers(s: seq<int>, n: nat) {
    forall i :: 0 <= i < n ==> i in s
  }

  /** A list holding every position below `n` has at least `n` entries. */
  lemma {:induction false} CoversLength(s: seq<int>, n: nat)
    requires Covers(s, n)
    ensures |s| >= n
  {
    if n > 0 {
      var j := FirstIndex(s, n - 1);
      var t := s[..j] + s[j + 1..];
      assert s == s[..j] + [s[j]] + s[j + 1..];
      forall i | 0 <= i < n - 1 ensures i in t {
        assert i in s && i != s[j];
      }
      CoversLength(t, n - 1);
    }
  }

  /** A duplicate-free list of positions below `n` has at most `n` entries. */
  lemma {:induction false} BelowLength(s: seq<int>, n: nat)
    requires NoDup(s) && forall j :: 0 <= j < |s| ==> 0 <= s[j] < n
    ensures |s| <= n
  {
    if n > 0 {
      if n - 1 in s {
        var j := FirstIndex(s, n - 1);
        var t := s[..j] + s[j + 1..];
        NoDupRemoveAt(s, j);
        forall k | 0 <= k < |t| ensures 0 <= t[k] < n - 1 {
          assert t[k] in s && t[k] != s[j];
        }
        BelowLength(t, n - 1);
      } else {
        BelowLength(s, n - 1);
      }
    }
  }

  /** Dropping an entry that is out of range, or that occurs again, keeps the cover. */
  lemma CoversDrop(s: seq<int>, n: nat, j: nat)
    requires Covers(s, n) && j < |s|
    requires !(0 <= s[j] < n) || s[j] in s[..j]
    ensures Covers(s[..j] + s[j + 1..], n)
  {
    var t := s[..j] + s[j + 1..];
    assert s == s[..j] + [s[j]] + s[j + 1..];
    forall i | 0 <= i < n ensures i in t {
      assert i in s;
    }
  }

  /** The order `reorder_parameters` gathers with: `order`, then the positions it leaves out. */
  function Complete(order: seq<int>, n: nat): (perm: seq<int>)
    ensures Covers(perm, n) && |perm| >= n
  {
    var perm := order + Unmentioned(order, n);
    assert forall i :: 0 <= i < n ==> i in perm by {
      forall i | 0 <= i < n ensures i in perm {
        if i !in order { assert i in Unmentioned(order, n); }
      }
    }
    CoversLength(perm, n);
    perm
  }

  /** Positions listed in increasing order are distinct. */
  lemma IncreasingNoDup(s: seq<int>)
    requires forall j, k :: 0 <= j < k < |s| ==> s[j] < s[k]
    ensures NoDup(s)
  {
  }

  /** With distinct positions in range, the completed order is as long as the list. */
  lemma CompleteExact(order: seq<int>, n: nat)
    requires NoDup(order) && forall j :: 0 <= j < |order| ==> 0 <= order[j] < n
    ensures |Complete(order, n)| == n && NoDup(Complete(order, n))
  {
    var u := Unmentioned(order, n);
    IncreasingNoDup(u);
    var perm := order + u;
    forall j, k | 0 <= j < k < |perm| ensures perm[j] != perm[k] {
      if j < |order| && k >= |order| {
        assert perm[k] in u;
      }
    }
    BelowLength(perm, n);
  }

  /** A repeated or negative position makes the completed order longer than the list. */
  lemma CompleteLong(order: seq<int>, n: nat)
    requires !(NoDup(order) && forall j :: 0 <= j < |order| ==> order[j] >= 0)
    ensures |Complete(order, n)| > n
  {
    var perm := Complete(order, n);
    if NoDup(order) {
      var j :| 0 <= j < |order| && order[j] < 0;
      assert perm[j] == order[j];
      CoversDrop(perm, n, j);
      CoversLength(perm[..j] + perm[j + 1..], n);
    } else {
      var i, j :| 0 <= i < j < |order| && order[i] == order[j];
      assert perm[i] == order[i] && perm[j] == order[j];
      assert perm[j] in perm[..j];
      CoversDrop(perm, n, j);
      CoversLength(perm[..j] + perm[j + 1..], n);
    }
  }

  /** Gathering a duplicate-free list along a duplicate-free order that covers its positions
      yields a permutation of it. */
  lemma GatherPermutes(params: seq<string>, perm: seq<int>)
    requires NoDup(params) && NoDup(perm) && |perm| == |params| && Covers(perm, |params|)
    requires forall j :: 0 <= j < |perm| ==> 0 <= perm[j] < |params|
    ensures Reorder(params, perm).Ok?
    ensures var r := Reorder(params, perm).value;
      NoDup(r) && multiset(r) == multiset(params) && forall j :: 0 <= j < |r| ==> r[j] == params[perm[j]]
  {
    var r := Reorder(params, perm).value;
    forall j | 0 <= j < |r| ensures r[j] == params[perm[j]] {
      assert Ok(r[j]) == PyIndex(params, perm[j]);
    }
    forall j, k | 0 <= j < k < |r| ensures r[j] != r[k] {
      assert perm[j] != perm[k];
    }
    forall x ensures x in r <==> x in params {
      if x in params {
        var i := FirstIndex(params, x);
        var j := FirstIndex(perm, i);
        assert r[j] == x;
      }
    }
    SameElementsPermutation(r, params);
  }

  /** With distinct positions in range, nothing raises and the list becomes the gathered one. */
  lemma ReorderExact(params: seq<string>, args: seq<Key>)
    requires OrderOf(params, args).Ok?
    requires NoDup(OrderOf(params, args).value)
    requires forall j :: 0 <= j < |args| ==> 0 <= OrderOf(params, args).value[j] < |params|
    ensures var perm := Complete(OrderOf(params, args).value, |params|);
      |perm| == |params| && NoDup(perm) && (forall j :: 0 <= j < |perm| ==> 0 <= perm[j] < |params|) &&
      Reorder(params, perm).Ok? && Reordering(params, args) == (Reorder(params, perm).value, Ok(()))
  {
    var order := OrderOf(params, args).value;
    var perm := Complete(order, |params|);
    CompleteExact(order, |params|);
    forall j | 0 <= j < |perm| ensures 0 <= perm[j] < |params| {
      if j >= |order| { assert perm[j] in Unmentioned(order, |params|); }
    }
    var r := Reorder(params, perm).value;
    assert r + params[|r|..] == r;
  }

  /** `reorder_parameters(*args)` on a duplicate-free parameter list, where the arguments
      name existing parameters or give positions, all distinct and in range: the list is a
      permutation of what it was, the arguments' axes come first in the order given, and the
      others follow in their previous order. */
  lemma ReorderPermutes(params: seq<string>, args: seq<Key>)
    requires NoDup(params) && OrderOf(params, args).Ok?
    requires NoDup(OrderOf(params, args).value)
    requires forall j :: 0 <= j < |args| ==> 0 <= OrderOf(params, args).value[j] < |params|
    ensures var (r, e) := Reordering(params, args);
      e == Ok(()) && |r| == |params| && NoDup(r) && multiset(r) == multiset(params) &&
      (forall j :: 0 <= j < |args| && args[j].KeyName? ==> r[j] == args[j].s) &&
      (forall j :: 0 <= j < |args| && args[j].KeyPos? ==> r[j] == params[args[j].n]) &&
      var rest := Unmentioned(OrderOf(params, args).value, |params|);
      |r| == |args| + |rest| && forall j :: 0 <= j < |rest| ==> r[|args| + j] == params[rest[j]]
  {
    var order := OrderOf(params, args).value;
    var perm := Complete(order, |params|);
    ReorderExact(params, args);
    GatherPermutes(params, perm);
    var rest := Unmentioned(order, |params|);
    assert forall j :: 0 <= j < |rest| ==> perm[|args| + j] == rest[j];
    assert forall j :: 0 <= j < |args| ==> perm[j] == order[j];
  }

  /** When every position is in range for Python but some is negative or repeated, the new
      entries outnumber the list: the first `len(parameters)` of them are written, then the
      next write raises IndexError. */
  lemma ReorderOverrun(params: seq<string>, args: seq<Key>)
    requires OrderOf(params, args).Ok?
    requires forall j :: 0 <= j < |args| ==> -|params| <= OrderOf(params, args).value[j] < |params|
    requires !(NoDup(OrderOf(params, args).value) &&
               forall j :: 0 <= j < |args| ==> OrderOf(params, args).value[j] >= 0)
    ensures var (r, e) := Reordering(params, args);
      e == Err(IndexError) && |r| == |params| && (forall x :: x in r ==> x in params) &&
      forall j :: 0 <= j < |r| && j < |args| ==> Ok(r[j]) == PyIndex(params, OrderOf(params, args).value[j])
  {
    var order := OrderOf(params, args).value;
    var perm := Complete(order, |params|);
    CompleteLong(order, |params|);
    var tmps := Reorder(params, perm);
    assert tmps.Ok? by {
      forall j | 0 <= j < |perm| ensures -|params| <= perm[j] < |params| {
        if j >= |order| { assert perm[j] in Unmentioned(order, |params|); }
      }
    }
    var r := tmps.value[..|params|];
    assert Reordering(params, args) == (r, Err(IndexError));
    forall x | x in r ensures x in params {
      var j :| 0 <= j < |r| && r[j] == x;
      assert Ok(tmps.value[j]) == PyIndex(params, perm[j]);
    }
    forall j | 0 <= j < |r| && j < |args| ensures Ok(r[j]) == PyIndex(params, order[j]) {
      assert Ok(tmps.value[j]) == PyIndex(params, perm[j]);
    }
  }

  /** Naming the same parameter twice leaves that name in the first two places of the list,
      once more than before, and raises IndexError. */
  lemma ReorderRepeatedName(params: seq<string>, x: string)
    requires NoDup(params) && x in params && |params| >= 2
    ensures var (r, e) := Reordering(params, [KeyName(x), KeyName(x)]);
      e == Err(IndexError) && |r| == |params| && r[0] == x && r[1] == x && !NoDup(r)
  {
    var args := [KeyName(x), KeyName(x)];
    var order := OrderOf(params, args).value;
    assert order[0] == order[1];
    ReorderOverrun(params, args);
  }

  /** A name that is not a parameter raises ValueError and leaves the list alone. */
  lemma ReorderUnknown(params: seq<string>, args: seq<Key>, j: nat)
    requires j < |args| && args[j].KeyName? && args[j].s !in params
    ensures Reordering(params, args) == (params, Err(ValueError))
  {
  }

  /** A position out of range raises IndexError and leaves the list alone. */
  lemma ReorderOutOfRange(params: seq<string>, args: seq<Key>, j: nat)
    requires OrderOf(params, args).Ok?
    requires j < |args| && !(-|params| <= OrderOf(params, args).value[j] < |params|)
    ensures Reordering(params, args) == (params, Err(IndexError))
  {
    var order := OrderOf(params, args).value;
    assert Complete(order, |params|)[j] == order[j];
  }
}
