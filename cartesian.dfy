/** `itertools.product`: the cartesian product of a list of domains, first
    domain varying slowest. */
module Cartesian {
  import opened Common

  /** `[[x] + t for t in ts]`. */
  function Prepend<T>(x: T, ts: seq<seq<T>>): (r: seq<seq<T>>)
    ensures |r| == |ts| && forall i :: 0 <= i < |ts| ==> r[i] == [x] + ts[i]
  {
    seq(|ts|, i requires 0 <= i < |ts| => [x] + ts[i])
  }

  /** `[[x] + t for x in d for t in ts]`. */
  function Spread<T>(d: seq<T>, ts: seq<seq<T>>): (r: seq<seq<T>>)
    ensures |r| == |d| * |ts|
  {
    if d == [] then [] else Prepend(d[0], ts) + Spread(d[1..], ts)
  }

  /** `list(itertools.product(*ds))`. */
  function Cart<T>(ds: seq<seq<T>>): seq<seq<T>> {
    if ds == [] then [[]] else Spread(ds[0], Cart(ds[1..]))
  }

  function Sizes<T>(ds: seq<seq<T>>): (r: seq<nat>)
    ensures |r| == |ds| && forall i :: 0 <= i < |ds| ==> r[i] == |ds[i]|
  {
    seq(|ds|, i requires 0 <= i < |ds| => |ds[i]|)
  }

  /** A tuple is in the product exactly when each of its components is in its domain. */
  predicate InProduct<T(==)>(t: seq<T>, ds: seq<seq<T>>) {
    |t| == |ds| && forall i :: 0 <= i < |ds| ==> t[i] in ds[i]
  }

  /** The product has as many tuples as the product of the domain sizes. */
  lemma {:induction false} CartSize<T>(ds: seq<seq<T>>)
    ensures |Cart(ds)| == Product(Sizes(ds))
  {
    if ds != [] {
      CartSize(ds[1..]);
      assert Sizes(ds)[1..] == Sizes(ds[1..]);
    }
  }

  lemma {:induction false} SpreadMember<T>(t: seq<T>, d: seq<T>, ts: seq<seq<T>>)
    ensures t in Spread(d, ts) <==> |t| >= 1 && t[0] in d && t[1..] in ts
  {
    if d != [] {
      SpreadMember(t, d[1..], ts);
      if t in Prepend(d[0], ts) {
        var i :| 0 <= i < |ts| && t == [d[0]] + ts[i];
        assert t[1..] == ts[i];
      }
      if |t| >= 1 && t[0] == d[0] && t[1..] in ts {
        var i :| 0 <= i < |ts| && t[1..] == ts[i];
        assert t == [t[0]] + t[1..];
        assert t == Prepend(d[0], ts)[i];
      }
    }
  }

  /** Membership in the product is `InProduct`. */
  lemma {:induction false} CartMember<T>(t: seq<T>, ds: seq<seq<T>>)
    ensures t in Cart(ds) <==> InProduct(t, ds)
  {
    if ds == [] {
      assert t in Cart(ds) <==> t == [];
    } else {
      SpreadMember(t, ds[0], Cart(ds[1..]));
      if |t| >= 1 {
        CartMember(t[1..], ds[1..]);
        if InProduct(t[1..], ds[1..]) && t[0] in ds[0] {
          forall i | 0 <= i < |ds| ensures t[i] in ds[i] {
            if i > 0 {
              assert t[i] == t[1..][i - 1];
            }
          }
        }
        if InProduct(t, ds) {
          forall i | 0 <= i < |ds| - 1 ensures t[1..][i] in ds[1..][i] {
            assert t[i + 1] in ds[i + 1];
          }
        }
      }
    }
  }

  lemma NoDupConcat<T>(a: seq<T>, b: seq<T>)
    requires NoDup(a) && NoDup(b)
    requires forall x :: x in a ==> x !in b
    ensures NoDup(a + b)
  {
    forall i, j | 0 <= i < j < |a + b|
      ensures (a + b)[i] != (a + b)[j]
    {
      if i < |a| && j >= |a| {
        assert (a + b)[i] in a;
        assert (a + b)[j] in b;
      }
    }
  }

  lemma {:induction false} SpreadNoDup<T>(d: seq<T>, ts: seq<seq<T>>)
    requires NoDup(d) && NoDup(ts)
    ensures NoDup(Spread(d, ts))
  {
    if d != [] {
      var p := Prepend(d[0], ts);
      forall i, j | 0 <= i < j < |p| ensures p[i] != p[j] {
        assert p[i][1..] == ts[i];
        assert p[j][1..] == ts[j];
      }
      SpreadNoDup(d[1..], ts);
      forall t | t in p ensures t !in Spread(d[1..], ts) {
        SpreadMember(t, d[1..], ts);
        assert d[0] !in d[1..];
      }
      NoDupConcat(p, Spread(d[1..], ts));
    }
  }

  /** Distinct values per domain give distinct tuples. */
  lemma {:induction false} CartNoDup<T>(ds: seq<seq<T>>)
    requires forall i :: 0 <= i < |ds| ==> NoDup(ds[i])
    ensures NoDup(Cart(ds))
  {
    if ds != [] {
      CartNoDup(ds[1..]);
      SpreadNoDup(ds[0], Cart(ds[1..]));
    }
  }
}
