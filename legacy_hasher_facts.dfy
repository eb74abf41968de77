/** What the legacy hasher promises for well-formed arguments: the hash of a metric and one
    value per axis is the mixed-radix number whose digits are the value positions and whose
    top digit is the metric position, so it lies below `Π|domain_i| * |metrics|` and no two
    assignments share it; metadata entries add nothing; and `KeyError` is raised exactly
    when a lookup fails. */
module LegacyHashingFacts {
  import opened Common
  import opened Values
  import opened Radix
  import Hashing
  import HashingFacts
  import opened LegacyHashing

  /** Metric names and the values of each axis are not repeated, axis names are distinct,
      and metadata names are distinct and apart from the axes. */
  ghost predicate WellFormed(metrics: seq<string>, domain: Domain, meta: Dict<string, Value>) {
    NoDup(metrics) && DistinctKeys(domain) && DistinctKeys(meta) &&
    (forall i :: 0 <= i < |domain| ==> NoDup(domain[i].1)) &&
    (forall x :: HasKey(domain, x) ==> !HasKey(meta, x))
  }

  /** The assignment giving axis `i` its value at position `cs[i]`. */
  function Picked(domain: Domain, cs: seq<nat>): (r: Dict<string, Value>)
    requires Digits(cs, DomainSizes(domain))
    ensures |r| == |domain| && forall i :: 0 <= i < |domain| ==> r[i] == (domain[i].0, domain[i].1[cs[i]])
  {
    seq(|domain|, i requires 0 <= i < |domain| && Digits(cs, DomainSizes(domain)) => (domain[i].0, domain[i].1[cs[i]]))
  }

  // ---------------------------------------------------------------- the built tables

  /** The tables of a hasher built from disjoint names: axes in mapping order, then the metadata. */
  ghost predicate Shaped(l: Layout, metrics: seq<string>, domain: Domain, meta: Dict<string, Value>) {
    l.metricInv == Hashing.Inverse(metrics) && l.metricStride == Product(DomainSizes(domain)) &&
    l.strides == StrideItems(domain) + ZeroItems(meta) &&
    l.domInv == InverseItems(domain) + SingletonItems(meta) &&
    DistinctKeys(l.strides) && DistinctKeys(l.domInv)
  }

  /** With disjoint names, `Hasher.__init__` lays its tables out without overwriting any entry. */
  lemma BuildShape(metrics: seq<string>, domain: Domain, meta: Dict<string, Value>)
    requires WellFormed(metrics, domain, meta)
    ensures Shaped(Build(metrics, domain, Some(meta)), metrics, domain, meta)
  {
    var inv, str := InverseItems(domain), StrideItems(domain);
    var sgl, zero := SingletonItems(meta), ZeroItems(meta);
    assert Keys(inv) == Keys(domain) == Keys(str);
    assert Keys(sgl) == Keys(meta) == Keys(zero);
    forall x | x in Keys(domain) ensures x !in Keys(meta) {
      assert HasKey(domain, x);
    }
    assert [] + inv == inv && [] + str == str;
    PutAllFresh([], inv);
    PutAllFresh([], str);
    DisjointKeys(inv, sgl);
    DisjointKeys(str, zero);
    PutAllFresh(inv, sgl);
    PutAllFresh(str, zero);
  }

  /** Axis `k` has the stride of its position and the positions of its values. */
  lemma AxisLookup(l: Layout, metrics: seq<string>, domain: Domain, meta: Dict<string, Value>, k: nat)
    requires Shaped(l, metrics, domain, meta) && k < |domain|
    ensures HasKey(l.strides, domain[k].0) && Get(l.strides, domain[k].0) == Weight(DomainSizes(domain), k)
    ensures HasKey(l.domInv, domain[k].0) && Get(l.domInv, domain[k].0) == Hashing.Inverse(domain[k].1)
  {
    GetAt(l.strides, k);
    GetAt(l.domInv, k);
  }

  /** A metadata name has stride 0 and its single value at position 0. */
  lemma MetaLookup(l: Layout, metrics: seq<string>, domain: Domain, meta: Dict<string, Value>, j: nat)
    requires Shaped(l, metrics, domain, meta) && j < |meta|
    ensures HasKey(l.strides, meta[j].0) && Get(l.strides, meta[j].0) == 0
    ensures HasKey(l.domInv, meta[j].0) && Get(l.domInv, meta[j].0) == [(meta[j].1, 0)]
  {
    var z, g := ZeroItems(meta), SingletonItems(meta);
    assert l.strides[|domain| + j] == z[j] == (meta[j].0, 0);
    assert l.domInv[|domain| + j] == g[j] == (meta[j].0, [(meta[j].1, 0)]);
    GetAt(l.strides, |domain| + j);
    GetAt(l.domInv, |domain| + j);
  }

  // ---------------------------------------------------------------- hash

  /** `hash` adds the metric's term to the loop's sum. */
  lemma HashOfTerms(l: Layout, m: string, params: Dict<string, Value>, c: nat, w: nat, t: nat)
    requires HasKey(l.metricInv, m) && Get(l.metricInv, m) == c && l.metricStride == w && Terms(l, params) == Ok(t)
    ensures HashOf(l, m, params).Ok? && HashOf(l, m, params).value == t + w * c
  {
  }

  /** Axis `i` of a full assignment resolves to its stride times its value's position. */
  lemma PickedTerm(l: Layout, metrics: seq<string>, domain: Domain, meta: Dict<string, Value>, cs: seq<nat>, i: nat)
    requires Shaped(l, metrics, domain, meta) && WellFormed(metrics, domain, meta)
    requires Digits(cs, DomainSizes(domain)) && i < |domain|
    ensures Resolvable(l, Picked(domain, cs)[i])
    ensures Term(l, Picked(domain, cs)[i]) == Weight(DomainSizes(domain), i) * cs[i]
  {
    AxisLookup(l, metrics, domain, meta, i);
    HashingFacts.InverseAt(domain[i].1, cs[i]);
  }

  /** A resolvable parameter that adds digit `k - 1`'s weighted value carries the sum of the
      parameters before it to the number of the digits up to it. */
  lemma DigitStep(l: Layout, params: Dict<string, Value>, cs: seq<nat>, sizes: seq<nat>, k: nat)
    requires |params| == |cs| == |sizes| && 0 < k <= |params|
    requires Terms(l, params[..k - 1]) == Ok(Encode(cs[..k - 1], sizes[..k - 1]))
    requires Resolvable(l, params[k - 1]) && Term(l, params[k - 1]) == Weight(sizes, k - 1) * cs[k - 1]
    ensures Terms(l, params[..k]) == Ok(Encode(cs[..k], sizes[..k]))
  {
    TermsStep(l, params, k - 1);
    EncodePrefixStep(cs, sizes, k - 1);
  }

  /** When parameter `i` adds `Weight(sizes, i) * cs[i]`, the first `k` parameters add up
      to the number the first `k` digits spell. */
  lemma {:induction false} TermsOfDigits(l: Layout, params: Dict<string, Value>, cs: seq<nat>, sizes: seq<nat>, k: nat)
    requires |params| == |cs| == |sizes| && k <= |params|
    requires forall i :: 0 <= i < |params| ==>
      Resolvable(l, params[i]) && Term(l, params[i]) == Weight(sizes, i) * cs[i]
    ensures Terms(l, params[..k]) == Ok(Encode(cs[..k], sizes[..k]))
  {
    if k == 0 {
      assert params[..0] == [] && cs[..0] == [] && sizes[..0] == [];
    } else {
      TermsOfDigits(l, params, cs, sizes, k - 1);
      DigitStep(l, params, cs, sizes, k);
    }
  }

  /** All the axes of a full assignment add up to the number their positions spell. */
  lemma TermsOfAll(l: Layout, metrics: seq<string>, domain: Domain, meta: Dict<string, Value>, cs: seq<nat>)
    requires Shaped(l, metrics, domain, meta) && WellFormed(metrics, domain, meta)
    requires Digits(cs, DomainSizes(domain))
    ensures Terms(l, Picked(domain, cs)) == Ok(Encode(cs, DomainSizes(domain)))
  {
    var p, sizes := Picked(domain, cs), DomainSizes(domain);
    PickedTerms(l, metrics, domain, meta, cs);
    TermsOfDigits(l, p, cs, sizes, |p|);
    WholePrefixes(l, p, cs, sizes);
  }

  /** Every axis of a full assignment resolves to its stride times its value's position. */
  lemma PickedTerms(l: Layout, metrics: seq<string>, domain: Domain, meta: Dict<string, Value>, cs: seq<nat>)
    requires Shaped(l, metrics, domain, meta) && WellFormed(metrics, domain, meta)
    requires Digits(cs, DomainSizes(domain))
    ensures forall i :: 0 <= i < |domain| ==>
      Resolvable(l, Picked(domain, cs)[i]) && Term(l, Picked(domain, cs)[i]) == Weight(DomainSizes(domain), i) * cs[i]
  {
    forall i | 0 <= i < |domain|
      ensures Resolvable(l, Picked(domain, cs)[i]) && Term(l, Picked(domain, cs)[i]) == Weight(DomainSizes(domain), i) * cs[i]
    {
      PickedTerm(l, metrics, domain, meta, cs, i);
    }
  }

  /** The whole assignment's sum is the sum of its longest prefix. */
  lemma WholePrefixes(l: Layout, p: Dict<string, Value>, cs: seq<nat>, sizes: seq<nat>)
    requires |p| == |cs| == |sizes|
    requires Terms(l, p[..|p|]) == Ok(Encode(cs[..|p|], sizes[..|p|]))
    ensures Terms(l, p) == Ok(Encode(cs, sizes))
  {
    assert p[..|p|] == p && cs[..|p|] == cs && sizes[..|p|] == sizes;
  }

  /** The hash of metric `m` and the values at positions `cs` is the mixed-radix number
      `cs` plus the product of the axis sizes times the metric's position. */
  lemma HashValue(metrics: seq<string>, domain: Domain, meta: Dict<string, Value>, m: string, cs: seq<nat>)
    requires WellFormed(metrics, domain, meta) && m in metrics && Digits(cs, DomainSizes(domain))
    ensures var h := HashOf(Build(metrics, domain, Some(meta)), m, Picked(domain, cs));
      h.Ok? && h.value == Encode(cs, DomainSizes(domain)) + Product(DomainSizes(domain)) * FirstIndex(metrics, m)
  {
    var l := Build(metrics, domain, Some(meta));
    var c, w, e := FirstIndex(metrics, m), Product(DomainSizes(domain)), Encode(cs, DomainSizes(domain));
    BuildShape(metrics, domain, meta);
    TermsOfAll(l, metrics, domain, meta, cs);
    HashingFacts.InverseIsIndex(metrics, m);
    HashOfTerms(l, m, Picked(domain, cs), c, w, e);
  }

  /** The hash lies in `[0, Π|domain_i| * |metrics|)`. */
  lemma HashRange(metrics: seq<string>, domain: Domain, meta: Dict<string, Value>, m: string, cs: seq<nat>)
    requires WellFormed(metrics, domain, meta) && m in metrics && Digits(cs, DomainSizes(domain))
    ensures var h := HashOf(Build(metrics, domain, Some(meta)), m, Picked(domain, cs));
      h.Ok? && h.value < Product(DomainSizes(domain)) * |metrics|
  {
    var e, w, c := Encode(cs, DomainSizes(domain)), Product(DomainSizes(domain)), FirstIndex(metrics, m);
    HashValue(metrics, domain, meta, m, cs);
    EncodeBound(cs, DomainSizes(domain));
    StepBound(e, w, c, |metrics|);
  }

  /** The hash is the mixed-radix number with the metric position as top digit. */
  lemma HashDigits(metrics: seq<string>, domain: Domain, meta: Dict<string, Value>, m: string, cs: seq<nat>)
    requires WellFormed(metrics, domain, meta) && m in metrics && Digits(cs, DomainSizes(domain))
    ensures var h := HashOf(Build(metrics, domain, Some(meta)), m, Picked(domain, cs));
      h.Ok? && h.value == Encode(cs + [FirstIndex(metrics, m)], DomainSizes(domain) + [|metrics|])
  {
    HashValue(metrics, domain, meta, m, cs);
    EncodeAppend(cs, DomainSizes(domain), FirstIndex(metrics, m), |metrics|);
  }

  /** Distinct assignments have distinct hashes. */
  lemma HashInjective(metrics: seq<string>, domain: Domain, meta: Dict<string, Value>,
                      m1: string, cs1: seq<nat>, m2: string, cs2: seq<nat>)
    requires WellFormed(metrics, domain, meta) && m1 in metrics && m2 in metrics
    requires Digits(cs1, DomainSizes(domain)) && Digits(cs2, DomainSizes(domain))
    requires HashOf(Build(metrics, domain, Some(meta)), m1, Picked(domain, cs1)) ==
      HashOf(Build(metrics, domain, Some(meta)), m2, Picked(domain, cs2))
    ensures m1 == m2 && cs1 == cs2
  {
    var sizes: seq<nat> := DomainSizes(domain);
    var i1, i2 := FirstIndex(metrics, m1), FirstIndex(metrics, m2);
    HashDigits(metrics, domain, meta, m1, cs1);
    HashDigits(metrics, domain, meta, m2, cs2);
    TopDigitsEqual(cs1, i1, cs2, i2, sizes, |metrics|);
  }

  /** Two digit strings with a top digit below `s` that encode alike are equal. */
  lemma TopDigitsEqual(a: seq<nat>, i: nat, b: seq<nat>, j: nat, sizes: seq<nat>, s: nat)
    requires Digits(a, sizes) && Digits(b, sizes) && i < s && j < s
    requires Encode(a + [i], sizes + [s]) == Encode(b + [j], sizes + [s])
    ensures a == b && i == j
  {
    var da, db := a + [i], b + [j];
    assert Digits(da, sizes + [s]);
    assert Digits(db, sizes + [s]);
    EncodeInjective(da, db, sizes + [s]);
    assert da[..|a|] == a && db[..|b|] == b;
    assert da[|a|] == i && db[|b|] == j;
  }

  /** Metadata entry `j` resolves, and adds nothing. */
  lemma MetaTerm(l: Layout, metrics: seq<string>, domain: Domain, meta: Dict<string, Value>, j: nat)
    requires Shaped(l, metrics, domain, meta) && j < |meta|
    ensures Resolvable(l, meta[j]) && Term(l, meta[j]) == 0
  {
    MetaLookup(l, metrics, domain, meta, j);
    assert Keys([(meta[j].1, 0)]) == [meta[j].1];
  }

  /** A parameter that resolves to 0 leaves `hash` as it was. */
  lemma HashZeroTerm(l: Layout, m: string, params: Dict<string, Value>, item: (string, Value))
    requires Resolvable(l, item) && Term(l, item) == 0
    ensures HashOf(l, m, params + [item]) == HashOf(l, m, params)
  {
    assert (params + [item])[..|params|] == params;
  }

  /** A metadata entry adds nothing to the hash. */
  lemma HashIgnoresMetadata(metrics: seq<string>, domain: Domain, meta: Dict<string, Value>,
                            m: string, params: Dict<string, Value>, j: nat)
    requires WellFormed(metrics, domain, meta) && j < |meta|
    ensures var l := Build(metrics, domain, Some(meta));
      HashOf(l, m, params + [meta[j]]) == HashOf(l, m, params)
  {
    var l := Build(metrics, domain, Some(meta));
    BuildShape(metrics, domain, meta);
    MetaTerm(l, metrics, domain, meta, j);
    HashZeroTerm(l, m, params, meta[j]);
  }

  /** The loop raises exactly when some parameter cannot be looked up, and then raises
      `KeyError`. */
  lemma {:induction false} TermsErr(l: Layout, params: Dict<string, Value>)
    ensures Terms(l, params).Err? <==> exists i :: 0 <= i < |params| && !Resolvable(l, params[i])
    ensures Terms(l, params).Err? ==> Terms(l, params).error == KeyError
  {
    if params != [] {
      var n := |params| - 1;
      TermsErr(l, params[..n]);
      if Terms(l, params[..n]).Err? {
        var i :| 0 <= i < n && !Resolvable(l, params[..n][i]);
        assert params[i] == params[..n][i];
      } else if Resolvable(l, params[n]) {
        forall i | 0 <= i < |params| ensures Resolvable(l, params[i]) {
          if i < n {
            assert params[i] == params[..n][i];
          }
        }
      }
    }
  }

  /** `hash` raises `KeyError`, and nothing else, exactly when the metric or some
      parameter cannot be looked up. */
  lemma HashErr(l: Layout, m: string, params: Dict<string, Value>)
    ensures HashOf(l, m, params).Err? <==>
      !HasKey(l.metricInv, m) || exists i :: 0 <= i < |params| && !Resolvable(l, params[i])
    ensures HashOf(l, m, params).Err? ==> HashOf(l, m, params).error == KeyError
  {
    TermsErr(l, params);
  }
}
