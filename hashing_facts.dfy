/** What the hasher promises: for well-formed inputs, `hash` is a bijection
    between metric/parameter assignments and `[0, |metrics| * Π|domain_i|)`,
    `dehash` inverts it on the domain axes, and `get_cons_args` gives back
    the constructor's arguments. */
module HashingFacts {
  import opened Common
  import opened Sorting
  import opened Values
  import opened Radix
  import opened Hashing

  /** Dict comprehensions over `enumerate`: without duplicates each value maps to its position. */
  lemma {:induction false} InverseOfDistinct<T(!new)>(vals: seq<T>)
    requires NoDup(vals)
    ensures Inverse(vals) == Enumerated(vals)
  {
    if vals != [] {
      var n := |vals| - 1;
      InverseOfDistinct(vals[..n]);
      assert vals[n] !in vals[..n];
      assert Enumerated(vals) == Enumerated(vals[..n]) + [(vals[n], n)];
    }
  }

  /** With duplicates, `{p: i for i, p in enumerate(vals)}` keeps the last position of each value. */
  lemma {:induction false} InverseLastIndex<T(!new)>(vals: seq<T>, x: T)
    requires x in vals
    ensures var i := Get(Inverse(vals), x);
      i < |vals| && vals[i] == x && forall j :: i < j < |vals| ==> vals[j] != x
  {
    var n := |vals| - 1;
    PutFacts(Inverse(vals[..n]), vals[n], n);
    if vals[n] != x {
      assert x in vals[..n];
      InverseLastIndex(vals[..n], x);
    }
  }

  lemma InverseAt<T(!new)>(vals: seq<T>, i: nat)
    requires NoDup(vals) && i < |vals|
    ensures HasKey(Inverse(vals), vals[i]) && Get(Inverse(vals), vals[i]) == i
  {
    InverseOfDistinct(vals);
    GetAt(Enumerated(vals), i);
  }

  /** `Get(Inverse(vals), v)` is `vals.index(v)` when `vals` has no duplicates. */
  lemma InverseIsIndex<T(!new)>(vals: seq<T>, v: T)
    requires NoDup(vals) && v in vals
    ensures Get(Inverse(vals), v) == FirstIndex(vals, v)
  {
    InverseAt(vals, FirstIndex(vals, v));
  }

  lemma PairOrder()
    ensures TotalPreorder(PairLe) && Antisymmetric(PairLe)
    ensures TotalPreorder(PairGe) && Antisymmetric(PairGe)
  {
    forall a, b ensures PairLe(a, b) || PairLe(b, a) {
      TextLeTotal(a.1, b.1);
    }
    forall a, b, c | PairLe(a, b) && PairLe(b, c) ensures PairLe(a, c) {
      if a.0 == b.0 == c.0 {
        TextLeTransitive(a.1, b.1, c.1);
      }
    }
    forall a, b | PairLe(a, b) && PairLe(b, a) ensures a == b {
      TextLeAntisymmetric(a.1, b.1);
    }
  }

  /** `sort_back` undoes the enumeration inverse: `sort_back({p: i for i, p in enumerate(vals)}) == vals`. */
  lemma SortBackInverse(vals: seq<string>)
    requires NoDup(vals)
    ensures SortBack(Inverse(vals)) == vals
  {
    InverseOfDistinct(vals);
    var f := Flip(Enumerated(vals));
    assert SortedBy(f, PairLe);
    SortIdentity(f, PairLe);
  }

  /** The inputs the datacube gives the hasher: metric names without
      repetition, a dict of axes whose value lists have no repetition, and a
      dict of metadata whose names are not axes. */
  ghost predicate WellFormed(metrics: seq<string>, domain: Domain, meta: Dict<string, string>) {
    NoDup(metrics) && DistinctKeys(domain) && DistinctKeys(meta) &&
    (forall i :: 0 <= i < |domain| ==> NoDup(domain[i].1)) &&
    (forall x :: HasKey(domain, x) ==> !HasKey(meta, x))
  }

  lemma ItemKeys(metrics: seq<string>, domain: Domain, meta: Dict<string, string>)
    requires WellFormed(metrics, domain, meta)
    ensures Keys(StrideItems(domain)) == Keys(domain) && Keys(InverseItems(domain)) == Keys(domain)
    ensures Keys(ZeroItems(meta)) == Keys(meta) && Keys(SingletonItems(meta)) == Keys(meta)
    ensures forall x :: HasKey(StrideItems(domain), x) ==> !HasKey(ZeroItems(meta), x)
    ensures forall x :: HasKey(InverseItems(domain), x) ==> !HasKey(SingletonItems(meta), x)
  {
    assert Keys(StrideItems(domain)) == Keys(domain) && Keys(InverseItems(domain)) == Keys(domain);
    assert Keys(ZeroItems(meta)) == Keys(meta) && Keys(SingletonItems(meta)) == Keys(meta);
    forall x | x in Keys(domain) ensures x !in Keys(meta) {
      assert HasKey(domain, x);
    }
  }

  /** The tables of a hasher built from disjoint names: axes in mapping order, then the metadata. */
  ghost predicate Shaped(l: Layout, metrics: seq<string>, domain: Domain, meta: Dict<string, string>) {
    l.metricInv == Inverse(metrics) && l.metricStride == Product(DomainSizes(domain)) &&
    l.strides == StrideItems(domain) + ZeroItems(meta) &&
    l.domInv == InverseItems(domain) + SingletonItems(meta) &&
    DistinctKeys(l.strides) && DistinctKeys(l.domInv) &&
    Keys(l.strides) == Keys(domain) + Keys(meta)
  }

  /** With disjoint names, `Hasher.__init__` lays its tables out without overwriting any entry. */
  lemma BuildShape(metrics: seq<string>, domain: Domain, meta: Dict<string, string>)
    requires WellFormed(metrics, domain, meta)
    ensures Shaped(Build(metrics, domain, meta), metrics, domain, meta)
  {
    ItemKeys(metrics, domain, meta);
    KeysConcat(StrideItems(domain), ZeroItems(meta));
    DisjointKeys(StrideItems(domain), ZeroItems(meta));
    DisjointKeys(InverseItems(domain), SingletonItems(meta));
    PutAllFresh([], StrideItems(domain));
    PutAllFresh([], InverseItems(domain));
    assert [] + StrideItems(domain) == StrideItems(domain);
    assert [] + InverseItems(domain) == InverseItems(domain);
    PutAllFresh(StrideItems(domain), ZeroItems(meta));
    PutAllFresh(InverseItems(domain), SingletonItems(meta));
  }

  /** Axis `i`'s stride is the product of the sizes of the axes before it; its inverse maps its values. */
  lemma AxisLookup(l: Layout, metrics: seq<string>, domain: Domain, meta: Dict<string, string>, i: nat)
    requires Shaped(l, metrics, domain, meta) && i < |domain|
    ensures HasKey(l.strides, domain[i].0) && Get(l.strides, domain[i].0) == Weight(DomainSizes(domain), i)
    ensures HasKey(l.domInv, domain[i].0) && Get(l.domInv, domain[i].0) == Inverse(domain[i].1)
  {
    GetAt(l.strides, i);
    GetAt(l.domInv, i);
  }

  /** A metadata name has stride 0 and the single value `{value: 0}`. */
  lemma MetaLookup(l: Layout, metrics: seq<string>, domain: Domain, meta: Dict<string, string>, j: nat)
    requires Shaped(l, metrics, domain, meta) && j < |meta|
    ensures HasKey(l.strides, meta[j].0) && Get(l.strides, meta[j].0) == 0
    ensures HasKey(l.domInv, meta[j].0) && Get(l.domInv, meta[j].0) == Inverse([meta[j].1])
  {
    GetAt(l.strides, |domain| + j);
    GetAt(l.domInv, |domain| + j);
  }

  /** `hash` demands one value per axis and metadata name: any other count raises IndexError. */
  lemma HashArity(metrics: seq<string>, domain: Domain, meta: Dict<string, string>, m: string, params: Dict<string, string>)
    requires WellFormed(metrics, domain, meta)
    requires |params| != |domain| + |meta|
    ensures HashOf(Build(metrics, domain, meta), m, params) == Err(IndexError)
  {
    BuildShape(metrics, domain, meta);
  }

  /** An unknown metric raises KeyError once the number of parameters is right. */
  lemma HashUnknownMetric(metrics: seq<string>, domain: Domain, meta: Dict<string, string>, m: string, params: Dict<string, string>)
    requires WellFormed(metrics, domain, meta)
    requires |params| == |domain| + |meta| && m !in metrics
    ensures HashOf(Build(metrics, domain, meta), m, params) == Err(KeyError)
  {
    BuildShape(metrics, domain, meta);
  }

  /** A metric and one in-domain value per axis, the metadata values for the metadata names, and nothing else. */
  predicate ValidKey(metrics: seq<string>, domain: Domain, meta: Dict<string, string>, m: string, params: Dict<string, string>) {
    m in metrics && DistinctKeys(params) && |params| == |domain| + |meta| &&
    (forall i :: 0 <= i < |domain| ==> HasKey(params, domain[i].0) && Get(params, domain[i].0) in domain[i].1) &&
    (forall j :: 0 <= j < |meta| ==> HasKey(params, meta[j].0) && Get(params, meta[j].0) == meta[j].1)
  }

  /** Position of each axis's value in the axis. */
  function Codes(domain: Domain, params: Dict<string, string>): (cs: seq<nat>)
    requires forall i :: 0 <= i < |domain| ==> HasKey(params, domain[i].0) && Get(params, domain[i].0) in domain[i].1
    ensures Digits(cs, DomainSizes(domain))
    ensures forall i :: 0 <= i < |domain| ==> domain[i].1[cs[i]] == Get(params, domain[i].0)
  {
    seq(|domain|, i requires 0 <= i < |domain| && HasKey(params, domain[i].0) && Get(params, domain[i].0) in domain[i].1 =>
      FirstIndex(domain[i].1, Get(params, domain[i].0)))
  }

  /** A valid key names exactly the axes and the metadata. */
  lemma ValidKeyNames(metrics: seq<string>, domain: Domain, meta: Dict<string, string>, m: string, params: Dict<string, string>)
    requires WellFormed(metrics, domain, meta) && ValidKey(metrics, domain, meta, m, params)
    ensures forall x :: HasKey(params, x) <==> HasKey(domain, x) || HasKey(meta, x)
    ensures multiset(Keys(params)) == multiset(Keys(domain) + Keys(meta))
  {
    ItemKeys(metrics, domain, meta);
    DisjointKeys(StrideItems(domain), ZeroItems(meta));
    KeysConcat(StrideItems(domain), ZeroItems(meta));
    var names := Keys(domain) + Keys(meta);
    forall x | x in names ensures x in Keys(params) {
      if x in Keys(domain) {
        var i :| 0 <= i < |domain| && Keys(domain)[i] == x;
      } else {
        var j :| 0 <= j < |meta| && Keys(meta)[j] == x;
      }
    }
    NoDupSubsetEqual(names, Keys(params));
    SameElementsPermutation(Keys(params), names);
  }

  lemma {:induction false} TermSumIsSum(l: Layout, items: Dict<string, string>)
    ensures TermSum(l, items) == SumOf(items, (item: (string, string)) => Term(l, item))
  {
    if items != [] {
      TermSumIsSum(l, items[..|items| - 1]);
    }
  }

  lemma {:induction false} SumZero<T>(s: seq<T>, f: T -> int)
    requires forall i :: 0 <= i < |s| ==> f(s[i]) == 0
    ensures SumOf(s, f) == 0
  {
    if s != [] {
      SumZero(s[..|s| - 1], f);
    }
  }

  /** The term of name `x` in `params`. */
  function NameTerm(l: Layout, params: Dict<string, string>, x: string): int {
    if HasKey(params, x) then Term(l, (x, Get(params, x))) else 0
  }

  /** Axis `k` contributes its stride times the position of its value. */
  lemma AxisTerm(l: Layout, metrics: seq<string>, domain: Domain, meta: Dict<string, string>, m: string, params: Dict<string, string>, k: nat)
    requires Shaped(l, metrics, domain, meta) && WellFormed(metrics, domain, meta)
    requires ValidKey(metrics, domain, meta, m, params) && k < |domain|
    ensures NameTerm(l, params, domain[k].0) == Weight(DomainSizes(domain), k) * Codes(domain, params)[k]
  {
    AxisLookup(l, metrics, domain, meta, k);
    InverseIsIndex(domain[k].1, Get(params, domain[k].0));
  }

  /** Summing over the axes in mapping order gives the mixed-radix encoding of the codes. */
  lemma {:induction false} AxisSum(l: Layout, metrics: seq<string>, domain: Domain, meta: Dict<string, string>, m: string, params: Dict<string, string>, n: nat)
    requires Shaped(l, metrics, domain, meta) && WellFormed(metrics, domain, meta)
    requires ValidKey(metrics, domain, meta, m, params) && n <= |domain|
    ensures SumOf(Keys(domain)[..n], x => NameTerm(l, params, x)) ==
      Encode(Codes(domain, params)[..n], DomainSizes(domain)[..n])
  {
    if n > 0 {
      var k := n - 1;
      AxisSum(l, metrics, domain, meta, m, params, k);
      AxisTerm(l, metrics, domain, meta, m, params, k);
      SumPrefixStep(Keys(domain), x => NameTerm(l, params, x), k);
      EncodePrefixStep(Codes(domain, params), DomainSizes(domain), k);
    }
  }

  /** Every item of a valid key resolves to an axis value or a metadata value. */
  lemma ValidKeyResolves(l: Layout, metrics: seq<string>, domain: Domain, meta: Dict<string, string>, m: string, params: Dict<string, string>)
    requires Shaped(l, metrics, domain, meta) && WellFormed(metrics, domain, meta)
    requires ValidKey(metrics, domain, meta, m, params)
    ensures forall i :: 0 <= i < |params| ==> Resolvable(l, params[i])
  {
    ValidKeyNames(metrics, domain, meta, m, params);
    forall i | 0 <= i < |params| ensures Resolvable(l, params[i]) {
      GetAt(params, i);
      var x := params[i].0;
      if HasKey(domain, x) {
        AxisLookup(l, metrics, domain, meta, Common.Slot(domain, x));
      } else {
        MetaLookup(l, metrics, domain, meta, Common.Slot(meta, x));
      }
    }
  }

  /** The term sum of a valid key, taken in any order, is the sum over the axis names. */
  lemma TermSumByAxes(l: Layout, metrics: seq<string>, domain: Domain, meta: Dict<string, string>, m: string, params: Dict<string, string>)
    requires Shaped(l, metrics, domain, meta) && WellFormed(metrics, domain, meta)
    requires ValidKey(metrics, domain, meta, m, params)
    ensures TermSum(l, params) == SumOf(Keys(domain), x => NameTerm(l, params, x))
  {
    var g := (x: string) => NameTerm(l, params, x);
    TermSumIsSum(l, params);
    forall i | 0 <= i < |params| ensures Term(l, params[i]) == g(Keys(params)[i]) {
      GetAt(params, i);
    }
    SumPointwise(params, (item: (string, string)) => Term(l, item), Keys(params), g);
    ValidKeyNames(metrics, domain, meta, m, params);
    SumPermutation(Keys(params), Keys(domain) + Keys(meta), g);
    SumConcat(Keys(domain), Keys(meta), g);
    forall j | 0 <= j < |meta| ensures g(Keys(meta)[j]) == 0 {
      MetaLookup(l, metrics, domain, meta, j);
    }
    SumZero(Keys(meta), g);
  }

  /** The flat index of a valid key: value positions as mixed-radix digits, the metric most significant. */
  function KeyIndex(metrics: seq<string>, domain: Domain, m: string, params: Dict<string, string>): nat
    requires m in metrics
    requires forall i :: 0 <= i < |domain| ==> HasKey(params, domain[i].0) && Get(params, domain[i].0) in domain[i].1
  {
    Encode(Codes(domain, params) + [FirstIndex(metrics, m)], DomainSizes(domain) + [|metrics|])
  }

  lemma HashValueOf(l: Layout, metrics: seq<string>, domain: Domain, meta: Dict<string, string>, m: string, params: Dict<string, string>)
    requires Shaped(l, metrics, domain, meta) && WellFormed(metrics, domain, meta)
    requires ValidKey(metrics, domain, meta, m, params)
    ensures HashOf(l, m, params) == Ok(KeyIndex(metrics, domain, m, params))
  {
    ValidKeyResolves(l, metrics, domain, meta, m, params);
    InverseIsIndex(metrics, m);
    AxisTotal(l, metrics, domain, meta, m, params);
    var c, w, e := FirstIndex(metrics, m), Product(DomainSizes(domain)), Encode(Codes(domain, params), DomainSizes(domain));
    HashOfResolved(l, m, params, c, w, e);
    KeyIndexTop(metrics, domain, m, params);
    Combine(HashOf(l, m, params), KeyIndex(metrics, domain, m, params), c, w, e);
  }

  lemma Combine(h: Result<nat>, k: nat, c: nat, w: nat, e: nat)
    requires h == Ok(c * w + e) && k == w * c + e
    ensures h == Ok(k)
  {
  }

  /** The metric digit weighs the product of all the axis sizes. */
  lemma KeyIndexTop(metrics: seq<string>, domain: Domain, m: string, params: Dict<string, string>)
    requires m in metrics
    requires forall i :: 0 <= i < |domain| ==> HasKey(params, domain[i].0) && Get(params, domain[i].0) in domain[i].1
    ensures KeyIndex(metrics, domain, m, params) ==
      Product(DomainSizes(domain)) * FirstIndex(metrics, m) + Encode(Codes(domain, params), DomainSizes(domain))
  {
    EncodeAppend(Codes(domain, params), DomainSizes(domain), FirstIndex(metrics, m), |metrics|);
  }

  lemma HashOfResolved(l: Layout, m: string, params: Dict<string, string>, c: nat, w: nat, t: nat)
    requires |params| == |l.strides| && HasKey(l.metricInv, m)
    requires forall i :: 0 <= i < |params| ==> Resolvable(l, params[i])
    requires Get(l.metricInv, m) == c && l.metricStride == w && TermSum(l, params) == t
    ensures HashOf(l, m, params) == Ok(c * w + t)
  {
  }

  lemma AxisTotal(l: Layout, metrics: seq<string>, domain: Domain, meta: Dict<string, string>, m: string, params: Dict<string, string>)
    requires Shaped(l, metrics, domain, meta) && WellFormed(metrics, domain, meta)
    requires ValidKey(metrics, domain, meta, m, params)
    ensures TermSum(l, params) == Encode(Codes(domain, params), DomainSizes(domain))
  {
    TermSumByAxes(l, metrics, domain, meta, m, params);
    AxisSum(l, metrics, domain, meta, m, params, |domain|);
    assert Keys(domain)[..|domain|] == Keys(domain);
    assert Codes(domain, params)[..|domain|] == Codes(domain, params);
    assert DomainSizes(domain)[..|domain|] == DomainSizes(domain);
  }

  /** For a valid key, `hash` is its flat index: the value positions as mixed-radix digits, the
      first axis varying fastest and the metric most significant. */
  lemma HashValue(metrics: seq<string>, domain: Domain, meta: Dict<string, string>, m: string, params: Dict<string, string>)
    requires WellFormed(metrics, domain, meta) && ValidKey(metrics, domain, meta, m, params)
    ensures HashOf(Build(metrics, domain, meta), m, params) == Ok(KeyIndex(metrics, domain, m, params))
  {
    BuildShape(metrics, domain, meta);
    HashValueOf(Build(metrics, domain, meta), metrics, domain, meta, m, params);
  }

  /** The hash of a valid key lies in `[0, |metrics| * Π|domain_i|)`. */
  lemma HashRange(metrics: seq<string>, domain: Domain, meta: Dict<string, string>, m: string, params: Dict<string, string>)
    requires WellFormed(metrics, domain, meta) && ValidKey(metrics, domain, meta, m, params)
    ensures var h := HashOf(Build(metrics, domain, meta), m, params);
      h.Ok? && h.value < |metrics| * Product(DomainSizes(domain))
  {
    HashValue(metrics, domain, meta, m, params);
    KeyIndexBound(metrics, domain, m, params);
  }

  lemma KeyIndexBound(metrics: seq<string>, domain: Domain, m: string, params: Dict<string, string>)
    requires m in metrics
    requires forall i :: 0 <= i < |domain| ==> HasKey(params, domain[i].0) && Get(params, domain[i].0) in domain[i].1
    ensures KeyIndex(metrics, domain, m, params) < |metrics| * Product(DomainSizes(domain))
  {
    var sizes := DomainSizes(domain) + [|metrics|];
    var cs := Codes(domain, params) + [FirstIndex(metrics, m)];
    assert Digits(cs, sizes);
    EncodeBound(cs, sizes);
    ProductAppend(DomainSizes(domain), |metrics|);
  }

  /** Equal hashes of valid keys have equal digits. */
  lemma HashDigitsEqual(metrics: seq<string>, domain: Domain, meta: Dict<string, string>,
                        m1: string, p1: Dict<string, string>, m2: string, p2: Dict<string, string>)
    requires WellFormed(metrics, domain, meta)
    requires ValidKey(metrics, domain, meta, m1, p1) && ValidKey(metrics, domain, meta, m2, p2)
    requires HashOf(Build(metrics, domain, meta), m1, p1) == HashOf(Build(metrics, domain, meta), m2, p2)
    ensures Codes(domain, p1) == Codes(domain, p2) && FirstIndex(metrics, m1) == FirstIndex(metrics, m2)
  {
    HashValue(metrics, domain, meta, m1, p1);
    HashValue(metrics, domain, meta, m2, p2);
    IndexDigitsEqual(metrics, domain, m1, p1, m2, p2);
  }

  /** Equal indices of keys that pick a value on every axis have equal digits. */
  lemma IndexDigitsEqual(metrics: seq<string>, domain: Domain, m1: string, p1: Dict<string, string>, m2: string, p2: Dict<string, string>)
    requires m1 in metrics && m2 in metrics
    requires forall i :: 0 <= i < |domain| ==> HasKey(p1, domain[i].0) && Get(p1, domain[i].0) in domain[i].1
    requires forall i :: 0 <= i < |domain| ==> HasKey(p2, domain[i].0) && Get(p2, domain[i].0) in domain[i].1
    requires KeyIndex(metrics, domain, m1, p1) == KeyIndex(metrics, domain, m2, p2)
    ensures Codes(domain, p1) == Codes(domain, p2) && FirstIndex(metrics, m1) == FirstIndex(metrics, m2)
  {
    var sizes := DomainSizes(domain) + [|metrics|];
    var c1 := Codes(domain, p1) + [FirstIndex(metrics, m1)];
    var c2 := Codes(domain, p2) + [FirstIndex(metrics, m2)];
    assert Digits(c1, sizes) && Digits(c2, sizes);
    EncodeInjective(c1, c2, sizes);
    assert c1[..|domain|] == Codes(domain, p1) && c2[..|domain|] == Codes(domain, p2);
  }

  /** Valid keys with the same digits are the same key. */
  lemma DigitsDetermineKey(metrics: seq<string>, domain: Domain, meta: Dict<string, string>,
                           m1: string, p1: Dict<string, string>, m2: string, p2: Dict<string, string>)
    requires WellFormed(metrics, domain, meta)
    requires ValidKey(metrics, domain, meta, m1, p1) && ValidKey(metrics, domain, meta, m2, p2)
    requires Codes(domain, p1) == Codes(domain, p2) && FirstIndex(metrics, m1) == FirstIndex(metrics, m2)
    ensures m1 == m2
    ensures forall x :: HasKey(p1, x) <==> HasKey(p2, x)
    ensures forall x :: HasKey(p1, x) ==> Get(p1, x) == Get(p2, x)
  {
    ValidKeyNames(metrics, domain, meta, m1, p1);
    ValidKeyNames(metrics, domain, meta, m2, p2);
    forall x | HasKey(p1, x) ensures Get(p1, x) == Get(p2, x) {
      if HasKey(domain, x) {
        var k := Common.Slot(domain, x);
        assert Codes(domain, p1)[k] == Codes(domain, p2)[k];
      } else {
        var j := Common.Slot(meta, x);
      }
    }
  }

  /** Two valid keys with the same hash name the same metric and the same values. */
  lemma HashInjective(metrics: seq<string>, domain: Domain, meta: Dict<string, string>,
                      m1: string, p1: Dict<string, string>, m2: string, p2: Dict<string, string>)
    requires WellFormed(metrics, domain, meta)
    requires ValidKey(metrics, domain, meta, m1, p1) && ValidKey(metrics, domain, meta, m2, p2)
    requires HashOf(Build(metrics, domain, meta), m1, p1) == HashOf(Build(metrics, domain, meta), m2, p2)
    ensures m1 == m2
    ensures forall x :: HasKey(p1, x) <==> HasKey(p2, x)
    ensures forall x :: HasKey(p1, x) ==> Get(p1, x) == Get(p2, x)
  {
    HashDigitsEqual(metrics, domain, meta, m1, p1, m2, p2);
    DigitsDetermineKey(metrics, domain, meta, m1, p1, m2, p2);
  }

  /** The valid key whose value positions are the digits `cs`. */
  function KeyOf(metrics: seq<string>, domain: Domain, meta: Dict<string, string>, cs: seq<nat>): (r: (string, Dict<string, string>))
    requires Digits(cs, DomainSizes(domain) + [|metrics|])
  {
    var k := |domain|;
    (metrics[cs[k]], seq(k, i requires 0 <= i < k => (domain[i].0, domain[i].1[cs[i]])) + meta)
  }

  /** The key decoded from digits has distinct names, each axis with the value its digit
      picks, and every metadatum unchanged. */
  lemma KeyOfEntries(metrics: seq<string>, domain: Domain, meta: Dict<string, string>, cs: seq<nat>)
    requires WellFormed(metrics, domain, meta) && Digits(cs, DomainSizes(domain) + [|metrics|])
    ensures var params := KeyOf(metrics, domain, meta, cs).1;
      DistinctKeys(params) && |params| == |domain| + |meta| &&
      (forall i :: 0 <= i < |domain| ==> HasKey(params, domain[i].0) && Get(params, domain[i].0) == domain[i].1[cs[i]]) &&
      (forall j :: 0 <= j < |meta| ==> HasKey(params, meta[j].0) && Get(params, meta[j].0) == meta[j].1)
  {
    var params := KeyOf(metrics, domain, meta, cs).1;
    KeyOfDistinct(metrics, domain, meta, cs);
    KeyOfAxes(domain, cs, params);
    KeyOfMeta(|domain|, meta, params);
  }

  /** Each axis name is bound to the value its digit picks, in a key whose first entries
      are the picked values. */
  lemma KeyOfAxes(domain: Domain, cs: seq<nat>, params: Dict<string, string>)
    requires DistinctKeys(params) && |domain| <= |params| && |domain| <= |cs|
    requires forall i :: 0 <= i < |domain| ==> cs[i] < |domain[i].1| && params[i] == (domain[i].0, domain[i].1[cs[i]])
    ensures forall i :: 0 <= i < |domain| ==> HasKey(params, domain[i].0) && Get(params, domain[i].0) == domain[i].1[cs[i]]
  {
    forall i | 0 <= i < |domain| ensures HasKey(params, domain[i].0) && Get(params, domain[i].0) == domain[i].1[cs[i]] {
      EntryAt(params, i, domain[i].0, domain[i].1[cs[i]]);
    }
  }

  /** Each metadatum is bound to its value, in a key whose entries from `k` on are the metadata. */
  lemma KeyOfMeta(k: nat, meta: Dict<string, string>, params: Dict<string, string>)
    requires DistinctKeys(params) && |params| == k + |meta|
    requires forall j :: 0 <= j < |meta| ==> params[k + j] == meta[j]
    ensures forall j :: 0 <= j < |meta| ==> HasKey(params, meta[j].0) && Get(params, meta[j].0) == meta[j].1
  {
    forall j | 0 <= j < |meta| ensures HasKey(params, meta[j].0) && Get(params, meta[j].0) == meta[j].1 {
      EntryAt(params, k + j, meta[j].0, meta[j].1);
    }
  }

  /** The entry at position `i` of a dictionary with distinct keys is what `d[name]` finds. */
  lemma EntryAt(d: Dict<string, string>, i: nat, name: string, v: string)
    requires DistinctKeys(d) && i < |d| && d[i] == (name, v)
    ensures HasKey(d, name) && Get(d, name) == v
  {
    GetAt(d, i);
  }

  /** The key decoded from digits is the picked axis values followed by the metadata, with
      distinct names. */
  lemma KeyOfDistinct(metrics: seq<string>, domain: Domain, meta: Dict<string, string>, cs: seq<nat>)
    requires WellFormed(metrics, domain, meta) && Digits(cs, DomainSizes(domain) + [|metrics|])
    ensures var params := KeyOf(metrics, domain, meta, cs).1;
      DistinctKeys(params) && |params| == |domain| + |meta| &&
      (forall i :: 0 <= i < |domain| ==> params[i] == (domain[i].0, domain[i].1[cs[i]])) &&
      (forall j :: 0 <= j < |meta| ==> params[|domain| + j] == meta[j])
  {
    var k := |domain|;
    var params := KeyOf(metrics, domain, meta, cs).1;
    var picked := params[..k];
    assert params == picked + meta;
    assert Keys(picked) == Keys(domain);
    forall x | HasKey(picked, x) ensures !HasKey(meta, x) {
      assert HasKey(domain, x);
    }
    DisjointKeys(picked, meta);
  }

  /** Decoding digits that are in range gives a valid key whose digits they are. */
  lemma KeyOfValid(metrics: seq<string>, domain: Domain, meta: Dict<string, string>, cs: seq<nat>)
    requires WellFormed(metrics, domain, meta) && Digits(cs, DomainSizes(domain) + [|metrics|])
    ensures var (m, params) := KeyOf(metrics, domain, meta, cs);
      ValidKey(metrics, domain, meta, m, params) && Codes(domain, params) + [FirstIndex(metrics, m)] == cs
  {
    var k := |domain|;
    var (m, params) := KeyOf(metrics, domain, meta, cs);
    KeyOfEntries(metrics, domain, meta, cs);
    var codes := Codes(domain, params);
    forall i | 0 <= i < k ensures codes[i] == cs[i] {
      assert domain[i].1[codes[i]] == domain[i].1[cs[i]];
    }
    assert FirstIndex(metrics, m) == cs[k];
    SnocEq(codes, FirstIndex(metrics, m), cs);
  }

  /** A sequence is its first elements followed by its last one. */
  lemma SnocEq(a: seq<nat>, x: nat, s: seq<nat>)
    requires |s| == |a| + 1 && s[|a|] == x && forall i :: 0 <= i < |a| ==> a[i] == s[i]
    ensures a + [x] == s
  {
  }

  /** Every index in `[0, |metrics| * Π|domain_i|)` is the hash of some valid key. */
  lemma HashOnto(metrics: seq<string>, domain: Domain, meta: Dict<string, string>, x: nat)
    returns (m: string, params: Dict<string, string>)
    requires WellFormed(metrics, domain, meta)
    requires x < |metrics| * Product(DomainSizes(domain))
    ensures ValidKey(metrics, domain, meta, m, params)
    ensures HashOf(Build(metrics, domain, meta), m, params) == Ok(x)
  {
    var sizes := DomainSizes(domain) + [|metrics|];
    ProductAppend(DomainSizes(domain), |metrics|);
    var cs := EncodeOnto(x, sizes);
    KeyOfValid(metrics, domain, meta, cs);
    m, params := KeyOf(metrics, domain, meta, cs).0, KeyOf(metrics, domain, meta, cs).1;
    HashValue(metrics, domain, meta, m, params);
  }

  /** Every axis has at least one value. */
  predicate Inhabited(domain: Domain) {
    forall i :: 0 <= i < |domain| ==> |domain[i].1| >= 1
  }

  lemma AxisStridePositive(domain: Domain, i: nat)
    requires Inhabited(domain) && i <= |domain|
    ensures Weight(DomainSizes(domain), i) >= 1
    decreases i
  {
    if i > 0 {
      AxisStridePositive(domain, i - 1);
      WeightStep(DomainSizes(domain), i - 1);
      MulMonotonic(Weight(DomainSizes(domain), i - 1), 1, |domain[i - 1].1|);
    }
  }

  /** Every axis has a positive stride in `strides`. */
  predicate AxesStrided(strides: Dict<string, nat>, domain: Domain) {
    forall i :: 0 <= i < |domain| ==> HasKey(strides, domain[i].0) && Get(strides, domain[i].0) >= 1
  }

  /** Every metadata name has stride 0 in `strides`. */
  predicate MetaUnstrided(strides: Dict<string, nat>, meta: Dict<string, string>) {
    forall j :: 0 <= j < |meta| ==> HasKey(strides, meta[j].0) && Get(strides, meta[j].0) == 0
  }

  /** The axis part of `get_cons_args`'s loop rebuilds the domain mapping, entry by entry. */
  lemma {:induction false} ConsSplitAxes(l: Layout, domain: Domain, tail: Dict<string, Dict<string, nat>>,
                                         meta: Dict<string, string>, n: nat)
    requires AxesStrided(l.strides, domain) && DistinctKeys(domain)
    requires forall i :: 0 <= i < |domain| ==> NoDup(domain[i].1)
    requires n <= |domain|
    ensures ConsSplit(l, InverseItems(domain)[n..] + tail, domain[..n], meta) == ConsSplit(l, tail, domain, meta)
    decreases |domain| - n
  {
    if n < |domain| {
      var items := InverseItems(domain)[n..] + tail;
      assert items[0] == (domain[n].0, Inverse(domain[n].1));
      assert items[1..] == InverseItems(domain)[n + 1..] + tail;
      SortBackInverse(domain[n].1);
      DistinctKeysPrefix(domain, n);
      assert domain[..n + 1] == domain[..n] + [domain[n]];
      ConsSplitAxes(l, domain, tail, meta, n + 1);
    } else {
      assert InverseItems(domain)[n..] + tail == tail;
      assert domain[..n] == domain;
    }
  }

  /** The metadata part of the loop rebuilds the metadata mapping. */
  lemma {:induction false} ConsSplitMeta(l: Layout, domain: Domain, meta: Dict<string, string>, j: nat)
    requires MetaUnstrided(l.strides, meta) && DistinctKeys(meta)
    requires j <= |meta|
    ensures ConsSplit(l, SingletonItems(meta)[j..], domain, meta[..j]) == Ok((domain, meta))
    decreases |meta| - j
  {
    if j < |meta| {
      var items := SingletonItems(meta)[j..];
      assert items[0] == (meta[j].0, Inverse([meta[j].1]));
      assert items[1..] == SingletonItems(meta)[j + 1..];
      SortBackInverse([meta[j].1]);
      DistinctKeysPrefix(meta, j);
      assert meta[..j + 1] == meta[..j] + [meta[j]];
      ConsSplitMeta(l, domain, meta, j + 1);
    } else {
      assert meta[..j] == meta;
    }
  }

  /** `get_cons_args` returns the arguments the hasher was built from, with `None` for no metadata,
      so `Hasher(*h.get_cons_args())` rebuilds `h`. */
  lemma ConsArgsRoundTrip(metrics: seq<string>, domain: Domain, meta: Dict<string, string>)
    requires WellFormed(metrics, domain, meta) && Inhabited(domain)
    ensures ConsArgsOf(Build(metrics, domain, meta)) == Ok((metrics, domain, if meta == [] then None else Some(meta)))
  {
    var l := Build(metrics, domain, meta);
    BuildShape(metrics, domain, meta);
    SortBackInverse(metrics);
    forall i | 0 <= i < |domain|
      ensures HasKey(l.strides, domain[i].0) && Get(l.strides, domain[i].0) >= 1
    {
      AxisLookup(l, metrics, domain, meta, i);
      AxisStridePositive(domain, i);
    }
    forall j | 0 <= j < |meta|
      ensures HasKey(l.strides, meta[j].0) && Get(l.strides, meta[j].0) == 0
    {
      MetaLookup(l, metrics, domain, meta, j);
    }
    ConsSplitAxes(l, domain, SingletonItems(meta), [], 0);
    assert InverseItems(domain)[0..] + SingletonItems(meta) == l.domInv;
    assert domain[..0] == [];
    ConsSplitMeta(l, domain, meta, 0);
    assert SingletonItems(meta)[0..] == SingletonItems(meta) && meta[..0] == [];
  }

  lemma ItemsConcat(meta: Dict<string, string>, kwargs: Dict<string, string>)
    ensures ZeroItems(meta + kwargs) == ZeroItems(meta) + ZeroItems(kwargs)
    ensures SingletonItems(meta + kwargs) == SingletonItems(meta) + SingletonItems(kwargs)
  {
  }

  /** Two calls of `add_metadata` lay out what one call with both mappings does. */
  lemma MetadataConcat(l: Layout, meta: Dict<string, string>, kwargs: Dict<string, string>)
    ensures WithMetadata(WithMetadata(l, meta), kwargs) == WithMetadata(l, meta + kwargs)
  {
    PutAllConcat(l.strides, ZeroItems(meta), ZeroItems(kwargs));
    PutAllConcat(l.domInv, SingletonItems(meta), SingletonItems(kwargs));
    ItemsConcat(meta, kwargs);
  }

  /** `add_metadata(**kwargs)` after construction lays out the same tables as passing the
      metadata to the constructor. */
  lemma AddMetadataBuild(metrics: seq<string>, domain: Domain, meta: Dict<string, string>, kwargs: Dict<string, string>)
    ensures WithMetadata(Build(metrics, domain, meta), kwargs) == Build(metrics, domain, meta + kwargs)
  {
    MetadataConcat(Bare(metrics, domain), meta, kwargs);
  }

  /** Adding metadata moves no index: a key extended with the new metadata values hashes where it did. */
  lemma AddMetadataHash(metrics: seq<string>, domain: Domain, meta: Dict<string, string>, kwargs: Dict<string, string>,
                        m: string, params: Dict<string, string>)
    requires WellFormed(metrics, domain, meta + kwargs) && ValidKey(metrics, domain, meta + kwargs, m, params)
    ensures HashOf(WithMetadata(Build(metrics, domain, meta), kwargs), m, params) == Ok(KeyIndex(metrics, domain, m, params))
  {
    AddMetadataBuild(metrics, domain, meta, kwargs);
    HashValue(metrics, domain, meta + kwargs, m, params);
  }
}
