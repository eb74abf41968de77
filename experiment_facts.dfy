/** What the legacy experiment promises: `add_params` leaves every list sorted and holding
    exactly the values given, metadata and domain split the names by list length, the
    iteration yields `len(experiment)` labelled points of the cartesian product, and a
    lookup by index or by label finds the point the iteration yields there. */
module ExperimentFacts {
  import opened Common
  import opened Sorting
  import opened Values
  import opened Cartesian
  import opened Experiments
  import ParamSets

  // ---------------------------------------------------------------- add_params

  lemma KeysLast<K, V>(d: Dict<K, V>)
    requires d != []
    ensures Keys(d) == Keys(d[..|d| - 1]) + [d[|d| - 1].0]
  {
  }

  /** After `add_params(**kwargs)` a name has a list exactly when it had one or is a keyword;
      a keyword's list is sorted and holds its old values and the new ones; any other list
      is unchanged. */
  lemma AddedFacts(ps: Params, kwargs: Dict<string, Value>, k: string)
    requires DistinctKeys(kwargs)
    ensures var r := Added(ps, kwargs);
      (HasKey(r, k) <==> HasKey(ps, k) || HasKey(kwargs, k)) &&
      (HasKey(kwargs, k) ==>
        SortedBy(Get(r, k), Le) &&
        multiset(Get(r, k)) == multiset(ListOf(ps, k)) + multiset(ParamSets.ValuesOf(Get(kwargs, k)))) &&
      (!HasKey(kwargs, k) ==> ListOf(r, k) == ListOf(ps, k))
  {
    AddedList(ps, kwargs, k);
  }

  /** Each keyword's list is its old list with its values, sorted once. */
  lemma {:induction false} AddedList(ps: Params, kwargs: Dict<string, Value>, k: string)
    requires DistinctKeys(kwargs)
    ensures var r := Added(ps, kwargs);
      (HasKey(r, k) <==> HasKey(ps, k) || HasKey(kwargs, k)) &&
      (HasKey(kwargs, k) ==> ListOf(r, k) == Sorted(ListOf(ps, k) + ParamSets.ValuesOf(Get(kwargs, k)))) &&
      (!HasKey(kwargs, k) ==> ListOf(r, k) == ListOf(ps, k))
  {
    if kwargs != [] {
      var n := |kwargs| - 1;
      var pre := kwargs[..n];
      var p := Added(ps, pre);
      var kn := kwargs[n].0;
      DistinctKeysPrefix(kwargs, n);
      AddedList(ps, pre, k);
      AddedList(ps, pre, kn);
      PutFacts(p, kn, Sorted(ListOf(p, kn) + ParamSets.ValuesOf(kwargs[n].1)));
      KeysLast(kwargs);
      GetAt(kwargs, n);
      if k != kn && HasKey(pre, k) {
        GetPrefix(kwargs, n, k);
      }
    }
  }

  /** `add_params` keeps the names distinct. */
  lemma {:induction false} AddedDistinct(ps: Params, kwargs: Dict<string, Value>)
    requires DistinctKeys(ps)
    ensures DistinctKeys(Added(ps, kwargs))
  {
    if kwargs != [] {
      var n := |kwargs| - 1;
      var p := Added(ps, kwargs[..n]);
      AddedDistinct(ps, kwargs[..n]);
      PutFacts(p, kwargs[n].0, Sorted(ListOf(p, kwargs[n].0) + ParamSets.ValuesOf(kwargs[n].1)));
    }
  }

  // ---------------------------------------------------------------- get_metadata / get_domain

  /** A name is metadata exactly when it has one value, which is its metadata value, and
      is a domain name exactly when it has more than one; a name with no value is neither. */
  lemma {:induction false} SplitFacts(ps: Params, k: string)
    requires DistinctKeys(ps)
    ensures HasKey(Metadata(ps), k) <==> HasKey(ps, k) && |Get(ps, k)| == 1
    ensures HasKey(Metadata(ps), k) ==> Get(Metadata(ps), k) == Get(ps, k)[0]
    ensures HasKey(Domain(ps), k) <==> HasKey(ps, k) && |Get(ps, k)| > 1
    ensures HasKey(Domain(ps), k) ==> Get(Domain(ps), k) == Get(ps, k)
  {
    if ps != [] {
      var n := |ps| - 1;
      var pre := ps[..n];
      var kn := ps[n].0;
      DistinctKeysPrefix(ps, n);
      SplitFacts(pre, k);
      SplitFacts(pre, kn);
      KeysLast(ps);
      GetAt(ps, n);
      PutFacts(Metadata(pre), kn, if |ps[n].1| == 1 then ps[n].1[0] else Num(0));
      PutFacts(Domain(pre), kn, ps[n].1);
      if k != kn && HasKey(pre, k) {
        GetPrefix(ps, n, k);
      }
    }
  }

  // ---------------------------------------------------------------- __len__ and __iter__

  /** The length of the list a name has, or 0. */
  function LengthOf(ps: Params): string -> nat {
    (k: string) => if HasKey(ps, k) then |Get(ps, k)| else 0
  }

  /** `len(experiment)` is the number of points `__iter__` yields. */
  lemma PointsCount(name: string, ps: Params)
    requires ps != [] && DistinctKeys(ps)
    ensures Points(name, ps).Ok? && |Points(name, ps).value| == Size(ps)
  {
    var ks := SortedKeys(ps);
    var cols := Columns(ps, ks);
    var f := LengthOf(ps);
    CartSize(cols);
    assert Sizes(cols) == Map(ks, f);
    forall i | 0 <= i < |ps| ensures Lengths(ps)[i] == Map(Keys(ps), f)[i] {
      GetAt(ps, i);
    }
    assert Lengths(ps) == Map(Keys(ps), f);
    MapPermutation(ks, Keys(ps), f);
    ProductPermutation(Sizes(cols), Lengths(ps));
  }

  /** Point `i` is labelled with `i` and gives each name, in sorted order, one of its values. */
  lemma PointShape(name: string, ps: Params, i: nat)
    requires ps != [] && i < |Points(name, ps).value|
    ensures var p := Points(name, ps).value[i];
      var ks := SortedKeys(ps);
      p.0 == Label(name, i) && Keys(p.1) == ks &&
      forall j :: 0 <= j < |ks| ==> p.1[j].1 in Get(ps, ks[j])
  {
    var ks := SortedKeys(ps);
    var cols := Columns(ps, ks);
    CartMember(Cart(cols)[i], cols);
  }

  /** Every choice of one value per name is a point. */
  lemma PointsCover(name: string, ps: Params, t: seq<Value>)
    requires ps != []
    requires InProduct(t, Columns(ps, SortedKeys(ps)))
    ensures exists i :: 0 <= i < |Points(name, ps).value| && Points(name, ps).value[i].1 == Zip(SortedKeys(ps), t)
  {
    var ks := SortedKeys(ps);
    var ts := Cart(Columns(ps, ks));
    CartMember(t, Columns(ps, ks));
    var i :| 0 <= i < |ts| && ts[i] == t;
    assert Points(name, ps).value[i].1 == Zip(ks, t);
  }

  /** With no repeated value in any list, the points are pairwise distinct. */
  lemma PointsDistinct(name: string, ps: Params, i: nat, j: nat)
    requires ps != [] && forall k :: 0 <= k < |ps| ==> NoDup(ps[k].1)
    requires i < j < |Points(name, ps).value|
    ensures Points(name, ps).value[i].1 != Points(name, ps).value[j].1
  {
    var ks := SortedKeys(ps);
    var cols := Columns(ps, ks);
    forall c | 0 <= c < |cols| ensures NoDup(cols[c]) {
      assert cols[c] == ps[Common.Slot(ps, ks[c])].1;
    }
    CartNoDup(cols);
    var ts := Cart(cols);
    CartMember(ts[i], cols);
    CartMember(ts[j], cols);
    assert ts[i] != ts[j];
    var c :| 0 <= c < |ks| && ts[i][c] != ts[j][c];
    assert Zip(ks, ts[i])[c] != Zip(ks, ts[j])[c];
  }

  // ---------------------------------------------------------------- int(sel) and labels

  /** The value of one decimal digit. */
  lemma DigitValue(d: nat)
    requires d < 10
    ensures Digit(d) as int - '0' as int == d
  {
    if d == 0 {} else if d == 1 {} else if d == 2 {} else if d == 3 {} else if d == 4 {}
    else if d == 5 {} else if d == 6 {} else if d == 7 {} else if d == 8 {}
  }

  /** Reading back the digits `str(n)` prints gives `n`. */
  lemma {:induction false} DigitsOfDecimal(n: nat)
    ensures DigitsValue(DecimalNat(n)) == n
  {
    var s := DecimalNat(n);
    DigitValue(n % 10);
    assert s[|s| - 1] == Digit(n % 10);
    if n < 10 {
      assert s[..0] == [];
    } else {
      DigitsOfDecimal(n / 10);
      assert s[..|s| - 1] == DecimalNat(n / 10);
    }
  }

  /** `int(str(i)) == i`. */
  lemma ParseDecimal(i: int)
    ensures ParseInt(Decimal(i)) == Some(i)
  {
    if i < 0 {
      ParseNegative(i);
    } else {
      ParseNatural(i);
    }
  }

  /** Unsigned digits parse back to their number. */
  lemma ParseNatural(i: int)
    requires i >= 0
    ensures ParseInt(Decimal(i)) == Some(i)
  {
    var s := DecimalNat(i);
    assert Decimal(i) == s;
    assert s[0] in s;
    DigitsOfDecimal(i);
  }

  /** A minus sign before the digits negates their number. */
  lemma ParseNegative(i: int)
    requires i < 0
    ensures ParseInt(Decimal(i)) == Some(i)
  {
    var n: nat := -i;
    assert Decimal(i) == "-" + DecimalNat(n);
    ParseMinus(n);
  }

  /** `int("-" + str(n)) == -n`. */
  lemma ParseMinus(n: nat)
    ensures ParseInt("-" + DecimalNat(n)) == Some(-(n as int))
  {
    var s := "-" + DecimalNat(n);
    assert s[1..] == DecimalNat(n);
    DigitsOfDecimal(n);
  }

  /** A label is not an int, so `get_params_for` matches it against the labels. */
  lemma LabelIsText(name: string, i: nat)
    ensures ParseInt(Label(name, i)) == None
  {
    var s := Label(name, i);
    assert s[0] == 'C' && s[0] in s;
  }

  /** Distinct points have distinct labels. */
  lemma LabelInjective(name: string, i: nat, j: nat)
    requires Label(name, i) == Label(name, j)
    ensures i == j
  {
    var pre := "Computation-" + name + "-";
    assert DecimalNat(i) == Label(name, i)[|pre|..];
    assert DecimalNat(j) == Label(name, j)[|pre|..];
    DecimalNatInjective(i, j);
  }

  // ---------------------------------------------------------------- get_params_for

  /** `int(sel)` reads an index written as a decimal string as that index. */
  lemma LookupByDecimal(name: string, ps: Params, i: int)
    ensures ParamsFor(name, ps, Text(Decimal(i))) == ParamsFor(name, ps, Num(i))
  {
    ParseDecimal(i);
  }

  /** An index outside `[0, len)` raises `KeyError`; with no parameter at all an index in
      range reaches the iteration, which raises `AttributeError`. */
  lemma LookupOutOfRange(name: string, ps: Params, i: int)
    ensures i < 0 || i >= Size(ps) ==> ParamsFor(name, ps, Num(i)) == Err(KeyError)
    ensures ps == [] && 0 <= i < Size(ps) ==> ParamsFor(name, ps, Num(i)) == Err(AttributeError)
  {
  }

  /** An index in `[0, len)` finds the point the iteration yields there. */
  lemma LookupByIndex(name: string, ps: Params, i: nat)
    requires ps != [] && DistinctKeys(ps) && i < Size(ps)
    ensures Points(name, ps).Ok? && i < |Points(name, ps).value|
    ensures ParamsFor(name, ps, Num(i)) == Ok(Points(name, ps).value[i])
  {
    PointsCount(name, ps);
    var pts := Points(name, ps).value;
    assert Hit(pts, i, "", i);
    var r := FirstHit(pts, i, "");
    assert pts[r.value].0 == Label(name, r.value);
  }

  /** A label finds the point it labels. */
  lemma LookupByLabel(name: string, ps: Params, i: nat)
    requires ps != [] && i < |Points(name, ps).value|
    ensures ParamsFor(name, ps, Text(Label(name, i))) == Ok(Points(name, ps).value[i])
  {
    LabelIsText(name, i);
    var pts := Points(name, ps).value;
    var r := FirstHit(pts, -1, Label(name, i));
    assert Hit(pts, -1, Label(name, i), i);
    if r.value != i {
      assert pts[r.value].0 == Label(name, r.value);
      LabelInjective(name, i, r.value);
    }
  }

  /** Whatever `get_params_for` returns is one of the points the iteration yields. */
  lemma LookupYields(name: string, ps: Params, sel: Value)
    requires ParamsFor(name, ps, sel).Ok?
    ensures Points(name, ps).Ok? && ParamsFor(name, ps, sel).value in Points(name, ps).value
  {
  }
}
