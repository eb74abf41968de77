/** Mixed-radix positional numbers: digit `i` weighs the product of the
    sizes before it, so the first digit varies fastest. This is the layout
    the datacube's hasher gives its flat data list. */
module Radix {
  import opened Common

  /** `cs` is a digit string for the radices `sizes`. */
  predicate Digits(cs: seq<nat>, sizes: seq<nat>) {
    |cs| == |sizes| && forall i :: 0 <= i < |cs| ==> cs[i] < sizes[i]
  }

  /** Weight of digit `i`. */
  function Weight(sizes: seq<nat>, i: nat): nat
    requires i <= |sizes|
  {
    Product(sizes[..i])
  }

  /** `Σ Weight(sizes, i) * cs[i]`. */
  function Encode(cs: seq<nat>, sizes: seq<nat>): nat
    requires |cs| == |sizes|
  {
    if cs == [] then 0
    else
      var n := |cs| - 1;
      Encode(cs[..n], sizes[..n]) + Weight(sizes, n) * cs[n]
  }

  /** Encoding one more digit of a longer digit string. */
  lemma EncodePrefixStep(cs: seq<nat>, sizes: seq<nat>, k: nat)
    requires |cs| == |sizes| && k < |cs|
    ensures Encode(cs[..k + 1], sizes[..k + 1]) == Encode(cs[..k], sizes[..k]) + Weight(sizes, k) * cs[k]
  {
    assert cs[..k + 1][..k] == cs[..k] && sizes[..k + 1][..k] == sizes[..k];
  }

  /** A new most significant digit weighs the product of all the radices below it. */
  lemma EncodeAppend(cs: seq<nat>, sizes: seq<nat>, c: nat, s: nat)
    requires |cs| == |sizes|
    ensures Encode(cs + [c], sizes + [s]) == Encode(cs, sizes) + Product(sizes) * c
  {
    assert (cs + [c])[..|cs|] == cs && (sizes + [s])[..|cs|] == sizes;
  }

  lemma MulMonotonic(a: nat, b: nat, c: nat)
    requires b <= c
    ensures a * b <= a * c
  {
  }

  /** Division by `b` recovers the quotient and the remainder of `a + b * q`. */
  lemma DivModUnique(a: nat, b: nat, q: nat)
    requires a < b
    ensures (a + b * q) / b == q && (a + b * q) % b == a
  {
    var x := a + b * q;
    assert x == b * (x / b) + x % b;
    if x / b > q {
      MulMonotonic(b, q + 1, x / b);
    } else if x / b < q {
      MulMonotonic(b, x / b + 1, q);
    }
  }

  /** `e + w * c < w * s` for a low part `e < w` and a digit `c < s`. */
  lemma StepBound(e: nat, w: nat, c: nat, s: nat)
    requires e < w && c < s
    ensures e + w * c < w * s
  {
    MulMonotonic(w, c + 1, s);
    assert w * (c + 1) == w * c + w;
  }

  lemma WeightStep(sizes: seq<nat>, n: nat)
    requires n < |sizes|
    ensures Weight(sizes, n + 1) == Weight(sizes, n) * sizes[n]
  {
    assert sizes[..n + 1] == sizes[..n] + [sizes[n]];
    ProductAppend(sizes[..n], sizes[n]);
  }

  /** Digits in range encode below the product of the radices. */
  lemma {:induction false} EncodeBound(cs: seq<nat>, sizes: seq<nat>)
    requires Digits(cs, sizes)
    ensures Encode(cs, sizes) < Product(sizes)
  {
    if cs != [] {
      var n := |cs| - 1;
      EncodeBound(cs[..n], sizes[..n]);
      WeightStep(sizes, n);
      assert sizes[..n + 1] == sizes;
      StepBound(Encode(cs[..n], sizes[..n]), Weight(sizes, n), cs[n], sizes[n]);
    }
  }

  /** The most significant digit is the quotient by its weight; the rest is the remainder. */
  lemma TopDigit(cs: seq<nat>, sizes: seq<nat>)
    requires Digits(cs, sizes) && cs != []
    ensures var n := |cs| - 1;
      Weight(sizes, n) > 0 &&
      Encode(cs, sizes) / Weight(sizes, n) == cs[n] &&
      Encode(cs, sizes) % Weight(sizes, n) == Encode(cs[..n], sizes[..n])
  {
    var n := |cs| - 1;
    EncodeBound(cs[..n], sizes[..n]);
    DivModUnique(Encode(cs[..n], sizes[..n]), Weight(sizes, n), cs[n]);
  }

  /** Distinct digit strings encode to distinct numbers. */
  lemma {:induction false} EncodeInjective(a: seq<nat>, b: seq<nat>, sizes: seq<nat>)
    requires Digits(a, sizes) && Digits(b, sizes)
    requires Encode(a, sizes) == Encode(b, sizes)
    ensures a == b
  {
    if a != [] {
      var n := |a| - 1;
      TopDigit(a, sizes);
      TopDigit(b, sizes);
      EncodeInjective(a[..n], b[..n], sizes[..n]);
      assert a == a[..n] + [a[n]] && b == b[..n] + [b[n]];
    }
  }

  lemma PositiveFactor(a: nat, b: nat)
    requires a * b > 0
    ensures a > 0 && b > 0
  {
  }

  lemma QuotientBound(x: nat, w: nat, s: nat)
    requires w > 0 && x < w * s
    ensures x / w < s && x == w * (x / w) + x % w
  {
    if x / w >= s {
      MulMonotonic(w, s, x / w);
    }
  }

  /** Splitting `x` at the top digit: the quotient by the top weight is a digit, and the
      remainder lies below the product of the lower radices. */
  lemma TopSplit(x: nat, sizes: seq<nat>) returns (q: nat, r: nat)
    requires x < Product(sizes) && sizes != []
    ensures var n := |sizes| - 1;
      q < sizes[n] && r < Product(sizes[..n]) && x == r + Weight(sizes, n) * q
  {
    var n := |sizes| - 1;
    var w := Weight(sizes, n);
    WeightStep(sizes, n);
    assert sizes[..n + 1] == sizes;
    assert Product(sizes) == w * sizes[n];
    PositiveFactor(w, sizes[n]);
    QuotientBound(x, w, sizes[n]);
    q, r := x / w, x % w;
  }

  /** Every number below the product of the radices is the encoding of some digits. */
  lemma {:induction false} EncodeOnto(x: nat, sizes: seq<nat>) returns (cs: seq<nat>)
    requires x < Product(sizes)
    ensures Digits(cs, sizes) && Encode(cs, sizes) == x
    decreases |sizes|
  {
    if sizes == [] {
      cs := [];
    } else {
      var n := |sizes| - 1;
      var q, r := TopSplit(x, sizes);
      var low := EncodeOnto(r, sizes[..n]);
      cs := low + [q];
      EncodeAppend(low, sizes[..n], q, sizes[n]);
      assert sizes[..n] + [sizes[n]] == sizes;
    }
  }
}
