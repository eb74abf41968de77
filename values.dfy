/** Parameter values as the Python 2 code sees them: ints, strings and
    tuples, with Python 2's total order and `str` rendering. */
module Values {
  import opened Common
  import opened Sorting

  datatype Value = Num(n: int) | Text(s: string) | Tuple(items: seq<Value>)

  /** Python 2 orders values of different types by type name: numbers
      first, then `str`, then `tuple`. */
  function Kind(v: Value): nat {
    match v
    case Num(_) => 0
    case Text(_) => 1
    case Tuple(_) => 2
  }

  /** The first position at which `xs` and `ys` differ, or the length of the shorter one. */
  function FirstDiff<T(==)>(xs: seq<T>, ys: seq<T>): (k: nat)
    ensures k <= |xs| && k <= |ys|
    ensures forall i :: 0 <= i < k ==> xs[i] == ys[i]
    ensures k < |xs| && k < |ys| ==> xs[k] != ys[k]
  {
    if xs == [] || ys == [] || xs[0] != ys[0] then 0 else 1 + FirstDiff(xs[1..], ys[1..])
  }

  /** `FirstDiff` is determined by its contract. */
  lemma FirstDiffIs<T>(xs: seq<T>, ys: seq<T>, k: nat)
    requires k <= |xs| && k <= |ys|
    requires forall i :: 0 <= i < k ==> xs[i] == ys[i]
    requires k == |xs| || k == |ys| || xs[k] != ys[k]
    ensures FirstDiff(xs, ys) == k
  {
  }

  lemma FirstDiffSymmetric<T>(xs: seq<T>, ys: seq<T>)
    ensures FirstDiff(xs, ys) == FirstDiff(ys, xs)
  {
    FirstDiffIs(ys, xs, FirstDiff(xs, ys));
  }

  /** Python's `<=` on strings: lexicographic by character code. */
  predicate TextLe(x: string, y: string) {
    var k := FirstDiff(x, y);
    k == |x| || (k < |y| && x[k] < y[k])
  }

  /** Python 2's `<=` on the modelled values. */
  predicate Le(a: Value, b: Value)
    decreases a
  {
    if Kind(a) != Kind(b) then Kind(a) < Kind(b)
    else match a
      case Num(x) => x <= b.n
      case Text(x) => TextLe(x, b.s)
      case Tuple(xs) =>
        var ys := b.items;
        var k := FirstDiff(xs, ys);
        k == |xs| || (k < |ys| && Le(xs[k], ys[k]))
  }

  lemma TextLeTotal(x: string, y: string)
    ensures TextLe(x, y) || TextLe(y, x)
  {
    FirstDiffSymmetric(x, y);
  }

  lemma TextLeAntisymmetric(x: string, y: string)
    requires TextLe(x, y) && TextLe(y, x)
    ensures x == y
  {
    FirstDiffSymmetric(x, y);
    var k := FirstDiff(x, y);
    assert k == |x| == |y|;
  }

  lemma {:induction false} LeReflexive(a: Value)
    ensures Le(a, a)
  {
    if a.Tuple? {
      FirstDiffIs(a.items, a.items, |a.items|);
    } else if a.Text? {
      FirstDiffIs(a.s, a.s, |a.s|);
    }
  }

  lemma {:induction false} LeTotal(a: Value, b: Value)
    ensures Le(a, b) || Le(b, a)
    decreases a
  {
    if Kind(a) == Kind(b) {
      match a
      case Num(_) =>
      case Text(x) =>
        TextLeTotal(x, b.s);
      case Tuple(xs) =>
        var ys := b.items;
        FirstDiffSymmetric(xs, ys);
        var k := FirstDiff(xs, ys);
        if k < |xs| && k < |ys| {
          LeTotal(xs[k], ys[k]);
        }
    }
  }

  lemma {:induction false} LeAntisymmetric(a: Value, b: Value)
    requires Le(a, b) && Le(b, a)
    ensures a == b
    decreases a
  {
    match a
    case Num(_) =>
    case Text(x) =>
      TextLeAntisymmetric(x, b.s);
    case Tuple(xs) =>
      var ys := b.items;
      FirstDiffSymmetric(xs, ys);
      var k := FirstDiff(xs, ys);
      if k < |xs| && k < |ys| {
        LeAntisymmetric(xs[k], ys[k]);
        assert false;
      }
      assert xs == ys;
  }

  lemma {:induction false} TextLeTransitive(x: string, y: string, z: string)
    requires TextLe(x, y) && TextLe(y, z)
    ensures TextLe(x, z)
  {
    var k1, k2 := FirstDiff(x, y), FirstDiff(y, z);
    if k1 < k2 {
      FirstDiffIs(x, z, k1);
    } else if k2 < k1 {
      FirstDiffIs(x, z, k2);
    } else if k1 < |x| {
      FirstDiffIs(x, z, k1);
    }
  }

  lemma {:induction false} LeTransitive(a: Value, b: Value, c: Value)
    requires Le(a, b) && Le(b, c)
    ensures Le(a, c)
    decreases a
  {
    if Kind(a) == Kind(b) == Kind(c) {
      match a
      case Num(_) =>
      case Text(x) =>
        TextLeTransitive(x, b.s, c.s);
      case Tuple(xs) =>
        var ys, zs := b.items, c.items;
        var k1, k2 := FirstDiff(xs, ys), FirstDiff(ys, zs);
        if k1 < k2 {
          FirstDiffIs(xs, zs, k1);
        } else if k2 < k1 {
          FirstDiffIs(xs, zs, k2);
        } else if k1 < |xs| {
          var k := k1;
          LeTransitive(xs[k], ys[k], zs[k]);
          if xs[k] == zs[k] {
            LeAntisymmetric(ys[k], zs[k]);
          }
          FirstDiffIs(xs, zs, k);
        }
    }
  }

  /** `TextLe` orders strings totally, so `sorted` on strings is determined. */
  lemma TextOrder()
    ensures TotalPreorder(TextLe) && Antisymmetric(TextLe)
  {
    forall a, b ensures TextLe(a, b) || TextLe(b, a) { TextLeTotal(a, b); }
    forall a, b, c | TextLe(a, b) && TextLe(b, c) ensures TextLe(a, c) { TextLeTransitive(a, b, c); }
    forall a, b | TextLe(a, b) && TextLe(b, a) ensures a == b { TextLeAntisymmetric(a, b); }
  }

  /** Python's `sorted` on a list of strings. */
  function SortedText(ss: seq<string>): (r: seq<string>)
    ensures multiset(r) == multiset(ss)
    ensures SortedBy(r, TextLe)
  {
    SortPermutes(ss, TextLe);
    TextOrder();
    SortSorted(ss, TextLe);
    Sort(ss, TextLe)
  }

  /** `Le` orders values totally, so `sorted` on values is determined. */
  lemma ValueOrder()
    ensures TotalPreorder(Le) && Antisymmetric(Le)
  {
    forall a, b ensures Le(a, b) || Le(b, a) { LeTotal(a, b); }
    forall a, b, c | Le(a, b) && Le(b, c) ensures Le(a, c) { LeTransitive(a, b, c); }
    forall a, b | Le(a, b) && Le(b, a) ensures a == b { LeAntisymmetric(a, b); }
  }

  /** Python's `sorted` on a list of values. */
  function Sorted(vs: seq<Value>): (r: seq<Value>)
    ensures multiset(r) == multiset(vs)
    ensures SortedBy(r, Le)
  {
    SortPermutes(vs, Le);
    ValueOrder();
    SortSorted(vs, Le);
    Sort(vs, Le)
  }

  /** Python 2's `str(v)`. */
  function Str(v: Value): string {
    match v
    case Num(n) => Decimal(n)
    case Text(s) => s
    case Tuple(xs) => TupleStr(xs)
  }

  /** Python 2's `repr(v)`; strings are quoted (escaping is not modelled). */
  function Repr(v: Value): string {
    match v
    case Num(n) => Decimal(n)
    case Text(s) => "'" + s + "'"
    case Tuple(xs) => TupleStr(xs)
  }

  /** `(a, b)`, `(a,)` for a single item, `()` when empty. */
  function TupleStr(xs: seq<Value>): string
    decreases xs, 1
  {
    var parts := seq(|xs|, i requires 0 <= i < |xs| => Repr(xs[i]));
    "(" + Join(parts) + (if |xs| == 1 then "," else "") + ")"
  }

  function Join(parts: seq<string>): string {
    if parts == [] then ""
    else if |parts| == 1 then parts[0]
    else parts[0] + ", " + Join(parts[1..])
  }
}
