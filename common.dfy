/** Vocabulary shared by every module: Python's None, the exceptions the
    modelled code raises, insertion-ordered dicts, duplicate-free lists,
    products and decimal rendering of integers. */
module Common {

  /** Python's `None` next to a value. */
  datatype Option<T> = None | Some(value: T)

  /** The Python exceptions raised by the modelled code. */
  datatype Error = IndexError | KeyError | ValueError | TypeError | AttributeError | ZeroDivisionError

  /** A value, or the exception raised instead of returning it. */
  datatype Result<T> = Ok(value: T) | Err(error: Error) {
    predicate IsFailure() { Err? }
    function PropagateFailure<U>(): Result<U> requires Err? { Err(error) }
    function Extract(): T requires Ok? { value }
  }

  predicate NoDup<T(==)>(s: seq<T>) {
    forall i, j :: 0 <= i < j < |s| ==> s[i] != s[j]
  }

  /** Appending a fresh element keeps a list duplicate-free. */
  lemma NoDupAppend<T>(s: seq<T>, x: T)
    requires NoDup(s) && x !in s
    ensures NoDup(s + [x])
  {
  }

  /** Python `list.index`: the first position holding `x`. */
  function FirstIndex<T(==)>(s: seq<T>, x: T): (i: nat)
    requires x in s
    ensures i < |s| && s[i] == x && forall j :: 0 <= j < i ==> s[j] != x
  {
    if s[0] == x then 0 else 1 + FirstIndex(s[1..], x)
  }

  lemma FirstIndexPrefix<T>(s: seq<T>, t: seq<T>, x: T)
    requires x in s
    ensures FirstIndex(s + t, x) == FirstIndex(s, x)
  {
    var i, j := FirstIndex(s + t, x), FirstIndex(s, x);
    assert (s + t)[j] == x;
  }

  /** `[x for x in s if x != y]`. */
  function Without<T(==,!new)>(s: seq<T>, y: T): (r: seq<T>)
    ensures forall x :: x in r <==> x in s && x != y
    ensures |r| <= |s| && (y in s ==> |r| < |s|)
  {
    if s == [] then [] else (if s[0] == y then [] else [s[0]]) + Without(s[1..], y)
  }

  lemma WithoutNoDup<T(!new)>(s: seq<T>, y: T)
    requires NoDup(s)
    ensures NoDup(Without(s, y))
    ensures y in s ==> |Without(s, y)| == |s| - 1
  {
    if s != [] {
      WithoutNoDup(s[1..], y);
      assert s[0] !in s[1..];
      if s[0] == y {
        WithoutAbsent(s[1..], y);
      } else if y in s {
        assert y in s[1..];
      }
    }
  }

  /** A Python dict: its items in insertion order. */
  type Dict<K, V> = seq<(K, V)>

  function Keys<K, V>(d: Dict<K, V>): (ks: seq<K>)
    ensures |ks| == |d| && forall i :: 0 <= i < |d| ==> ks[i] == d[i].0
  {
    seq(|d|, i requires 0 <= i < |d| => d[i].0)
  }

  predicate HasKey<K(==), V>(d: Dict<K, V>, k: K) {
    k in Keys(d)
  }

  predicate DistinctKeys<K(==), V>(d: Dict<K, V>) {
    NoDup(Keys(d))
  }

  /** Position of key `k` among the items of `d`. */
  function Slot<K(==), V>(d: Dict<K, V>, k: K): (i: nat)
    requires HasKey(d, k)
    ensures i < |d| && d[i].0 == k && forall j :: 0 <= j < i ==> d[j].0 != k
  {
    FirstIndex(Keys(d), k)
  }

  /** `d[k]` for a key that is present. */
  function Get<K(==), V>(d: Dict<K, V>, k: K): V
    requires HasKey(d, k)
  {
    d[Slot(d, k)].1
  }

  /** `d.get(k)`. */
  function Lookup<K(==), V>(d: Dict<K, V>, k: K): (r: Option<V>)
    ensures r.Some? <==> HasKey(d, k)
    ensures r.Some? ==> r.value == Get(d, k)
  {
    if HasKey(d, k) then Some(Get(d, k)) else None
  }

  /** In a dict with distinct keys, the item at position `i` is what `Get` finds. */
  lemma GetAt<K, V>(d: Dict<K, V>, i: nat)
    requires DistinctKeys(d) && i < |d|
    ensures HasKey(d, d[i].0) && Get(d, d[i].0) == d[i].1
  {
    assert Keys(d)[i] == d[i].0;
  }

  /** `d[k] = v`: an existing key keeps its place, a new key goes last. */
  function Put<K(==), V>(d: Dict<K, V>, k: K, v: V): (r: Dict<K, V>)
    ensures |r| == |d| + (if HasKey(d, k) then 0 else 1)
    ensures !HasKey(d, k) ==> r == d + [(k, v)]
  {
    if HasKey(d, k) then d[Slot(d, k) := (k, v)] else d + [(k, v)]
  }

  /** What `d[k] = v` does to lookups: `k` now finds `v`, every other key is unchanged. */
  lemma PutFacts<K(!new), V>(d: Dict<K, V>, k: K, v: V)
    ensures HasKey(Put(d, k, v), k) && Get(Put(d, k, v), k) == v
    ensures forall x :: HasKey(Put(d, k, v), x) <==> HasKey(d, x) || x == k
    ensures forall x :: x != k && HasKey(d, x) ==> Get(Put(d, k, v), x) == Get(d, x)
    ensures HasKey(d, k) ==> Keys(Put(d, k, v)) == Keys(d)
    ensures !HasKey(d, k) ==> Keys(Put(d, k, v)) == Keys(d) + [k]
    ensures DistinctKeys(d) ==> DistinctKeys(Put(d, k, v))
  {
    var r := Put(d, k, v);
    if HasKey(d, k) {
      assert Keys(r) == Keys(d);
      assert forall x :: x != k && HasKey(d, x) ==> Slot(r, x) == Slot(d, x);
    } else {
      assert Keys(r) == Keys(d) + [k];
      forall x | x != k && HasKey(d, x)
        ensures Slot(r, x) == Slot(d, x)
      {
        FirstIndexPrefix(Keys(d), [k], x);
      }
    }
  }

  /** A key found in a prefix of the items is found there by the whole dict too. */
  lemma GetPrefix<K, V>(d: Dict<K, V>, n: nat, k: K)
    requires n <= |d| && HasKey(d[..n], k)
    ensures HasKey(d, k) && Get(d, k) == Get(d[..n], k)
  {
    assert d == d[..n] + d[n..];
    assert Keys(d) == Keys(d[..n]) + Keys(d[n..]);
    FirstIndexPrefix(Keys(d[..n]), Keys(d[n..]), k);
  }

  lemma KeysConcat<K, V>(a: Dict<K, V>, b: Dict<K, V>)
    ensures Keys(a + b) == Keys(a) + Keys(b)
  {
  }

  /** Successive `d[k] = v` for the items in order. */
  function PutAll<K(==), V>(d: Dict<K, V>, items: seq<(K, V)>): Dict<K, V> {
    if items == [] then d
    else
      var n := |items| - 1;
      Put(PutAll(d, items[..n]), items[n].0, items[n].1)
  }

  /** One more item of a prefix fold is one more `Put`. */
  lemma PutAllStep<K, V>(d: Dict<K, V>, items: seq<(K, V)>, j: nat)
    requires j < |items|
    ensures PutAll(d, items[..j + 1]) == Put(PutAll(d, items[..j]), items[j].0, items[j].1)
  {
    assert items[..j + 1][..j] == items[..j];
  }

  /** Putting `a` then `b` is putting `a + b`. */
  lemma {:induction false} PutAllConcat<K, V>(d: Dict<K, V>, a: seq<(K, V)>, b: seq<(K, V)>)
    ensures PutAll(PutAll(d, a), b) == PutAll(d, a + b)
  {
    if b == [] {
      assert a + b == a;
    } else {
      var n := |b| - 1;
      PutAllConcat(d, a, b[..n]);
      assert (a + b)[..|a| + n] == a + b[..n];
    }
  }

  lemma DistinctKeysPrefix<K, V>(d: Dict<K, V>, n: nat)
    requires DistinctKeys(d) && n <= |d|
    ensures DistinctKeys(d[..n])
    ensures n < |d| ==> !HasKey(d[..n], d[n].0)
  {
    assert forall i :: 0 <= i < n ==> Keys(d[..n])[i] == Keys(d)[i];
  }

  /** Putting fresh, distinct keys appends the items. */
  lemma {:induction false} PutAllFresh<K(!new), V>(d: Dict<K, V>, items: seq<(K, V)>)
    requires DistinctKeys(d + items)
    ensures PutAll(d, items) == d + items
  {
    if items != [] {
      var n := |items| - 1;
      var all := d + items;
      assert all[..|d| + n] == d + items[..n];
      assert all[|d| + n] == items[n];
      DistinctKeysPrefix(all, |d| + n);
      PutAllFresh(d, items[..n]);
      assert all == (d + items[..n]) + [items[n]];
    }
  }

  /** `d` followed by `items`, when their keys are distinct. */
  lemma DisjointKeys<K, V>(a: Dict<K, V>, b: Dict<K, V>)
    requires DistinctKeys(a) && DistinctKeys(b)
    requires forall x :: HasKey(a, x) ==> !HasKey(b, x)
    ensures DistinctKeys(a + b)
  {
    KeysConcat(a, b);
    forall i, j | 0 <= i < j < |a + b| ensures Keys(a + b)[i] != Keys(a + b)[j] {
      if i < |a| <= j {
        assert HasKey(a, Keys(a + b)[i]);
        assert HasKey(b, Keys(a + b)[j]);
      }
    }
  }

  /** `s[::-1]`. */
  function Reverse<T>(s: seq<T>): (r: seq<T>)
    ensures |r| == |s| && forall i :: 0 <= i < |s| ==> r[i] == s[|s| - 1 - i]
  {
    if s == [] then [] else [s[|s| - 1]] + Reverse(s[..|s| - 1])
  }

  lemma {:induction false} ReversePermutes<T>(s: seq<T>)
    ensures multiset(Reverse(s)) == multiset(s)
  {
    if s != [] {
      ReversePermutes(s[..|s| - 1]);
      assert s == s[..|s| - 1] + [s[|s| - 1]];
    }
  }

  /** Dropping position `j` of a duplicate-free list drops exactly the element there. */
  lemma NoDupRemoveAt<T>(b: seq<T>, j: nat)
    requires NoDup(b) && j < |b|
    ensures NoDup(b[..j] + b[j + 1..])
    ensures forall x :: x in b[..j] + b[j + 1..] <==> x in b && x != b[j]
  {
    var b' := b[..j] + b[j + 1..];
    assert b == b[..j] + [b[j]] + b[j + 1..];
    forall i, k | 0 <= i < k < |b'| ensures b'[i] != b'[k] {
      var i' := if i < j then i else i + 1;
      var k' := if k < j then k else k + 1;
      assert b'[i] == b[i'] && b'[k] == b[k'];
    }
  }

  /** A duplicate-free list as long as another, and contained in it, holds the same elements. */
  lemma {:induction false} NoDupSubsetEqual<T>(a: seq<T>, b: seq<T>)
    requires NoDup(a) && NoDup(b) && |a| >= |b|
    requires forall x :: x in a ==> x in b
    ensures forall x :: x in b ==> x in a
  {
    if a != [] {
      assert a[0] in b;
      var j :| 0 <= j < |b| && b[j] == a[0];
      var b' := b[..j] + b[j + 1..];
      NoDupRemoveAt(b, j);
      assert a == [a[0]] + a[1..];
      forall x | x in a[1..] ensures x in b' {
        var i :| 0 <= i < |a[1..]| && a[1..][i] == x;
        assert a[i + 1] == x && x in a && a[0] != a[i + 1];
      }
      NoDupSubsetEqual(a[1..], b');
    }
  }

  /** `del d[k]` (a no-op when `k` is absent). */
  function Remove<K(==,!new), V>(d: Dict<K, V>, k: K): (r: Dict<K, V>)
    ensures Keys(r) == Without(Keys(d), k)
  {
    if d == [] then []
    else
      var head := if d[0].0 == k then [] else [d[0]];
      var rest := Remove(d[1..], k);
      assert Keys(d) == [d[0].0] + Keys(d[1..]);
      assert Keys(head + rest) == Keys(head) + Keys(rest);
      head + rest
  }

  lemma {:induction false} RemoveItems<K(!new), V>(d: Dict<K, V>, k: K, p: (K, V))
    ensures p in Remove(d, k) <==> p in d && p.0 != k
  {
    if d != [] {
      RemoveItems(d[1..], k, p);
      assert d == [d[0]] + d[1..];
    }
  }

  /** In a dict with distinct keys an item is present exactly when `Get` finds it. */
  lemma ItemIn<K, V>(d: Dict<K, V>, x: K, v: V)
    requires DistinctKeys(d)
    ensures (x, v) in d <==> HasKey(d, x) && Get(d, x) == v
  {
    if (x, v) in d {
      var i :| 0 <= i < |d| && d[i] == (x, v);
      assert Keys(d)[i] == x;
    }
  }

  /** Removing a key keeps the keys distinct and every other entry intact. */
  lemma RemoveKeeps<K(!new), V>(d: Dict<K, V>, k: K)
    requires DistinctKeys(d)
    ensures DistinctKeys(Remove(d, k))
    ensures forall x :: HasKey(Remove(d, k), x) <==> HasKey(d, x) && x != k
    ensures forall x :: x != k && HasKey(d, x) ==> Get(Remove(d, k), x) == Get(d, x)
  {
    var r := Remove(d, k);
    WithoutNoDup(Keys(d), k);
    forall x | x != k && HasKey(d, x)
      ensures Get(r, x) == Get(d, x)
    {
      ItemIn(d, x, Get(d, x));
      RemoveItems(d, k, (x, Get(d, x)));
      ItemIn(r, x, Get(d, x));
    }
  }

  lemma WithoutAbsent<T(!new)>(s: seq<T>, y: T)
    requires y !in s
    ensures Without(s, y) == s
  {
    if s != [] { WithoutAbsent(s[1..], y); }
  }

  /** Python's `s[i]` on a list: negative positions count from the end. */
  function PyIndex<T>(s: seq<T>, i: int): (r: Result<T>)
    ensures r.Ok? <==> -|s| <= i < |s|
    ensures 0 <= i < |s| ==> r == Ok(s[i])
    ensures -|s| <= i < 0 ==> r == Ok(s[|s| + i])
  {
    if 0 <= i < |s| then Ok(s[i])
    else if -|s| <= i < 0 then Ok(s[|s| + i])
    else Err(IndexError)
  }

  /** In a duplicate-free list every element occurs once. */
  lemma {:induction false} NoDupCount<T>(s: seq<T>, x: T)
    requires NoDup(s)
    ensures multiset(s)[x] == if x in s then 1 else 0
  {
    if s != [] {
      NoDupCount(s[1..], x);
      assert s == [s[0]] + s[1..];
      assert s[0] !in s[1..];
    }
  }

  /** Two duplicate-free lists with the same elements are permutations of each other. */
  lemma SameElementsPermutation<T>(s: seq<T>, t: seq<T>)
    requires NoDup(s) && NoDup(t)
    requires forall x :: x in s <==> x in t
    ensures multiset(s) == multiset(t)
  {
    forall x ensures multiset(s)[x] == multiset(t)[x] {
      NoDupCount(s, x);
      NoDupCount(t, x);
    }
  }

  /** A permutation of a duplicate-free list is duplicate-free. */
  lemma PermutationNoDup<T>(s: seq<T>, t: seq<T>)
    requires NoDup(s) && multiset(s) == multiset(t)
    ensures NoDup(t)
  {
    forall i, j | 0 <= i < j < |t|
      ensures t[i] != t[j]
    {
      if t[i] == t[j] {
        assert t == t[..i] + [t[i]] + t[i + 1..];
        assert t[j] in t[i + 1..];
        assert multiset(t)[t[i]] >= 2 by {
          assert multiset(t) == multiset(t[..i]) + multiset([t[i]]) + multiset(t[i + 1..]);
        }
        NoDupCount(s, t[i]);
        assert false;
      }
    }
  }

  /** `sum(f(x) for x in s)`. */
  function SumOf<T>(s: seq<T>, f: T -> int): int {
    if s == [] then 0 else SumOf(s[..|s| - 1], f) + f(s[|s| - 1])
  }

  lemma SumPrefixStep<T>(s: seq<T>, f: T -> int, k: nat)
    requires k < |s|
    ensures SumOf(s[..k + 1], f) == SumOf(s[..k], f) + f(s[k])
  {
    assert s[..k + 1][..k] == s[..k];
  }

  lemma {:induction false} SumConcat<T>(s: seq<T>, t: seq<T>, f: T -> int)
    ensures SumOf(s + t, f) == SumOf(s, f) + SumOf(t, f)
  {
    if t == [] {
      assert s + t == s;
    } else {
      var n := |t| - 1;
      assert (s + t)[..|s + t| - 1] == s + t[..n];
      SumConcat(s, t[..n], f);
    }
  }

  /** The sum does not depend on the order of the summands. */
  lemma {:induction false} SumPermutation<T>(s: seq<T>, t: seq<T>, f: T -> int)
    requires multiset(s) == multiset(t)
    ensures SumOf(s, f) == SumOf(t, f)
  {
    if s == [] {
      assert |t| == |multiset(t)| == 0;
    } else {
      var n := |s| - 1;
      assert s == s[..n] + [s[n]];
      assert s[n] in multiset(t);
      var j :| 0 <= j < |t| && t[j] == s[n];
      var t' := t[..j] + t[j + 1..];
      MultisetRemoveAt(t, j);
      assert multiset(s) == multiset([s[n]]) + multiset(s[..n]);
      MultisetCancel(multiset([s[n]]), multiset(s[..n]), multiset(t'));
      SumPermutation(s[..n], t', f);
      assert t == t[..j] + ([t[j]] + t[j + 1..]);
      SumConcat(t[..j], [t[j]] + t[j + 1..], f);
      SumConcat([t[j]], t[j + 1..], f);
      SumConcat(t[..j], t[j + 1..], f);
      SumConcat(s[..n], [s[n]], f);
      assert SumOf([t[j]], f) == f(t[j]) by { assert [t[j]][..0] == []; }
      assert SumOf([s[n]], f) == f(s[n]) by { assert [s[n]][..0] == []; }
    }
  }

  /** Sums of pointwise equal terms are equal. */
  lemma {:induction false} SumPointwise<T, U>(s: seq<T>, f: T -> int, t: seq<U>, g: U -> int)
    requires |s| == |t| && forall i :: 0 <= i < |s| ==> f(s[i]) == g(t[i])
    ensures SumOf(s, f) == SumOf(t, g)
  {
    if s != [] {
      SumPointwise(s[..|s| - 1], f, t[..|t| - 1], g);
    }
  }

  /** `reduce(lambda x, y: x * y, s, 1)`. */
  function Product(s: seq<nat>): nat {
    if s == [] then 1 else s[0] * Product(s[1..])
  }

  lemma {:induction false} ProductAppend(s: seq<nat>, x: nat)
    ensures Product(s + [x]) == Product(s) * x
  {
    if s != [] {
      assert (s + [x])[1..] == s[1..] + [x];
      ProductAppend(s[1..], x);
    }
  }

  lemma {:induction false} ProductConcat(s: seq<nat>, t: seq<nat>)
    ensures Product(s + t) == Product(s) * Product(t)
  {
    if s != [] {
      assert (s + t)[0] == s[0];
      assert (s + t)[1..] == s[1..] + t;
      ProductConcat(s[1..], t);
      MulAssoc(s[0], Product(s[1..]), Product(t));
    } else {
      assert s + t == t;
    }
  }

  lemma MulAssoc(a: nat, b: nat, c: nat)
    ensures a * (b * c) == (a * b) * c
  {
  }

  /** Taking one factor out of the product. */
  lemma {:induction false} ProductRemoveAt(t: seq<nat>, j: nat)
    requires j < |t|
    ensures Product(t) == t[j] * Product(t[..j] + t[j + 1..])
  {
    assert t == t[..j] + t[j..];
    assert t[j..] == [t[j]] + t[j + 1..];
    ProductConcat(t[..j], t[j..]);
    ProductConcat(t[..j], t[j + 1..]);
    assert Product(t[j..]) == t[j] * Product(t[j + 1..]);
    MulAssoc(t[j], Product(t[..j]), Product(t[j + 1..]));
    MulAssoc(Product(t[..j]), t[j], Product(t[j + 1..]));
  }

  /** The product does not depend on the order of the factors. */
  lemma {:induction false} ProductPermutation(s: seq<nat>, t: seq<nat>)
    requires multiset(s) == multiset(t)
    ensures Product(s) == Product(t)
  {
    if s != [] {
      assert s[0] in multiset(t);
      var j :| 0 <= j < |t| && t[j] == s[0];
      var t' := t[..j] + t[j + 1..];
      MultisetRemoveAt(t, j);
      assert s == [s[0]] + s[1..];
      assert multiset(s) == multiset([s[0]]) + multiset(s[1..]);
      MultisetCancel(multiset([s[0]]), multiset(s[1..]), multiset(t'));
      ProductPermutation(s[1..], t');
      ProductRemoveAt(t, j);
    } else {
      assert |t| == |multiset(t)| == 0;
    }
  }

  /** `[f(x) for x in s]`. */
  function Map<T, U>(s: seq<T>, f: T -> U): (r: seq<U>)
    ensures |r| == |s| && forall i :: 0 <= i < |s| ==> r[i] == f(s[i])
  {
    seq(|s|, i requires 0 <= i < |s| => f(s[i]))
  }

  /** Mapping a list with one element removed removes the mapped element. */
  lemma MapRemoveAt<T, U>(t: seq<T>, j: nat, f: T -> U)
    requires j < |t|
    ensures multiset(Map(t, f)) == multiset([f(t[j])]) + multiset(Map(t[..j] + t[j + 1..], f))
  {
    var mt := Map(t, f);
    assert Map(t[..j] + t[j + 1..], f) == mt[..j] + mt[j + 1..];
    MultisetRemoveAt(mt, j);
  }

  /** Mapping two permutations of each other gives two permutations of each other. */
  lemma {:induction false} MapPermutation<T, U>(s: seq<T>, t: seq<T>, f: T -> U)
    requires multiset(s) == multiset(t)
    ensures multiset(Map(s, f)) == multiset(Map(t, f))
  {
    if s != [] {
      assert s[0] in multiset(t);
      var j :| 0 <= j < |t| && t[j] == s[0];
      var t' := t[..j] + t[j + 1..];
      MultisetRemoveAt(t, j);
      assert s == [s[0]] + s[1..];
      assert multiset(s) == multiset([s[0]]) + multiset(s[1..]);
      MultisetCancel(multiset([s[0]]), multiset(s[1..]), multiset(t'));
      MapPermutation(s[1..], t', f);
      MapRemoveAt(t, j, f);
      MapRemoveAt(s, 0, f);
      assert s[..0] + s[1..] == s[1..];
    } else {
      assert |t| == |multiset(t)| == 0;
    }
  }

  lemma MultisetCancel<T>(a: multiset<T>, x: multiset<T>, y: multiset<T>)
    requires a + x == a + y
    ensures x == y
  {
    forall e ensures x[e] == y[e] {
      assert (a + x)[e] == (a + y)[e];
    }
  }

  lemma MultisetRemoveAt<T>(t: seq<T>, j: nat)
    requires j < |t|
    ensures multiset(t) == multiset([t[j]]) + multiset(t[..j] + t[j + 1..])
  {
    assert t == t[..j] + [t[j]] + t[j + 1..];
  }

  function Pow2(n: nat): (r: nat)
    ensures r >= 1
  {
    if n == 0 then 1 else 2 * Pow2(n - 1)
  }

  /** Decimal digits of a natural number, as Python's `str` prints them. */
  function DecimalNat(n: nat): (s: string)
    ensures |s| >= 1 && forall c :: c in s ==> '0' <= c <= '9'
  {
    if n < 10 then [Digit(n)] else DecimalNat(n / 10) + [Digit(n % 10)]
  }

  function Digit(d: nat): (c: char)
    requires d < 10
    ensures '0' <= c <= '9'
  {
    "0123456789"[d]
  }

  /** Python's `str` of an int. */
  function Decimal(i: int): string {
    if i < 0 then "-" + DecimalNat(-i) else DecimalNat(i)
  }

  /** Distinct natural numbers print differently. */
  lemma {:induction false} DecimalNatInjective(m: nat, n: nat)
    requires DecimalNat(m) == DecimalNat(n)
    ensures m == n
  {
    var s := DecimalNat(m);
    if m < 10 && n < 10 {
      assert Digit(m) == s[0] == Digit(n);
    } else if m >= 10 && n >= 10 {
      var a, b := DecimalNat(m / 10), DecimalNat(n / 10);
      assert |a| == |s| - 1 == |b|;
      assert a == s[..|s| - 1] == b;
      DecimalNatInjective(m / 10, n / 10);
      assert Digit(m % 10) == s[|s| - 1] == Digit(n % 10);
    } else {
      assert false;
    }
  }
}
