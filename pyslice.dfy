/** Python list slicing `s[start:stop:step]`, with the bounds normalised as CPython's
    `slice.indices` does. */
module PySlices {
  import opened Common

  /** One bound of `slice.indices(len)`: a missing bound takes `absent`, a negative one counts
      from the end, and the result is clamped to `[lower, upper]`. */
  function Bound(x: Option<int>, len: nat, lower: int, upper: int, absent: int): (r: int)
    requires lower <= 0 && len - 1 <= upper && lower <= absent <= upper
    ensures lower <= r <= upper
  {
    if x.None? then absent
    else if x.value < 0 then (if x.value + len < lower then lower else x.value + len)
    else if x.value > upper then upper
    else x.value
  }

  /** `slice(start, stop, step).indices(len)`; a zero step raises ValueError. */
  function Indices(len: nat, start: Option<int>, stop: Option<int>, step: Option<int>): (r: Result<(int, int, int)>)
    ensures r.Err? <==> step == Some(0)
    ensures r.Err? ==> r.error == ValueError
    ensures r.Ok? && r.value.2 > 0 ==> 0 <= r.value.0 <= len && 0 <= r.value.1 <= len
    ensures r.Ok? && r.value.2 < 0 ==> -1 <= r.value.0 <= len - 1 && -1 <= r.value.1 <= len - 1
    ensures r.Ok? ==> r.value.2 != 0 && (step.None? ==> r.value.2 == 1)
  {
    var st := if step.None? then 1 else step.value;
    if st == 0 then Err(ValueError)
    else if st < 0 then Ok((Bound(start, len, -1, len - 1, len - 1), Bound(stop, len, -1, len - 1, -1), st))
    else Ok((Bound(start, len, 0, len, 0), Bound(stop, len, 0, len, len), st))
  }

  /** The indices `i, i + step, ...` strictly before `stop`. */
  function Walk(len: nat, i: int, stop: int, step: int): (r: seq<nat>)
    requires step != 0
    requires step > 0 ==> 0 <= i && stop <= len
    requires step < 0 ==> i <= len - 1 && -1 <= stop
    ensures forall j :: 0 <= j < |r| ==> r[j] < len && r[j] == i + j * step
    decreases if step > 0 then stop - i else i - stop
  {
    if (step > 0 && i < stop) || (step < 0 && i > stop) then [i as nat] + Walk(len, i + step, stop, step)
    else []
  }

  /** `s[start:stop:step]`. */
  function PySlice<T>(s: seq<T>, start: Option<int>, stop: Option<int>, step: Option<int>): (r: Result<seq<T>>)
    ensures r.Err? <==> step == Some(0)
  {
    var ix := Indices(|s|, start, stop, step);
    if ix.Err? then Err(ix.error)
    else
      var w := Walk(|s|, ix.value.0, ix.value.1, ix.value.2);
      Ok(seq(|w|, j requires 0 <= j < |w| => s[w[j]]))
  }

  /** A unit-step walk covers the range `[i, stop)`. */
  lemma {:induction false} WalkRange(len: nat, i: nat, stop: nat)
    requires stop <= len
    ensures |Walk(len, i, stop, 1)| == if i < stop then stop - i else 0
    decreases stop - i
  {
    if i < stop {
      WalkRange(len, i + 1, stop);
    }
  }

  /** With unit step and bounds inside the list, slicing takes the sub-list. */
  lemma PySliceRange<T>(s: seq<T>, a: nat, b: nat)
    requires a <= b <= |s|
    ensures PySlice(s, Some(a), Some(b), Some(1)) == Ok(s[a..b])
  {
    assert Indices(|s|, Some(a), Some(b), Some(1)) == Ok((a as int, b as int, 1));
    WalkRange(|s|, a, b);
    var w := Walk(|s|, a, b, 1);
    var r := seq(|w|, j requires 0 <= j < |w| => s[w[j]]);
    assert r == s[a..b];
    assert PySlice(s, Some(a), Some(b), Some(1)) == Ok(r);
  }

  /** `s[:]` and `s[::1]` copy the whole list. */
  lemma PySliceWhole<T>(s: seq<T>, step: Option<int>)
    requires step.None? || step == Some(1)
    ensures PySlice(s, None, None, step) == Ok(s)
  {
    assert Indices(|s|, None, None, step) == Ok((0, |s| as int, 1));
    WalkRange(|s|, 0, |s|);
    var w := Walk(|s|, 0, |s|, 1);
    var r := seq(|w|, j requires 0 <= j < |w| => s[w[j]]);
    assert r == s;
    assert PySlice(s, None, None, step) == Ok(r);
  }

  /** `s[w:w + 1:1]`, the slice an integer index builds, holds `s[w]` when `w` is inside the
      list and nothing otherwise. */
  lemma PySliceOne<T>(s: seq<T>, w: nat)
    ensures PySlice(s, Some(w), Some(w + 1), Some(1)) == Ok(if w < |s| then [s[w]] else [])
  {
    if w < |s| {
      PySliceRange(s, w, w + 1);
      assert s[w..w + 1] == [s[w]];
    } else {
      assert Indices(|s|, Some(w), Some(w + 1), Some(1)) == Ok((|s| as int, |s| as int, 1));
      var wk := Walk(|s|, |s|, |s|, 1);
      assert wk == [];
      assert |PySlice(s, Some(w), Some(w + 1), Some(1)).value| == |wk| == 0;
    }
  }

  lemma StepApart(i: int, step: int, a: nat, b: nat)
    requires step != 0 && a < b
    ensures i + a * step != i + b * step
  {
    assert (i + b * step) - (i + a * step) == (b - a) * step;
  }

  /** A slice takes its elements from the list, each position at most once, so it keeps
      distinct elements distinct. */
  lemma PySliceFromList<T>(s: seq<T>, start: Option<int>, stop: Option<int>, step: Option<int>)
    requires PySlice(s, start, stop, step).Ok?
    ensures var r := PySlice(s, start, stop, step).value;
      (forall x :: x in r ==> x in s) && (NoDup(s) ==> NoDup(r))
  {
    var ix := Indices(|s|, start, stop, step).value;
    var w := Walk(|s|, ix.0, ix.1, ix.2);
    var r := PySlice(s, start, stop, step).value;
    assert |r| == |w| && forall j :: 0 <= j < |r| ==> r[j] == s[w[j]];
    forall x | x in r ensures x in s {
      var j :| 0 <= j < |r| && r[j] == x;
    }
    if NoDup(s) {
      forall a, b | 0 <= a < b < |r| ensures r[a] != r[b] {
        StepApart(ix.0, ix.2, a, b);
      }
    }
  }
}
