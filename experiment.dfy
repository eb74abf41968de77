/** The legacy experiment of `clustertools/experiment.py`: a list of values per parameter
    name, kept sorted, whose cartesian product is enumerated as labelled computations and
    looked up by index or by label. */
module Experiments {
  import opened Common
  import opened Sorting
  import opened Values
  import opened Radix
  import opened Cartesian
  import ParamSets

  /** `self.params`: each parameter name and its list of values. */
  type Params = Dict<string, seq<Value>>

  /** One computation: its label and its parameters. */
  type Point = (string, Dict<string, Value>)

  /** `self.params.get(k)`, or the fresh empty list `add_params` starts from. */
  function ListOf(ps: Params, k: string): seq<Value> {
    if HasKey(ps, k) then Get(ps, k) else []
  }

  /** `add_params(**kwargs)`: each keyword's values appended to its list (a tuple element by
      element, anything else once), then the list sorted. */
  function Added(ps: Params, kwargs: Dict<string, Value>): Params {
    if kwargs == [] then ps
    else
      var n := |kwargs| - 1;
      var p := Added(ps, kwargs[..n]);
      var k := kwargs[n].0;
      Put(p, k, Sorted(ListOf(p, k) + ParamSets.ValuesOf(kwargs[n].1)))
  }

  /** `get_metadata()`: the first value of each name with exactly one value. */
  function Metadata(ps: Params): Dict<string, Value> {
    if ps == [] then []
    else
      var n := |ps| - 1;
      var d := Metadata(ps[..n]);
      if |ps[n].1| == 1 then Put(d, ps[n].0, ps[n].1[0]) else d
  }

  /** `get_domain()`: the names with more than one value and their lists. */
  function Domain(ps: Params): Params {
    if ps == [] then []
    else
      var n := |ps| - 1;
      var d := Domain(ps[..n]);
      if |ps[n].1| > 1 then Put(d, ps[n].0, ps[n].1) else d
  }

  /** The length of each list, in dict order. */
  function Lengths(ps: Params): (r: seq<nat>)
    ensures |r| == |ps| && forall i :: 0 <= i < |ps| ==> r[i] == |ps[i].1|
  {
    seq(|ps|, i requires 0 <= i < |ps| => |ps[i].1|)
  }

  /** `len(experiment)`: the product of the list lengths. */
  function Size(ps: Params): nat {
    Product(Lengths(ps))
  }

  /** `keys = self.params.keys(); keys.sort()`. */
  function SortedKeys(ps: Params): (ks: seq<string>)
    ensures multiset(ks) == multiset(Keys(ps)) && SortedBy(ks, TextLe)
    ensures forall i :: 0 <= i < |ks| ==> HasKey(ps, ks[i])
  {
    var ks := SortedText(Keys(ps));
    forall i | 0 <= i < |ks| ensures HasKey(ps, ks[i]) {
      assert ks[i] in multiset(Keys(ps));
    }
    ks
  }

  /** `values = [self.params[k] for k in keys]`. */
  function Columns(ps: Params, ks: seq<string>): (r: seq<seq<Value>>)
    requires forall i :: 0 <= i < |ks| ==> HasKey(ps, ks[i])
    ensures |r| == |ks| && forall i :: 0 <= i < |ks| ==> r[i] == Get(ps, ks[i])
  {
    seq(|ks|, i requires 0 <= i < |ks| && HasKey(ps, ks[i]) => Get(ps, ks[i]))
  }

  /** `dict(zip(keys, v))`. */
  function Zip(ks: seq<string>, t: seq<Value>): (r: Dict<string, Value>)
    requires |ks| == |t|
    ensures |r| == |ks| && forall i :: 0 <= i < |ks| ==> r[i] == (ks[i], t[i])
  {
    seq(|ks|, i requires 0 <= i < |ks| && |ks| == |t| => (ks[i], t[i]))
  }

  /** `"Computation-" + self.name + "-" + str(i)`. */
  function Label(name: string, i: nat): string {
    "Computation-" + name + "-" + DecimalNat(i)
  }

  /** What `__iter__` yields. With no parameter at all it calls a `serialize` method that
      the class does not have, which raises `AttributeError`. */
  function Points(name: string, ps: Params): Result<seq<Point>> {
    if ps == [] then Err(AttributeError)
    else
      var ks := SortedKeys(ps);
      var ts := Cart(Columns(ps, ks));
      assert forall i :: 0 <= i < |ts| ==> |ts[i]| == |ks| by {
        forall i | 0 <= i < |ts| ensures |ts[i]| == |ks| {
          CartMember(ts[i], Columns(ps, ks));
        }
      }
      Ok(seq(|ts|, i requires 0 <= i < |ts| => (Label(name, i), Zip(ks, ts[i]))))
  }

  // ---------------------------------------------------------------- get_params_for

  /** A run of decimal digits. */
  predicate IsDigits(s: string) {
    |s| >= 1 && forall c :: c in s ==> '0' <= c <= '9'
  }

  /** The number a run of decimal digits spells. */
  function DigitsValue(s: string): nat
    requires forall c :: c in s ==> '0' <= c <= '9'
  {
    if s == [] then 0
    else
      var n := |s| - 1;
      assert s[n] in s;
      assert forall c :: c in s[..n] ==> c in s;
      DigitsValue(s[..n]) * 10 + (s[n] as int - '0' as int)
  }

  /** `int(s)` on a string: an optional sign and decimal digits, or `ValueError` (`None`). */
  function ParseInt(s: string): Option<int> {
    if |s| >= 1 && (s[0] == '-' || s[0] == '+') then
      if IsDigits(s[1..]) then
        var v: int := DigitsValue(s[1..]);
        Some(if s[0] == '-' then -v else v)
      else None
    else if IsDigits(s) then Some(DigitsValue(s))
    else None
  }

  /** How `get_params_for` reads its argument: an index, or a label to match. */
  datatype Selector = ByIndex(index: int) | ByLabel(wanted: string)

  /** `int(sel)`: an int is an index, a string that parses is an index and any other string
      is a label; `int` of a tuple raises `TypeError`, which is not caught. */
  function Selection(sel: Value): Result<Selector> {
    match sel
    case Num(i) => Ok(ByIndex(i))
    case Text(s) => if ParseInt(s).Some? then Ok(ByIndex(ParseInt(s).value)) else Ok(ByLabel(s))
    case Tuple(_) => Err(TypeError)
  }

  /** The loop of `get_params_for` stops at position `j`: `i == index or name == label`. */
  predicate Hit(pts: seq<Point>, index: int, wanted: string, j: nat)
    requires j < |pts|
  {
    j == index || pts[j].0 == wanted
  }

  /** The first position at which the loop stops, if any. */
  function FirstHit(pts: seq<Point>, index: int, wanted: string): (r: Option<nat>)
    ensures r.Some? ==> r.value < |pts| && Hit(pts, index, wanted, r.value)
    ensures r.Some? ==> forall j :: 0 <= j < r.value ==> !Hit(pts, index, wanted, j)
    ensures r.None? ==> forall j :: 0 <= j < |pts| ==> !Hit(pts, index, wanted, j)
  {
    if pts == [] then None
    else
      var n := |pts| - 1;
      var r := FirstHit(pts[..n], index, wanted);
      assert forall j :: 0 <= j < n ==> (Hit(pts[..n], index, wanted, j) <==> Hit(pts, index, wanted, j));
      if r.Some? then r else if Hit(pts, index, wanted, n) then Some(n) else None
  }

  /** The loop over the iteration, for the index and the label `get_params_for` settled on. */
  function Scan(name: string, ps: Params, index: int, wanted: string): Result<Point> {
    match Points(name, ps)
    case Err(e) => Err(e)
    case Ok(pts) =>
      var r := FirstHit(pts, index, wanted);
      if r.Some? then Ok(pts[r.value]) else Err(KeyError)
  }

  /** `get_params_for(sel)` (and `experiment[sel]`): an index outside `[0, len)` raises
      `KeyError` before the loop; otherwise the first computation at that index or with
      that label, or `KeyError`. */
  function ParamsFor(name: string, ps: Params, sel: Value): Result<Point> {
    match Selection(sel)
    case Err(e) => Err(e)
    case Ok(ByIndex(i)) => if i < 0 || i >= Size(ps) then Err(KeyError) else Scan(name, ps, i, "")
    case Ok(ByLabel(s)) => Scan(name, ps, -1, s)
  }

  /** One more keyword of `add_params`. */
  lemma AddedStep(ps: Params, kwargs: Dict<string, Value>, i: nat)
    requires i < |kwargs|
    ensures var p := Added(ps, kwargs[..i]);
      Added(ps, kwargs[..i + 1]) == Put(p, kwargs[i].0, Sorted(ListOf(p, kwargs[i].0) + ParamSets.ValuesOf(kwargs[i].1)))
  {
    assert kwargs[..i + 1][..i] == kwargs[..i];
  }

  // ---------------------------------------------------------------- the class

  class Experiment {
    const name: string
    var params: Params

    /** `Experiment(name, params)`: no or an empty mapping starts with no parameter. */
    constructor (name: string, params: Option<Params>)
      ensures this.name == name
      ensures this.params == if params.Some? then params.value else []
    {
      this.name := name;
      this.params := if params.Some? then params.value else [];
    }

    /** `add_params(**kwargs)`. */
    method AddParams(kwargs: Dict<string, Value>)
      modifies this
      ensures params == Added(old(params), kwargs)
    {
      for i := 0 to |kwargs|
        invariant params == Added(old(params), kwargs[..i])
      {
        AddedStep(old(params), kwargs, i);
        var k, v := kwargs[i].0, kwargs[i].1;
        var vp := if HasKey(params, k) then Get(params, k) else [];
        vp := Appended(vp, ParamSets.ValuesOf(v));
        params := Put(params, k, Sorted(vp));
      }
      assert kwargs[..|kwargs|] == kwargs;
    }

    /** The inner loop of `add_params`: `vp.append(vi)` for each value. */
    static method Appended(vp0: seq<Value>, vals: seq<Value>) returns (vp: seq<Value>)
      ensures vp == vp0 + vals
    {
      vp := vp0;
      for j := 0 to |vals|
        invariant vp == vp0 + vals[..j]
      {
        assert vals[..j + 1] == vals[..j] + [vals[j]];
        vp := vp + [vals[j]];
      }
      assert vals[..|vals|] == vals;
    }

    /** `get_metadata()`. */
    method GetMetadata() returns (d: Dict<string, Value>)
      ensures d == Metadata(params)
    {
      d := [];
      for i := 0 to |params|
        invariant d == Metadata(params[..i])
      {
        assert params[..i + 1][..i] == params[..i];
        if |params[i].1| == 1 {
          d := Put(d, params[i].0, params[i].1[0]);
        }
      }
      assert params[..|params|] == params;
    }

    /** `get_domain()`. */
    method GetDomain() returns (d: Params)
      ensures d == Domain(params)
    {
      d := [];
      for i := 0 to |params|
        invariant d == Domain(params[..i])
      {
        assert params[..i + 1][..i] == params[..i];
        if |params[i].1| > 1 {
          d := Put(d, params[i].0, params[i].1);
        }
      }
      assert params[..|params|] == params;
    }

    /** `__len__()`. */
    method Length() returns (nb: nat)
      ensures nb == Size(params)
    {
      nb := 1;
      for i := 0 to |params|
        invariant nb == Weight(Lengths(params), i)
      {
        WeightStep(Lengths(params), i);
        nb := nb * |params[i].1|;
      }
      assert Lengths(params)[..|params|] == Lengths(params);
    }

    /** `get_params_for(sel)`. */
    method GetParamsFor(sel: Value) returns (r: Result<Point>)
      ensures r == ParamsFor(name, params, sel)
    {
      var index, wanted := -1, "";
      var s := Selection(sel);
      if s.Err? {
        return Err(s.error);
      }
      if s.value.ByIndex? {
        index := s.value.index;
        var n := Length();
        if index < 0 || index >= n {
          return Err(KeyError);
        }
      } else {
        wanted := s.value.wanted;
      }
      r := ScanPoints(index, wanted);
    }

    /** `for i, (label, param) in enumerate(self)` until the index or the label matches. */
    method ScanPoints(index: int, wanted: string) returns (r: Result<Point>)
      ensures r == Scan(name, params, index, wanted)
    {
      var items := Points(name, params);
      if items.Err? {
        return Err(items.error);
      }
      var pts := items.value;
      var i := 0;
      while i < |pts|
        invariant i <= |pts|
        invariant forall j :: 0 <= j < i ==> !Hit(pts, index, wanted, j)
      {
        if i == index || pts[i].0 == wanted {
          assert Hit(pts, index, wanted, i);
          assert FirstHit(pts, index, wanted) == Some(i);
          return Ok(pts[i]);
        }
        i := i + 1;
      }
      r := Err(KeyError);
    }
  }
}
