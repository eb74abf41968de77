/** What the clone of `__getitem__` is: an axis narrowed to one value leaves `parameters` and
    `domain` for the metadata, any other axis keeps its place with the narrowed values, the
    original metadata is kept, and the shape lists the remaining axis sizes and the metric
    count. */
module CloneFacts {
  import opened Common
  import opened CubeBuild
  import opened CubeSelect
  import opened CubeSelectFacts
  import opened PySlices

  /** Removing the one occurrence of `y` from a list in which it occurs once. */
  lemma {:induction false} WithoutMiddle<T(!new)>(a: seq<T>, y: T, b: seq<T>)
    requires y !in a && y !in b
    ensures Without(a + [y] + b, y) == a + b
  {
    var s := a + [y] + b;
    if a == [] {
      assert s[1..] == b;
      WithoutAbsent(b, y);
    } else {
      assert s[1..] == a[1..] + [y] + b;
      WithoutMiddle(a[1..], y, b);
      assert s[0] == a[0];
      assert a + b == [a[0]] + (a[1..] + b);
    }
  }

  /** The values slicing or listing leaves all come from the list. */
  lemma NarrowFrom<T>(vals: seq<T>, f: Fixed)
    requires Narrow(vals, f).Ok?
    ensures forall v :: v in Narrow(vals, f).value ==> v in vals
  {
    match f
    case Span(a, b, st) => PySliceFromList(vals, a, b, st);
    case Idx(ixs) =>
      forall v | v in Narrow(vals, f).value ensures v in vals {
        var j :| 0 <= j < |Narrow(vals, f).value| && Narrow(vals, f).value[j] == v;
        assert Ok(v) == PyIndex(vals, ixs[j]);
      }
  }

  /** The values entry `i` leaves on axis `i`. */
  function Narrowed(c: CubeView, pfixed: seq<Fixed>, i: nat): Result<seq<string>>
    requires i < |pfixed|
  {
    if i >= |c.parameters| then Err(IndexError)
    else if !HasKey(c.domain, c.parameters[i]) then Err(KeyError)
    else Narrow(Get(c.domain, c.parameters[i]), pfixed[i])
  }

  /** One round of the clone loop, for axis `name` narrowed to `vals`. */
  function Next(p: Parts, name: string, vals: seq<string>): Parts {
    if |vals| == 1 then Parts(Put(p.metadata, name, vals[0]), Remove(p.domain, name), Without(p.parameters, name), p.shape)
    else p.(domain := Put(p.domain, name, vals), shape := p.shape + [|vals|])
  }

  /** The attributes of the clone after `n` rounds agree with each other: the axes not yet
      visited follow the visited ones that stayed, and each visited axis that stayed has its
      size in `shape`. */
  ghost predicate Shaped(c: CubeView, n: nat, p: Parts) {
    n <= |c.parameters| && |p.shape| <= |p.parameters| &&
    NoDup(p.parameters) && DistinctKeys(p.domain) && DistinctKeys(p.metadata) &&
    (forall x :: x in p.parameters <==> HasKey(p.domain, x)) &&
    (forall x :: HasKey(p.domain, x) ==> !HasKey(p.metadata, x)) &&
    p.parameters[|p.shape|..] == c.parameters[n..] &&
    (forall j :: 0 <= j < |p.shape| ==> p.shape[j] == |Get(p.domain, p.parameters[j])|)
  }

  /** Every remaining axis is an original axis with a part of its values, the axes not yet
      visited are untouched, the original metadata is kept, and every new metadatum is a
      former axis holding one of its values. */
  ghost predicate Origin(c: CubeView, n: nat, p: Parts) {
    Consistent(c) && Shaped(c, n, p) && Sources(c, n, p)
  }

  /** Where the attributes of the clone after `n` rounds come from. */
  ghost predicate Sources(c: CubeView, n: nat, p: Parts)
    requires Consistent(c) && Shaped(c, n, p)
  {
    (forall x :: x in p.parameters ==> x in c.parameters) &&
    (forall x :: x in p.parameters ==> forall v :: v in Get(p.domain, x) ==> v in Get(c.domain, x)) &&
    (forall j :: n <= j < |c.parameters| ==> Get(p.domain, c.parameters[j]) == Get(c.domain, c.parameters[j])) &&
    (forall x :: HasKey(c.metadata, x) ==> HasKey(p.metadata, x) && Get(p.metadata, x) == Get(c.metadata, x)) &&
    (forall x :: HasKey(p.metadata, x) && !HasKey(c.metadata, x) ==>
      x in c.parameters && x !in p.parameters && Get(p.metadata, x) in Get(c.domain, x))
  }

  /** Each of the first `n` axes either moved to the metadata with its one value, or stayed
      with its narrowed values. */
  ghost predicate Outcomes(c: CubeView, pfixed: seq<Fixed>, n: nat, p: Parts) {
    Shaped(c, n, p) && n <= |pfixed| &&
    forall i :: 0 <= i < n ==>
      (Narrowed(c, pfixed, i).Ok? &&
       (|Narrowed(c, pfixed, i).value| == 1 ==>
         c.parameters[i] !in p.parameters && HasKey(p.metadata, c.parameters[i]) &&
         Get(p.metadata, c.parameters[i]) == Narrowed(c, pfixed, i).value[0]) &&
       (|Narrowed(c, pfixed, i).value| != 1 ==>
         c.parameters[i] in p.parameters && Get(p.domain, c.parameters[i]) == Narrowed(c, pfixed, i).value))
  }

  /** Before the first round the clone's attributes are the original's. */
  lemma StartShaped(c: CubeView)
    requires Consistent(c)
    ensures Origin(c, 0, Parts(c.metadata, c.domain, c.parameters, []))
  {
  }

  /** Before round `n` the list of parameters is the axes kept so far, the axis of round `n`,
      and the axes after it. */
  lemma SplitAt(c: CubeView, n: nat, p: Parts)
    requires Shaped(c, n, p) && n < |c.parameters|
    ensures var k := |p.shape|; var name := c.parameters[n];
      p.parameters == p.parameters[..k] + [name] + c.parameters[n + 1..] &&
      name in p.parameters && name !in p.parameters[..k] && name !in c.parameters[n + 1..]
  {
    var name := c.parameters[n];
    var k := |p.shape|;
    assert p.parameters[k..] == [name] + c.parameters[n + 1..] by {
      assert c.parameters[n..] == [name] + c.parameters[n + 1..];
    }
    assert p.parameters == p.parameters[..k] + [name] + c.parameters[n + 1..] by {
      assert p.parameters == p.parameters[..k] + p.parameters[k..];
    }
    NoDupSplit(p.parameters[..k], name, c.parameters[n + 1..]);
  }

  /** A round that moves its axis to the metadata keeps the attributes in agreement. */
  lemma DemoteShaped(c: CubeView, n: nat, p: Parts, v: string)
    requires Shaped(c, n, p) && n < |c.parameters|
    ensures Shaped(c, n + 1, Next(p, c.parameters[n], [v]))
  {
    var name := c.parameters[n];
    var k := |p.shape|;
    var q := Next(p, name, [v]);
    SplitAt(c, n, p);
    PutFacts(p.metadata, name, v);
    RemoveKeeps(p.domain, name);
    WithoutNoDup(p.parameters, name);
    WithoutMiddle(p.parameters[..k], name, c.parameters[n + 1..]);
    assert q.parameters == p.parameters[..k] + c.parameters[n + 1..];
    forall j | 0 <= j < |q.shape| ensures q.shape[j] == |Get(q.domain, q.parameters[j])| {
      assert q.parameters[j] == p.parameters[j];
    }
  }

  /** A round that narrows its axis keeps the attributes in agreement. */
  lemma NarrowShaped(c: CubeView, n: nat, p: Parts, vals: seq<string>)
    requires Shaped(c, n, p) && n < |c.parameters| && |vals| != 1
    ensures Shaped(c, n + 1, Next(p, c.parameters[n], vals))
  {
    var name := c.parameters[n];
    var k := |p.shape|;
    var q := Next(p, name, vals);
    SplitAt(c, n, p);
    PutFacts(p.domain, name, vals);
    assert q.parameters[k + 1..] == c.parameters[n + 1..];
    forall j | 0 <= j < |q.shape| ensures q.shape[j] == |Get(q.domain, q.parameters[j])| {
      if j < k {
        assert p.parameters[j] != name;
      }
    }
  }

  /** A round that moves its axis to the metadata keeps where the remaining axes come from. */
  lemma DemoteAxes(c: CubeView, n: nat, p: Parts, v: string)
    requires Origin(c, n, p) && n < |c.parameters|
    ensures var q := Next(p, c.parameters[n], [v]);
      (forall x :: x in q.parameters ==> x in c.parameters && x != c.parameters[n] && x in p.parameters) &&
      (forall x :: x != c.parameters[n] && HasKey(p.domain, x) ==> HasKey(q.domain, x) && Get(q.domain, x) == Get(p.domain, x)) &&
      (forall j :: n + 1 <= j < |c.parameters| ==> HasKey(q.domain, c.parameters[j]) && Get(q.domain, c.parameters[j]) == Get(c.domain, c.parameters[j]))
  {
    var name := c.parameters[n];
    var q := Next(p, name, [v]);
    SplitAt(c, n, p);
    RemoveKeeps(p.domain, name);
    forall j | n + 1 <= j < |c.parameters|
      ensures HasKey(q.domain, c.parameters[j]) && Get(q.domain, c.parameters[j]) == Get(c.domain, c.parameters[j])
    {
      assert c.parameters[j] in c.parameters[n + 1..];
    }
  }

  /** A round that moves its axis, holding `v`, to the metadata keeps the original metadata
      and adds the axis as a metadatum. */
  lemma DemoteMeta(c: CubeView, n: nat, p: Parts, v: string)
    requires Origin(c, n, p) && n < |c.parameters|
    ensures var name := c.parameters[n]; var q := Next(p, name, [v]);
      HasKey(q.metadata, name) && Get(q.metadata, name) == v && name !in q.parameters &&
      forall x :: x != name ==>
        (HasKey(q.metadata, x) <==> HasKey(p.metadata, x)) &&
        (HasKey(p.metadata, x) ==> Get(q.metadata, x) == Get(p.metadata, x))
  {
    PutFacts(p.metadata, c.parameters[n], v);
  }

  /** A round that moves its axis, holding `v`, to the metadata keeps where every attribute
      comes from. */
  lemma DemoteSources(c: CubeView, n: nat, p: Parts, v: string)
    requires Origin(c, n, p) && n < |c.parameters| && v in Get(c.domain, c.parameters[n])
    requires Shaped(c, n + 1, Next(p, c.parameters[n], [v]))
    ensures Sources(c, n + 1, Next(p, c.parameters[n], [v]))
  {
    var name := c.parameters[n];
    var q := Next(p, name, [v]);
    DemoteAxes(c, n, p, v);
    DemoteMeta(c, n, p, v);
    assert !HasKey(c.metadata, name) by {
      assert name in c.parameters;
    }
  }

  /** A round that moves its axis to the metadata keeps all the clone's records but one. */
  lemma DemoteOrigin(c: CubeView, n: nat, p: Parts, v: string)
    requires Origin(c, n, p) && n < |c.parameters| && v in Get(c.domain, c.parameters[n])
    ensures Origin(c, n + 1, Next(p, c.parameters[n], [v]))
  {
    DemoteShaped(c, n, p, v);
    DemoteSources(c, n, p, v);
  }

  /** A round that narrows its axis to values of that axis keeps where every attribute comes
      from. */
  lemma NarrowSources(c: CubeView, n: nat, p: Parts, vals: seq<string>)
    requires Origin(c, n, p) && n < |c.parameters| && |vals| != 1
    requires forall v :: v in vals ==> v in Get(c.domain, c.parameters[n])
    requires Shaped(c, n + 1, Next(p, c.parameters[n], vals))
    ensures Sources(c, n + 1, Next(p, c.parameters[n], vals))
  {
    var name := c.parameters[n];
    var q := Next(p, name, vals);
    SplitAt(c, n, p);
    PutFacts(p.domain, name, vals);
    forall j | n + 1 <= j < |c.parameters| ensures Get(q.domain, c.parameters[j]) == Get(c.domain, c.parameters[j]) {
      assert c.parameters[j] in c.parameters[n + 1..];
    }
  }

  /** A round that narrows its axis keeps all the clone's records. */
  lemma NarrowOrigin(c: CubeView, n: nat, p: Parts, vals: seq<string>)
    requires Origin(c, n, p) && n < |c.parameters| && |vals| != 1
    requires forall v :: v in vals ==> v in Get(c.domain, c.parameters[n])
    ensures Origin(c, n + 1, Next(p, c.parameters[n], vals))
  {
    NarrowShaped(c, n, p, vals);
    NarrowSources(c, n, p, vals);
  }

  /** A later round leaves alone what happened to the axes before it: the record carries over
      to any parts that agree with the old ones on every other name. */
  lemma OutcomesFrame(c: CubeView, pfixed: seq<Fixed>, n: nat, p: Parts, q: Parts)
    requires Outcomes(c, pfixed, n, p) && Shaped(c, n + 1, q) && n < |pfixed| && NoDup(c.parameters)
    requires var name := c.parameters[n];
      forall x :: x != name ==>
        (x in q.parameters <==> x in p.parameters) &&
        (HasKey(p.metadata, x) ==> HasKey(q.metadata, x) && Get(q.metadata, x) == Get(p.metadata, x)) &&
        (HasKey(p.domain, x) ==> HasKey(q.domain, x) && Get(q.domain, x) == Get(p.domain, x))
    requires Narrowed(c, pfixed, n).Ok?
    requires var vals := Narrowed(c, pfixed, n).value; var name := c.parameters[n];
      (|vals| == 1 ==> name !in q.parameters && HasKey(q.metadata, name) && Get(q.metadata, name) == vals[0]) &&
      (|vals| != 1 ==> name in q.parameters && Get(q.domain, name) == vals)
    ensures Outcomes(c, pfixed, n + 1, q)
  {
    forall i | 0 <= i < n ensures c.parameters[i] != c.parameters[n] {
    }
  }

  /** A round keeps the record of what happened to the axes before it, and adds its own. */
  lemma NextOutcomes(c: CubeView, pfixed: seq<Fixed>, n: nat, p: Parts)
    requires Origin(c, n, p) && Outcomes(c, pfixed, n, p) && n < |c.parameters| && n < |pfixed|
    requires Narrowed(c, pfixed, n).Ok?
    ensures Outcomes(c, pfixed, n + 1, Next(p, c.parameters[n], Narrowed(c, pfixed, n).value))
  {
    var vals := Narrowed(c, pfixed, n).value;
    if |vals| == 1 {
      assert vals == [vals[0]];
      DemoteOutcomes(c, pfixed, n, p, vals[0]);
    } else {
      NarrowOutcomes(c, pfixed, n, p, vals);
    }
  }

  /** A round that moves its axis to the metadata records that it did. */
  lemma DemoteOutcomes(c: CubeView, pfixed: seq<Fixed>, n: nat, p: Parts, v: string)
    requires Origin(c, n, p) && Outcomes(c, pfixed, n, p) && n < |c.parameters| && n < |pfixed|
    requires Narrowed(c, pfixed, n) == Ok([v])
    ensures Outcomes(c, pfixed, n + 1, Next(p, c.parameters[n], [v]))
  {
    DemoteShaped(c, n, p, v);
    DemoteAxes(c, n, p, v);
    DemoteMeta(c, n, p, v);
    OutcomesFrame(c, pfixed, n, p, Next(p, c.parameters[n], [v]));
  }

  /** A round that narrows its axis records the values left. */
  lemma NarrowOutcomes(c: CubeView, pfixed: seq<Fixed>, n: nat, p: Parts, vals: seq<string>)
    requires Origin(c, n, p) && Outcomes(c, pfixed, n, p) && n < |c.parameters| && n < |pfixed|
    requires Narrowed(c, pfixed, n) == Ok(vals) && |vals| != 1
    ensures Outcomes(c, pfixed, n + 1, Next(p, c.parameters[n], vals))
  {
    SplitAt(c, n, p);
    NarrowShaped(c, n, p, vals);
    PutFacts(p.domain, c.parameters[n], vals);
    OutcomesFrame(c, pfixed, n, p, Next(p, c.parameters[n], vals));
  }

  /** Round `n` of the clone loop, when it raises nothing, is `Next` with the narrowed values. */
  lemma RoundValue(c: CubeView, pfixed: seq<Fixed>, n: nat, p: Parts)
    requires Consistent(c) && Shaped(c, n, p) && n < |pfixed| && CloneAxes(c, pfixed, n) == Ok(p)
    requires CloneAxes(c, pfixed, n + 1).Ok?
    ensures n < |c.parameters| && Narrowed(c, pfixed, n).Ok?
    ensures CloneAxes(c, pfixed, n + 1) == Ok(Next(p, c.parameters[n], Narrowed(c, pfixed, n).value))
  {
    SplitAt(c, n, p);
  }

  /** One round keeps all three records. */
  lemma RoundKeeps(c: CubeView, pfixed: seq<Fixed>, n: nat, p: Parts)
    requires Origin(c, n, p) && Outcomes(c, pfixed, n, p) && n < |c.parameters| && n < |pfixed|
    requires Narrowed(c, pfixed, n).Ok?
    ensures var q := Next(p, c.parameters[n], Narrowed(c, pfixed, n).value);
      Origin(c, n + 1, q) && Outcomes(c, pfixed, n + 1, q)
  {
    var name := c.parameters[n];
    var vals := Narrowed(c, pfixed, n).value;
    NarrowFrom(Get(c.domain, name), pfixed[n]);
    NextOutcomes(c, pfixed, n, p);
    if |vals| == 1 {
      assert [vals[0]] == vals;
      DemoteOrigin(c, n, p, vals[0]);
    } else {
      NarrowOrigin(c, n, p, vals);
    }
  }

  /** After any number of rounds that raise nothing, the clone's attributes agree with each
      other, come from the original's, and record what happened to each visited axis. */
  lemma {:induction false} CloneRounds(c: CubeView, pfixed: seq<Fixed>, n: nat)
    requires Consistent(c) && n <= |pfixed| && CloneAxes(c, pfixed, n).Ok?
    ensures Origin(c, n, CloneAxes(c, pfixed, n).value) && Outcomes(c, pfixed, n, CloneAxes(c, pfixed, n).value)
  {
    if n == 0 {
      StartShaped(c);
    } else {
      CloneRounds(c, pfixed, n - 1);
      RoundStep(c, pfixed, n - 1);
    }
  }

  /** One more round that raises nothing keeps all three records. */
  lemma RoundStep(c: CubeView, pfixed: seq<Fixed>, n: nat)
    requires n < |pfixed| && CloneAxes(c, pfixed, n).Ok? && CloneAxes(c, pfixed, n + 1).Ok?
    requires Origin(c, n, CloneAxes(c, pfixed, n).value) && Outcomes(c, pfixed, n, CloneAxes(c, pfixed, n).value)
    ensures Origin(c, n + 1, CloneAxes(c, pfixed, n + 1).value) && Outcomes(c, pfixed, n + 1, CloneAxes(c, pfixed, n + 1).value)
  {
    var p := CloneAxes(c, pfixed, n).value;
    RoundValue(c, pfixed, n, p);
    RoundKeeps(c, pfixed, n, p);
  }

  /** A name occurring once in the middle of a duplicate-free list is in neither part. */
  lemma NoDupSplit<T>(a: seq<T>, y: T, b: seq<T>)
    requires NoDup(a + [y] + b)
    ensures y !in a && y !in b && NoDup(a) && NoDup(b)
  {
    var s := a + [y] + b;
    assert s[|a|] == y;
    forall i | 0 <= i < |a| ensures a[i] != y {
      assert s[i] == a[i];
    }
    forall i | 0 <= i < |b| ensures b[i] != y {
      assert s[|a| + 1 + i] == b[i];
    }
    assert forall i :: 0 <= i < |a| ==> s[i] == a[i];
    assert forall i :: 0 <= i < |b| ==> s[|a| + 1 + i] == b[i];
  }

  /** `shape` lists the size of each axis in parameter order, then the number of metrics. */
  ghost predicate Sized(c: CubeView) {
    |c.shape| == |c.parameters| + 1 && c.shape[|c.parameters|] == |c.metrics| &&
    forall j :: 0 <= j < |c.parameters| ==> HasKey(c.domain, c.parameters[j]) && c.shape[j] == |Get(c.domain, c.parameters[j])|
  }

  /** A clone built from one entry per axis and one for the metrics is consistent and sized,
      shares the name, data list and hasher, and its attributes come from the original's. */
  lemma CloneViewFacts(c: CubeView, fixed: seq<Fixed>)
    requires Consistent(c) && |fixed| >= |c.shape| && CloneView(c, fixed).Ok?
    ensures var v := CloneView(c, fixed).value; var pfixed := fixed[..|fixed| - 1];
      |pfixed| == |c.parameters| &&
      Consistent(v) && Sized(v) && v.name == c.name && v.data == c.data && v.layout == c.layout &&
      Narrow(c.metrics, fixed[|fixed| - 1]) == Ok(v.metrics) &&
      Origin(c, |pfixed|, Parts(v.metadata, v.domain, v.parameters, v.shape[..|v.parameters|])) &&
      Outcomes(c, pfixed, |pfixed|, Parts(v.metadata, v.domain, v.parameters, v.shape[..|v.parameters|]))
  {
    var pfixed := fixed[..|fixed| - 1];
    CloneRounds(c, pfixed, |pfixed|);
    var p := CloneAxes(c, pfixed, |pfixed|).value;
    var v := CloneView(c, fixed).value;
    assert |p.shape| == |p.parameters|;
    assert v.shape[..|v.parameters|] == p.shape;
  }

  /** Indexing a consistent cube into a clone narrows each axis by its entry: an axis left
      with one value leaves `parameters` and `domain` and becomes a metadatum holding that
      value, any other axis stays with exactly the values left; the original metadata is kept,
      the metrics are narrowed too, and `shape` lists the new sizes. */
  lemma SelectClone(c: CubeView, sels: seq<Sel>, v: CubeView)
    requires Consistent(c) && Select(c, sels) == Ok(Sub(v))
    ensures Consistent(v) && Sized(v) && v.name == c.name && v.data == c.data && v.layout == c.layout
    ensures forall m :: m in v.metrics ==> m in c.metrics
    ensures forall x :: x in v.parameters ==> x in c.parameters && forall val :: val in Get(v.domain, x) ==> val in Get(c.domain, x)
    ensures forall x :: HasKey(c.metadata, x) ==> HasKey(v.metadata, x) && Get(v.metadata, x) == Get(c.metadata, x)
    ensures forall x :: HasKey(v.metadata, x) && !HasKey(c.metadata, x) ==>
      x in c.parameters && x !in v.parameters && Get(v.metadata, x) in Get(c.domain, x)
    ensures var fixed := Index(c, sels).value.0;
      |fixed| == |c.shape| &&
      forall i :: 0 <= i < |c.parameters| ==>
        (Narrowed(c, fixed, i).Ok? &&
         (|Narrowed(c, fixed, i).value| == 1 ==>
           c.parameters[i] !in v.parameters && HasKey(v.metadata, c.parameters[i]) &&
           Get(v.metadata, c.parameters[i]) == Narrowed(c, fixed, i).value[0]) &&
         (|Narrowed(c, fixed, i).value| != 1 ==>
           c.parameters[i] in v.parameters && Get(v.domain, c.parameters[i]) == Narrowed(c, fixed, i).value))
  {
    var fixed := Index(c, sels).value.0;
    CloneViewFacts(c, fixed);
    var pfixed := fixed[..|fixed| - 1];
    NarrowFrom(c.metrics, fixed[|fixed| - 1]);
    assert forall i :: 0 <= i < |pfixed| ==> Narrowed(c, pfixed, i) == Narrowed(c, fixed, i);
  }

  /** The clone's attributes after `n` rounds that raise nothing agree with each other. */
  lemma CloneShaped(c: CubeView, pfixed: seq<Fixed>, n: nat)
    requires Consistent(c) && n <= |pfixed| && CloneAxes(c, pfixed, n).Ok?
    ensures Shaped(c, n, CloneAxes(c, pfixed, n).value)
  {
    CloneRounds(c, pfixed, n);
  }

  /** A round whose entry narrows its axis without error raises nothing. */
  lemma RoundOk(c: CubeView, pfixed: seq<Fixed>, n: nat, p: Parts)
    requires Consistent(c) && Shaped(c, n, p) && n < |c.parameters| && n < |pfixed|
    requires CloneAxes(c, pfixed, n) == Ok(p) && Narrowed(c, pfixed, n).Ok?
    ensures CloneAxes(c, pfixed, n + 1).Ok?
  {
    SplitAt(c, n, p);
  }

  /** The clone loop raises nothing when every entry narrows its axis without error. */
  lemma {:induction false} CloneAxesOk(c: CubeView, pfixed: seq<Fixed>, n: nat)
    requires Consistent(c) && n <= |pfixed| && n <= |c.parameters|
    requires forall i :: 0 <= i < n ==> Narrowed(c, pfixed, i).Ok?
    ensures CloneAxes(c, pfixed, n).Ok?
  {
    if n > 0 {
      CloneAxesOk(c, pfixed, n - 1);
      CloneShaped(c, pfixed, n - 1);
      RoundOk(c, pfixed, n - 1, CloneAxes(c, pfixed, n - 1).value);
    }
  }

  /** The index `__call__` builds for one keyword naming a value: a whole slice on every other
      axis and on the metrics, and the value's position on its axis. */
  lemma {:induction false} ResolveOne(c: CubeView, sels: seq<Sel>, j: nat, k: nat, n: nat)
    requires n <= |sels| && j < |sels|
    requires forall i :: 0 <= i < |sels| && i != j ==> sels[i] == Range(Open, Open, None)
    requires sels[j].Name? && IndexByName(c, j, sels[j].s) == Ok(k)
    ensures Resolve(c, sels, n).Ok? && |Resolve(c, sels, n).value.fixed| == n
    ensures Resolve(c, sels, n).value.scalar <==> n == 0 || (n == 1 && j == 0)
    ensures forall i :: 0 <= i < n ==>
      Resolve(c, sels, n).value.fixed[i] == if i == j then Span(Some(k), Some(k + 1), Some(1)) else Full
  {
    if n > 0 {
      ResolveOne(c, sels, j, k, n - 1);
    }
  }

  /** Whole slices everywhere except the position `k` on axis `j`. */
  function OneSpan(n: nat, j: nat, k: nat): (r: seq<Fixed>)
    ensures |r| == n && forall i :: 0 <= i < n ==> r[i] == if i == j then Span(Some(k), Some(k + 1), Some(1)) else Full
  {
    seq(n, i => if i == j then Span(Some(k), Some(k + 1), Some(1)) else Full)
  }

  /** `cube(name=value)` indexes by whole slices and the value's position on its axis, and
      does not ask for a scalar. */
  lemma CallOneIndex(c: CubeView, p: string, val: string)
    requires Consistent(c) && p in c.parameters && HasKey(c.domain, p) && val in Get(c.domain, p)
    ensures var sels := CallIndex(c.parameters, None, [(p, Name(val))]);
      var j := FirstIndex(c.parameters, p); var k := FirstIndex(Get(c.domain, p), val);
      Call(c, None, [(p, Name(val))]) == Select(c, sels) &&
      Index(c, sels) == Ok((OneSpan(|c.shape|, j, k), false))
  {
    var kwargs := [(p, Name(val))];
    var sels := CallIndex(c.parameters, None, kwargs);
    var j := FirstIndex(c.parameters, p);
    var k := FirstIndex(Get(c.domain, p), val);
    forall i | 0 <= i < |sels| && i != j ensures sels[i] == Range(Open, Open, None) {
      if i < |c.parameters| {
        assert c.parameters[i] != p;
        assert !HasKey(kwargs, c.parameters[i]);
      }
    }
    assert Keys(kwargs)[0] == p;
    ResolveOne(c, sels, j, k, |sels|);
    assert Resolve(c, sels, |sels|).value.fixed == OneSpan(|c.shape|, j, k);
  }

  /** What the one-value index narrows each axis to: the chosen value on axis `j`, the whole
      axis elsewhere. */
  lemma OneNarrowed(c: CubeView, j: nat, k: nat, i: nat)
    requires Consistent(c) && j < |c.parameters| && i < |c.parameters|
    requires k < |Get(c.domain, c.parameters[j])|
    ensures Narrowed(c, OneSpan(|c.shape|, j, k), i) ==
      Ok(if i == j then [Get(c.domain, c.parameters[j])[k]] else Get(c.domain, c.parameters[i]))
  {
    assert c.parameters[i] in c.parameters;
    if i == j {
      PySliceOne(Get(c.domain, c.parameters[j]), k);
    } else {
      PySliceWhole(Get(c.domain, c.parameters[i]), None);
    }
  }

  /** The one-value index is not the whole cube. */
  lemma OneNotWhole(c: CubeView, j: nat, k: nat)
    requires Consistent(c) && j < |c.parameters|
    ensures IsWhole(c, OneSpan(|c.shape|, j, k), |c.shape|) == Ok(false)
  {
    var fixed := OneSpan(|c.shape|, j, k);
    WholeValue(c, fixed, |fixed|);
    assert !Keeps(fixed[j], AxisValues(c, j).value);
  }

  /** The clone loop over the one-value index raises nothing. */
  lemma OneAxesOk(c: CubeView, j: nat, k: nat)
    requires Consistent(c) && j < |c.parameters|
    requires k < |Get(c.domain, c.parameters[j])|
    ensures var pfixed := OneSpan(|c.shape|, j, k)[..|c.parameters|];
      CloneAxes(c, pfixed, |pfixed|).Ok?
  {
    var fixed := OneSpan(|c.shape|, j, k);
    var pfixed := fixed[..|c.parameters|];
    forall i | 0 <= i < |pfixed| ensures Narrowed(c, pfixed, i).Ok? {
      OneNarrowed(c, j, k, i);
      assert pfixed[i] == fixed[i];
    }
    CloneAxesOk(c, pfixed, |pfixed|);
  }

  /** The clone raises nothing when neither its loop over the axes nor the metrics entry does. */
  lemma CloneViewOk(c: CubeView, fixed: seq<Fixed>)
    requires fixed != [] && CloneAxes(c, fixed[..|fixed| - 1], |fixed| - 1).Ok?
    requires Narrow(c.metrics, fixed[|fixed| - 1]).Ok?
    ensures CloneView(c, fixed).Ok?
  {
  }

  /** The clone built from the one-value index raises nothing. */
  lemma OneClone(c: CubeView, j: nat, k: nat)
    requires Consistent(c) && j < |c.parameters|
    requires k < |Get(c.domain, c.parameters[j])|
    ensures CloneView(c, OneSpan(|c.shape|, j, k)).Ok?
  {
    var fixed := OneSpan(|c.shape|, j, k);
    OneAxesOk(c, j, k);
    assert fixed[..|fixed| - 1] == fixed[..|c.parameters|];
    assert fixed[|fixed| - 1] == Full;
    PySliceWhole(c.metrics, None);
    CloneViewOk(c, fixed);
  }

  /** The one-value index selects a clone. */
  lemma OneSelect(c: CubeView, sels: seq<Sel>, j: nat, k: nat)
    requires Consistent(c) && j < |c.parameters|
    requires k < |Get(c.domain, c.parameters[j])|
    requires Index(c, sels) == Ok((OneSpan(|c.shape|, j, k), false))
    ensures Select(c, sels).Ok? && Select(c, sels).value.Sub?
  {
    OneNotWhole(c, j, k);
    OneClone(c, j, k);
  }

  /** `cube(name=value)` on a consistent cube is a consistent clone in which that axis became
      the metadatum `name = value`, the metadata are kept, no axis is added, and every other
      axis with more or fewer than one value is kept whole. */
  lemma CallOne(c: CubeView, p: string, val: string)
    requires Consistent(c) && p in c.parameters && HasKey(c.domain, p) && val in Get(c.domain, p)
    ensures var r := Call(c, None, [(p, Name(val))]);
      r.Ok? && r.value.Sub? && Consistent(r.value.view) &&
      p !in r.value.view.parameters && HasKey(r.value.view.metadata, p) && Get(r.value.view.metadata, p) == val &&
      (forall x :: x in r.value.view.parameters ==> x in c.parameters) &&
      (forall x :: HasKey(c.metadata, x) ==>
        HasKey(r.value.view.metadata, x) && Get(r.value.view.metadata, x) == Get(c.metadata, x)) &&
      forall x :: x in c.parameters && x != p && |Get(c.domain, x)| != 1 ==>
        x in r.value.view.parameters && HasKey(r.value.view.domain, x) && Get(r.value.view.domain, x) == Get(c.domain, x)
  {
    var sels := CallIndex(c.parameters, None, [(p, Name(val))]);
    var j := FirstIndex(c.parameters, p);
    var k := FirstIndex(Get(c.domain, p), val);
    CallOneIndex(c, p, val);
    OneSelect(c, sels, j, k);
    var v := Select(c, sels).value.view;
    SelectClone(c, sels, v);
    forall x | x in c.parameters && x != p && |Get(c.domain, x)| != 1
      ensures x in v.parameters && HasKey(v.domain, x) && Get(v.domain, x) == Get(c.domain, x)
    {
      OneNarrowed(c, j, k, FirstIndex(c.parameters, x));
    }
    OneNarrowed(c, j, k, j);
  }
}
