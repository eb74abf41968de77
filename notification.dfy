/** The legacy notification lookups of `clustertools/notification.py`: a job dict maps
    each computation name to its notification, whose `STATE` entry is one of eight state
    names; `Historic` keeps the job dict of an experiment, corrected for the computations
    that claim to run or wait but are not queued, and the same dict grouped by state. */
module Notifications {
  import opened Common
  import Experiments

  const Running := "RUNNING"
  const Completed := "COMPLETED"
  const Aborted := "ABORTED"
  const Pending := "PENDING"
  const Launchable := "LAUNCHABLE"
  const Partial := "PARTIAL"
  const Incomplete := "INCOMPLETE"
  const Critical := "CRITIC"

  /** A notification: its `STATE` and the other entries (date, last save, duration,
      exception), carried as they are. */
  datatype Info = Info(state: string, fields: Dict<string, string>)

  /** `{comp_name: notification}` in iteration order. */
  type JobDict = Dict<string, Info>

  /** `is_up(status)`: the computation has run, runs, waits in the queue or saved part of
      its work. */
  predicate IsUp(status: string) {
    status == Completed || status == Running || status == Pending || status == Partial
  }

  /** `_filter(job_dict, status)`: the entries in that state, in iteration order. */
  function Filter(d: JobDict, status: string): (r: JobDict)
    ensures |r| <= |d|
  {
    if d == [] then []
    else
      var n := |d| - 1;
      Filter(d[..n], status) + (if d[n].1.state == status then [d[n]] else [])
  }

  /** `sorted.get(state)`, or the fresh empty dict `_sort_by_state` starts a state from. */
  function BucketOf(sd: Dict<string, JobDict>, status: string): JobDict {
    if HasKey(sd, status) then Get(sd, status) else []
  }

  /** `_sort_by_state(job_dict)`: each entry stored under its name in the dict of its state;
      a state gets its dict when its first entry is met. */
  function ByState(d: JobDict): Dict<string, JobDict> {
    if d == [] then []
    else
      var n := |d| - 1;
      var sd := ByState(d[..n]);
      var s := d[n].1.state;
      Put(sd, s, Put(BucketOf(sd, s), d[n].0, d[n].1))
  }

  /** `count_by_state()`: the size of each state's dict. */
  function Counts(sd: Dict<string, JobDict>): (r: Dict<string, nat>)
    ensures |r| == |sd| && forall i :: 0 <= i < |sd| ==> r[i] == (sd[i].0, |sd[i].1|)
  {
    seq(|sd|, i requires 0 <= i < |sd| => (sd[i].0, |sd[i].1|))
  }

  /** `get_state(comp_name)`: a computation without a notification is launchable. */
  function StateOf(d: JobDict, comp: string): string {
    if HasKey(d, comp) then Get(d, comp).state else Launchable
  }

  /** `is_launchable(comp_name)`; the log lines for aborted and incomplete states are left
      out. */
  predicate IsLaunchable(d: JobDict, comp: string) {
    StateOf(d, comp) == Launchable
  }

  // ---------------------------------------------------------------- refresh

  /** `launchables` of `refresh`: running or pending computations that are not queued. */
  function Relaunched(d: JobDict, queued: set<string>): set<string> {
    (set k | k in Keys(Filter(d, Running)) && k !in queued) +
    (set k | k in Keys(Filter(d, Pending)) && k !in queued)
  }

  /** `incompletes` of `refresh`: partial computations that are not queued. */
  function Stalled(d: JobDict, queued: set<string>): set<string> {
    set k | k in Keys(Filter(d, Partial)) && k !in queued
  }

  /** The entries named in `ks` with their `STATE` set to `status`. */
  function Relabel(d: JobDict, ks: set<string>, status: string): (r: JobDict)
    ensures |r| == |d| && Keys(r) == Keys(d)
    ensures forall i :: 0 <= i < |d| ==>
      r[i] == if d[i].0 in ks then (d[i].0, d[i].1.(state := status)) else d[i]
  {
    var r := seq(|d|, i requires 0 <= i < |d| =>
      if d[i].0 in ks then (d[i].0, d[i].1.(state := status)) else d[i]);
    assert Keys(r) == Keys(d);
    r
  }

  /** What `refresh` makes of one notification of computation `name`. */
  function Reclassify(name: string, info: Info, queued: set<string>): Info {
    if name !in queued && (info.state == Running || info.state == Pending) then info.(state := Launchable)
    else if name !in queued && info.state == Partial then info.(state := Incomplete)
    else info
  }

  /** The job dict `refresh` keeps: every notification reclassified in place. */
  function Reclassified(d: JobDict, queued: set<string>): (r: JobDict)
    ensures |r| == |d| && Keys(r) == Keys(d)
    ensures forall i :: 0 <= i < |d| ==> r[i] == (d[i].0, Reclassify(d[i].0, d[i].1, queued))
  {
    var r := seq(|d|, i requires 0 <= i < |d| => (d[i].0, Reclassify(d[i].0, d[i].1, queued)));
    assert Keys(r) == Keys(d);
    r
  }

  /** One more name of a relabelling loop. */
  lemma RelabelStep(d: JobDict, done: set<string>, k: string, status: string)
    requires DistinctKeys(d) && HasKey(d, k) && k !in done
    ensures var r := Relabel(d, done, status);
      HasKey(r, k) && Put(r, k, Get(r, k).(state := status)) == Relabel(d, done + {k}, status)
  {
    var r := Relabel(d, done, status);
    var p := Slot(d, k);
    assert Slot(r, k) == p;
    assert Put(r, k, Get(r, k).(state := status)) == r[p := (k, d[p].1.(state := status))];
    forall i | 0 <= i < |d| && i != p ensures d[i].0 != k {
      assert Keys(d)[i] == d[i].0 && Keys(d)[p] == k;
    }
  }

  /** The loops of `refresh` over `launchables` and `incompletes`: set `STATE` for each
      name, in whatever order the set yields them. */
  method SetStates(d: JobDict, ks: set<string>, status: string) returns (r: JobDict)
    requires DistinctKeys(d) && forall k :: k in ks ==> HasKey(d, k)
    ensures r == Relabel(d, ks, status)
  {
    r := d;
    var todo := ks;
    assert Relabel(d, {}, status) == d;
    while todo != {}
      invariant todo <= ks
      invariant r == Relabel(d, ks - todo, status)
      decreases |todo|
    {
      var k :| k in todo;
      RelabelStep(d, ks - todo, k, status);
      assert (ks - todo) + {k} == ks - (todo - {k});
      var info := Get(r, k);
      r := Put(r, k, info.(state := status));
      todo := todo - {k};
    }
    assert ks - todo == ks;
  }

  /** The loop of `_sort_by_state`. */
  method SortByState(d: JobDict) returns (sd: Dict<string, JobDict>)
    ensures sd == ByState(d)
  {
    sd := [];
    for i := 0 to |d|
      invariant sd == ByState(d[..i])
    {
      assert d[..i + 1][..i] == d[..i];
      var k, v := d[i].0, d[i].1;
      var bucket := BucketOf(sd, v.state);
      sd := Put(sd, v.state, Put(bucket, k, v));
    }
    assert d[..|d|] == d;
  }

  class Historic {
    var jobDict: JobDict
    var stateDict: Dict<string, JobDict>

    /** `Historic(exp_name, user)`, given the notifications it loads and the names the
        scheduler reports as queued or running. */
    constructor (loaded: JobDict, queued: set<string>)
      requires DistinctKeys(loaded)
      ensures jobDict == Reclassified(loaded, queued) && stateDict == ByState(jobDict)
    {
      jobDict, stateDict := [], [];
      new;
      Refresh(loaded, queued);
    }

    /** `refresh()`: running or pending notifications whose computation is not queued
        become launchable, partial ones become incomplete; then the dict is grouped by
        state. Writing the corrections back to storage is left out. */
    method Refresh(loaded: JobDict, queued: set<string>)
      requires DistinctKeys(loaded)
      modifies this
      ensures jobDict == Reclassified(loaded, queued) && stateDict == ByState(jobDict)
    {
      var launchables := Relaunched(loaded, queued);
      var incompletes := Stalled(loaded, queued);
      StaleNames(loaded, queued);
      var d := SetStates(loaded, launchables, Launchable);
      d := SetStates(d, incompletes, Incomplete);
      RelabelsReclassify(loaded, queued);
      jobDict := d;
      stateDict := SortByState(d);
    }
  }

  /** Which names the two sets of `refresh` hold. */
  lemma StaleNames(d: JobDict, queued: set<string>)
    requires DistinctKeys(d)
    ensures forall k :: k in Relaunched(d, queued) <==>
      HasKey(d, k) && (Get(d, k).state == Running || Get(d, k).state == Pending) && k !in queued
    ensures forall k :: k in Stalled(d, queued) <==>
      HasKey(d, k) && Get(d, k).state == Partial && k !in queued
  {
    forall k ensures HasKey(Filter(d, Running), k) <==> HasKey(d, k) && Get(d, k).state == Running
      ensures HasKey(Filter(d, Pending), k) <==> HasKey(d, k) && Get(d, k).state == Pending
      ensures HasKey(Filter(d, Partial), k) <==> HasKey(d, k) && Get(d, k).state == Partial
    {
      FilterLookup(d, Running, k);
      FilterLookup(d, Pending, k);
      FilterLookup(d, Partial, k);
    }
  }

  /** Relabelling the stale names is reclassifying every notification. */
  lemma RelabelsReclassify(d: JobDict, queued: set<string>)
    requires DistinctKeys(d)
    ensures Relabel(Relabel(d, Relaunched(d, queued), Launchable), Stalled(d, queued), Incomplete) ==
      Reclassified(d, queued)
  {
    StaleNames(d, queued);
    var r1 := Relabel(d, Relaunched(d, queued), Launchable);
    var r2 := Relabel(r1, Stalled(d, queued), Incomplete);
    forall i | 0 <= i < |d| ensures r2[i] == Reclassified(d, queued)[i] {
      GetAt(d, i);
    }
  }

  /** The entries of `_filter`, item by item. */
  lemma {:induction false} FilterItems(d: JobDict, status: string, x: (string, Info))
    ensures x in Filter(d, status) <==> x in d && x.1.state == status
  {
    if d != [] {
      var n := |d| - 1;
      FilterItems(d[..n], status, x);
      assert d == d[..n] + [d[n]];
    }
  }

  /** `_filter` keeps distinct names distinct. */
  lemma {:induction false} FilterDistinct(d: JobDict, status: string)
    requires DistinctKeys(d)
    ensures DistinctKeys(Filter(d, status))
  {
    if d != [] {
      var n := |d| - 1;
      DistinctKeysPrefix(d, n);
      FilterDistinct(d[..n], status);
      var f := Filter(d[..n], status);
      if d[n].1.state == status {
        KeysConcat(f, [d[n]]);
        forall j | 0 <= j < |f| ensures f[j].0 != d[n].0 {
          FilterItems(d[..n], status, f[j]);
          var i :| 0 <= i < n && d[..n][i] == f[j];
          assert Keys(d)[i] == f[j].0 && Keys(d)[n] == d[n].0;
        }
        NoDupAppend(Keys(f), d[n].0);
      }
    }
  }

  /** `_filter(job_dict, status)` holds exactly the computations in that state, each with
      its own notification. */
  lemma FilterLookup(d: JobDict, status: string, k: string)
    requires DistinctKeys(d)
    ensures DistinctKeys(Filter(d, status))
    ensures HasKey(Filter(d, status), k) <==> HasKey(d, k) && Get(d, k).state == status
    ensures HasKey(Filter(d, status), k) ==> Get(Filter(d, status), k) == Get(d, k)
  {
    var f := Filter(d, status);
    FilterDistinct(d, status);
    if HasKey(d, k) && Get(d, k).state == status {
      ItemIn(d, k, Get(d, k));
      FilterItems(d, status, (k, Get(d, k)));
      ItemIn(f, k, Get(d, k));
    }
    if HasKey(f, k) {
      ItemIn(f, k, Get(f, k));
      FilterItems(d, status, (k, Get(f, k)));
      ItemIn(d, k, Get(f, k));
    }
  }

  /** `yield_not_done_computation`: the labelled points, in order, whose computation is
      launchable in the historic's job dict. */
  function NotDone(pts: seq<Experiments.Point>, d: JobDict): (r: seq<Experiments.Point>)
    ensures |r| <= |pts|
  {
    if pts == [] then []
    else
      var n := |pts| - 1;
      NotDone(pts[..n], d) + (if IsLaunchable(d, pts[n].0) then [pts[n]] else [])
  }

  /** `yield_not_done_computation(experiment)` with the historic's job dict given; it
      fails as iterating the experiment does. */
  function NotDoneOf(name: string, ps: Experiments.Params, d: JobDict): Result<seq<Experiments.Point>> {
    match Experiments.Points(name, ps)
    case Err(e) => Err(e)
    case Ok(pts) => Ok(NotDone(pts, d))
  }
}
