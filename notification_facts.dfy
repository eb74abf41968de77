/** What the notification lookups promise: `refresh` leaves no computation that is not
    queued claiming to run, wait or have saved part of its work, and reclassifies each
    notification on its own; `_sort_by_state` files each computation under its state, and
    the counts add up to the number of notifications; `yield_not_done_computation` keeps,
    in order, exactly the launchable computations. */
module NotificationFacts {
  import opened Common
  import Experiments
  import MonitorFacts
  import opened Notifications

  // ---------------------------------------------------------------- refresh

  /** After `refresh`, each computation keeps its place and its other entries; a running or
      pending one that is not queued is launchable, a partial one that is not queued is
      incomplete, and every other notification is kept as it was. */
  lemma RefreshRule(d: JobDict, queued: set<string>, k: string)
    requires DistinctKeys(d) && HasKey(d, k)
    ensures var r := Reclassified(d, queued);
      var s := Get(d, k).state;
      DistinctKeys(r) && HasKey(r, k) && Slot(r, k) == Slot(d, k) &&
      Get(r, k).fields == Get(d, k).fields &&
      Get(r, k).state ==
        if k !in queued && (s == Running || s == Pending) then Launchable
        else if k !in queued && s == Partial then Incomplete
        else s
  {
    GetAt(d, Slot(d, k));
  }

  /** After `refresh`, a computation that claims to be up but has not completed is queued. */
  lemma RefreshSettles(d: JobDict, queued: set<string>, k: string)
    requires DistinctKeys(d)
    ensures var r := Reclassified(d, queued);
      HasKey(r, k) && IsUp(Get(r, k).state) && Get(r, k).state != Completed ==> k in queued
  {
    if HasKey(d, k) {
      RefreshRule(d, queued, k);
    }
  }

  /** Refreshing against the same queue twice is refreshing once. */
  lemma RefreshIdempotent(d: JobDict, queued: set<string>)
    ensures Reclassified(Reclassified(d, queued), queued) == Reclassified(d, queued)
  {
    var r := Reclassified(d, queued);
    assert forall i :: 0 <= i < |r| ==> Reclassified(r, queued)[i] == r[i];
  }

  /** After `refresh`, `is_launchable` holds exactly for a computation without a
      notification, one already launchable, and a running or pending one that is not
      queued. */
  lemma RefreshLaunchable(d: JobDict, queued: set<string>, c: string)
    requires DistinctKeys(d)
    ensures IsLaunchable(Reclassified(d, queued), c) <==>
      !HasKey(d, c) || Get(d, c).state == Launchable ||
      (c !in queued && (Get(d, c).state == Running || Get(d, c).state == Pending))
  {
    if HasKey(d, c) {
      RefreshRule(d, queued, c);
    }
  }

  // ---------------------------------------------------------------- _sort_by_state

  /** `_sort_by_state` keeps, for each state, exactly `_filter(job_dict, state)`, and has a
      dict for a state exactly when some notification is in it. */
  lemma {:induction false} ByStateBucket(d: JobDict, s: string)
    requires DistinctKeys(d)
    ensures DistinctKeys(ByState(d))
    ensures BucketOf(ByState(d), s) == Filter(d, s)
    ensures HasKey(ByState(d), s) <==> Filter(d, s) != []
  {
    if d != [] {
      var n := |d| - 1;
      var sd := ByState(d[..n]);
      var t := d[n].1.state;
      LastFresh(d);
      ByStateBucket(d[..n], s);
      ByStateBucket(d[..n], t);
      var b := BucketOf(sd, t);
      PutFacts(sd, t, Put(b, d[n].0, d[n].1));
    }
  }

  /** The last notification is new to the state dict it is filed in. */
  lemma LastFresh(d: JobDict)
    requires DistinctKeys(d) && d != []
    ensures var n := |d| - 1;
      DistinctKeys(d[..n]) && !HasKey(Filter(d[..n], d[n].1.state), d[n].0)
  {
    var n := |d| - 1;
    DistinctKeysPrefix(d, n);
    FilterLookup(d[..n], d[n].1.state, d[n].0);
    assert Keys(d[..n]) == Keys(d)[..n];
  }

  /** Each computation is filed under exactly one state, its own, with its notification. */
  lemma ByStatePartition(d: JobDict, s: string, k: string)
    requires DistinctKeys(d)
    ensures var b := BucketOf(ByState(d), s);
      (HasKey(b, k) <==> HasKey(d, k) && Get(d, k).state == s) &&
      (HasKey(b, k) ==> Get(b, k) == Get(d, k))
  {
    ByStateBucket(d, s);
    FilterLookup(d, s, k);
  }

  /** The size of one state's dict. */
  function JobCount(item: (string, JobDict)): int {
    |item.1|
  }

  /** The state dicts hold every notification once. */
  lemma {:induction false} ByStateSize(d: JobDict)
    requires DistinctKeys(d)
    ensures SumOf(ByState(d), JobCount) == |d|
  {
    if d != [] {
      var n := |d| - 1;
      var sd := ByState(d[..n]);
      var t := d[n].1.state;
      var k := d[n].0;
      LastFresh(d);
      ByStateSize(d[..n]);
      ByStateBucket(d[..n], t);
      var b := BucketOf(sd, t);
      var nb := Put(b, k, d[n].1);
      assert |nb| == |b| + 1;
      if HasKey(sd, t) {
        var p := Common.Slot(sd, t);
        assert Put(sd, t, nb) == sd[p := (t, nb)];
        MonitorFacts.SumReplace(sd, p, (t, nb), JobCount);
      } else {
        SumConcat(sd, [(t, nb)], JobCount);
        assert SumOf([(t, nb)], JobCount) == |nb| by { assert [(t, nb)][..0] == []; }
      }
    }
  }

  /** The counts of `count_by_state` add up to the number of notifications, and each is
      the number of computations in its state. */
  lemma CountsSum(d: JobDict)
    requires DistinctKeys(d)
    ensures var c := Counts(ByState(d));
      SumOf(c, (item: (string, nat)) => item.1 as int) == |d| &&
      DistinctKeys(c) &&
      forall s :: HasKey(c, s) ==> Get(c, s) == |Filter(d, s)|
  {
    var sd := ByState(d);
    var c := Counts(sd);
    ByStateSize(d);
    SumPointwise(c, (item: (string, nat)) => item.1 as int, sd, JobCount);
    ByStateBucket(d, "");
    assert Keys(c) == Keys(sd);
    forall s | HasKey(c, s) ensures Get(c, s) == |Filter(d, s)| {
      assert Common.Slot(sd, s) == Common.Slot(c, s);
      ByStateBucket(d, s);
    }
  }

  // ---------------------------------------------------------------- yield_not_done_computation

  /** `yield_not_done_computation` yields exactly the points whose computation is
      launchable. */
  lemma {:induction false} NotDoneMembers(pts: seq<Experiments.Point>, d: JobDict, x: Experiments.Point)
    ensures x in NotDone(pts, d) <==> x in pts && IsLaunchable(d, x.0)
  {
    if pts != [] {
      var n := |pts| - 1;
      NotDoneMembers(pts[..n], d, x);
      assert pts == pts[..n] + [pts[n]];
    }
  }

  /** It keeps the experiment's order: the yield of a concatenation is the concatenation
      of the yields. */
  lemma {:induction false} NotDoneConcat(a: seq<Experiments.Point>, b: seq<Experiments.Point>, d: JobDict)
    ensures NotDone(a + b, d) == NotDone(a, d) + NotDone(b, d)
  {
    if b == [] {
      assert a + b == a;
    } else {
      var n := |b| - 1;
      var ab := a + b;
      NotDoneStep(ab, d);
      NotDoneStep(b, d);
      assert ab[..|ab| - 1] == a + b[..n] && ab[|ab| - 1] == b[n];
      NotDoneConcat(a, b[..n], d);
    }
  }

  /** One more point of the generator. */
  lemma NotDoneStep(pts: seq<Experiments.Point>, d: JobDict)
    requires pts != []
    ensures var n := |pts| - 1;
      NotDone(pts, d) == NotDone(pts[..n], d) + if IsLaunchable(d, pts[n].0) then [pts[n]] else []
  {
  }

  /** A computation is skipped exactly when it is not launchable: with every computation
      launchable, everything is yielded. */
  lemma {:induction false} NotDoneAll(pts: seq<Experiments.Point>, d: JobDict)
    requires forall i :: 0 <= i < |pts| ==> IsLaunchable(d, pts[i].0)
    ensures NotDone(pts, d) == pts
  {
    if pts != [] {
      var n := |pts| - 1;
      assert pts == pts[..n] + [pts[n]];
      NotDoneAll(pts[..n], d);
    }
  }
}
