/** What the state automaton promises: equality is an equivalence that ignores progress,
    `is_not_up` settles a state once, and `first_critical` decides where a critical run
    restarts. */
module StateFacts {
  import opened States

  /** Both states are instances of the same class. */
  predicate SameClass(a: State, b: State) {
    (a.Pending? && b.Pending?) || (a.Launchable? && b.Launchable?) ||
    (a.Completed? && b.Completed?) || (a.Aborted? && b.Aborted?) ||
    (a.Incomplete? && b.Incomplete?) || (a.Running? && b.Running?) ||
    (a.Critical? && b.Critical?) || (a.Partial? && b.Partial?)
  }

  /** `get_name()` names the class: two states share a name exactly when they share a
      class, so `__eq__`'s `isinstance(other, self.__class__)` is the test `Eq` makes. */
  lemma NameIsClass(a: State, b: State)
    ensures Name(a) == Name(b) <==> SameClass(a, b)
  {
  }

  /** Every concrete state class is a leaf of the hierarchy, so `__eq__` is an equivalence
      in spite of its `isinstance`. */
  lemma EqEquivalence(a: State, b: State, c: State)
    ensures Eq(a, a)
    ensures Eq(a, b) ==> Eq(b, a)
    ensures Eq(a, b) && Eq(b, c) ==> Eq(a, c)
  {
  }

  /** Equality ignores the progress: a state equals its updated copy. */
  lemma EqIgnoresProgress(s: State, p: real)
    requires IsWorking(s)
    ensures Eq(s, UpdateProgress(s, p)) && Eq(s, UpdateProgressAsWritten(s, p))
  {
  }

  /** `is_not_up` settles a state: a second call changes nothing. */
  lemma IsNotUpIdempotent(s: State)
    ensures IsNotUp(IsNotUp(s)) == IsNotUp(s)
  {
  }

  /** `reset()` forgets the class: resetting a corrected or reset state is resetting it. */
  lemma ResetForgets(s: State, e: Exception)
    ensures Reset(Reset(s)) == Reset(s)
    ensures Reset(IsNotUp(s)) == Reset(s)
    ensures Reset(Abort(s, e)) == Reset(s)
  {
  }

  /** A run that fails at its first critical point starts again; one that fails at a later
      one, after a partial save, is incomplete. */
  lemma CriticalFate(s: State)
    requires s.Running? || s.Partial?
    ensures s.Running? ==> IsNotUp(ToCritical(s)) == Reset(s)
    ensures s.Partial? ==> IsNotUp(ToCritical(s)) == IsNotUp(s)
  {
  }

  /** The routine of the state tests: pending, running, critical, then any number of
      partial saves, then completed; the run keeps its name and progress throughout and
      only the first critical state is marked first. */
  lemma Routine(s: State, saves: nat)
    requires s.Pending?
    ensures var c := ToCritical(ToRunning(s));
      c.firstCritical && SameRun(s, c) &&
      var d := Resaved(c, saves);
      d.Critical? && SameRun(s, d) && (saves > 0 ==> !d.firstCritical) &&
      ToCompleted(d) == Completed(s.compName, s.progress)
  {
    ResavedFacts(ToCritical(ToRunning(s)), saves);
  }

  /** `to_partial()` then `to_critical()`, `saves` times over. */
  function Resaved(c: State, saves: nat): State
    requires c.Critical?
  {
    if saves == 0 then c else ToCritical(ToPartial(Resaved(c, saves - 1)))
  }

  lemma {:induction false} ResavedFacts(c: State, saves: nat)
    requires c.Critical?
    ensures Resaved(c, saves).Critical? && SameRun(c, Resaved(c, saves))
    ensures saves > 0 ==> !Resaved(c, saves).firstCritical
  {
    if saves > 0 {
      ResavedFacts(c, saves - 1);
    }
  }

  // ---------------------------------------------------------------- update_progress

  /** A first critical state whose progress is updated as written loses its flag, so a
      later `is_not_up` makes it incomplete instead of launchable. */
  lemma UpdateProgressDropsFlag()
    ensures var s := Critical("c", 0.5, true);
      IsNotUp(s) == Launchable("c", 0.5) &&
      IsNotUp(UpdateProgressAsWritten(s, 0.75)) == Incomplete("c", 0.75)
  {
  }

  /** Every first critical state loses its flag when its progress is updated as written:
      `is_not_up` makes it launchable before the update and incomplete after it. */
  lemma UpdateProgressDropsFlagAlways(s: State, p: real)
    requires s.Critical? && s.firstCritical
    ensures IsNotUp(s) == Launchable(s.compName, s.progress)
    ensures IsNotUp(UpdateProgressAsWritten(s, p)) == Incomplete(s.compName, p)
  {
  }

  /** Updating the progress changes nothing else, so `is_not_up` settles the state in the
      same class either way. */
  lemma UpdateProgressKeepsFate(s: State, p: real)
    requires IsWorking(s)
    ensures Eq(IsNotUp(s), IsNotUp(UpdateProgress(s, p))) && IsNotUp(UpdateProgress(s, p)).progress == p
  {
  }
}
