/** The state automaton of one computation (`clustertools/state.py`): one constructor per
    state class, each transition a fresh value. The date a state records is left out. */
module States {

  /** The exception an aborted state carries, as an opaque value. */
  type Exception = string

  /** A computation's state: its class, the computation's name and its progress ratio;
      an aborted state also holds its exception and a critical one whether it is the
      first critical state of its run. */
  datatype State =
    | Pending(compName: string, progress: real)
    | Launchable(compName: string, progress: real)
    | Completed(compName: string, progress: real)
    | Aborted(compName: string, progress: real, exception: Exception)
    | Incomplete(compName: string, progress: real)
    | Running(compName: string, progress: real)
    | Critical(compName: string, progress: real, firstCritical: bool)
    | Partial(compName: string, progress: real)

  const RUNNING := "RUNNING"
  const COMPLETED := "COMPLETED"
  const ABORTED := "ABORTED"
  const PENDING := "PENDING"
  const LAUNCHABLE := "LAUNCHABLE"
  const PARTIAL := "PARTIAL"
  const INCOMPLETE := "INCOMPLETE"
  const CRITICAL := "CRITIC"

  /** `get_name()`. */
  function Name(s: State): string {
    match s
    case Pending(_, _) => PENDING
    case Launchable(_, _) => LAUNCHABLE
    case Completed(_, _) => COMPLETED
    case Aborted(_, _, _) => ABORTED
    case Incomplete(_, _) => INCOMPLETE
    case Running(_, _) => RUNNING
    case Critical(_, _, _) => CRITICAL
    case Partial(_, _) => PARTIAL
  }

  /** An instance of `WorkingState`. */
  predicate IsWorking(s: State) {
    s.Running? || s.Critical? || s.Partial?
  }

  /** Waiting or working: what `is_not_up` may have to correct. */
  predicate ClaimsUp(s: State) {
    s.Pending? || IsWorking(s)
  }

  /** Same computation name and progress. */
  predicate SameRun(s: State, r: State) {
    r.compName == s.compName && r.progress == s.progress
  }

  /** `reset()`: `LaunchableState.from_(self)`. */
  function Reset(s: State): (r: State)
    ensures r.Launchable? && SameRun(s, r)
  {
    Launchable(s.compName, s.progress)
  }

  /** `abort(exception)`: `AbortedState.from_(self, exception)`. */
  function Abort(s: State, e: Exception): (r: State)
    ensures r.Aborted? && r.exception == e && SameRun(s, r)
  {
    Aborted(s.compName, s.progress, e)
  }

  /** `is_not_up()`: the state a computation is really in once it is known to be neither
      queued nor running. */
  function IsNotUp(s: State): (r: State)
    ensures SameRun(s, r) && !ClaimsUp(r)
    ensures !ClaimsUp(s) ==> r == s
  {
    match s
    case Pending(n, p) => Launchable(n, p)
    case Running(n, p) => Launchable(n, p)
    case Critical(n, p, first) => if first then Launchable(n, p) else Incomplete(n, p)
    case Partial(n, p) => Incomplete(n, p)
    case _ => s
  }

  /** `LaunchableState.to_pending()`. */
  function ToPending(s: State): (r: State)
    requires s.Launchable?
    ensures r.Pending? && SameRun(s, r)
  {
    Pending(s.compName, s.progress)
  }

  /** `PendingState.to_running()`. */
  function ToRunning(s: State): (r: State)
    requires s.Pending?
    ensures r.Running? && SameRun(s, r)
  {
    Running(s.compName, s.progress)
  }

  /** `to_critical()` of a running state (the first critical state of the run) and of a
      partial one (not the first). */
  function ToCritical(s: State): (r: State)
    requires s.Running? || s.Partial?
    ensures r.Critical? && SameRun(s, r) && (r.firstCritical <==> s.Running?)
  {
    Critical(s.compName, s.progress, s.Running?)
  }

  /** `to_completed()` of a critical or a partial state. */
  function ToCompleted(s: State): (r: State)
    requires s.Critical? || s.Partial?
    ensures r.Completed? && SameRun(s, r)
  {
    Completed(s.compName, s.progress)
  }

  /** `CriticalState.to_partial()`. */
  function ToPartial(s: State): (r: State)
    requires s.Critical?
    ensures r.Partial? && SameRun(s, r)
  {
    Partial(s.compName, s.progress)
  }

  /** `PartialState.to_incomplete()`. */
  function ToIncomplete(s: State): (r: State)
    requires s.Partial?
    ensures r.Incomplete? && SameRun(s, r)
  {
    Incomplete(s.compName, s.progress)
  }

  /** `WorkingState.to_launchable()`: `reset()`. */
  function ToLaunchable(s: State): (r: State)
    requires IsWorking(s)
    ensures r == Reset(s)
  {
    Reset(s)
  }

  /** `WorkingState.to_aborted(exception)`. */
  function ToAborted(s: State, e: Exception): (r: State)
    requires IsWorking(s)
    ensures r == Abort(s, e)
  {
    Aborted(s.compName, s.progress, e)
  }

  /** `WorkingState.update_progress(progress)` as written: `self.__class__.from_(self)`
      rebuilds a critical state with `first_critical` at its default, False. */
  function UpdateProgressAsWritten(s: State, progress: real): (r: State)
    requires IsWorking(s)
    ensures Name(r) == Name(s) && r.compName == s.compName && r.progress == progress
  {
    match s
    case Critical(n, _, _) => Critical(n, progress, false)
    case Running(n, _) => Running(n, progress)
    case Partial(n, _) => Partial(n, progress)
  }

  /** `update_progress(progress)` changing the progress and nothing else. */
  function UpdateProgress(s: State, progress: real): (r: State)
    requires IsWorking(s)
    ensures Name(r) == Name(s) && r.compName == s.compName && r.progress == progress
    ensures s.Critical? ==> r.Critical? && r.firstCritical == s.firstCritical
  {
    match s
    case Critical(n, _, first) => Critical(n, progress, first)
    case Running(n, _) => Running(n, progress)
    case Partial(n, _) => Partial(n, progress)
  }

  /** `__eq__`: `other` is an instance of this state's class and names the same
      computation; the progress, the exception and the flag do not count. */
  predicate Eq(s: State, other: State) {
    Name(other) == Name(s) && other.compName == s.compName
  }
}
