/** The thread pool protocol: any number of callers of `execute`, worker threads and callers of `shutdown`.

    One action is one access to the atomic `ctl_`, or one critical section of `mutex_` or of the task queue's
    mutex. The exception is `take`: its wait test and its second test of the stop predicate are two reads of
    `ctl_`, so it is split in two actions and holds the queue's mutex between them. */
module ThreadPool {
  import opened Basics
  import opened ControlWord

  /** A call of `execute` and the task it carries share one identity. */
  type Task = nat
  type WorkerId = nat
  type CloserId = nat

  datatype Config = Config(core: int, max: int, queueLimit: nat) {
    /** What the constructor checks, and the bound that the thirty count bits put on the pool's size. */
    ghost predicate Valid() {
      0 < core <= max <= COUNT_MASK
    }

    function Limit(isCore: bool): int {
      if isCore then core else max
    }
  }

  /** Where a call of `execute` stands; `seen` is its stale copy of `ctl_`. */
  datatype Caller =
    | Entering
    | AddLoading(isCore: bool)
    | AddSwapping(isCore: bool, seen: int)
    | Reserved(isCore: bool)
    | Reloading
    | Pushing(seen: int)
    | Returned(result: bool)

  datatype Stage = Running | Checking | Taking | Popping | Leaving | Gone

  datatype Worker = Worker(isCore: bool, task: Option<Task>, stage: Stage)

  /** Where a call of `shutdown` stands. */
  datatype Closer = Testing | Loading | Swapping(seen: int) | Waiting | Draining | Closed | AlreadyClosed

  datatype State = State(
    ctl: int,
    pool: seq<WorkerId>,
    queue: seq<Task>,
    queueOwner: Option<WorkerId>,
    callers: map<Task, Caller>,
    workers: map<WorkerId, Worker>,
    closers: map<CloserId, Closer>,
    executed: seq<Task>,
    discarded: seq<Task>,
    pushed: seq<Task>,   // every task ever pushed, in push order
    popped: seq<Task>,   // every task ever popped, in pop order
    fault: bool)         // an empty deque was popped, or the assertion in `shutdown` failed

  /** Steps of a call of `execute`. */
  datatype CallerAction =
    | Call
    | Enter
    | AddLoad
    | AddSwap
    | AddCommit(newcomer: WorkerId)
    | Reload
    | TryPush(gotLock: bool)

  /** Steps of a worker thread. */
  datatype WorkerAction = RunTask | Check | TakeWait | TakeTimeout | TakePop | Release

  /** Steps of a call of `shutdown`. */
  datatype CloserAction =
    | Close
    | CloseTest
    | CloseLoad
    | CloseSwap
    | CloseWait
    | DrainPop(gotLock: bool)
    | DrainEnd

  datatype Action =
    | ByCaller(t: Task, call: CallerAction)
    | ByWorker(w: WorkerId, work: WorkerAction)
    | ByCloser(k: CloserId, close: CloserAction)

  function Init(): State {
    State(RUNNING, [], [], None, map[], map[], map[], [], [], [], [], false)
  }

  predicate WorkerAt(s: State, w: WorkerId, stage: Stage) {
    w in s.workers && s.workers[w].stage == stage
  }

  predicate CallerEnabled(s: State, t: Task, call: CallerAction) {
    match call
    case Call => t !in s.callers
    case Enter => t in s.callers && s.callers[t].Entering?
    case AddLoad => t in s.callers && s.callers[t].AddLoading?
    case AddSwap => t in s.callers && s.callers[t].AddSwapping?
    case AddCommit(newcomer) => t in s.callers && s.callers[t].Reserved? && newcomer !in s.workers
    case Reload => t in s.callers && s.callers[t].Reloading?
    case TryPush(gotLock) => t in s.callers && s.callers[t].Pushing? && (gotLock ==> s.queueOwner.None?)
  }

  predicate WorkerEnabled(s: State, w: WorkerId, work: WorkerAction) {
    match work
    case RunTask => WorkerAt(s, w, Running)
    case Check => WorkerAt(s, w, Checking)
    case TakeWait =>
      && WorkerAt(s, w, Taking) && s.queueOwner.None?
      && (s.queue != [] || IsShutdown(s.ctl))
    case TakeTimeout =>
      && WorkerAt(s, w, Taking) && s.queueOwner.None?
      && !s.workers[w].isCore
      && s.queue == [] && !IsShutdown(s.ctl)
    case TakePop => WorkerAt(s, w, Popping)
    case Release => WorkerAt(s, w, Leaving)
  }

  predicate CloserEnabled(s: State, k: CloserId, close: CloserAction) {
    match close
    case Close => k !in s.closers
    case CloseTest => k in s.closers && s.closers[k].Testing?
    case CloseLoad => k in s.closers && s.closers[k].Loading?
    case CloseSwap => k in s.closers && s.closers[k].Swapping?
    case CloseWait => k in s.closers && s.closers[k].Waiting? && NumActive(s.ctl) == 0
    case DrainPop(gotLock) => k in s.closers && s.closers[k].Draining? && (gotLock ==> s.queueOwner.None?)
    case DrainEnd => k in s.closers && s.closers[k].Draining? && s.queueOwner.None? && s.queue == []
  }

  predicate Enabled(s: State, a: Action) {
    match a
    case ByCaller(t, call) => CallerEnabled(s, t, call)
    case ByWorker(w, work) => WorkerEnabled(s, w, work)
    case ByCloser(k, close) => CloserEnabled(s, k, close)
  }

  function AtCaller(s: State, t: Task, c: Caller): State {
    s.(callers := s.callers[t := c])
  }

  function AtStage(s: State, w: WorkerId, stage: Stage): State
    requires w in s.workers
  {
    s.(workers := s.workers[w := s.workers[w].(stage := stage)])
  }

  function AtCloser(s: State, k: CloserId, c: Closer): State {
    s.(closers := s.closers[k := c])
  }

  /** `addThreadTask` returned false: `execute` reloads `ctl_` after the core attempt, else gives up. */
  function AddFailed(isCore: bool): Caller {
    if isCore then Reloading else Returned(false)
  }

  function DoEnter(cfg: Config, s: State, t: Task): State {
    if IsShutdown(s.ctl) then AtCaller(s, t, Returned(false))
    else if NumActive(s.ctl) < cfg.core then AtCaller(s, t, AddLoading(true))
    else AtCaller(s, t, Pushing(s.ctl))
  }

  function DoAddLoad(cfg: Config, s: State, t: Task): State
    requires t in s.callers && s.callers[t].AddLoading?
  {
    var isCore := s.callers[t].isCore;
    if IsShutdown(s.ctl) || NumActive(s.ctl) >= cfg.Limit(isCore) then AtCaller(s, t, AddFailed(isCore))
    else AtCaller(s, t, AddSwapping(isCore, s.ctl))
  }

  function DoAddSwap(s: State, t: Task): State
    requires t in s.callers && s.callers[t].AddSwapping?
  {
    var AddSwapping(isCore, seen) := s.callers[t];
    if s.ctl == seen then AtCaller(s, t, Reserved(isCore)).(ctl := Increment(seen))
    else AtCaller(s, t, AddLoading(isCore))
  }

  function DoAddCommit(s: State, t: Task, newcomer: WorkerId): State
    requires t in s.callers && s.callers[t].Reserved?
  {
    var isCore := s.callers[t].isCore;
    if IsRunning(s.ctl) then
      AtCaller(s, t, Returned(true)).(
        pool := s.pool + [newcomer],
        workers := s.workers[newcomer := Worker(isCore, Some(t), Running)])
    else
      AtCaller(s, t, AddFailed(isCore)).(ctl := Decrement(s.ctl))
  }

  function DoTryPush(cfg: Config, s: State, t: Task, gotLock: bool): State
    requires t in s.callers && s.callers[t].Pushing?
  {
    if IsRunning(s.callers[t].seen) && gotLock && |s.queue| < cfg.queueLimit then
      AtCaller(s, t, Returned(true)).(queue := s.queue + [t], pushed := s.pushed + [t])
    else
      AtCaller(s, t, AddLoading(false))
  }

  function DoRunTask(s: State, w: WorkerId): State
    requires w in s.workers
  {
    var worker := s.workers[w];
    match worker.task
    case Some(t) =>
      s.(executed := s.executed + [t], workers := s.workers[w := worker.(task := None, stage := Checking)])
    case None => AtStage(s, w, Checking)
  }

  function DoTakePop(s: State, w: WorkerId): State
    requires w in s.workers
  {
    var worker := s.workers[w];
    var unlocked := s.(queueOwner := None);
    if IsShutdown(s.ctl) then
      AtStage(unlocked, w, if worker.isCore then Checking else Leaving)
    else if s.queue == [] then
      unlocked.(fault := true)
    else
      unlocked.(
        queue := s.queue[1..],
        popped := s.popped + [s.queue[0]],
        workers := s.workers[w := worker.(task := Some(s.queue[0]), stage := Running)])
  }

  function DoRelease(s: State, w: WorkerId): State
    requires w in s.workers
  {
    var gone := AtStage(s, w, Gone);
    if w in s.pool then gone.(pool := Without(s.pool, w), ctl := Decrement(s.ctl)) else gone
  }

  /** Erases the first occurrence of `w`. */
  function Without(pool: seq<WorkerId>, w: WorkerId): seq<WorkerId> {
    if pool == [] then [] else if pool[0] == w then pool[1..] else [pool[0]] + Without(pool[1..], w)
  }

  function DoCloseSwap(s: State, k: CloserId): State
    requires k in s.closers && s.closers[k].Swapping?
  {
    var seen := s.closers[k].seen;
    if s.ctl == seen then AtCloser(s, k, Waiting).(ctl := ToShutdown(seen)) else AtCloser(s, k, Loading)
  }

  /** `tryPop` after an `isEmpty` that may be stale. */
  function DoDrainPop(s: State, gotLock: bool): State {
    if gotLock && s.queue != [] then
      s.(queue := s.queue[1..], popped := s.popped + [s.queue[0]], discarded := s.discarded + [s.queue[0]])
    else s
  }

  function CallerStep(cfg: Config, s: State, t: Task, call: CallerAction): State
    requires CallerEnabled(s, t, call)
  {
    match call
    case Call => AtCaller(s, t, Entering)
    case Enter => DoEnter(cfg, s, t)
    case AddLoad => DoAddLoad(cfg, s, t)
    case AddSwap => DoAddSwap(s, t)
    case AddCommit(newcomer) => DoAddCommit(s, t, newcomer)
    case Reload => AtCaller(s, t, Pushing(s.ctl))
    case TryPush(gotLock) => DoTryPush(cfg, s, t, gotLock)
  }

  function WorkerStep(s: State, w: WorkerId, work: WorkerAction): State
    requires WorkerEnabled(s, w, work)
  {
    match work
    case RunTask => DoRunTask(s, w)
    case Check => AtStage(s, w, if IsRunning(s.ctl) then Taking else Leaving)
    case TakeWait => AtStage(s, w, Popping).(queueOwner := Some(w))
    case TakeTimeout => AtStage(s, w, Leaving)
    case TakePop => DoTakePop(s, w)
    case Release => DoRelease(s, w)
  }

  function CloserStep(s: State, k: CloserId, close: CloserAction): State
    requires CloserEnabled(s, k, close)
  {
    match close
    case Close => AtCloser(s, k, Testing)
    case CloseTest => AtCloser(s, k, if IsShutdown(s.ctl) then AlreadyClosed else Loading)
    case CloseLoad => AtCloser(s, k, Swapping(s.ctl))
    case CloseSwap => DoCloseSwap(s, k)
    case CloseWait => AtCloser(s, k, Draining).(fault := s.fault || s.pool != [])
    case DrainPop(gotLock) => DoDrainPop(s, gotLock)
    case DrainEnd => AtCloser(s, k, Closed)
  }

  function Step(cfg: Config, s: State, a: Action): State
    requires Enabled(s, a)
  {
    match a
    case ByCaller(t, call) => CallerStep(cfg, s, t, call)
    case ByWorker(w, work) => WorkerStep(s, w, work)
    case ByCloser(k, close) => CloserStep(s, k, close)
  }

  /** A run from the initial state: `states[i]` steps to `states[i + 1]` by `actions[i]`. */
  ghost predicate IsRun(cfg: Config, states: seq<State>, actions: seq<Action>) {
    && |states| == |actions| + 1
    && states[0] == Init()
    && forall i :: 0 <= i < |actions| ==>
         Enabled(states[i], actions[i]) && states[i + 1] == Step(cfg, states[i], actions[i])
  }
}
