/** Core-first scheduling: callers act on stale copies of `ctl_`, yet while the pool runs no non-core slot and no
    queued task can exist before every core slot is taken. */
module ThreadPoolCore {
  import opened ControlWord
  import opened ThreadPool
  import opened ThreadPoolSlots

  /** The call has given up on a core slot. */
  predicate PastCore(c: Caller) {
    match c
    case Reloading | Pushing(_) => true
    case AddLoading(isCore) => !isCore
    case AddSwapping(isCore, _) => !isCore
    case Reserved(isCore) => !isCore
    case Entering | Returned(_) => false
  }

  ghost predicate CoreFull(cfg: Config, s: State) {
    Slots(s, true) == cfg.core
  }

  ghost predicate CallersSound(cfg: Config, s: State) {
    forall t :: t in s.callers && PastCore(s.callers[t]) ==> CoreFull(cfg, s)
  }

  /** A core thread stays in its loop as long as the pool runs. */
  ghost predicate CoreStays(s: State) {
    forall w :: w in s.workers && s.workers[w].isCore ==> s.workers[w].stage != Leaving && s.workers[w].stage != Gone
  }

  ghost predicate CoreFirst(cfg: Config, s: State) {
    && Slots(s, true) <= cfg.core
    && (Slots(s, false) > 0 ==> CoreFull(cfg, s))
    && (s.queue != [] ==> CoreFull(cfg, s))
    && CallersSound(cfg, s)
    && CoreStays(s)
  }

  ghost predicate CoreInv(cfg: Config, s: State) {
    IsRunning(s.ctl) ==> CoreFirst(cfg, s)
  }

  /** With as many slots as core threads, all of them are core slots. */
  lemma FullAtCore(cfg: Config, s: State)
    requires CoreFirst(cfg, s) && Total(s) >= cfg.core
    ensures CoreFull(cfg, s)
  {
    hide Slots;
  }

  /** A caller that gives up on a core slot, or pushes, has seen all core slots taken, or is past the core already. */
  lemma CallerSeesCore(cfg: Config, s: State, t: Task, call: CallerAction)
    requires CallerEnabled(s, t, call) && !call.AddSwap? && !call.AddCommit?
    requires IsRunning(s.ctl) && !IsShutdown(s.ctl) && CoreFirst(cfg, s) && NumActive(s.ctl) == Total(s)
    ensures var s' := CallerStep(cfg, s, t, call);
      (PastCore(s'.callers[t]) ==> CoreFull(cfg, s)) && (s'.queue != [] ==> CoreFull(cfg, s))
  {
    hide Slots, IsRunning, IsShutdown, NumActive, CoreFull, Total, CoreStays;
    if Total(s) >= cfg.core {
      FullAtCore(cfg, s);
    }
  }

  lemma CallerKeepsCore(cfg: Config, s: State, t: Task, call: CallerAction)
    requires cfg.Valid() && SlotInv(cfg, s) && CoreInv(cfg, s) && CallerEnabled(s, t, call)
    requires !call.AddSwap? && !call.AddCommit?
    ensures CoreInv(cfg, CallerStep(cfg, s, t, call))
  {
    CallerKeepsSlots(cfg, s, t, call);
    WordReads(cfg, s);
    CallerShape(cfg, s, t, call);
    if IsRunning(s.ctl) {
      CallerSeesCore(cfg, s, t, call);
    }
    hide SlotInv, Slots, IsRunning, IsShutdown, NumActive, CallerStep, CallerEnabled, SwapSound;
  }

  lemma AddSwapKeepsCore(cfg: Config, s: State, t: Task)
    requires cfg.Valid() && SlotInv(cfg, s) && CoreInv(cfg, s) && CallerEnabled(s, t, AddSwap)
    ensures CoreInv(cfg, DoAddSwap(s, t))
  {
    hide IsRunning, IsShutdown, NumActive, Reservations, Threads, Increment;
    var s' := DoAddSwap(s, t);
    if s.ctl == s.callers[t].seen {
      SwapStep(cfg, s, t);
    } else {
      CallerMoved(cfg, s, s', t, s'.callers[t]);
    }
  }

  lemma AddCommitKeepsCore(cfg: Config, s: State, t: Task, w: WorkerId)
    requires cfg.Valid() && SlotInv(cfg, s) && CoreInv(cfg, s) && CallerEnabled(s, t, AddCommit(w))
    ensures CoreInv(cfg, DoAddCommit(s, t, w))
  {
    hide IsRunning, IsShutdown, NumActive, Slots, Decrement, SlotInv;
    if IsRunning(s.ctl) {
      CommitStep(cfg, s, t, w);
    } else {
      BackOutStep(cfg, s, t, w);
    }
  }

  lemma WorkerKeepsCore(cfg: Config, s: State, w: WorkerId, work: WorkerAction)
    requires cfg.Valid() && SlotInv(cfg, s) && CoreInv(cfg, s) && WorkerEnabled(s, w, work) && !work.Release?
    ensures CoreInv(cfg, WorkerStep(s, w, work))
  {
    hide SlotInv, Slots, IsRunning, IsShutdown, NumActive, CoreInv;
    WorkerKeepsSlots(cfg, s, w, work);
    WordReads(cfg, s);
    var s' := WorkerStep(s, w, work);
    assert s'.workers == s.workers[w := s'.workers[w]];
    WorkerStaysInLoop(cfg, s, s', w, s'.workers[w]);
  }

  lemma WorkerStaysInLoop(cfg: Config, s: State, s': State, w: WorkerId, next: Worker)
    requires CoreInv(cfg, s)
    requires s'.workers == s.workers[w := next] && s'.callers == s.callers && s'.ctl == s.ctl
    requires Slots(s', true) == Slots(s, true) && Slots(s', false) == Slots(s, false)
    requires s'.queue != [] ==> s.queue != []
    requires IsRunning(s.ctl) && next.isCore ==> next.stage != Leaving && next.stage != Gone
    ensures CoreInv(cfg, s')
  {
    hide Slots, IsRunning;
  }

  lemma ReleaseKeepsCore(cfg: Config, s: State, w: WorkerId)
    requires cfg.Valid() && SlotInv(cfg, s) && CoreInv(cfg, s) && WorkerEnabled(s, w, Release)
    ensures CoreInv(cfg, DoRelease(s, w))
  {
    hide IsRunning, IsShutdown, NumActive, Slots, Decrement, SlotInv;
    ReleaseStep(cfg, s, w);
  }

  lemma CloserKeepsCore(cfg: Config, s: State, k: CloserId, close: CloserAction)
    requires cfg.Valid() && SlotInv(cfg, s) && CoreInv(cfg, s) && CloserEnabled(s, k, close)
    ensures CoreInv(cfg, CloserStep(s, k, close))
  {
    WordReads(cfg, s);
    hide SlotInv, IsRunning, IsShutdown, NumActive, Reservations, Threads, ToShutdown;
  }

  lemma StepKeepsCore(cfg: Config, s: State, a: Action)
    requires cfg.Valid() && SlotInv(cfg, s) && CoreInv(cfg, s) && Enabled(s, a)
    ensures CoreInv(cfg, Step(cfg, s, a))
  {
    hide SlotInv, CoreInv;
    match a
    case ByCaller(t, AddSwap) => AddSwapKeepsCore(cfg, s, t);
    case ByCaller(t, AddCommit(w)) => AddCommitKeepsCore(cfg, s, t, w);
    case ByCaller(t, call) => CallerKeepsCore(cfg, s, t, call);
    case ByWorker(w, Release) => ReleaseKeepsCore(cfg, s, w);
    case ByWorker(w, work) => WorkerKeepsCore(cfg, s, w, work);
    case ByCloser(k, close) => CloserKeepsCore(cfg, s, k, close);
  }
}
