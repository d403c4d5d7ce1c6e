/** Where tasks are: the queue is FIFO and bounded, an empty queue is never popped, and every task is in exactly
    one place. */
module ThreadPoolTasks {
  import opened Basics
  import opened ControlWord
  import opened ThreadPool
  import opened ThreadPoolSlots

  // The task queue and its owner.

  ghost predicate OwnerSound(s: State) {
    && (s.queueOwner.Some? ==> s.queueOwner.value in s.workers)
    && forall w :: w in s.workers ==> (s.workers[w].stage == Popping <==> s.queueOwner == Some(w))
  }

  ghost predicate SlotsHoldTasks(s: State) {
    forall w :: w in s.workers ==> (s.workers[w].task.Some? <==> s.workers[w].stage == Running)
  }

  ghost predicate QueueInv(cfg: Config, s: State) {
    && |s.queue| <= cfg.queueLimit
    && s.pushed == s.popped + s.queue
    && OwnerSound(s)
    && SlotsHoldTasks(s)
    && (s.queueOwner.Some? ==> s.queue != [] || !IsRunning(s.ctl))
    && (s.discarded != [] ==> !IsRunning(s.ctl))
    && !s.fault
  }

  /** A step that leaves queue and workers alone. */
  lemma QueueStays(cfg: Config, s: State, s': State)
    requires QueueInv(cfg, s) && s'.workers == s.workers && IsRunning(s'.ctl) == IsRunning(s.ctl)
    requires s'.queue == s.queue && s'.pushed == s.pushed && s'.popped == s.popped && s'.queueOwner == s.queueOwner
    requires s'.discarded == s.discarded && s'.fault == s.fault
    ensures QueueInv(cfg, s')
  {
    hide IsRunning;
  }

  lemma PushKeepsQueue(cfg: Config, s: State, t: Task, gotLock: bool)
    requires QueueInv(cfg, s) && CallerEnabled(s, t, TryPush(gotLock))
    ensures QueueInv(cfg, DoTryPush(cfg, s, t, gotLock))
  {
    hide IsRunning;
  }

  lemma CommitKeepsQueue(cfg: Config, s: State, t: Task, w: WorkerId)
    requires cfg.Valid() && SlotInv(cfg, s) && QueueInv(cfg, s) && CallerEnabled(s, t, AddCommit(w))
    ensures QueueInv(cfg, DoAddCommit(s, t, w))
  {
    hide SlotInv, IsRunning, Decrement;
    if !IsRunning(s.ctl) {
      BackOutStep(cfg, s, t, w);
      hide CallerEnabled, Slots;
      QueueStays(cfg, s, DoAddCommit(s, t, w));
    }
  }

  lemma CallerKeepsQueue(cfg: Config, s: State, t: Task, call: CallerAction)
    requires cfg.Valid() && SlotInv(cfg, s) && QueueInv(cfg, s) && CallerEnabled(s, t, call)
    ensures QueueInv(cfg, CallerStep(cfg, s, t, call))
  {
    hide SlotInv, QueueInv, IsRunning, IsShutdown, NumActive, Increment, Slots;
    match call
    case TryPush(gotLock) => PushKeepsQueue(cfg, s, t, gotLock);
    case AddCommit(w) => CommitKeepsQueue(cfg, s, t, w);
    case AddSwap =>
      if s.ctl == s.callers[t].seen {
        SwapStep(cfg, s, t);
      }
      QueueStays(cfg, s, DoAddSwap(s, t));
    case _ => QueueStays(cfg, s, CallerStep(cfg, s, t, call));
  }

  /** The second test of the stop predicate in `take`: the state never goes back to running, so a worker that
      passed the wait on the stop predicate leaves here, and one that passed it on a non-empty queue still finds
      that queue, because it has held the queue's mutex since. */
  lemma PopFindsTask(cfg: Config, s: State, w: WorkerId)
    requires cfg.Valid() && SlotInv(cfg, s) && QueueInv(cfg, s) && WorkerEnabled(s, w, TakePop) && !IsShutdown(s.ctl)
    ensures s.queue != []
  {
    WordReads(cfg, s);
  }

  /** A step of a worker that does not hold the queue's mutex and does not take it. */
  lemma WorkerElsewhere(cfg: Config, s: State, s': State, w: WorkerId, next: Worker)
    requires QueueInv(cfg, s) && w in s.workers && s'.workers == s.workers[w := next]
    requires s.workers[w].stage != Popping && next.stage != Popping && (next.task.Some? <==> next.stage == Running)
    requires IsRunning(s'.ctl) == IsRunning(s.ctl)
    requires s'.queue == s.queue && s'.pushed == s.pushed && s'.popped == s.popped && s'.queueOwner == s.queueOwner
    requires s'.discarded == s.discarded && s'.fault == s.fault
    ensures QueueInv(cfg, s')
  {
    hide IsRunning;
  }

  lemma TakeKeepsQueue(cfg: Config, s: State, w: WorkerId)
    requires QueueInv(cfg, s) && WorkerEnabled(s, w, TakeWait) && IsShutdown(s.ctl) == !IsRunning(s.ctl)
    ensures QueueInv(cfg, WorkerStep(s, w, TakeWait))
  {
    hide IsRunning, IsShutdown;
  }

  lemma PopKeepsQueue(cfg: Config, s: State, w: WorkerId)
    requires QueueInv(cfg, s) && WorkerEnabled(s, w, TakePop) && (IsShutdown(s.ctl) || s.queue != [])
    ensures QueueInv(cfg, DoTakePop(s, w))
  {
    hide IsRunning, IsShutdown;
  }

  lemma WorkerKeepsQueue(cfg: Config, s: State, w: WorkerId, work: WorkerAction)
    requires cfg.Valid() && SlotInv(cfg, s) && QueueInv(cfg, s) && WorkerEnabled(s, w, work)
    ensures QueueInv(cfg, WorkerStep(s, w, work))
  {
    WordReads(cfg, s);
    hide SlotInv, IsRunning, IsShutdown, NumActive, Decrement, Without, Slots, OwnerSound;
    match work
    case TakeWait => TakeKeepsQueue(cfg, s, w);
    case TakePop =>
      if !IsShutdown(s.ctl) {
        PopFindsTask(cfg, s, w);
      }
      PopKeepsQueue(cfg, s, w);
    case Release =>
      ReleaseStep(cfg, s, w);
      assert s.workers[w].task.None?;
      hide QueueInv;
      WorkerElsewhere(cfg, s, DoRelease(s, w), w, s.workers[w].(stage := Gone));
    case _ =>
      var s' := WorkerStep(s, w, work);
      assert s.workers[w].task.Some? <==> s.workers[w].stage == Running;
      hide QueueInv;
      WorkerElsewhere(cfg, s, s', w, s'.workers[w]);
  }

  lemma DrainKeepsQueue(cfg: Config, s: State, gotLock: bool)
    requires QueueInv(cfg, s) && !IsRunning(s.ctl) && (gotLock ==> s.queueOwner.None?)
    ensures QueueInv(cfg, DoDrainPop(s, gotLock))
  {
    hide IsRunning;
  }

  /** The pool is empty when the wait is over. */
  lemma WaitFindsNone(cfg: Config, s: State)
    requires cfg.Valid() && SlotInv(cfg, s) && NumActive(s.ctl) == 0
    ensures s.pool == []
  {
    WordReads(cfg, s);
    PoolSize(s);
  }

  lemma SwapKeepsQueue(cfg: Config, s: State, k: CloserId)
    requires cfg.Valid() && SlotInv(cfg, s) && QueueInv(cfg, s) && CloserEnabled(s, k, CloseSwap)
    ensures QueueInv(cfg, DoCloseSwap(s, k))
  {
    WordReads(cfg, s);
    hide SlotInv, IsRunning, ToShutdown;
    var s' := DoCloseSwap(s, k);
    assert QueueInv(cfg, s.(ctl := s'.ctl));
    QueueStays(cfg, s.(ctl := s'.ctl), s');
  }

  lemma CloserKeepsQueue(cfg: Config, s: State, k: CloserId, close: CloserAction)
    requires cfg.Valid() && SlotInv(cfg, s) && QueueInv(cfg, s) && CloserEnabled(s, k, close)
    ensures QueueInv(cfg, CloserStep(s, k, close))
  {
    match close
    case CloseSwap => SwapKeepsQueue(cfg, s, k);
    case CloseWait =>
      WaitFindsNone(cfg, s);
      assert !s.fault;
      hide SlotInv, QueueInv, NumActive;
      QueueStays(cfg, s, CloserStep(s, k, close));
    case DrainPop(gotLock) =>
      assert CloserSound(s, s.closers[k]);
      hide SlotInv, QueueInv;
      DrainKeepsQueue(cfg, s, gotLock);
    case _ =>
      hide SlotInv, QueueInv, IsShutdown;
      QueueStays(cfg, s, CloserStep(s, k, close));
  }

  lemma StepKeepsQueue(cfg: Config, s: State, a: Action)
    requires cfg.Valid() && SlotInv(cfg, s) && QueueInv(cfg, s) && Enabled(s, a)
    ensures QueueInv(cfg, Step(cfg, s, a))
  {
    hide SlotInv, QueueInv;
    match a
    case ByCaller(t, call) => CallerKeepsQueue(cfg, s, t, call);
    case ByWorker(w, work) => WorkerKeepsQueue(cfg, s, w, work);
    case ByCloser(k, close) => CloserKeepsQueue(cfg, s, k, close);
  }

  // Conservation of tasks.

  datatype Place = WithCaller | Rejected | Queued | InSlot(w: WorkerId) | Executed | Discarded

  /** Whether the task of call `t` is at place `p`, read off the state. */
  ghost predicate IsAt(s: State, t: Task, p: Place) {
    match p
    case WithCaller => t in s.callers && !s.callers[t].Returned?
    case Rejected => t in s.callers && s.callers[t] == Returned(false)
    case Queued => t in s.queue
    case InSlot(w) => w in s.workers && s.workers[w].task == Some(t)
    case Executed => t in s.executed
    case Discarded => t in s.discarded
  }

  /** A ledger assigns one place to every call; `Kept` says that the state agrees with it. */
  type Ledger = map<Task, Place>

  ghost predicate Kept(s: State, ledger: Ledger) {
    && ledger.Keys == s.callers.Keys
    && (forall t, p :: IsAt(s, t, p) <==> t in ledger && ledger[t] == p)
    && Distinct(s.queue) && Distinct(s.executed) && Distinct(s.discarded)
  }

  /** The only entry of the ledger that an action can change. */
  ghost function Booked(cfg: Config, s: State, a: Action, ledger: Ledger): Ledger
    requires Enabled(s, a)
  {
    match a
    case ByCaller(t, call) => CallerBooked(cfg, s, t, call, ledger)
    case ByWorker(w, work) => WorkerBooked(s, w, work, ledger)
    case ByCloser(k, close) =>
      if |CloserStep(s, k, close).queue| < |s.queue| then ledger[s.queue[0] := Discarded] else ledger
  }

  ghost function CallerBooked(cfg: Config, s: State, t: Task, call: CallerAction, ledger: Ledger): Ledger
    requires CallerEnabled(s, t, call)
  {
    var c := CallerStep(cfg, s, t, call).callers[t];
    if call.Call? then ledger[t := WithCaller]
    else if c == Returned(false) then ledger[t := Rejected]
    else if c == Returned(true) then ledger[t := if call.AddCommit? then InSlot(call.newcomer) else Queued]
    else ledger
  }

  ghost function WorkerBooked(s: State, w: WorkerId, work: WorkerAction, ledger: Ledger): Ledger
    requires WorkerEnabled(s, w, work)
  {
    if work.RunTask? && s.workers[w].task.Some? then ledger[s.workers[w].task.value := Executed]
    else if |WorkerStep(s, w, work).queue| < |s.queue| then ledger[s.queue[0] := InSlot(w)]
    else ledger
  }

  /** One task moves to one place and all others stay. */
  lemma TaskMoves(s: State, s': State, ledger: Ledger, t: Task, p: Place)
    requires Kept(s, ledger)
    requires s'.callers.Keys == s.callers.Keys + {t}
    requires forall u, q :: u != t ==> (IsAt(s', u, q) <==> IsAt(s, u, q))
    requires forall q :: IsAt(s', t, q) <==> q == p
    requires Distinct(s'.queue) && Distinct(s'.executed) && Distinct(s'.discarded)
    ensures Kept(s', ledger[t := p])
  {
  }

  lemma NoTaskMoves(s: State, s': State, ledger: Ledger)
    requires Kept(s, ledger)
    requires s'.callers.Keys == s.callers.Keys
    requires s'.queue == s.queue && s'.executed == s.executed && s'.discarded == s.discarded
    requires forall t :: t in s.callers ==>
      s'.callers[t] == s.callers[t] || (!s.callers[t].Returned? && !s'.callers[t].Returned?)
    requires s'.workers.Keys == s.workers.Keys && forall w :: w in s.workers ==> s'.workers[w].task == s.workers[w].task
    ensures Kept(s', ledger)
  {
    forall u, q ensures IsAt(s', u, q) <==> IsAt(s, u, q) {
    }
  }

  /** The call of `t` returns, taking the task to `p`. */
  lemma CallReturns(s: State, s': State, ledger: Ledger, t: Task, result: bool, p: Place)
    requires Kept(s, ledger) && t in s.callers && !s.callers[t].Returned?
    requires s'.callers == s.callers[t := Returned(result)]
    requires s'.executed == s.executed && s'.discarded == s.discarded
    requires match p
      case Rejected => !result && s'.queue == s.queue && s'.workers == s.workers
      case Queued => result && s'.queue == s.queue + [t] && s'.workers == s.workers
      case InSlot(w) =>
        && result && s'.queue == s.queue && w !in s.workers
        && w in s'.workers && s'.workers[w].task == Some(t) && s'.workers == s.workers[w := s'.workers[w]]
      case _ => false
    ensures Kept(s', ledger[t := p])
  {
    assert IsAt(s, t, WithCaller);
    assert forall q :: IsAt(s, t, q) ==> q == WithCaller;
    assert !IsAt(s, t, Queued) && !IsAt(s, t, Executed) && !IsAt(s, t, Discarded);
    forall w | w in s.workers ensures s.workers[w].task != Some(t) {
      assert !IsAt(s, t, InSlot(w));
    }
    forall u, q | u != t ensures IsAt(s', u, q) <==> IsAt(s, u, q) {
    }
    forall q ensures IsAt(s', t, q) <==> q == p {
    }
    TaskMoves(s, s', ledger, t, p);
  }

  /** The call of `t` moves on inside the caller, or comes back rejected. */
  lemma CallMovesOn(s: State, s': State, ledger: Ledger, t: Task, c: Caller)
    requires Kept(s, ledger) && t in s.callers && !s.callers[t].Returned? && c != Returned(true)
    requires s' == s.(callers := s.callers[t := c], ctl := s'.ctl)
    ensures Kept(s', if c.Returned? then ledger[t := Rejected] else ledger)
  {
    hide Kept;
    if c.Returned? {
      CallReturns(s, s', ledger, t, false, Rejected);
    } else {
      NoTaskMoves(s, s', ledger);
    }
  }

  /** A step of a caller that is neither its first nor one that hands the task on. */
  lemma CallerGoesOn(cfg: Config, s: State, t: Task, call: CallerAction)
    requires CallerEnabled(s, t, call) && !call.Call? && !call.AddCommit? && !call.TryPush?
    ensures var s' := CallerStep(cfg, s, t, call);
      && t in s.callers && !s.callers[t].Returned? && t in s'.callers && s'.callers[t] != Returned(true)
      && s' == s.(callers := s.callers[t := s'.callers[t]], ctl := s'.ctl)
  {
    hide IsRunning, IsShutdown, NumActive, Increment;
  }

  lemma CallerKeepsLedger(cfg: Config, s: State, t: Task, call: CallerAction, ledger: Ledger)
    requires CallerEnabled(s, t, call) && Kept(s, ledger)
    ensures Kept(CallerStep(cfg, s, t, call), CallerBooked(cfg, s, t, call, ledger))
  {
    hide IsRunning, IsShutdown, NumActive, Kept, Increment;
    match call
    case Call => CallKeepsLedger(s, t, ledger);
    case AddCommit(w) => CommitKeepsLedger(s, t, w, ledger);
    case TryPush(gotLock) => PushKeepsLedger(cfg, s, t, gotLock, ledger);
    case _ =>
      CallerGoesOn(cfg, s, t, call);
      hide CallerStep, CallerEnabled;
      var s' := CallerStep(cfg, s, t, call);
      CallMovesOn(s, s', ledger, t, s'.callers[t]);
  }

  lemma PushKeepsLedger(cfg: Config, s: State, t: Task, gotLock: bool, ledger: Ledger)
    requires CallerEnabled(s, t, TryPush(gotLock)) && Kept(s, ledger)
    ensures var s' := DoTryPush(cfg, s, t, gotLock);
      Kept(s', if s'.callers[t].Returned? then ledger[t := Queued] else ledger)
  {
    hide IsRunning, Kept;
    var s' := DoTryPush(cfg, s, t, gotLock);
    if s'.callers[t].Returned? {
      CallReturns(s, s', ledger, t, true, Queued);
    } else {
      CallMovesOn(s, s', ledger, t, s'.callers[t]);
    }
  }

  lemma CommitKeepsLedger(s: State, t: Task, w: WorkerId, ledger: Ledger)
    requires CallerEnabled(s, t, AddCommit(w)) && Kept(s, ledger)
    ensures var s' := DoAddCommit(s, t, w);
      match s'.callers[t]
      case Returned(result) => Kept(s', ledger[t := if result then InSlot(w) else Rejected])
      case _ => Kept(s', ledger)
  {
    hide IsRunning, IsShutdown, NumActive, Kept, Decrement;
    var s' := DoAddCommit(s, t, w);
    if IsRunning(s.ctl) {
      CallReturns(s, s', ledger, t, true, InSlot(w));
    } else {
      CallMovesOn(s, s', ledger, t, s'.callers[t]);
    }
  }

  lemma CallKeepsLedger(s: State, t: Task, ledger: Ledger)
    requires CallerEnabled(s, t, Call) && Kept(s, ledger)
    ensures Kept(AtCaller(s, t, Entering), ledger[t := WithCaller])
  {
    var s' := AtCaller(s, t, Entering);
    assert forall q :: !IsAt(s, t, q);
    assert !IsAt(s, t, Queued) && !IsAt(s, t, Executed) && !IsAt(s, t, Discarded);
    forall q ensures IsAt(s', t, q) <==> q == WithCaller {
      if q.InSlot? {
        assert !IsAt(s, t, q);
      }
    }
    TaskMoves(s, s', ledger, t, WithCaller);
  }

  lemma RunKeepsLedger(s: State, w: WorkerId, t: Task, ledger: Ledger)
    requires Kept(s, ledger) && w in s.workers && s.workers[w].task == Some(t)
    ensures Kept(DoRunTask(s, w), ledger[t := Executed])
  {
    var s' := DoRunTask(s, w);
    assert IsAt(s, t, InSlot(w));
    assert forall q :: IsAt(s, t, q) ==> q == InSlot(w);
    assert !IsAt(s, t, Queued) && !IsAt(s, t, Executed) && !IsAt(s, t, Discarded);
    forall q ensures IsAt(s', t, q) <==> q == Executed {
      if q.InSlot? {
        assert q.w != w ==> !IsAt(s, t, q);
      } else if q.WithCaller? || q.Rejected? {
        assert !IsAt(s, t, q);
      }
    }
    forall u, q | u != t ensures IsAt(s', u, q) <==> IsAt(s, u, q) {
    }
    TaskMoves(s, s', ledger, t, Executed);
  }

  lemma PopKeepsLedger(s: State, s': State, ledger: Ledger, p: Place)
    requires Kept(s, ledger) && s.queue != [] && s'.queue == s.queue[1..]
    requires s'.callers == s.callers && s'.executed == s.executed
    requires
      || (p.InSlot? && s'.discarded == s.discarded && p.w in s.workers && s.workers[p.w].task.None?
          && s'.workers == s.workers[p.w := s.workers[p.w].(task := Some(s.queue[0]), stage := Running)])
      || (p.Discarded? && s'.discarded == s.discarded + [s.queue[0]] && s'.workers == s.workers)
    ensures Kept(s', ledger[s.queue[0] := p])
  {
    var t := s.queue[0];
    assert IsAt(s, t, Queued);
    assert forall q :: IsAt(s, t, q) ==> q == Queued;
    assert s.queue == [t] + s'.queue;
    assert !IsAt(s, t, Discarded);
    forall q ensures IsAt(s', t, q) <==> q == p {
      assert IsAt(s, t, q) ==> q == Queued;
    }
    forall u, q | u != t ensures IsAt(s', u, q) <==> IsAt(s, u, q) {
    }
    TaskMoves(s, s', ledger, t, p);
  }

  /** A step of a worker that neither runs nor pops a task. */
  lemma WorkerGoesOn(s: State, w: WorkerId, work: WorkerAction)
    requires WorkerEnabled(s, w, work) && !work.RunTask? && |WorkerStep(s, w, work).queue| >= |s.queue|
    ensures var s' := WorkerStep(s, w, work);
      && s'.callers == s.callers && s'.executed == s.executed && s'.discarded == s.discarded && s'.queue == s.queue
      && s'.workers.Keys == s.workers.Keys && forall v :: v in s.workers ==> s'.workers[v].task == s.workers[v].task
  {
    hide IsRunning, IsShutdown, Decrement, Without;
  }

  lemma WorkerKeepsLedger(cfg: Config, s: State, w: WorkerId, work: WorkerAction, ledger: Ledger)
    requires QueueInv(cfg, s) && WorkerEnabled(s, w, work) && Kept(s, ledger)
    ensures Kept(WorkerStep(s, w, work), WorkerBooked(s, w, work, ledger))
  {
    var s' := WorkerStep(s, w, work);
    if work.RunTask? {
      assert s.workers[w].task.Some?;
      hide Kept, QueueInv;
      RunKeepsLedger(s, w, s.workers[w].task.value, ledger);
    } else if |s'.queue| < |s.queue| {
      assert s.workers[w].task.None?;
      hide IsRunning, IsShutdown, Kept, QueueInv, Decrement, Without;
      PopKeepsLedger(s, s', ledger, InSlot(w));
    } else {
      hide Kept, QueueInv;
      WorkerGoesOn(s, w, work);
      hide WorkerStep, WorkerEnabled;
      NoTaskMoves(s, s', ledger);
    }
  }

  lemma CloserKeepsLedger(s: State, k: CloserId, close: CloserAction, ledger: Ledger)
    requires CloserEnabled(s, k, close) && Kept(s, ledger)
    ensures var s' := CloserStep(s, k, close);
      Kept(s', if |s'.queue| < |s.queue| then ledger[s.queue[0] := Discarded] else ledger)
  {
    hide IsRunning, IsShutdown, NumActive, Kept, ToShutdown;
    var s' := CloserStep(s, k, close);
    if |s'.queue| < |s.queue| {
      PopKeepsLedger(s, s', ledger, Discarded);
    } else {
      NoTaskMoves(s, s', ledger);
    }
  }

  lemma StepKeepsLedger(cfg: Config, s: State, a: Action, ledger: Ledger)
    requires QueueInv(cfg, s) && Enabled(s, a) && Kept(s, ledger)
    ensures Kept(Step(cfg, s, a), Booked(cfg, s, a, ledger))
  {
    hide Kept, QueueInv;
    match a
    case ByCaller(t, call) => CallerKeepsLedger(cfg, s, t, call, ledger);
    case ByWorker(w, work) => WorkerKeepsLedger(cfg, s, w, work, ledger);
    case ByCloser(k, close) => CloserKeepsLedger(s, k, close, ledger);
  }
}
