/** Why calls and threads go where they go: what every run says about the reasons for an answer of `execute`, for an
    attempt to create a thread, and for a thread to leave; and that nobody is stuck without a reason. */
module ThreadPoolCalls {
  import opened Basics
  import opened ControlWord
  import opened ThreadPool
  import opened ThreadPoolSlots
  import opened ThreadPoolTasks
  import opened ThreadPoolTheorems

  // Who changes what.

  lemma CommitFrame(s: State, t: Task, newcomer: WorkerId)
    requires CallerEnabled(s, t, AddCommit(newcomer))
    ensures var s' := DoAddCommit(s, t, newcomer);
      && t in s'.callers && s'.callers == s.callers[t := s'.callers[t]] && s'.pushed == s.pushed
      && (forall w :: w in s.workers ==> w in s'.workers && s'.workers[w] == s.workers[w])
      && (forall w :: w in s'.workers && w !in s.workers ==> s'.workers[w].stage == Running)
  {
    hide IsRunning, Decrement;
  }

  lemma PushFrame(cfg: Config, s: State, t: Task, gotLock: bool)
    requires CallerEnabled(s, t, TryPush(gotLock))
    ensures var s' := DoTryPush(cfg, s, t, gotLock);
      && t in s'.callers && s'.callers == s.callers[t := s'.callers[t]] && s'.workers == s.workers
      && s'.pushed == s.pushed + if s'.callers[t] == Returned(true) then [t] else []
  {
    hide IsRunning;
  }

  lemma OtherFrame(cfg: Config, s: State, t: Task, call: CallerAction)
    requires CallerEnabled(s, t, call) && !call.AddCommit? && !call.TryPush?
    ensures var s' := CallerStep(cfg, s, t, call);
      && t in s'.callers && s'.callers == s.callers[t := s'.callers[t]]
      && s'.workers == s.workers && s'.pushed == s.pushed
  {
    hide IsRunning, IsShutdown, NumActive, Increment;
  }

  lemma CallerFrame(cfg: Config, s: State, t: Task, call: CallerAction)
    requires CallerEnabled(s, t, call)
    ensures var s' := CallerStep(cfg, s, t, call);
      && t in s'.callers && s'.callers == s.callers[t := s'.callers[t]]
      && (forall w :: w in s.workers ==> w in s'.workers && s'.workers[w] == s.workers[w])
      && (forall w :: w in s'.workers && w !in s.workers ==> s'.workers[w].stage == Running)
      && s'.pushed == s.pushed + if call.TryPush? && s'.callers[t] == Returned(true) then [t] else []
  {
    match call {
      case AddCommit(newcomer) => CommitFrame(s, t, newcomer);
      case TryPush(gotLock) => PushFrame(cfg, s, t, gotLock);
      case _ => OtherFrame(cfg, s, t, call);
    }
    hide DoEnter, DoAddLoad, DoAddSwap, DoAddCommit, DoTryPush, CallerEnabled;
  }

  lemma WorkerFrame(s: State, w: WorkerId, work: WorkerAction)
    requires WorkerEnabled(s, w, work)
    ensures var s' := WorkerStep(s, w, work);
      && s'.callers == s.callers && w in s'.workers && s'.workers == s.workers[w := s'.workers[w]]
      && s'.pushed == s.pushed
  {
    hide IsRunning, IsShutdown, Decrement, Without;
    assert s.workers[w := s.workers[w]] == s.workers;
  }

  lemma CloserFrame(s: State, k: CloserId, close: CloserAction)
    requires CloserEnabled(s, k, close)
    ensures CloserStep(s, k, close).callers == s.callers && CloserStep(s, k, close).workers == s.workers
    ensures CloserStep(s, k, close).pushed == s.pushed
  {
    hide IsRunning, IsShutdown, NumActive, ToShutdown;
  }

  /** The task that the action pushed, if it did. */
  function PushedBy(a: Action, s': State): seq<Task> {
    if a.ByCaller? && a.call.TryPush? && a.t in s'.callers && s'.callers[a.t] == Returned(true) then [a.t] else []
  }

  lemma Frame(cfg: Config, s: State, a: Action)
    requires Enabled(s, a)
    ensures var s' := Step(cfg, s, a);
      && (a.ByCaller? ==> a.t in s'.callers && s'.callers == s.callers[a.t := s'.callers[a.t]])
      && (!a.ByCaller? ==> s'.callers == s.callers)
      && (forall w :: w in s.workers && !(a.ByWorker? && a.w == w) ==>
            w in s'.workers && s'.workers[w] == s.workers[w])
      && (forall w :: w in s'.workers && w !in s.workers ==> s'.workers[w].stage == Running)
      && s'.pushed == s.pushed + PushedBy(a, s')
  {
    match a {
      case ByCaller(t, call) => CallerFrame(cfg, s, t, call);
      case ByWorker(w, work) => WorkerFrame(s, w, work);
      case ByCloser(k, close) => CloserFrame(s, k, close);
    }
    hide CallerStep, WorkerStep, CloserStep, CallerEnabled, WorkerEnabled, CloserEnabled;
  }

  /** Another action leaves the call of `t` where it is. */
  lemma CallUntouched(cfg: Config, s: State, a: Action, t: Task)
    requires Enabled(s, a) && !(a.ByCaller? && a.t == t)
    ensures var s' := Step(cfg, s, a);
      (t in s'.callers <==> t in s.callers) && (t in s.callers ==> s'.callers[t] == s.callers[t])
  {
    hide Step, Enabled;
    Frame(cfg, s, a);
  }

  // Calls.

  /** The thread limit, or the end of the pool, seen during the call. */
  ghost predicate Met(states: seq<State>, i: nat, t: Task, limit: int) {
    exists j ::
      && 0 <= j <= i && j < |states| && t in states[j].callers
      && (!IsRunning(states[j].ctl) || NumActive(states[j].ctl) >= limit)
  }

  /** The push of the call fails: the queue is full, its lock is taken, or the call's copy of the word is not
      running. */
  ghost predicate PushFails(cfg: Config, s: State, a: Action, t: Task) {
    && a.ByCaller? && a.t == t && a.call.TryPush? && t in s.callers && s.callers[t].Pushing?
    && (!a.call.gotLock || |s.queue| >= cfg.queueLimit || !IsRunning(s.callers[t].seen))
  }

  ghost predicate PushFailed(cfg: Config, states: seq<State>, actions: seq<Action>, i: nat, t: Task) {
    exists j :: 0 <= j < i && j < |actions| && j < |states| && PushFails(cfg, states[j], actions[j], t)
  }

  /** The call entered a pool that was not running. */
  ghost predicate EnteredClosed(states: seq<State>, actions: seq<Action>, i: nat, t: Task) {
    exists j ::
      && 0 <= j < i && j < |actions| && j < |states|
      && actions[j] == ByCaller(t, Enter) && !IsRunning(states[j].ctl)
  }

  /** The word had this value at some time since the run began. */
  ghost predicate WasRead(states: seq<State>, i: nat, word: int) {
    exists j :: 0 <= j <= i && j < |states| && states[j].ctl == word
  }

  predicate TriesNonCore(c: Caller) {
    match c
    case AddLoading(isCore) => !isCore
    case AddSwapping(isCore, _) => !isCore
    case Reserved(isCore) => !isCore
    case _ => false
  }

  /** What the place of a call says about its past. */
  ghost predicate Explained(cfg: Config, states: seq<State>, actions: seq<Action>, i: nat, t: Task, c: Caller) {
    && (c == Returned(false) ==>
          && Met(states, i, t, cfg.max)
          && (EnteredClosed(states, actions, i, t) || PushFailed(cfg, states, actions, i, t)))
    && (TriesNonCore(c) ==> PushFailed(cfg, states, actions, i, t))
    && (c.Reloading? || c.Pushing? ==> Met(states, i, t, cfg.core))
    && (c.Pushing? || c.AddSwapping? ==> WasRead(states, i, c.seen))
  }

  lemma ExplainedLater(cfg: Config, states: seq<State>, actions: seq<Action>, i: nat, t: Task, c: Caller)
    requires Explained(cfg, states, actions, i, t, c)
    ensures Explained(cfg, states, actions, i + 1, t, c)
  {
    hide IsRunning, NumActive, PushFails;
  }

  /** The call of `t` makes a step that this explains. */
  lemma CallExplained(cfg: Config, states: seq<State>, actions: seq<Action>, i: nat, t: Task)
    requires cfg.Valid() && IsRun(cfg, states, actions) && i < |actions|
    requires actions[i].ByCaller? && actions[i].t == t
    requires t in states[i].callers ==> Explained(cfg, states, actions, i, t, states[i].callers[t])
    ensures t in states[i + 1].callers
    ensures Explained(cfg, states, actions, i + 1, t, states[i + 1].callers[t])
  {
    var s, a, s' := states[i], actions[i], states[i + 1];
    RunInv(cfg, states, actions, i);
    WordReads(cfg, s);
    hide IsRunning, IsShutdown, NumActive, Increment, Decrement, Inv;
    assert s' == Step(cfg, s, a) && Enabled(s, a);
    if t in s.callers {
      ExplainedLater(cfg, states, actions, i, t, s.callers[t]);
      if !IsRunning(s.ctl) || NumActive(s.ctl) >= cfg.max {
        assert Met(states, i + 1, t, cfg.max);
      }
      if !IsRunning(s.ctl) || NumActive(s.ctl) >= cfg.core {
        assert Met(states, i + 1, t, cfg.core);
      }
      assert WasRead(states, i + 1, s.ctl);
      if PushFails(cfg, s, a, t) {
        assert PushFailed(cfg, states, actions, i + 1, t);
      }
      if a == ByCaller(t, Enter) && !IsRunning(s.ctl) {
        assert EnteredClosed(states, actions, i + 1, t);
      }
    }
    assert Sees(cfg, states, actions, i, t, a.call);
    hide Met, PushFailed, WasRead, EnteredClosed, Sees, Explained, CallerStep;
    match a.call
    case Call | Enter | Reload => EntryExplained(cfg, states, actions, i, t, a.call);
    case AddLoad | AddSwap | AddCommit(_) => AttemptExplained(cfg, states, actions, i, t, a.call);
    case TryPush(_) => PushExplained(cfg, states, actions, i, t, a.call);
  }

  /** What is known when action `call` of task `t` is explained: its place before is, and this is what it sees. */
  ghost predicate Sees(cfg: Config, states: seq<State>, actions: seq<Action>, i: nat, t: Task, call: CallerAction)
    requires i < |states|
  {
    var s := states[i];
    && IsShutdown(s.ctl) == !IsRunning(s.ctl)
    && (t in s.callers ==>
          && Explained(cfg, states, actions, i + 1, t, s.callers[t])
          && (!IsRunning(s.ctl) || NumActive(s.ctl) >= cfg.max ==> Met(states, i + 1, t, cfg.max))
          && (!IsRunning(s.ctl) || NumActive(s.ctl) >= cfg.core ==> Met(states, i + 1, t, cfg.core))
          && WasRead(states, i + 1, s.ctl))
    && (PushFails(cfg, s, ByCaller(t, call), t) ==> PushFailed(cfg, states, actions, i + 1, t))
    && (call == Enter && !IsRunning(s.ctl) ==> EnteredClosed(states, actions, i + 1, t))
  }

  lemma EntryExplained(cfg: Config, states: seq<State>, actions: seq<Action>, i: nat, t: Task, call: CallerAction)
    requires i < |states| && CallerEnabled(states[i], t, call) && Sees(cfg, states, actions, i, t, call)
    requires call.Call? || call.Enter? || call.Reload?
    ensures var s' := CallerStep(cfg, states[i], t, call);
      t in s'.callers && Explained(cfg, states, actions, i + 1, t, s'.callers[t])
  {
    hide IsRunning, IsShutdown, NumActive, Met, PushFailed, WasRead, EnteredClosed, PushFails;
  }

  lemma AttemptExplained(cfg: Config, states: seq<State>, actions: seq<Action>, i: nat, t: Task, call: CallerAction)
    requires i < |states| && CallerEnabled(states[i], t, call) && Sees(cfg, states, actions, i, t, call)
    requires call.AddLoad? || call.AddSwap? || call.AddCommit?
    ensures var s' := CallerStep(cfg, states[i], t, call);
      t in s'.callers && Explained(cfg, states, actions, i + 1, t, s'.callers[t])
  {
    hide IsRunning, IsShutdown, NumActive, Increment, Decrement, Met, PushFailed, WasRead, EnteredClosed, PushFails;
  }

  lemma PushExplained(cfg: Config, states: seq<State>, actions: seq<Action>, i: nat, t: Task, call: CallerAction)
    requires i < |states| && CallerEnabled(states[i], t, call) && Sees(cfg, states, actions, i, t, call)
    requires call.TryPush?
    ensures var s' := CallerStep(cfg, states[i], t, call);
      t in s'.callers && Explained(cfg, states, actions, i + 1, t, s'.callers[t])
  {
    hide IsRunning, IsShutdown, NumActive, Met, PushFailed, WasRead, EnteredClosed;
  }

  lemma {:induction false} CallHistory(cfg: Config, states: seq<State>, actions: seq<Action>, i: nat, t: Task)
    requires cfg.Valid() && IsRun(cfg, states, actions) && i < |states| && t in states[i].callers
    ensures Explained(cfg, states, actions, i, t, states[i].callers[t])
  {
    hide Explained, Step, Enabled;
    if i > 0 {
      if t in states[i - 1].callers {
        CallHistory(cfg, states, actions, i - 1, t);
      }
      if actions[i - 1].ByCaller? && actions[i - 1].t == t {
        CallExplained(cfg, states, actions, i - 1, t);
      } else {
        CallUntouched(cfg, states[i - 1], actions[i - 1], t);
        ExplainedLater(cfg, states, actions, i - 1, t, states[i].callers[t]);
      }
    }
  }

  /** `execute` answers false only if, during the call, the pool was not running or at its maximum; and then only to a
      call that entered a closed pool or whose push failed. */
  lemma RejectionTheorem(cfg: Config, states: seq<State>, actions: seq<Action>, i: nat, t: Task)
    requires cfg.Valid() && IsRun(cfg, states, actions) && i < |states|
    requires t in states[i].callers && states[i].callers[t] == Returned(false)
    ensures Met(states, i, t, cfg.max)
    ensures EnteredClosed(states, actions, i, t) || PushFailed(cfg, states, actions, i, t)
  {
    CallHistory(cfg, states, actions, i, t);
  }

  /** A call tries for a non-core thread only after its push met a full queue, a lock that was taken, or a copy of
      the word that was not running. It goes on to the push only if, during the call, all core threads were taken or
      the pool was not running. Its copies of the word are words that were there. */
  lemma AttemptTheorem(cfg: Config, states: seq<State>, actions: seq<Action>, i: nat, t: Task)
    requires cfg.Valid() && IsRun(cfg, states, actions) && i < |states| && t in states[i].callers
    ensures var c := states[i].callers[t];
      && (TriesNonCore(c) ==> PushFailed(cfg, states, actions, i, t))
      && (c.Pushing? ==> Met(states, i, t, cfg.core))
      && (c.Pushing? || c.AddSwapping? ==> WasRead(states, i, c.seen))
  {
    CallHistory(cfg, states, actions, i, t);
  }

  /** A call that enters a running pool tries for a core thread exactly if the count is below corePoolSize, and else
      goes on to the push with the word it read. */
  lemma EntryTheorem(cfg: Config, states: seq<State>, actions: seq<Action>, i: nat, t: Task)
    requires cfg.Valid() && IsRun(cfg, states, actions) && i < |actions| && actions[i] == ByCaller(t, Enter)
    requires IsRunning(states[i].ctl)
    ensures t in states[i + 1].callers
    ensures NumActive(states[i].ctl) < cfg.core <==> states[i + 1].callers[t] == AddLoading(true)
    ensures NumActive(states[i].ctl) >= cfg.core <==> states[i + 1].callers[t] == Pushing(states[i].ctl)
  {
    RunInv(cfg, states, actions, i);
    WordReads(cfg, states[i]);
    assert states[i + 1] == Step(cfg, states[i], actions[i]) && Enabled(states[i], actions[i]);
    hide Inv;
  }

  // Threads.

  /** The thread saw the end of the pool, or, being no core thread, waited in vain. */
  ghost predicate HasReason(states: seq<State>, actions: seq<Action>, i: nat, w: WorkerId) {
    exists j ::
      && 0 <= j < i && j < |actions| && j < |states|
      && (!IsRunning(states[j].ctl)
          || (actions[j] == ByWorker(w, TakeTimeout) && states[j].queue == [] && w in states[j].workers
              && !states[j].workers[w].isCore))
  }

  lemma LeavingStep(cfg: Config, s: State, w: WorkerId, work: WorkerAction)
    requires WorkerEnabled(s, w, work) && IsShutdown(s.ctl) == !IsRunning(s.ctl)
    requires s.workers[w].stage != Leaving && s.workers[w].stage != Gone
    requires WorkerAt(WorkerStep(s, w, work), w, Leaving) || WorkerAt(WorkerStep(s, w, work), w, Gone)
    ensures !IsRunning(s.ctl) || (work == TakeTimeout && s.queue == [] && !s.workers[w].isCore)
  {
    hide IsRunning, IsShutdown, Without, Decrement;
  }

  /** A thread leaves only because the pool was shut down, or, if it is no core thread, because the queue was empty when
      its wait ended. */
  lemma {:induction false} LeavingTheorem(
    cfg: Config, states: seq<State>, actions: seq<Action>, i: nat, w: WorkerId)
    requires cfg.Valid() && IsRun(cfg, states, actions) && i < |states|
    requires WorkerAt(states[i], w, Leaving) || WorkerAt(states[i], w, Gone)
    ensures HasReason(states, actions, i, w)
  {
    hide Step, Enabled, IsRunning, Inv;
    if i > 0 {
      var s, a := states[i - 1], actions[i - 1];
      assert Enabled(s, a) && states[i] == Step(cfg, s, a);
      Frame(cfg, s, a);
      if WorkerAt(s, w, Leaving) || WorkerAt(s, w, Gone) {
        LeavingTheorem(cfg, states, actions, i - 1, w);
      } else if a.ByWorker? && a.w == w {
        RunInv(cfg, states, actions, i - 1);
        InvReads(cfg, s);
        WorkerActs(cfg, s, w, a.work);
        LeavingStep(cfg, s, w, a.work);
      }
    }
  }

  lemma InvReads(cfg: Config, s: State)
    requires cfg.Valid() && Inv(cfg, s)
    ensures IsShutdown(s.ctl) == !IsRunning(s.ctl)
  {
    WordReads(cfg, s);
  }

  lemma WorkerActs(cfg: Config, s: State, w: WorkerId, work: WorkerAction)
    requires Enabled(s, ByWorker(w, work))
    ensures WorkerEnabled(s, w, work) && Step(cfg, s, ByWorker(w, work)) == WorkerStep(s, w, work)
  {
  }

  /** A call of `shutdown` that is past its first test, or has returned, has seen the pool shut down. */
  lemma CloserTheorem(cfg: Config, states: seq<State>, actions: seq<Action>, i: nat, k: CloserId)
    requires cfg.Valid() && IsRun(cfg, states, actions) && i < |states| && k in states[i].closers
    ensures var c := states[i].closers[k];
      && (c.Waiting? || c.Draining? || c.Closed? || c.AlreadyClosed? ==> !IsRunning(states[i].ctl))
      && (c.Draining? || c.Closed? ==> states[i].pool == [] && NumActive(states[i].ctl) == 0)
  {
    RunInv(cfg, states, actions, i);
    assert CloserSound(states[i], states[i].closers[k]);
    CountTheorem(cfg, states, actions, i);
  }

  // The queue's history.

  /** The tasks of the successful pushes, in the order of the run. */
  ghost function Pushes(states: seq<State>, actions: seq<Action>, i: nat): seq<Task>
    requires i < |states| && i <= |actions|
  {
    if i == 0 then [] else Pushes(states, actions, i - 1) + PushedBy(actions[i - 1], states[i])
  }

  /** The queue's history is that of the calls: what was pushed is the tasks whose push returned true, in that order. */
  lemma {:induction false} PushedTheorem(cfg: Config, states: seq<State>, actions: seq<Action>, i: nat)
    requires IsRun(cfg, states, actions) && i < |states|
    ensures states[i].pushed == Pushes(states, actions, i)
  {
    if i > 0 {
      PushedTheorem(cfg, states, actions, i - 1);
      hide Step, Enabled;
      Frame(cfg, states[i - 1], actions[i - 1]);
    }
  }

  // Nobody is stuck without a reason.

  lemma FreshWorker(workers: map<WorkerId, Worker>) returns (w: WorkerId)
    ensures w !in workers
  {
    w := Above(workers.Keys);
  }

  lemma {:induction false} Above(ids: set<nat>) returns (n: nat)
    ensures forall m <- ids :: m < n
    decreases |ids|
  {
    n := 0;
    if ids != {} {
      var x :| x in ids;
      var rest := Above(ids - {x});
      n := if x < rest then rest else x + 1;
      assert forall m <- ids :: m == x || m in ids - {x};
    }
  }

  /** A call that has not returned can make its next step, in every state. */
  lemma CallProgress(cfg: Config, states: seq<State>, actions: seq<Action>, i: nat, t: Task)
    requires cfg.Valid() && IsRun(cfg, states, actions) && i < |states|
    requires t in states[i].callers && !states[i].callers[t].Returned?
    ensures exists call :: CallerEnabled(states[i], t, call)
  {
    var s := states[i];
    var w := FreshWorker(s.workers);
    match s.callers[t]
    case Entering => assert CallerEnabled(s, t, Enter);
    case AddLoading(_) => assert CallerEnabled(s, t, AddLoad);
    case AddSwapping(_, _) => assert CallerEnabled(s, t, AddSwap);
    case Reserved(_) => assert CallerEnabled(s, t, AddCommit(w));
    case Reloading => assert CallerEnabled(s, t, Reload);
    case Pushing(_) => assert CallerEnabled(s, t, TryPush(false));
  }

  /** A thread that has not gone can make its next step, unless the queue's mutex is held by a thread that can make its
      own, or it is a core thread in a running pool with an empty queue. */
  lemma WorkerProgress(cfg: Config, states: seq<State>, actions: seq<Action>, i: nat, w: WorkerId)
    requires cfg.Valid() && IsRun(cfg, states, actions) && i < |states|
    requires w in states[i].workers && states[i].workers[w].stage != Gone
    ensures var s := states[i];
      || (exists work :: WorkerEnabled(s, w, work))
      || (s.workers[w].stage == Taking && s.queueOwner.Some? && WorkerEnabled(s, s.queueOwner.value, TakePop))
      || (s.workers[w].stage == Taking && s.workers[w].isCore && s.queue == [] && IsRunning(s.ctl))
  {
    RunInv(cfg, states, actions, i);
    var s := states[i];
    WordReads(cfg, s);
    hide SlotInv, IsRunning, IsShutdown;
    match s.workers[w].stage
    case Running => assert WorkerEnabled(s, w, RunTask);
    case Checking => assert WorkerEnabled(s, w, Check);
    case Popping => assert WorkerEnabled(s, w, TakePop);
    case Leaving => assert WorkerEnabled(s, w, Release);
    case Taking =>
      if s.queueOwner.None? {
        if s.queue != [] || IsShutdown(s.ctl) {
          assert WorkerEnabled(s, w, TakeWait);
        } else if !s.workers[w].isCore {
          assert WorkerEnabled(s, w, TakeTimeout);
        }
      }
  }

  /** A call of `shutdown` that has not returned can make its next step, unless threads are still counted or the queue's
      mutex is held by a thread that can make its own. */
  lemma CloserProgress(cfg: Config, states: seq<State>, actions: seq<Action>, i: nat, k: CloserId)
    requires cfg.Valid() && IsRun(cfg, states, actions) && i < |states|
    requires k in states[i].closers && !states[i].closers[k].Closed? && !states[i].closers[k].AlreadyClosed?
    ensures var s := states[i];
      (exists close :: CloserEnabled(s, k, close)) || (s.closers[k].Waiting? && NumActive(s.ctl) > 0)
  {
    var s := states[i];
    match s.closers[k]
    case Testing => assert CloserEnabled(s, k, CloseTest);
    case Loading => assert CloserEnabled(s, k, CloseLoad);
    case Swapping(_) => assert CloserEnabled(s, k, CloseSwap);
    case Waiting =>
      if NumActive(s.ctl) == 0 {
        assert CloserEnabled(s, k, CloseWait);
      }
    case Draining => assert CloserEnabled(s, k, DrainPop(false));
  }
}
