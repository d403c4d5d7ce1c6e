/** What calls and threads achieve: what each of them does when nobody interferes, and that shutdown brings all of them
    to their end. */
module ThreadPoolEnds {
  import opened Basics
  import opened ControlWord
  import opened ThreadPool
  import opened ThreadPoolSlots
  import opened ThreadPoolTasks
  import opened ThreadPoolTheorems
  import opened ThreadPoolCalls

  // A call of `execute` alone.

  /** The next action of a call that has not returned. */
  function NextCall(c: Caller, gotLock: bool, newcomer: WorkerId): CallerAction {
    match c
    case Entering => Enter
    case AddLoading(_) => AddLoad
    case AddSwapping(_, _) => AddSwap
    case Reserved(_) => AddCommit(newcomer)
    case Reloading => Reload
    case Pushing(_) => TryPush(gotLock)
    case Returned(_) => Call
  }

  /** The call runs alone for so many actions, or until it has returned. */
  function Alone(cfg: Config, s: State, t: Task, gotLock: bool, newcomer: WorkerId, steps: nat): State
    decreases steps
  {
    if steps == 0 || t !in s.callers || !CallerEnabled(s, t, NextCall(s.callers[t], gotLock, newcomer)) then s
    else Alone(cfg, CallerStep(cfg, s, t, NextCall(s.callers[t], gotLock, newcomer)), t, gotLock, newcomer, steps - 1)
  }

  /** The pool with one more thread, which starts with the task. */
  function Started(s: State, t: Task, isCore: bool, newcomer: WorkerId): State {
    s.(ctl := s.ctl + 1, pool := s.pool + [newcomer], callers := s.callers[t := Returned(true)],
       workers := s.workers[newcomer := Worker(isCore, Some(t), Running)])
  }

  function Refused(s: State, t: Task): State {
    s.(callers := s.callers[t := Returned(false)])
  }

  function Queued(s: State, t: Task): State {
    s.(queue := s.queue + [t], pushed := s.pushed + [t], callers := s.callers[t := Returned(true)])
  }

  /** `execute` in one piece: a core thread, else the queue, else a thread up to the maximum, else no. */
  function Answered(cfg: Config, s: State, t: Task, gotLock: bool, newcomer: WorkerId): State {
    if s.ctl < RUNNING then Refused(s, t)
    else if s.ctl - RUNNING < cfg.core then Started(s, t, true, newcomer)
    else if gotLock && |s.queue| < cfg.queueLimit then Queued(s, t)
    else if s.ctl - RUNNING < cfg.max then Started(s, t, false, newcomer)
    else Refused(s, t)
  }

  /** The word holds a count within the maximum under one of the two states. */
  ghost predicate WordOk(cfg: Config, s: State) {
    cfg.Valid() && (0 <= s.ctl <= cfg.max || RUNNING <= s.ctl <= RUNNING + cfg.max)
  }

  lemma WordMeans(cfg: Config, s: State)
    requires WordOk(cfg, s)
    ensures IsRunning(s.ctl) <==> s.ctl >= RUNNING
    ensures IsShutdown(s.ctl) <==> s.ctl < RUNNING
    ensures NumActive(s.ctl) == if s.ctl >= RUNNING then s.ctl - RUNNING else s.ctl
    ensures s.ctl >= RUNNING && s.ctl - RUNNING < cfg.max ==> Increment(s.ctl) == s.ctl + 1 && IsRunning(s.ctl + 1)
  {
    var running, count := s.ctl >= RUNNING, if s.ctl >= RUNNING then s.ctl - RUNNING else s.ctl;
    PackUnpack(running, count);
    assert s.ctl == Pack(running, count);
    if running && count < cfg.max {
      PackUnpack(running, count + 1);
    }
  }

  lemma AloneNext(cfg: Config, s: State, t: Task, gotLock: bool, newcomer: WorkerId, steps: nat)
    requires t in s.callers && steps > 0
    requires CallerEnabled(s, t, NextCall(s.callers[t], gotLock, newcomer))
    ensures Alone(cfg, s, t, gotLock, newcomer, steps) ==
      Alone(cfg, CallerStep(cfg, s, t, NextCall(s.callers[t], gotLock, newcomer)), t, gotLock, newcomer, steps - 1)
  {
    hide CallerStep, CallerEnabled, NextCall;
  }

  lemma AloneReturned(cfg: Config, s: State, t: Task, gotLock: bool, newcomer: WorkerId, steps: nat)
    requires t in s.callers && s.callers[t].Returned?
    ensures Alone(cfg, s, t, gotLock, newcomer, steps) == s
  {
    hide CallerStep;
  }

  lemma LoadAlone(cfg: Config, s: State, t: Task, isCore: bool)
    requires WordOk(cfg, s) && s.ctl >= RUNNING && t in s.callers && s.callers[t] == AddLoading(isCore)
    ensures CallerStep(cfg, s, t, AddLoad) ==
      if s.ctl - RUNNING < cfg.Limit(isCore) then AtCaller(s, t, AddSwapping(isCore, s.ctl))
      else AtCaller(s, t, if isCore then Reloading else Returned(false))
  {
    WordMeans(cfg, s);
    hide IsRunning, IsShutdown, NumActive, Increment;
  }

  lemma SwapAlone(cfg: Config, s: State, t: Task, isCore: bool)
    requires WordOk(cfg, s) && s.ctl >= RUNNING && s.ctl - RUNNING < cfg.max
    requires t in s.callers && s.callers[t] == AddSwapping(isCore, s.ctl)
    ensures CallerStep(cfg, s, t, AddSwap) == AtCaller(s, t, Reserved(isCore)).(ctl := s.ctl + 1)
  {
    WordMeans(cfg, s);
    hide IsRunning, IsShutdown, NumActive, Increment;
  }

  lemma CommitAlone(cfg: Config, s: State, t: Task, isCore: bool, newcomer: WorkerId)
    requires t in s.callers && s.callers[t] == Reserved(isCore) && newcomer !in s.workers && IsRunning(s.ctl)
    ensures CallerStep(cfg, s, t, AddCommit(newcomer)) == Started(s, t, isCore, newcomer).(ctl := s.ctl)
  {
    hide IsRunning, IsShutdown, NumActive, Decrement;
  }

  lemma PushAlone(cfg: Config, s: State, t: Task, gotLock: bool)
    requires WordOk(cfg, s) && s.ctl >= RUNNING && t in s.callers && s.callers[t] == Pushing(s.ctl)
    requires gotLock ==> s.queueOwner.None?
    ensures CallerStep(cfg, s, t, TryPush(gotLock)) ==
      if gotLock && |s.queue| < cfg.queueLimit then Queued(s, t) else AtCaller(s, t, AddLoading(false))
  {
    WordMeans(cfg, s);
    hide IsRunning, IsShutdown, NumActive;
  }

  lemma EnterAlone(cfg: Config, s: State, t: Task)
    requires WordOk(cfg, s) && t in s.callers && s.callers[t] == Entering
    ensures CallerStep(cfg, s, t, Enter) ==
      if s.ctl < RUNNING then Refused(s, t)
      else if s.ctl - RUNNING < cfg.core then AtCaller(s, t, AddLoading(true))
      else AtCaller(s, t, Pushing(s.ctl))
  {
    WordMeans(cfg, s);
    hide IsRunning, IsShutdown, NumActive;
  }

  /** Where a call stands leaves no trace once it has returned. */
  lemma FromAt(cfg: Config, s: State, t: Task, c: Caller)
    ensures var s' := AtCaller(s, t, c);
      && t in s'.callers && s'.callers[t] == c && s'.ctl == s.ctl && s'.queue == s.queue && s'.workers == s.workers
      && s'.queueOwner == s.queueOwner && (WordOk(cfg, s) ==> WordOk(cfg, s'))
    ensures forall isCore, newcomer: WorkerId ::
      Started(AtCaller(s, t, c), t, isCore, newcomer) == Started(s, t, isCore, newcomer)
    ensures Queued(AtCaller(s, t, c), t) == Queued(s, t) && Refused(AtCaller(s, t, c), t) == Refused(s, t)
  {
  }

  lemma Answers(s: State, t: Task)
    ensures t in Queued(s, t).callers && Queued(s, t).callers[t].Returned?
    ensures t in Refused(s, t).callers && Refused(s, t).callers[t].Returned?
  {
  }

  /** From its first load, an attempt below its limit makes a thread. */
  lemma AttemptAlone(
    cfg: Config, s: State, t: Task, isCore: bool, gotLock: bool, newcomer: WorkerId, steps: nat)
    requires WordOk(cfg, s) && s.ctl >= RUNNING && t in s.callers && s.callers[t] == AddLoading(isCore)
    requires newcomer !in s.workers && s.ctl - RUNNING < cfg.Limit(isCore) && steps >= 3
    ensures Alone(cfg, s, t, gotLock, newcomer, steps) == Started(s, t, isCore, newcomer)
  {
    LoadAlone(cfg, s, t, isCore);
    AloneNext(cfg, s, t, gotLock, newcomer, steps);
    var s1 := AtCaller(s, t, AddSwapping(isCore, s.ctl));
    FromAt(cfg, s, t, AddSwapping(isCore, s.ctl));
    hide CallerStep, Alone, Started, AtCaller;
    SwappedAlone(cfg, s1, t, isCore, gotLock, newcomer, steps - 1);
  }

  lemma SwappedAlone(
    cfg: Config, s: State, t: Task, isCore: bool, gotLock: bool, newcomer: WorkerId, steps: nat)
    requires WordOk(cfg, s) && s.ctl >= RUNNING && s.ctl - RUNNING < cfg.max
    requires t in s.callers && s.callers[t] == AddSwapping(isCore, s.ctl) && newcomer !in s.workers && steps >= 2
    ensures Alone(cfg, s, t, gotLock, newcomer, steps) == Started(s, t, isCore, newcomer)
  {
    SwapAlone(cfg, s, t, isCore);
    AloneNext(cfg, s, t, gotLock, newcomer, steps);
    WordMeans(cfg, s);
    var s1 := AtCaller(s, t, Reserved(isCore)).(ctl := s.ctl + 1);
    CommitAlone(cfg, s1, t, isCore, newcomer);
    AloneNext(cfg, s1, t, gotLock, newcomer, steps - 1);
    hide IsRunning, IsShutdown, NumActive, Increment, CallerStep, Alone, WordOk;
    assert Started(s1, t, isCore, newcomer).(ctl := s.ctl + 1) == Started(s, t, isCore, newcomer);
    AloneReturned(cfg, Started(s, t, isCore, newcomer), t, gotLock, newcomer, steps - 2);
  }

  lemma RefusedAlone(cfg: Config, s: State, t: Task, gotLock: bool, newcomer: WorkerId, steps: nat)
    requires WordOk(cfg, s) && s.ctl >= RUNNING && t in s.callers && s.callers[t] == AddLoading(false)
    requires s.ctl - RUNNING >= cfg.max && steps >= 1
    ensures Alone(cfg, s, t, gotLock, newcomer, steps) == Refused(s, t)
  {
    LoadAlone(cfg, s, t, false);
    AloneNext(cfg, s, t, gotLock, newcomer, steps);
    hide CallerStep, Alone;
    AloneReturned(cfg, Refused(s, t), t, gotLock, newcomer, steps - 1);
  }

  lemma PushedAlone(cfg: Config, s: State, t: Task, gotLock: bool, newcomer: WorkerId)
    requires WordOk(cfg, s) && s.ctl >= RUNNING && t in s.callers && s.callers[t] == Pushing(s.ctl)
    requires newcomer !in s.workers && (gotLock ==> s.queueOwner.None?)
    ensures Alone(cfg, s, t, gotLock, newcomer, 4) ==
      if gotLock && |s.queue| < cfg.queueLimit then Queued(s, t)
      else if s.ctl - RUNNING < cfg.max then Started(s, t, false, newcomer)
      else Refused(s, t)
  {
    PushAlone(cfg, s, t, gotLock);
    AloneNext(cfg, s, t, gotLock, newcomer, 4);
    FromAt(cfg, s, t, AddLoading(false));
    Answers(s, t);
    hide CallerStep, Alone, Started, Queued, Refused, AtCaller, WordOk;
    if gotLock && |s.queue| < cfg.queueLimit {
      AloneReturned(cfg, Queued(s, t), t, gotLock, newcomer, 3);
    } else if s.ctl - RUNNING < cfg.max {
      AttemptAlone(cfg, AtCaller(s, t, AddLoading(false)), t, false, gotLock, newcomer, 3);
    } else {
      RefusedAlone(cfg, AtCaller(s, t, AddLoading(false)), t, gotLock, newcomer, 3);
    }
  }

  lemma EnteredAlone(cfg: Config, s: State, t: Task, gotLock: bool, newcomer: WorkerId)
    requires WordOk(cfg, s) && t in s.callers && s.callers[t] == Entering
    requires newcomer !in s.workers && (gotLock ==> s.queueOwner.None?)
    ensures Alone(cfg, s, t, gotLock, newcomer, 5) == Answered(cfg, s, t, gotLock, newcomer)
  {
    EnterAlone(cfg, s, t);
    AloneNext(cfg, s, t, gotLock, newcomer, 5);
    FromAt(cfg, s, t, AddLoading(true));
    FromAt(cfg, s, t, Pushing(s.ctl));
    Answers(s, t);
    hide CallerStep, Alone, Started, Queued, Refused, AtCaller, WordOk;
    if s.ctl < RUNNING {
      AloneReturned(cfg, Refused(s, t), t, gotLock, newcomer, 4);
    } else if s.ctl - RUNNING < cfg.core {
      AttemptAlone(cfg, AtCaller(s, t, AddLoading(true)), t, true, gotLock, newcomer, 4);
    } else {
      PushedAlone(cfg, AtCaller(s, t, Pushing(s.ctl)), t, gotLock, newcomer);
    }
  }

  /** A call that nobody interferes with, begun in any state of any run, has returned after five actions at most, and
      they come to `execute` in one piece: exactly that state is left. */
  lemma AloneTheorem(
    cfg: Config, states: seq<State>, actions: seq<Action>, i: nat, t: Task, gotLock: bool, newcomer: WorkerId)
    requires cfg.Valid() && IsRun(cfg, states, actions) && i < |states|
    requires t in states[i].callers && states[i].callers[t] == Entering
    requires newcomer !in states[i].workers && (gotLock ==> states[i].queueOwner.None?)
    ensures Alone(cfg, states[i], t, gotLock, newcomer, 5) == Answered(cfg, states[i], t, gotLock, newcomer)
  {
    CountTheorem(cfg, states, actions, i);
    hide IsRun;
    EnteredAlone(cfg, states[i], t, gotLock, newcomer);
  }

  // A worker alone.

  /** The next action of a thread that is in no one's way. */
  function NextWork(s: State, w: WorkerId): WorkerAction
    requires w in s.workers
  {
    match s.workers[w].stage
    case Running => RunTask
    case Checking => Check
    case Taking => if s.queue != [] || IsShutdown(s.ctl) then TakeWait else TakeTimeout
    case Popping => TakePop
    case _ => Release
  }

  function WorkAlone(s: State, w: WorkerId, steps: nat): State
    decreases steps
  {
    if steps == 0 || w !in s.workers || !WorkerEnabled(s, w, NextWork(s, w)) then s
    else WorkAlone(WorkerStep(s, w, NextWork(s, w)), w, steps - 1)
  }

  lemma WorkNext(s: State, w: WorkerId, steps: nat)
    requires w in s.workers && steps > 0 && WorkerEnabled(s, w, NextWork(s, w))
    ensures WorkAlone(s, w, steps) == WorkAlone(WorkerStep(s, w, NextWork(s, w)), w, steps - 1)
  {
    hide WorkerStep, WorkerEnabled, NextWork;
  }

  /** The state after the thread has taken and run the first task. */
  function FirstDone(s: State): State
    requires s.queue != []
  {
    s.(queue := s.queue[1..], popped := s.popped + [s.queue[0]], executed := s.executed + [s.queue[0]])
  }

  /** The thread is between two tasks. */
  ghost predicate Idle(s: State, w: WorkerId) {
    w in s.workers && s.workers[w].stage == Checking && s.workers[w].task == None
  }

  lemma CheckAlone(s: State, w: WorkerId)
    requires WorkerAt(s, w, Checking) && IsRunning(s.ctl)
    ensures WorkerEnabled(s, w, Check) && WorkerStep(s, w, Check) == AtStage(s, w, Taking)
  {
    hide IsRunning;
  }

  lemma TakeAlone(s: State, w: WorkerId)
    requires WorkerAt(s, w, Taking) && s.queueOwner == None && s.queue != []
    ensures WorkerEnabled(s, w, TakeWait)
    ensures WorkerStep(s, w, TakeWait) == AtStage(s, w, Popping).(queueOwner := Some(w))
  {
    hide IsShutdown;
  }

  /** The state after the thread has taken the first task. */
  function FirstTaken(s: State, w: WorkerId): State
    requires s.queue != [] && w in s.workers
  {
    s.(queue := s.queue[1..], popped := s.popped + [s.queue[0]], queueOwner := None,
       workers := s.workers[w := s.workers[w].(task := Some(s.queue[0]), stage := Running)])
  }

  lemma PopAlone(s: State, w: WorkerId)
    requires WorkerAt(s, w, Popping) && s.queue != [] && !IsShutdown(s.ctl)
    ensures WorkerEnabled(s, w, TakePop) && WorkerStep(s, w, TakePop) == FirstTaken(s, w)
  {
    hide IsShutdown;
  }

  lemma TaskAlone(s: State, w: WorkerId, steps: nat)
    requires Idle(s, w) && IsRunning(s.ctl) && !IsShutdown(s.ctl) && s.queueOwner == None && s.queue != [] && steps >= 4
    ensures WorkAlone(s, w, steps) == WorkAlone(FirstDone(s), w, steps - 4)
  {
    var taking := AtStage(s, w, Taking);
    var popping := AtStage(taking, w, Popping).(queueOwner := Some(w));
    var running := FirstTaken(popping, w);
    CheckAlone(s, w);
    TakeAlone(taking, w);
    PopAlone(popping, w);
    RunAlone(s, running, w);
    hide IsRunning, IsShutdown, WorkerStep, WorkAlone, WorkerEnabled;
    WorkNext(s, w, steps);
    WorkNext(taking, w, steps - 1);
    WorkNext(popping, w, steps - 2);
    WorkNext(running, w, steps - 3);
  }

  lemma RunAlone(s: State, running: State, w: WorkerId)
    requires Idle(s, w) && s.queueOwner == None && s.queue != []
    requires running == FirstTaken(AtStage(AtStage(s, w, Taking), w, Popping).(queueOwner := Some(w)), w)
    ensures WorkerEnabled(running, w, RunTask) && WorkerStep(running, w, RunTask) == FirstDone(s)
  {
    assert running == FirstTaken(s, w);
    assert running.workers[w := s.workers[w]] == s.workers;
  }

  lemma {:induction false} BacklogAlone(s: State, w: WorkerId)
    requires Idle(s, w) && IsRunning(s.ctl) && !IsShutdown(s.ctl) && s.queueOwner == None
    ensures WorkAlone(s, w, 4 * |s.queue|) ==
      s.(queue := [], popped := s.popped + s.queue, executed := s.executed + s.queue)
    decreases |s.queue|
  {
    hide IsRunning, IsShutdown;
    if s.queue == [] {
      assert s.popped + s.queue == s.popped && s.executed + s.queue == s.executed;
    } else {
      TaskAlone(s, w, 4 * |s.queue|);
      hide WorkAlone;
      BacklogAlone(FirstDone(s), w);
      assert s.popped + [s.queue[0]] + s.queue[1..] == s.popped + s.queue;
      assert s.executed + [s.queue[0]] + s.queue[1..] == s.executed + s.queue;
    }
  }

  /** A thread that nobody interferes with works off the whole queue, in order, whatever state of a running pool it
      begins in, if it is between two tasks there. */
  lemma BacklogTheorem(cfg: Config, states: seq<State>, actions: seq<Action>, i: nat, w: WorkerId)
    requires cfg.Valid() && IsRun(cfg, states, actions) && i < |states|
    requires IsRunning(states[i].ctl) && states[i].queueOwner == None && WorkerAt(states[i], w, Checking)
    ensures WorkAlone(states[i], w, 4 * |states[i].queue|) ==
      states[i].(queue := [], popped := states[i].popped + states[i].queue,
                 executed := states[i].executed + states[i].queue)
  {
    RunInv(cfg, states, actions, i);
    InvReads(cfg, states[i]);
    BacklogAlone(states[i], w);
  }

  // A call of `shutdown` alone.

  function NextClose(s: State, k: CloserId): CloserAction
    requires k in s.closers
  {
    match s.closers[k]
    case Testing => CloseTest
    case Loading => CloseLoad
    case Swapping(_) => CloseSwap
    case Waiting => CloseWait
    case Draining => if s.queue == [] then DrainEnd else DrainPop(true)
    case _ => Close
  }

  function CloseAlone(s: State, k: CloserId, steps: nat): State
    decreases steps
  {
    if steps == 0 || k !in s.closers || !CloserEnabled(s, k, NextClose(s, k)) then s
    else CloseAlone(CloserStep(s, k, NextClose(s, k)), k, steps - 1)
  }

  lemma CloseNext(s: State, k: CloserId, steps: nat)
    requires k in s.closers && steps > 0 && CloserEnabled(s, k, NextClose(s, k))
    ensures CloseAlone(s, k, steps) == CloseAlone(CloserStep(s, k, NextClose(s, k)), k, steps - 1)
  {
    hide CloserStep, CloserEnabled, NextClose;
  }

  lemma SwapsAlone(s: State, k: CloserId)
    requires k in s.closers && s.closers[k] == Swapping(s.ctl)
    ensures CloseAlone(s, k, 1) == s.(ctl := ToShutdown(s.ctl), closers := s.closers[k := Waiting])
  {
    hide IsShutdown, ToShutdown, NumActive;
    CloseNext(s, k, 1);
  }

  lemma LoadsAlone(s: State, k: CloserId)
    requires k in s.closers && s.closers[k] == Loading
    ensures CloseAlone(s, k, 2) == s.(ctl := ToShutdown(s.ctl), closers := s.closers[k := Waiting])
  {
    hide IsShutdown, ToShutdown, NumActive;
    CloseNext(s, k, 2);
    hide CloseAlone;
    SwapsAlone(s.(closers := s.closers[k := Swapping(s.ctl)]), k);
  }

  lemma TestsAlone(s: State, k: CloserId)
    requires k in s.closers && s.closers[k] == Testing
    ensures NextClose(s, k) == CloseTest && CloserEnabled(s, k, CloseTest)
    ensures CloserStep(s, k, CloseTest) ==
      s.(closers := s.closers[k := if IsShutdown(s.ctl) then AlreadyClosed else Loading])
  {
    hide IsShutdown;
  }

  lemma ClosedAlone(s: State, k: CloserId, steps: nat)
    requires k in s.closers && s.closers[k] == AlreadyClosed
    ensures CloseAlone(s, k, steps) == s
  {
    hide CloserStep;
  }

  lemma ShutsAlone(s: State, k: CloserId)
    requires k in s.closers && s.closers[k] == Testing
    ensures IsShutdown(s.ctl) ==> CloseAlone(s, k, 3) == s.(closers := s.closers[k := AlreadyClosed])
    ensures !IsShutdown(s.ctl) ==>
      CloseAlone(s, k, 3) == s.(ctl := ToShutdown(s.ctl), closers := s.closers[k := Waiting])
  {
    TestsAlone(s, k);
    CloseNext(s, k, 3);
    hide IsShutdown, ToShutdown, CloserStep, CloserEnabled, CloseAlone, NextClose;
    if IsShutdown(s.ctl) {
      ClosedAlone(s.(closers := s.closers[k := AlreadyClosed]), k, 2);
    } else {
      LoadsAlone(s.(closers := s.closers[k := Loading]), k);
    }
  }

  /** A call of `shutdown` that nobody interferes with closes a running pool in three actions and keeps its count, or
      finds it closed and returns. */
  lemma ShutsTheorem(cfg: Config, states: seq<State>, actions: seq<Action>, i: nat, k: CloserId)
    requires cfg.Valid() && IsRun(cfg, states, actions) && i < |states|
    requires k in states[i].closers && states[i].closers[k] == Testing
    ensures !IsRunning(states[i].ctl) ==>
      CloseAlone(states[i], k, 3) == states[i].(closers := states[i].closers[k := AlreadyClosed])
    ensures IsRunning(states[i].ctl) ==>
      CloseAlone(states[i], k, 3) ==
        states[i].(ctl := SHUTDOWN + NumActive(states[i].ctl), closers := states[i].closers[k := Waiting])
  {
    RunInv(cfg, states, actions, i);
    InvReads(cfg, states[i]);
    hide Inv, CloseAlone;
    ShutsAlone(states[i], k);
  }

  lemma {:induction false} DrainsAlone(s: State, k: CloserId)
    requires k in s.closers && s.closers[k] == Draining && s.queueOwner == None
    ensures CloseAlone(s, k, |s.queue| + 1) ==
      s.(queue := [], popped := s.popped + s.queue, discarded := s.discarded + s.queue,
         closers := s.closers[k := Closed])
    decreases |s.queue|
  {
    CloseNext(s, k, |s.queue| + 1);
    if s.queue == [] {
      assert s.popped + s.queue == s.popped && s.discarded + s.queue == s.discarded;
    } else {
      var head := s.queue[0];
      var s' := s.(queue := s.queue[1..], popped := s.popped + [head], discarded := s.discarded + [head]);
      assert CloserStep(s, k, DrainPop(true)) == s';
      hide CloseAlone;
      DrainsAlone(s', k);
      assert s.popped + [head] + s.queue[1..] == s.popped + s.queue;
      assert s.discarded + [head] + s.queue[1..] == s.discarded + s.queue;
    }
  }

  lemma OwnerPooled(cfg: Config, s: State)
    requires SlotInv(cfg, s) && QueueInv(cfg, s) && s.queueOwner.Some?
    ensures s.pool != []
  {
    assert s.workers[s.queueOwner.value].stage == Popping;
    assert s.queueOwner.value in s.pool;
  }

  /** The rest of `shutdown`, once no thread is left: it empties the queue from the front and discards what was in
      it. */
  lemma DrainsTheorem(cfg: Config, states: seq<State>, actions: seq<Action>, i: nat, k: CloserId)
    requires cfg.Valid() && IsRun(cfg, states, actions) && i < |states|
    requires k in states[i].closers && states[i].closers[k] == Draining
    ensures CloseAlone(states[i], k, |states[i].queue| + 1) ==
      states[i].(queue := [], popped := states[i].popped + states[i].queue,
                 discarded := states[i].discarded + states[i].queue, closers := states[i].closers[k := Closed])
  {
    RunInv(cfg, states, actions, i);
    var s := states[i];
    assert CloserSound(s, s.closers[k]);
    CountTheorem(cfg, states, actions, i);
    hide CloseAlone;
    if s.queueOwner.Some? {
      OwnerPooled(cfg, s);
    }
    DrainsAlone(s, k);
  }

  // After shutdown.

  /** The most actions that a thread has left to make in a pool that was shut down. */
  function Left(stage: Stage): (n: nat)
    ensures n <= 4
  {
    match stage
    case Taking => 4
    case Running | Popping => 3
    case Checking => 2
    case Leaving => 1
    case Gone => 0
  }

  /** The same for a call. */
  function CallLeft(c: Caller): (n: nat)
    ensures n <= 5
  {
    match c
    case AddSwapping(isCore, _) => if isCore then 5 else 2
    case AddLoading(isCore) => if isCore then 4 else 1
    case Reserved(isCore) => if isCore then 4 else 1
    case Reloading => 3
    case Pushing(_) => 2
    case Entering => 1
    case Returned(_) => 0
  }

  function WorkerActions(actions: seq<Action>, w: WorkerId): nat {
    if actions == [] then 0
    else
      var a := actions[|actions| - 1];
      WorkerActions(actions[..|actions| - 1], w) + if a.ByWorker? && a.w == w then 1 else 0
  }

  function CallActions(actions: seq<Action>, t: Task): nat {
    if actions == [] then 0
    else
      var a := actions[|actions| - 1];
      CallActions(actions[..|actions| - 1], t) + if a.ByCaller? && a.t == t then 1 else 0
  }

  lemma WorkerEnds(s: State, w: WorkerId, work: WorkerAction)
    requires WorkerEnabled(s, w, work) && !IsRunning(s.ctl) && IsShutdown(s.ctl)
    ensures var s' := WorkerStep(s, w, work); w in s'.workers && Left(s'.workers[w].stage) < Left(s.workers[w].stage)
  {
    hide IsRunning, IsShutdown, Without, Decrement;
  }

  lemma CallEnds(cfg: Config, s: State, t: Task, call: CallerAction)
    requires CallerEnabled(s, t, call) && t in s.callers && !IsRunning(s.ctl) && IsShutdown(s.ctl)
    requires SwapSound(cfg, s.callers[t])
    ensures var s' := CallerStep(cfg, s, t, call);
      t in s'.callers && CallLeft(s'.callers[t]) < CallLeft(s.callers[t])
  {
    hide IsRunning, IsShutdown, NumActive, Increment, Decrement;
  }

  lemma NoneCommitted(cfg: Config, s: State, t: Task, call: CallerAction)
    requires CallerEnabled(s, t, call) && !IsRunning(s.ctl)
    ensures CallerStep(cfg, s, t, call).workers == s.workers
  {
    hide IsRunning, IsShutdown, NumActive, Increment, Decrement;
  }

  lemma NoNewcomer(cfg: Config, s: State, a: Action, w: WorkerId)
    requires Enabled(s, a) && !IsRunning(s.ctl) && w !in s.workers
    ensures w !in Step(cfg, s, a).workers
  {
    match a {
      case ByCaller(t, call) => NoneCommitted(cfg, s, t, call);
      case ByWorker(v, work) => WorkerFrame(s, v, work);
      case ByCloser(k, close) => CloserFrame(s, k, close);
    }
    hide CallerStep, WorkerStep, CloserStep, CallerEnabled, CloserEnabled, IsRunning;
  }

  lemma NextWorkerAction(actions: seq<Action>, i: nat, j: nat, w: WorkerId)
    requires i < j <= |actions|
    ensures WorkerActions(actions[i..j], w) ==
      WorkerActions(actions[i..j - 1], w) + if actions[j - 1].ByWorker? && actions[j - 1].w == w then 1 else 0
  {
    assert actions[i..j][..j - i - 1] == actions[i..j - 1];
  }

  lemma NextCallAction(actions: seq<Action>, i: nat, j: nat, t: Task)
    requires i < j <= |actions|
    ensures CallActions(actions[i..j], t) ==
      CallActions(actions[i..j - 1], t) + if actions[j - 1].ByCaller? && actions[j - 1].t == t then 1 else 0
  {
    assert actions[i..j][..j - i - 1] == actions[i..j - 1];
  }

  lemma WorkerLeft(cfg: Config, s: State, a: Action, w: WorkerId)
    requires cfg.Valid() && Inv(cfg, s) && Enabled(s, a) && !IsRunning(s.ctl) && w in s.workers
    ensures var s' := Step(cfg, s, a);
      w in s'.workers
      && Left(s'.workers[w].stage) + (if a.ByWorker? && a.w == w then 1 else 0) <= Left(s.workers[w].stage)
  {
    InvReads(cfg, s);
    Frame(cfg, s, a);
    if a.ByWorker? && a.w == w {
      WorkerActs(cfg, s, w, a.work);
      WorkerEnds(s, w, a.work);
    }
    hide Step, Enabled, IsRunning, IsShutdown, Inv;
  }

  lemma CallLeftAfter(cfg: Config, s: State, a: Action, t: Task)
    requires cfg.Valid() && Inv(cfg, s) && Enabled(s, a) && !IsRunning(s.ctl) && t in s.callers
    ensures var s' := Step(cfg, s, a);
      t in s'.callers
      && CallLeft(s'.callers[t]) + (if a.ByCaller? && a.t == t then 1 else 0) <= CallLeft(s.callers[t])
  {
    InvReads(cfg, s);
    Frame(cfg, s, a);
    if a.ByCaller? && a.t == t {
      CallEnds(cfg, s, t, a.call);
      assert Step(cfg, s, a) == CallerStep(cfg, s, t, a.call);
    }
    hide Step, Enabled, IsRunning, IsShutdown;
  }

  lemma OneWorkerLeft(cfg: Config, s: State, a: Action, w: WorkerId)
    requires cfg.Valid() && Inv(cfg, s) && Enabled(s, a) && !IsRunning(s.ctl)
    ensures var s' := Step(cfg, s, a);
      && (w in s'.workers <==> w in s.workers)
      && (w in s.workers ==>
            Left(s'.workers[w].stage) + (if a.ByWorker? && a.w == w then 1 else 0) <= Left(s.workers[w].stage))
  {
    hide Step, Enabled, IsRunning, Inv, Left;
    if w in s.workers {
      WorkerLeft(cfg, s, a, w);
    } else {
      NoNewcomer(cfg, s, a, w);
    }
  }

  /** After shutdown no thread is created, and each has at most four actions to make, whatever the others do; so it
      runs at most the one task it has. */
  lemma {:induction false} ThreadsEndTheorem(
    cfg: Config, states: seq<State>, actions: seq<Action>, i: nat, j: nat, w: WorkerId)
    requires cfg.Valid() && IsRun(cfg, states, actions) && i <= j < |states| && !IsRunning(states[i].ctl)
    ensures w in states[j].workers <==> w in states[i].workers
    ensures w in states[i].workers ==>
      WorkerActions(actions[i..j], w) + Left(states[j].workers[w].stage) <= Left(states[i].workers[w].stage) <= 4
    decreases j
  {
    hide Step, Enabled, IsRunning, Inv, Left, Init;
    if i < j {
      ThreadsEndTheorem(cfg, states, actions, i, j - 1, w);
      ShutdownTheorem(cfg, states, actions, i, j - 1);
      RunInv(cfg, states, actions, j - 1);
      NextWorkerAction(actions, i, j, w);
      var s, a, s' := states[j - 1], actions[j - 1], states[j];
      assert Enabled(s, a) && s' == Step(cfg, s, a);
      hide IsRun, WorkerActions;
      OneWorkerLeft(cfg, s, a, w);
    }
  }

  /** After shutdown a call of `execute` has at most five actions to make. */
  lemma {:induction false} CallsEndTheorem(
    cfg: Config, states: seq<State>, actions: seq<Action>, i: nat, j: nat, t: Task)
    requires cfg.Valid() && IsRun(cfg, states, actions) && i <= j < |states| && !IsRunning(states[i].ctl)
    requires t in states[i].callers
    ensures t in states[j].callers
    ensures CallActions(actions[i..j], t) + CallLeft(states[j].callers[t]) <= CallLeft(states[i].callers[t]) <= 5
    decreases j
  {
    hide Step, Enabled, IsRunning, Inv, CallLeft, Init;
    if i < j {
      CallsEndTheorem(cfg, states, actions, i, j - 1, t);
      ShutdownTheorem(cfg, states, actions, i, j - 1);
      RunInv(cfg, states, actions, j - 1);
      NextCallAction(actions, i, j, t);
      var s, a, s' := states[j - 1], actions[j - 1], states[j];
      assert Enabled(s, a) && s' == Step(cfg, s, a);
      hide IsRun, CallActions;
      CallLeftAfter(cfg, s, a, t);
    }
  }
}
