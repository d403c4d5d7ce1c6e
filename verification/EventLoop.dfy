/** The event loop's task list and its wakeup: other threads push tasks and signal the notifier, the loop swaps the list
    out, runs it and polls. One action is one critical section, one signal, or one step of the loop between them. */
module EventLoops {
  type Task = nat
  type ThreadId = nat

  /** Where the loop thread is: in `timerManager_.update`, about to swap the task list, running the batch, blocked
      in the poller, or handling events. */
  datatype Phase = Updating | Swapping | Working | Polling | Handling

  datatype State = State(
    phase: Phase,
    runningPendingTasks: bool,
    pending: seq<Task>,
    batch: seq<Task>,       // swapped out, not run yet
    executed: seq<Task>,    // history
    added: seq<Task>,       // history, in the order of the lock
    signals: nat,           // counter of the notifier
    readable: bool,         // the poller reported the notifier
    adders: set<ThreadId>,  // other threads between their push and their signal
    owing: bool)            // the loop thread is between its own push and its signal

  datatype Action =
    | Push(thread: ThreadId, t: Task)
    | Signal(thread: ThreadId)
    | PushHere(t: Task)
    | SignalHere
    | EndUpdate
    | Swap
    | Run
    | EndBatch
    | PollReturns(reported: bool)
    | Consume
    | EndHandling

  function Init(): State {
    State(Updating, false, [], [], [], [], 0, false, {}, false)
  }

  predicate Enabled(s: State, a: Action) {
    match a
    case Push(thread, _) => thread !in s.adders
    case Signal(thread) => thread in s.adders
    // The loop thread adds tasks from timers, tasks and event handlers.
    case PushHere(_) => s.phase in {Updating, Working, Handling} && !s.owing
    case SignalHere => s.owing
    case EndUpdate => s.phase == Updating && !s.owing
    case Swap => s.phase == Swapping
    case Run => s.phase == Working && s.batch != [] && !s.owing
    case EndBatch => s.phase == Working && s.batch == [] && !s.owing
    case PollReturns(reported) => s.phase == Polling && (reported ==> s.signals > 0)
    case Consume => s.phase == Handling && s.readable && !s.owing
    case EndHandling => s.phase == Handling && !s.owing
  }

  function Step(s: State, a: Action): State
    requires Enabled(s, a)
  {
    match a
    case Push(thread, t) =>
      s.(pending := s.pending + [t], added := s.added + [t], adders := s.adders + {thread})
    case Signal(thread) => s.(signals := s.signals + 1, adders := s.adders - {thread})
    // addTask signals from the loop thread only while a batch is running
    case PushHere(t) => s.(pending := s.pending + [t], added := s.added + [t], owing := s.runningPendingTasks)
    case SignalHere => s.(signals := s.signals + 1, owing := false)
    case EndUpdate => s.(phase := Swapping, runningPendingTasks := true)
    case Swap => s.(phase := Working, batch := s.pending, pending := [])
    case Run => s.(executed := s.executed + [s.batch[0]], batch := s.batch[1..])
    case EndBatch => s.(phase := Polling, runningPendingTasks := false)
    case PollReturns(reported) => s.(phase := Handling, readable := reported)
    case Consume => s.(signals := 0, readable := false)
    case EndHandling => s.(phase := Updating, readable := false)
  }

  ghost predicate IsRun(states: seq<State>, actions: seq<Action>) {
    && |states| == |actions| + 1
    && states[0] == Init()
    && forall i :: 0 <= i < |actions| ==> Enabled(states[i], actions[i]) && states[i + 1] == Step(states[i], actions[i])
  }

  /** Some wakeup is on its way. */
  predicate Awaited(s: State) {
    s.signals > 0 || s.adders != {} || s.owing
  }

  ghost predicate Inv(s: State) {
    && s.executed + s.batch + s.pending == s.added
    && (s.runningPendingTasks <==> s.phase in {Swapping, Working})
    && (s.owing ==> s.phase == Working)
    && (s.phase != Working ==> s.batch == [])
    && (s.phase in {Working, Polling} && s.pending != [] ==> Awaited(s))
  }

  lemma StepInv(s: State, a: Action)
    requires Inv(s) && Enabled(s, a)
    ensures Inv(Step(s, a))
  {
    var s' := Step(s, a);
    match a
    case Push(_, t) => assert s'.executed + s'.batch + s'.pending == s.added + [t];
    case PushHere(t) => assert s'.executed + s'.batch + s'.pending == s.added + [t];
    case Run => assert s'.executed + s'.batch == s.executed + s.batch;
    case _ =>
  }

  lemma {:induction false} RunInv(states: seq<State>, actions: seq<Action>, i: nat)
    requires IsRun(states, actions) && i < |states|
    ensures Inv(states[i])
  {
    if i > 0 {
      RunInv(states, actions, i - 1);
      StepInv(states[i - 1], actions[i - 1]);
    }
  }

  // What the histories are.

  /** The tasks pushed, by any thread, in the order of the run. */
  function PushedBy(actions: seq<Action>): seq<Task> {
    if actions == [] then []
    else PushedBy(actions[..|actions| - 1]) + match actions[|actions| - 1]
      case Push(_, t) => [t]
      case PushHere(t) => [t]
      case _ => []
  }

  /** The number of tasks that the loop has run. */
  function RunBy(actions: seq<Action>): nat {
    if actions == [] then 0 else RunBy(actions[..|actions| - 1]) + if actions[|actions| - 1].Run? then 1 else 0
  }

  /** The number of signals since the notifier was last read. */
  function SignalsSince(actions: seq<Action>): nat {
    if actions == [] then 0
    else match actions[|actions| - 1]
      case Signal(_) => SignalsSince(actions[..|actions| - 1]) + 1
      case SignalHere => SignalsSince(actions[..|actions| - 1]) + 1
      case Consume => 0
      case _ => SignalsSince(actions[..|actions| - 1])
  }

  lemma HistoryStep(s: State, a: Action, before: seq<Action>)
    requires Enabled(s, a)
    requires s.added == PushedBy(before) && |s.executed| == RunBy(before) && s.signals == SignalsSince(before)
    ensures var s', actions := Step(s, a), before + [a];
      s'.added == PushedBy(actions) && |s'.executed| == RunBy(actions) && s'.signals == SignalsSince(actions)
  {
    assert (before + [a])[..|before|] == before;
  }

  lemma {:induction false} Histories(states: seq<State>, actions: seq<Action>, i: nat)
    requires IsRun(states, actions) && i < |states|
    ensures states[i].added == PushedBy(actions[..i])
    ensures |states[i].executed| == RunBy(actions[..i])
    ensures states[i].signals == SignalsSince(actions[..i])
  {
    if i > 0 {
      Histories(states, actions, i - 1);
      assert actions[..i] == actions[..i - 1] + [actions[i - 1]];
      HistoryStep(states[i - 1], actions[i - 1], actions[..i - 1]);
      hide Step, Enabled, PushedBy, RunBy, SignalsSince;
    }
  }

  /** The tasks added are those pushed, the tasks executed are the first of them, one for each time the loop ran
      one, and the notifier counts the signals since it was last read. */
  lemma HistoryTheorem(states: seq<State>, actions: seq<Action>, i: nat)
    requires IsRun(states, actions) && i < |states|
    ensures states[i].added == PushedBy(actions[..i])
    ensures states[i].executed <= PushedBy(actions[..i]) && |states[i].executed| == RunBy(actions[..i])
    ensures states[i].signals == SignalsSince(actions[..i])
  {
    RunInv(states, actions, i);
    Histories(states, actions, i);
    hide Step, Enabled, PushedBy, RunBy, SignalsSince, IsRun;
    assert states[i].added == states[i].executed + (states[i].batch + states[i].pending);
  }

  /** The loop is never stuck: it can always make the next step of its own, but in the poller that step may be the
      end of the timeout. */
  lemma LoopProgress(states: seq<State>, actions: seq<Action>, i: nat)
    requires IsRun(states, actions) && i < |states|
    ensures var s := states[i];
      match s.phase
      case Updating => Enabled(s, EndUpdate)
      case Swapping => Enabled(s, Swap)
      case Working => Enabled(s, SignalHere) || Enabled(s, Run) || Enabled(s, EndBatch)
      case Polling => Enabled(s, PollReturns(false)) && (s.signals > 0 ==> Enabled(s, PollReturns(true)))
      case Handling => Enabled(s, EndHandling) && (s.readable ==> Enabled(s, Consume))
  {
    RunInv(states, actions, i);
  }

  /** The loop never sleeps through work: in the poller with tasks pending, the notifier is signalled or some thread is
      between its push and its signal. */
  lemma WakeupTheorem(states: seq<State>, actions: seq<Action>, i: nat)
    requires IsRun(states, actions) && i < |states|
    requires states[i].phase == Polling && states[i].pending != []
    ensures states[i].signals > 0 || states[i].adders != {}
  {
    RunInv(states, actions, i);
  }

  /** Tasks run in the order of the lock, each once and none lost: run, batch and pending make up all that were
      added. */
  lemma TaskOrderTheorem(states: seq<State>, actions: seq<Action>, i: nat)
    requires IsRun(states, actions) && i < |states|
    ensures states[i].executed + states[i].batch + states[i].pending == states[i].added
    ensures states[i].phase == Polling ==> states[i].batch == []
  {
    RunInv(states, actions, i);
  }
}

/** How long the loop may block in the poller. */
module PollTimeouts {
  import opened TimerManagers

  const DEFAULT_TIMEOUT := 3000
  const MINIMUM_TIMEOUT := 1

  function Timeout(remaining: int): int {
    var timeout := if remaining == -1 || remaining >= DEFAULT_TIMEOUT then DEFAULT_TIMEOUT else remaining;
    if MINIMUM_TIMEOUT < timeout then timeout else MINIMUM_TIMEOUT
  }

  /** The timeout in milliseconds: between 1 and 3000, and no timer that is not yet due comes due more than a
      millisecond before it ends. With a due timer it is the minimum, with no timer the default. */
  method PollTimeout(m: TimerManager, now: int) returns (timeout: int)
    requires m.Valid()
    ensures 1 <= timeout <= 3000
    ensures m.timers == [] ==> timeout == 3000
    ensures m.timers != [] && m.timers[0].key <= now ==> timeout == 1
    ensures forall j :: 0 <= j < |m.timers| && m.timers[j].key > now ==>
      timeout == 1 || 1000 * timeout <= m.timers[j].key - now
    ensures timeout < 3000 && m.timers != [] && m.timers[0].key > now ==> m.timers[0].key - now < 1000 * (timeout + 1)
  {
    var remaining := m.NearestTimerRemainingExpiredTime(now);
    timeout := Timeout(remaining);
  }
}
