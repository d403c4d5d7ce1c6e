/** What holds in every interleaving of callers, workers and closers, from the first state to the last. */
module ThreadPoolTheorems {
  import opened Basics
  import opened ControlWord
  import opened ThreadPool
  import opened ThreadPoolSlots
  import opened ThreadPoolCore
  import opened ThreadPoolTasks

  ghost predicate Inv(cfg: Config, s: State) {
    SlotInv(cfg, s) && CoreInv(cfg, s) && QueueInv(cfg, s) && exists ledger :: Kept(s, ledger)
  }

  lemma InitInv(cfg: Config)
    requires cfg.Valid()
    ensures Inv(cfg, Init())
  {
    InitHasSlots(cfg);
    var none: Ledger := map[];
    assert Kept(Init(), none);
  }

  lemma StepInv(cfg: Config, s: State, a: Action)
    requires cfg.Valid() && Inv(cfg, s) && Enabled(s, a)
    ensures Inv(cfg, Step(cfg, s, a)) && ClosesOnly(s, Step(cfg, s, a))
  {
    hide SlotInv, CoreInv, QueueInv, Kept, Step, Enabled;
    StepKeepsSlots(cfg, s, a);
    StepKeepsCore(cfg, s, a);
    StepKeepsQueue(cfg, s, a);
    var ledger :| Kept(s, ledger);
    StepKeepsLedger(cfg, s, a, ledger);
  }

  lemma {:induction false} RunInv(cfg: Config, states: seq<State>, actions: seq<Action>, i: nat)
    requires cfg.Valid() && IsRun(cfg, states, actions) && i < |states|
    ensures Inv(cfg, states[i])
  {
    hide Inv, Step, Enabled, Init;
    if i == 0 {
      InitInv(cfg);
    } else {
      RunInv(cfg, states, actions, i - 1);
      StepInv(cfg, states[i - 1], actions[i - 1]);
    }
  }

  /** The count bits are the pool's size plus the reservations in flight, within the maximum, and never reach the
      state bits. */
  lemma CountTheorem(cfg: Config, states: seq<State>, actions: seq<Action>, i: nat)
    requires cfg.Valid() && IsRun(cfg, states, actions) && i < |states|
    ensures var s := states[i];
      && NumActive(s.ctl) == |s.pool| + |Reserving(s.callers, true)| + |Reserving(s.callers, false)|
      && NumActive(s.ctl) <= cfg.max
      && (s.ctl == RUNNING + NumActive(s.ctl) || s.ctl == SHUTDOWN + NumActive(s.ctl))
  {
    RunInv(cfg, states, actions, i);
    WordReads(cfg, states[i]);
    PoolSize(states[i]);
  }

  /** Shutdown is irreversible, and after it the number of threads never rises. */
  lemma {:induction false} ShutdownTheorem(cfg: Config, states: seq<State>, actions: seq<Action>, i: nat, j: nat)
    requires cfg.Valid() && IsRun(cfg, states, actions) && i <= j < |states|
    requires !IsRunning(states[i].ctl)
    ensures !IsRunning(states[j].ctl) && NumActive(states[j].ctl) <= NumActive(states[i].ctl)
    decreases j
  {
    hide IsRunning, NumActive, SlotInv, Step, Enabled;
    RunInv(cfg, states, actions, i);
    WordReads(cfg, states[i]);
    if i < j {
      ShutdownTheorem(cfg, states, actions, i, j - 1);
      RunInv(cfg, states, actions, j - 1);
      StepInv(cfg, states[j - 1], actions[j - 1]);
      WordReads(cfg, states[j - 1]);
      RunInv(cfg, states, actions, j);
      WordReads(cfg, states[j]);
    }
  }

  /** When the wait in `shutdown` ends the pool is empty, and it stays empty. */
  lemma DrainedTheorem(cfg: Config, states: seq<State>, actions: seq<Action>, i: nat, j: nat)
    requires cfg.Valid() && IsRun(cfg, states, actions) && i < |actions| && i <= j < |states|
    requires actions[i].ByCloser? && actions[i].close.CloseWait?
    ensures states[j].pool == [] && NumActive(states[j].ctl) == 0 && !IsRunning(states[j].ctl)
  {
    RunInv(cfg, states, actions, i);
    var s, k := states[i], actions[i].k;
    assert CloserSound(s, s.closers[k]);
    ShutdownTheorem(cfg, states, actions, i, j);
    CountTheorem(cfg, states, actions, j);
  }

  /** `releaseThread` always finds its wrapper, `take` never pops an empty queue, and the assertion that `shutdown`
      makes about the pool never fails. */
  lemma NoFaultTheorem(cfg: Config, states: seq<State>, actions: seq<Action>, i: nat)
    requires cfg.Valid() && IsRun(cfg, states, actions) && i < |states|
    ensures !states[i].fault
    ensures i < |actions| && actions[i].ByWorker? && actions[i].work.Release? ==> actions[i].w in states[i].pool
    ensures i < |actions| && actions[i].ByWorker? && actions[i].work.TakePop? && !IsShutdown(states[i].ctl) ==>
      states[i].queue != []
  {
    RunInv(cfg, states, actions, i);
    if i < |actions| && actions[i].ByWorker? && actions[i].work.Release? {
      ReleaseStep(cfg, states[i], actions[i].w);
    }
    if i < |actions| && actions[i].ByWorker? && actions[i].work.TakePop? && !IsShutdown(states[i].ctl) {
      PopFindsTask(cfg, states[i], actions[i].w);
    }
  }

  /** While the pool runs: no more core slots than configured, and no non-core slot and no queued task unless all
      core slots are taken. */
  lemma CoreFirstTheorem(cfg: Config, states: seq<State>, actions: seq<Action>, i: nat)
    requires cfg.Valid() && IsRun(cfg, states, actions) && i < |states| && IsRunning(states[i].ctl)
    ensures var s := states[i];
      && Slots(s, true) <= cfg.core
      && (Slots(s, false) > 0 ==> Slots(s, true) == cfg.core)
      && (s.queue != [] ==> Slots(s, true) == cfg.core)
  {
    RunInv(cfg, states, actions, i);
  }

  /** Every task is in exactly one place; a call returned true exactly if its task left the caller and was not
      rejected; nothing executes twice; a task is discarded only after shutdown. */
  lemma OnePlaceTheorem(cfg: Config, states: seq<State>, actions: seq<Action>, i: nat, t: Task)
    requires cfg.Valid() && IsRun(cfg, states, actions) && i < |states| && t in states[i].callers
    ensures exists p :: IsAt(states[i], t, p) && forall q :: IsAt(states[i], t, q) ==> q == p
    ensures states[i].callers[t] == Returned(true) <==>
      exists p :: IsAt(states[i], t, p) && (p.Queued? || p.InSlot? || p.Executed? || p.Discarded?)
    ensures Distinct(states[i].executed)
    ensures t in states[i].discarded ==> !IsRunning(states[i].ctl)
  {
    RunInv(cfg, states, actions, i);
    var s := states[i];
    var ledger :| Kept(s, ledger);
    var p := ledger[t];
    assert IsAt(s, t, p);
    assert forall q :: IsAt(s, t, q) ==> q == p;
    assert !IsAt(s, t, WithCaller) && !IsAt(s, t, Rejected) <==> s.callers[t] == Returned(true);
  }

  /** Tasks leave the queue in the order in which they entered it, and the queue respects its bound. */
  lemma FifoTheorem(cfg: Config, states: seq<State>, actions: seq<Action>, i: nat)
    requires cfg.Valid() && IsRun(cfg, states, actions) && i < |states|
    ensures states[i].pushed == states[i].popped + states[i].queue
    ensures |states[i].queue| <= cfg.queueLimit
  {
    RunInv(cfg, states, actions, i);
  }
}
