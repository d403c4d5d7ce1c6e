/** Accounting of thread slots: what the count bits of `ctl_` mean in every reachable state. */
module ThreadPoolSlots {
  import opened Basics
  import opened ControlWord
  import opened ThreadPool

  /** Callers that won the swap in `addThreadTask` and have not entered its critical section yet. */
  ghost function Reserving(callers: map<Task, Caller>, isCore: bool): set<Task> {
    set t | t in callers && callers[t] == Reserved(isCore)
  }

  ghost function Live(workers: map<WorkerId, Worker>, isCore: bool): set<WorkerId> {
    set w | w in workers && workers[w].isCore == isCore && workers[w].stage != Gone
  }

  ghost function Reservations(callers: map<Task, Caller>, isCore: bool): nat {
    |Reserving(callers, isCore)|
  }

  ghost function Threads(workers: map<WorkerId, Worker>, isCore: bool): nat {
    |Live(workers, isCore)|
  }

  /** Slots of one kind: live workers plus reservations in flight. */
  ghost function Slots(s: State, isCore: bool): nat {
    Reservations(s.callers, isCore) + Threads(s.workers, isCore)
  }

  ghost function Total(s: State): nat {
    Slots(s, true) + Slots(s, false)
  }

  /** The pool vector holds exactly the live workers, each once. */
  ghost predicate PoolAgrees(s: State) {
    && Distinct(s.pool)
    && forall w :: w in s.pool <==> w in s.workers && s.workers[w].stage != Gone
  }

  /** The word packs the state and the slot count, without carry into the state bits. */
  ghost predicate WordAgrees(cfg: Config, s: State) {
    Total(s) <= cfg.max && s.ctl == Pack(IsRunning(s.ctl), Total(s))
  }

  ghost predicate SwapSound(cfg: Config, c: Caller) {
    c.AddSwapping? ==> IsRunning(c.seen) && NumActive(c.seen) < cfg.Limit(c.isCore)
  }

  ghost predicate StaleSound(cfg: Config, s: State) {
    forall t :: t in s.callers ==> SwapSound(cfg, s.callers[t])
  }

  /** Past the shutdown swap the state is shutdown; past the wait no slot is left. */
  ghost predicate CloserSound(s: State, c: Closer) {
    && (c.Waiting? || c.Draining? || c.Closed? || c.AlreadyClosed? ==> !IsRunning(s.ctl))
    && (c.Draining? || c.Closed? ==> Total(s) == 0)
  }

  ghost predicate ClosersSound(s: State) {
    forall k :: k in s.closers ==> CloserSound(s, s.closers[k])
  }

  ghost predicate SlotInv(cfg: Config, s: State) {
    PoolAgrees(s) && WordAgrees(cfg, s) && StaleSound(cfg, s) && ClosersSound(s)
  }

  function Bit(b: bool): nat {
    if b then 1 else 0
  }

  // How one table update moves the slot counts.

  /** Replacing one table entry changes the set of chosen keys at that key only. */
  lemma ChosenMoves<K(!new)>(before: set<K>, after: set<K>, k: K)
    requires forall j :: j != k ==> (j in after <==> j in before)
    ensures |after| == |before| - Bit(k in before) + Bit(k in after)
  {
    var others := before - {k};
    assert before == if k in before then others + {k} else others;
    assert after == if k in after then others + {k} else others;
  }

  lemma CallerMoves(callers: map<Task, Caller>, t: Task, c: Caller, isCore: bool)
    ensures Reservations(callers[t := c], isCore)
      == Reservations(callers, isCore)
         - Bit(t in callers && callers[t] == Reserved(isCore)) + Bit(c == Reserved(isCore))
  {
    ChosenMoves(Reserving(callers, isCore), Reserving(callers[t := c], isCore), t);
  }

  lemma WorkerMoves(workers: map<WorkerId, Worker>, w: WorkerId, next: Worker, isCore: bool)
    ensures Threads(workers[w := next], isCore)
      == Threads(workers, isCore)
         - Bit(w in workers && workers[w].isCore == isCore && workers[w].stage != Gone)
         + Bit(next.isCore == isCore && next.stage != Gone)
  {
    ChosenMoves(Live(workers, isCore), Live(workers[w := next], isCore), w);
  }

  lemma {:induction false} WithoutErases(pool: seq<WorkerId>, w: WorkerId)
    requires Distinct(pool)
    ensures Distinct(Without(pool, w))
    ensures forall v :: v in Without(pool, w) <==> v in pool && v != w
  {
    if pool != [] {
      WithoutErases(pool[1..], w);
      assert pool == [pool[0]] + pool[1..];
      assert pool[0] !in Without(pool[1..], w);
    }
  }

  lemma {:induction false} DistinctSize<T(!new)>(xs: seq<T>, elements: set<T>)
    requires Distinct(xs)
    requires forall x :: x in xs <==> x in elements
    ensures |xs| == |elements|
  {
    if xs != [] {
      assert xs == [xs[0]] + xs[1..];
      DistinctSize(xs[1..], elements - {xs[0]});
    }
  }

  /** The count is the pool's size plus the reservations in flight. */
  lemma PoolSize(s: State)
    requires PoolAgrees(s)
    ensures |s.pool| == Threads(s.workers, true) + Threads(s.workers, false)
    ensures Total(s) == |s.pool| + Reservations(s.callers, true) + Reservations(s.callers, false)
  {
    DistinctSize(s.pool, Live(s.workers, true) + Live(s.workers, false));
    assert Live(s.workers, true) * Live(s.workers, false) == {};
  }

  // Preservation, kind of step by kind of step.

  /** A caller moves without touching the word or its reservation. */
  lemma CallerMoved(cfg: Config, s: State, s': State, t: Task, c: Caller)
    requires SlotInv(cfg, s)
    requires s' == s.(callers := s.callers[t := c], queue := s'.queue, pushed := s'.pushed)
    requires !c.Reserved? && SwapSound(cfg, c) && (t in s.callers ==> !s.callers[t].Reserved?)
    ensures SlotInv(cfg, s') && Slots(s', true) == Slots(s, true) && Slots(s', false) == Slots(s, false)
  {
    CallerMoves(s.callers, t, c, true);
    CallerMoves(s.callers, t, c, false);
  }

  /** A live worker changes stage and stays alive. */
  lemma WorkerMoved(cfg: Config, s: State, s': State, w: WorkerId, next: Worker)
    requires SlotInv(cfg, s)
    requires w in s.workers && s.workers[w].stage != Gone && next.isCore == s.workers[w].isCore && next.stage != Gone
    requires s' == s.(
      workers := s.workers[w := next], queue := s'.queue, queueOwner := s'.queueOwner,
      executed := s'.executed, popped := s'.popped, fault := s'.fault)
    ensures SlotInv(cfg, s') && Slots(s', true) == Slots(s, true) && Slots(s', false) == Slots(s, false)
  {
    WorkerMoves(s.workers, w, next, true);
    WorkerMoves(s.workers, w, next, false);
  }

  /** Neither table changes, nor does the count. */
  lemma CloserMoved(cfg: Config, s: State, s': State, k: CloserId, c: Closer)
    requires SlotInv(cfg, s)
    requires s'.callers == s.callers && s'.workers == s.workers && s'.pool == s.pool
    requires s'.closers == s.closers[k := c] && CloserSound(s', c)
    requires s'.ctl == s.ctl || s'.ctl == Pack(false, Total(s))
    requires cfg.Valid()
    ensures SlotInv(cfg, s') && Total(s') == Total(s)
    ensures !IsRunning(s.ctl) ==> !IsRunning(s'.ctl)
  {
    PackUnpack(false, Total(s));
  }

  lemma SwapStep(cfg: Config, s: State, t: Task)
    requires cfg.Valid() && SlotInv(cfg, s) && CallerEnabled(s, t, AddSwap) && s.ctl == s.callers[t].seen
    ensures var s' := DoAddSwap(s, t);
      && SlotInv(cfg, s') && IsRunning(s.ctl) && IsRunning(s'.ctl)
      && Total(s) < cfg.Limit(s.callers[t].isCore)
      && Slots(s', s.callers[t].isCore) == Slots(s, s.callers[t].isCore) + 1
      && Slots(s', !s.callers[t].isCore) == Slots(s, !s.callers[t].isCore)
  {
    hide IsRunning, IsShutdown, NumActive, Increment, Decrement, ToShutdown, Reservations, Threads;
    var s' := DoAddSwap(s, t);
    assert SwapSound(cfg, s.callers[t]);
    CallerMoves(s.callers, t, s'.callers[t], true);
    CallerMoves(s.callers, t, s'.callers[t], false);
    PackUnpack(true, Total(s));
    PackUnpack(true, Total(s) + 1);
    NoCloserRunning(s);
  }

  lemma NoCloserRunning(s: State)
    requires ClosersSound(s) && IsRunning(s.ctl)
    ensures forall k :: k in s.closers ==> s.closers[k].Testing? || s.closers[k].Loading? || s.closers[k].Swapping?
  {
    forall k | k in s.closers ensures s.closers[k].Testing? || s.closers[k].Loading? || s.closers[k].Swapping? {
      assert CloserSound(s, s.closers[k]);
    }
  }

  lemma CommitStep(cfg: Config, s: State, t: Task, w: WorkerId)
    requires cfg.Valid() && SlotInv(cfg, s) && CallerEnabled(s, t, AddCommit(w)) && IsRunning(s.ctl)
    ensures var s' := DoAddCommit(s, t, w);
      SlotInv(cfg, s') && Slots(s', true) == Slots(s, true) && Slots(s', false) == Slots(s, false)
  {
    var s' := DoAddCommit(s, t, w);
    forall b: bool ensures Slots(s', b) == Slots(s, b) {
      CallerMoves(s.callers, t, s'.callers[t], b);
      WorkerMoves(s.workers, w, s'.workers[w], b);
    }
    assert forall v :: v in s'.pool <==> v in s.pool || v == w;
  }

  lemma BackOutStep(cfg: Config, s: State, t: Task, w: WorkerId)
    requires cfg.Valid() && SlotInv(cfg, s) && CallerEnabled(s, t, AddCommit(w)) && !IsRunning(s.ctl)
    ensures var s' := DoAddCommit(s, t, w);
      && SlotInv(cfg, s') && !IsRunning(s'.ctl)
      && Slots(s', s.callers[t].isCore) == Slots(s, s.callers[t].isCore) - 1
      && Slots(s', !s.callers[t].isCore) == Slots(s, !s.callers[t].isCore)
  {
    hide IsRunning, IsShutdown, NumActive, Increment, Decrement, ToShutdown, Reservations, Threads;
    var s' := DoAddCommit(s, t, w);
    CallerMoves(s.callers, t, s'.callers[t], true);
    CallerMoves(s.callers, t, s'.callers[t], false);
    PackUnpack(false, Total(s));
    PackUnpack(false, Total(s) - 1);
    FewerSlots(s, s');
  }

  lemma FewerSlots(s: State, s': State)
    requires ClosersSound(s) && s'.closers == s.closers
    requires Total(s') < Total(s) && IsRunning(s'.ctl) == IsRunning(s.ctl)
    ensures ClosersSound(s')
  {
    forall k | k in s'.closers ensures CloserSound(s', s'.closers[k]) {
      assert CloserSound(s, s.closers[k]);
    }
  }

  /** `releaseThread` finds its wrapper in the pool and gives back exactly one slot. */
  lemma ReleaseStep(cfg: Config, s: State, w: WorkerId)
    requires cfg.Valid() && SlotInv(cfg, s) && WorkerEnabled(s, w, Release)
    ensures w in s.pool
    ensures var s' := DoRelease(s, w);
      && SlotInv(cfg, s') && IsRunning(s'.ctl) == IsRunning(s.ctl)
      && Slots(s', s.workers[w].isCore) == Slots(s, s.workers[w].isCore) - 1
      && Slots(s', !s.workers[w].isCore) == Slots(s, !s.workers[w].isCore)
  {
    hide IsRunning, IsShutdown, NumActive, Increment, Decrement, ToShutdown, Reservations, Threads;
    var s' := DoRelease(s, w);
    WorkerMoves(s.workers, w, s'.workers[w], true);
    WorkerMoves(s.workers, w, s'.workers[w], false);
    WithoutErases(s.pool, w);
    PackUnpack(IsRunning(s.ctl), Total(s));
    PackUnpack(IsRunning(s.ctl), Total(s) - 1);
    FewerSlots(s, s');
  }

  /** What the word says: shutdown is not running, and the count is the slot count. */
  lemma WordReads(cfg: Config, s: State)
    requires cfg.Valid() && SlotInv(cfg, s)
    ensures IsShutdown(s.ctl) == !IsRunning(s.ctl)
    ensures NumActive(s.ctl) == Total(s)
    ensures ToShutdown(s.ctl) == Pack(false, Total(s)) && !IsRunning(ToShutdown(s.ctl))
  {
    PackUnpack(IsRunning(s.ctl), Total(s));
    PackUnpack(false, Total(s));
  }

  /** The state only ever goes from running to shutdown, and after that the slot count never rises. */
  ghost predicate ClosesOnly(s: State, s': State) {
    !IsRunning(s.ctl) ==> !IsRunning(s'.ctl) && Total(s') <= Total(s)
  }

  /** A step of a caller other than the swap and the commit moves that caller, and pushes at most. */
  lemma CallerShape(cfg: Config, s: State, t: Task, call: CallerAction)
    requires CallerEnabled(s, t, call) && !call.AddSwap? && !call.AddCommit? && IsShutdown(s.ctl) == !IsRunning(s.ctl)
    ensures var s' := CallerStep(cfg, s, t, call);
      && t in s'.callers && !s'.callers[t].Reserved? && SwapSound(cfg, s'.callers[t])
      && (t in s.callers ==> !s.callers[t].Reserved?)
      && s' == s.(callers := s.callers[t := s'.callers[t]], queue := s'.queue, pushed := s'.pushed)
  {
    hide IsRunning, IsShutdown, NumActive;
  }

  lemma CallerKeepsSlots(cfg: Config, s: State, t: Task, call: CallerAction)
    requires cfg.Valid() && SlotInv(cfg, s) && CallerEnabled(s, t, call)
    requires !call.AddSwap? && !call.AddCommit?
    ensures var s' := CallerStep(cfg, s, t, call);
      && SlotInv(cfg, s') && ClosesOnly(s, s')
      && Slots(s', true) == Slots(s, true) && Slots(s', false) == Slots(s, false)
  {
    hide SlotInv, Slots, IsRunning, IsShutdown, NumActive, CallerStep, SwapSound;
    var s' := CallerStep(cfg, s, t, call);
    WordReads(cfg, s);
    CallerShape(cfg, s, t, call);
    CallerMoved(cfg, s, s', t, s'.callers[t]);
  }

  lemma AddSwapKeepsSlots(cfg: Config, s: State, t: Task)
    requires cfg.Valid() && SlotInv(cfg, s) && CallerEnabled(s, t, AddSwap)
    ensures SlotInv(cfg, DoAddSwap(s, t)) && ClosesOnly(s, DoAddSwap(s, t))
  {
    if s.ctl == s.callers[t].seen {
      SwapStep(cfg, s, t);
    } else {
      var s' := DoAddSwap(s, t);
      CallerMoved(cfg, s, s', t, s'.callers[t]);
    }
  }

  /** A step of a worker other than the release moves that worker, which stays alive and of its kind. */
  lemma WorkerShape(s: State, w: WorkerId, work: WorkerAction)
    requires WorkerEnabled(s, w, work) && !work.Release?
    ensures var s' := WorkerStep(s, w, work);
      && w in s.workers && w in s'.workers
      && s.workers[w].stage != Gone && s'.workers[w].stage != Gone && s'.workers[w].isCore == s.workers[w].isCore
      && s' == s.(
           workers := s.workers[w := s'.workers[w]], queue := s'.queue, queueOwner := s'.queueOwner,
           executed := s'.executed, popped := s'.popped, fault := s'.fault)
  {
    hide IsRunning, IsShutdown;
    assert s.workers[w := s.workers[w]] == s.workers;
  }

  lemma WorkerKeepsSlots(cfg: Config, s: State, w: WorkerId, work: WorkerAction)
    requires cfg.Valid() && SlotInv(cfg, s) && WorkerEnabled(s, w, work) && !work.Release?
    ensures var s' := WorkerStep(s, w, work);
      && SlotInv(cfg, s') && ClosesOnly(s, s')
      && Slots(s', true) == Slots(s, true) && Slots(s', false) == Slots(s, false)
  {
    hide SlotInv, Slots, IsRunning, WorkerStep;
    var s' := WorkerStep(s, w, work);
    WorkerShape(s, w, work);
    WorkerMoved(cfg, s, s', w, s'.workers[w]);
  }

  lemma CloserKeepsSlots(cfg: Config, s: State, k: CloserId, close: CloserAction)
    requires cfg.Valid() && SlotInv(cfg, s) && CloserEnabled(s, k, close)
    ensures SlotInv(cfg, CloserStep(s, k, close)) && ClosesOnly(s, CloserStep(s, k, close))
  {
    hide IsRunning, IsShutdown, NumActive, ToShutdown, Reservations, Threads;
    hide PoolAgrees, WordAgrees, StaleSound;
    var s' := CloserStep(s, k, close);
    WordReads(cfg, s);
    if k in s.closers {
      assert CloserSound(s, s.closers[k]);
    }
    assert s'.closers == s.closers[k := s'.closers[k]];
    CloserMoved(cfg, s, s', k, s'.closers[k]);
  }

  lemma StepKeepsSlots(cfg: Config, s: State, a: Action)
    requires cfg.Valid() && SlotInv(cfg, s) && Enabled(s, a)
    ensures SlotInv(cfg, Step(cfg, s, a)) && ClosesOnly(s, Step(cfg, s, a))
  {
    hide SlotInv;
    match a
    case ByCaller(t, AddSwap) => AddSwapKeepsSlots(cfg, s, t);
    case ByCaller(t, AddCommit(w)) =>
      if IsRunning(s.ctl) {
        CommitStep(cfg, s, t, w);
      } else {
        BackOutStep(cfg, s, t, w);
      }
    case ByCaller(t, call) => CallerKeepsSlots(cfg, s, t, call);
    case ByWorker(w, Release) => ReleaseStep(cfg, s, w);
    case ByWorker(w, work) => WorkerKeepsSlots(cfg, s, w, work);
    case ByCloser(k, close) => CloserKeepsSlots(cfg, s, k, close);
  }

  lemma InitHasSlots(cfg: Config)
    requires cfg.Valid()
    ensures SlotInv(cfg, Init()) && Slots(Init(), true) == Slots(Init(), false) == 0
  {
    assert Reserving(map[], true) == Reserving(map[], false) == {};
    assert Live(map[], true) == Live(map[], false) == {};
  }
}
