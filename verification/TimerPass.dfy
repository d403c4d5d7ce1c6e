/** One pass of TimerManager::update as a sequence of turns, each on the map that the turn before it left. */
module TimerPasses {
  import opened TimerTable
  import opened TimerBooks

  /** Where a pass goes on after it took the entry at `at` out and put it back under `expiry`: at the next entry if that
      comes strictly first, else at the entry put back. An entry with the same key is then passed over, because an
      insertion goes behind it. */
  function Onward(erased: seq<Entry>, at: nat, expiry: int): nat {
    var p := UpperBound(erased, expiry);
    if at < |erased| && erased[at].key < expiry then (if p <= at then at + 1 else at) else p
  }

  /** The map, and where the pass goes on, after the entry at `at` ran its callback at `now`. */
  function Settled(timers: seq<Entry>, at: nat, now: int): (seq<Entry>, nat)
    requires at < |timers|
  {
    var next := timers[at].timer.Next(now);
    var erased := Erase(timers, at);
    if next.IsRepeatable() then (Insert(erased, Entry(next.expiry, next)), Onward(erased, at, next.expiry))
    else (erased, at)
  }

  /** The timer is put back under the key of the entry behind it. */
  predicate Ties(timers: seq<Entry>, at: nat, now: int)
    requires at < |timers|
  {
    var next := timers[at].timer.Next(now);
    next.IsRepeatable() && at + 1 < |timers| && timers[at + 1].key == next.expiry
  }

  /** One iteration, on the expired entry at `at`. A timer that can fire runs its callback, which does `effects`. */
  datatype Turn = Turn(book: Book, at: nat, now: int, effects: seq<Effect>) {
    predicate Ready() {
      at < |book.timers| && book.timers[at].timer.IsExpired(now)
    }

    predicate Live() {
      at < |book.timers| && book.timers[at].timer.IsRepeatable()
    }

    function Key(): int
      requires at < |book.timers|
    {
      book.timers[at].key
    }

    function Started(): Book
      requires at < |book.timers|
    {
      var timer := book.timers[at].timer;
      book.(log := book.log + [Fired(timer.id, timer.expiry, now)])
    }

    /** The book after the callback, and where the timer is then. */
    function Called(): (r: (Book, nat))
      requires at < |book.timers|
      ensures r.1 < |r.0.timers|
    {
      Performed(Started(), at, effects)
    }

    /** The book after the turn, and where the pass goes on. A timer that cannot fire is just erased. */
    function After(): (Book, nat)
      requires at < |book.timers|
    {
      if Live() then
        var (b, i) := Called();
        var (timers, j) := Settled(b.timers, i, now);
        (b.(timers := timers), j)
      else (book.(timers := Erase(book.timers, at)), at)
    }
  }

  function LiveTurns(trace: seq<Turn>): nat {
    if trace == [] then 0 else LiveTurns(trace[..|trace| - 1]) + if trace[|trace| - 1].Live() then 1 else 0
  }

  /** The n-th callback of a pass does what `script[n]` says, and nothing once the script is used up. */
  function Assigned(trace: seq<Turn>, live: bool, script: seq<seq<Effect>>): seq<Effect> {
    if live && LiveTurns(trace) < |script| then script[LiveTurns(trace)] else []
  }

  /** The turns of `trace`, made one after the other from the front of book `b`, lead to book `end` and index `at`. The
      clock may show any time from zero to `horizon` at each turn. */
  ghost predicate Reached(trace: seq<Turn>, horizon: int, script: seq<seq<Effect>>, b: Book, end: Book, at: nat) {
    if trace == [] then end == b && at == 0
    else
      var before, turn := trace[..|trace| - 1], trace[|trace| - 1];
      && turn.Ready() && 0 <= turn.now <= horizon
      && turn.effects == Assigned(before, turn.Live(), script)
      && Reached(before, horizon, script, b, turn.book, turn.at)
      && (end, at) == turn.After()
  }

  /** The pass is over: at the end of the map, or at an entry that is not expired. */
  ghost predicate Completed(
    trace: seq<Turn>, horizon: int, script: seq<seq<Effect>>, b: Book, end: Book, stop: nat, now: int)
  {
    && Reached(trace, horizon, script, b, end, stop)
    && 0 <= now <= horizon
    && (stop < |end.timers| ==> !end.timers[stop].timer.IsExpired(now))
  }

  // Every turn keeps the table sound.

  lemma LiveKey(b: Book, busy: int, i: nat)
    requires b.Ok(busy) && i < |b.timers|
    ensures b.timers[i].timer.IsRepeatable() ==> b.timers[i].key == b.timers[i].timer.expiry
    ensures b.timers[i].timer.id < |b.issued|
  {
    assert b.Past().EntryOk(b.timers[i], busy);
  }

  lemma BookSorted(b: Book, busy: int)
    requires b.Ok(busy)
    ensures Sorted(b.timers) && IdsDistinct(b.timers)
  {
  }

  lemma SettledKeeps(b: Book, at: nat, now: int)
    requires at < |b.timers| && b.Ok(b.timers[at].timer.id) && b.timers[at].key <= now
    requires Latest(b.log, Fired(b.timers[at].timer.id, b.timers[at].key, now))
    ensures b.(timers := Settled(b.timers, at, now).0).Ok(-1)
  {
    assert b.Past().EntryOk(b.timers[at], b.timers[at].timer.id) && b.Past().Ok();
    hide Sound, Insert, Erase, History.EntryOk, History.Ok, Latest;
    if b.timers[at].timer.Next(now).IsRepeatable() {
      ReinsertKeeps(b.timers, b.Past(), at, now);
    } else {
      KnownId(b.timers, b.Past(), b.timers[at].timer.id, at);
      NotRepeatableAgain(b.Past(), b.timers[at], now);
      DropKeeps(b.timers, b.Past(), b.timers[at].timer.id, at);
    }
  }

  lemma StartedKeeps(turn: Turn)
    requires turn.book.Ok(-1) && turn.Ready() && turn.Live()
    ensures turn.Started().Ok(turn.book.timers[turn.at].timer.id)
    ensures turn.Key() == turn.book.timers[turn.at].timer.expiry <= turn.now
    ensures Latest(turn.Started().log, Fired(turn.book.timers[turn.at].timer.id, turn.Key(), turn.now))
  {
    LiveKey(turn.book, -1, turn.at);
    hide Sound;
    FireKeeps(turn.book.timers, turn.book.Past(), turn.at, turn.now);
  }

  /** A live turn logs its firing, under the key it had, before whatever its callback cancels. */
  lemma CalledKeeps(turn: Turn)
    requires turn.book.Ok(-1) && turn.Ready() && turn.Live()
    ensures var (b, i) := turn.Called();
      && b.Ok(turn.book.timers[turn.at].timer.id)
      && Carried(turn.Started(), turn.at, b, i)
      && b.timers[i].timer.id == turn.book.timers[turn.at].timer.id
      && b.timers[i].key == turn.Key() <= turn.now
      && Latest(b.log, Fired(turn.book.timers[turn.at].timer.id, turn.Key(), turn.now))
  {
    hide Book.Ok, Latest;
    StartedKeeps(turn);
    PerformedKeeps(turn.Started(), turn.at, turn.effects, turn.book.timers[turn.at].timer.id);
    LatestStays(
      turn.Started().log, turn.Called().0.log, Fired(turn.book.timers[turn.at].timer.id, turn.Key(), turn.now));
  }

  lemma TurnKeeps(turn: Turn)
    requires turn.book.Ok(-1) && turn.Ready()
    ensures turn.After().0.Ok(-1)
  {
    hide Sound;
    if turn.Live() {
      CalledKeeps(turn);
      var (b, i) := turn.Called();
      SettledKeeps(b, i, turn.now);
    } else {
      DeadOrDone(turn.book, turn.at);
      DropKeeps(turn.book.timers, turn.book.Past(), -1, turn.at);
    }
  }

  lemma DeadOrDone(b: Book, i: nat)
    requires b.Ok(-1) && i < |b.timers| && !b.timers[i].timer.IsRepeatable()
    ensures b.timers[i].timer.id < |b.issued| && !b.Past().Stays(b.timers[i].timer.id, -1)
  {
    KnownId(b.timers, b.Past(), -1, i);
    assert b.Past().EntryOk(b.timers[i], -1) && b.Past().Ok();
    NotRepeatable(b.Past(), b.timers[i]);
  }

  lemma {:induction false} PassKeeps(
    trace: seq<Turn>, horizon: int, script: seq<seq<Effect>>, b: Book, end: Book, at: nat)
    requires b.Ok(-1) && Reached(trace, horizon, script, b, end, at)
    ensures end.Ok(-1)
  {
    hide Book.Ok;
    if trace != [] {
      var turn := trace[|trace| - 1];
      PassKeeps(trace[..|trace| - 1], horizon, script, b, turn.book, turn.at);
      TurnKeeps(turn);
    }
  }

  // Intervals that are not negative.

  predicate NonNegative(timers: seq<Entry>) {
    forall i :: 0 <= i < |timers| ==> timers[i].timer.interval >= 0
  }

  predicate EffectsNonNegative(effects: seq<Effect>) {
    forall i :: 0 <= i < |effects| && effects[i].Add? ==> effects[i].interval >= 0
  }

  predicate ScriptNonNegative(script: seq<seq<Effect>>) {
    forall i :: 0 <= i < |script| ==> EffectsNonNegative(script[i])
  }

  lemma {:induction false} PerformedNonNegative(b: Book, at: nat, effects: seq<Effect>)
    requires at < |b.timers| && NonNegative(b.timers) && EffectsNonNegative(effects)
    ensures NonNegative(Performed(b, at, effects).0.timers)
  {
    hide Book.Applied;
    if effects != [] {
      var before, e := effects[..|effects| - 1], effects[|effects| - 1];
      PerformedNonNegative(b, at, before);
      AppliedNonNegative(Performed(b, at, before).0, e);
    }
  }

  lemma AppliedNonNegative(b: Book, e: Effect)
    requires NonNegative(b.timers) && (e.Add? ==> e.interval >= 0)
    ensures NonNegative(b.Applied(e).timers)
  {
    hide Search, UpperBound;
  }

  lemma SettledNonNegative(timers: seq<Entry>, at: nat, now: int)
    requires at < |timers| && NonNegative(timers)
    ensures NonNegative(Settled(timers, at, now).0)
  {
    assert timers[at].timer.interval >= 0;
  }

  lemma TurnNonNegative(turn: Turn)
    requires turn.Ready() && NonNegative(turn.book.timers) && EffectsNonNegative(turn.effects)
    ensures NonNegative(turn.After().0.timers)
    ensures NonNegative(turn.Called().0.timers)
  {
    hide Performed, Settled;
    PerformedNonNegative(turn.Started(), turn.at, turn.effects);
    SettledNonNegative(turn.Called().0.timers, turn.Called().1, turn.now);
  }

  lemma {:induction false} PassNonNegative(
    trace: seq<Turn>, horizon: int, script: seq<seq<Effect>>, b: Book, end: Book, at: nat)
    requires NonNegative(b.timers) && ScriptNonNegative(script) && Reached(trace, horizon, script, b, end, at)
    ensures NonNegative(end.timers)
  {
    hide NonNegative;
    if trace != [] {
      var turn := trace[|trace| - 1];
      PassNonNegative(trace[..|trace| - 1], horizon, script, b, turn.book, turn.at);
      TurnNonNegative(turn);
    }
  }

  // Order.

  /** Exactly when a pass moves on without passing anything over: when the timer it fired does not tie with the entry
      behind it. */
  lemma PassesOverIffTied(timers: seq<Entry>, at: nat, now: int)
    requires Sorted(timers) && at < |timers| && timers[at].timer.Next(now).expiry >= timers[at].key
    ensures Settled(timers, at, now).1 == at <==> !Ties(timers, at, now)
  {
    var erased, expiry := Erase(timers, at), timers[at].timer.Next(now).expiry;
    assert at > 0 ==> erased[at - 1] == timers[at - 1];
    assert at < |erased| ==> erased[at] == timers[at + 1];
    var p := UpperBound(erased, expiry);
    EraseSorted(timers, at);
    assert p > at ==> erased[at].key <= erased[p - 1].key;
  }

  /** What a timer that will be put back becomes due at is not before the key it has. */
  lemma NextNotEarlier(b: Book, busy: int, i: nat, now: int)
    requires b.Ok(busy) && i < |b.timers| && b.timers[i].key <= now && b.timers[i].timer.interval >= 0
    ensures var next := b.timers[i].timer.Next(now); next.IsRepeatable() ==> next.expiry >= b.timers[i].key
  {
    LiveKey(b, busy, i);
  }

  /** A pass goes on at a key no earlier than the one it fired. */
  lemma SettledOnward(timers: seq<Entry>, at: nat, now: int)
    requires Sorted(timers) && at < |timers|
    requires var next := timers[at].timer.Next(now); next.IsRepeatable() ==> next.expiry >= timers[at].key
    ensures var (after, it) := Settled(timers, at, now);
      it <= |after| && (it < |after| ==> after[it].key >= timers[at].key)
  {
    EraseSorted(timers, at);
    if timers[at].timer.Next(now).IsRepeatable() {
      PassesOverIffTied(timers, at, now);
    }
  }

  lemma TurnOnward(turn: Turn)
    requires turn.book.Ok(-1) && turn.Ready() && NonNegative(turn.book.timers) && EffectsNonNegative(turn.effects)
    ensures var (b, i) := turn.After(); i <= |b.timers| && (i < |b.timers| ==> b.timers[i].key >= turn.Key())
  {
    BookSorted(turn.book, -1);
    if turn.Live() {
      CalledKeeps(turn);
      TurnNonNegative(turn);
      var (b, i) := turn.Called();
      BookSorted(b, turn.book.timers[turn.at].timer.id);
      NextNotEarlier(b, turn.book.timers[turn.at].timer.id, i, turn.now);
      hide Book.Ok, Settled;
      SettledOnward(b.timers, i, turn.now);
    }
  }

  /** Callbacks of one pass, which starts at log position `from`, run in the order of their scheduled times. */
  ghost predicate InOrder(log: seq<Event>, from: nat) {
    forall i, j :: from <= i < j < |log| && log[i].Fired? && log[j].Fired? ==> log[i].scheduled <= log[j].scheduled
  }

  /** All firings since `from` were scheduled no later than `key`. */
  ghost predicate Below(log: seq<Event>, from: nat, key: int) {
    forall i :: from <= i < |log| && log[i].Fired? ==> log[i].scheduled <= key
  }

  lemma FiringInOrder(log: seq<Event>, f: Event, log': seq<Event>, from: nat)
    requires from <= |log| && f.Fired? && InOrder(log, from) && Below(log, from, f.scheduled)
    requires log + [f] <= log' && forall j :: |log| < j < |log'| ==> log'[j].Cancelled?
    ensures log <= log' && InOrder(log', from) && Below(log', from, f.scheduled)
  {
    assert forall j :: 0 <= j < |log| ==> log'[j] == (log + [f])[j] == log[j];
    assert log'[|log|] == (log + [f])[|log|] == f;
  }

  lemma TurnLog(turn: Turn, from: nat)
    requires turn.book.Ok(-1) && turn.Ready() && from <= |turn.book.log|
    requires InOrder(turn.book.log, from) && Below(turn.book.log, from, turn.Key())
    ensures var log := turn.After().0.log;
      turn.book.log <= log && InOrder(log, from) && Below(log, from, turn.Key())
  {
    if turn.Live() {
      CalledKeeps(turn);
      StartedKeeps(turn);
      hide Book.Ok, Performed, InOrder, Below, Settled;
      var timer := turn.book.timers[turn.at].timer;
      FiringInOrder(turn.book.log, Fired(timer.id, timer.expiry, turn.now), turn.Called().0.log, from);
    }
  }

  /** In a pass with intervals that are not negative, callbacks run in the order of their scheduled times. */
  lemma {:induction false} PassInOrder(
    trace: seq<Turn>, horizon: int, script: seq<seq<Effect>>, b: Book, end: Book, at: nat)
    requires b.Ok(-1) && NonNegative(b.timers) && ScriptNonNegative(script)
    requires Reached(trace, horizon, script, b, end, at)
    ensures at <= |end.timers| && b.log <= end.log && InOrder(end.log, |b.log|)
    ensures at < |end.timers| ==> Below(end.log, |b.log|, end.timers[at].key)
  {
    hide Book.Ok, NonNegative, ScriptNonNegative, EffectsNonNegative;
    if trace != [] {
      var before, turn := trace[..|trace| - 1], trace[|trace| - 1];
      PassInOrder(before, horizon, script, b, turn.book, turn.at);
      PassKeeps(before, horizon, script, b, turn.book, turn.at);
      PassNonNegative(before, horizon, script, b, turn.book, turn.at);
      AssignedNonNegative(before, turn.Live(), script);
      TurnLog(turn, |b.log|);
      TurnOnward(turn);
    }
  }

  lemma AssignedNonNegative(trace: seq<Turn>, live: bool, script: seq<seq<Effect>>)
    requires ScriptNonNegative(script)
    ensures EffectsNonNegative(Assigned(trace, live, script))
  {
  }
}
