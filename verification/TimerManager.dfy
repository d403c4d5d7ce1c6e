/** How long a pass can last: the summed measure of the firings that are left. */
module TimerFuel {
  import opened TimerTable
  import opened TimerBooks
  import opened TimerPasses

  /** A timer that repeats forever advances: without this the pass in the source never ends. */
  predicate Advances(repeat: int, interval: int) {
    repeat == FOREVER ==> interval > 0
  }

  predicate AllAdvance(timers: seq<Entry>) {
    forall i :: 0 <= i < |timers| ==> Advances(timers[i].timer.repeat, timers[i].timer.interval)
  }

  predicate EffectsAdvance(effects: seq<Effect>) {
    forall i :: 0 <= i < |effects| && effects[i].Add? ==> Advances(effects[i].repeat, effects[i].interval)
  }

  predicate ScriptAdvances(script: seq<seq<Effect>>) {
    forall i :: 0 <= i < |script| ==> EffectsAdvance(script[i])
  }

  /** Bounds the iterations that an entry can still cause while the clock stays below `horizon`. */
  function Fuel(t: Timer, horizon: int): nat {
    if t.repeat > 0 then 1 + t.repeat
    else if t.repeat == FOREVER && t.expiry <= horizon then 2 + horizon - t.expiry
    else 1
  }

  function TotalFuel(timers: seq<Entry>, horizon: int): nat {
    if timers == [] then 0 else Fuel(timers[0].timer, horizon) + TotalFuel(timers[1..], horizon)
  }

  lemma {:induction false} FuelSplits(a: seq<Entry>, b: seq<Entry>, horizon: int)
    ensures TotalFuel(a + b, horizon) == TotalFuel(a, horizon) + TotalFuel(b, horizon)
  {
    if a == [] {
      assert a + b == b;
    } else {
      FuelSplits(a[1..], b, horizon);
      assert (a + b)[1..] == a[1..] + b;
    }
  }

  lemma FuelAt(timers: seq<Entry>, i: nat, horizon: int)
    requires i < |timers|
    ensures TotalFuel(timers, horizon) == TotalFuel(Erase(timers, i), horizon) + Fuel(timers[i].timer, horizon)
  {
    assert timers == timers[..i] + ([timers[i]] + timers[i + 1..]);
    FuelSplits(timers[..i], [timers[i]] + timers[i + 1..], horizon);
    FuelSplits([timers[i]], timers[i + 1..], horizon);
    FuelSplits(timers[..i], timers[i + 1..], horizon);
    FuelOfOne(timers[i], horizon);
  }

  lemma FuelOfOne(e: Entry, horizon: int)
    ensures TotalFuel([e], horizon) == Fuel(e.timer, horizon)
  {
    assert [e][1..] == [];
  }

  lemma FuelInserted(timers: seq<Entry>, e: Entry, horizon: int)
    ensures TotalFuel(Insert(timers, e), horizon) == TotalFuel(timers, horizon) + Fuel(e.timer, horizon)
  {
    var p := UpperBound(timers, e.key);
    assert timers == timers[..p] + timers[p..];
    FuelSplits(timers[..p], timers[p..], horizon);
    FuelSplits(timers[..p] + [e], timers[p..], horizon);
    FuelSplits(timers[..p], [e], horizon);
    FuelOfOne(e, horizon);
  }

  lemma FuelSpent(t: Timer, now: int, horizon: int)
    requires t.IsRepeatable() && t.expiry <= now <= horizon && Advances(t.repeat, t.interval)
    ensures Fuel(t.Next(now), horizon) < Fuel(t, horizon)
  {
  }

  lemma ErasedAlike(timers: seq<Entry>, at: nat)
    requires at < |timers| && AllAdvance(timers)
    ensures Advances(timers[at].timer.repeat, timers[at].timer.interval) && AllAdvance(Erase(timers, at))
  {
  }

  lemma InsertedAlike(timers: seq<Entry>, e: Entry)
    requires AllAdvance(timers) && Advances(e.timer.repeat, e.timer.interval)
    ensures AllAdvance(Insert(timers, e))
  {
  }

  lemma SettledSpends(timers: seq<Entry>, at: nat, now: int, horizon: int)
    requires at < |timers| && AllAdvance(timers)
    requires timers[at].timer.IsRepeatable() ==> timers[at].timer.expiry <= now <= horizon
    ensures var after := Settled(timers, at, now).0;
      AllAdvance(after) && TotalFuel(after, horizon) < TotalFuel(timers, horizon)
  {
    var next := timers[at].timer.Next(now);
    ErasedAlike(timers, at);
    FuelAt(timers, at, horizon);
    hide Insert, Erase, TotalFuel, AllAdvance;
    if next.IsRepeatable() {
      InsertedAlike(Erase(timers, at), Entry(next.expiry, next));
      FuelInserted(Erase(timers, at), Entry(next.expiry, next), horizon);
      FuelSpent(timers[at].timer, now, horizon);
    }
  }

  lemma {:induction false} PerformedAdvances(b: Book, at: nat, effects: seq<Effect>)
    requires at < |b.timers| && AllAdvance(b.timers) && EffectsAdvance(effects)
    ensures AllAdvance(Performed(b, at, effects).0.timers)
  {
    if effects != [] {
      PerformedAdvances(b, at, effects[..|effects| - 1]);
    }
  }

  /** Each turn whose callback is idle lowers the measure. */
  lemma TurnSpends(turn: Turn, horizon: int)
    requires turn.book.Ok(-1) && turn.Ready() && turn.now <= horizon
    requires AllAdvance(turn.book.timers) && EffectsAdvance(turn.effects)
    ensures AllAdvance(turn.After().0.timers)
    ensures turn.effects == [] ==> TotalFuel(turn.After().0.timers, horizon) < TotalFuel(turn.book.timers, horizon)
  {
    if turn.Live() {
      CalledKeeps(turn);
      PerformedAdvances(turn.Started(), turn.at, turn.effects);
      var (b, i) := turn.Called();
      LiveKey(b, turn.book.timers[turn.at].timer.id, i);
      hide Book.Ok, Settled, AllAdvance, TotalFuel;
      SettledSpends(b.timers, i, turn.now, horizon);
    } else {
      FuelAt(turn.book.timers, turn.at, horizon);
      ErasedAlike(turn.book.timers, turn.at);
    }
  }
}

/** TimerManager: the pass over the map that fires, reinserts and erases timers while callbacks add and cancel
    others. */
module TimerManagers {
  import opened TimerTable
  import opened TimerBooks
  import opened TimerPasses
  import opened TimersLeft
  import opened TimersApart
  import opened TimerFuel

  class TimerManager {
    var timers: seq<Entry>
    var issued: seq<Timer> // history; its length is the next id
    var log: seq<Event> // history

    ghost function View(): Book
      reads this
    {
      Book(timers, issued, log)
    }

    /** Timer `busy` is inside its callback; -1 is none. */
    ghost predicate Valid(busy: int := -1)
      reads this
    {
      View().Ok(busy)
    }

    constructor ()
      ensures Valid() && View() == Empty()
    {
      timers, issued, log := [], [], [];
    }

    /** Adds a timer under a fresh id; its handle is the pair of that id and its expiry. */
    method AddTimer(expiry: int, repeat: int, interval: int, fixedDelay: bool, ghost busy: int := -1) returns (id: nat)
      requires Valid(busy)
      modifies this
      ensures Valid(busy) && id == old(|issued|)
      ensures View() == old(View()).Added(expiry, repeat, interval, fixedDelay)
    {
      AddedKeeps(View(), busy, expiry, repeat, interval, fixedDelay);
      hide Book.Ok;
      id := |issued|;
      var timer := Timer(id, expiry, repeat, interval, fixedDelay);
      timers := Insert(timers, Entry(expiry, timer));
      issued := issued + [timer];
    }

    /** The scan for a handle, from its expiry on. */
    method FindTimer(id: int, value: int) returns (i: nat)
      requires Sorted(timers)
      ensures i == Search(timers, id, value)
    {
      i := LowerBound(timers, value);
      while i < |timers| && timers[i].timer.id != id
        invariant i <= |timers|
        invariant forall j :: 0 <= j < i ==> timers[j].timer.id != id || timers[j].key < value
        invariant i < |timers| ==> timers[i].key >= value
      {
        i := i + 1;
      }
    }

    /** Marks the timer dead if the scan from the handle's expiry meets it. With the handle that AddTimer gave out, of a
        timer with a non-negative interval, the timer never fires again: it is dead, or had left the map before. */
    method RemoveTimer(id: int, value: int, ghost busy: int := -1)
      requires Valid(busy)
      modifies this
      ensures Valid(busy) && View() == old(View()).Removed(id, value)
      ensures 0 <= id < |issued| && value == issued[id].expiry && issued[id].interval >= 0 ==> Cancelled(id) in log
    {
      ghost var b := View();
      BookSorted(b, busy);
      RemovedKeeps(b, busy, id, value);
      if 0 <= id < |issued| && value == issued[id].expiry && issued[id].interval >= 0 {
        HandleCancels(b, busy, id);
      }
      hide Book.Ok, Search;
      var i := FindTimer(id, value);
      if id >= 0 && (i < |timers| || (id < |issued| && forall j :: 0 <= j < |timers| ==> timers[j].timer.id != id)) {
        log := log + [Cancelled(id)];
      }
      if i < |timers| {
        timers := timers[i := timers[i].(timer := timers[i].timer.Dead())];
      }
    }

    /** The callback of the timer at `at`. The result is the index at which its entry is afterwards. */
    method RunCallback(effects: seq<Effect>, at: nat, ghost busy: int) returns (it: nat)
      requires at < |timers| && Valid(busy)
      modifies this
      ensures Valid(busy) && (View(), it) == Performed(old(View()), at, effects)
    {
      hide Book.Ok;
      it := at;
      for n := 0 to |effects|
        invariant Valid(busy) && (View(), it) == Performed(old(View()), at, effects[..n])
      {
        assert effects[..n + 1][..n] == effects[..n];
        match effects[n]
        case Add(expiry, repeat, interval, fixedDelay) =>
          var p := UpperBound(timers, expiry);
          var _ := AddTimer(expiry, repeat, interval, fixedDelay, busy);
          it := if p <= it then it + 1 else it;
        case Remove(id, value) =>
          RemoveTimer(id, value, busy);
      }
      assert effects[..|effects|] == effects;
    }

    /** After the callback: the timer gets its next expiry and count, and is reinserted if it can fire again, else
        erased. */
    method Settle(at: nat, now: int) returns (it: nat)
      requires at < |timers|
      modifies this`timers
      ensures (timers, it) == Settled(old(timers), at, now)
    {
      var entry := timers[at];
      var next := entry.timer.Next(now);
      ghost var before := timers;
      timers := timers[at := Entry(entry.key, next)];
      var erased := Erase(timers, at);
      assert erased == Erase(before, at);
      if next.IsRepeatable() {
        timers := Insert(erased, Entry(next.expiry, next));
        it := Onward(erased, at, next.expiry);
      } else {
        timers, it := erased, at;
      }
    }

    /** One iteration of the pass on the expired entry at `at`. */
    method TakeTurn(at: nat, now: int, effects: seq<Effect>) returns (it: nat)
      requires Valid() && Turn(View(), at, now, effects).Ready()
      modifies this
      ensures Valid() && (View(), it) == Turn(old(View()), at, now, effects).After()
    {
      ghost var turn := Turn(View(), at, now, effects);
      TurnKeeps(turn);
      if timers[at].timer.IsRepeatable() {
        var timer := timers[at].timer;
        StartedKeeps(turn);
        hide Book.Ok, Settled;
        log := log + [Fired(timer.id, timer.expiry, now)];
        it := RunCallback(effects, at, timer.id);
        it := Settle(it, now);
      } else {
        timers, it := Erase(timers, at), at;
      }
    }

    /** The pass. The clock may show any value from zero to `horizon` at each iteration; the n-th callback of the
        pass does what `script[n]` says. The pass ends, and its turns, which `trace` holds, are those of a completed
        pass. With intervals that are not negative its callbacks run in the order of their scheduled times, and what
        is due after it is exactly what it passed over: nothing, if the map is apart and no callback adds a timer
        due by the horizon. */
    method Update(horizon: nat, script: seq<seq<Effect>>) returns (stop: nat, now: int, ghost trace: seq<Turn>)
      requires Valid() && AllAdvance(timers) && ScriptAdvances(script)
      modifies this
      ensures Valid() && AllAdvance(timers)
      ensures Completed(trace, horizon, script, old(View()), View(), stop, now)
      ensures NonNegative(old(timers)) && ScriptNonNegative(script) ==>
        && InOrder(log, |old(log)|)
        && (forall e :: Due(e, now) ==> (e in timers <==> PassedOver(trace, e) && Cancelled(e.timer.id) !in log))
        && (stop == 0 <==> forall e :: !PassedOver(trace, e))
        && (Apart(old(timers), horizon) && ScriptFar(script, horizon) ==> forall e :: e in timers ==> !Due(e, now))
    {
      var called := 0;
      stop, now, trace := 0, 0, [];
      assert LiveTurns(trace) == 0 && Reached(trace, horizon, script, View(), View(), 0);
      hide Book.Ok, AllAdvance, TotalFuel, Turn.After, Reached, LiveTurns;
      while stop < |timers|
        invariant Valid() && AllAdvance(timers) && 0 <= now <= horizon
        invariant called == LiveTurns(trace)
        invariant Reached(trace, horizon, script, old(View()), View(), stop)
        decreases if called < |script| then |script| - called else 0, TotalFuel(timers, horizon)
      {
        now :| 0 <= now <= horizon;
        if !timers[stop].timer.IsExpired(now) {
          break;
        }
        var live := timers[stop].timer.IsRepeatable();
        var effects := if live && called < |script| then script[called] else [];
        ghost var turn := Turn(View(), stop, now, effects);
        TurnSpends(turn, horizon);
        stop := TakeTurn(stop, now, effects);
        ReachedNext(trace, turn, horizon, script, old(View()), View(), stop);
        trace, called := trace + [turn], if live then called + 1 else called;
      }
      if NonNegative(old(timers)) && ScriptNonNegative(script) {
        PassInOrder(trace, horizon, script, old(View()), View(), stop);
        LeftTheorem(trace, horizon, script, old(View()), View(), stop, now);
        if Apart(old(timers), horizon) && ScriptFar(script, horizon) {
          ApartTheorem(trace, horizon, script, old(View()), View(), stop, now);
        }
      }
    }

    /** Milliseconds to the first key of the map, rounded down; 0 if it is due, -1 if there is none. Dead entries
        count. */
    method NearestTimerRemainingExpiredTime(now: int) returns (remaining: int)
      requires Valid()
      ensures remaining == -1 <==> timers == []
      ensures remaining == 0 <== timers != [] && timers[0].key <= now
      ensures remaining > -1 ==>
        forall j :: 0 <= j < |timers| && timers[j].key > now ==> 1000 * remaining <= timers[j].key - now
      ensures timers != [] && timers[0].key > now ==> timers[0].key - now < 1000 * (remaining + 1)
    {
      BookSorted(View(), -1);
      if timers == [] {
        return -1;
      }
      if timers[0].key <= now {
        return 0;
      }
      return (timers[0].key - now) / 1000;
    }
  }

  lemma ReachedNext(
    trace: seq<Turn>, turn: Turn, horizon: int, script: seq<seq<Effect>>, b: Book, end: Book, at: nat)
    requires turn.Ready() && 0 <= turn.now <= horizon && Reached(trace, horizon, script, b, turn.book, turn.at)
    requires turn.effects == Assigned(trace, turn.Live(), script) && (end, at) == turn.After()
    ensures Reached(trace + [turn], horizon, script, b, end, at)
    ensures LiveTurns(trace + [turn]) == LiveTurns(trace) + if turn.Live() then 1 else 0
  {
    hide Turn.After;
    assert (trace + [turn])[..|trace|] == trace;
  }
}
