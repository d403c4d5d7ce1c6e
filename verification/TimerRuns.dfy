/** Whole runs of a timer manager: any sequence of additions, cancellations and passes, and what the history of such
    a run says about its calls. */
module TimerRuns {
  import opened TimerTable
  import opened TimerBooks
  import opened TimerPasses
  import opened TimersLeft
  import opened TimerFuel
  import opened TimerManagers

  /** A call of the manager's interface. */
  datatype Call =
    | Adding(expiry: int, repeat: int, interval: int, fixedDelay: bool)
    | Removing(id: int, value: int)
    | Passing(horizon: nat, script: seq<seq<Effect>>)
  {
    predicate NonNegative() {
      match this
      case Adding(_, _, interval, _) => interval >= 0
      case Removing(_, _) => true
      case Passing(_, script) => ScriptNonNegative(script)
    }

    predicate Advancing() {
      match this
      case Adding(_, repeat, interval, _) => Advances(repeat, interval)
      case Removing(_, _) => true
      case Passing(_, script) => ScriptAdvances(script)
    }
  }

  /** How a pass went. */
  datatype Pass = Pass(trace: seq<Turn>, stop: nat, now: int)

  ghost predicate Does(call: Call, pass: Pass, b: Book, b': Book) {
    match call
    case Adding(expiry, repeat, interval, fixedDelay) => b' == b.Added(expiry, repeat, interval, fixedDelay)
    case Removing(id, value) => b' == b.Removed(id, value)
    case Passing(horizon, script) => Completed(pass.trace, horizon, script, b, b', pass.stop, pass.now)
  }

  /** `books[i]` becomes `books[i + 1]` by `calls[i]`, from the empty book on. */
  ghost predicate IsRun(calls: seq<Call>, passes: seq<Pass>, books: seq<Book>) {
    && |passes| == |calls| && |books| == |calls| + 1 && books[0] == Empty()
    && forall i :: 0 <= i < |calls| ==> Does(calls[i], passes[i], books[i], books[i + 1])
  }

  lemma CallKeeps(call: Call, pass: Pass, b: Book, b': Book)
    requires b.Ok(-1) && Does(call, pass, b, b')
    ensures b'.Ok(-1)
  {
    hide Book.Ok;
    match call
    case Adding(expiry, repeat, interval, fixedDelay) => AddedKeeps(b, -1, expiry, repeat, interval, fixedDelay);
    case Removing(id, value) => RemovedKeeps(b, -1, id, value);
    case Passing(horizon, script) => PassKeeps(pass.trace, horizon, script, b, b', pass.stop);
  }

  lemma {:induction false} RunKeeps(calls: seq<Call>, passes: seq<Pass>, books: seq<Book>, i: nat)
    requires IsRun(calls, passes, books) && i < |books|
    ensures books[i].Ok(-1)
  {
    if i > 0 {
      RunKeeps(calls, passes, books, i - 1);
      hide Book.Ok;
      CallKeeps(calls[i - 1], passes[i - 1], books[i - 1], books[i]);
    }
  }

  // Histories only grow.

  ghost predicate Grows(b: Book, b': Book) {
    b.issued <= b'.issued && b.log <= b'.log
  }

  lemma {:induction false} PerformedGrows(b: Book, at: nat, effects: seq<Effect>)
    requires at < |b.timers|
    ensures Grows(b, Performed(b, at, effects).0)
  {
    if effects != [] {
      PerformedGrows(b, at, effects[..|effects| - 1]);
    }
  }

  lemma {:induction false} PassGrows(
    trace: seq<Turn>, horizon: int, script: seq<seq<Effect>>, b: Book, end: Book, at: nat)
    requires Reached(trace, horizon, script, b, end, at)
    ensures Grows(b, end)
  {
    if trace != [] {
      var turn := trace[|trace| - 1];
      PassGrows(trace[..|trace| - 1], horizon, script, b, turn.book, turn.at);
      PerformedGrows(turn.Started(), turn.at, turn.effects);
    }
  }

  lemma {:induction false} RunGrows(calls: seq<Call>, passes: seq<Pass>, books: seq<Book>, i: nat, j: nat)
    requires IsRun(calls, passes, books) && i <= j < |books|
    ensures Grows(books[i], books[j])
    decreases j
  {
    if i < j {
      RunGrows(calls, passes, books, i, j - 1);
      CallGrows(calls[j - 1], passes[j - 1], books[j - 1], books[j]);
      hide Does;
    }
  }

  lemma CallGrows(call: Call, pass: Pass, b: Book, b': Book)
    requires Does(call, pass, b, b')
    ensures Grows(b, b')
  {
    hide Insert, Kill, Search, Reached;
    if call.Passing? {
      PassGrows(pass.trace, call.horizon, call.script, b, b', pass.stop);
    }
  }

  /** Whatever a callback does after an effect, the histories grow from there. */
  lemma {:induction false} PrefixGrows(b: Book, at: nat, effects: seq<Effect>, m: nat)
    requires at < |b.timers| && m <= |effects|
    ensures Grows(Performed(b, at, effects[..m]).0, Performed(b, at, effects).0)
  {
    if m < |effects| {
      var before := effects[..|effects| - 1];
      PrefixGrows(b, at, before, m);
      assert before[..m] == effects[..m];
      hide Insert, Kill, Search;
    } else {
      assert effects[..m] == effects;
    }
  }

  lemma TurnGrows(turn: Turn)
    requires turn.Ready()
    ensures Grows(turn.book, turn.After().0)
  {
    PerformedGrows(turn.Started(), turn.at, turn.effects);
    hide Performed, Settled;
  }

  /** A turn of a pass starts from a book that the turns before it reached, and the histories grow after it. */
  lemma {:induction false} TurnOfPass(
    trace: seq<Turn>, horizon: int, script: seq<seq<Effect>>, b: Book, end: Book, at: nat, k: nat)
    requires Reached(trace, horizon, script, b, end, at) && k < |trace|
    ensures trace[k].Ready() && Grows(trace[k].After().0, end)
    ensures Reached(trace[..k], horizon, script, b, trace[k].book, trace[k].at)
  {
    var before, turn := trace[..|trace| - 1], trace[|trace| - 1];
    assert trace[..|before|] == before;
    hide Performed, Settled, Turn.After;
    if k < |before| {
      TurnOfPass(before, horizon, script, b, turn.book, turn.at, k);
      assert before[..k] == trace[..k];
      TurnGrows(turn);
    }
  }

  // What a run says of its calls.

  /** In every state of a run: no callback ran before its scheduled time; the k-th firing of a fixed-rate timer was
      scheduled exactly k intervals after its first expiry; and nothing fired more often than its repeat count. */
  lemma FiringTheorem(calls: seq<Call>, passes: seq<Pass>, books: seq<Book>, i: nat, n: nat)
    requires IsRun(calls, passes, books) && i < |books| && n < |books[i].log| && books[i].log[n].Fired?
    ensures var Fired(id, scheduled, now) := books[i].log[n];
      && id < |books[i].issued|
      && scheduled <= now
      && var timer := books[i].issued[id];
      && (!timer.fixedDelay ==> scheduled == timer.expiry + Elapsed(Firings(books[i].log[..n], id), timer.interval))
      && (timer.repeat != FOREVER ==> Firings(books[i].log, id) <= timer.repeat)
  {
    RunKeeps(calls, passes, books, i);
    var h := books[i].Past();
    assert h.Ok() && h.FiredOk(n);
    FiredOnce(books[i].log, n);
    if !books[i].issued[books[i].log[n].id].fixedDelay {
      FixedRate(h, h.log[..n], h.log[n].id);
    }
  }

  /** The first firing of a timer is scheduled at its expiry. */
  lemma FirstFiringTheorem(calls: seq<Call>, passes: seq<Pass>, books: seq<Book>, i: nat, n: nat)
    requires IsRun(calls, passes, books) && i < |books| && n < |books[i].log| && books[i].log[n].Fired?
    requires Unfired(books[i].log[..n], books[i].log[n].id)
    ensures books[i].log[n].id < |books[i].issued|
    ensures books[i].log[n].scheduled == books[i].issued[books[i].log[n].id].expiry
  {
    RunKeeps(calls, passes, books, i);
    assert books[i].Past().FiredOk(n);
    NeverFired(books[i].issued[books[i].log[n].id], books[i].log[..n], books[i].log[n].id);
  }

  /** Of two successive firings of a timer, the later is scheduled one interval after the earlier: after its
      scheduled time at a fixed rate, after the time at which it took place with a fixed delay. */
  lemma IntervalTheorem(calls: seq<Call>, passes: seq<Pass>, books: seq<Book>, i: nat, m: nat, n: nat)
    requires IsRun(calls, passes, books) && i < |books| && n < |books[i].log| && books[i].log[n].Fired?
    requires LastFiring(books[i].log[..n], m, books[i].log[n].id)
    ensures books[i].log[n].id < |books[i].issued|
    ensures var timer, before, after := books[i].issued[books[i].log[n].id], books[i].log[m], books[i].log[n];
      && (timer.fixedDelay ==> after.scheduled == before.now + 1000 * timer.interval)
      && (!timer.fixedDelay ==> after.scheduled == before.scheduled + 1000 * timer.interval)
  {
    RunKeeps(calls, passes, books, i);
    assert books[i].Past().FiredOk(n);
    DueAfter(books[i].issued[books[i].log[n].id], books[i].log[..n], m, books[i].log[n].id);
  }

  /** A timer that was not cancelled and has firings to come is in the map, due one interval after its last firing,
      or at its expiry before the first, with exactly the rest of its repetitions left. */
  lemma StandingTheorem(calls: seq<Call>, passes: seq<Pass>, books: seq<Book>, i: nat, id: nat) returns (j: nat)
    requires IsRun(calls, passes, books) && i < |books| && id < |books[i].issued|
    requires Cancelled(id) !in books[i].log
    requires var timer := books[i].issued[id];
      timer.repeat == FOREVER || Firings(books[i].log, id) < timer.repeat
    ensures j < |books[i].timers| && books[i].timers[j].timer.id == id
    ensures var timer, left, log := books[i].issued[id], books[i].timers[j].timer, books[i].log;
      && left.expiry == books[i].timers[j].key
      && left.repeat == (if timer.repeat == FOREVER then FOREVER else timer.repeat - Firings(log, id))
      && (Unfired(log, id) ==> left.expiry == timer.expiry)
      && (forall m :: LastFiring(log, m, id) ==>
            left.expiry == (if timer.fixedDelay then log[m].now else log[m].scheduled) + 1000 * timer.interval)
  {
    RunKeeps(calls, passes, books, i);
    var b := books[i];
    assert b.Past().Stays(id, -1);
    assert HasId(b.timers, id);
    j :| 0 <= j < |b.timers| && b.timers[j].timer.id == id;
    assert b.Past().EntryOk(b.timers[j], -1);
    hide IsRun, Sound, Firings, NextDue, LastFiring, Unfired;
    DueOf(b.issued[id], b.log, id);
  }

  /** When the log has a timer due. */
  lemma DueOf(timer: Timer, log: seq<Event>, id: nat)
    ensures Unfired(log, id) ==> NextDue(timer, log, id) == timer.expiry
    ensures forall m :: LastFiring(log, m, id) ==>
      NextDue(timer, log, id) == (if timer.fixedDelay then log[m].now else log[m].scheduled) + 1000 * timer.interval
  {
    hide NextDue;
    forall m | LastFiring(log, m, id)
      ensures NextDue(timer, log, id)
           == (if timer.fixedDelay then log[m].now else log[m].scheduled) + 1000 * timer.interval
    {
      DueAfter(timer, log, m, id);
    }
    if Unfired(log, id) {
      NeverFired(timer, log, id);
    }
  }

  /** A timer that has left the map and was not cancelled has fired exactly as often as its repeat count says, and does
      not repeat forever. */
  lemma DepartureTheorem(calls: seq<Call>, passes: seq<Pass>, books: seq<Book>, i: nat, id: nat)
    requires IsRun(calls, passes, books) && i < |books| && id < |books[i].issued|
    requires Cancelled(id) !in books[i].log && forall e :: e in books[i].timers ==> e.timer.id != id
    ensures var repeat := books[i].issued[id].repeat;
      repeat != FOREVER && Firings(books[i].log, id) == if repeat > 0 then repeat else 0
  {
    RunKeeps(calls, passes, books, i);
    var b := books[i];
    assert b.Past().Ok();
    assert forall j :: 0 <= j < |b.timers| ==> b.timers[j] in b.timers;
    assert !HasId(b.timers, id);
    assert !b.Past().Stays(id, -1);
  }

  lemma {:induction false} FiredOnce(log: seq<Event>, n: nat)
    requires n < |log| && log[n].Fired?
    ensures Firings(log, log[n].id) >= 1
  {
    if n < |log| - 1 {
      FiredOnce(log[..|log| - 1], n);
    }
  }

  /** A timer added by a call keeps its id and its particulars in the history from then on. */
  lemma AdditionTheorem(calls: seq<Call>, passes: seq<Pass>, books: seq<Book>, i: nat, j: nat)
    requires IsRun(calls, passes, books) && i < j < |books| && calls[i].Adding?
    ensures var id := |books[i].issued|;
      && id < |books[j].issued|
      && books[j].issued[id] == Timer(id, calls[i].expiry, calls[i].repeat, calls[i].interval, calls[i].fixedDelay)
  {
    assert Does(calls[i], passes[i], books[i], books[i + 1]);
    RunGrows(calls, passes, books, i + 1, j);
  }

  /** A call that cancels with a handle given out for a timer with a non-negative interval is final: from that call
      on the timer never fires again. */
  lemma CancellationTheorem(calls: seq<Call>, passes: seq<Pass>, books: seq<Book>, i: nat, j: nat, n: nat)
    requires IsRun(calls, passes, books) && i < j < |books| && calls[i].Removing?
    requires 0 <= calls[i].id < |books[i].issued| && calls[i].value == books[i].issued[calls[i].id].expiry
    requires books[i].issued[calls[i].id].interval >= 0
    requires |books[i].log| <= n < |books[j].log|
    ensures Cancelled(calls[i].id) in books[j].log
    ensures books[j].log[n].Fired? ==> books[j].log[n].id != calls[i].id
  {
    RunKeeps(calls, passes, books, i);
    RunKeeps(calls, passes, books, j);
    RunGrows(calls, passes, books, i + 1, j);
    var id, b, b' := calls[i].id, books[i], books[i + 1];
    assert Does(calls[i], passes[i], b, b');
    HandleCancels(b, -1, id);
    assert b'.log[|b.log|] == Cancelled(id) == books[j].log[|b.log|];
    assert books[j].Past().CancelFinal();
  }

  /** The book in which effect `m` of the turn's callback is made. */
  function Midway(turn: Turn, m: nat): Book
    requires turn.Ready() && m <= |turn.effects|
  {
    Performed(turn.Started(), turn.at, turn.effects[..m]).0
  }

  /** A turn of a run: the book in the middle of its callback is sound, with that timer busy, and grows into all later
      ones. */
  lemma TurnOfRun(calls: seq<Call>, passes: seq<Pass>, books: seq<Book>, i: nat, k: nat, m: nat, j: nat)
    requires IsRun(calls, passes, books) && i < j < |books| && calls[i].Passing? && k < |passes[i].trace|
    requires m <= |passes[i].trace[k].effects| && passes[i].trace[k].Live()
    ensures var turn := passes[i].trace[k];
      && turn.Ready() && turn.book.Ok(-1)
      && Midway(turn, m).Ok(turn.book.timers[turn.at].timer.id)
      && Grows(Midway(turn, m), books[j]) && books[j].Ok(-1)
      && Carried(turn.Started(), turn.at, Midway(turn, m), Performed(turn.Started(), turn.at, turn.effects[..m]).1)
  {
    var turn := passes[i].trace[k];
    var Passing(horizon, script) := calls[i];
    RunKeeps(calls, passes, books, i);
    RunKeeps(calls, passes, books, j);
    RunGrows(calls, passes, books, i + 1, j);
    assert Does(calls[i], passes[i], books[i], books[i + 1]);
    hide Book.Ok, IsRun;
    TurnOfPass(passes[i].trace, horizon, script, books[i], books[i + 1], passes[i].stop, k);
    PassKeeps(passes[i].trace[..k], horizon, script, books[i], turn.book, turn.at);
    StartedKeeps(turn);
    PerformedKeeps(turn.Started(), turn.at, turn.effects[..m], turn.book.timers[turn.at].timer.id);
    PrefixGrows(turn.Started(), turn.at, turn.effects, m);
    hide Performed, Settled;
  }

  /** A cancellation by a callback, of any timer and with the handle given out for it, is as final as one by a call: it
      is in the history of every later state, and no firing of that timer is behind it. */
  lemma CallbackCancellationTheorem(
    calls: seq<Call>, passes: seq<Pass>, books: seq<Book>, i: nat, k: nat, m: nat, j: nat, id: nat)
    requires IsRun(calls, passes, books) && i < j < |books| && calls[i].Passing? && k < |passes[i].trace|
    requires var turn := passes[i].trace[k];
      && turn.Ready() && turn.Live() && m < |turn.effects|
      && id < |Midway(turn, m).issued| && Midway(turn, m).issued[id].interval >= 0
      && turn.effects[m] == Remove(id, Midway(turn, m).issued[id].expiry)
    ensures var p := |Midway(passes[i].trace[k], m).log|;
      && p < |books[j].log| && books[j].log[p] == Cancelled(id)
      && forall n :: p < n < |books[j].log| && books[j].log[n].Fired? ==> books[j].log[n].id != id
  {
    var turn := passes[i].trace[k];
    var b, busy := Midway(turn, m), turn.book.timers[turn.at].timer.id;
    TurnOfRun(calls, passes, books, i, k, m, j);
    TurnOfRun(calls, passes, books, i, k, m + 1, j);
    HandleCancels(b, busy, id);
    assert turn.effects[..m + 1][..m] == turn.effects[..m];
    assert Midway(turn, m + 1) == b.Removed(id, b.issued[id].expiry);
    assert books[j].Past().CancelFinal();
  }

  /** A timer that cancels itself from its own callback has fired for the last time in any later state: the firing that
      runs the callback is the last one. */
  lemma SelfCancellationTheorem(
    calls: seq<Call>, passes: seq<Pass>, books: seq<Book>, i: nat, k: nat, m: nat, j: nat)
    requires IsRun(calls, passes, books) && i < j < |books| && calls[i].Passing? && k < |passes[i].trace|
    requires var turn := passes[i].trace[k];
      && turn.Ready() && turn.Live() && m < |turn.effects|
      && var id := turn.book.timers[turn.at].timer.id;
      && id < |Midway(turn, m).issued| && Midway(turn, m).issued[id].interval >= 0
      && turn.effects[m] == Remove(id, Midway(turn, m).issued[id].expiry)
    ensures var turn := passes[i].trace[k];
      var id, last := turn.book.timers[turn.at].timer.id, |turn.book.log|;
      && last < |books[j].log| && books[j].log[last] == Fired(id, turn.Key(), turn.now)
      && forall n :: last < n < |books[j].log| && books[j].log[n].Fired? ==> books[j].log[n].id != id
  {
    var turn := passes[i].trace[k];
    var id := turn.book.timers[turn.at].timer.id;
    CallbackCancellationTheorem(calls, passes, books, i, k, m, j, id);
    TurnOfRun(calls, passes, books, i, k, m, j);
    StartedKeeps(turn);
    var b, f := Midway(turn, m), Fired(id, turn.Key(), turn.now);
    assert turn.Started().log == turn.book.log + [f];
    hide Book.Ok, IsRun, Performed, Latest, Midway;
    LastFiringOf(turn.book.log, f, b.log, books[j].log);
  }

  /** A firing, cancellations behind it, one of that timer among them or next, and no firing of the timer behind
      that. */
  lemma LastFiringOf(before: seq<Event>, f: Event, midway: seq<Event>, log: seq<Event>)
    requires f.Fired? && before + [f] <= midway <= log
    requires forall n :: |before| < n < |midway| ==> midway[n].Cancelled?
    requires |midway| < |log| && log[|midway|].Cancelled?
    requires forall n :: |midway| < n < |log| && log[n].Fired? ==> log[n].id != f.id
    ensures log[|before|] == f
    ensures forall n :: |before| < n < |log| && log[n].Fired? ==> log[n].id != f.id
  {
    assert (before + [f])[|before|] == f == midway[|before|] == log[|before|];
    assert forall n :: |before| < n < |midway| ==> log[n] == midway[n];
  }

  lemma {:induction false} RunNonNegative(calls: seq<Call>, passes: seq<Pass>, books: seq<Book>, i: nat)
    requires IsRun(calls, passes, books) && i < |books|
    requires forall k :: 0 <= k < |calls| ==> calls[k].NonNegative()
    ensures NonNegative(books[i].timers)
  {
    if i > 0 {
      RunNonNegative(calls, passes, books, i - 1);
      assert calls[i - 1].NonNegative();
      assert Does(calls[i - 1], passes[i - 1], books[i - 1], books[i]);
      hide IsRun, Does, NonNegative, Call.NonNegative;
      CallNonNegative(calls[i - 1], passes[i - 1], books[i - 1], books[i]);
    }
  }

  lemma CallNonNegative(call: Call, pass: Pass, b: Book, b': Book)
    requires NonNegative(b.timers) && call.NonNegative() && Does(call, pass, b, b')
    ensures NonNegative(b'.timers)
  {
    hide Reached, ScriptNonNegative, Search;
    if call.Passing? {
      PassNonNegative(pass.trace, call.horizon, call.script, b, b', pass.stop);
    }
  }

  /** If no interval in the run is negative, the callbacks of each pass run in the order of their scheduled times,
      and what is due after it is exactly what it passed over. */
  lemma PassTheorem(calls: seq<Call>, passes: seq<Pass>, books: seq<Book>, i: nat)
    requires IsRun(calls, passes, books) && i < |calls| && calls[i].Passing?
    requires forall k :: 0 <= k < |calls| ==> calls[k].NonNegative()
    ensures InOrder(books[i + 1].log, |books[i].log|)
    ensures forall e :: Due(e, passes[i].now) ==>
      (e in books[i + 1].timers <==> PassedOver(passes[i].trace, e) && Cancelled(e.timer.id) !in books[i + 1].log)
  {
    RunKeeps(calls, passes, books, i);
    RunNonNegative(calls, passes, books, i);
    hide Book.Ok, NonNegative;
    var Passing(horizon, script) := calls[i];
    var b, b', p := books[i], books[i + 1], passes[i];
    assert Does(calls[i], p, b, b') && calls[i].NonNegative();
    PassInOrder(p.trace, horizon, script, b, b', p.stop);
    LeftTheorem(p.trace, horizon, script, b, b', p.stop, p.now);
  }

  /** One call on a manager. */
  method Make(m: TimerManager, call: Call) returns (ghost pass: Pass)
    requires m.Valid() && AllAdvance(m.timers) && call.Advancing()
    modifies m
    ensures m.Valid() && AllAdvance(m.timers) && Does(call, pass, old(m.View()), m.View())
  {
    pass := Pass([], 0, 0);
    match call {
      case Adding(expiry, repeat, interval, fixedDelay) =>
        InsertedAlike(m.timers, Entry(expiry, Timer(|m.issued|, expiry, repeat, interval, fixedDelay)));
        hide Insert, AllAdvance, TimerManager.Valid;
        var id := m.AddTimer(expiry, repeat, interval, fixedDelay);
      case Removing(id, value) =>
        m.RemoveTimer(id, value);
      case Passing(horizon, script) =>
        hide TimerManager.Valid, AllAdvance;
        var stop, now;
        ghost var trace;
        stop, now, trace := m.Update(horizon, script);
        pass := Pass(trace, stop, now);
    }
  }

  /** Any calls on a fresh manager make such a run, whatever the clock shows. */
  method AnyRun(calls: seq<Call>) returns (m: TimerManager, ghost passes: seq<Pass>, ghost books: seq<Book>)
    requires forall i :: 0 <= i < |calls| ==> calls[i].Advancing()
    ensures fresh(m) && IsRun(calls, passes, books) && m.View() == books[|calls|]
  {
    m := new TimerManager();
    passes, books := [], [m.View()];
    for i := 0 to |calls|
      invariant fresh(m) && m.Valid() && AllAdvance(m.timers)
      invariant |books| == i + 1 && IsRun(calls[..i], passes, books) && m.View() == books[i]
    {
      hide TimerManager.Valid, IsRun, Does, AllAdvance, Call.Advancing;
      assert calls[i].Advancing();
      ghost var pass := Make(m, calls[i]);
      RunNext(calls[..i], passes, books, calls[i], pass, m.View());
      assert calls[..i + 1] == calls[..i] + [calls[i]];
      passes, books := passes + [pass], books + [m.View()];
    }
    assert calls[..|calls|] == calls;
  }

  lemma RunNext(calls: seq<Call>, passes: seq<Pass>, books: seq<Book>, call: Call, pass: Pass, b: Book)
    requires IsRun(calls, passes, books) && Does(call, pass, books[|books| - 1], b)
    ensures IsRun(calls + [call], passes + [pass], books + [b])
  {
    hide Does;
    var calls', passes', books' := calls + [call], passes + [pass], books + [b];
    forall i | 0 <= i < |calls'| ensures Does(calls'[i], passes'[i], books'[i], books'[i + 1]) {
      if i < |calls| {
        assert Does(calls[i], passes[i], books[i], books[i + 1]);
      }
    }
  }

  // Runs that leave a due timer behind, and a pass that does not end.

  /** A turn whose callback is idle. */
  lemma IdleTurn(turn: Turn)
    requires turn.Ready() && turn.Live() && turn.effects == []
    ensures var settled := Settled(turn.book.timers, turn.at, turn.now);
      turn.After() == (turn.Started().(timers := settled.0), settled.1)
  {
    assert Performed(turn.Started(), turn.at, []) == (turn.Started(), turn.at);
  }

  lemma PassDone(horizon: nat, script: seq<seq<Effect>>, pass: Pass, b: Book, b': Book)
    requires Completed(pass.trace, horizon, script, b, b', pass.stop, pass.now)
    ensures Does(Passing(horizon, script), pass, b, b')
  {
  }

  /** Two timers of period 1 ms, first due at 0 and at 1000, and one pass at time 1000: the first ties with the second,
      which is due and stays behind. */
  lemma TieRun() returns (calls: seq<Call>, passes: seq<Pass>, books: seq<Book>)
    ensures IsRun(calls, passes, books)
    ensures calls == [Adding(0, FOREVER, 1, false), Adding(1000, FOREVER, 1, false), Passing(1000, [])]
    ensures passes[2].now == 1000
    ensures exists e :: e in books[3].timers && Due(e, 1000)
  {
    var timers, after, stop := TiePassesOver();
    var a, b := timers[0].timer, timers[1].timer;
    var b1 := Book([Entry(0, a)], [a], []);
    var b2 := Book(timers, [a, b], []);
    assert b1 == Empty().Added(0, FOREVER, 1, false);
    assert UpperBound(b1.timers, 1000) == 1;
    assert b2 == b1.Added(1000, FOREVER, 1, false);
    var turn := Turn(b2, 0, 1000, []);
    IdleTurn(turn);
    var (b3, at) := turn.After();
    var turn' := Turn(b3, at, 1000, []);
    IdleTurn(turn');
    var (b4, at') := turn'.After();
    hide Settled, Turn.After;
    assert Reached([], 1000, [], b2, b2, 0);
    ReachedNext([], turn, 1000, [], b2, b3, at);
    ReachedNext([] + [turn], turn', 1000, [], b2, b4, at');
    calls := [Adding(0, FOREVER, 1, false), Adding(1000, FOREVER, 1, false), Passing(1000, [])];
    passes := [Pass([], 0, 0), Pass([], 0, 0), Pass([] + [turn] + [turn'], at', 1000)];
    books := [Empty(), b1, b2, b4];
    hide Reached;
    assert Does(calls[2], passes[2], b2, b4);
    assert after[0] in b4.timers;
  }

  /** One timer due at 1000, whose callback adds a timer that was due at 500, and one pass at time 1000: the new timer
      goes in front of the pass and stays behind. */
  lemma AdditionRun() returns (calls: seq<Call>, passes: seq<Pass>, books: seq<Book>)
    ensures IsRun(calls, passes, books)
    ensures calls == [Adding(1000, 1, 1, false), Passing(1000, [[Add(500, 1, 1, false)]])]
    ensures passes[1].now == 1000
    ensures exists e :: e in books[2].timers && Due(e, 1000)
  {
    var turn, e := AdditionPassesOver();
    var b1 := turn.book;
    var (b2, at) := turn.After();
    calls := [Adding(1000, 1, 1, false), Passing(1000, [[Add(500, 1, 1, false)]])];
    assert Does(calls[0], Pass([], 0, 0), Empty(), b1);
    hide Turn.After, Turn.Called, Book.Added, Does;
    assert Reached([], 1000, calls[1].script, b1, b1, 0);
    ReachedNext([], turn, 1000, calls[1].script, b1, b2, at);
    passes := [Pass([], 0, 0), Pass([] + [turn], at, 1000)];
    books := [Empty(), b1, b2];
    hide Reached;
    PassDone(1000, calls[1].script, passes[1], b1, b2);
    assert e in b2.timers;
  }

  /** A timer that repeats forever at a fixed rate with a zero interval keeps the pass at its place: whatever number of
      turns the pass has made, with the clock standing still it is ready for another one. */
  lemma {:induction false} ZeroIntervalEndless(b: Book, now: nat, n: nat) returns (trace: seq<Turn>, end: Book)
    requires |b.timers| == 1 && b.timers[0].key == b.timers[0].timer.expiry <= now
    requires var timer := b.timers[0].timer; timer.repeat == FOREVER && timer.interval == 0 && !timer.fixedDelay
    ensures |trace| == n && Reached(trace, now, [], b, end, 0)
    ensures end.timers == b.timers && Turn(end, 0, now, []).Ready()
  {
    if n == 0 {
      trace, end := [], b;
    } else {
      var before, last := ZeroIntervalEndless(b, now, n - 1);
      var turn := Turn(last, 0, now, []);
      IdleTurn(turn);
      assert Erase(b.timers, 0) == [];
      assert Insert([], b.timers[0]) == b.timers;
      end := turn.After().0;
      ReachedNext(before, turn, now, [], b, end, 0);
      trace := before + [turn];
    }
  }
}
