/** A condition on the map before a pass under which the pass leaves nothing due: no timer comes back at an instant at
    which another one stands. */
module TimersApart {
  import opened TimerTable
  import opened TimerBooks
  import opened TimerPasses
  import opened TimersLeft

  /** Where a fixed-rate timer stands after `n` firings. */
  function Instant(e: Entry, n: nat): int {
    e.key + Elapsed(n, e.timer.interval)
  }

  /** The repeat count lets the timer be in the map after `n` firings. */
  predicate Stands(e: Entry, n: nat) {
    n == 0 || e.timer.repeat == FOREVER || n < e.timer.repeat
  }

  /** A fixed-rate timer never comes back, up to the horizon, at an instant at which the other one stands. */
  ghost predicate Clear(e: Entry, f: Entry, horizon: int) {
    !e.timer.fixedDelay ==>
      forall n: nat, m: nat :: n >= 1 && Stands(e, n) && Stands(f, m) && Instant(e, n) <= horizon ==>
        Instant(e, n) != Instant(f, m)
  }

  /** A fixed-delay timer that comes back does so behind the horizon. */
  predicate Late(e: Entry, horizon: int) {
    e.timer.fixedDelay && Stands(e, 1) ==> Instant(e, 1) > horizon
  }

  ghost predicate Apart(timers: seq<Entry>, horizon: int) {
    && (forall e :: e in timers ==> Late(e, horizon))
    && (forall e, f :: e in timers && f in timers && e != f ==> Clear(e, f, horizon))
  }

  /** If no timer that comes back can do so up to the horizon, that is if each fires at most once, the map is apart. */
  lemma OnceEachApart(timers: seq<Entry>, horizon: int)
    requires NonNegative(timers)
    requires forall i :: 0 <= i < |timers| && Stands(timers[i], 1) ==> Instant(timers[i], 1) > horizon
    ensures Apart(timers, horizon)
  {
    forall e, n: nat | e in timers && n >= 1 && Stands(e, n) ensures Instant(e, n) > horizon {
      InstantsGrow(e, 1, n);
    }
  }

  lemma InstantsGrow(e: Entry, n: nat, m: nat)
    requires n <= m && e.timer.interval >= 0
    ensures Instant(e, n) <= Instant(e, m)
  {
    var step := 1000 * e.timer.interval;
    assert m * step == n * step + (m - n) * step;
  }

  // What keeps a map apart.

  /** An entry behind the horizon is clear of all others, and they of it. */
  lemma FarIsClear(x: Entry, f: Entry, horizon: int)
    requires x.key > horizon && x.timer.interval >= 0
    ensures Late(x, horizon) && Clear(x, f, horizon) && Clear(f, x, horizon)
  {
    forall n: nat ensures Instant(x, n) > horizon {
      InstantsGrow(x, 0, n);
    }
  }

  /** `y` may take the place of `x`. */
  ghost predicate Replaces(x: Entry, y: Entry, horizon: int) {
    && (Late(x, horizon) ==> Late(y, horizon))
    && (forall f :: Late(x, horizon) && Clear(x, f, horizon) ==> Clear(y, f, horizon))
    && (forall f :: Late(x, horizon) && Clear(f, x, horizon) ==> Clear(f, y, horizon))
  }

  lemma ReplacedApart(timers: seq<Entry>, timers': seq<Entry>, x: Entry, y: Entry, horizon: int)
    requires Apart(timers, horizon) && x in timers && Replaces(x, y, horizon)
    requires forall e :: e in timers' ==> e == y || (e in timers && e != x)
    ensures Apart(timers', horizon)
  {
    hide Clear, Late;
  }

  lemma DeadReplaces(x: Entry, horizon: int)
    ensures Replaces(x, x.(timer := x.timer.Dead()), horizon)
  {
    var y := x.(timer := x.timer.Dead());
    assert forall n: nat :: Stands(y, n) ==> n == 0;
    assert Instant(y, 0) == Instant(x, 0) == x.key;
    forall f | Clear(f, x, horizon) ensures Clear(f, y, horizon) {
      assert Stands(x, 0);
    }
  }

  lemma NextInstant(x: Entry, y: Entry, n: nat)
    requires y.key == x.key + 1000 * x.timer.interval && y.timer.interval == x.timer.interval
    ensures Instant(y, n) == Instant(x, n + 1)
  {
    var step := 1000 * x.timer.interval;
    assert (n + 1) * step == n * step + step;
  }

  lemma NextReplaces(x: Entry, now: int, horizon: int)
    requires x.key == x.timer.expiry <= now <= horizon && x.timer.interval >= 0 && x.timer.Next(now).IsRepeatable()
    ensures var next := x.timer.Next(now); Replaces(x, Entry(next.expiry, next), horizon)
  {
    var next := x.timer.Next(now);
    var y := Entry(next.expiry, next);
    assert Stands(x, 1);
    if x.timer.fixedDelay {
      if Late(x, horizon) {
        assert Instant(x, 1) == x.key + 1000 * x.timer.interval;
        forall f ensures Late(y, horizon) && Clear(y, f, horizon) && Clear(f, y, horizon) {
          FarIsClear(y, f, horizon);
        }
      }
    } else {
      forall n: nat ensures Instant(y, n) == Instant(x, n + 1) && (Stands(y, n) ==> Stands(x, n + 1)) {
        NextInstant(x, y, n);
      }
      forall f | Clear(x, f, horizon) ensures Clear(y, f, horizon) {
        AheadClear(x, y, f, horizon);
      }
      forall f | Clear(f, x, horizon) ensures Clear(f, y, horizon) {
        AheadCleared(x, y, f, horizon);
      }
    }
  }

  lemma AheadClear(x: Entry, y: Entry, f: Entry, horizon: int)
    requires Clear(x, f, horizon) && y.timer.fixedDelay == x.timer.fixedDelay
    requires forall n: nat :: Instant(y, n) == Instant(x, n + 1) && (Stands(y, n) ==> Stands(x, n + 1))
    ensures Clear(y, f, horizon)
  {
    hide Instant, Stands;
  }

  lemma AheadCleared(x: Entry, y: Entry, f: Entry, horizon: int)
    requires Clear(f, x, horizon)
    requires forall n: nat :: Instant(y, n) == Instant(x, n + 1) && (Stands(y, n) ==> Stands(x, n + 1))
    ensures Clear(f, y, horizon)
  {
    hide Instant, Stands;
  }

  // Turns.

  predicate EffectsFar(effects: seq<Effect>, horizon: int) {
    forall i :: 0 <= i < |effects| && effects[i].Add? ==> effects[i].expiry > horizon && effects[i].interval >= 0
  }

  /** Callbacks add only timers that are due behind the horizon; they may cancel any. */
  predicate ScriptFar(script: seq<seq<Effect>>, horizon: int) {
    forall i :: 0 <= i < |script| ==> EffectsFar(script[i], horizon)
  }

  lemma ErasedElements(timers: seq<Entry>, i: nat)
    requires i < |timers| && IdsDistinct(timers)
    ensures forall e :: e in Erase(timers, i) ==> e in timers && e != timers[i]
  {
  }

  lemma ErasedApart(timers: seq<Entry>, i: nat, horizon: int)
    requires i < |timers| && Apart(timers, horizon)
    ensures Apart(Erase(timers, i), horizon)
  {
    hide Clear, Late;
    assert forall e :: e in Erase(timers, i) ==> e in timers;
  }

  lemma AddedApart(timers: seq<Entry>, x: Entry, horizon: int)
    requires Apart(timers, horizon) && x.key > horizon && x.timer.interval >= 0
    ensures Apart(Insert(timers, x), horizon)
  {
    forall e ensures e in Insert(timers, x) <==> e in timers || e == x {
      InsertElements(timers, x, e);
    }
    forall f ensures Late(x, horizon) && Clear(x, f, horizon) && Clear(f, x, horizon) {
      FarIsClear(x, f, horizon);
    }
    hide Clear, Late, Insert;
  }

  lemma KilledApart(timers: seq<Entry>, i: nat, horizon: int)
    requires Apart(timers, horizon) && IdsDistinct(timers)
    ensures Apart(Kill(timers, i), horizon)
  {
    hide Clear, Late, Replaces;
    if i < |timers| {
      DeadReplaces(timers[i], horizon);
      ReplacedApart(timers, Kill(timers, i), timers[i], timers[i].(timer := timers[i].timer.Dead()), horizon);
    }
  }

  lemma {:induction false} PerformedApart(b: Book, at: nat, effects: seq<Effect>, busy: int, horizon: int)
    requires at < |b.timers| && b.Ok(busy) && Apart(b.timers, horizon) && EffectsFar(effects, horizon)
    ensures Apart(Performed(b, at, effects).0.timers, horizon)
  {
    hide Book.Ok, Apart;
    if effects != [] {
      var before, e := effects[..|effects| - 1], effects[|effects| - 1];
      PerformedApart(b, at, before, busy, horizon);
      PerformedKeeps(b, at, before, busy);
      var (b', _) := Performed(b, at, before);
      BookSorted(b', busy);
      match e
      case Add(expiry, repeat, interval, fixedDelay) =>
        AddedApart(b'.timers, Entry(expiry, Timer(|b'.issued|, expiry, repeat, interval, fixedDelay)), horizon);
      case Remove(id, value) => KilledApart(b'.timers, Search(b'.timers, id, value), horizon);
    }
  }

  lemma SettledApart(b: Book, at: nat, now: int, busy: int, horizon: int)
    requires at < |b.timers| && b.Ok(busy) && Apart(b.timers, horizon)
    requires b.timers[at].key <= now <= horizon && b.timers[at].timer.interval >= 0
    ensures Apart(Settled(b.timers, at, now).0, horizon)
  {
    LiveKey(b, busy, at);
    BookSorted(b, busy);
    hide Book.Ok, Clear, Late, Replaces;
    var x, next := b.timers[at], b.timers[at].timer.Next(now);
    if next.IsRepeatable() {
      var y, erased := Entry(next.expiry, next), Erase(b.timers, at);
      NextReplaces(x, now, horizon);
      ErasedElements(b.timers, at);
      forall e ensures e in Insert(erased, y) <==> e in erased || e == y {
        InsertElements(erased, y, e);
      }
      ReplacedApart(b.timers, Insert(erased, y), x, y, horizon);
    } else {
      ErasedApart(b.timers, at, horizon);
    }
  }

  lemma TurnApart(turn: Turn, horizon: int)
    requires turn.book.Ok(-1) && turn.Ready() && turn.now <= horizon
    requires NonNegative(turn.book.timers) && Apart(turn.book.timers, horizon) && EffectsFar(turn.effects, horizon)
    ensures Apart(turn.After().0.timers, horizon)
  {
    if turn.Live() {
      CalledKeeps(turn);
      StartedKeeps(turn);
      TurnNonNegative(turn);
      hide Book.Ok, Apart, Settled;
      var busy := turn.book.timers[turn.at].timer.id;
      PerformedApart(turn.Started(), turn.at, turn.effects, busy, horizon);
      var (b, i) := turn.Called();
      SettledApart(b, i, turn.now, busy, horizon);
    } else {
      hide Book.Ok, Apart;
      ErasedApart(turn.book.timers, turn.at, horizon);
    }
  }

  lemma {:induction false} AddedByFar(effects: seq<Effect>, id: nat, horizon: int)
    requires EffectsFar(effects, horizon)
    ensures forall e :: e in AddedBy(effects, id) ==> e.key > horizon
  {
    if effects != [] {
      AddedByFar(effects[..|effects| - 1], id, horizon);
    }
  }

  lemma TieIsFar(b: Book, at: nat, now: int, busy: int, horizon: int, e: Entry)
    requires at < |b.timers| && b.Ok(busy) && Apart(b.timers, horizon) && b.timers[at].key <= now <= horizon
    requires Ties(b.timers, at, now) && e in b.timers[at + 1..] && e.key == b.timers[at].timer.Next(now).expiry
    ensures e.key > horizon
  {
    LiveKey(b, busy, at);
    BookSorted(b, busy);
    hide Book.Ok;
    var x := b.timers[at];
    var j :| at + 1 <= j < |b.timers| && b.timers[j] == e;
    assert x in b.timers && e in b.timers && e != x && Late(x, horizon) && Clear(x, e, horizon);
    assert Stands(x, 1) && Stands(e, 0);
    assert Instant(x, 1) == x.key + 1000 * x.timer.interval && Instant(e, 0) == e.key;
  }

  lemma TurnPassesOnlyFar(turn: Turn, horizon: int, e: Entry)
    requires turn.book.Ok(-1) && turn.Ready() && turn.now <= horizon
    requires Apart(turn.book.timers, horizon) && EffectsFar(turn.effects, horizon)
    requires PassesOver(turn, e)
    ensures e.key > horizon
  {
    CalledKeeps(turn);
    StartedKeeps(turn);
    hide Book.Ok, Apart, AddedBy;
    AddedByFar(turn.effects, |turn.book.issued|, horizon);
    var busy := turn.book.timers[turn.at].timer.id;
    PerformedApart(turn.Started(), turn.at, turn.effects, busy, horizon);
    var (b, i) := turn.Called();
    if Ties(b.timers, i, turn.now) && e in b.timers[i + 1..] && e.key == b.timers[i].timer.Next(turn.now).expiry {
      TieIsFar(b, i, turn.now, busy, horizon, e);
    }
  }

  lemma FarNonNegative(script: seq<seq<Effect>>, horizon: int)
    requires ScriptFar(script, horizon)
    ensures ScriptNonNegative(script)
  {
    assert forall i :: 0 <= i < |script| ==> EffectsFar(script[i], horizon);
  }

  lemma {:induction false} PassApart(
    trace: seq<Turn>, horizon: int, script: seq<seq<Effect>>, b: Book, end: Book, at: nat, e: Entry)
    requires b.Ok(-1) && NonNegative(b.timers) && Apart(b.timers, horizon) && ScriptFar(script, horizon)
    requires Reached(trace, horizon, script, b, end, at)
    ensures Apart(end.timers, horizon)
    ensures PassedOver(trace, e) ==> e.key > horizon
  {
    hide Book.Ok, NonNegative, Apart, ScriptNonNegative, PassesOver, Turn.After;
    if trace != [] {
      var before, turn := trace[..|trace| - 1], trace[|trace| - 1];
      PassApart(before, horizon, script, b, turn.book, turn.at, e);
      PassKeeps(before, horizon, script, b, turn.book, turn.at);
      FarNonNegative(script, horizon);
      PassNonNegative(before, horizon, script, b, turn.book, turn.at);
      TurnApart(turn, horizon);
      assert trace == before + [turn];
      PassedOverNext(before, turn, e);
      if PassesOver(turn, e) {
        TurnPassesOnlyFar(turn, horizon, e);
      }
    }
  }

  /** Nothing is due after a pass over a map that is apart up to the horizon, if callbacks add nothing due by then. */
  lemma ApartTheorem(
    trace: seq<Turn>, horizon: int, script: seq<seq<Effect>>, b: Book, end: Book, stop: nat, now: int)
    requires b.Ok(-1) && NonNegative(b.timers) && Apart(b.timers, horizon) && ScriptFar(script, horizon)
    requires Completed(trace, horizon, script, b, end, stop, now)
    ensures forall e :: e in end.timers ==> !Due(e, now)
  {
    hide Book.Ok, NonNegative, Apart, ScriptNonNegative, ScriptFar, PassedOver;
    FarNonNegative(script, horizon);
    LeftTheorem(trace, horizon, script, b, end, stop, now);
    forall e | e in end.timers ensures !Due(e, now) {
      PassApart(trace, horizon, script, b, end, stop, e);
    }
  }
}
