/** What a pass leaves behind: exactly the entries that one of its turns passed over. */
module TimersLeft {
  import opened TimerTable
  import opened TimerBooks
  import opened TimerPasses

  /** The entries that a callback adds, in order, if `id` is the next id when it starts. */
  function AddedBy(effects: seq<Effect>, id: nat): (added: seq<Entry>) {
    if effects == [] then []
    else
      var added := AddedBy(effects[..|effects| - 1], id);
      match effects[|effects| - 1]
      case Add(expiry, repeat, interval, fixedDelay) =>
        added + [Entry(expiry, Timer(id + |added|, expiry, repeat, interval, fixedDelay))]
      case Remove(_, _) => added
  }

  /** The turn passes entry `e` over: its callback adds it in front of the timer that runs, or the timer is put back
      behind it under the same key. */
  predicate PassesOver(turn: Turn, e: Entry) {
    turn.Live() &&
    var (b, i) := turn.Called();
    || (e in AddedBy(turn.effects, |turn.book.issued|) && e.key < turn.Key())
    || (Ties(b.timers, i, turn.now) && e in b.timers[i + 1..] && e.key == b.timers[i].timer.Next(turn.now).expiry)
  }

  ghost predicate PassedOver(trace: seq<Turn>, e: Entry) {
    exists k :: 0 <= k < |trace| && PassesOver(trace[k], e)
  }

  // The entries passed over, as they were then, in the order of the map.

  function Jumped(left: seq<Entry>, added: seq<Entry>, key: int): seq<Entry> {
    if added == [] then left
    else
      var jumped, e := Jumped(left, added[..|added| - 1], key), added[|added| - 1];
      if e.key < key then Insert(jumped, e) else jumped
  }

  /** The entries at the front of the list that have the key. */
  function Front(timers: seq<Entry>, key: int): seq<Entry> {
    if timers == [] || timers[0].key != key then [] else [timers[0]] + Front(timers[1..], key)
  }

  function Tied(timers: seq<Entry>, at: nat, now: int): seq<Entry>
    requires at < |timers|
  {
    if Ties(timers, at, now) then Front(timers[at + 1..], timers[at].timer.Next(now).expiry) else []
  }

  function LeftBy(left: seq<Entry>, turn: Turn): seq<Entry> {
    if !turn.Live() then left
    else
      var (b, i) := turn.Called();
      Jumped(left, AddedBy(turn.effects, |turn.book.issued|), turn.Key()) + Tied(b.timers, i, turn.now)
  }

  function Left(trace: seq<Turn>): seq<Entry> {
    if trace == [] then [] else LeftBy(Left(trace[..|trace| - 1]), trace[|trace| - 1])
  }

  // Membership.

  lemma {:induction false} JumpedElements(left: seq<Entry>, added: seq<Entry>, key: int, e: Entry)
    ensures e in Jumped(left, added, key) <==> e in left || (e in added && e.key < key)
  {
    if added != [] {
      JumpedElements(left, added[..|added| - 1], key, e);
      assert added == added[..|added| - 1] + [added[|added| - 1]];
      InsertElements(Jumped(left, added[..|added| - 1], key), added[|added| - 1], e);
    }
  }

  lemma InsertElements(timers: seq<Entry>, x: Entry, e: Entry)
    ensures e in Insert(timers, x) <==> e in timers || e == x
  {
    var p := UpperBound(timers, x.key);
    assert timers == timers[..p] + timers[p..];
  }

  lemma {:induction false} FrontElements(timers: seq<Entry>, key: int, e: Entry)
    requires Sorted(timers) && (timers != [] ==> timers[0].key >= key)
    ensures e in Front(timers, key) <==> e in timers && e.key == key
  {
    if timers != [] {
      assert timers == [timers[0]] + timers[1..];
      FrontElements(timers[1..], key, e);
    }
  }

  lemma TurnElements(left: seq<Entry>, turn: Turn, e: Entry)
    requires turn.book.Ok(-1) && turn.Ready()
    ensures e in LeftBy(left, turn) <==> e in left || PassesOver(turn, e)
  {
    if turn.Live() {
      CalledKeeps(turn);
      var (b, i) := turn.Called();
      BookSorted(b, turn.book.timers[turn.at].timer.id);
      hide Book.Ok, Jumped, Front, AddedBy, Turn.Called, IdsDistinct;
      JumpedElements(left, AddedBy(turn.effects, |turn.book.issued|), turn.Key(), e);
      if Ties(b.timers, i, turn.now) {
        FrontElements(b.timers[i + 1..], b.timers[i].timer.Next(turn.now).expiry, e);
      }
    }
  }

  lemma {:induction false} LeftElements(
    trace: seq<Turn>, horizon: int, script: seq<seq<Effect>>, b: Book, end: Book, at: nat, e: Entry)
    requires b.Ok(-1) && Reached(trace, horizon, script, b, end, at)
    ensures e in Left(trace) <==> PassedOver(trace, e)
  {
    hide Book.Ok, PassesOver, LeftBy, PassedOver, Turn.After, Assigned;
    if trace == [] {
      assert !PassedOver([], e) by { NonePassedOver(e); }
    } else {
      var before, turn := trace[..|trace| - 1], trace[|trace| - 1];
      LeftElements(before, horizon, script, b, turn.book, turn.at, e);
      PassKeeps(before, horizon, script, b, turn.book, turn.at);
      TurnElements(Left(before), turn, e);
      PassedOverNext(before, turn, e);
      assert trace == before + [turn];
    }
  }

  lemma NonePassedOver(e: Entry)
    ensures !PassedOver([], e)
  {
  }

  lemma PassedOverNext(trace: seq<Turn>, turn: Turn, e: Entry)
    ensures PassedOver(trace + [turn], e) <==> PassedOver(trace, e) || PassesOver(turn, e)
  {
    hide PassesOver;
    if PassedOver(trace, e) {
      var k :| 0 <= k < |trace| && PassesOver(trace[k], e);
      assert (trace + [turn])[k] == trace[k];
    }
    if PassesOver(turn, e) {
      assert (trace + [turn])[|trace|] == turn;
    }
  }

  // The entries in front of the pass are those passed over.

  /** `f` is `e`, or `e` cancelled. */
  ghost predicate Same(e: Entry, f: Entry, log: seq<Event>) {
    f.key == e.key && (f.timer == e.timer || (f.timer == e.timer.Dead() && Cancelled(e.timer.id) in log))
  }

  ghost predicate Matches(left: seq<Entry>, timers: seq<Entry>, at: nat, log: seq<Event>) {
    |left| == at <= |timers| && forall j :: 0 <= j < at ==> Same(left[j], timers[j], log)
  }

  lemma AddMatches(left: seq<Entry>, timers: seq<Entry>, at: nat, log: seq<Event>, e: Entry)
    requires at < |timers| && Sorted(timers) && Matches(left, timers, at, log)
    ensures UpperBound(timers, e.key) <= at <==> e.key < timers[at].key
    ensures if e.key < timers[at].key then Matches(Insert(left, e), Insert(timers, e), at + 1, log)
            else Matches(left, Insert(timers, e), at, log)
  {
    hide UpperBound;
    var p := UpperBound(timers, e.key);
    if e.key < timers[at].key {
      SameBound(left, timers, at, log, e.key);
      InsertedAt(left, e);
      InsertedAt(timers, e);
      SameItself(e, log);
      hide Same, Insert;
    } else {
      InsertedAt(timers, e);
      hide Same, Insert;
      assert p > at;
    }
  }

  lemma SameItself(e: Entry, log: seq<Event>)
    ensures Same(e, e, log)
  {
  }

  lemma SameBound(left: seq<Entry>, timers: seq<Entry>, at: nat, log: seq<Event>, key: int)
    requires at < |timers| && Sorted(timers) && Matches(left, timers, at, log) && key < timers[at].key
    ensures UpperBound(left, key) == UpperBound(timers, key) <= at
  {
    hide UpperBound;
    var p := UpperBound(timers, key);
    assert forall j :: 0 <= j < at ==> left[j].key == timers[j].key;
    assert forall j :: 0 <= j < p ==> timers[j].key <= timers[p - 1].key;
    BoundIs(left, key, p);
  }

  lemma RemoveMatches(left: seq<Entry>, b: Book, at: nat, id: int, value: int)
    requires Matches(left, b.timers, at, b.log)
    ensures var b' := b.Removed(id, value); Matches(left, b'.timers, at, b'.log)
  {
    var b', i := b.Removed(id, value), Search(b.timers, id, value);
    assert b.log <= b'.log;
    assert i < |b.timers| ==> b'.log[|b.log|] == Cancelled(b.timers[i].timer.id);
    forall j | 0 <= j < at ensures Same(left[j], b'.timers[j], b'.log) {
      assert Same(left[j], b.timers[j], b.log);
    }
  }

  lemma {:induction false} PerformedIssues(b: Book, at: nat, effects: seq<Effect>)
    requires at < |b.timers|
    ensures |Performed(b, at, effects).0.issued| == |b.issued| + |AddedBy(effects, |b.issued|)|
  {
    if effects != [] {
      PerformedIssues(b, at, effects[..|effects| - 1]);
    }
  }

  lemma {:induction false} PerformedMatches(left: seq<Entry>, b: Book, at: nat, effects: seq<Effect>, busy: int)
    requires at < |b.timers| && b.Ok(busy) && Matches(left, b.timers, at, b.log)
    ensures var (b', at') := Performed(b, at, effects);
      Matches(Jumped(left, AddedBy(effects, |b.issued|), b.timers[at].key), b'.timers, at', b'.log)
  {
    hide Book.Ok, Matches, Jumped, Book.Applied, Shifted;
    if effects == [] {
      assert Jumped(left, [], b.timers[at].key) == left by { NothingJumps(left, b.timers[at].key); }
    } else {
      var before, e := effects[..|effects| - 1], effects[|effects| - 1];
      PerformedMatches(left, b, at, before, busy);
      PerformedKeeps(b, at, before, busy);
      PerformedIssues(b, at, before);
      var (b', at') := Performed(b, at, before);
      BookSorted(b', busy);
      AppliedMatches(left, AddedBy(before, |b.issued|), b.timers[at].key, b', at', e);
    }
  }

  lemma NothingJumps(left: seq<Entry>, key: int)
    ensures Jumped(left, [], key) == left
  {
  }

  lemma AppliedMatches(left: seq<Entry>, added: seq<Entry>, key: int, b: Book, at: nat, e: Effect)
    requires at < |b.timers| && Sorted(b.timers) && b.timers[at].key == key
    requires Matches(Jumped(left, added, key), b.timers, at, b.log)
    ensures var b', at' := b.Applied(e), Shifted(b.timers, at, e);
      var added' :=
        if e.Add? then
          added + [Entry(e.expiry, Timer(|b.issued|, e.expiry, e.repeat, e.interval, e.fixedDelay))]
        else added;
      Matches(Jumped(left, added', key), b'.timers, at', b'.log)
  {
    hide Matches, Insert, Book.Removed;
    match e
    case Add(expiry, repeat, interval, fixedDelay) =>
      var x := Entry(expiry, Timer(|b.issued|, expiry, repeat, interval, fixedDelay));
      AddMatches(Jumped(left, added, key), b.timers, at, b.log, x);
      assert (added + [x])[..|added|] == added;
    case Remove(id, value) =>
      RemoveMatches(Jumped(left, added, key), b, at, id, value);
  }

  lemma {:induction false} FrontIsPrefix(timers: seq<Entry>, key: int)
    requires Sorted(timers) && (timers != [] ==> timers[0].key >= key)
    ensures var n := |Front(timers, key)|;
      && n <= |timers| && Front(timers, key) == timers[..n]
      && (n < |timers| ==> timers[n].key > key)
      && forall j :: 0 <= j < n ==> timers[j].key == key
  {
    if timers != [] && timers[0].key == key {
      FrontIsPrefix(timers[1..], key);
    }
  }

  /** A settled map up to where the pass goes on: what was in front, then what the timer tied with. */
  lemma SettledFront(timers: seq<Entry>, at: nat, now: int)
    requires at < |timers| && Sorted(timers)
    requires var next := timers[at].timer.Next(now); next.IsRepeatable() ==> next.expiry >= timers[at].key
    ensures var (timers', at') := Settled(timers, at, now);
      var tied := Tied(timers, at, now);
      && at' == at + |tied| <= |timers'|
      && (forall j :: 0 <= j < at ==> timers'[j] == timers[j])
      && (forall j :: 0 <= j < |tied| ==> timers'[at + j] == tied[j])
  {
    var next, erased := timers[at].timer.Next(now), Erase(timers, at);
    ErasedAt(timers, at);
    if next.IsRepeatable() {
      PassesOverIffTied(timers, at, now);
      BoundBehind(erased, next.expiry, at);
      InsertedAt(erased, Entry(next.expiry, next));
      if Ties(timers, at, now) {
        TiedBound(timers, at, now);
      }
      hide UpperBound, Front, Erase, Insert, Sorted;
    }
  }

  lemma SettledMatches(left: seq<Entry>, timers: seq<Entry>, at: nat, now: int, log: seq<Event>)
    requires at < |timers| && Sorted(timers) && Matches(left, timers, at, log)
    requires var next := timers[at].timer.Next(now); next.IsRepeatable() ==> next.expiry >= timers[at].key
    ensures var (timers', at') := Settled(timers, at, now);
      Matches(left + Tied(timers, at, now), timers', at', log)
  {
    SettledFront(timers, at, now);
    hide Settled, Tied, Sorted;
    var (timers', at') := Settled(timers, at, now);
    var tied := Tied(timers, at, now);
    forall j | 0 <= j < at' ensures Same((left + tied)[j], timers'[j], log) {
      if j >= at {
        assert timers'[at + (j - at)] == tied[j - at];
      }
    }
  }

  lemma ErasedBehind(timers: seq<Entry>, at: nat, key: int)
    requires at + 1 < |timers| && Sorted(timers) && timers[at].key <= key <= timers[at + 1].key
    ensures var erased, n := Erase(timers, at), |Front(timers[at + 1..], key)|;
      && at + n <= |erased|
      && (forall j :: 0 <= j < at + n ==> erased[j].key <= key)
      && (forall j :: at + n <= j < |erased| ==> erased[j].key > key)
      && Front(timers[at + 1..], key) == erased[at..at + n]
  {
    var erased, n := Erase(timers, at), |Front(timers[at + 1..], key)|;
    FrontBehind(timers, at + 1, key);
    ErasedAt(timers, at);
    hide Front, Erase;
    forall j | 0 <= j < at + n ensures erased[j].key <= key {
      assert erased[j] == if j < at then timers[j] else timers[j + 1];
    }
    forall j | at + n <= j < |erased| ensures erased[j].key > key {
      assert erased[j] == timers[j + 1] && timers[at + 1 + n].key <= timers[j + 1].key;
    }
    hide Sorted;
    assert timers[at + 1..at + 1 + n] == erased[at..at + n];
  }

  /** A tie passes over the entries behind that have the key, which are those up to the insertion. */
  lemma TiedBound(timers: seq<Entry>, at: nat, now: int)
    requires at < |timers| && Sorted(timers) && Ties(timers, at, now)
    requires timers[at].timer.Next(now).expiry >= timers[at].key
    ensures var erased, tied := Erase(timers, at), Tied(timers, at, now);
      && at + |tied| <= |erased| && tied == erased[at..at + |tied|]
      && UpperBound(erased, timers[at].timer.Next(now).expiry) == at + |tied|
  {
    ErasedBehind(timers, at, timers[at].timer.Next(now).expiry);
    hide Sorted, Front, Erase;
    BoundIs(Erase(timers, at), timers[at].timer.Next(now).expiry, at + |Tied(timers, at, now)|);
  }

  lemma FrontBehind(timers: seq<Entry>, from: nat, key: int)
    requires from < |timers| && Sorted(timers) && timers[from].key >= key
    ensures var front := Front(timers[from..], key);
      && from + |front| <= |timers| && front == timers[from..from + |front|]
      && (from + |front| < |timers| ==> timers[from + |front|].key > key)
      && forall j :: from <= j < from + |front| ==> timers[j].key == key
  {
    FrontIsPrefix(timers[from..], key);
    hide Front, Sorted;
    var front := Front(timers[from..], key);
    forall j | from <= j < from + |front| ensures timers[j].key == key {
      assert timers[from..][j - from] == timers[j];
    }
  }

  lemma TurnMatches(left: seq<Entry>, turn: Turn)
    requires turn.book.Ok(-1) && turn.Ready() && NonNegative(turn.book.timers) && EffectsNonNegative(turn.effects)
    requires Matches(left, turn.book.timers, turn.at, turn.book.log)
    ensures var (b, i) := turn.After(); Matches(LeftBy(left, turn), b.timers, i, b.log)
  {
    hide Book.Ok, Settled, Tied, Jumped, AddedBy, Performed;
    if turn.Live() {
      var started := turn.Started();
      StartedKeeps(turn);
      CalledKeeps(turn);
      TurnNonNegative(turn);
      PerformedMatches(left, started, turn.at, turn.effects, turn.book.timers[turn.at].timer.id);
      var (b, i) := turn.Called();
      BookSorted(b, turn.book.timers[turn.at].timer.id);
      NextNotEarlier(b, turn.book.timers[turn.at].timer.id, i, turn.now);
      SettledMatches(Jumped(left, AddedBy(turn.effects, |started.issued|), turn.Key()), b.timers, i, turn.now, b.log);
    }
  }

  lemma {:induction false} PassMatches(
    trace: seq<Turn>, horizon: int, script: seq<seq<Effect>>, b: Book, end: Book, at: nat)
    requires b.Ok(-1) && NonNegative(b.timers) && ScriptNonNegative(script)
    requires Reached(trace, horizon, script, b, end, at)
    ensures Matches(Left(trace), end.timers, at, end.log)
  {
    hide Book.Ok, NonNegative, ScriptNonNegative, EffectsNonNegative, LeftBy;
    if trace != [] {
      var before, turn := trace[..|trace| - 1], trace[|trace| - 1];
      PassMatches(before, horizon, script, b, turn.book, turn.at);
      PassKeeps(before, horizon, script, b, turn.book, turn.at);
      PassNonNegative(before, horizon, script, b, turn.book, turn.at);
      AssignedNonNegative(before, turn.Live(), script);
      TurnMatches(Left(before), turn);
    }
  }
  // The theorem.

  /** The timer can fire, and its time has come. */
  predicate Due(e: Entry, now: int) {
    e.timer.IsRepeatable() && e.key <= now
  }

  /** Nothing at or behind the place where a pass stops is due. */
  lemma NothingDueBehind(end: Book, stop: nat, now: int)
    requires end.Ok(-1) && 0 <= now && (stop < |end.timers| ==> !end.timers[stop].timer.IsExpired(now))
    ensures forall j :: stop <= j < |end.timers| ==> end.timers[j].key > now
  {
    if stop < |end.timers| {
      assert end.Past().EntryOk(end.timers[stop], -1);
    }
  }

  lemma DueIsPassedOver(trace: seq<Turn>, end: Book, stop: nat, now: int, e: Entry)
    requires end.Ok(-1) && Matches(Left(trace), end.timers, stop, end.log)
    requires forall j :: stop <= j < |end.timers| ==> end.timers[j].key > now
    requires Due(e, now)
    ensures e in end.timers <==> e in Left(trace) && Cancelled(e.timer.id) !in end.log
  {
    hide Left;
    if e in end.timers {
      var j :| 0 <= j < |end.timers| && end.timers[j] == e;
      assert end.Past().EntryOk(e, -1);
      assert Same(Left(trace)[j], e, end.log);
      assert Left(trace)[j] == e;
    } else if e in Left(trace) {
      var j :| 0 <= j < stop && Left(trace)[j] == e;
      assert Same(e, end.timers[j], end.log);
    }
  }

  /** What is due after a pass: exactly what one of its turns passed over, if its time has come and nobody cancelled it.
      The pass ends in front of the whole map iff it passed nothing over. */
  lemma LeftTheorem(
    trace: seq<Turn>, horizon: int, script: seq<seq<Effect>>, b: Book, end: Book, stop: nat, now: int)
    requires b.Ok(-1) && NonNegative(b.timers) && ScriptNonNegative(script)
    requires Completed(trace, horizon, script, b, end, stop, now)
    ensures forall e :: Due(e, now) ==>
      (e in end.timers <==> PassedOver(trace, e) && Cancelled(e.timer.id) !in end.log)
    ensures stop == 0 <==> forall e :: !PassedOver(trace, e)
    ensures forall j :: stop <= j < |end.timers| ==> end.timers[j].key > now
  {
    hide Book.Ok, NonNegative, ScriptNonNegative, Left, PassedOver;
    PassKeeps(trace, horizon, script, b, end, stop);
    PassMatches(trace, horizon, script, b, end, stop);
    NothingDueBehind(end, stop, now);
    forall e ensures e in Left(trace) <==> PassedOver(trace, e) {
      LeftElements(trace, horizon, script, b, end, stop, e);
    }
    forall e | Due(e, now) ensures e in end.timers <==> PassedOver(trace, e) && Cancelled(e.timer.id) !in end.log {
      DueIsPassedOver(trace, end, stop, now, e);
    }
    assert stop == |Left(trace)|;
    if stop > 0 {
      assert Left(trace)[0] in Left(trace);
    }
  }

  // Two ways to leave a due timer behind.

  lemma {:induction false} FirstTurn(
    trace: seq<Turn>, horizon: int, script: seq<seq<Effect>>, b: Book, end: Book, at: nat)
    requires trace != [] && Reached(trace, horizon, script, b, end, at)
    ensures trace[0].book == b && trace[0].at == 0 && trace[0].Ready()
    ensures trace[0].effects == Assigned([], trace[0].Live(), script)
  {
    if |trace| > 1 {
      var turn := trace[|trace| - 1];
      FirstTurn(trace[..|trace| - 1], horizon, script, b, turn.book, turn.at);
    } else {
      assert trace[..0] == [];
    }
  }

  lemma {:induction false} QuietLog(trace: seq<Turn>, horizon: int, b: Book, end: Book, at: nat, id: nat)
    requires Reached(trace, horizon, [], b, end, at)
    ensures Cancelled(id) in end.log ==> Cancelled(id) in b.log
  {
    if trace != [] {
      var turn := trace[|trace| - 1];
      QuietLog(trace[..|trace| - 1], horizon, b, turn.book, turn.at, id);
    }
  }

  /** The whole family of maps that fail at once: if the first timer, when it fires, ties with the second, and that
      one is alive and due by the end, a pass with idle callbacks leaves the second behind. */
  lemma FirstTieLeavesDue(trace: seq<Turn>, horizon: int, b: Book, end: Book, stop: nat, now: int)
    requires b.Ok(-1) && NonNegative(b.timers) && Completed(trace, horizon, [], b, end, stop, now)
    requires trace != [] && trace[0].Live()
    requires |b.timers| > 1 && Ties(b.timers, 0, trace[0].now) && Due(b.timers[1], now)
    ensures b.timers[1] in end.timers && Due(b.timers[1], now)
  {
    FirstTurn(trace, horizon, [], b, end, stop);
    assert trace[0].Called() == (trace[0].Started(), 0);
    assert PassesOver(trace[0], b.timers[1]);
    assert b.Past().EntryOk(b.timers[1], -1);
    hide Book.Ok, PassesOver;
    QuietLog(trace, horizon, b, end, stop, b.timers[1].timer.id);
    LeftTheorem(trace, horizon, [], b, end, stop, now);
  }

  /** A tie: at time 1000 a timer of period 1 ms, first due at 0, is put back behind a timer that is due at 1000 itself;
      the pass goes on behind that one and stops at the next entry that is not due. */
  lemma TiePassesOver() returns (timers: seq<Entry>, after: seq<Entry>, stop: nat)
    ensures timers == [Entry(0, Timer(0, 0, FOREVER, 1, false)), Entry(1000, Timer(1, 1000, FOREVER, 1, false))]
    ensures var (once, at) := Settled(timers, 0, 1000);
      && at < |once| && once[at].timer.IsExpired(1000) && once[at].timer.IsRepeatable()
      && (after, stop) == Settled(once, at, 1000)
    ensures stop < |after| && !after[stop].timer.IsExpired(1000)
    ensures after[0] == timers[1] && Due(after[0], 1000)
  {
    var a, b := Timer(0, 0, FOREVER, 1, false), Timer(1, 1000, FOREVER, 1, false);
    timers := [Entry(0, a), Entry(1000, b)];
    assert Erase(timers, 0) == [Entry(1000, b)];
    var once := [Entry(1000, b), Entry(1000, a.Next(1000))];
    assert UpperBound([Entry(1000, b)], 1000) == 1;
    assert Insert([Entry(1000, b)], once[1]) == once;
    assert Settled(timers, 0, 1000) == (once, 1);
    assert Erase(once, 1) == [Entry(1000, b)];
    assert UpperBound([Entry(1000, b)], 2000) == 1;
    after, stop := [Entry(1000, b), Entry(2000, a.Next(1000).Next(1000))], 1;
    assert Insert([Entry(1000, b)], after[1]) == after;
    assert Settled(once, 1, 1000) == (after, stop);
  }

  /** An addition: the callback of a timer due at 1000 adds one that was due at 500, which goes in front of it. */
  lemma AdditionPassesOver() returns (turn: Turn, e: Entry)
    ensures var timer := Timer(0, 1000, 1, 1, false); turn.book == Book([Entry(1000, timer)], [timer], [])
    ensures turn.Ready() && turn.at == 0
    ensures turn.effects == [Add(500, 1, 1, false)] && turn.now == 1000
    ensures turn.After().0.timers == [e] && turn.After().1 == 1 && Due(e, 1000)
    ensures var (b, i) := turn.Called(); !Ties(b.timers, i, 1000)
  {
    var timer := Timer(0, 1000, 1, 1, false);
    var book := Book([Entry(1000, timer)], [timer], []);
    turn := Turn(book, 0, 1000, [Add(500, 1, 1, false)]);
    e := Entry(500, Timer(1, 500, 1, 1, false));
    var started := turn.Started();
    assert turn.effects[..0] == [];
    assert Performed(started, 0, turn.effects[..0]) == (started, 0);
    assert UpperBound(started.timers, 500) == 0;
    assert Insert(started.timers, e) == [e, Entry(1000, timer)];
    var (b, i) := turn.Called();
    assert b.timers == [e, Entry(1000, timer)] && i == 1;
    assert Erase(b.timers, 1) == [e];
  }
}
