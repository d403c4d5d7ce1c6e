/** Timers in a multimap ordered by expiry, with the history of what was issued, fired and cancelled. Times are in
    microseconds, intervals in milliseconds. */
module TimerTable {

  const FOREVER: int := -1

  datatype Timer = Timer(id: nat, expiry: int, repeat: int, interval: int, fixedDelay: bool) {
    predicate IsRepeatable() {
      repeat == FOREVER || repeat > 0
    }

    predicate IsExpired(now: int) {
      now >= expiry
    }

    /** The timer after its callback ran at `now`. */
    function Next(now: int): Timer {
      this.(expiry := (if fixedDelay then now else expiry) + 1000 * interval,
            repeat := if repeat > 0 then repeat - 1 else repeat)
    }

    /** What cancellation makes of it; the entry leaves the map only when a later pass reaches it. */
    function Dead(): Timer {
      this.(expiry := 0, repeat := 0)
    }
  }

  datatype Entry = Entry(key: int, timer: Timer)

  datatype Event = Fired(id: nat, scheduled: int, now: int) | Cancelled(id: nat)

  // The multimap.

  ghost predicate Sorted(timers: seq<Entry>) {
    forall i, j :: 0 <= i < j < |timers| ==> timers[i].key <= timers[j].key
  }

  ghost predicate IdsDistinct(timers: seq<Entry>) {
    forall i, j :: 0 <= i < j < |timers| ==> timers[i].timer.id != timers[j].timer.id
  }

  /** The number of entries up to and including the last one with a key not above `key`. */
  function UpperBound(timers: seq<Entry>, key: int): (p: nat)
    ensures p <= |timers|
    ensures p > 0 ==> timers[p - 1].key <= key
    ensures forall j :: p <= j < |timers| ==> timers[j].key > key
  {
    if timers == [] then 0
    else if timers[|timers| - 1].key <= key then |timers|
    else UpperBound(timers[..|timers| - 1], key)
  }

  lemma {:induction false} BoundIs(timers: seq<Entry>, key: int, p: nat)
    requires p <= |timers| && forall j :: 0 <= j < p ==> timers[j].key <= key
    requires forall j :: p <= j < |timers| ==> timers[j].key > key
    ensures UpperBound(timers, key) == p
  {
    if p < |timers| {
      BoundIs(timers[..|timers| - 1], key, p);
    }
  }

  lemma {:induction false} BoundBehind(timers: seq<Entry>, key: int, p: nat)
    requires p <= |timers| && (p > 0 ==> timers[p - 1].key <= key)
    ensures UpperBound(timers, key) >= p
  {
    if p < |timers| {
      BoundBehind(timers[..|timers| - 1], key, p);
    }
  }

  function LowerBound(timers: seq<Entry>, key: int): (p: nat)
    ensures p <= |timers|
    ensures p < |timers| ==> timers[p].key >= key
    ensures forall j :: 0 <= j < p ==> timers[j].key < key
  {
    if timers == [] || timers[0].key >= key then 0 else 1 + LowerBound(timers[1..], key)
  }

  /** Insertion puts an entry behind all entries with the same key. */
  function Insert(timers: seq<Entry>, e: Entry): seq<Entry> {
    var p := UpperBound(timers, e.key);
    timers[..p] + [e] + timers[p..]
  }

  function Erase(timers: seq<Entry>, i: nat): seq<Entry>
    requires i < |timers|
  {
    timers[..i] + timers[i + 1..]
  }

  lemma InsertedAt(timers: seq<Entry>, e: Entry)
    ensures var p, inserted := UpperBound(timers, e.key), Insert(timers, e);
      && |inserted| == |timers| + 1 && inserted[p] == e
      && (forall j :: 0 <= j < p ==> inserted[j] == timers[j])
      && (forall j :: p < j < |inserted| ==> inserted[j] == timers[j - 1])
  {
    hide UpperBound;
  }

  lemma ErasedAt(timers: seq<Entry>, i: nat)
    requires i < |timers|
    ensures var erased := Erase(timers, i);
      && |erased| == |timers| - 1
      && (forall j :: 0 <= j < i ==> erased[j] == timers[j])
      && (forall j :: i <= j < |erased| ==> erased[j] == timers[j + 1])
  {
  }

  lemma InsertSorted(timers: seq<Entry>, e: Entry)
    requires Sorted(timers)
    ensures Sorted(Insert(timers, e))
  {
  }

  lemma EraseSorted(timers: seq<Entry>, i: nat)
    requires Sorted(timers) && i < |timers|
    ensures Sorted(Erase(timers, i))
  {
  }

  // History.

  /** The microseconds of `k` intervals. */
  function Elapsed(k: int, interval: int): int {
    k * (1000 * interval)
  }

  function Firings(log: seq<Event>, id: nat): nat {
    if log == [] then 0
    else Firings(log[..|log| - 1], id) + if log[|log| - 1].Fired? && log[|log| - 1].id == id then 1 else 0
  }

  lemma FiringsNext(log: seq<Event>, e: Event, id: nat)
    ensures Firings(log + [e], id) == Firings(log, id) + if e.Fired? && e.id == id then 1 else 0
  {
    assert (log + [e])[..|log|] == log;
  }

  lemma {:induction false} NoFirings(log: seq<Event>, id: nat)
    requires forall i :: 0 <= i < |log| && log[i].Fired? ==> log[i].id != id
    ensures Firings(log, id) == 0
  {
    if log != [] {
      NoFirings(log[..|log| - 1], id);
    }
  }

  /** When timer `id`, issued as `timer`, is due next, as its firings in the log have it: at its expiry before the first
      one; after each, one interval after that firing's scheduled time, or after its actual time with a fixed delay. */
  function NextDue(timer: Timer, log: seq<Event>, id: nat): int {
    if log == [] then timer.expiry
    else
      var last := log[|log| - 1];
      if last.Fired? && last.id == id
      then (if timer.fixedDelay then last.now else last.scheduled) + 1000 * timer.interval
      else NextDue(timer, log[..|log| - 1], id)
  }

  lemma NextDueAfter(timer: Timer, log: seq<Event>, e: Event, id: nat)
    ensures NextDue(timer, log + [e], id) ==
      if e.Fired? && e.id == id then (if timer.fixedDelay then e.now else e.scheduled) + 1000 * timer.interval
      else NextDue(timer, log, id)
  {
    assert (log + [e])[..|log|] == log;
  }

  lemma {:induction false} NeverFired(timer: Timer, log: seq<Event>, id: nat)
    requires forall i :: 0 <= i < |log| && log[i].Fired? ==> log[i].id != id
    ensures NextDue(timer, log, id) == timer.expiry
  {
    if log != [] {
      NeverFired(timer, log[..|log| - 1], id);
    }
  }

  /** The latest firing of the timer is this one. */
  predicate Latest(log: seq<Event>, f: Event)
    requires f.Fired?
  {
    log != [] &&
    var last := log[|log| - 1];
    if last.Fired? && last.id == f.id then last == f else Latest(log[..|log| - 1], f)
  }

  lemma LatestAfter(log: seq<Event>, e: Event, f: Event)
    requires f.Fired?
    ensures Latest(log + [e], f) <==> if e.Fired? && e.id == f.id then e == f else Latest(log, f)
  {
    assert (log + [e])[..|log|] == log;
  }

  lemma {:induction false} LatestDue(timer: Timer, log: seq<Event>, f: Event)
    requires f.Fired? && Latest(log, f)
    ensures NextDue(timer, log, f.id) == (if timer.fixedDelay then f.now else f.scheduled) + 1000 * timer.interval
  {
    var last := log[|log| - 1];
    if !(last.Fired? && last.id == f.id) {
      LatestDue(timer, log[..|log| - 1], f);
    }
  }

  /** Cancellations behind it leave the latest firing the latest. */
  lemma {:induction false} LatestStays(log: seq<Event>, log': seq<Event>, f: Event)
    requires f.Fired? && Latest(log, f) && log <= log'
    requires forall j :: |log| <= j < |log'| ==> log'[j].Cancelled?
    ensures Latest(log', f)
  {
    if log' == log {
      assert Latest(log', f);
    } else {
      assert log <= log'[..|log'| - 1];
      LatestStays(log, log'[..|log'| - 1], f);
    }
  }

  /** The repeat count after that many firings. */
  function Remaining(timer: Timer, firings: int): int {
    if timer.repeat > 0 then timer.repeat - firings else timer.repeat
  }

  /** The timer has firings to come. */
  predicate Owed(timer: Timer, firings: int) {
    timer.repeat == FOREVER || firings < timer.repeat
  }

  /** `issued[id]` is timer `id` as it was added; the log holds firings and cancellations in order. */
  datatype History = History(issued: seq<Timer>, log: seq<Event>) {

    /** Completed firings; timer `busy` is inside its callback. */
    function Completed(id: nat, busy: int): int {
      Firings(log, id) - if id == busy then 1 else 0
    }

    /** An entry tells the truth. A cancelled timer is dead; any other stands under its expiry, which is when the
        log has it due next, and has exactly the rest of its repetitions left. */
    ghost predicate EntryOk(e: Entry, busy: int) {
      var t := e.timer;
      && t.id < |issued|
      && t.interval == issued[t.id].interval && t.fixedDelay == issued[t.id].fixedDelay
      && (t.interval >= 0 ==> e.key >= issued[t.id].expiry)
      && if Cancelled(t.id) in log then !t.IsRepeatable() && t.expiry == 0
         else
           && e.key == t.expiry
           && t.repeat == Remaining(issued[t.id], Completed(t.id, busy))
           && (t.id != busy ==> e.key == NextDue(issued[t.id], log, t.id))
    }

    /** No firing before its scheduled time, which is when the log in front of it had the timer due. */
    ghost predicate FiredOk(i: nat)
      requires i < |log|
    {
      log[i].Fired? ==>
        && log[i].id < |issued|
        && log[i].scheduled <= log[i].now
        && log[i].scheduled == NextDue(issued[log[i].id], log[..i], log[i].id)
    }

    ghost predicate FiringsOk() {
      && (forall i :: 0 <= i < |log| ==> FiredOk(i))
      && (forall i :: 0 <= i < |log| ==> log[i].id < |issued|)
    }

    /** Nothing fires after its cancellation. */
    ghost predicate CancelFinal() {
      forall i, j :: 0 <= i < j < |log| && log[i].Cancelled? && log[j].Fired? ==> log[i].id != log[j].id
    }

    /** A timer with a repeat count fires at most that often. */
    ghost predicate CountsOk() {
      forall id :: 0 <= id < |issued| && issued[id].repeat != FOREVER ==>
        Firings(log, id) <= if issued[id].repeat > 0 then issued[id].repeat else 0
    }

    ghost predicate Ok() {
      FiringsOk() && CancelFinal() && CountsOk()
    }

    /** The timer was not cancelled, and it runs its callback or has firings to come. */
    ghost predicate Stays(id: nat, busy: int)
      requires id < |issued|
    {
      Cancelled(id) !in log && (id == busy || Owed(issued[id], Firings(log, id)))
    }
  }

  ghost predicate EntriesOk(timers: seq<Entry>, h: History, busy: int) {
    forall i :: 0 <= i < |timers| ==> h.EntryOk(timers[i], busy)
  }

  ghost predicate HasId(timers: seq<Entry>, id: nat) {
    exists i :: 0 <= i < |timers| && timers[i].timer.id == id
  }

  /** Every timer that should be in the map is. */
  ghost predicate Standing(timers: seq<Entry>, h: History, busy: int) {
    forall id: nat :: id < |h.issued| && h.Stays(id, busy) ==> HasId(timers, id)
  }

  ghost predicate Sound(timers: seq<Entry>, h: History, busy: int) {
    Sorted(timers) && IdsDistinct(timers) && EntriesOk(timers, h, busy) && h.Ok() && Standing(timers, h, busy)
  }

  // What each operation keeps.

  lemma IssueKeeps(h: History, timer: Timer)
    requires h.Ok()
    ensures History(h.issued + [timer], h.log).Ok() && Firings(h.log, |h.issued|) == 0
    ensures NextDue(timer, h.log, |h.issued|) == timer.expiry && Cancelled(|h.issued|) !in h.log
  {
    var h' := History(h.issued + [timer], h.log);
    NoFirings(h.log, |h.issued|);
    NeverFired(timer, h.log, |h.issued|);
    hide Firings, NextDue;
    forall i | 0 <= i < |h.log| ensures h'.FiredOk(i) {
      assert h.FiredOk(i);
    }
  }

  lemma InsertHasId(timers: seq<Entry>, e: Entry, id: nat)
    ensures HasId(Insert(timers, e), id) <==> HasId(timers, id) || e.timer.id == id
  {
    InsertedAt(timers, e);
    var inserted, p := Insert(timers, e), UpperBound(timers, e.key);
    hide Insert, UpperBound;
    if HasId(timers, id) {
      var i :| 0 <= i < |timers| && timers[i].timer.id == id;
      assert inserted[if i < p then i else i + 1].timer.id == id;
    }
    if HasId(inserted, id) {
      var i :| 0 <= i < |inserted| && inserted[i].timer.id == id;
      assert i != p ==> inserted[i] == timers[if i < p then i else i - 1];
    }
  }

  lemma EraseHasId(timers: seq<Entry>, i: nat, id: nat)
    requires i < |timers| && timers[i].timer.id != id
    ensures HasId(timers, id) ==> HasId(Erase(timers, i), id)
  {
    ErasedAt(timers, i);
    if HasId(timers, id) {
      var j :| 0 <= j < |timers| && timers[j].timer.id == id;
      assert Erase(timers, i)[if j < i then j else j - 1].timer.id == id;
    }
  }

  lemma AddKeeps(timers: seq<Entry>, h: History, busy: int, timer: Timer)
    requires Sound(timers, h, busy) && timer.id == |h.issued| && busy < |h.issued|
    ensures Sound(Insert(timers, Entry(timer.expiry, timer)), History(h.issued + [timer], h.log), busy)
  {
    var e, h' := Entry(timer.expiry, timer), History(h.issued + [timer], h.log);
    IssueKeeps(h, timer);
    hide Firings, NextDue, Insert;
    assert h'.EntryOk(e, busy);
    forall i | 0 <= i < |timers| ensures h'.EntryOk(timers[i], busy) {
      assert h.EntryOk(timers[i], busy);
    }
    forall id: nat | id < |h'.issued| && h'.Stays(id, busy) ensures HasId(Insert(timers, e), id) {
      InsertHasId(timers, e, id);
      assert id < |h.issued| ==> h.Stays(id, busy);
    }
    hide History.EntryOk, History.Ok, History.Stays, HasId;
    assert forall i :: 0 <= i < |timers| ==> timers[i].timer.id != timer.id;
    InsertKeeps(timers, h', busy, e);
  }

  lemma InsertKeeps(timers: seq<Entry>, h: History, busy: int, e: Entry)
    requires Sorted(timers) && IdsDistinct(timers) && EntriesOk(timers, h, busy) && h.EntryOk(e, busy)
    requires forall i :: 0 <= i < |timers| ==> timers[i].timer.id != e.timer.id
    ensures Sorted(Insert(timers, e)) && IdsDistinct(Insert(timers, e)) && EntriesOk(Insert(timers, e), h, busy)
  {
    hide History.EntryOk;
    InsertSorted(timers, e);
  }

  lemma EraseKeeps(timers: seq<Entry>, h: History, busy: int, i: nat)
    requires Sorted(timers) && IdsDistinct(timers) && EntriesOk(timers, h, busy) && i < |timers|
    ensures Sorted(Erase(timers, i)) && IdsDistinct(Erase(timers, i)) && EntriesOk(Erase(timers, i), h, busy)
    ensures forall j :: 0 <= j < |Erase(timers, i)| ==> Erase(timers, i)[j].timer.id != timers[i].timer.id
  {
    hide History.EntryOk;
    EraseSorted(timers, i);
  }

  /** Appending one event to the log keeps what the log says, if the event itself is in order. */
  lemma LogKeeps(h: History, e: Event)
    requires h.FiringsOk() && h.CancelFinal() && e.id < |h.issued|
    requires e.Fired? ==> Cancelled(e.id) !in h.log && History(h.issued, h.log + [e]).FiredOk(|h.log|)
    ensures History(h.issued, h.log + [e]).FiringsOk() && History(h.issued, h.log + [e]).CancelFinal()
  {
    hide NextDue;
    var h' := History(h.issued, h.log + [e]);
    forall i | 0 <= i < |h'.log| ensures h'.FiredOk(i) {
      if i < |h.log| {
        assert h.FiredOk(i);
        assert h'.log[..i] == h.log[..i];
      }
    }
  }

  /** The entry at `i` made dead, if there is one. */
  function Kill(timers: seq<Entry>, i: nat): seq<Entry> {
    if i < |timers| then timers[i := timers[i].(timer := timers[i].timer.Dead())] else timers
  }

  lemma EntryAfterCancel(h: History, e: Entry, busy: int, id: nat)
    requires h.EntryOk(e, busy)
    ensures var h' := History(h.issued, h.log + [Cancelled(id)]);
      if e.timer.id == id then h'.EntryOk(e.(timer := e.timer.Dead()), busy) else h'.EntryOk(e, busy)
  {
    var h' := History(h.issued, h.log + [Cancelled(id)]);
    InAppended(h.log, Cancelled(id), Cancelled(e.timer.id));
    FiringsNext(h.log, Cancelled(id), e.timer.id);
    NextDueAfter(h.issued[e.timer.id], h.log, Cancelled(id), e.timer.id);
    assert h'.Completed(e.timer.id, busy) == h.Completed(e.timer.id, busy);
    hide Firings, NextDue, Remaining;
  }

  lemma InAppended(log: seq<Event>, e: Event, x: Event)
    ensures x in log + [e] <==> x in log || x == e
  {
  }

  lemma CountsAfterCancel(h: History, id: nat)
    requires h.CountsOk()
    ensures History(h.issued, h.log + [Cancelled(id)]).CountsOk()
  {
    hide Firings;
    forall k | 0 <= k < |h.issued| ensures Firings(h.log + [Cancelled(id)], k) == Firings(h.log, k) {
      FiringsNext(h.log, Cancelled(id), k);
    }
  }

  lemma KillHasId(timers: seq<Entry>, i: nat, id: nat)
    ensures HasId(Kill(timers, i), id) <==> HasId(timers, id)
  {
    if HasId(timers, id) {
      var j :| 0 <= j < |timers| && timers[j].timer.id == id;
      assert Kill(timers, i)[j].timer.id == id;
    }
  }

  /** Timer `id` is cancelled: at index `i`, or nowhere in the map. */
  lemma CancelKeeps(timers: seq<Entry>, h: History, busy: int, id: nat, i: nat)
    requires Sound(timers, h, busy) && id < |h.issued|
    requires i < |timers| ==> timers[i].timer.id == id
    requires i >= |timers| ==> forall j :: 0 <= j < |timers| ==> timers[j].timer.id != id
    ensures Sound(Kill(timers, i), History(h.issued, h.log + [Cancelled(id)]), busy)
  {
    hide History.EntryOk, History.FiringsOk, History.CountsOk, Firings;
    var h' := History(h.issued, h.log + [Cancelled(id)]);
    LogKeeps(h, Cancelled(id));
    CountsAfterCancel(h, id);
    forall j | 0 <= j < |timers| ensures h'.EntryOk(Kill(timers, i)[j], busy) {
      EntryAfterCancel(h, timers[j], busy, id);
    }
    forall k: nat | k < |h.issued| && h'.Stays(k, busy) ensures HasId(Kill(timers, i), k) {
      FiringsNext(h.log, Cancelled(id), k);
      assert h.Stays(k, busy);
      KillHasId(timers, i, k);
    }
  }

  lemma EntryAfterFire(h: History, e: Entry, f: Event)
    requires f.Fired? && h.EntryOk(e, -1)
    ensures History(h.issued, h.log + [f]).EntryOk(e, f.id)
  {
    FiringsNext(h.log, f, e.timer.id);
    NextDueAfter(h.issued[e.timer.id], h.log, f, e.timer.id);
    hide Firings, NextDue;
    assert Cancelled(e.timer.id) in h.log + [f] <==> Cancelled(e.timer.id) in h.log;
  }

  lemma CountsAfterFire(h: History, e: Entry, f: Event)
    requires h.CountsOk() && h.EntryOk(e, -1) && e.timer.IsRepeatable() && f.Fired? && f.id == e.timer.id
    ensures History(h.issued, h.log + [f]).CountsOk()
  {
    hide Firings, NextDue;
    forall k | 0 <= k < |h.issued|
      ensures Firings(h.log + [f], k) == Firings(h.log, k) + if k == f.id then 1 else 0
    {
      FiringsNext(h.log, f, k);
    }
  }

  lemma StandingAfterFire(timers: seq<Entry>, h: History, f: Event, i: nat)
    requires Standing(timers, h, -1) && f.Fired? && i < |timers| && timers[i].timer.id == f.id
    ensures Standing(timers, History(h.issued, h.log + [f]), f.id)
  {
    hide Firings;
    var h' := History(h.issued, h.log + [f]);
    forall k: nat | k < |h.issued| && h'.Stays(k, f.id) ensures HasId(timers, k) {
      FiringsNext(h.log, f, k);
      if k != f.id {
        assert Cancelled(k) in h.log ==> Cancelled(k) in h'.log;
        assert h.Stays(k, -1);
      }
    }
  }

  /** The callback of the timer at `i` starts at `now`. */
  lemma FireKeeps(timers: seq<Entry>, h: History, i: nat, now: int)
    requires Sound(timers, h, -1) && i < |timers|
    requires timers[i].timer.IsRepeatable() && timers[i].timer.IsExpired(now)
    ensures var timer := timers[i].timer;
      var f := Fired(timer.id, timer.expiry, now);
      Sound(timers, History(h.issued, h.log + [f]), timer.id) && Latest(h.log + [f], f)
  {
    var timer := timers[i].timer;
    var f := Fired(timer.id, timer.expiry, now);
    var h' := History(h.issued, h.log + [f]);
    LatestAfter(h.log, f, f);
    hide Firings, NextDue, Latest, History.FiringsOk, History.CountsOk, Standing;
    assert h.EntryOk(timers[i], -1);
    assert h'.log[..|h.log|] == h.log;
    LogKeeps(h, f);
    CountsAfterFire(h, timers[i], f);
    StandingAfterFire(timers, h, f, i);
    forall j | 0 <= j < |timers| ensures h'.EntryOk(timers[j], timer.id) {
      EntryAfterFire(h, timers[j], f);
    }
  }

  /** Only the busy timer's own entry depends on which timer is busy. */
  lemma BusyIsLocal(timers: seq<Entry>, h: History, busy: int)
    requires EntriesOk(timers, h, busy) && forall i :: 0 <= i < |timers| ==> timers[i].timer.id != busy
    ensures EntriesOk(timers, h, -1)
  {
    hide NextDue, Firings;
    forall i | 0 <= i < |timers| ensures h.EntryOk(timers[i], -1) {
      assert h.EntryOk(timers[i], busy);
    }
  }

  /** The timer at `i` is done: cancelled, or without firings to come. */
  lemma DropKeeps(timers: seq<Entry>, h: History, busy: int, i: nat)
    requires Sound(timers, h, busy) && i < |timers| && (busy == -1 || busy == timers[i].timer.id)
    requires timers[i].timer.id < |h.issued| && !h.Stays(timers[i].timer.id, -1)
    ensures Sound(Erase(timers, i), h, -1)
  {
    hide History.EntryOk, History.Ok, Firings;
    EraseKeeps(timers, h, busy, i);
    if busy != -1 {
      BusyIsLocal(Erase(timers, i), h, busy);
    }
    forall id: nat | id < |h.issued| && h.Stays(id, -1) ensures HasId(Erase(timers, i), id) {
      assert h.Stays(id, busy);
      EraseHasId(timers, i, id);
    }
  }

  /** A timer that cannot fire any more has no firings to come. */
  lemma NotRepeatable(h: History, e: Entry)
    requires h.Ok() && h.EntryOk(e, -1) && !e.timer.IsRepeatable()
    ensures !h.Stays(e.timer.id, -1)
  {
    hide Firings, NextDue;
  }

  /** Nor has one that cannot fire again after the callback it runs. */
  lemma NotRepeatableAgain(h: History, e: Entry, now: int)
    requires h.Ok() && h.EntryOk(e, e.timer.id) && !e.timer.Next(now).IsRepeatable()
    ensures !h.Stays(e.timer.id, -1)
  {
    hide Firings, NextDue;
  }

  /** The timer at `i` has run its callback and can fire again: it leaves its place and goes in under its new expiry. */
  lemma ReinsertKeeps(timers: seq<Entry>, h: History, i: nat, now: int)
    requires i < |timers| && Sound(timers, h, timers[i].timer.id) && timers[i].key <= now
    requires timers[i].timer.IsRepeatable() && timers[i].timer.Next(now).IsRepeatable()
    requires Latest(h.log, Fired(timers[i].timer.id, timers[i].key, now))
    ensures var next := timers[i].timer.Next(now);
      Sound(Insert(Erase(timers, i), Entry(next.expiry, next)), h, -1)
  {
    var id, next := timers[i].timer.id, timers[i].timer.Next(now);
    var e, erased := Entry(next.expiry, next), Erase(timers, i);
    ReinsertedEntry(h, timers[i], now);
    hide History.EntryOk, History.Ok, Firings, Insert, Latest;
    EraseKeeps(timers, h, id, i);
    BusyIsLocal(erased, h, id);
    InsertKeeps(erased, h, -1, e);
    forall k: nat | k < |h.issued| && h.Stays(k, -1) ensures HasId(Insert(erased, e), k) {
      InsertHasId(erased, e, k);
      if k != id {
        assert h.Stays(k, id);
        EraseHasId(timers, i, k);
      }
    }
  }

  lemma ReinsertedEntry(h: History, e: Entry, now: int)
    requires h.EntryOk(e, e.timer.id) && e.key <= now
    requires e.timer.IsRepeatable() && e.timer.Next(now).IsRepeatable()
    requires h.Ok() && Latest(h.log, Fired(e.timer.id, e.key, now))
    ensures var next := e.timer.Next(now); h.EntryOk(Entry(next.expiry, next), -1)
  {
    LatestDue(h.issued[e.timer.id], h.log, Fired(e.timer.id, e.key, now));
    hide Firings, NextDue, Latest;
  }

  // What the log says of the times.

  /** The firings of a fixed-rate timer are scheduled exactly k intervals after its first expiry. */
  lemma {:induction false} FixedRate(h: History, log: seq<Event>, id: nat)
    requires h.FiringsOk() && log <= h.log && id < |h.issued| && !h.issued[id].fixedDelay
    ensures NextDue(h.issued[id], log, id) == h.issued[id].expiry + Elapsed(Firings(log, id), h.issued[id].interval)
  {
    if log != [] {
      var n := |log| - 1;
      FixedRate(h, log[..n], id);
      assert h.FiredOk(n);
      assert h.log[..n] == log[..n] && h.log[n] == log[n];
      var k, step := Firings(log[..n], id), 1000 * h.issued[id].interval;
      assert (k + 1) * step == k * step + step;
    }
  }

  /** The last firing of the timer in the log is at `m`. */
  ghost predicate LastFiring(log: seq<Event>, m: int, id: nat) {
    && 0 <= m < |log| && log[m].Fired? && log[m].id == id
    && forall k :: m < k < |log| && log[k].Fired? ==> log[k].id != id
  }

  ghost predicate Unfired(log: seq<Event>, id: nat) {
    forall k :: 0 <= k < |log| && log[k].Fired? ==> log[k].id != id
  }

  /** The next due time is one interval after the last firing. */
  lemma {:induction false} DueAfter(timer: Timer, log: seq<Event>, m: nat, id: nat)
    requires LastFiring(log, m, id)
    ensures NextDue(timer, log, id) ==
      (if timer.fixedDelay then log[m].now else log[m].scheduled) + 1000 * timer.interval
  {
    if m < |log| - 1 {
      DueAfter(timer, log[..|log| - 1], m, id);
    }
  }
}
