/** The timer manager as a value: its map together with the history of what was issued, fired and cancelled, and
    what its operations and the callbacks make of it. */
module TimerBooks {
  import opened TimerTable

  /** What a callback may do to the manager that runs it. */
  datatype Effect =
    | Add(expiry: int, repeat: int, interval: int, fixedDelay: bool)
    | Remove(id: int, value: int)

  /** `issued` is a history whose length is the next id; `log` is a history too. */
  datatype Book = Book(timers: seq<Entry>, issued: seq<Timer>, log: seq<Event>) {
    function Past(): History {
      History(issued, log)
    }

    /** Timer `busy` is inside its callback; -1 is none. */
    ghost predicate Ok(busy: int) {
      Sound(timers, Past(), busy) && busy < |issued|
    }

    /** A new timer goes in behind equal keys, under a fresh id. */
    function Added(expiry: int, repeat: int, interval: int, fixedDelay: bool): Book {
      var timer := Timer(|issued|, expiry, repeat, interval, fixedDelay);
      this.(timers := Insert(timers, Entry(expiry, timer)), issued := issued + [timer])
    }

    /** The handle is of a timer that is in the map where the scan meets it, or that has left the map. */
    predicate Cancels(id: int, value: int) {
      || Search(timers, id, value) < |timers|
      || (0 <= id < |issued| && forall j :: 0 <= j < |timers| ==> timers[j].timer.id != id)
    }

    /** The timer is made dead where it stands. */
    function Removed(id: int, value: int): Book {
      var killed := this.(timers := Kill(timers, Search(timers, id, value)));
      if id >= 0 && Cancels(id, value) then killed.(log := log + [Cancelled(id)]) else killed
    }

    function Applied(e: Effect): Book {
      match e
      case Add(expiry, repeat, interval, fixedDelay) => Added(expiry, repeat, interval, fixedDelay)
      case Remove(id, value) => Removed(id, value)
    }
  }

  function Empty(): Book {
    Book([], [], [])
  }

  /** The first entry with the id whose key is at or behind `value`: the scan of `removeTimer` starts at that key. */
  function Search(timers: seq<Entry>, id: int, value: int): (i: nat)
    ensures i <= |timers|
    ensures i < |timers| ==> timers[i].timer.id == id && timers[i].key >= value
    ensures forall j :: 0 <= j < i ==> timers[j].timer.id != id || timers[j].key < value
  {
    if timers == [] || (timers[0].timer.id == id && timers[0].key >= value) then 0
    else 1 + Search(timers[1..], id, value)
  }

  /** Iterators of a multimap stay on their element: where the element at `at` is after the effect. */
  function Shifted(timers: seq<Entry>, at: nat, e: Effect): nat {
    if e.Add? && UpperBound(timers, e.expiry) <= at then at + 1 else at
  }

  /** A callback as the list of what it does, run by the timer at `at`: the book, and where that timer is afterwards. */
  function Performed(b: Book, at: nat, effects: seq<Effect>): (r: (Book, nat))
    requires at < |b.timers|
    ensures r.1 < |r.0.timers|
  {
    if effects == [] then (b, at)
    else
      var (b', at') := Performed(b, at, effects[..|effects| - 1]);
      var e := effects[|effects| - 1];
      (b'.Applied(e), Shifted(b'.timers, at', e))
  }

  // What the operations keep.

  lemma AddedKeeps(b: Book, busy: int, expiry: int, repeat: int, interval: int, fixedDelay: bool)
    requires b.Ok(busy)
    ensures b.Added(expiry, repeat, interval, fixedDelay).Ok(busy)
  {
    hide Sound, Insert;
    AddKeeps(b.timers, b.Past(), busy, Timer(|b.issued|, expiry, repeat, interval, fixedDelay));
  }

  lemma KnownId(timers: seq<Entry>, h: History, busy: int, i: nat)
    requires Sound(timers, h, busy) && i < |timers|
    ensures timers[i].timer.id < |h.issued|
    ensures timers[i].timer.interval == h.issued[timers[i].timer.id].interval
  {
    assert h.EntryOk(timers[i], busy);
  }

  lemma RemovedKeeps(b: Book, busy: int, id: int, value: int)
    requires b.Ok(busy)
    ensures b.Removed(id, value).Ok(busy)
  {
    var i := Search(b.timers, id, value);
    if i < |b.timers| {
      KnownId(b.timers, b.Past(), busy, i);
    }
    hide Sound;
    if id >= 0 && b.Cancels(id, value) {
      CancelKeeps(b.timers, b.Past(), busy, id, i);
    }
  }

  /** A handle's expiry is never above the key under which its timer now stands, however often it has fired. */
  lemma HandleFinds(b: Book, busy: int, i: nat)
    requires b.Ok(busy) && i < |b.timers| && b.timers[i].timer.interval >= 0
    ensures b.timers[i].timer.id < |b.issued| && b.issued[b.timers[i].timer.id].expiry <= b.timers[i].key
  {
    assert b.Past().EntryOk(b.timers[i], busy);
  }

  /** With the handle that was given out for a timer with a non-negative interval, the scan finds the timer or the timer
      has left the map: it counts as cancelled from here on. */
  lemma HandleCancels(b: Book, busy: int, id: nat)
    requires b.Ok(busy) && id < |b.issued| && b.issued[id].interval >= 0
    ensures b.Cancels(id, b.issued[id].expiry)
    ensures b.Removed(id, b.issued[id].expiry).log == b.log + [Cancelled(id)]
  {
    var value := b.issued[id].expiry;
    forall j | 0 <= j < |b.timers| && b.timers[j].timer.id == id ensures b.timers[j].key >= value {
      KnownId(b.timers, b.Past(), busy, j);
      HandleFinds(b, busy, j);
    }
    if exists j :: 0 <= j < |b.timers| && b.timers[j].timer.id == id {
      var j :| 0 <= j < |b.timers| && b.timers[j].timer.id == id;
      assert Search(b.timers, id, value) <= j;
    }
    assert b.Cancels(id, value);
  }

  /** The busy timer's own entry stays where it is, alive or cancelled; and callbacks only add cancellations to the
      log. */
  ghost predicate Carried(b: Book, at: nat, b': Book, at': nat)
    requires at < |b.timers|
  {
    && at <= at' < |b'.timers|
    && b'.timers[at'].key == b.timers[at].key
    && (b'.timers[at'].timer == b.timers[at].timer || b'.timers[at'].timer == b.timers[at].timer.Dead())
    && b.log <= b'.log
    && forall j :: |b.log| <= j < |b'.log| ==> b'.log[j].Cancelled?
  }

  lemma AppliedCarries(b: Book, at: nat, b': Book, at': nat, e: Effect)
    requires at < |b.timers| && Carried(b, at, b', at')
    ensures Carried(b, at, b'.Applied(e), Shifted(b'.timers, at', e))
  {
  }

  lemma {:induction false} PerformedKeeps(b: Book, at: nat, effects: seq<Effect>, busy: int)
    requires at < |b.timers| && b.Ok(busy)
    ensures var (b', at') := Performed(b, at, effects); b'.Ok(busy) && Carried(b, at, b', at')
  {
    hide Book.Ok, Book.Applied;
    if effects != [] {
      var before, e := effects[..|effects| - 1], effects[|effects| - 1];
      PerformedKeeps(b, at, before, busy);
      var (b', at') := Performed(b, at, before);
      AppliedCarries(b, at, b', at', e);
      AppliedKeeps(b', busy, e);
    }
  }

  lemma AppliedKeeps(b: Book, busy: int, e: Effect)
    requires b.Ok(busy)
    ensures b.Applied(e).Ok(busy)
  {
    hide Book.Ok, Book.Added, Book.Removed;
    match e
    case Add(expiry, repeat, interval, fixedDelay) => AddedKeeps(b, busy, expiry, repeat, interval, fixedDelay);
    case Remove(id, value) => RemovedKeeps(b, busy, id, value);
  }
}
