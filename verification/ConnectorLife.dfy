/** The life of a connector as a value: what it is waiting for, which descriptors are open and whose they are, and what
    every event makes of that. */
module ConnectorLives {

  /** What the kernel can report for a descriptor. */
  datatype Poll = In | Pri | Out | Err | Hup | RdHup
  /** What Channel::handleEvent dispatches on. */
  datatype Ready = ErrorReady | ReadReady | WriteReady

  /** EpollPoller::prepareChannelReadyEvents for one channel. */
  function ReadyEvents(revents: set<Poll>): set<Ready> {
    (if In in revents && (Err in revents || Hup in revents) then {ErrorReady} else {})
    + (if In in revents || Pri in revents || RdHup in revents then {ReadReady} else {})
    + (if Out in revents then {WriteReady} else {})
  }

  /** The kernel reports registered bits, errors and hang-ups. */
  predicate Reportable(revents: set<Poll>, mask: set<Poll>) {
    revents <= mask + {Err, Hup}
  }

  /** A channel that waits for writability alone is never told of an error, so its error handler and its write handler
      cannot both run for one poll; reading as well, it can be told of both. */
  lemma WriteOnlySeesNoError(mask: set<Poll>)
    requires mask <= {In, Out} && Out in mask
    ensures (forall revents | Reportable(revents, mask) :: ErrorReady !in ReadyEvents(revents)) <==> mask == {Out}
  {
    if In in mask {
      assert Reportable({In, Err}, mask) && ErrorReady in ReadyEvents({In, Err});
    } else {
      assert mask == {Out};
    }
  }

  lemma WriteOnlyReady(revents: set<Poll>)
    requires Reportable(revents, {Out})
    ensures ReadyEvents(revents) <= {WriteReady}
  {
    assert In !in revents && Pri !in revents && RdHup !in revents;
  }

  datatype Phase = Updating | Working | Polling | Handling

  datatype Errno =
    | EINTR | EISCONN | EINPROGRESS
    | EAGAIN | ETIMEDOUT | EADDRINUSE | EADDRNOTAVAIL | ECONNREFUSED | ENETUNREACH
    | Unexpected

  /** The environment of one connect: the descriptor it gets, what `connect` answers, whether a registration works. */
  datatype Reply = Reply(fd: int, connected: bool, errno: Errno, registers: bool)

  /** What the connector is waiting for. */
  datatype Attempt = Unstarted | Scheduled | Waiting | Failing | Succeeded | Abandoned

  const INVALID_FD := -1

  /** What one connect leads to. */
  function Outcome(r: Reply, retry: bool): Attempt {
    if r.connected then Succeeded
    else match r.errno
      case EINTR | EISCONN | EINPROGRESS => if r.registers then Waiting else if retry then Scheduled else Abandoned
      case Unexpected => Abandoned
      case _ => Scheduled
  }

  datatype Life = Life(
    attempt: Attempt,
    phase: Phase,      // of the loop
    active: bool,      // among the channels that the last poll reported
    ready: set<Ready>,
    alive: bool,
    fd: int,
    open: set<int>,    // the kernel's open descriptors
    others: set<int>,  // those of anybody but the connector
    created: nat,      // descriptors that the connector created so far
    closed: nat,       // descriptors that it closed
    handed: seq<int>)  // descriptors that it handed over
  {
    /** The connector owns its descriptor. */
    predicate Owns() {
      alive && attempt in {Waiting, Failing, Abandoned}
    }

    /** A connect on a new descriptor. */
    function Tried(r: Reply, retry: bool): Life {
      match Outcome(r, retry)
      case Scheduled => this.(attempt := Scheduled, fd := INVALID_FD, created := created + 1, closed := closed + 1)
      case Succeeded => this.(fd := r.fd, open := open + {r.fd}, created := created + 1).HandedOver()
      case next => this.(attempt := next, fd := r.fd, open := open + {r.fd}, created := created + 1)
    }

    function HandedOver(): Life {
      this.(attempt := Succeeded, others := others + {fd}, handed := handed + [fd])
    }

    /** The descriptor is closed, and a connect is scheduled. */
    function Rescheduled(): Life {
      this.(attempt := Scheduled, fd := INVALID_FD, open := open - {fd}, closed := closed + 1)
    }

    function Handled(sockError: bool): Life {
      var idle := this.(active := false);
      if WriteReady in ready && !sockError then idle.HandedOver()
      else if WriteReady in ready || ErrorReady in ready then idle.(attempt := Failing)
      else idle
    }

    /** The last reference is gone: a descriptor that was not handed over is closed. */
    function Destroyed(): Life {
      if attempt == Succeeded || fd < 0 then this.(alive := false)
      else this.(alive := false, open := open - {fd}, closed := closed + 1)
    }
  }

  function Born(open: set<int>): Life {
    Life(Unstarted, Updating, false, {}, true, INVALID_FD, open, open, 0, 0, [])
  }

  datatype Move =
    | Begin(r: Reply) | Due(r: Reply)
    | Report(reported: bool, revents: set<Poll>) | Handle(sockError: bool) | EndHandling
    | SwapTasks | ErrorTask | EndBatch
    | LastReference
    | Opens(fd: int) | Closes(fd: int)

  /** The kernel never hands out a descriptor that is open. */
  predicate Fresh(l: Life, fd: int) {
    fd >= 0 && fd !in l.open
  }

  predicate Possible(l: Life, m: Move) {
    match m
    case Begin(r) => l.attempt == Unstarted && l.phase == Working && Fresh(l, r.fd)
    case Due(r) => l.attempt == Scheduled && l.phase == Updating && Fresh(l, r.fd)
    case Report(_, revents) => l.phase == Polling && (l.attempt == Waiting ==> Reportable(revents, {Out}))
    case Handle(_) => l.active
    case EndHandling => l.phase == Handling && !l.active
    case SwapTasks => l.phase == Updating
    case ErrorTask => l.attempt == Failing && l.phase == Working
    case EndBatch => l.phase == Working && l.attempt != Failing
    case LastReference => l.alive && l.attempt in {Succeeded, Abandoned}
    case Opens(fd) => Fresh(l, fd)
    case Closes(fd) => fd in l.others
  }

  function After(l: Life, m: Move, retry: bool): Life
    requires Possible(l, m)
  {
    match m
    case Begin(r) => l.Tried(r, retry)
    case Due(r) => l.Tried(r, retry)
    case Report(reported, revents) =>
      l.(phase := Handling, active := reported && l.attempt == Waiting, ready := ReadyEvents(revents))
    case Handle(sockError) => l.Handled(sockError)
    case EndHandling => l.(phase := Updating)
    case SwapTasks => l.(phase := Working)
    case ErrorTask => if retry then l.Rescheduled() else l.(attempt := Abandoned)
    case EndBatch => l.(phase := Polling)
    case LastReference => l.Destroyed()
    case Opens(fd) => l.(open := l.open + {fd}, others := l.others + {fd})
    case Closes(fd) => l.(open := l.open - {fd}, others := l.others - {fd})
  }

  /** A move that is not possible does not happen. */
  function Next(l: Life, m: Move, retry: bool): Life {
    if Possible(l, m) then After(l, m, retry) else l
  }

  /** The lives from birth through the moves. */
  ghost predicate IsRun(moves: seq<Move>, retry: bool, open: set<int>, lives: seq<Life>) {
    && |lives| == |moves| + 1 && lives[0] == Born(open)
    && forall i :: 0 <= i < |moves| ==> lives[i + 1] == Next(lives[i], moves[i], retry)
  }

  // What holds in every run.

  /** Every open descriptor has one owner; every descriptor created was closed, handed over, or is still owned; an error
      task is never left when the loop polls; and what the poller reported can be handled in one way only. */
  ghost predicate Ok(l: Life) {
    && (l.Owns() ==> l.fd >= 0 && l.fd !in l.others)
    && l.open == (if l.Owns() then l.others + {l.fd} else l.others)
    && l.created == l.closed + |l.handed| + (if l.Owns() then 1 else 0)
    && (if l.attempt == Succeeded then l.handed == [l.fd] else l.handed == [])
    && (l.attempt in {Unstarted, Scheduled, Waiting, Failing} ==> l.alive)
    && (l.attempt == Failing ==> l.phase != Polling)
    && (l.active ==> l.phase == Handling && l.attempt == Waiting && l.ready <= {WriteReady})
  }

  lemma NextOk(l: Life, m: Move, retry: bool)
    requires Ok(l)
    ensures Ok(Next(l, m, retry))
    ensures l.attempt == Succeeded ==> Next(l, m, retry).attempt == Succeeded
    ensures !l.alive ==> !Next(l, m, retry).alive
  {
    if Possible(l, m) {
      match m
      case Report(_, revents) =>
        if l.attempt == Waiting {
          WriteOnlyReady(revents);
        }
        hide ReadyEvents, Reportable;
      case _ =>
    }
  }

  lemma {:induction false} RunOk(moves: seq<Move>, retry: bool, open: set<int>, lives: seq<Life>, i: nat)
    requires IsRun(moves, retry, open, lives) && i < |lives|
    ensures Ok(lives[i])
  {
    if i > 0 {
      RunOk(moves, retry, open, lives, i - 1);
      hide Ok, Next;
      NextOk(lives[i - 1], moves[i - 1], retry);
    }
  }

  /** Descriptors in every run: the one that the connector still has is open and nobody else's, each one it created was
      closed once or handed over or is that one, at most one was handed over, and after its destruction none is left. */
  lemma OwnershipTheorem(moves: seq<Move>, retry: bool, open: set<int>, lives: seq<Life>, i: nat)
    requires IsRun(moves, retry, open, lives) && i < |lives|
    ensures var l := lives[i];
      && l.open == (if l.Owns() then l.others + {l.fd} else l.others) && (l.Owns() ==> l.fd !in l.others)
      && l.created == l.closed + |l.handed| + (if l.Owns() then 1 else 0)
      && |l.handed| <= 1 && (l.attempt == Succeeded <==> |l.handed| == 1)
      && (!l.alive ==> l.created == l.closed + |l.handed| && l.open == l.others)
  {
    RunOk(moves, retry, open, lives, i);
  }

  /** CONNECTED is final, and so is destruction. */
  lemma {:induction false} FinalTheorem(
    moves: seq<Move>, retry: bool, open: set<int>, lives: seq<Life>, i: nat, j: nat)
    requires IsRun(moves, retry, open, lives) && i <= j < |lives|
    ensures lives[i].attempt == Succeeded ==>
      lives[j].attempt == Succeeded && lives[j].handed == lives[i].handed && lives[j].created == lives[i].created
    ensures !lives[i].alive ==> !lives[j].alive
    decreases j
  {
    if i < j {
      FinalTheorem(moves, retry, open, lives, i, j - 1);
      RunOk(moves, retry, open, lives, j - 1);
      NextOk(lives[j - 1], moves[j - 1], retry);
      hide Reportable, ReadyEvents;
    }
  }

  /** An error task is run before the loop polls again, so a poll meets at most one attempt that waits for it. */
  lemma PollTheorem(moves: seq<Move>, retry: bool, open: set<int>, lives: seq<Life>, i: nat)
    requires IsRun(moves, retry, open, lives) && i < |lives|
    ensures lives[i].phase == Polling ==> lives[i].attempt != Failing
    ensures lives[i].active ==> lives[i].attempt == Waiting && ErrorReady !in lives[i].ready
  {
    RunOk(moves, retry, open, lives, i);
  }

  // Where a connect leads.

  /** What `connect` answers if the connection is still being made. */
  predicate InProgress(r: Reply) {
    !r.connected && (r.errno == EINTR || r.errno == EISCONN || r.errno == EINPROGRESS)
  }

  /** What `connect` answers if it should be tried again. */
  predicate Transient(r: Reply) {
    && !r.connected
    && (r.errno == EAGAIN || r.errno == ETIMEDOUT || r.errno == EADDRINUSE || r.errno == EADDRNOTAVAIL
        || r.errno == ECONNREFUSED || r.errno == ENETUNREACH)
  }

  /** Move `i` of the run is a connect with this answer, and it takes place. */
  ghost predicate Connects(moves: seq<Move>, lives: seq<Life>, i: nat, r: Reply) {
    i < |moves| && i < |lives| && (moves[i] == Begin(r) || moves[i] == Due(r)) && Possible(lives[i], moves[i])
  }

  /** Where each answer leads, in every run: a connection made is handed over; one in progress is waited for on the new
      descriptor, which stays open; a transient error closes the descriptor and schedules another connect, whatever
      `retry` says; any other leaves the descriptor to the destructor. */
  lemma ConnectTheorem(
    moves: seq<Move>, retry: bool, open: set<int>, lives: seq<Life>, i: nat, r: Reply)
    requires IsRun(moves, retry, open, lives) && Connects(moves, lives, i, r)
    ensures var l, l' := lives[i], lives[i + 1];
      && l'.created == l.created + 1
      && (r.connected ==> l'.attempt == Succeeded && l'.handed == [r.fd] && r.fd in l'.open && r.fd in l'.others)
      && (InProgress(r) && r.registers ==>
            l'.attempt == Waiting && l'.fd == r.fd && l'.Owns() && r.fd in l'.open && l'.closed == l.closed)
      && (InProgress(r) && !r.registers && retry ==>
            l'.attempt == Scheduled && r.fd !in l'.open && l'.closed == l.closed + 1)
      && (InProgress(r) && !r.registers && !retry ==>
            l'.attempt == Abandoned && l'.fd == r.fd && l'.Owns() && r.fd in l'.open && l'.closed == l.closed)
      && (Transient(r) ==> l'.attempt == Scheduled && r.fd !in l'.open && l'.closed == l.closed + 1)
      && (!r.connected && !InProgress(r) && !Transient(r) ==>
            l'.attempt == Abandoned && l'.fd == r.fd && l'.Owns() && r.fd in l'.open && l'.closed == l.closed)
  {
    RunOk(moves, retry, open, lives, i);
    RunOk(moves, retry, open, lives, i + 1);
  }

  /** A wait stays on its descriptor. */
  lemma {:induction false} WaitStays(
    moves: seq<Move>, retry: bool, open: set<int>, lives: seq<Life>, i: nat, j: nat)
    requires IsRun(moves, retry, open, lives) && i <= j < |lives|
    requires forall k :: i <= k <= j ==> lives[k].attempt == Waiting
    ensures lives[j].fd == lives[i].fd && lives[j].handed == lives[i].handed
    decreases j
  {
    if i < j {
      WaitStays(moves, retry, open, lives, i, j - 1);
      assert lives[j] == Next(lives[j - 1], moves[j - 1], retry);
      hide ReadyEvents, Reportable;
    }
  }

  /** The poller reports the connector at move `j`, writable, and its event is handled next. */
  ghost predicate Answered(moves: seq<Move>, lives: seq<Life>, j: nat, revents: set<Poll>, sockError: bool) {
    && j + 1 < |moves| && j + 1 < |lives|
    && moves[j] == Report(true, revents) && Possible(lives[j], moves[j]) && Out in revents
    && moves[j + 1] == Handle(sockError)
  }

  /** An asynchronous connect completes: the connector waits for an answer in progress, and when the poller reports it
      writable it hands its descriptor over, or queues the error task if the socket has an error. */
  lemma CompletionTheorem(
    moves: seq<Move>, retry: bool, open: set<int>, lives: seq<Life>, i: nat, r: Reply, j: nat, revents: set<Poll>,
    sockError: bool)
    requires IsRun(moves, retry, open, lives) && Connects(moves, lives, i, r) && InProgress(r) && r.registers
    requires i < j && Answered(moves, lives, j, revents, sockError)
    requires forall k :: i < k <= j ==> lives[k].attempt == Waiting
    ensures !sockError ==>
      lives[j + 2].attempt == Succeeded && lives[j + 2].handed == [r.fd] && r.fd in lives[j + 2].others
    ensures sockError ==> lives[j + 2].attempt == Failing && lives[j + 2].fd == r.fd && lives[j + 2].Owns()
  {
    ConnectTheorem(moves, retry, open, lives, i, r);
    WaitStays(moves, retry, open, lives, i + 1, j);
    RunOk(moves, retry, open, lives, j);
    RunOk(moves, retry, open, lives, j + 2);
    assert lives[j + 1] == Next(lives[j], moves[j], retry);
    assert lives[j + 2] == Next(lives[j + 1], moves[j + 1], retry);
    assert lives[j + 1].active && WriteReady in lives[j + 1].ready && lives[j + 1].fd == r.fd;
  }

  /** A failed wait ends in the error task: another connect is scheduled with the descriptor closed, or, if the
      connector does not retry, the descriptor is left to the destructor. */
  lemma ErrorTheorem(moves: seq<Move>, retry: bool, open: set<int>, lives: seq<Life>, i: nat)
    requires IsRun(moves, retry, open, lives) && i < |moves|
    requires lives[i].attempt == Failing && lives[i].phase == Working && moves[i] == ErrorTask
    ensures var l, l' := lives[i], lives[i + 1];
      && (retry ==> l'.attempt == Scheduled && l.fd !in l'.open && l'.closed == l.closed + 1)
      && (!retry ==> l'.attempt == Abandoned && l'.Owns() && l'.fd == l.fd && l.fd in l'.open && l'.closed == l.closed)
  {
    RunOk(moves, retry, open, lives, i);
    RunOk(moves, retry, open, lives, i + 1);
  }

  /** The error task is there when the loop works: from the failed wait it takes the end of the handling and the swap of
      the task list to get to it. */
  lemma TaskTheorem(moves: seq<Move>, retry: bool, open: set<int>, lives: seq<Life>, i: nat)
    requires IsRun(moves, retry, open, lives) && i + 1 < |moves|
    requires lives[i].attempt == Failing && lives[i].phase == Handling && !lives[i].active
    requires moves[i] == EndHandling && moves[i + 1] == SwapTasks
    ensures lives[i + 2].attempt == Failing && lives[i + 2].phase == Working && lives[i + 2].fd == lives[i].fd
  {
    assert lives[i + 1] == Next(lives[i], moves[i], retry);
    assert lives[i + 2] == Next(lives[i + 1], moves[i + 1], retry);
  }

  /** The connector is never stuck: in every run the loop can go on, and then an attempt that is due can be made on any
      descriptor that is not open. */
  lemma ConnectorProgress(moves: seq<Move>, retry: bool, open: set<int>, lives: seq<Life>, i: nat)
    requires IsRun(moves, retry, open, lives) && i < |lives|
    ensures var l := lives[i];
      && (l.phase == Updating ==> Possible(l, SwapTasks))
      && (l.phase == Working ==> Possible(l, if l.attempt == Failing then ErrorTask else EndBatch))
      && (l.phase == Polling ==> Possible(l, Report(true, {Out})) && Possible(l, Report(false, {})))
      && (l.phase == Handling ==> Possible(l, EndHandling) || forall sockError :: Possible(l, Handle(sockError)))
      && (forall r: Reply | r.fd >= 0 && r.fd !in l.open ::
            (l.attempt == Unstarted && l.phase == Working ==> Possible(l, Begin(r))) &&
            (l.attempt == Scheduled && l.phase == Updating ==> Possible(l, Due(r))))
  {
    RunOk(moves, retry, open, lives, i);
  }

  lemma Longer(moves: seq<Move>, retry: bool, open: set<int>, lives: seq<Life>, m: Move)
    returns (moves': seq<Move>, lives': seq<Life>)
    requires IsRun(moves, retry, open, lives)
    ensures IsRun(moves', retry, open, lives') && |moves'| == |moves| + 1
    ensures lives'[|moves'|] == Next(lives[|moves|], m, retry)
  {
    moves', lives' := moves + [m], lives + [Next(lives[|moves|], m, retry)];
    hide Next;
  }

  lemma RefusedRun(fd: int, retry: bool) returns (moves: seq<Move>, lives: seq<Life>)
    requires fd >= 0
    ensures IsRun(moves, retry, {}, lives)
    ensures lives[|moves|] == Born({}).(phase := Polling, attempt := Scheduled, created := 1, closed := 1)
  {
    moves, lives := [], [Born({})];
    moves, lives := Longer(moves, retry, {}, lives, SwapTasks);
    moves, lives := Longer(moves, retry, {}, lives, Begin(Reply(fd, false, ECONNREFUSED, true)));
    moves, lives := Longer(moves, retry, {}, lives, EndBatch);
    hide IsRun, Reportable, ReadyEvents;
  }

  lemma WaitingRun(fd: int, retry: bool) returns (moves: seq<Move>, lives: seq<Life>)
    requires fd >= 0
    ensures IsRun(moves, retry, {}, lives)
    ensures var l := lives[|moves|];
      l.phase == Polling && l.attempt == Waiting && l.fd == fd && l.created == 2 && l.closed == 1 && l.handed == []
      && l.others == {} && l.open == {fd}
  {
    moves, lives := RefusedRun(fd, retry);
    hide IsRun;
    moves, lives := Longer(moves, retry, {}, lives, Report(false, {}));
    moves, lives := Longer(moves, retry, {}, lives, EndHandling);
    moves, lives := Longer(moves, retry, {}, lives, Due(Reply(fd, false, EINPROGRESS, true)));
    moves, lives := Longer(moves, retry, {}, lives, SwapTasks);
    moves, lives := Longer(moves, retry, {}, lives, EndBatch);
    hide Reportable, ReadyEvents;
  }

  /** A run whose first connect is refused and whose second one is answered later. */
  lemma RetriedRun(fd: int, retry: bool) returns (moves: seq<Move>, lives: seq<Life>)
    requires fd >= 0
    ensures IsRun(moves, retry, {}, lives)
    ensures var l := lives[|moves|];
      l.attempt == Succeeded && l.handed == [fd] && l.created == 2 && l.closed == 1 && l.others == l.open == {fd}
  {
    moves, lives := WaitingRun(fd, retry);
    hide IsRun;
    moves, lives := Longer(moves, retry, {}, lives, Report(true, {Out}));
    assert ReadyEvents({Out}) == {WriteReady};
    moves, lives := Longer(moves, retry, {}, lives, Handle(false));
  }
}
