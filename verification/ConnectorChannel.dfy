/** ConnectorChannel: connect, wait for writability, retry, and hand the descriptor over to a SocketChannel.

    The class holds the connector together with what it shares: the loop's channel map, timers and task list, and the
    kernel's table of open descriptors. Each public method is one step of the loop thread or of somebody else. */
module Connectors {
  import opened ConnectorLives

  datatype ConnectionState = Disconnected | Connecting | Connected
  datatype Holder = Connector | Other

  class ConnectorChannel {
    var state: ConnectionState
    var sockFd: int
    var registered: bool
    const retry: bool
    var alive: bool
    var started: bool
    // of the loop
    var phase: Phase
    var channels: map<int, Holder>
    var timers: nat   // scheduled connects
    var pending: nat  // error tasks in the task list
    var batch: nat    // error tasks swapped out to run
    var active: bool  // among the channels that the last poll reported
    var ready: set<Ready>
    // of the kernel
    var open: set<int>
    var others: set<int> // owned by anybody but the connector
    var mask: set<Poll>  // registered for the connector
    // history
    var created: nat
    var closed: nat
    var handed: seq<int>

    predicate Owns()
      reads this
    {
      alive && state != Connected && sockFd >= 0
    }

    function CurrentAttempt(): Attempt
      reads this
    {
      if !started then Unstarted
      else if timers > 0 then Scheduled
      else if registered then if pending + batch > 0 then Failing else Waiting
      else if state == Connected then Succeeded
      else Abandoned
    }

    function View(): Life
      reads this
    {
      Life(CurrentAttempt(), phase, active, ready, alive, sockFd, open, others, created, closed, handed)
    }

    /** Every open descriptor has one owner, and only open descriptors are in the channel map. */
    ghost predicate Ownership()
      reads this
    {
      && (forall fd :: fd in open <==> fd in others || (Owns() && fd == sockFd))
      && (Owns() ==> sockFd !in others)
      && (forall fd <- open :: fd >= 0)
      && (forall fd <- channels :: if channels[fd] == Connector then registered && fd == sockFd else fd in others)
      && created == closed + |handed| + (if Owns() then 1 else 0)
      && |handed| == (if state == Connected then 1 else 0)
    }

    /** At most one attempt is outstanding. */
    ghost predicate OneAttempt()
      reads this
    {
      && timers + (if registered then 1 else 0) <= 1
      && (registered ==> alive && started && state == Connecting && sockFd >= 0 && mask == {Out})
      && (registered ==> sockFd in channels && channels[sockFd] == Connector)
      && (timers > 0 ==> alive && started && state == Disconnected && sockFd == INVALID_FD)
      && pending + batch <= 1
      && (pending + batch > 0 ==> registered)
      && (!started ==> alive && state == Disconnected && sockFd == INVALID_FD && created == 0)
      && sockFd >= INVALID_FD
    }

    /** An error task queued by an event handler runs before the next poll. */
    ghost predicate LoopOrder()
      reads this
    {
      && (pending > 0 ==> phase in {Handling, Updating})
      && (batch > 0 ==> phase == Working)
      && (active ==> phase == Handling && registered && pending == 0)
      && (active ==> ErrorReady !in ready || WriteReady !in ready)
    }

    ghost predicate Valid()
      reads this
    {
      Ownership() && OneAttempt() && LoopOrder()
    }

    constructor (retry: bool, open: set<int>, channels: set<int>)
      requires channels <= open && forall fd <- open :: fd >= 0
      ensures Valid() && View() == Born(open) && this.retry == retry
    {
      this.retry := retry;
      state, sockFd, registered, alive, started := Disconnected, INVALID_FD, false, true, false;
      phase, timers, pending, batch, active, ready := Updating, 0, 0, 0, false, {};
      this.channels := map fd | fd in channels :: Other;
      this.open, others, mask := open, open, {};
      created, closed, handed := 0, 0, [];
    }

    // The kernel and the loop. Preconditions here are what must never be violated.

    method CloseFd(fd: int)
      requires fd >= 0 ==> fd in open
      modifies this`open, this`closed
      ensures open == old(open) - {fd}
      ensures closed == old(closed) + if fd >= 0 then 1 else 0
    {
      if fd >= 0 {
        closed := closed + 1;
      }
      open := open - {fd};
    }

    method Register(fd: int, holder: Holder)
      requires fd in open && fd !in channels
      modifies this`channels
      ensures channels == old(channels)[fd := holder]
    {
      channels := channels[fd := holder];
    }

    method Deregister()
      requires registered && sockFd in channels
      modifies this`channels, this`registered
      ensures !registered && channels == old(channels) - {sockFd}
    {
      registered := false;
      channels := channels - {sockFd};
    }

    // The connector.

    /** Creates a socket, which overwrites no open descriptor, and connects it. */
    method Connect(r: Reply)
      requires Valid() && started && alive && state == Disconnected && sockFd == INVALID_FD && timers == 0
      requires r.fd >= 0 && r.fd !in open
      modifies this
      ensures Valid() && started && View() == old(View()).Tried(r, retry)
      ensures CurrentAttempt() == Waiting ==> channels == old(channels)[r.fd := Connector]
    {
      CreateSocket(r.fd);
      hide Valid;
      if r.connected {
        NewSocketChannel();
      } else {
        HandleConnectError(r);
      }
      assert old(open) + {r.fd} - {r.fd} == old(open);
    }

    method CreateSocket(fd: int)
      requires Valid() && started && alive && state == Disconnected && sockFd == INVALID_FD && timers == 0
      requires fd >= 0 && fd !in open
      modifies this`sockFd, this`open, this`created
      ensures Valid() && Owns()
      ensures View() == old(View()).(fd := fd, open := old(open) + {fd}, created := old(created) + 1)
    {
      sockFd := fd;
      open, created := open + {fd}, created + 1;
    }

    method HandleConnectError(r: Reply)
      requires Valid() && Owns() && state == Disconnected && !registered && timers == 0 && started && !r.connected
      modifies this
      ensures Valid() && started
      ensures View() == match Outcome(r, retry)
        case Scheduled => old(View()).Rescheduled()
        case next => old(View()).(attempt := next)
      ensures CurrentAttempt() == Waiting ==> channels == old(channels)[sockFd := Connector]
    {
      match r.errno
      case EINTR | EISCONN | EINPROGRESS => WaitConnect(r.registers);
      case Unexpected =>
      case _ => Reconnect();
    }

    /** Hands the descriptor over. The connector leaves the channel map before the new channel enters it. */
    method NewSocketChannel()
      requires Valid() && Owns() && timers == 0 && pending + batch == 0 && !active && started
      requires registered <==> state == Connecting
      modifies this
      ensures Valid() && started && View() == old(View()).HandedOver()
      ensures channels == old(channels)[sockFd := Other]
    {
      if state == Connecting {
        state := Connected;
        Deregister();
      } else {
        state := Connected;
      }
      others, handed := others + {sockFd}, handed + [sockFd];
      Register(sockFd, Other);
    }

    method WaitConnect(registers: bool)
      requires Valid() && Owns() && state == Disconnected && !registered && timers == 0 && started
      modifies this
      ensures Valid() && started
      ensures View() ==
        if registers then old(View()).(attempt := Waiting)
        else if retry then old(View()).Rescheduled() else old(View()).(attempt := Abandoned)
      ensures registers ==> channels == old(channels)[sockFd := Connector]
    {
      if registers {
        mask := {Out};
        Register(sockFd, Connector);
        registered := true;
        state := Connecting;
      } else if retry {
        Reconnect();
      }
    }

    /** Closes the descriptor and schedules the next connect. */
    method Reconnect()
      requires Valid() && Owns() && !registered && timers == 0 && started
      modifies this
      ensures Valid() && started && View() == old(View()).Rescheduled() && channels == old(channels)
    {
      state := Disconnected;
      CloseFd(sockFd);
      sockFd := INVALID_FD;
      timers := timers + 1;
    }

    /** Queues the task that gives up the descriptor. */
    method HandleErrorEvent()
      requires Valid() && registered && pending + batch == 0 && !active && phase == Handling
      modifies this`pending
      ensures Valid() && View() == old(View()).(attempt := Failing)
    {
      pending := pending + 1;
    }

    method HandleWriteEvent(sockError: bool)
      requires Valid() && phase == Handling && started
      requires state == Connecting ==> registered && pending + batch == 0 && !active
      modifies this
      ensures Valid() && started
      ensures View() ==
        if old(state) != Connecting then old(View())
        else if sockError then old(View()).(attempt := Failing) else old(View()).HandedOver()
    {
      if state != Connecting {
        return;
      }
      if sockError {
        HandleErrorEvent();
      } else {
        NewSocketChannel();
      }
    }

    // The steps of a run.

    /** The first connect, from a task. */
    method Start(r: Reply)
      requires Valid() && !started && phase == Working
      requires r.fd >= 0 && r.fd !in open
      modifies this
      ensures Valid() && View() == old(View()).Tried(r, retry)
    {
      started := true;
      Connect(r);
    }

    /** A scheduled connect comes due. */
    method FireTimer(r: Reply)
      requires Valid() && timers > 0 && phase == Updating
      requires r.fd >= 0 && r.fd !in open
      modifies this
      ensures Valid() && View() == old(View()).Tried(r, retry)
    {
      timers := timers - 1;
      Connect(r);
    }

    /** The poller reports the connector, if it is registered, with any reportable bits. */
    method PollReturns(reported: bool, revents: set<Poll>)
      requires Valid() && phase == Polling && (registered ==> Reportable(revents, {Out}))
      modifies this`phase, this`active, this`ready
      ensures Valid() && View() == After(old(View()), Report(reported, revents), retry)
      ensures active ==> ready <= {WriteReady}
    {
      if registered {
        WriteOnlyReady(revents);
      }
      hide ReadyEvents;
      phase := Handling;
      active := reported && registered;
      ready := ReadyEvents(revents);
    }

    method HandleEvent(sockError: bool)
      requires Valid() && active
      modifies this
      ensures Valid() && View() == old(View()).Handled(sockError)
    {
      active := false;
      if ErrorReady in ready {
        HandleErrorEvent();
      }
      if WriteReady in ready {
        HandleWriteEvent(sockError);
      }
    }

    method EndHandling()
      requires Valid() && phase == Handling && !active
      modifies this`phase
      ensures Valid() && View() == old(View()).(phase := Updating)
    {
      phase := Updating;
    }

    method SwapTasks()
      requires Valid() && phase == Updating
      modifies this`phase, this`pending, this`batch
      ensures Valid() && View() == old(View()).(phase := Working)
    {
      phase := Working;
      batch, pending := pending, batch;
    }

    /** The queued error task: it leaves the channel map and retries, or leaves the descriptor to the destructor. */
    method RunErrorTask()
      requires Valid() && batch > 0
      modifies this
      ensures Valid()
      ensures View() == if retry then old(View()).Rescheduled() else old(View()).(attempt := Abandoned)
      ensures old(sockFd) !in channels
    {
      batch := batch - 1;
      Deregister();
      if retry {
        Reconnect();
      }
    }

    method EndBatch()
      requires Valid() && phase == Working && batch == 0
      modifies this`phase
      ensures Valid() && View() == old(View()).(phase := Polling) && CurrentAttempt() != Failing
    {
      phase := Polling;
    }

    /** The last reference is gone: no timer, task or map entry holds the connector. Every descriptor it created is
        by now closed or handed over. */
    method Destroy()
      requires Valid() && alive && started && timers == 0 && !registered
      modifies this
      ensures Valid() && View() == old(View()).Destroyed()
      ensures created == closed + |handed| && open == others
    {
      if state != Connected {
        CloseFd(sockFd);
      }
      alive := false;
      assert old(open) - {-1} == old(open);
      assert forall fd :: fd in open <==> fd in others;
    }

    /** Somebody else opens a descriptor. */
    method OtherOpens(fd: int)
      requires Valid() && fd >= 0 && fd !in open
      modifies this`open, this`others
      ensures Valid() && View() == old(View()).(open := old(open) + {fd}, others := old(others) + {fd})
    {
      open, others := open + {fd}, others + {fd};
    }

    /** Somebody else, such as the SocketChannel, closes its descriptor, having left the channel map. */
    method OtherCloses(fd: int)
      requires Valid() && fd in others
      modifies this`open, this`others, this`channels
      ensures Valid() && View() == old(View()).(open := old(open) - {fd}, others := old(others) - {fd})
    {
      channels := channels - {fd};
      open, others := open - {fd}, others - {fd};
    }
  }
  /** Makes the move if it is possible now. */
  method TryMove(c: ConnectorChannel, m: Move)
    requires c.Valid()
    modifies c
    ensures c.Valid() && c.View() == Next(old(c.View()), m, c.retry)
  {
    hide ConnectorChannel.Ownership, ReadyEvents;
    match m
    case Begin(r) => if !c.started && c.phase == Working && r.fd >= 0 && r.fd !in c.open { c.Start(r); }
    case Due(r) => if c.timers > 0 && c.phase == Updating && r.fd >= 0 && r.fd !in c.open { c.FireTimer(r); }
    case Report(reported, revents) =>
      if c.phase == Polling && (c.registered ==> Reportable(revents, {Out})) { c.PollReturns(reported, revents); }
    case Handle(sockError) => if c.active { c.HandleEvent(sockError); }
    case EndHandling => if c.phase == Handling && !c.active { c.EndHandling(); }
    case SwapTasks => if c.phase == Updating { c.SwapTasks(); }
    case ErrorTask => if c.batch > 0 { c.RunErrorTask(); }
    case EndBatch => if c.phase == Working && c.batch == 0 { c.EndBatch(); }
    case LastReference => if c.alive && c.started && c.timers == 0 && !c.registered { c.Destroy(); }
    case Opens(fd) => if fd >= 0 && fd !in c.open { c.OtherOpens(fd); }
    case Closes(fd) => if fd in c.others { c.OtherCloses(fd); }
  }

  /** Any moves on a new connector are a run of its life: what holds of those lives holds of it. At most one attempt is
      outstanding, in the channel map, the timers and the task list together. */
  method AnyRun(retry: bool, open: set<int>, moves: seq<Move>) returns (c: ConnectorChannel, ghost lives: seq<Life>)
    requires forall fd <- open :: fd >= 0
    ensures fresh(c) && c.Valid()
    ensures ConnectorLives.IsRun(moves, retry, open, lives) && c.View() == lives[|moves|]
    ensures c.timers + (if c.registered then 1 else 0) <= 1 && c.pending + c.batch <= (if c.registered then 1 else 0)
  {
    c := new ConnectorChannel(retry, open, {});
    lives := [c.View()];
    for k := 0 to |moves|
      invariant fresh(c) && c.Valid() && c.retry == retry
      invariant |lives| == k + 1 && c.View() == lives[k] && lives[0] == Born(open)
      invariant forall i :: 0 <= i < k ==> lives[i + 1] == Next(lives[i], moves[i], retry)
    {
      hide Next, ConnectorChannel.Valid;
      TryMove(c, moves[k]);
      lives := lives + [c.View()];
    }
  }
}
