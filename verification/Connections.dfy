/** Connections as the event loop sees them: the timer queue with lazy deletion (Timer.cpp),
    the registration cache in front of epoll (Epoll.cpp, Channel.cpp) and the connection
    handlers that tie both together (HttpData.cpp). */
module Connections {
  import opened Prelude

  type Fd = nat
  type TimerId = nat

  const DEFAULT_EVENT := NOTHING.(input := true, edge := true, oneShot := true)
  const DEFAULT_EXPIRED_TIME: nat := 2000
  const DEFAULT_KEEP_ALIVE_TIME: nat := 300000
  const HALF_KEEP_ALIVE_TIME: nat := DEFAULT_KEEP_ALIVE_TIME / 2

  /** The clock of Timer.cpp: milliseconds since the last multiple of 10000 seconds. */
  const WINDOW: nat := 10_000_000

  function Clock(now: nat): nat {
    now % WINDOW
  }

  /** A queued timer: clear_request empties conn and sets deleted. */
  datatype Timer = Timer(deadline: nat, conn: Option<Fd>, deleted: bool)

  datatype Status = Connected | Disconnecting | Disconnected

  /** HttpData and its Channel: link is the weak timer_, last is last_events_, shut
      says that the write side was shut down. */
  datatype Conn = Conn(status: Status, isError: bool, keepAlive: bool, shut: bool, events: Mask, last: Mask,
                       link: Option<TimerId>)

  /** A registration in the kernel; a one-shot one is disarmed by the event it delivers. */
  datatype Entry = Entry(mask: Mask, armed: bool)

  /** channels and holders are the descriptors with a non-null fd_to_channel_ and
      fd_to_http_, made counts the timers ever made. */
  datatype Reactor = Reactor(conns: map<Fd, Conn>, timers: map<TimerId, Timer>, made: nat,
                             kernel: map<Fd, Entry>, channels: set<Fd>, holders: set<Fd>, now: nat)

  const Empty := Reactor(map[], map[], 0, map[], {}, {}, 0)

  // ---------------------------------------------------------------- timers

  /** timer_.lock(): the linked timer, if it is still queued. */
  function Locked(r: Reactor, fd: Fd): Option<TimerId>
    requires fd in r.conns
  {
    var link := r.conns[fd].link;
    if link.Some? && link.value in r.timers then link else None
  }

  predicate Holds(r: Reactor, t: TimerId, fd: Fd) {
    t in r.timers && r.timers[t].conn == Some(fd)
  }

  /** get_holder finds the connection alive: fd_to_http_ or a queued timer owns it. */
  predicate Owned(r: Reactor, fd: Fd) {
    fd in r.holders || exists t | t in r.timers :: Holds(r, t, fd)
  }

  function SetConn(r: Reactor, fd: Fd, c: Conn): Reactor {
    r.(conns := r.conns[fd := c])
  }

  /** seperate_timer: the linked timer is cleared where it stands in the queue. */
  function Separated(r: Reactor, fd: Fd): (s: Reactor)
    requires fd in r.conns
    ensures s.conns.Keys == r.conns.Keys && s.now == r.now
  {
    var t := Locked(r, fd);
    if t.None? then r
    else SetConn(r, fd, r.conns[fd].(link := None)).(
           timers := r.timers[t.value := r.timers[t.value].(conn := None, deleted := true)])
  }

  /** TimerPQueue::add_timer: the link is simply overwritten. */
  function TimerAdded(r: Reactor, fd: Fd, timeout: nat): (s: Reactor)
    requires fd in r.conns
    ensures s.conns.Keys == r.conns.Keys && s.now == r.now
  {
    SetConn(r, fd, r.conns[fd].(link := Some(r.made))).(
      timers := r.timers[r.made := Timer(Clock(r.now) + timeout, Some(fd), false)], made := r.made + 1)
  }

  // ---------------------------------------------------------------- epoll

  /** add_fd_in_epoll; the kernel refuses a descriptor it already has. */
  function FdAdded(r: Reactor, fd: Fd, timeout: nat): Reactor
    requires fd in r.conns
  {
    var r1 := if timeout > 0 then TimerAdded(r, fd, timeout).(holders := r.holders + {fd}) else r;
    var c := r1.conns[fd];
    var r2 := SetConn(r1, fd, c.(last := c.events));
    if fd in r.kernel then r2.(channels := r2.channels - {fd})
    else r2.(channels := r2.channels + {fd}, kernel := r2.kernel[fd := Entry(c.events, true)])
  }

  /** equal_and_update_last_events and the EPOLL_CTL_MOD behind it: no call when the mask is
      the last one; the kernel refuses a descriptor it does not have. Without skip the call
      is made every time. */
  function MaskPushed(r: Reactor, fd: Fd, skip: bool := true): (s: Reactor)
    requires fd in r.conns
    ensures s.conns.Keys == r.conns.Keys && s.now == r.now
  {
    var c := r.conns[fd];
    var r1 := SetConn(r, fd, c.(last := c.events));
    if skip && c.events == c.last then r1
    else if fd in r.kernel then r1.(kernel := r1.kernel[fd := Entry(c.events, true)])
    else r1.(channels := r1.channels - {fd})
  }

  /** Epoll::add_timer: nothing for a connection without an owner. */
  function TimerIfOwned(r: Reactor, fd: Fd, timeout: nat): (s: Reactor)
    requires fd in r.conns
    ensures s.conns.Keys == r.conns.Keys && s.now == r.now
  {
    if Owned(r, fd) then TimerAdded(r, fd, timeout) else r
  }

  /** modify_fd_in_epoll. */
  function FdModified(r: Reactor, fd: Fd, timeout: nat, skip: bool := true): (s: Reactor)
    requires fd in r.conns
    ensures s.conns.Keys == r.conns.Keys && s.now == r.now
  {
    MaskPushed(if timeout > 0 then TimerIfOwned(r, fd, timeout) else r, fd, skip)
  }

  /** delete_fd_in_epoll. */
  function FdDeleted(r: Reactor, fd: Fd): Reactor {
    r.(kernel := r.kernel - {fd}, channels := r.channels - {fd}, holders := r.holders - {fd})
  }

  // ---------------------------------------------------------------- connection handlers

  function Closed(r: Reactor, fd: Fd): (s: Reactor)
    requires fd in r.conns
    ensures s.conns.Keys == r.conns.Keys && s.now == r.now
  {
    FdDeleted(SetConn(r, fd, r.conns[fd].(status := Disconnected)), fd)
  }

  /** EventLoop::shutdown. */
  function WriteShut(r: Reactor, fd: Fd): (s: Reactor)
    requires fd in r.conns
    ensures s.conns.Keys == r.conns.Keys && s.now == r.now
  {
    SetConn(r, fd, r.conns[fd].(shut := true))
  }

  function ShutClosed(r: Reactor, fd: Fd): (s: Reactor)
    requires fd in r.conns
    ensures s.conns.Keys == r.conns.Keys && s.now == r.now
  {
    Closed(WriteShut(r, fd), fd)
  }

  function WithEvents(r: Reactor, fd: Fd, events: Mask): (s: Reactor)
    requires fd in r.conns
    ensures s.conns.Keys == r.conns.Keys && s.now == r.now
  {
    SetConn(r, fd, r.conns[fd].(events := events))
  }

  /** The mask handle_connect asks for when some event is wanted: reading waits for pending
      output. */
  function Wanted(events: Mask): Mask {
    (if events.input && events.output then NOTHING.(output := true) else events).(edge := true)
  }

  /** The new mask and update_poller. */
  function Updated(r: Reactor, fd: Fd, events: Mask, timeout: nat, skip: bool := true): (s: Reactor)
    requires fd in r.conns
    ensures s.conns.Keys == r.conns.Keys && s.now == r.now
  {
    FdModified(WithEvents(r, fd, events), fd, timeout, skip)
  }

  /** handle_connect. The keep-alive branch asks for EPOLLIN || EPOLLET, which is the bit 1,
      EPOLLIN. */
  function Reconnected(r: Reactor, fd: Fd, skip: bool := true): (s: Reactor)
    requires fd in r.conns
    ensures s.conns.Keys == r.conns.Keys && s.now == r.now
  {
    var r1 := Separated(r, fd);
    var c := r1.conns[fd];
    if !c.isError && c.status.Connected? then
      if c.events != NOTHING then
        Updated(r1, fd, Wanted(c.events), if c.keepAlive then DEFAULT_KEEP_ALIVE_TIME else DEFAULT_EXPIRED_TIME, skip)
      else if c.keepAlive then
        Updated(r1, fd, c.events.(input := true), DEFAULT_KEEP_ALIVE_TIME, skip)
      else
        Updated(ShutClosed(r1, fd), fd, c.events.(input := true, edge := true), HALF_KEEP_ALIVE_TIME, skip)
    else if !c.isError && c.status.Disconnected? && c.events.output then
      WithEvents(r1, fd, NOTHING.(output := true, edge := true))
    else Closed(r1, fd)
  }

  function Fresh(r: Reactor, fd: Fd): Reactor {
    SetConn(r, fd, Conn(Connected, false, false, false, DEFAULT_EVENT, NOTHING, None))
  }

  /** new_event on a fresh connection. */
  function Opened(r: Reactor, fd: Fd): Reactor {
    FdAdded(Fresh(r, fd), fd, DEFAULT_EXPIRED_TIME)
  }

  /** What one handle_read comes across: an error in reading, parsing or analysis; the end
      of the stream; a finished request, perhaps asking to be kept alive; output to write, a
      write that fails, and output left after it. */
  datatype Reading = Reading(refused: bool, gone: bool, finished: bool, keepAlive: bool,
                             pending: bool, writeFails: bool, unsent: bool)

  predicate ReadFails(c: Conn, o: Reading) {
    c.isError || o.refused || o.gone
  }

  predicate FailsAtLast(c: Conn, o: Reading) {
    ReadFails(c, o) || (o.pending && o.writeFails)
  }

  /** reset() is called. */
  predicate Resets(c: Conn, o: Reading) {
    !c.status.Disconnected? && !FailsAtLast(c, o) && o.finished
  }

  /** events_ after handle_write, if it was called. */
  function WriteEvents(c: Conn, o: Reading): Mask {
    if ReadFails(c, o) || !o.pending then c.events
    else
      var events := if o.writeFails then NOTHING else c.events;
      if o.unsent then events.(output := true) else events
  }

  /** The members handle_read sets; a closed connection only empties its buffer. */
  function AfterReading(c: Conn, o: Reading): Conn {
    if c.status.Disconnected? then c else
    c.(isError := FailsAtLast(c, o),
       status := if o.gone then Disconnected else c.status,
       keepAlive := !Resets(c, o) && (c.keepAlive || ((o.finished || o.refused) && o.keepAlive)),
       events := if FailsAtLast(c, o) || o.finished then WriteEvents(c, o) else WriteEvents(c, o).(input := true))
  }

  function ReadHandled(r: Reactor, fd: Fd, o: Reading): (s: Reactor)
    requires fd in r.conns
    ensures s.conns.Keys == r.conns.Keys && s.now == r.now
  {
    var r1 := if Resets(r.conns[fd], o) then Separated(r, fd) else r;
    SetConn(r1, fd, AfterReading(r1.conns[fd], o))
  }

  predicate Failed(revents: Mask) {
    (revents.hup && !revents.input) || revents.err
  }

  predicate Reads(revents: Mask) {
    revents.input || revents.pri || revents.rdhup
  }

  function AfterRead(r: Reactor, fd: Fd, revents: Mask, o: Reading): (s: Reactor)
    requires fd in r.conns
    ensures s.conns.Keys == r.conns.Keys && s.now == r.now
  {
    if Reads(revents) then ReadHandled(WithEvents(r, fd, NOTHING), fd, o) else WithEvents(r, fd, NOTHING)
  }

  /** Channel::handle_events. The write handler is bound to handle_connect. */
  function EventsHandled(r: Reactor, fd: Fd, revents: Mask, o: Reading, skip: bool := true): (s: Reactor)
    requires fd in r.conns
    ensures s.conns.Keys == r.conns.Keys && s.now == r.now
  {
    if Failed(revents) then WithEvents(r, fd, NOTHING) else
    var r1 := AfterRead(r, fd, revents, o);
    var r2 := if revents.output then Reconnected(r1, fd, skip) else r1;
    Reconnected(r2, fd, skip)
  }

  /** get_events_request for one reported descriptor. */
  function Reported(r: Reactor, fd: Fd): Reactor
    requires fd in r.conns && fd in r.kernel
  {
    var k := r.kernel[fd];
    var r1 := r.(kernel := r.kernel[fd := k.(armed := k.armed && !k.mask.oneShot)]);
    if fd in r.channels then WithEvents(r1, fd, NOTHING) else r1
  }

  // ---------------------------------------------------------------- expiry

  predicate IsTop(r: Reactor, t: TimerId) {
    t in r.timers && forall u :: u in r.timers ==> r.timers[t].deadline <= r.timers[u].deadline
  }

  predicate CanPop(r: Reactor, t: TimerId, now: nat) {
    IsTop(r, t) && (r.timers[t].deleted || Clock(now) >= r.timers[t].deadline)
  }

  function Dequeued(r: Reactor, t: TimerId): Reactor {
    r.(timers := r.timers - {t})
  }

  /** The top timer leaves the queue and is destroyed; a timer that still holds its
      connection closes it. */
  function Popped(r: Reactor, t: TimerId): Reactor
    requires t in r.timers
  {
    var r1 := Dequeued(r, t);
    if r.timers[t].conn.Some? && r.timers[t].conn.value in r.conns then Closed(r1, r.timers[t].conn.value) else r1
  }

  // ---------------------------------------------------------------- runs

  /** The descriptor is not in use: a new one, or one whose last connection is gone. */
  predicate IsFree(r: Reactor, fd: Fd) {
    fd in r.conns ==> !r.conns[fd].status.Connected? && !Owned(r, fd)
  }

  datatype Step =
    | Open(fd: Fd)
    | Report(fd: Fd)
    | Handle(fd: Fd, revents: Mask, reading: Reading)
    | Pop(t: TimerId)
    | Tick(ms: nat)

  predicate Enabled(r: Reactor, step: Step) {
    match step
    case Open(fd) => IsFree(r, fd)
    case Report(fd) => fd in r.conns && fd in r.kernel && r.kernel[fd].armed
    case Handle(fd, _, _) => fd in r.conns
    case Pop(t) => CanPop(r, t, r.now)
    case Tick(_) => true
  }

  function Next(r: Reactor, step: Step, skip: bool := true): Reactor
    requires Enabled(r, step)
  {
    match step
    case Open(fd) => Opened(r, fd)
    case Report(fd) => Reported(r, fd)
    case Handle(fd, revents, o) => EventsHandled(r, fd, revents, o, skip)
    case Pop(t) => Popped(r, t)
    case Tick(ms) => r.(now := r.now + ms)
  }

  /** A run; a step that is not enabled changes nothing. Without skip every mask update
      calls the kernel. */
  function Run(steps: seq<Step>, skip: bool := true): Reactor {
    if steps == [] then Empty else
    var r := Run(steps[..|steps| - 1], skip);
    if Enabled(r, steps[|steps| - 1]) then Next(r, steps[|steps| - 1], skip) else r
  }

  // ---------------------------------------------------------------- invariants

  /** A queued timer that holds a connection is the one the connection links to, and it is
      not marked deleted; a timer without a connection is. */
  ghost predicate TimersOk(r: Reactor) {
    && (forall t :: t in r.timers ==> t < r.made)
    && (forall t :: t in r.timers ==> (r.timers[t].deleted <==> r.timers[t].conn.None?))
    && (forall t :: t in r.timers && r.timers[t].conn.Some? ==>
          r.timers[t].conn.value in r.conns && r.conns[r.timers[t].conn.value].link == Some(t))
    && (forall fd :: fd in r.conns && r.conns[fd].link.Some? ==> r.conns[fd].link.value < r.made)
    && (forall fd :: fd in r.conns && Locked(r, fd).Some? ==> r.timers[Locked(r, fd).value].conn == Some(fd))
  }

  /** What the kernel has for a descriptor. */
  function Registered(r: Reactor, fd: Fd): Option<Entry> {
    if fd in r.kernel then Some(r.kernel[fd]) else None
  }

  /** A connected descriptor is registered and any other registered one is in error; the
      kernel mask is last_events_, and only a one-shot mask is ever disarmed; keep_alive_
      never outlives the request that set it, unless in error; and a connection shut down for
      writing is disconnected. */
  predicate Agrees(c: Conn, k: Option<Entry>) {
    && (c.status.Connected? ==> k.Some?)
    && (k.Some? ==>
          && (c.status.Connected? || c.isError)
          && k.value.mask == c.last
          && (!k.value.armed ==> c.last.oneShot))
    && (c.keepAlive ==> c.isError)
    && (c.shut ==> c.status.Disconnected?)
  }

  /** The registrations are those of the non-null channels and holders. */
  ghost predicate TablesOk(r: Reactor) {
    r.channels == r.kernel.Keys && r.holders == r.kernel.Keys && r.kernel.Keys <= r.conns.Keys
  }

  ghost predicate PollerOk(r: Reactor) {
    TablesOk(r) && forall fd :: fd in r.conns ==> Agrees(r.conns[fd], Registered(r, fd))
  }

  ghost predicate Inv(r: Reactor) {
    TimersOk(r) && PollerOk(r)
  }

  /** Between two steps: registered, and held by a timer, exactly while connected. */
  ghost predicate Settled(r: Reactor) {
    forall fd :: fd in r.conns ==>
      && (r.conns[fd].status.Connected? <==> fd in r.kernel)
      && (r.conns[fd].status.Connected? <==> Deadline(r, fd).Some?)
  }

  /** The one current deadline of a connection, if it has one. */
  function Deadline(r: Reactor, fd: Fd): Option<nat>
    requires fd in r.conns
  {
    if Locked(r, fd).Some? then Some(r.timers[Locked(r, fd).value].deadline) else None
  }

  /** Whatever was done concerned one connection only. */
  ghost predicate Touches(r: Reactor, s: Reactor, fd: Fd) {
    && s.conns.Keys == r.conns.Keys && s.now == r.now
    && forall g :: g in r.conns && g != fd ==>
         s.conns[g] == r.conns[g] && Registered(s, g) == Registered(r, g) && Deadline(s, g) == Deadline(r, g)
  }

  // ---------------------------------------------------------------- each operation keeps it

  /** The timer invariant speaks of the queue and the links only. */
  lemma TimersKept(r: Reactor, s: Reactor)
    requires TimersOk(r) && s.timers == r.timers && s.made == r.made && s.conns.Keys == r.conns.Keys
    requires forall fd :: fd in r.conns ==> s.conns[fd].link == r.conns[fd].link
    ensures TimersOk(s)
    ensures forall fd :: fd in r.conns ==> Locked(s, fd) == Locked(r, fd) && Deadline(s, fd) == Deadline(r, fd)
  {
    forall fd | fd in s.conns ensures Locked(s, fd) == Locked(r, fd) {
      assert fd in r.conns;
    }
  }

  /** The poller invariant is checked at the touched connection only. */
  lemma PollerKept(r: Reactor, s: Reactor, fd: Fd)
    requires PollerOk(r) && Touches(r, s, fd) && TablesOk(s) && fd in r.conns
    requires Agrees(s.conns[fd], Registered(s, fd))
    ensures PollerOk(s)
  {
    forall g | g in s.conns ensures Agrees(s.conns[g], Registered(s, g)) {
      assert g in r.conns;
    }
  }

  lemma TouchesBoth(r: Reactor, m: Reactor, s: Reactor, fd: Fd)
    requires Touches(r, m, fd) && Touches(m, s, fd)
    ensures Touches(r, s, fd)
  {
  }

  lemma SeparatedTimers(r: Reactor, fd: Fd)
    requires TimersOk(r) && fd in r.conns
    ensures var s := Separated(r, fd);
            TimersOk(s) && Touches(r, s, fd) && Locked(s, fd) == None
  {
  }

  lemma SeparatedOk(r: Reactor, fd: Fd)
    requires Inv(r) && fd in r.conns
    ensures var s := Separated(r, fd);
            && Inv(s) && Touches(r, s, fd) && Locked(s, fd) == None && s.kernel == r.kernel
            && s.conns[fd] == r.conns[fd].(link := s.conns[fd].link)
  {
    SeparatedTimers(r, fd);
    PollerKept(r, Separated(r, fd), fd);
  }

  /** Giving a connection other flags and another mask, nothing else. */
  lemma SetConnOk(r: Reactor, fd: Fd, c: Conn)
    requires Inv(r) && fd in r.conns && c.link == r.conns[fd].link && Agrees(c, Registered(r, fd))
    ensures var s := SetConn(r, fd, c);
            Inv(s) && Touches(r, s, fd) && Locked(s, fd) == Locked(r, fd)
  {
    TimersKept(r, SetConn(r, fd, c));
    PollerKept(r, SetConn(r, fd, c), fd);
  }

  lemma ClosedOk(r: Reactor, fd: Fd)
    requires Inv(r) && fd in r.conns
    ensures var s := Closed(r, fd);
            && Inv(s) && Touches(r, s, fd) && Locked(s, fd) == Locked(r, fd) && Deadline(s, fd) == Deadline(r, fd)
            && fd !in s.kernel && s.conns[fd] == r.conns[fd].(status := Disconnected)
  {
    TimersKept(r, Closed(r, fd));
    PollerKept(r, Closed(r, fd), fd);
  }

  lemma TimerAddedTimers(r: Reactor, fd: Fd, timeout: nat)
    requires TimersOk(r) && fd in r.conns && Locked(r, fd) == None
    ensures var s := TimerAdded(r, fd, timeout);
            && TimersOk(s) && Touches(r, s, fd) && Locked(s, fd) == Some(r.made)
            && Deadline(s, fd) == Some(Clock(r.now) + timeout)
  {
  }

  lemma TimerAddedOk(r: Reactor, fd: Fd, timeout: nat)
    requires Inv(r) && fd in r.conns && Locked(r, fd) == None
    ensures var s := TimerAdded(r, fd, timeout);
            && Inv(s) && Touches(r, s, fd) && Deadline(s, fd) == Some(Clock(r.now) + timeout)
  {
    TimerAddedTimers(r, fd, timeout);
    PollerKept(r, TimerAdded(r, fd, timeout), fd);
  }

  lemma MaskPushedTimers(r: Reactor, fd: Fd)
    requires TimersOk(r) && fd in r.conns
    ensures var s := MaskPushed(r, fd);
            TimersOk(s) && Touches(r, s, fd) && Locked(s, fd) == Locked(r, fd) && Deadline(s, fd) == Deadline(r, fd)
  {
    TimersKept(r, MaskPushed(r, fd));
  }

  /** After an update a registered descriptor is armed with exactly the mask asked for,
      although the call may have been skipped. */
  lemma MaskPushedOk(r: Reactor, fd: Fd)
    requires Inv(r) && fd in r.conns && !r.conns[fd].events.oneShot
    ensures var s := MaskPushed(r, fd);
            && Inv(s) && Touches(r, s, fd) && Deadline(s, fd) == Deadline(r, fd)
            && Registered(s, fd) == (if fd in r.kernel then Some(Entry(r.conns[fd].events, true)) else None)
            && s.conns[fd] == r.conns[fd].(last := r.conns[fd].events)
  {
    var s := MaskPushed(r, fd);
    MaskPushedTimers(r, fd);
    assert fd !in r.kernel ==> r.channels - {fd} == r.channels;
    PollerKept(r, s, fd);
  }

  /** Once its timer is cleared a connection is owned exactly while it is registered. */
  lemma OwnedIsRegistered(r: Reactor, fd: Fd)
    requires Inv(r) && fd in r.conns && Locked(r, fd) == None
    ensures Owned(r, fd) <==> fd in r.kernel
  {
    assert forall t :: t in r.timers && Holds(r, t, fd) ==> Locked(r, fd) == Some(t);
  }

  /** The mask is pushed and, if the connection is registered, it is held by one fresh timer;
      otherwise by none. */
  ghost predicate UpdatedTo(r: Reactor, s: Reactor, fd: Fd, events: Mask, timeout: nat)
    requires fd in r.conns
  {
    && Inv(s) && Touches(r, s, fd)
    && Deadline(s, fd) == (if fd in r.kernel then Some(Clock(r.now) + timeout) else None)
    && Registered(s, fd) == (if fd in r.kernel then Some(Entry(events, true)) else None)
    && s.conns[fd] == r.conns[fd].(events := events, last := events, link := s.conns[fd].link)
  }

  /** What is done to the mask or the link before an update does not matter. */
  lemma UpdatedAfter(r: Reactor, m: Reactor, s: Reactor, fd: Fd, events: Mask, timeout: nat)
    requires fd in r.conns && Touches(r, m, fd) && Registered(m, fd) == Registered(r, fd)
    requires var c := m.conns[fd]; c == r.conns[fd].(events := c.events, last := c.last, link := c.link)
    requires UpdatedTo(m, s, fd, events, timeout)
    ensures UpdatedTo(r, s, fd, events, timeout)
  {
    TouchesBoth(r, m, s, fd);
  }

  lemma HeldAndPushed(r: Reactor, fd: Fd, timeout: nat)
    requires Inv(r) && fd in r.kernel && fd in r.conns && Locked(r, fd) == None && !r.conns[fd].events.oneShot
    ensures UpdatedTo(r, MaskPushed(TimerAdded(r, fd, timeout), fd), fd, r.conns[fd].events, timeout)
  {
    var m := TimerAdded(r, fd, timeout);
    TimerAddedOk(r, fd, timeout);
    MaskPushedOk(m, fd);
    TouchesBoth(r, m, MaskPushed(m, fd), fd);
  }

  lemma FdModifiedOk(r: Reactor, fd: Fd, timeout: nat)
    requires Inv(r) && fd in r.conns && Locked(r, fd) == None && timeout > 0 && !r.conns[fd].events.oneShot
    ensures UpdatedTo(r, FdModified(r, fd, timeout), fd, r.conns[fd].events, timeout)
  {
    OwnedIsRegistered(r, fd);
    if fd in r.kernel {
      HeldAndPushed(r, fd, timeout);
    } else {
      MaskPushedOk(r, fd);
    }
  }

  lemma FreshTimers(r: Reactor, fd: Fd)
    requires TimersOk(r) && IsFree(r, fd)
    ensures TimersOk(Fresh(r, fd)) && Locked(Fresh(r, fd), fd) == None
    ensures forall g :: g in r.conns && g != fd ==> Deadline(Fresh(r, fd), g) == Deadline(r, g)
  {
    assert forall t :: t in r.timers ==> !Holds(r, t, fd);
  }

  lemma FdAddedTimers(r: Reactor, fd: Fd, timeout: nat)
    requires TimersOk(r) && fd in r.conns && Locked(r, fd) == None && timeout > 0
    ensures var s := FdAdded(r, fd, timeout);
            && TimersOk(s) && s.conns.Keys == r.conns.Keys && Deadline(s, fd) == Some(Clock(r.now) + timeout)
            && forall g :: g in r.conns && g != fd ==> Deadline(s, g) == Deadline(r, g)
  {
    TimerAddedTimers(r, fd, timeout);
    TimersKept(TimerAdded(r, fd, timeout), FdAdded(r, fd, timeout));
  }

  lemma OpenedTimers(r: Reactor, fd: Fd)
    requires TimersOk(r) && IsFree(r, fd)
    ensures var s := Opened(r, fd);
            && TimersOk(s) && Deadline(s, fd) == Some(Clock(r.now) + DEFAULT_EXPIRED_TIME)
            && forall g :: g in r.conns && g != fd ==> Deadline(s, g) == Deadline(r, g)
  {
    FreshTimers(r, fd);
    FdAddedTimers(Fresh(r, fd), fd, DEFAULT_EXPIRED_TIME);
  }

  lemma OpenedOk(r: Reactor, fd: Fd)
    requires Inv(r) && IsFree(r, fd)
    ensures var s := Opened(r, fd);
            && Inv(s) && s.conns.Keys == r.conns.Keys + {fd}
            && Deadline(s, fd) == Some(Clock(r.now) + DEFAULT_EXPIRED_TIME)
            && Registered(s, fd) == Some(Entry(DEFAULT_EVENT, true))
            && s.conns[fd].status.Connected? && !s.conns[fd].isError && !s.conns[fd].keepAlive && !s.conns[fd].shut
            && forall g :: g in r.conns && g != fd ==> Unmoved(r, s, g)
  {
    OpenedTimers(r, fd);
    var s := Opened(r, fd);
    forall g | g in s.conns ensures Agrees(s.conns[g], Registered(s, g)) {
      assert g == fd || Registered(s, g) == Registered(r, g);
    }
  }

  lemma UpdatedOk(r: Reactor, fd: Fd, events: Mask, timeout: nat)
    requires Inv(r) && fd in r.conns && Locked(r, fd) == None && timeout > 0 && !events.oneShot
    ensures UpdatedTo(r, Updated(r, fd, events, timeout), fd, events, timeout)
  {
    var m := WithEvents(r, fd, events);
    SetConnOk(r, fd, r.conns[fd].(events := events));
    FdModifiedOk(m, fd, timeout);
    UpdatedAfter(r, m, FdModified(m, fd, timeout), fd, events, timeout);
  }

  lemma SeparatedUpdated(r: Reactor, fd: Fd, events: Mask, timeout: nat)
    requires Inv(r) && fd in r.conns && timeout > 0 && !events.oneShot
    ensures UpdatedTo(r, Updated(Separated(r, fd), fd, events, timeout), fd, events, timeout)
  {
    SeparatedOk(r, fd);
    var m := Separated(r, fd);
    UpdatedOk(m, fd, events, timeout);
    UpdatedAfter(r, m, Updated(m, fd, events, timeout), fd, events, timeout);
  }

  lemma ShutClosedOk(r: Reactor, fd: Fd)
    requires Inv(r) && fd in r.conns
    ensures var s := ShutClosed(r, fd);
            && Inv(s) && Touches(r, s, fd) && Locked(s, fd) == Locked(r, fd) && fd !in s.kernel
            && s.conns[fd] == r.conns[fd].(status := Disconnected, shut := true)
  {
    var m := Closed(r, fd);
    ClosedOk(r, fd);
    SetConnOk(m, fd, m.conns[fd].(shut := true));
    TouchesBoth(r, m, WriteShut(m, fd), fd);
    ShutCommutes(r, fd);
  }

  lemma ShutCommutes(r: Reactor, fd: Fd)
    requires fd in r.conns
    ensures ShutClosed(r, fd) == WriteShut(Closed(r, fd), fd)
  {
    var m := Closed(r, fd);
    assert r.conns[fd := r.conns[fd].(shut := true)][fd := r.conns[fd].(status := Disconnected, shut := true)]
        == m.conns[fd := m.conns[fd].(shut := true)];
  }

  lemma ShutClosedUpdated(r: Reactor, fd: Fd, events: Mask, timeout: nat)
    requires Inv(r) && fd in r.conns && Locked(r, fd) == None && timeout > 0 && !events.oneShot
    ensures var s := Updated(ShutClosed(r, fd), fd, events, timeout);
            && Inv(s) && Touches(r, s, fd) && Registered(s, fd) == None && Deadline(s, fd) == None
            && s.conns[fd].status.Disconnected? && s.conns[fd].shut && s.conns[fd].events == events
  {
    ShutClosedOk(r, fd);
    var m := ShutClosed(r, fd);
    UpdatedOk(m, fd, events, timeout);
    TouchesBoth(r, m, Updated(m, fd, events, timeout), fd);
  }

  lemma SeparatedClosed(r: Reactor, fd: Fd)
    requires Inv(r) && fd in r.conns
    ensures var s := Closed(Separated(r, fd), fd);
            && Inv(s) && Touches(r, s, fd) && Registered(s, fd) == None && Deadline(s, fd) == None
            && s.conns[fd].status.Disconnected? && s.conns[fd].events == r.conns[fd].events
  {
    SeparatedOk(r, fd);
    var m := Separated(r, fd);
    ClosedOk(m, fd);
    TouchesBoth(r, m, Closed(m, fd), fd);
  }

  lemma SeparatedShutUpdated(r: Reactor, fd: Fd, events: Mask, timeout: nat)
    requires Inv(r) && fd in r.conns && timeout > 0 && !events.oneShot
    ensures var s := Updated(ShutClosed(Separated(r, fd), fd), fd, events, timeout);
            && Inv(s) && Touches(r, s, fd) && Registered(s, fd) == None && Deadline(s, fd) == None
            && s.conns[fd].status.Disconnected? && s.conns[fd].shut && s.conns[fd].events == events
  {
    SeparatedOk(r, fd);
    var m := Separated(r, fd);
    ShutClosedUpdated(m, fd, events, timeout);
    TouchesBoth(r, m, Updated(ShutClosed(m, fd), fd, events, timeout), fd);
  }

  /** A connection that stays is registered, armed with the given mask, and held by a timer
      that runs out DEFAULT_EXPIRED_TIME after the clock reading; one that does not stay is
      neither registered nor held. */
  ghost predicate Settles(s: Reactor, fd: Fd, stays: bool, mask: Mask)
    requires fd in s.conns
  {
    && (s.conns[fd].status.Connected? <==> stays)
    && (stays ==> !s.conns[fd].isError && Registered(s, fd) == Some(Entry(mask, true))
                  && Deadline(s, fd) == Some(Clock(s.now) + DEFAULT_EXPIRED_TIME))
    && (!stays ==> Registered(s, fd) == None && Deadline(s, fd) == None)
  }

  lemma UpdatedSettles(r: Reactor, s: Reactor, fd: Fd, events: Mask)
    requires Inv(r) && fd in r.conns && r.conns[fd].status.Connected? && !r.conns[fd].isError
    requires UpdatedTo(r, s, fd, events, DEFAULT_EXPIRED_TIME)
    ensures s.conns[fd].events == events && Settles(s, fd, true, events)
  {
    assert Agrees(r.conns[fd], Registered(r, fd));
  }

  /** Some event is wanted: armed with exactly that mask, and held by one fresh timer. */
  lemma ReconnectedStays(r: Reactor, fd: Fd)
    requires Inv(r) && fd in r.conns && !r.conns[fd].events.oneShot && Stays(r.conns[fd])
    ensures var s := Reconnected(r, fd); var events := Wanted(r.conns[fd].events);
            && Inv(s) && Touches(r, s, fd) && s.conns[fd].events == events && Settles(s, fd, true, events)
  {
    SeparatedUpdated(r, fd, Wanted(r.conns[fd].events), DEFAULT_EXPIRED_TIME);
    UpdatedSettles(r, Reconnected(r, fd), fd, Wanted(r.conns[fd].events));
  }

  lemma ReconnectsIdle(r: Reactor, fd: Fd)
    requires fd in r.conns
    requires var c := r.conns[fd]; c.status.Connected? && !c.isError && c.events == NOTHING && !c.keepAlive
    ensures Reconnected(r, fd)
         == Updated(ShutClosed(Separated(r, fd), fd), fd, r.conns[fd].events.(input := true, edge := true),
                    HALF_KEEP_ALIVE_TIME)
  {
  }

  /** Nothing is wanted: shut down for writing and closed, and the timer meant to linger for half
      the keep-alive time is never made, since by then nothing owns the connection. */
  lemma ReconnectedIdle(r: Reactor, fd: Fd)
    requires Inv(r) && fd in r.conns && !r.conns[fd].events.oneShot
    requires var c := r.conns[fd]; c.status.Connected? && !c.isError && c.events == NOTHING
    ensures var s := Reconnected(r, fd);
            && Inv(s) && Touches(r, s, fd) && Registered(s, fd) == None && Deadline(s, fd) == None && !Owned(s, fd)
            && s.conns[fd].status.Disconnected? && s.conns[fd].shut && !s.conns[fd].events.oneShot
  {
    assert !r.conns[fd].keepAlive by { assert Agrees(r.conns[fd], Registered(r, fd)); }
    ReconnectsIdle(r, fd);
    SeparatedShutUpdated(r, fd, r.conns[fd].events.(input := true, edge := true), HALF_KEEP_ALIVE_TIME);
    OwnedIsRegistered(Reconnected(r, fd), fd);
  }

  lemma ReconnectedGone(r: Reactor, fd: Fd)
    requires Inv(r) && fd in r.conns && !r.conns[fd].events.oneShot
    requires r.conns[fd].isError || !r.conns[fd].status.Connected?
    ensures var s := Reconnected(r, fd);
            && Inv(s) && Touches(r, s, fd) && Registered(s, fd) == None && Deadline(s, fd) == None
            && s.conns[fd].status.Disconnected? && !s.conns[fd].events.oneShot
  {
    var c := r.conns[fd];
    if !c.isError && c.status.Disconnected? && c.events.output {
      SeparatedOk(r, fd);
      var m := Separated(r, fd);
      SetConnOk(m, fd, m.conns[fd].(events := NOTHING.(output := true, edge := true)));
      TouchesBoth(r, m, WithEvents(m, fd, NOTHING.(output := true, edge := true)), fd);
    } else {
      SeparatedClosed(r, fd);
    }
  }

  predicate Stays(c: Conn) {
    c.status.Connected? && !c.isError && c.events != NOTHING
  }

  lemma ReconnectedLeaves(r: Reactor, fd: Fd)
    requires Inv(r) && fd in r.conns && !r.conns[fd].events.oneShot && !Stays(r.conns[fd])
    ensures var s := Reconnected(r, fd);
            && Inv(s) && Touches(r, s, fd) && Registered(s, fd) == None && Deadline(s, fd) == None
            && s.conns[fd].status.Disconnected? && !s.conns[fd].events.oneShot
  {
    if r.conns[fd].isError || !r.conns[fd].status.Connected? {
      ReconnectedGone(r, fd);
    } else {
      ReconnectedIdle(r, fd);
    }
  }

  lemma LeavesSettled(r: Reactor, fd: Fd)
    requires Inv(r) && fd in r.conns && !r.conns[fd].events.oneShot && !Stays(r.conns[fd])
    ensures var s := Reconnected(r, fd);
            && Inv(s) && Touches(r, s, fd) && !s.conns[fd].events.oneShot
            && Settles(s, fd, false, Wanted(r.conns[fd].events))
  {
    ReconnectedLeaves(r, fd);
  }

  lemma ReconnectedOk(r: Reactor, fd: Fd)
    requires Inv(r) && fd in r.conns && !r.conns[fd].events.oneShot
    ensures var s := Reconnected(r, fd); var c := r.conns[fd];
            && Inv(s) && Touches(r, s, fd) && !s.conns[fd].events.oneShot
            && Settles(s, fd, Stays(c), Wanted(c.events))
            && (Stays(c) ==> s.conns[fd].events == Wanted(c.events))
  {
    if Stays(r.conns[fd]) {
      ReconnectedStays(r, fd);
    } else {
      LeavesSettled(r, fd);
    }
  }

  lemma AfterReadingAgrees(c: Conn, k: Option<Entry>, o: Reading)
    requires Agrees(c, k)
    ensures var d := AfterReading(c, o);
            Agrees(d, k) && d.link == c.link && d.last == c.last && (d.events.oneShot ==> c.events.oneShot)
  {
  }

  lemma ReadHandledOk(r: Reactor, fd: Fd, o: Reading)
    requires Inv(r) && fd in r.conns && !r.conns[fd].events.oneShot
    ensures var s := ReadHandled(r, fd, o); var c := r.conns[fd];
            && Inv(s) && Touches(r, s, fd) && !s.conns[fd].events.oneShot
            && s.conns[fd] == AfterReading(c, o).(link := s.conns[fd].link)
  {
    var r1 := if Resets(r.conns[fd], o) then Separated(r, fd) else r;
    if Resets(r.conns[fd], o) { SeparatedOk(r, fd); }
    AfterReadingAgrees(r1.conns[fd], Registered(r1, fd), o);
    SetConnOk(r1, fd, AfterReading(r1.conns[fd], o));
  }

  /** The events asked for after a handle_read without errors. */
  function Asked(o: Reading): Mask {
    NOTHING.(input := !o.finished, output := o.pending && o.unsent)
  }

  /** The connection outlives its events exactly when the read handler ran without an error
      and either the request is still incomplete or some of its response is unsent. */
  predicate Survives(c: Conn, revents: Mask, o: Reading) {
    c.status.Connected? && Reads(revents) && !FailsAtLast(c, o) && Asked(o) != NOTHING
  }

  /** Running handle_connect twice, as a report with EPOLLOUT does, settles to the same; when
      the first call closes the connection nothing owns it any more. */
  lemma ReconnectedTwice(r: Reactor, fd: Fd)
    requires Inv(r) && fd in r.conns && !r.conns[fd].events.oneShot
    ensures var m := Reconnected(r, fd); var s := Reconnected(m, fd); var c := r.conns[fd];
            && Inv(s) && Touches(r, s, fd) && Settles(s, fd, Stays(c), Wanted(c.events))
            && (Owned(m, fd) <==> Stays(c))
  {
    ReconnectedOk(r, fd);
    var m := Reconnected(r, fd);
    ReconnectedOk(m, fd);
    TouchesBoth(r, m, Reconnected(m, fd), fd);
    if !Stays(r.conns[fd]) {
      OwnedIsRegistered(m, fd);
    }
  }

  lemma AfterReadingStays(c: Conn, o: Reading)
    requires c.events == NOTHING
    ensures var d := AfterReading(c, o);
            && (Stays(d) <==> c.status.Connected? && !FailsAtLast(c, o) && Asked(o) != NOTHING)
            && (Stays(d) ==> d.events == Asked(o))
  {
  }

  lemma AfterReadOk(r: Reactor, fd: Fd, revents: Mask, o: Reading)
    requires Inv(r) && fd in r.conns
    ensures var s := AfterRead(r, fd, revents, o); var d := s.conns[fd];
            && Inv(s) && Touches(r, s, fd) && !d.events.oneShot
            && (Stays(d) <==> Survives(r.conns[fd], revents, o)) && (Stays(d) ==> d.events == Asked(o))
  {
    var m := WithEvents(r, fd, NOTHING);
    SetConnOk(r, fd, r.conns[fd].(events := NOTHING));
    if Reads(revents) {
      ReadHandledOk(m, fd, o);
      AfterReadingStays(m.conns[fd], o);
      TouchesBoth(r, m, ReadHandled(m, fd, o), fd);
    }
  }

  lemma EventsHandledOk(r: Reactor, fd: Fd, revents: Mask, o: Reading)
    requires Inv(r) && fd in r.conns && !Failed(revents)
    ensures var s := EventsHandled(r, fd, revents, o);
            Inv(s) && Touches(r, s, fd) && Settles(s, fd, Survives(r.conns[fd], revents, o), Wanted(Asked(o)))
  {
    AfterReadOk(r, fd, revents, o);
    var r1 := AfterRead(r, fd, revents, o);
    if revents.output {
      ReconnectedTwice(r1, fd);
    } else {
      ReconnectedOk(r1, fd);
    }
  }

  // ---------------------------------------------------------------- what the handlers leave, bit by bit

  /** Edge-triggered, with these two events and no other bit. */
  predicate AsksFor(mask: Mask, input: bool, output: bool) {
    && mask.edge && mask.input == input && mask.output == output
    && !mask.pri && !mask.err && !mask.hup && !mask.rdhup && !mask.oneShot
  }

  /** Registered, armed for the given events alone, and due 2000 ms from now. */
  predicate ArmedFor(s: Reactor, fd: Fd, input: bool, output: bool)
    requires fd in s.conns
  {
    && s.conns[fd].status.Connected? && !s.conns[fd].isError
    && fd in s.kernel && s.kernel[fd].armed && AsksFor(s.kernel[fd].mask, input, output)
    && Deadline(s, fd) == Some(Clock(s.now) + 2000)
  }

  /** Disconnected, with neither registration nor channel, holder or timer. */
  ghost predicate Gone(s: Reactor, fd: Fd)
    requires fd in s.conns
  {
    && s.conns[fd].status.Disconnected? && fd !in s.kernel && fd !in s.channels && fd !in s.holders
    && Deadline(s, fd) == None
  }

  /** What handle_connect leaves of a connection for which input and output are wanted or
      nothing is: waiting for output, or else for input, or gone. */
  ghost predicate ConnectedRightly(r: Reactor, s: Reactor, fd: Fd)
    requires fd in r.conns && fd in s.conns
  {
    var c := r.conns[fd];
    if c.isError || !c.status.Connected? || !(c.events.input || c.events.output) then Gone(s, fd)
    else ArmedFor(s, fd, c.events.input && !c.events.output, c.events.output)
  }

  /** Only the bits the handlers set. */
  predicate InOrOut(events: Mask) {
    events == NOTHING.(input := events.input, output := events.output)
  }

  lemma GoneWhenUnregistered(s: Reactor, fd: Fd)
    requires Inv(s) && fd in s.conns && Registered(s, fd) == None && Deadline(s, fd) == None
    requires s.conns[fd].status.Disconnected?
    ensures Gone(s, fd)
  {
  }

  lemma ConnectsRightly(r: Reactor, fd: Fd)
    requires Inv(r) && fd in r.conns && InOrOut(r.conns[fd].events)
    ensures ConnectedRightly(r, Reconnected(r, fd), fd)
  {
    if Stays(r.conns[fd]) {
      ReconnectedStays(r, fd);
    } else {
      ReconnectedLeaves(r, fd);
      GoneWhenUnregistered(Reconnected(r, fd), fd);
    }
  }

  lemma PushedTimers(r: Reactor, fd: Fd)
    requires TimersOk(r) && fd in r.conns
    ensures var s := MaskPushed(r, fd);
            TimersOk(s) && Deadline(s, fd) == Deadline(r, fd) && s.conns[fd] == r.conns[fd].(last := r.conns[fd].events)
  {
    MaskPushedTimers(r, fd);
  }

  lemma AddedAndPushed(r: Reactor, fd: Fd, timeout: nat)
    requires TimersOk(r) && fd in r.conns && Locked(r, fd) == None
    ensures var s := MaskPushed(TimerAdded(r, fd, timeout), fd);
            && Deadline(s, fd) == Some(Clock(r.now) + timeout)
            && s.conns[fd].events == s.conns[fd].last == r.conns[fd].events
  {
    TimerAddedTimers(r, fd, timeout);
    PushedTimers(TimerAdded(r, fd, timeout), fd);
  }

  lemma UpdatedIs(r: Reactor, fd: Fd, events: Mask, timeout: nat)
    requires fd in r.conns && fd in r.holders && timeout > 0
    ensures Updated(r, fd, events, timeout) == MaskPushed(TimerAdded(WithEvents(r, fd, events), fd, timeout), fd)
  {
  }

  lemma UpdatedTimers(r: Reactor, fd: Fd, events: Mask, timeout: nat)
    requires TimersOk(r) && fd in r.conns && fd in r.holders && Locked(r, fd) == None && timeout > 0
    ensures var s := Updated(r, fd, events, timeout);
            && Deadline(s, fd) == Some(Clock(r.now) + timeout)
            && s.conns[fd].events == events == s.conns[fd].last
  {
    var m := WithEvents(r, fd, events);
    assert TimersOk(m) && Locked(m, fd) == None by { TimersKept(r, m); }
    AddedAndPushed(m, fd, timeout);
    UpdatedIs(r, fd, events, timeout);
  }

  lemma ReconnectsKept(r: Reactor, fd: Fd)
    requires fd in r.conns
    requires var c := r.conns[fd]; c.status.Connected? && !c.isError && c.keepAlive
    ensures var events := r.conns[fd].events;
            Reconnected(r, fd)
            == Updated(Separated(r, fd), fd, if events != NOTHING then Wanted(events) else events.(input := true),
                       300000)
  {
  }

  /** A connection to be kept alive gets 300000 ms, with the mask wanted, or, when no event is
      wanted, with EPOLLIN alone, not even edge-triggered: that is what EPOLLIN || EPOLLET is. */
  lemma KeptAlive(r: Reactor, fd: Fd)
    requires TimersOk(r) && fd in r.conns && fd in r.holders && InOrOut(r.conns[fd].events)
    requires var c := r.conns[fd]; c.status.Connected? && !c.isError && c.keepAlive
    ensures var s := Reconnected(r, fd); var events := r.conns[fd].events; var mask := s.conns[fd].events;
            && Deadline(s, fd) == Some(Clock(r.now) + 300000) && s.conns[fd].last == mask
            && mask.output == events.output && mask.input == !events.output
            && mask == NOTHING.(input := mask.input, output := mask.output, edge := events.input || events.output)
  {
    var events := r.conns[fd].events;
    var m := Separated(r, fd);
    assert TimersOk(m) && Locked(m, fd) == None by { SeparatedTimers(r, fd); }
    ReconnectsKept(r, fd);
    UpdatedTimers(m, fd, if events != NOTHING then Wanted(events) else events.(input := true), 300000);
  }

  /** A timer in the queue alone keeps its connection alive. */
  lemma HeldIsOwned(r: Reactor, fd: Fd)
    requires TimersOk(r) && fd in r.conns && Deadline(r, fd).Some?
    ensures Owned(r, fd) && Owned(r.(holders := {}), fd)
  {
    assert Holds(r, Locked(r, fd).value, fd) && Holds(r.(holders := {}), Locked(r, fd).value, fd);
  }

  /** A registration the kernel refuses costs the channel: adding what it has, changing what it
      has not. */
  lemma RefusedDropsChannel(r: Reactor, fd: Fd, timeout: nat)
    requires fd in r.conns
    ensures fd in r.kernel ==> fd !in FdAdded(r, fd, timeout).channels && FdAdded(r, fd, timeout).kernel == r.kernel
    ensures fd !in r.kernel && r.conns[fd].events != r.conns[fd].last ==>
              fd !in MaskPushed(r, fd).channels && MaskPushed(r, fd).kernel == r.kernel
    ensures fd !in r.kernel && r.conns[fd].events == r.conns[fd].last ==> MaskPushed(r, fd).channels == r.channels
  {
  }

  /** Each handle_connect that keeps the connection makes one timer; so a report with EPOLLOUT,
      which runs it twice, makes two. */
  lemma ReconnectedMakes(r: Reactor, fd: Fd)
    requires Inv(r) && fd in r.conns && !r.conns[fd].events.oneShot && Stays(r.conns[fd])
    ensures Reconnected(r, fd).made == r.made + 1
  {
    SeparatedOk(r, fd);
    var m := Separated(r, fd);
    OwnedIsRegistered(m, fd);
    assert Agrees(r.conns[fd], Registered(r, fd));
  }

  lemma AfterReadMakes(r: Reactor, fd: Fd, revents: Mask, o: Reading)
    requires fd in r.conns
    ensures AfterRead(r, fd, revents, o).made == r.made
  {
  }

  lemma HandledMakes(r: Reactor, fd: Fd, revents: Mask, o: Reading)
    requires Inv(r) && fd in r.conns && !Failed(revents) && Survives(r.conns[fd], revents, o)
    ensures EventsHandled(r, fd, revents, o).made == r.made + if revents.output then 2 else 1
  {
    AfterReadOk(r, fd, revents, o);
    AfterReadMakes(r, fd, revents, o);
    var r1 := AfterRead(r, fd, revents, o);
    ReconnectedMakes(r1, fd);
    if revents.output {
      ReconnectedStays(r1, fd);
      ReconnectedMakes(Reconnected(r1, fd), fd);
    }
  }

  /** A connection found disconnected with output wanted is left in its tables, with that wish; any
      other that is disconnected or in error is closed. */
  lemma LeftOrClosed(r: Reactor, fd: Fd)
    requires fd in r.conns && (r.conns[fd].isError || r.conns[fd].status.Disconnected?)
    ensures var s := Reconnected(r, fd); var c := r.conns[fd];
            if !c.isError && c.events.output
            then s.conns[fd].events == NOTHING.(output := true, edge := true) && s.kernel == r.kernel
                 && s.channels == r.channels && s.holders == r.holders && s.conns[fd].status == c.status
            else s.conns[fd].events == c.events && s.conns[fd].status.Disconnected?
                 && fd !in s.kernel && fd !in s.channels && fd !in s.holders
  {
  }

  /** What a report makes of a connection. An error or a hang-up without input leaves it as it
      is, waiting for its timer. It is kept when it is in order, something was read without
      error, and the request is incomplete or part of the response unsent; it is then armed
      for output if some is unsent and for input otherwise. In all other cases it is gone. */
  ghost predicate HandledRightly(r: Reactor, s: Reactor, fd: Fd, revents: Mask, o: Reading)
    requires fd in r.conns && fd in s.conns
  {
    var c := r.conns[fd];
    if revents.err || (revents.hup && !revents.input) then s == SetConn(r, fd, c.(events := NOTHING))
    else if c.status.Connected? && !c.isError && (revents.input || revents.pri || revents.rdhup)
            && !o.refused && !o.gone && !(o.pending && o.writeFails) && (!o.finished || (o.pending && o.unsent))
    then ArmedFor(s, fd, !(o.pending && o.unsent), o.pending && o.unsent)
    else Gone(s, fd)
  }

  lemma HandlesRightly(r: Reactor, fd: Fd, revents: Mask, o: Reading)
    requires Inv(r) && fd in r.conns
    ensures HandledRightly(r, EventsHandled(r, fd, revents, o), fd, revents, o)
  {
    if !Failed(revents) {
      EventsHandledOk(r, fd, revents, o);
      var s := EventsHandled(r, fd, revents, o);
      if !Survives(r.conns[fd], revents, o) {
        HandledGone(r, fd, revents, o);
      }
    }
  }

  lemma HandledGone(r: Reactor, fd: Fd, revents: Mask, o: Reading)
    requires Inv(r) && fd in r.conns && !Failed(revents) && !Survives(r.conns[fd], revents, o)
    ensures Gone(EventsHandled(r, fd, revents, o), fd)
  {
    AfterReadOk(r, fd, revents, o);
    var r1 := AfterRead(r, fd, revents, o);
    ReconnectedLeaves(r1, fd);
    if revents.output {
      ReconnectedLeaves(Reconnected(r1, fd), fd);
    }
    GoneWhenUnregistered(EventsHandled(r, fd, revents, o), fd);
  }

  /** The members handle_read sets, one by one. */
  lemma FlagsAfterReading(c: Conn, o: Reading)
    requires !c.status.Disconnected?
    ensures var d := AfterReading(c, o); var writes := o.pending && !(c.isError || o.refused || o.gone);
            && (d.isError <==> c.isError || o.refused || o.gone || (o.pending && o.writeFails))
            && d.status == (if o.gone then Disconnected else c.status)
            && (d.keepAlive <==> (c.keepAlive || (o.keepAlive && (o.finished || o.refused)))
                                 && (d.isError || !o.finished))
            && (d.events.output <==> (c.events.output && !(writes && o.writeFails)) || (writes && o.unsent))
            && (d.events.input <==> (c.events.input && !(writes && o.writeFails)) || (!d.isError && !o.finished))
  {
  }

  /** A new connection: input, edge-triggered and once only, and 2000 ms. */
  lemma OpensRightly(r: Reactor, fd: Fd)
    requires Inv(r) && IsFree(r, fd)
    ensures var s := Opened(r, fd);
            && fd in s.conns && fd in s.kernel && s.kernel[fd].armed && s.kernel[fd].mask.oneShot
            && AsksFor(s.kernel[fd].mask.(oneShot := false), true, false)
            && Deadline(s, fd) == Some(Clock(s.now) + 2000)
  {
    OpenedOk(r, fd);
    assert Registered(Opened(r, fd), fd) == Some(Entry(DEFAULT_EVENT, true));
  }

  /** A finished request without error takes its timer out of force; nothing else in handle_read
      touches the deadline. */
  lemma ReadHandledTimer(r: Reactor, fd: Fd, o: Reading)
    requires Inv(r) && fd in r.conns
    ensures var c := r.conns[fd]; var s := ReadHandled(r, fd, o);
            Deadline(s, fd)
            == if !c.status.Disconnected? && o.finished
                  && !c.isError && !o.refused && !o.gone && !(o.pending && o.writeFails)
               then None else Deadline(r, fd)
  {
    if Resets(r.conns[fd], o) { SeparatedOk(r, fd); }
  }

  /** Lazy deletion: the linked timer stays in the queue, without its connection and marked. */
  lemma SeparatedClears(r: Reactor, fd: Fd)
    requires TimersOk(r) && fd in r.conns
    ensures var s := Separated(r, fd); var link := r.conns[fd].link;
            && s.timers.Keys == r.timers.Keys
            && (forall t :: t in r.timers ==>
                  s.timers[t] == if link == Some(t) then Timer(r.timers[t].deadline, None, true) else r.timers[t])
            && (link.Some? && link.value in r.timers ==> s.conns[fd].link == None)
  {
  }

  // ---------------------------------------------------------------- reports

  lemma ReportedTimers(r: Reactor, fd: Fd)
    requires TimersOk(r) && fd in r.conns && fd in r.kernel
    ensures var s := Reported(r, fd);
            TimersOk(s) && Touches(r, s, fd) && Deadline(s, fd) == Deadline(r, fd)
  {
    TimersKept(r, Reported(r, fd));
  }

  lemma ReportedOk(r: Reactor, fd: Fd)
    requires Inv(r) && fd in r.conns && fd in r.kernel
    ensures var s := Reported(r, fd);
            && Inv(s) && Touches(r, s, fd) && s.kernel.Keys == r.kernel.Keys && Deadline(s, fd) == Deadline(r, fd)
            && s.kernel[fd] == Entry(r.kernel[fd].mask, r.kernel[fd].armed && !r.kernel[fd].mask.oneShot)
            && s.conns[fd] == r.conns[fd].(events := NOTHING)
  {
    ReportedTimers(r, fd);
    PollerKept(r, Reported(r, fd), fd);
  }

  lemma DequeuedOk(r: Reactor, t: TimerId)
    requires Inv(r) && t in r.timers
    ensures Inv(Dequeued(r, t))
    ensures forall fd :: fd in r.conns ==>
              Deadline(Dequeued(r, t), fd) == if Holds(r, t, fd) then None else Deadline(r, fd)
  {
    var s := Dequeued(r, t);
    forall fd | fd in r.conns
      ensures Locked(s, fd) == (if Holds(r, t, fd) then None else Locked(r, fd))
    {
    }
  }

  /** The connection is as it was, or it was closed by the timer it was linked to. */
  predicate Unmoved(r: Reactor, s: Reactor, fd: Fd)
    requires fd in r.conns && fd in s.conns
  {
    s.conns[fd] == r.conns[fd] && Registered(s, fd) == Registered(r, fd) && Deadline(s, fd) == Deadline(r, fd)
  }

  predicate TimedOut(r: Reactor, s: Reactor, fd: Fd)
    requires fd in r.conns && fd in s.conns
  {
    && s.conns[fd] == r.conns[fd].(status := Disconnected) && Registered(s, fd) == None
    && Deadline(s, fd) == None && Deadline(r, fd).Some?
  }

  /** A timer that leaves the queue closes the connection it holds, which is the one linked
      to it, and no other; a cleared one closes nothing. */
  lemma PoppedOk(r: Reactor, t: TimerId)
    requires Inv(r) && t in r.timers
    ensures var s := Popped(r, t);
            && Inv(s) && s.conns.Keys == r.conns.Keys && s.timers == r.timers - {t} && s.now == r.now
            && (forall fd :: fd in r.conns && !Holds(r, t, fd) ==> Unmoved(r, s, fd))
            && (forall fd :: fd in r.conns && Holds(r, t, fd) ==>
                  TimedOut(r, s, fd) && Deadline(r, fd).value == r.timers[t].deadline)
  {
    DequeuedOk(r, t);
    if r.timers[t].conn.Some? {
      ClosedOk(Dequeued(r, t), r.timers[t].conn.value);
    }
  }

  /** A response sent in full closes the connection, whether or not it was to be kept
      alive. */
  lemma CompleteResponseCloses(r: Reactor, fd: Fd, revents: Mask, o: Reading)
    requires Inv(r) && fd in r.conns && !Failed(revents) && o.finished && (o.pending ==> !o.unsent)
    ensures var s := EventsHandled(r, fd, revents, o);
            !s.conns[fd].status.Connected? && fd !in s.kernel
  {
    EventsHandledOk(r, fd, revents, o);
  }

  /** A response not sent in full waits for EPOLLOUT alone, and the report of it closes the
      connection instead of sending the rest. */
  lemma UnsentResponseIsLost(r: Reactor, fd: Fd, revents: Mask, o: Reading, later: Reading)
    requires Inv(r) && fd in r.conns && !Failed(revents) && Survives(r.conns[fd], revents, o) && o.pending && o.unsent
    ensures var s := EventsHandled(r, fd, revents, o);
            var t := EventsHandled(s, fd, NOTHING.(output := true), later);
            && s.conns[fd].status.Connected?
            && Registered(s, fd) == Some(Entry(NOTHING.(output := true, edge := true), true))
            && !t.conns[fd].status.Connected? && fd !in t.kernel
  {
    EventsHandledOk(r, fd, revents, o);
    EventsHandledOk(EventsHandled(r, fd, revents, o), fd, NOTHING.(output := true), later);
  }

  // ---------------------------------------------------------------- every run

  /** Settledness is checked at the touched connection only. */
  lemma SettledKept(r: Reactor, s: Reactor, fd: Fd)
    requires Settled(r) && Touches(r, s, fd) && fd in r.conns
    requires s.conns[fd].status.Connected? <==> fd in s.kernel
    requires s.conns[fd].status.Connected? <==> Deadline(s, fd).Some?
    ensures Settled(s)
  {
    forall g | g in s.conns && g != fd
      ensures s.conns[g].status.Connected? <==> g in s.kernel
      ensures s.conns[g].status.Connected? <==> Deadline(s, g).Some?
    {
      assert g in r.conns && Registered(s, g) == Registered(r, g);
    }
  }

  lemma OpenKeeps(r: Reactor, fd: Fd)
    requires Inv(r) && Settled(r) && IsFree(r, fd)
    ensures Inv(Opened(r, fd)) && Settled(Opened(r, fd))
  {
    OpenedOk(r, fd);
    var s := Opened(r, fd);
    forall g | g in s.conns && g != fd
      ensures s.conns[g].status.Connected? <==> g in s.kernel
      ensures s.conns[g].status.Connected? <==> Deadline(s, g).Some?
    {
      assert g in r.conns && Unmoved(r, s, g);
    }
  }

  lemma HandleKeeps(r: Reactor, fd: Fd, revents: Mask, o: Reading)
    requires Inv(r) && Settled(r) && fd in r.conns
    ensures Inv(EventsHandled(r, fd, revents, o)) && Settled(EventsHandled(r, fd, revents, o))
  {
    if Failed(revents) {
      SetConnOk(r, fd, r.conns[fd].(events := NOTHING));
    } else {
      EventsHandledOk(r, fd, revents, o);
    }
    SettledKept(r, EventsHandled(r, fd, revents, o), fd);
  }

  lemma PopKeeps(r: Reactor, t: TimerId)
    requires Inv(r) && Settled(r) && t in r.timers
    ensures Inv(Popped(r, t)) && Settled(Popped(r, t))
  {
    PoppedOk(r, t);
    var s := Popped(r, t);
    forall fd | fd in s.conns
      ensures s.conns[fd].status.Connected? <==> fd in s.kernel
      ensures s.conns[fd].status.Connected? <==> Deadline(s, fd).Some?
    {
      assert fd in r.conns;
      assert Unmoved(r, s, fd) || TimedOut(r, s, fd);
    }
  }

  lemma StepKeeps(r: Reactor, step: Step)
    requires Inv(r) && Settled(r) && Enabled(r, step)
    ensures Inv(Next(r, step)) && Settled(Next(r, step))
  {
    match step
    case Open(fd) => OpenKeeps(r, fd);
    case Report(fd) =>
      ReportedOk(r, fd);
      SettledKept(r, Reported(r, fd), fd);
    case Handle(fd, revents, o) => HandleKeeps(r, fd, revents, o);
    case Pop(t) => PopKeeps(r, t);
    case Tick(ms) =>
      TimersKept(r, Next(r, step));
  }

  lemma {:induction false} EveryRunKeeps(steps: seq<Step>)
    ensures Inv(Run(steps)) && Settled(Run(steps))
  {
    if steps != [] {
      var n := |steps| - 1;
      EveryRunKeeps(steps[..n]);
      if Enabled(Run(steps[..n]), steps[n]) {
        StepKeeps(Run(steps[..n]), steps[n]);
      }
    }
  }

  /** Over every run: a queued timer that holds a connection is the one that connection links
      to, so no connection is held twice; a connection is connected exactly while it is
      registered, and exactly while a timer holds it; and the kernel has the mask
      last_events_. */
  lemma EveryRunIsSound(steps: seq<Step>, fd: Fd)
    ensures var r := Run(steps);
            && (forall t :: Holds(r, t, fd) ==> fd in r.conns && r.conns[fd].link == Some(t) && !r.timers[t].deleted)
            && (fd in r.conns ==>
                  && (r.conns[fd].status.Connected? <==> fd in r.kernel)
                  && (r.conns[fd].status.Connected? <==> exists t :: Holds(r, t, fd))
                  && (r.conns[fd].shut ==> r.conns[fd].status.Disconnected?)
                  && (fd in r.kernel ==> r.kernel[fd].mask == r.conns[fd].last)
                  && (fd in r.kernel && !r.kernel[fd].armed ==> r.conns[fd].last.oneShot))
  {
    EveryRunKeeps(steps);
    var r := Run(steps);
    if fd in r.conns {
      if Locked(r, fd).Some? { assert Holds(r, Locked(r, fd).value, fd); }
      if t: TimerId :| Holds(r, t, fd) { assert Locked(r, fd) == Some(t); }
    }
  }

  /** A mask some event can come through: input, once only or edge-triggered, or output. */
  predicate Receives(mask: Mask) {
    AsksFor(mask.(oneShot := false), !mask.output, mask.output) && (mask.oneShot ==> mask.input)
  }

  ghost predicate AllReceive(r: Reactor) {
    forall fd :: fd in r.kernel ==> Receives(r.kernel[fd].mask)
  }

  lemma HandleReceives(r: Reactor, fd: Fd, revents: Mask, o: Reading)
    requires Inv(r) && fd in r.conns && AllReceive(r)
    ensures AllReceive(EventsHandled(r, fd, revents, o))
  {
    HandlesRightly(r, fd, revents, o);
    if !Failed(revents) {
      EventsHandledOk(r, fd, revents, o);
      TouchReceives(r, EventsHandled(r, fd, revents, o), fd);
    }
  }

  lemma TouchReceives(r: Reactor, s: Reactor, fd: Fd)
    requires AllReceive(r) && Touches(r, s, fd) && s.kernel.Keys <= s.conns.Keys
    requires fd in s.kernel ==> Receives(s.kernel[fd].mask)
    ensures AllReceive(s)
  {
    forall g | g in s.kernel && g != fd ensures Receives(s.kernel[g].mask) {
      assert g in s.conns && Registered(s, g) == Registered(r, g);
    }
  }

  lemma StepReceives(r: Reactor, step: Step)
    requires Inv(r) && AllReceive(r) && Enabled(r, step)
    ensures AllReceive(Next(r, step))
  {
    var s := Next(r, step);
    match step
    case Open(fd) =>
      OpenedOk(r, fd);
      assert s.kernel.Keys <= s.conns.Keys by { assert TablesOk(s); }
      forall g | g in s.kernel && g != fd ensures Receives(s.kernel[g].mask) {
        assert g in r.conns && Registered(s, g) == Registered(r, g);
      }
      assert Registered(s, fd) == Some(Entry(DEFAULT_EVENT, true));
    case Handle(fd, revents, o) => HandleReceives(r, fd, revents, o);
    case _ =>
  }

  /** In every reachable state a connected descriptor is registered for something it can receive,
      and armed unless its first report has not been handled yet. */
  lemma {:induction false} EveryRunReceives(steps: seq<Step>)
    ensures AllReceive(Run(steps))
    ensures var r := Run(steps);
            forall fd :: fd in r.conns && r.conns[fd].status.Connected? ==>
              fd in r.kernel && Receives(r.kernel[fd].mask) && (r.kernel[fd].armed || r.kernel[fd].mask.oneShot)
  {
    EveryRunKeeps(steps);
    if steps != [] {
      var n := |steps| - 1;
      EveryRunReceives(steps[..n]);
      EveryRunKeeps(steps[..n]);
      if Enabled(Run(steps[..n]), steps[n]) { StepReceives(Run(steps[..n]), steps[n]); }
    }
    var r := Run(steps);
    forall fd | fd in r.conns && r.conns[fd].status.Connected?
      ensures fd in r.kernel && (r.kernel[fd].armed || r.kernel[fd].mask.oneShot)
    {
      assert Agrees(r.conns[fd], Registered(r, fd));
    }
  }

  /** And when a handler has run to its end, a connection that stays is armed for output if some
      is unsent and for input otherwise. */
  lemma EveryHandlerArms(steps: seq<Step>, fd: Fd, revents: Mask, o: Reading)
    requires fd in Run(steps).conns && !(revents.err || (revents.hup && !revents.input))
    ensures var s := Run(steps + [Handle(fd, revents, o)]);
            fd in s.conns
            && (s.conns[fd].status.Connected? ==> ArmedFor(s, fd, !(o.pending && o.unsent), o.pending && o.unsent))
  {
    EveryRunKeeps(steps);
    assert (steps + [Handle(fd, revents, o)])[..|steps|] == steps;
    HandlesRightly(Run(steps), fd, revents, o);
  }

  /** Skipping is visible for one kind of update only: asking for the same one-shot mask
      again after it was disarmed. */
  lemma SkipVisible(r: Reactor, fd: Fd)
    requires Inv(r) && fd in r.conns
    ensures MaskPushed(r, fd) == MaskPushed(r, fd, false)
       <==> !(fd in r.kernel && !r.kernel[fd].armed && r.conns[fd].events == r.conns[fd].last)
    ensures !r.conns[fd].events.oneShot ==> MaskPushed(r, fd) == MaskPushed(r, fd, false)
  {
    var c := r.conns[fd];
    assert Agrees(c, Registered(r, fd));
    if c.events == c.last {
      if fd in r.kernel {
        if r.kernel[fd].armed {
          assert r.kernel[fd := Entry(c.events, true)] == r.kernel;
        } else {
          assert MaskPushed(r, fd).kernel[fd] != MaskPushed(r, fd, false).kernel[fd];
        }
      } else {
        assert r.channels - {fd} == r.channels;
      }
    }
  }

  lemma UpdatedSkips(r: Reactor, fd: Fd, events: Mask, timeout: nat)
    requires Inv(r) && fd in r.conns && Locked(r, fd) == None && timeout > 0 && !events.oneShot
    ensures Updated(r, fd, events, timeout) == Updated(r, fd, events, timeout, false)
  {
    var m := WithEvents(r, fd, events);
    SetConnOk(r, fd, r.conns[fd].(events := events));
    if Owned(m, fd) {
      TimerAddedOk(m, fd, timeout);
      SkipVisible(TimerAdded(m, fd, timeout), fd);
    } else {
      SkipVisible(m, fd);
    }
  }

  lemma ReconnectedSkips(r: Reactor, fd: Fd)
    requires Inv(r) && fd in r.conns && !r.conns[fd].events.oneShot
    ensures Reconnected(r, fd) == Reconnected(r, fd, false)
  {
    SeparatedOk(r, fd);
    var r1 := Separated(r, fd);
    var c := r1.conns[fd];
    if !c.isError && c.status.Connected? {
      if c.events != NOTHING {
        UpdatedSkips(r1, fd, Wanted(c.events), DEFAULT_EXPIRED_TIME);
      } else {
        ShutClosedOk(r1, fd);
        UpdatedSkips(ShutClosed(r1, fd), fd, c.events.(input := true, edge := true), HALF_KEEP_ALIVE_TIME);
      }
    }
  }

  lemma HandleSkips(r: Reactor, fd: Fd, revents: Mask, o: Reading)
    requires Inv(r) && fd in r.conns
    ensures EventsHandled(r, fd, revents, o) == EventsHandled(r, fd, revents, o, false)
  {
    if !Failed(revents) {
      AfterReadOk(r, fd, revents, o);
      var r1 := AfterRead(r, fd, revents, o);
      ReconnectedSkips(r1, fd);
      if revents.output {
        ReconnectedOk(r1, fd);
        ReconnectedSkips(Reconnected(r1, fd), fd);
      }
    }
  }

  /** Over every run the cache is invisible: the state is what it would be if every update
      called the kernel. */
  lemma {:induction false} SkipInvisible(steps: seq<Step>)
    ensures Run(steps) == Run(steps, false)
  {
    if steps != [] {
      var n := |steps| - 1;
      SkipInvisible(steps[..n]);
      EveryRunKeeps(steps[..n]);
      if steps[n].Handle? && Enabled(Run(steps[..n]), steps[n]) {
        HandleSkips(Run(steps[..n]), steps[n].fd, steps[n].revents, steps[n].reading);
      }
    }
  }

  // ---------------------------------------------------------------- expiry and the map it implements

  /** Connection to current deadline: what the queue with its cleared timers stands for. */
  function Deadlines(r: Reactor): map<Fd, nat> {
    map fd | fd in r.conns && Deadline(r, fd).Some? :: Deadline(r, fd).value
  }

  function Lookup(m: map<Fd, nat>, fd: Fd): Option<nat> {
    if fd in m then Some(m[fd]) else None
  }

  lemma DeadlinesAre(r: Reactor, m: map<Fd, nat>)
    requires m.Keys <= r.conns.Keys && forall fd :: fd in r.conns ==> Deadline(r, fd) == Lookup(m, fd)
    ensures Deadlines(r) == m
  {
    var d := Deadlines(r);
    forall fd | fd in d ensures fd in m && m[fd] == d[fd] {}
    forall fd | fd in m ensures fd in d {
      assert fd in r.conns && Deadline(r, fd) == Lookup(m, fd);
    }
  }

  lemma SeparatedIsRemove(r: Reactor, fd: Fd)
    requires TimersOk(r) && fd in r.conns
    ensures Deadlines(Separated(r, fd)) == Deadlines(r) - {fd}
  {
    SeparatedTimers(r, fd);
    var s := Separated(r, fd);
    var m := Deadlines(r) - {fd};
    forall g | g in s.conns ensures Deadline(s, g) == Lookup(m, g) {
      assert g in r.conns;
    }
    DeadlinesAre(s, m);
  }

  lemma TimerAddedIsUpdate(r: Reactor, fd: Fd, timeout: nat)
    requires TimersOk(r) && fd in r.conns && Locked(r, fd) == None
    ensures Deadlines(TimerAdded(r, fd, timeout)) == Deadlines(r)[fd := Clock(r.now) + timeout]
  {
    TimerAddedTimers(r, fd, timeout);
  }

  /** One handle_expired_event: the timers it pops, each with the clock reading is_valid took
      (none is taken for a cleared timer), and the reading that stops it. */
  datatype PopAt = PopAt(t: TimerId, now: nat)

  ghost predicate PopsTo(r: Reactor, pops: seq<PopAt>, s: Reactor)
    decreases |pops|
  {
    if pops == [] then r == s
    else CanPop(r, pops[0].t, pops[0].now) && PopsTo(Popped(r, pops[0].t), pops[1..], s)
  }

  ghost predicate StopsAt(r: Reactor, stop: nat) {
    r.timers == map[] || exists t :: IsTop(r, t) && !r.timers[t].deleted && Clock(stop) < r.timers[t].deadline
  }

  ghost predicate Expires(r: Reactor, pops: seq<PopAt>, stop: nat, s: Reactor) {
    PopsTo(r, pops, s) && StopsAt(s, stop)
  }

  /** All readings lie between lo and hi on the clock. */
  predicate ReadingsWithin(pops: seq<PopAt>, stop: nat, lo: nat, hi: nat) {
    (forall p :: p in pops ==> lo <= Clock(p.now) <= hi) && lo <= Clock(stop) <= hi
  }

  /** Closed if due by the first reading, left alone if due after the last or never, and in
      between one or the other. */
  predicate ExpiredRightly(r: Reactor, s: Reactor, fd: Fd, lo: nat, hi: nat)
    requires fd in r.conns && fd in s.conns
  {
    && (Unmoved(r, s, fd) || TimedOut(r, s, fd))
    && (Deadline(r, fd).Some? && Deadline(r, fd).value <= lo ==> TimedOut(r, s, fd))
    && (Deadline(r, fd).None? || Deadline(r, fd).value > hi ==> Unmoved(r, s, fd))
  }

  lemma NothingDueRemains(r: Reactor, stop: nat, fd: Fd)
    requires Inv(r) && fd in r.conns && StopsAt(r, stop)
    ensures Deadline(r, fd).Some? ==> Clock(stop) < Deadline(r, fd).value
  {
  }

  lemma {:induction false} ExpiryIsExact(r: Reactor, pops: seq<PopAt>, stop: nat, s: Reactor, lo: nat, hi: nat)
    requires Inv(r) && Expires(r, pops, stop, s) && ReadingsWithin(pops, stop, lo, hi)
    ensures Inv(s) && s.conns.Keys == r.conns.Keys
    ensures forall fd :: fd in r.conns ==> ExpiredRightly(r, s, fd, lo, hi)
    decreases |pops|
  {
    if pops == [] {
      forall fd | fd in r.conns ensures ExpiredRightly(r, s, fd, lo, hi) {
        NothingDueRemains(r, stop, fd);
      }
    } else {
      var t, now := pops[0].t, pops[0].now;
      PoppedOk(r, t);
      var m := Popped(r, t);
      assert pops[0] in pops;
      forall p | p in pops[1..] ensures p in pops {}
      ExpiryIsExact(m, pops[1..], stop, s, lo, hi);
      forall fd | fd in r.conns ensures ExpiredRightly(r, s, fd, lo, hi) {
        assert ExpiredRightly(m, s, fd, lo, hi);
        if Holds(r, t, fd) {
          assert TimedOut(r, m, fd);
        } else {
          assert Unmoved(r, m, fd);
        }
      }
    }
  }

  lemma ClockWithin(first: nat, now: nat, stop: nat)
    requires first <= now <= stop && first / WINDOW == stop / WINDOW
    ensures Clock(first) <= Clock(now) <= Clock(stop)
  {
    assert now / WINDOW == first / WINDOW;
  }

  /** The queue full of cleared timers behaves like the map: while the clock runs from first
      to stop inside one window, every connection due by the first reading is closed, none
      due after the last is touched, and neither is one without a current deadline. */
  lemma ExpiryInOneWindow(r: Reactor, pops: seq<PopAt>, first: nat, stop: nat, s: Reactor)
    requires Inv(r) && Expires(r, pops, stop, s)
    requires first <= stop && first / WINDOW == stop / WINDOW
    requires forall p :: p in pops ==> first <= p.now <= stop
    ensures Inv(s) && s.conns.Keys == r.conns.Keys
    ensures forall fd :: fd in r.conns ==> ExpiredRightly(r, s, fd, Clock(first), Clock(stop))
  {
    ClockWithin(first, first, stop);
    forall p | p in pops ensures Clock(first) <= Clock(p.now) <= Clock(stop) {
      ClockWithin(first, p.now, stop);
    }
    ExpiryIsExact(r, pops, stop, s, Clock(first), Clock(stop));
  }

  function NotDue(m: map<Fd, nat>, now: nat): map<Fd, nat> {
    map fd | fd in m && m[fd] > now :: m[fd]
  }

  lemma ExpiredIsNotDue(r: Reactor, s: Reactor, fd: Fd, now: nat)
    requires fd in r.conns && fd in s.conns && ExpiredRightly(r, s, fd, now, now)
    ensures Deadline(s, fd) == Lookup(NotDue(Deadlines(r), now), fd)
  {
  }

  /** With all readings in one millisecond the map loses exactly its due entries. */
  lemma ExpiryIsFilter(r: Reactor, pops: seq<PopAt>, stop: nat, s: Reactor)
    requires Inv(r) && Expires(r, pops, stop, s) && forall p :: p in pops ==> p.now == stop
    ensures s.conns.Keys == r.conns.Keys
    ensures Deadlines(s) == NotDue(Deadlines(r), Clock(stop))
  {
    ExpiryIsExact(r, pops, stop, s, Clock(stop), Clock(stop));
    var m := NotDue(Deadlines(r), Clock(stop));
    forall fd | fd in s.conns ensures Deadline(s, fd) == Lookup(m, fd) {
      ExpiredIsNotDue(r, s, fd, Clock(stop));
    }
    DeadlinesAre(s, m);
  }

  // ---------------------------------------------------------------- the clock

  /** For one window after a timer is made, is_valid judges it rightly exactly when the clock
      has not wrapped since, or it is not due anyway. */
  lemma ClockJudges(made: nat, timeout: nat, now: nat)
    requires made <= now < made + WINDOW
    ensures (Clock(now) >= Clock(made) + timeout <==> now >= made + timeout)
       <==> now / WINDOW == made / WINDOW || now < made + timeout
  {
    var q := made / WINDOW;
    if now / WINDOW == q {
    } else {
      assert now / WINDOW == q + 1;
      assert Clock(now) == now - made + Clock(made) - WINDOW;
    }
  }

  /** The clock as the source computes it from seconds and microseconds. */
  lemma ClockOfTimeval(sec: nat, usec: nat)
    requires usec < 1_000_000
    ensures Clock(sec * 1000 + usec / 1000) == (sec % 10000) * 1000 + usec / 1000
  {
    var q, ms := sec / 10000, usec / 1000;
    assert sec * 1000 + ms == q * WINDOW + ((sec % 10000) * 1000 + ms);
    RemainderOf(q, (sec % 10000) * 1000 + ms);
  }

  lemma {:induction false} RemainderOf(q: nat, x: nat)
    requires x < WINDOW
    ensures (q * WINDOW + x) % WINDOW == x
  {
    if q > 0 {
      RemainderOf(q - 1, x);
      assert q * WINDOW + x == ((q - 1) * WINDOW + x) + WINDOW;
    }
  }

  /** A timer made close to the end of a window never runs out at all. */
  lemma RunsOutEventually(deadline: nat)
    ensures (exists now :: Clock(now) >= deadline) <==> deadline < WINDOW
  {
    if deadline < WINDOW {
      assert Clock(deadline) >= deadline;
    }
  }
}
