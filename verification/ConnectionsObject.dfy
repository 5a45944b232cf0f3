/** The event loop's connections as one object: the tables that Epoll, TimerPQueue and the
    HttpData objects update in place. */
module ConnectionsObject {
  import opened Prelude
  import opened Connections

  lemma {:induction false} TopExists(timers: map<TimerId, Timer>, among: set<TimerId>) returns (t: TimerId)
    requires among != {} && among <= timers.Keys
    ensures t in among && forall u :: u in among ==> timers[t].deadline <= timers[u].deadline
    decreases among
  {
    var x :| x in among;
    if among == {x} {
      t := x;
    } else {
      var rest := among - {x};
      assert among == rest + {x};
      t := TopExists(timers, rest);
      if timers[x].deadline < timers[t].deadline { t := x; }
    }
  }

  lemma {:induction false} PopsSnoc(r: Reactor, pops: seq<PopAt>, m: Reactor, p: PopAt)
    requires PopsTo(r, pops, m) && CanPop(m, p.t, p.now)
    ensures PopsTo(r, pops + [p], Popped(m, p.t))
    decreases |pops|
  {
    if pops == [] {
      assert pops + [p] == [p];
    } else {
      PopsSnoc(Popped(r, pops[0].t), pops[1..], m, p);
      assert (pops + [p])[1..] == pops[1..] + [p];
    }
  }

  lemma PopsOneMore(r: Reactor, pops: seq<PopAt>, m: Reactor, p: PopAt)
    requires Inv(m) && PopsTo(r, pops, m) && CanPop(m, p.t, p.now)
    ensures Inv(Popped(m, p.t)) && PopsTo(r, pops + [p], Popped(m, p.t))
  {
    PopsSnoc(r, pops, m, p);
    PoppedOk(m, p.t);
  }

  lemma {:induction false} PopsKeep(r: Reactor, pops: seq<PopAt>, s: Reactor)
    requires Inv(r) && PopsTo(r, pops, s)
    ensures Inv(s) && s.conns.Keys == r.conns.Keys
    decreases |pops|
  {
    if pops != [] {
      PoppedOk(r, pops[0].t);
      PopsKeep(Popped(r, pops[0].t), pops[1..], s);
    }
  }

  /** The first n + 1 readings do not decrease and fall into one window. */
  ghost predicate RunsInWindow(clock: nat -> nat, n: nat) {
    && clock(0) / WINDOW == clock(n) / WINDOW
    && forall i, j :: 0 <= i <= j <= n ==> clock(i) <= clock(j)
  }

  /** The k-th pop comes with the k-th reading. */
  ghost predicate ReadInTurn(pops: seq<PopAt>, clock: nat -> nat) {
    forall k :: 0 <= k < |pops| ==> pops[k].now == clock(k)
  }

  lemma PopsOneMoreInTurn(r: Reactor, pops: seq<PopAt>, m: Reactor, t: TimerId, clock: nat -> nat)
    requires Inv(m) && PopsTo(r, pops, m) && CanPop(m, t, clock(|pops|)) && ReadInTurn(pops, clock)
    ensures var more := pops + [PopAt(t, clock(|pops|))];
            Inv(Popped(m, t)) && PopsTo(r, more, Popped(m, t)) && ReadInTurn(more, clock)
  {
    PopsOneMore(r, pops, m, PopAt(t, clock(|pops|)));
  }

  /** One return of epoll_wait and the get_events_request over it. */
  function ReportedAll(r: Reactor, ready: seq<Fd>): (s: Reactor)
    requires forall fd :: fd in ready ==> fd in r.conns && fd in r.kernel
    ensures s.conns.Keys == r.conns.Keys && s.kernel.Keys == r.kernel.Keys && s.channels == r.channels
    decreases |ready|
  {
    if ready == [] then r else Reported(ReportedAll(r, ready[..|ready| - 1]), ready[|ready| - 1])
  }

  /** The reported descriptors whose channel is not null. */
  function Requests(channels: set<Fd>, ready: seq<Fd>): seq<Fd> {
    if ready == [] then [] else
    var n := |ready| - 1;
    Requests(channels, ready[..n]) + if ready[n] in channels then [ready[n]] else []
  }

  lemma {:induction false} RequestsAre(channels: set<Fd>, ready: seq<Fd>)
    ensures forall fd :: fd in Requests(channels, ready) <==> fd in ready && fd in channels
    ensures (forall fd :: fd in ready ==> fd in channels) ==> Requests(channels, ready) == ready
    decreases |ready|
  {
    if ready != [] {
      var n := |ready| - 1;
      RequestsAre(channels, ready[..n]);
      assert ready == ready[..n] + [ready[n]];
    }
  }

  /** The requests come in the order of the reports. */
  lemma {:induction false} RequestsInOrder(channels: set<Fd>, a: seq<Fd>, b: seq<Fd>)
    ensures Requests(channels, a + b) == Requests(channels, a) + Requests(channels, b)
    decreases |b|
  {
    if b == [] {
      assert a + b == a;
    } else {
      var n := |b| - 1;
      assert (a + b)[..|a + b| - 1] == a + b[..n];
      RequestsInOrder(channels, a, b[..n]);
    }
  }

  /** What a poll does to one descriptor: if reported, it is disarmed when registered one-shot,
      and its mask is cleared; its deadline and all else stay. */
  predicate PolledOne(r: Reactor, s: Reactor, reported: bool, fd: Fd)
    requires fd in r.conns && fd in s.conns
  {
    && s.conns[fd] == (if reported then r.conns[fd].(events := NOTHING) else r.conns[fd])
    && Deadline(s, fd) == Deadline(r, fd)
    && Registered(s, fd)
       == match Registered(r, fd)
          case None => None
          case Some(k) => Some(Entry(k.mask, k.armed && !(reported && k.mask.oneShot)))
  }

  /** After a poll this holds of the reported descriptors and of the others. */
  ghost predicate PolledRightly(r: Reactor, s: Reactor, ready: seq<Fd>)
    requires r.conns.Keys == s.conns.Keys
  {
    forall fd :: fd in r.conns ==> PolledOne(r, s, fd in ready, fd)
  }

  lemma PollsOneMore(r: Reactor, m: Reactor, before: bool, last: Fd, fd: Fd)
    requires Inv(m) && last in m.conns && last in m.kernel && fd in r.conns && fd in m.conns
    requires PolledOne(r, m, before, fd)
    ensures PolledOne(r, Reported(m, last), before || fd == last, fd)
  {
    ReportedOk(m, last);
  }

  lemma {:induction false} PollsKeep(r: Reactor, ready: seq<Fd>)
    requires Inv(r) && forall g :: g in ready ==> g in r.conns && g in r.kernel
    ensures Inv(ReportedAll(r, ready))
    decreases |ready|
  {
    if ready != [] {
      var n := |ready| - 1;
      PollsKeep(r, ready[..n]);
      ReportedOk(ReportedAll(r, ready[..n]), ready[n]);
    }
  }

  lemma ReportedLast(r: Reactor, before: seq<Fd>, last: Fd)
    requires forall g :: g in before + [last] ==> g in r.conns && g in r.kernel
    ensures (forall g :: g in before ==> g in r.conns && g in r.kernel) && last in r.conns && last in r.kernel
    ensures ReportedAll(r, before + [last]) == Reported(ReportedAll(r, before), last)
  {
    assert last in before + [last];
    assert (before + [last])[..|before|] == before;
  }

  lemma {:induction false} PollsOne(r: Reactor, ready: seq<Fd>, fd: Fd)
    requires Inv(r) && fd in r.conns && forall g :: g in ready ==> g in r.conns && g in r.kernel
    ensures PolledOne(r, ReportedAll(r, ready), fd in ready, fd)
    decreases |ready|
  {
    if ready != [] {
      var n := |ready| - 1;
      var before, last := ready[..n], ready[n];
      assert ready == before + [last];
      ReportedLast(r, before, last);
      PollsOne(r, before, fd);
      PollsKeep(r, before);
      PollsOneMore(r, ReportedAll(r, before), fd in before, last, fd);
    }
  }

  lemma PollsRightly(r: Reactor, ready: seq<Fd>)
    requires Inv(r) && forall g :: g in ready ==> g in r.conns && g in r.kernel
    ensures PolledRightly(r, ReportedAll(r, ready), ready)
  {
    forall fd | fd in r.conns ensures PolledOne(r, ReportedAll(r, ready), fd in ready, fd) {
      PollsOne(r, ready, fd);
    }
  }

  /** Clearing the timer and setting the other members commute. */
  lemma ClearAndSet(r: Reactor, fd: Fd, o: Reading)
    requires fd in r.conns
    ensures var s := SetConn(r, fd, AfterReading(r.conns[fd], o));
            ReadHandled(r, fd, o) == if Resets(r.conns[fd], o) then Separated(s, fd) else s
  {
    var s := SetConn(r, fd, AfterReading(r.conns[fd], o));
    if Resets(r.conns[fd], o) {
      assert Separated(s, fd).conns == ReadHandled(r, fd, o).conns;
    }
  }

  class Poller {
    var conns: map<Fd, Conn>
    var timers: map<TimerId, Timer>
    var made: nat
    var kernel: map<Fd, Entry>
    var channels: set<Fd>
    var holders: set<Fd>
    var now: nat

    constructor ()
      ensures State() == Empty
    {
      conns, timers, made, kernel, channels, holders, now := map[], map[], 0, map[], {}, {}, 0;
    }

    function State(): Reactor
      reads this
    {
      Reactor(conns, timers, made, kernel, channels, holders, now)
    }

    method SeperateTimer(fd: Fd)
      requires fd in conns
      modifies this`conns, this`timers
      ensures State() == Separated(old(State()), fd)
    {
      var link := conns[fd].link;
      if link.Some? && link.value in timers {
        timers := timers[link.value := timers[link.value].(conn := None, deleted := true)];
        conns := conns[fd := conns[fd].(link := None)];
      }
    }

    method AddTimer(fd: Fd, timeout: nat)
      requires fd in conns
      modifies this`conns, this`timers, this`made
      ensures State() == TimerAdded(old(State()), fd, timeout)
    {
      timers := timers[made := Timer(Clock(now) + timeout, Some(fd), false)];
      conns := conns[fd := conns[fd].(link := Some(made))];
      made := made + 1;
    }

    method EqualAndUpdateLastEvents(fd: Fd) returns (equal: bool)
      requires fd in conns
      modifies this`conns
      ensures equal <==> old(conns[fd].events == conns[fd].last)
      ensures conns == old(conns[fd := conns[fd].(last := conns[fd].events)])
    {
      equal := conns[fd].events == conns[fd].last;
      conns := conns[fd := conns[fd].(last := conns[fd].events)];
    }

    method AddFdInEpoll(fd: Fd, timeout: nat)
      requires fd in conns
      modifies this
      ensures State() == FdAdded(old(State()), fd, timeout)
    {
      if timeout > 0 {
        AddTimer(fd, timeout);
        holders := holders + {fd};
      }
      var mask := conns[fd].events;
      var _ := EqualAndUpdateLastEvents(fd);
      channels := channels + {fd};
      if fd in kernel {
        channels := channels - {fd};
      } else {
        kernel := kernel[fd := Entry(mask, true)];
      }
    }

    /** Epoll::add_timer. */
    method AddTimerIfOwned(fd: Fd, timeout: nat)
      requires fd in conns
      modifies this`conns, this`timers, this`made
      ensures State() == TimerIfOwned(old(State()), fd, timeout)
    {
      if Owned(State(), fd) { AddTimer(fd, timeout); }
    }

    method ModifyFdInEpoll(fd: Fd, timeout: nat)
      requires fd in conns
      modifies this
      ensures State() == FdModified(old(State()), fd, timeout)
    {
      if timeout > 0 { AddTimerIfOwned(fd, timeout); }
      var equal := EqualAndUpdateLastEvents(fd);
      if !equal {
        if fd in kernel {
          kernel := kernel[fd := Entry(conns[fd].events, true)];
        } else {
          channels := channels - {fd};
        }
      }
    }

    method DeleteFdInEpoll(fd: Fd)
      modifies this`kernel, this`channels, this`holders
      ensures State() == FdDeleted(old(State()), fd)
    {
      kernel := kernel - {fd};
      channels := channels - {fd};
      holders := holders - {fd};
    }

    method SetEvents(fd: Fd, events: Mask)
      requires fd in conns
      modifies this`conns
      ensures State() == WithEvents(old(State()), fd, events)
    {
      conns := conns[fd := conns[fd].(events := events)];
    }

    method Shutdown(fd: Fd)
      requires fd in conns
      modifies this`conns
      ensures State() == WriteShut(old(State()), fd)
    {
      conns := conns[fd := conns[fd].(shut := true)];
    }

    method HandleClose(fd: Fd)
      requires fd in conns
      modifies this
      ensures State() == Closed(old(State()), fd)
    {
      conns := conns[fd := conns[fd].(status := Disconnected)];
      DeleteFdInEpoll(fd);
    }

    method UpdatePoller(fd: Fd, events: Mask, timeout: nat)
      requires fd in conns
      modifies this
      ensures State() == Updated(old(State()), fd, events, timeout)
    {
      SetEvents(fd, events);
      ModifyFdInEpoll(fd, timeout);
    }

    method HandleConnect(fd: Fd)
      requires fd in conns
      modifies this
      ensures State() == Reconnected(old(State()), fd)
      ensures Inv(old(State())) && InOrOut(old(conns)[fd].events) ==> ConnectedRightly(old(State()), State(), fd)
    {
      if Inv(State()) && InOrOut(conns[fd].events) { ConnectsRightly(State(), fd); }
      SeperateTimer(fd);
      var c := conns[fd];
      if !c.isError && c.status.Connected? {
        var events := c.events;
        if events != NOTHING {
          var timeout := DEFAULT_EXPIRED_TIME;
          if c.keepAlive { timeout := DEFAULT_KEEP_ALIVE_TIME; }
          if events.input && events.output {
            events := NOTHING;
            events := events.(output := true);
          }
          events := events.(edge := true);
          UpdatePoller(fd, events, timeout);
        } else if c.keepAlive {
          UpdatePoller(fd, events.(input := true), DEFAULT_KEEP_ALIVE_TIME);
        } else {
          Shutdown(fd);
          HandleClose(fd);
          UpdatePoller(fd, events.(input := true, edge := true), HALF_KEEP_ALIVE_TIME);
        }
      } else if !c.isError && c.status.Disconnected? && c.events.output {
        SetEvents(fd, NOTHING.(output := true, edge := true));
      } else {
        HandleClose(fd);
      }
    }

    method NewEvent(fd: Fd)
      modifies this
      ensures State() == Opened(old(State()), fd)
    {
      conns := conns[fd := Conn(Connected, false, false, false, NOTHING, NOTHING, None)];
      SetEvents(fd, DEFAULT_EVENT);
      assert conns == old(conns)[fd := Conn(Connected, false, false, false, DEFAULT_EVENT, NOTHING, None)];
      AddFdInEpoll(fd, DEFAULT_EXPIRED_TIME);
    }

    /** The flags and the mask handle_read leaves, up to its reset(). */
    method SetFlags(fd: Fd, o: Reading) returns (resets: bool)
      requires fd in conns
      modifies this`conns
      ensures resets <==> Resets(old(conns)[fd], o)
      ensures conns == old(conns)[fd := AfterReading(old(conns)[fd], o)]
    {
      var c := conns[fd];
      if c.status.Disconnected? {
        assert conns == conns[fd := c];
        return false;
      }
      if o.refused || o.gone { c := c.(isError := true); }
      if o.gone { c := c.(status := Disconnected); }
      if (o.finished || o.refused) && o.keepAlive { c := c.(keepAlive := true); }
      if !c.isError && o.pending {
        if o.writeFails { c := c.(events := NOTHING, isError := true); }
        if o.unsent { c := c.(events := c.events.(output := true)); }
      }
      resets := !c.isError && o.finished;
      if resets {
        c := c.(keepAlive := false);
      } else if !c.isError && !c.status.Disconnected? {
        c := c.(events := c.events.(input := true));
      }
      conns := conns[fd := c];
    }

    /** handle_read as far as the connection goes. */
    method HandleRead(fd: Fd, o: Reading)
      requires fd in conns
      modifies this
      ensures State() == ReadHandled(old(State()), fd, o)
    {
      var resets := SetFlags(fd, o);
      if resets { SeperateTimer(fd); }
      ClearAndSet(old(State()), fd, o);
    }

    method HandleEvents(fd: Fd, revents: Mask, o: Reading)
      requires fd in conns
      modifies this
      ensures State() == EventsHandled(old(State()), fd, revents, o)
      ensures Inv(old(State())) ==> HandledRightly(old(State()), State(), fd, revents, o)
    {
      if Inv(State()) { HandlesRightly(State(), fd, revents, o); }
      SetEvents(fd, NOTHING);
      if revents.hup && !revents.input {
        SetEvents(fd, NOTHING);
        return;
      }
      if revents.err {
        SetEvents(fd, NOTHING);
        return;
      }
      if revents.input || revents.pri || revents.rdhup {
        HandleRead(fd, o);
      }
      if revents.output {
        HandleConnect(fd);
      }
      HandleConnect(fd);
    }

    /** One return of epoll_wait with its get_events_request: the channels that are not null
        come back in the order reported, which in every reachable state are all of them. */
    method Poll(ready: seq<Fd>) returns (requests: seq<Fd>)
      requires forall fd :: fd in ready ==> fd in conns && fd in kernel
      modifies this
      ensures State() == ReportedAll(old(State()), ready)
      ensures requests == Requests(old(channels), ready)
      ensures forall fd :: fd in requests <==> fd in ready && fd in old(channels)
      ensures Inv(old(State())) ==> PolledRightly(old(State()), State(), ready) && requests == ready
    {
      RequestsAre(channels, ready);
      if Inv(State()) { PollsRightly(State(), ready); }
      requests := CollectRequests(ready);
    }

    /** get_events_request. */
    method CollectRequests(ready: seq<Fd>) returns (requests: seq<Fd>)
      requires forall fd :: fd in ready ==> fd in conns && fd in kernel
      modifies this
      ensures State() == ReportedAll(old(State()), ready)
      ensures requests == Requests(old(channels), ready)
    {
      requests := [];
      for i := 0 to |ready|
        invariant State() == ReportedAll(old(State()), ready[..i])
        invariant requests == Requests(old(channels), ready[..i])
      {
        var fd := ready[i];
        assert ready[..i + 1][..i] == ready[..i];
        var k := kernel[fd];
        kernel := kernel[fd := k.(armed := k.armed && !k.mask.oneShot)];
        if fd in channels {
          SetEvents(fd, NOTHING);
          requests := requests + [fd];
        }
      }
      assert ready[..|ready|] == ready;
    }

    method PopTop(top: TimerId)
      requires Inv(State()) && top in timers
      modifies this
      ensures State() == Popped(old(State()), top)
    {
      var holder := timers[top].conn;
      timers := timers - {top};
      if holder.Some? {
        HandleClose(holder.value);
      }
    }

    /** One round of the expiry loop. */
    method TryTop(reading: nat) returns (popped: bool, top: TimerId)
      requires Inv(State()) && timers != map[]
      modifies this
      ensures popped ==> CanPop(old(State()), top, reading) && State() == Popped(old(State()), top)
                         && |timers| < old(|timers|)
      ensures !popped ==> State() == old(State()) && StopsAt(State(), reading)
    {
      ghost var least := TopExists(timers, timers.Keys);
      top :| top in timers && forall u :: u in timers ==> timers[top].deadline <= timers[u].deadline;
      assert IsTop(State(), top);
      popped := timers[top].deleted || Clock(reading) >= timers[top].deadline;
      if popped {
        ghost var was: map<TimerId, Timer> := timers;
        PopTop(top);
        assert timers == was - {top};
        assert was == timers[top := was[top]];
      }
    }

    /** The loop of handle_expired_event; clock(k) is what the clock reads in round k. */
    method PopDue(clock: nat -> nat) returns (ghost pops: seq<PopAt>)
      requires Inv(State())
      modifies this
      ensures Expires(old(State()), pops, clock(|pops|), State())
      ensures ReadInTurn(pops, clock)
    {
      ghost var start := State();
      var i := 0;
      pops := [];
      while timers != map[]
        invariant Inv(State()) && PopsTo(start, pops, State())
        invariant i == |pops| && ReadInTurn(pops, clock)
        decreases |timers|
      {
        ghost var before := State();
        var popped, top := TryTop(clock(i));
        if !popped { break; }
        PopsOneMoreInTurn(start, pops, before, top, clock);
        pops := pops + [PopAt(top, clock(i))];
        i := i + 1;
      }
    }

    /** handle_expired_event: on a clock that runs inside one window, every connection due by
        its first reading is closed and none that is due after its last is touched. */
    method HandleExpiredEvent(clock: nat -> nat) returns (ghost pops: seq<PopAt>)
      requires Inv(State())
      modifies this
      ensures Inv(State()) && State().conns.Keys == old(State()).conns.Keys
      ensures Expires(old(State()), pops, clock(|pops|), State())
      ensures RunsInWindow(clock, |pops|) ==>
        forall fd :: fd in old(State()).conns ==>
          ExpiredRightly(old(State()), State(), fd, Clock(clock(0)), Clock(clock(|pops|)))
    {
      ghost var start := State();
      pops := PopDue(clock);
      PopsKeep(start, pops, State());
      if RunsInWindow(clock, |pops|) {
        forall p | p in pops ensures clock(0) <= p.now <= clock(|pops|) {
          var k :| 0 <= k < |pops| && pops[k] == p;
        }
        ExpiryInOneWindow(start, pops, clock(0), clock(|pops|), State());
      }
    }

    /** One step of a run; a step that is not enabled changes nothing. */
    method Take(step: Step)
      requires Inv(State())
      modifies this
      ensures State() == if Enabled(old(State()), step) then Next(old(State()), step) else old(State())
    {
      if Enabled(State(), step) {
        match step
        case Open(fd) => NewEvent(fd);
        case Report(fd) =>
          assert [fd][..0] == [];
          var _ := Poll([fd]);
        case Handle(fd, revents, o) => HandleEvents(fd, revents, o);
        case Pop(t) => PopTop(t);
        case Tick(ms) => now := now + ms;
      }
    }

    /** Any schedule of calls on the object is a run, so all that is proved of runs holds of
        it. */
    method Drive(steps: seq<Step>)
      requires State() == Empty
      modifies this
      ensures State() == Run(steps)
    {
      for i := 0 to |steps|
        invariant State() == Run(steps[..i])
      {
        EveryRunKeeps(steps[..i]);
        Take(steps[i]);
        assert steps[..i + 1][..i] == steps[..i];
      }
      assert steps[..|steps|] == steps;
    }
  }
}
