# Verification of FastWebServer's core protocols and codecs

FastWebServer is an epoll-based HTTP server in C++. This project models the parts of it that
hold state or arithmetic worth a proof, and proves what they are for:

- the asynchronous double-buffered logger, its text formatting and its file sink
  (`AsyncLog.dfy`, `LoggingObject.dfy`, `LogText.dfy`, `LogSink.dfy`);
- the connections of an event loop: the timer queue with lazy deletion, the registration cache
  in front of epoll, and the handlers that tie them together (`Connections.dfy`,
  `ConnectionsObject.dfy`);
- the worker pool (`ThreadPool.dfy`, `RingPool.dfy`);
- the event loop's cross-thread task queue (`EventLoop.dfy`);
- the variable-length integer codec with its nibble stream, and its reader as written (`Packer.dfy`,
  `NibbleStream.dfy`, `NibbleSlip.dfy`);
- the HTTP request parser (`HttpHeaders.dfy`, `HttpResume.dfy`, `HttpUri.dfy`,
  `HttpRequest.dfy`);
- the socket read and write loops (`SocketIO.dfy`).

A protocol between threads is a state machine: a step is one critical section or one piece of
thread-local work, a run is any sequence of steps, and the theorems speak of every run. An object
whose methods update its fields is a class, and each method is tied to the step or function it
performs. Foreign calls are parameters: the results of `read`, `write` and `fwrite` come from a
script, clock readings and `stoi` from a function, the refusals of `epoll_ctl` from the kernel's
own table.

`dafny verify dfyconfig.toml` checks everything.

## What the proofs say about the code

Where the code does what it is for, the theorem says so for every input or run. Where it does
not, the model keeps the code and the theorem says exactly when it does:

- **Logger.** Lines 210 and 217 of `Logging.cpp` reset the pointer instead of the buffer. The
  assertions at the loop head settle what is meant, and the invariants are proved for that
  reading; `AsWrittenOneRound` proves that the code as written ends exactly at the loop test after
  its first round. `stop()` leaves unwritten what was appended since the last swap, and nothing is
  lost by it exactly when that is nothing (`ExitLeavesBuffers`, `StopCanLoseALine`).
- **Timers.** A timer whose deadline falls behind the end of a 10,000-second window never runs
  out (`RunsOutEventually`); within a window the queue is exactly the map from connection to
  deadline (`ExpiryInOneWindow`, `ExpiryIsFilter`).
- **Connections.** In every reachable state a connection is connected exactly while it is
  registered and exactly while one queued timer holds it (`EveryRunIsSound`), and the cache in
  front of epoll is invisible over every run (`SkipInvisible`). `reset()` drops `keep_alive_`
  before `handle_connect` reads it, so a response sent in full closes the connection whatever the
  request asked for (`CompleteResponseCloses`) and the keep-alive timeouts are never chosen: a
  connection that stays always gets `DEFAULT_EXPIRED_TIME` (`ReconnectedOk`), and the timer meant
  to linger after a close is never made (`ReconnectedIdle`). The write handler is bound to
  `handle_connect` (`HttpData.cpp:109`), so a response not sent in one go waits for EPOLLOUT and
  is then cut off by it (`UnsentResponseIsLost`). A report of an error, or of a hang-up without
  input, does not close the connection: it waits for its timer (`HandlesRightly`).
- **Event loop.** A task the loop's own thread queues before it calls `loop()`, or from
  `handle_expired`, gets no wakeup and no swap before the next poll; with no other wakeup under
  way that strands it, and nothing else does (`StrandingStep`, `UnannouncedPushStrands`). The
  repository has neither call: `handle_expired` runs `handle_close` only, which queues nothing, and
  the one call of `queue_in_loop` from outside (`Server.cpp:59`) is made by an event handler of a
  running loop. A `quit()` is honoured exactly when it comes after `loop()` was entered
  (`QuitHonoured`): then it keeps the loop from sleeping in epoll_wait and ends it at the next
  test, and nothing else stops it (`EveryRunHearsQuit`, `QuitEndsAtTest`); made before, it is
  forgotten, and the destructor of an EventLoopThread can make it that early.
- **Nibbles.** `Packer.h:197` compares instead of toggling; the comment above `is_first_nibble`
  settles what is meant. As written the reader cuts the payload bytes into pieces of the first
  value's length and decodes all with the first code; it returns the list exactly when the bytes
  last and every piece is congruent to its value (`AsWrittenExactly`). When the first code is not a
  negated one, or no unsigned value is the wrap-around of a negated number of that length, that is
  exactly when every value has the first code or equals its own negation there
  (`AsWrittenReadsBack`; `TwinReadsBack` and `WrappedReadsBack` show both kinds of exception).
  Code 0 is announced as 16 bytes but consumes none; integer packing never produces it
  (`AnnouncedIsConsumed`, `CodeRange`).
- **Request line.** The comparisons of a `size_t` with 0 make `parse_URI` reject every proper
  prefix of a request line instead of waiting for the rest; split just before its CR the line is
  accepted but stays in the buffer, in front of the headers (`SplitLine`). A method name tried
  earlier anywhere in the line is taken for the method (`LineRoundTrip`).
- **Headers.** `HttpData.cpp:335` skips the letter `r`, not CR: a header block comes back exactly
  when its first key starts with neither LF nor `r` (`FirstKeySurvives`). Otherwise a key with
  more in it loses those letters (`FirstKeyShortened`, `RangeBecomesAnge`), and one with nothing
  else in it is eaten whole: the block is refused unless the value's first colon comes
  before any line break and is followed by a space; then a header cut out of the value is read
  instead, and if nothing follows in the value, it runs on into the next line (`KeyEatenWhole`,
  `EatenBlock`, `KeyRIsRefused`).
- **Headers in several reads.** `parse_state_` survives PARSE_HEADER_AGAIN, but the indices are
  locals and start over at -1. For every cut of a block of ordinary lines the theorem says what
  the second call makes of it (`SplitBlock`, `SplitHead`): the lines come back exactly when the
  cut is in front of the first key or of the very last LF (`HarmlessCuts`). Cut between two
  lines, the next key gets an LF in front, so that a Content-length there is not found and the
  POST is refused (`LengthLost`); cut in front of a value or in it, the whole line becomes the
  value of the empty key, if it fits; between CR and LF of a later line, an empty value is stored under
  the empty key; in a later key, right behind a colon, between the first CR and LF, or behind the
  last complete line, the request is refused. When the cut is in the first key or in a value, the
  index -1 is dereferenced and what memory holds in front of the buffer gets into the headers; nowhere
  else does it matter (`FrontMatters`).
- **Bodies.** After the blank line one character is consumed as well, if one is there. A POST gets
  to its analysis exactly when the announced length is not negative and at most the body's, less
  one if any of the body came in the same read as the head (`PostServed`); one and the same POST
  gets there when head and body come in two reads and stalls when they come in one
  (`OneReadStalls`).
- **writen** leaves its buffer whole when it fails, although part of it may be on the wire
  (`Socket.WriteN`).

## Model

| member | source | states |
|---|---|---|
| AsyncLog.EveryRunIsSound | include/Log/Logging.cpp:136-222 | over every interleaving of appenders, a stopper and the log thread no assertion of the source fails and no null buffer is followed, the supply, conservation and ownership invariants hold, and the record contains exactly the bytes appended |
| AsyncLog.StepKeepsInv | include/Log/Logging.cpp:138-220 | every step that can be taken from a state with the invariant is safe and keeps it |
| AsyncLog.FileIsPrefix | include/Log/Logging.cpp:187-204 | file ++ buffers at work ++ queued buffers ++ current buffer is everything logged exactly when no buffer with text in it was dropped or cut short; only buffers from index 2 on of a round that found more than 25 are ever dropped |
| AsyncLog.FileMatchesWhenIntact | include/Log/Logging.cpp:197-199 | the file equals the text of the recorded buffers exactly when every one of them reached it whole |
| AsyncLog.RoundFindsEnough | include/Log/Logging.cpp:176-220 | a round swaps out at least one buffer, at least two when the second spare was used up, and reclaiming spares then cannot run short, dropped backlog included, so the loop-head assertions hold again |
| AsyncLog.SupplyKept | include/Log/Logging.cpp:138-146 | the buffer-supply invariant (a current buffer always, no spare only with a non-empty queue) survives every step |
| AsyncLog.AppendText | include/Log/Logging.cpp:138-145 | an append adds its line at the end of the text held in the queue and the current buffer, whichever branch it takes |
| AsyncLog.AppendPlaces | include/Log/Logging.cpp:138-145 | a line that fits goes behind the text of the current buffer; otherwise that buffer is queued last and the line begins an empty one, the next buffer if there is one and a new one if not |
| AsyncLog.EveryRunPacks | include/Log/Logging.cpp:138-145 | in every run of lines that fit a buffer, no buffer is given up early: any two neighbours among the queued buffers and the current one hold more than one buffer could |
| AsyncLog.RoundWritesAll | include/Log/Logging.cpp:165-222 | from every reachable loop test of a running log thread its own steps lead through a whole round, after which nothing is pending and the file has gained all that was, or the first two buffers when more than 25 were found |
| AsyncLog.TrimSettled | include/Log/Logging.cpp:188-195 | trimming a backlog moves text from the round to the dropped record and changes nothing else |
| AsyncLog.StepKeepsOwnership | include/Log/Logging.cpp:138-220 | no buffer is ever owned from two places |
| AsyncLog.ExitLeavesBuffers | include/Log/Logging.cpp:155-159 | after the loop is left, with nothing dropped before, what was logged is the file followed by what was appended since the last swap; the file is complete exactly when that is nothing |
| AsyncLog.PendingIsSinceSwap | include/Log/Logging.cpp:136-184 | in every run the queued buffers and the current one hold exactly the text appended since the last swap |
| AsyncLog.StopCanLoseALine | include/Log/Logging.cpp:155-170 | a line appended before stop() can be missing from the file for good |
| AsyncLog.StepAsWritten | include/Log/Logging.cpp:206-218 | with the pointers reset, conservation still holds and a finished round leaves the log thread without its first spare |
| AsyncLog.AsWrittenOneRound | include/Log/Logging.cpp:170-218 | as written, a step fails exactly when it is the loop test after one finished round with is_running_ still set |
| LoggingObject.Logging.constructor | include/Log/Logging.cpp:127-169 | constructor, start() and the head of thread_func together give the protocol's initial state |
| LoggingObject.Logging.Append | include/Log/Logging.cpp:136-147 | Logging::append on the members is the protocol's append step |
| LoggingObject.Logging.SwapBuffers | include/Log/Logging.cpp:178-183 | the moves and swaps under the lock, member by member, are the protocol's swap |
| LoggingObject.Logging.TrimBacklog | include/Log/Logging.cpp:188-195 | an oversized backlog is cut to its first two buffers |
| LoggingObject.Logging.WriteNext | include/Log/Logging.cpp:197-199 | the next buffer goes to the real sink; the file grows by the part of it the sink's script determines, and by all of it when no call takes nothing |
| LoggingObject.Logging.EndRound | include/Log/Logging.cpp:202-221 | the first two buffers of the round, last one first, become the missing spares, emptied; the file is flushed up to its last byte |
| LoggingObject.Logging.Proceed | include/Log/Logging.cpp:161-222 | whatever the log thread does next is an enabled, safe step of the protocol, and until it has left thread_func there is one |
| LoggingObject.Logging.Drive | include/Log/Logging.cpp:136-223 | any schedule of calls and log-thread steps on the object is a run of the protocol, step for turn, that logged exactly the lines of the calls; the file is flushed up to its last byte outside the writing of a round; and with a sink whose calls all take something and no round of more than 25 buffers, file ++ unwritten ++ queued ++ current is all that was logged |
| LogSink.ShortExactlyWhenRetryFails | include/Log/LogUtil.cpp:13-25 | one append hands on less than its line exactly when a retry, not the first call, takes nothing while bytes remain; it has then handed on the sum of what the calls before it took |
| LogSink.AppendAll | include/Log/LogUtil.cpp:13-25 | the partial-write loop appends to the file the prefix of the line that the results of fwrite determine |
| LogSink.AppendLog.Append | include/Log/LogUtil.cpp:45-52 | every num_append-th append leaves the whole file flushed, and count_ is the number of appends since |
| LogText.DecimalIsCanonical | include/Log/Logging.cpp:12-26 | the decimal text has no leading zero and parses back to the value |
| LogText.CanonicalIsDecimal | include/Log/Logging.cpp:12-26 | every canonical numeral is the text of the value it parses to |
| LogText.DecimalLength | include/Log/Logging.cpp:31-36 | every signed or unsigned 64-bit value takes 1 to 20 characters |
| LogText.TableEntry | include/Log/Logging.cpp:9-19 | the truncated remainder of either sign picks the digit of the magnitude from the symmetric table, and the quotient keeps the sign |
| LogText.ReverseRange | include/Log/Logging.cpp:24-24 | the range is reversed in place and nothing else changes |
| LogText.WriteDigits | include/Log/Logging.cpp:13-20 | the do-loop leaves the digits of the value back to front at the cursor, for every 64-bit value, the minimum included |
| LogText.Convert | include/Log/Logging.cpp:12-26 | convert writes the canonical decimal text and a terminating NUL, at most 21 characters, and touches nothing else |
| LogText.LogBuffer.Append | include/Log/LogBuffer.h:39-44 | a piece is taken whole when it is shorter than the room left and not at all otherwise |
| LogText.LogBuffer.Reset | include/Log/LogBuffer.h:49-56 | the buffer is empty and zeroed |
| LogText.LogBuffer.FormatInteger | include/Log/Logging.cpp:31-36 | an integer is inserted in decimal when 32 bytes are free and dropped otherwise |
| LogText.CursorInside | include/Log/LogBuffer.h:35-47 | over any sequence of insertions the cursor stays inside the buffer and earlier text is kept |
| LogText.NothingDropped | include/Log/Logging.cpp:31-117 | no insertion is lost while the reservations of all of them fit |
| LogText.LineIsAdmitted | include/Log/Logging.cpp:31-121 | a line is the text of exactly those insertions that find their reserve free at their turn, each whole; the others leave no trace |
| LogText.FormatLine | include/Log/Logging.cpp:31-121 | a line of insertions on the real buffer leaves the text of the admitted ones, with the cursor inside |
| Connections.EveryRunIsSound | HttpData.cpp:112-134 | over every run of opening, polling, handling, expiry and time: a queued timer that holds a connection is the one the connection's timer_ names, so none is held twice; a connection is connected exactly while it is registered and exactly while a timer holds it, and never after its write side was shut down; the kernel mask is last_events_ and only a one-shot mask is ever disarmed |
| Connections.EveryRunKeeps | EventLoop.cpp:81-89 | the timer, poller and settledness invariants hold in every reachable state |
| Connections.StepKeeps | EventLoop.cpp:83-88 | each step of the loop keeps them |
| Connections.SeparatedOk | HttpData.cpp:128-134 | clearing leaves the connection held by no queued timer and touches no other connection, no registration and no deadline |
| Connections.SeparatedClears | Timer.cpp:55-58 | lazy deletion: the linked timer stays in the queue with its deadline, without its connection and marked; all other timers stay as they are |
| Connections.TimerAddedOk | Timer.cpp:60-64 | an unheld connection comes out with the one deadline clock reading plus timeout |
| Connections.MaskPushedOk | Epoll.cpp:36-48 | after an update with a mask that is not one-shot, a registered descriptor is armed with exactly that mask although the call may have been skipped |
| Connections.SkipInvisible | Channel.cpp:85-89 | over every run the state is the one reached when every mask update calls the kernel |
| Connections.SkipVisible | Channel.cpp:85-89 | in one update, skipping differs from calling exactly for a disarmed descriptor asked for the same mask again, hence never for a mask that is not one-shot |
| Connections.FdModifiedOk | Epoll.cpp:36-48 | modify_fd_in_epoll leaves a registered connection with one fresh deadline and armed as asked, and an unregistered one, whose holder is gone, without a timer |
| Connections.OwnedIsRegistered | Epoll.cpp:97-100 | with its timer cleared a connection has a live holder exactly while it is registered |
| Connections.ClosedOk | HttpData.cpp:530-533 | closing removes registration, channel and holder of this connection only |
| Connections.OpenedOk | HttpData.cpp:535-538 | a new connection, on a new descriptor or one whose last connection is gone, is registered one-shot, armed, held by one timer, and nothing else is touched |
| Connections.OpensRightly | HttpData.cpp:535-538 | bit by bit: EPOLLIN, edge-triggered, one-shot, armed, and a deadline 2000 ms ahead |
| Connections.ReconnectedOk | HttpData.cpp:231-262 | handle_connect keeps a connection exactly when it is connected, not in error and some event is wanted; a kept one is armed with the adjusted mask and held by one timer due DEFAULT_EXPIRED_TIME after the clock reading, any other is neither registered nor held |
| Connections.ConnectsRightly | HttpData.cpp:231-262 | bit by bit: a connection that stays is armed edge-triggered for output if output is wanted and for input otherwise, with 2000 ms; any other has neither registration, channel, holder nor timer |
| Connections.KeptAlive | HttpData.cpp:235-251 | with keep_alive_ set the deadline is 300000 ms ahead, and with no event wanted the mask is EPOLLIN alone, not edge-triggered |
| Connections.LeftOrClosed | HttpData.cpp:258-261 | a disconnected connection without error that wants output keeps its registration and asks for EPOLLOUT, edge-triggered; any other disconnected or failed one is closed |
| Connections.RefusedDropsChannel | Epoll.cpp:16-48 | an EPOLL_CTL_ADD or EPOLL_CTL_MOD the kernel refuses costs the channel, and an update that is skipped does not |
| Connections.ReconnectedIdle | HttpData.cpp:250-256 | with nothing wanted the connection is shut down for writing and closed and, its holder being gone, no timer is made |
| Connections.ReconnectedTwice | HttpData.cpp:107-109 | running handle_connect twice, as a report with EPOLLOUT does, settles to the same state; after a first call that closes, nothing owns the connection |
| Connections.ReadHandledOk | HttpData.cpp:136-217 | handle_read keeps the invariants whatever it comes across, sets no one-shot mask and touches no other connection |
| Connections.FlagsAfterReading | HttpData.cpp:136-229 | is_error_, connection_state_, keep_alive_ and the EPOLLIN and EPOLLOUT bits after handle_read, each by what it came across |
| Connections.ReadHandledTimer | HttpData.cpp:210-211 | handle_read takes the timer out of force exactly for a finished request without error |
| Connections.AfterReadingStays | HttpData.cpp:207-229 | after handle_read a connected connection wants an event exactly when nothing failed and the request is incomplete or output is unsent, and then wants just that |
| Connections.EventsHandledOk | Channel.cpp:46-64 | after completed events the connection stays exactly when the read handler ran, nothing failed, and the request is incomplete or output is unsent; if it stays it is armed for just that and held by one timer with that call's clock reading plus the timeout, otherwise it is unregistered |
| Connections.HandlesRightly | Channel.cpp:46-64 | bit by bit, for every report and every outcome of reading: an error or hang-up without input changes nothing but events_; otherwise the connection stays exactly when it is connected and in order, input, urgent data or a half-close was reported, reading met no error or end, and the request is incomplete or output unsent; it is then armed for output if some is unsent and for input otherwise |
| Connections.HandledMakes | Channel.cpp:46-64 | a report that keeps its connection makes one timer, and two with EPOLLOUT in it |
| Connections.EveryRunReceives | Channel.cpp:46-64 | in every reachable state a connected descriptor is registered for an event it can receive, and is armed unless it is one-shot |
| Connections.EveryHandlerArms | Channel.cpp:46-64 | behind any run, a completed handler that keeps the connection leaves it armed for output if some is unsent and for input otherwise |
| Connections.CompleteResponseCloses | HttpData.cpp:112-121 | a finished request whose response was sent in full closes the connection, keep-alive or not |
| Connections.UnsentResponseIsLost | HttpData.cpp:107-109 | a response not sent in one go leaves the connection waiting for EPOLLOUT alone, whose report closes it |
| Connections.ReportedOk | Epoll.cpp:80-95 | reporting a descriptor disarms a one-shot registration, clears events_ and changes nothing else of the connection |
| Connections.PoppedOk | Timer.cpp:16-18 | a timer leaving the queue closes the one connection it holds, at that connection's current deadline, and a cleared one closes nothing |
| Connections.SeparatedIsRemove | HttpData.cpp:128-134 | on the map from connection to deadline, clearing a timer is removing the key |
| Connections.TimerAddedIsUpdate | Timer.cpp:60-64 | on that map, adding a timer is setting the key to clock reading plus timeout |
| Connections.ExpiryIsExact | Timer.cpp:74-80 | with all clock readings between lo and hi, one expiry run closes every connection due by lo, leaves every other not due by hi as it was, and otherwise does one or the other |
| Connections.ExpiryInOneWindow | Timer.cpp:55-80 | the same for any clock that runs from a first to a last reading inside one 10,000-second window |
| Connections.ExpiryIsFilter | Timer.cpp:74-80 | when all readings fall in one millisecond, the map loses exactly its due entries |
| Connections.ClockJudges | Timer.cpp:26-37 | within one window length after a timer was made, is_valid is right about real time exactly when the clock has not wrapped since or the timer is not due |
| Connections.RunsOutEventually | Timer.cpp:7-14 | a deadline is ever reached exactly when it lies inside the window |
| Connections.ClockOfTimeval | Timer.cpp:12-12 | the clock is the one computed from seconds and microseconds |
| ConnectionsObject.Poller.SeperateTimer | HttpData.cpp:128-134 | updates the tables as the specification's clearing |
| ConnectionsObject.Poller.AddTimer | Timer.cpp:60-64 | queues a timer and overwrites the link |
| ConnectionsObject.Poller.AddTimerIfOwned | Epoll.cpp:97-100 | adds a timer only for a connection whose holder is alive |
| ConnectionsObject.Poller.EqualAndUpdateLastEvents | Channel.cpp:85-89 | reports whether the masks agreed before and makes them agree |
| ConnectionsObject.Poller.AddFdInEpoll | Epoll.cpp:16-33 | registers in kernel, channel and holder tables, or drops the channel when the kernel refuses |
| ConnectionsObject.Poller.ModifyFdInEpoll | Epoll.cpp:36-48 | adds a timer if the holder is alive and pushes the mask only when it changed |
| ConnectionsObject.Poller.DeleteFdInEpoll | Epoll.cpp:51-60 | removes the descriptor from all three tables |
| ConnectionsObject.Poller.HandleClose | HttpData.cpp:530-533 | disconnects and unregisters |
| ConnectionsObject.Poller.HandleConnect | HttpData.cpp:231-262 | is the specified handle_connect, branch for branch, and leaves the connection armed for output, armed for input or gone, as ConnectsRightly says bit by bit |
| ConnectionsObject.Poller.NewEvent | HttpData.cpp:535-538 | is the specified opening |
| ConnectionsObject.Poller.SetFlags | HttpData.cpp:136-229 | the flags and mask after reading and writing are the specified ones, and reset() is due exactly for a finished request without errors |
| ConnectionsObject.Poller.HandleRead | HttpData.cpp:112-217 | is the specified handle_read, its timer cleared on reset() |
| ConnectionsObject.Poller.HandleEvents | Channel.cpp:46-64 | is the specified dispatch, and leaves the connection as HandlesRightly says bit by bit |
| ConnectionsObject.Poller.Poll | Epoll.cpp:80-95 | reports a batch: exactly the reported descriptors with a channel are returned, which in a state with the invariant are all of them in order; each is disarmed if one-shot and has its mask cleared, and no other descriptor, deadline or status changes |
| ConnectionsObject.Poller.HandleExpiredEvent | Timer.cpp:74-80 | when the readings do not decrease and stay in one window, every connection due by the first is closed and every one not due by the last is untouched |
| ConnectionsObject.Poller.PopDue | Timer.cpp:74-80 | the loop over the heap is one expiry run whose k-th reading is the clock's |
| ConnectionsObject.Poller.Drive | EventLoop.cpp:81-89 | any schedule of calls on the object is a run, so the run theorems hold of it |
| PoolProtocol.EveryRunIsHealthy | ThreadPool.cpp:50-129 | in every reachable state of any number of workers and adders with spurious wakeups: while a worker sleeps no more tasks are queued than workers are on their way, started_ is the number of live workers, and accepted == taken ++ queued with every taken task finished or in the hands of one worker |
| PoolProtocol.StepKeepsHealthy | ThreadPool.cpp:111-129 | every step keeps the wakeup, shutdown and started_ invariants |
| PoolProtocol.StepKeepsAccounts | ThreadPool.cpp:117-124 | every step keeps tasks taken in the order accepted, each held by one worker until finished |
| PoolProtocol.EveryRunMoves | ThreadPool.cpp:111-125 | in every reachable state with a task queued and a worker alive, some worker is running a task or can come to the queue, where it will not wait |
| PoolProtocol.EveryRunAdmits | ThreadPool.cpp:50-66 | over every run the accepted tasks are exactly those added while the pool was open and held fewer than capacity, in order, and each was taken in order or is still queued |
| PoolProtocol.AddHappens | ThreadPool.cpp:53-70 | an add can happen in every state; with room in an open pool its task comes last and somebody asleep is woken, and otherwise nothing changes |
| PoolProtocol.CheckDoes | ThreadPool.cpp:115-129 | a worker leaves at once on immediate shutdown and behind the last task on graceful shutdown, sleeps on an empty queue otherwise, and else takes the oldest task |
| PoolProtocol.ImmediateTakesNoMore | ThreadPool.cpp:116-116 | after an immediate shutdown no task is taken or accepted any more, whatever is queued |
| PoolProtocol.ShutdownStep | ThreadPool.cpp:79-101 | after the destroy call a worker step lowers the measure, anything else leaves it, and the mode never changes |
| PoolProtocol.ShutdownEnds | ThreadPool.cpp:79-129 | after the destroy call no worker sleeps again, the workers take at most Measure steps whatever the adders do, and one can move exactly while started_ is positive |
| PoolProtocol.AfterTheJoins | ThreadPool.cpp:94-129 | after the joins started_ is 0; graceful mode has taken and finished every accepted task, immediate mode has accepted == taken ++ left |
| RingPool.ThreadPool.TailIsRemainder | ThreadPool.cpp:54-66 | tail is (head + count) mod size in every valid state |
| RingPool.ThreadPool.constructor | ThreadPool.cpp:27-32 | an empty ring with every slot clear |
| RingPool.ThreadPool.Launch | ThreadPool.cpp:34-41 | started_ and thread_count_ count the threads created before the first failure |
| RingPool.ThreadPool.Add | ThreadPool.cpp:53-66 | -3 on a full ring, else -4 when shut down, else 0 with the task last; without a 0 nothing changes; slots outside the live window stay clear |
| RingPool.ThreadPool.TakeFirst | ThreadPool.cpp:117-122 | the oldest task leaves the ring and its slot is cleared |
| RingPool.ThreadPool.Check | ThreadPool.cpp:115-126 | waits exactly on an empty queue of an open pool, leaves exactly on immediate shutdown or on graceful shutdown with an empty queue, and otherwise takes the oldest task |
| RingPool.ThreadPool.BeginShutdown | ThreadPool.cpp:83-87 | the first destroy call sets the mode, a later one is refused |
| RingPool.ThreadPool.Drive | ThreadPool.cpp:50-129 | any schedule of adders, workers and a destroyer on the ring is a run of the protocol, so the run theorems hold of it |
| RingPool.Create | ThreadPool.cpp:19-48 | out-of-range sizes become 4 and 1024, and a successful creation is the protocol's initial state |
| RingPool.Sizes | ThreadPool.cpp:22-25 | sizes in range are kept, any others become 4 and 1024 together |
| LoopProtocol.EveryRunDelivers | EventLoop.cpp:66-102 | in every reachable state, before and inside loop(), executed ++ swapped out ++ pending == queued, in lock order, and unless the loop's own thread queued a task before loop() or from handle_expired none is stranded |
| LoopProtocol.StrandingStep | EventLoop.cpp:66-88 | a step strands a task exactly when the loop's own thread queues it before loop() or from handle_expired with no wakeup signalled or on its way |
| LoopProtocol.RunKeeps | EventLoop.cpp:74-102 | the same from any consistent state |
| LoopProtocol.NeverStuck | EventLoop.cpp:74-91 | a loop with tasks to run that has not stopped can always move without a foreign event |
| LoopProtocol.IterationRunsAll | EventLoop.cpp:81-102 | a signalled loop executes everything pending, in order, within one iteration |
| LoopProtocol.UnannouncedPushStrands | EventLoop.cpp:71-88 | a task so queued leaves the loop waiting for foreign events |
| LoopProtocol.QuitHonoured | EventLoop.cpp:77-107 | the last request to quit of a run that reaches the loop's test afterwards has stopped the loop exactly when loop() had been entered before it |
| LoopProtocol.EveryRunHearsQuit | EventLoop.cpp:74-107 | in every reachable state quit_ is set exactly when quitting was asked for since loop() was entered; a loop so asked is signalled or about to be while it polls, and a stopped loop was asked |
| LoopProtocol.QuitEndsAtTest | EventLoop.cpp:81-107 | a loop asked to quit from inside takes at most one more test and has stopped exactly when it has taken it, whatever else happens |
| LoopProtocol.UnaskedGoesOn | EventLoop.cpp:78-91 | without a request since it was entered the loop never stops |
| LoopProtocol.QuitMoves | EventLoop.cpp:81-107 | until it has stopped, a loop asked to quit can move without a foreign event |
| LoopProtocol.EarlyQuitIsLost | EventLoop.cpp:77-107 | an instance: a quit() just before loop() leaves it polling with quit_ unset |
| EventLoopObject.EventLoop.QueueInLoop | EventLoop.cpp:66-72 | appends the task, with a wakeup exactly for another thread or while the list is being run |
| EventLoopObject.EventLoop.RunInLoop | EventLoop.cpp:61-64 | on the loop thread the task runs at once, ahead of anything pending |
| EventLoopObject.EventLoop.DoPendingFunctors | EventLoop.cpp:93-102 | runs exactly what was pending, once and in order; what those tasks or other threads queue meanwhile stays for the next iteration, with exactly the wakeups it comes with; the whole, requests to quit included, is a stretch of a protocol run |
| EventLoopObject.EventLoop.Turn | EventLoop.cpp:82-88 | one turn of the loop executes what was pending and then what its handlers queued, leaves what the functors queued, with the eventfd counting the wakeups since the poll, and remembers every request to quit |
| EventLoopObject.EventLoop.RunLoop | EventLoop.cpp:74-91 | loop() takes every round until one asks to quit or its poll does not return, for want of a signal, an arrival or a foreign event; it executes in each what was pending, then what arrived, then what was handled, and leaves what the functors queued to the next; as a run of the protocol it tests once for each round and once more where it stops or waits, and it has stopped exactly when asked to quit, by any thread, since it was entered |
| EventLoopObject.RoundsDeliver | EventLoop.cpp:81-102 | over any rounds, what is executed followed by what is left pending is what was pending followed by everything queued |
| EventLoopObject.EventLoop.TakeAll | EventLoop.cpp:66-107 | tasks queued and requests to quit by any thread, at any point of the loop, with their wakeups, are a stretch of a protocol run |
| EventLoopObject.EventLoop.Quit | EventLoop.cpp:104-107 | sets quit_, with a wakeup from another thread |
| Packer.BytesRoundTrip | include/Nanolog/Packer.h:69-71 | the low n bytes of a value below 256^n give it back |
| Packer.WidthIsFewest | include/Nanolog/Packer.h:43-68 | the byte count is the least that holds the value |
| Packer.CodeRange | include/Nanolog/Packer.h:75-89 | every code is 1 to 15, above 8 exactly for values packed as a magnitude, at -(2^24), -(2^56) and the minima as well |
| Packer.CodeMeans | include/Nanolog/Packer.h:42-89 | in powers of 256: the code is the fewest bytes of a value from 0 on, 8 more than the fewest bytes of a negative one whose magnitude leaves a byte of its type free, and the size of the type otherwise |
| Packer.Pack | include/Nanolog/Packer.h:69-89 | pack writes the kept bytes of the payload at the pointer, returns the code, and spills no further than sizeof(T) |
| Packer.CastBack | include/Nanolog/Packer.h:119-133 | the casts through int64_t and back to each type restore the value |
| Packer.ValueRoundTrip | include/Nanolog/Packer.h:42-134 | unpack of pack is the identity at every 32- and 64-bit type and value |
| NibbleStream.PackStream | include/Nanolog/Packer.h:69-71 | packing values one after another leaves exactly their payloads, each copy's spill overwritten by the next |
| NibbleStream.NibbleStored | include/Nanolog/Packer.h:35-38 | every code comes back from its half of its byte |
| NibbleStream.AnnouncedIsConsumed | include/Nanolog/Packer.h:164-180 | the announced size equals what unpack consumes exactly when no code is 0 |
| NibbleStream.GetSizeOfPackage | include/Nanolog/Packer.h:164-180 | the 32-bit loop gives the announced total modulo 2^32, for odd and even lengths |
| NibbleStream.AnnouncedEnd | include/Nanolog/Packer.h:184-188 | below 2^29 nibbles end_of_package is the end of the package |
| NibbleStream.PackageFetched | include/Nanolog/Packer.h:184-199 | the reader fetches every field in order and reaches the announced end exactly after the last |
| NibbleStream.EndStops | include/Nanolog/Packer.h:192-193 | the assertion of one more get_next fails there |
| NibbleStream.DecodesBack | include/Nanolog/Packer.h:119-134 | the fields of a list decode with its types to its values |
| NibbleStream.StreamRoundTrip | include/Nanolog/Packer.h:42-199 | any list of values is read back with the same types, ending at end_of_package |
| NibbleStream.Nibbler.constructor | include/Nanolog/Packer.h:184-188 | the reader starts at the first nibble with its data behind the last |
| NibbleStream.Nibbler.GetNext | include/Nanolog/Packer.h:192-199 | get_next reads one field, decodes it by its code and advances both positions |
| NibbleStream.Nibbler.GetAll | include/Nanolog/Packer.h:192-199 | successive get_next calls read successive fields |
| NibbleStream.PackAndRead | include/Nanolog/Packer.h:42-199 | packing, storing the codes and reading with get_next on the real buffer and reader gives any list back |
| NibbleSlip.AsWrittenCodes | include/Nanolog/Packer.h:194-197 | a reader that never flips uses the first code for every value |
| NibbleSlip.AsWrittenExactly | include/Nanolog/Packer.h:192-199 | the reader as written returns a list exactly when its payload bytes, cut in pieces of the first value's length, last for all values and each piece is congruent to its value |
| NibbleSlip.AsWrittenReadsBack | include/Nanolog/Packer.h:192-199 | it returns the list whenever every value has the first code or equals its own negation there, and only then unless the first code is a negated one and the list holds a wrapped unsigned value |
| NibbleSlip.OwnBytes | include/Nanolog/Packer.h:120-133 | on a value's own bytes a code of the right length reads it exactly when it is the value's code or the value equals its own negation |
| NibbleSlip.RoomNeeded | include/Nanolog/Packer.h:120-133 | no bytes of fewer than a value's own length read as it, save for a wrapped unsigned value |
| NibbleSlip.TwinReadsBack | include/Nanolog/Packer.h:192-199 | two values with codes 12 and 4 that come back all the same |
| NibbleSlip.WrappedReadsBack | include/Nanolog/Packer.h:192-199 | -1 and 4294967168 come back although the second is read from one byte of four |
| NibbleSlip.AsWrittenMisreads | include/Nanolog/Packer.h:194-197 | packing 1 and 300 reads back 1 and 44 |
| HttpHeaders.PrintThenParse | HttpData.cpp:326-408 | a printed header block, whatever follows, is accepted with exactly its lines |
| HttpHeaders.FirstKeySurvives | HttpData.cpp:334-340 | for lines within the other limits, printing then parsing is the identity exactly when the first key starts with neither LF nor the letter r |
| HttpHeaders.FirstKeyShortened | HttpData.cpp:334-340 | a first key with something behind its leading letters comes back without them and all else unchanged |
| HttpHeaders.KeyEatenWhole | HttpData.cpp:334-359 | a first key of leading letters alone is eaten whole; the block is refused unless the value's first colon comes before any line break and a space follows it; then what follows them is stored under what precedes them, or, when nothing follows, the value runs on into the next line |
| HttpHeaders.EatenBlock | HttpData.cpp:334-405 | what becomes of a whole block then: refused, or complete with that header for its first line |
| HttpHeaders.KeyRIsRefused | HttpData.cpp:334-347 | a first header named r with value x is refused |
| HttpHeaders.RangeBecomesAnge | HttpData.cpp:334-340 | a first header named range is stored as ange |
| HttpHeaders.SuccessMeansBlock | HttpData.cpp:326-405 | SUCCESS exactly when a prefix of the buffer is a header block |
| HttpHeaders.VerdictsOnExtensions | HttpData.cpp:326-408 | ERROR exactly when no extension can succeed, AGAIN exactly when the buffer has not succeeded but some extension does |
| HttpHeaders.ScanText | HttpData.cpp:332-401 | a scan has read exactly the text its state stands for, with key and value inside the limits |
| HttpHeaders.LastWins | HttpData.cpp:375-375 | a stored key has the value of its last line, and other keys are unchanged |
| HttpResume.SplitBlock | HttpData.cpp:326-408 | a block of ordinary lines in two reads: for every cut, whether the second call refuses it and which lines it stores |
| HttpResume.HarmlessCuts | HttpData.cpp:326-408 | the two calls together store exactly the lines of the block if and only if the cut is in front of the first key or of the very last LF |
| HttpResume.FrontMatters | HttpData.cpp:328-376 | the character in front of the buffer decides what is stored exactly when the cut fell in the first key, or in a value that still fits with what goes into it |
| HttpResume.ScanReads | HttpData.cpp:332-401 | resumed from any state, a scan has read exactly the text its progress adds |
| HttpUri.Find | HttpData.cpp:268-296 | the first occurrence from a position on, or npos |
| HttpUri.AnyBytes | HttpData.cpp:264-324 | on any bytes: ERROR when none of the three names occurs in front of the first CR; otherwise the method is the first of GET, POST and HEAD to occur, the verdict is SUCCESS exactly when 1.0 or 1.1 follows the slash behind the space behind the slash behind it (or begins the line, when there is none), and the file name is what lies between slash and space |
| HttpUri.LineRoundTrip | HttpData.cpp:264-324 | a request line is read back, path up to the question mark; the method is recovered exactly when no name tried earlier occurs in the line |
| HttpUri.NameInFront | HttpData.cpp:276-292 | the method at the front is found exactly when no name tried earlier occurs in the line |
| HttpUri.CutQueryIsPath | HttpData.cpp:306-308 | the file name is the path before the question mark |
| HttpUri.SplitLineRejected | HttpData.cpp:268-321 | every proper prefix of a request line is rejected, never awaited |
| HttpUri.SplitAtCr | HttpData.cpp:268-273 | the whole line without its CR gets the verdict it would get with it, and stays in the buffer |
| HttpUri.SplitLine | HttpData.cpp:268-323 | the verdict on the first k characters of a request line, for every k, and what is left in the buffer |
| HttpRequest.LineRefused | HttpData.cpp:159-171 | a line with none of the three names, or refused for its version, is answered with 400 with the buffer emptied and the stage and headers kept |
| HttpRequest.WholeRequest | HttpData.cpp:159-183 | a whole request read at once gives back method, path, version and headers, and enters the body stage exactly for POST, one body character short |
| HttpRequest.RequestOutcome | HttpData.cpp:159-205 | held in one buffer, GET and HEAD reach analysis; POST does exactly when its Content-length is not negative and at most one less than the body, or 0; it waits otherwise, is refused without the header, and ends in stoi's exception for one that is no number |
| HttpRequest.PostServed | HttpData.cpp:136-205 | with the head in one read and the body split over it and any later reads, a POST reaches analysis exactly when its length is not negative and at most the body's, less one if any of the body came with the head |
| HttpRequest.OneReadStalls | HttpData.cpp:184-205 | a POST with a body of the announced length gets through in two reads and stalls in one |
| HttpRequest.BodyServed | HttpData.cpp:184-194 | once in the body stage, reads add up until the announced length is there |
| HttpRequest.SplitHead | HttpData.cpp:136-205 | a request whose head is cut anywhere behind its request line: after the second read it is refused with 400, or goes on with the headers and the rest of the body stated |
| HttpRequest.LengthLost | HttpData.cpp:184-193 | a POST is refused when the second read begins with its Content-length line |
| HttpRequest.HeadersRead | HttpData.cpp:326-405 | a printed block in the buffer is read back whole and leaves what follows it without its first character |
| HttpRequest.HttpData.Turn | HttpData.cpp:333-400 | one turn of the switch is one step of the automaton, with the key and value indices marking the text read and never before the one character in front of the buffer |
| HttpRequest.HttpData.ScanBuffer | HttpData.cpp:332-401 | from whichever state an earlier call has left, the loop stops where the automaton does, with the headers of the complete lines stored |
| HttpRequest.HttpData.ParseHeaders | HttpData.cpp:326-408 | from whichever state an earlier call has left and on every buffer: the verdict is the automaton's, the headers stored are those of the complete lines, and what is left in the buffer and the state kept are stated for each verdict |
| HttpRequest.HttpData.ParseRequestLine | HttpData.cpp:264-324 | parse_URI on every buffer is the function AnyBytes speaks of |
| HttpRequest.HttpData.RunStages | HttpData.cpp:159-205 | the stages fall through as specified |
| HttpRequest.HttpData.HandleRead | HttpData.cpp:136-217 | handle_read on every outcome of readn, of stoi and of a failing handle_write: which flags are set, when the request is cleared, when EPOLLIN is asked for again, and that the connection model sets the same flags |
| SocketIO.TakenIs | Util.cpp:91-109 | as many bytes go out as the calls in front of the first EAGAIN or hard error take together, up to all, past any partial writes and interruptions; the call fails exactly when a hard error comes before all are out |
| SocketIO.Socket.WriteLoop | Util.cpp:91-109 | the loop sends the prefix the replies determine, past EINTR, stopping at EAGAIN or an error |
| SocketIO.Socket.WriteN | Util.cpp:91-113 | without an error, bytes taken ++ buffer afterwards == buffer before; with one the buffer stays whole |
| SocketIO.WireIsPrefix | HttpData.cpp:219-229 | over any run of appends and writes the wire is a prefix of what was appended, and without a hard error wire ++ buffer is all of it |
| SocketIO.ServesRequestOut | HttpData.cpp:207-228 | over any run of handle_read calls, as far as the output goes, without a hard error wire ++ buffer is all the text and EPOLLOUT is asked for exactly while some of it is unsent |
| SocketIO.WriteDoes | HttpData.cpp:219-229 | one handle_write member by member, a failing one included, which keeps the buffer whole and clears the mask |
| SocketIO.EnoughGoesOut | HttpData.cpp:207-228 | behind any run without error, when the calls take enough, everything ever appended is on the wire |
| SocketIO.OutRequested | HttpData.cpp:222-227 | a write that leaves bytes behind asks for EPOLLOUT, failed or not |
| SocketIO.OutputSide.HandleWriteEvent | HttpData.cpp:219-229 | handle_write on the members is the specified write |
| SocketIO.ArrivedIs | Util.cpp:28-47 | what arrives is the data in front of the first end of file, EAGAIN or hard error, past any interruptions, and that one says how the reading stops |
| SocketIO.ReadN | Util.cpp:28-47 | everything up to the stop is appended, also when the call then fails, and zero reports the end of the stream |

## Left out

- Log buffers as heap objects: buffers are named by an identity number, so that no two owners share one is proved of the numbers, not of C++ pointers; the move of a LogBuffer is the move of its value.
- The heap inside std::priority_queue: the top is any timer with a least deadline, so among equal deadlines every order is covered.
- Timer, Channel and HttpData as separate objects: one object holds their fields in tables; the weak timer_ link is the timer's number, dead when the timer has left the queue.
- Event masks as 32-bit words: a mask is a record of the eight bits the code sets or tests.
- epoll_ctl failures other than adding a registered or changing an unregistered descriptor.
- Closing of connection descriptors: nothing in the sources does it; the model lets a descriptor be used again once its last connection is disconnected and has no owner.
- Connections.ReconnectedTwice: the second handle_connect after a first one that closed runs on an object without an owner; the model lets it run on the object's last values.
- Connections.ReconnectedIdle: likewise the rest of the branch after handle_close works on the object's last values.
- Undefined behaviour at index -1: the character read there is any character; a crash is not modelled.
- HttpResume.SplitBlock: lines whose key begins with a colon or a space, or whose value begins with CR; the contract of ParseHeaders covers them and any number of reads.
- A second request left in the buffer: reset() clears the buffer before it would be looked at.
- analyze_request (which as it stands refuses every POST, `HttpData.cpp:411-493`), handle_error, the MIME table and file sending: the analysis succeeds or fails as a parameter says, what it appends to buffer_out_ is an append in the output model, and in the connection model what one handle_read comes across is a record of outcomes.
- Request buffers of 2^31 - 1 bytes and more, where an index no longer converts to int unchanged.
- EventLoop::handle_connect and the draining of the eventfd: one step that resets the counter; eventfd overflow is not modelled.
- thread_pool_free and a second destroy call at the same time; failures of mutex and condition-variable calls.
- The pool's tasks and the loop's functors are numbers; what they do is not modelled except, for functors, which further tasks they queue.
- Waiting times: the log thread's wait may end at any moment.
- Scripts of system call results are finite; used up, they answer EAGAIN on a socket and accept everything on a file.
- Floating-point and pointer packing, printing of floating-point values, the disabled 8- and 16-bit packing overloads.
- Server, EventLoopThread, EventLoopThreadPool, Thread, Condition, CountDownLatch, MutexLock, and the readn and writen overloads on raw memory.
