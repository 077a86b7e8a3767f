# serre-sim7080g serial-modem core in Dafny

This project models the firmware code that connects an ESP32 greenhouse controller to
its SIM7080G modem and its network interfaces. The code works in 32-bit unsigned
millisecond time that wraps around:

- **CellularStream.** This is the modem's byte transport. The pump drains the serial
  line. It hands every byte to a byte callback (the tap), and it stores the byte in a
  2048-byte receive ring only while the receive gate is open. The ring keeps one
  slot free, so a full ring holds 2047 bytes. A byte that arrives at a full ring is
  dropped and counted as an overflow. `read`, `peek` and `available` pump first.
- **CellularEvent.** The byte callback assembles the bytes into lines:
  - A CR is ignored. An LF ends a line.
  - A `>` after nothing but blanks is dispatched at once as a PROMPT.
  - A line longer than 255 characters is dropped and counted as an overflow.
  - A line is trimmed of spaces and tabs, and a blank line is discarded.
  - The rest is classified as OK, ERROR (including `+CME ERROR` and `+CMS ERROR`),
    PROMPT or LINE, and handed to the line callback.
- **SmsManager.** This is a queue of at most 10 outbound messages. When a message is
  added to a full queue, the oldest one is dropped. A state machine sends the front
  message in three commands:
  - `AT+CMGF=1`, with two tries;
  - `AT+CMGS`, with two tries;
  - the text, with one try.

  Each failed cycle starts over, and a message is abandoned after 10 cycles. Nothing
  is sent during the first 60 s after boot. A welcome message goes to every
  configured number once the modem is ready. The modem lease is held while a message
  is in flight.
- **TaskManager.** This is the cooperative scheduler. Each task runs when
  `now - lastRunMs >= intervalMs` in unsigned arithmetic, and is then stamped with
  `now`.
- **TaskManagerMonitor.** On every pass it measures the time since the previous pass.
  It raises a latched warning, stamped with the time, when that interval is outside
  1500..2500 ms.
- **ManagerUTC.** This is NTP synchronisation:
  - during boot, up to 10 attempts, 30 s apart;
  - after the first success, a resync every 3 h;
  - UTC counts as valid for 25 h after the last synchronisation.

  It also converts machine time to UTC.
- **WiFiManager.** The access point always starts at boot and can only be switched
  off. The station, when the preferences enable it, is reconnected at most every
  5000 ms.

## How the model is built

Every source module is a Dafny module. Modules whose source updates state are built
in two layers:

1. **A class.** It has the source's variables as fields, and a method per function
   with `modifies` clauses. Each method's `ensures` ties a snapshot of the new state
   (`Snap()`/`View()`) to a pure function of the old snapshot and the inputs.
2. **Lemmas about the pure functions.** The properties are proved here.

Loops stay loops with invariants. These are:

- the pump loop;
- the trimming loops;
- the `memmove`;
- the prompt check;
- the scheduler's task loop;
- `alert`.

The receive ring is an `array` with head and tail indices. A ghost sequence gives
its contents, oldest byte first.

Everything the code reads from outside becomes a parameter:

- `millis()` is a `now` parameter.
- The bytes the serial line has available are an `input` parameter.
- The modem's answers, the WiFi status and the system clock are boolean or integer
  inputs.

Unsigned wrap-around (`Uint.Add32`, `Uint.Sub32`) and the `int32_t` cast
(`ManagerUTC.ToInt32`) are written out. Callbacks are recorded instead of called:

- `tapped` holds the bytes handed to the byte callback.
- `delivered` holds the lines handed to the line callback.
- `ran` holds the positions of scheduled tasks that ran.
- `logged` holds the intervals pushed to the data logger.
- `actions` holds the WiFi library calls.

Six consequences of the code as written are proved about the model:

- Unsigned time differences make the scheduling, retry and validity rules hold
  across the 49.7-day wrap of `millis()`. The flip side is that the SmsManager's
  60 s startup delay also holds again for 60 s after each wrap
  (`SmsManager.StepIdles`, with `elapsed` taken modulo 2^32).
- `nowUtc` is the one place that does not use an unsigned difference: it adds
  the offset to `millis() / 1000`. Once `millis()` wraps past the
  synchronisation point, `nowUtc` is 2^32 / 1000 s (49.7 days) early until the
  next resync, while `isUtcValid` still holds and `convertFromRelative` still
  counts forward (`ManagerUTC.NowUtcRunsBackAfterWrap`,
  `ManagerUTC.NowUtcJumpsAtWrap`).
- `send` on a full queue evicts the front item even while it is being sent. The
  handshake then carries on with the next item: after AT+CMGS addressed the
  evicted item's number, the next item's text goes to that number, and the
  confirmed text removes the next item too. The evicted item is never sent
  (`SmsManager.SendWhileBusyDropsInFlight`).
- ManagerUTC gives up for good after 10 failed boot attempts
  (`ManagerUTC.GivesUpAfterBootAttempts`).
- The `int32_t` UTC offset wraps from 2^31 s after the epoch, in January 2038
  (`ManagerUTC.OffsetWrapsIn2038`).
- Lines that contain a NUL byte are cut at the NUL, because the line callback and
  `classifyLine` see a C string (`CellularEvent.DispatchShape`).

## Model

| member | source | states |
|---|---|---|
| Uint.Add32 | src/Connectivity/CellularStream.cpp:66-79 | a `uint32_t` counter increment: the plain sum when it fits, otherwise reduced modulo 2^32 |
| Uint.Sub32 | src/Core/TaskManager.cpp:13 | unsigned 32-bit subtraction: the difference when `a >= b`, otherwise 2^32 + a - b; adding the result back to `b` gives `a` |
| CellularStream.Used | src/Connectivity/CellularStream.cpp:94-104 | the occupancy from head and tail is (head - tail) mod 2048, at most 2047, and zero exactly when head == tail |
| CellularStream.Dropped | src/Connectivity/CellularStream.cpp:66-79 | a pump never drops more bytes than it offers |
| CellularStream.AcceptKeepsPrefix | src/Connectivity/CellularStream.cpp:66-79 | overflow policy: the ring keeps what it held, then the oldest input bytes that fit, and drops exactly the rest |
| CellularStream.AcceptBounded | src/Connectivity/CellularStream.cpp:66-79 | the ring never shrinks on a push, never holds more than 2047 bytes, and every offered byte is either stored or dropped |
| CellularStream.RunIsFifo | src/Connectivity/CellularStream.cpp:66-79 | FIFO: for any mix of pushes and reads, the bytes read followed by those still buffered are the bytes held at the start followed by the bytes stored, in push order |
| CellularStream.Offer | src/Connectivity/CellularStream.cpp:35-53 | one pump pass adds at most one byte to the ring and at most one to the tap |
| CellularStream.AcceptStep | src/Connectivity/CellularStream.cpp:66-79 | one more byte offered to the ring is pushed, or dropped and counted as dropped exactly when the ring was full |
| CellularStream.PumpedStep | src/Connectivity/CellularStream.cpp:38-52 | one more loop pass on top of the closed form gives the closed form of the longer input |
| CellularStream.PumpedStepOpen | src/Connectivity/CellularStream.cpp:44-46 | with the gate open, the ring, the overflow count and the received count of one more pass agree with the closed form |
| CellularStream.OfferAllIsPumped | src/Connectivity/CellularStream.cpp:35-53 | the byte-by-byte pump loop equals the closed form: every byte is counted and tapped, the gate decides buffering, and each buffered byte counts as received or overflowed |
| CellularStream.Ring | src/Connectivity/CellularStream.cpp:94-104 | the contents between tail and head, wrapping at the end of the array, have length Used(head, tail) |
| CellularStream.FullIff | src/Connectivity/CellularStream.cpp:66-72 | the test `(head + 1) % size == tail` holds exactly when the ring holds 2047 bytes |
| CellularStream.RingPush | src/Connectivity/CellularStream.cpp:74-77 | writing at the head and advancing it appends the byte to the contents |
| CellularStream.RingPop | src/Connectivity/CellularStream.cpp:139-145 | the byte at the tail is the oldest, and advancing the tail removes exactly it |
| CellularStream.Stream.constructor | src/Connectivity/CellularStream.h:74-94 | an empty ring, the gate open, no callback, zero counters |
| CellularStream.Stream.SetByteCallback | src/Connectivity/CellularStream.cpp:19-22 | records whether a byte callback is registered |
| CellularStream.Stream.SetRxBufferingEnabled | src/Connectivity/CellularStream.cpp:27-30 | sets the receive gate |
| CellularStream.Stream.PushByte | src/Connectivity/CellularStream.cpp:66-79 | full exactly at 2047 bytes; when full, only the overflow counter moves; otherwise the byte is written at the head, the head advances, the contents gain the byte and the received count goes up |
| CellularStream.Stream.PumpOne | src/Connectivity/CellularStream.cpp:38-52 | one loop pass moves the stream by Offer |
| CellularStream.Stream.Pump | src/Connectivity/CellularStream.cpp:35-61 | pumping `input` moves the stream to the closed form Pumped, leaves the tail, the gate and the tap alone, and keeps the ring consistent |
| CellularStream.Stream.GetBufferUsed | src/Connectivity/CellularStream.cpp:94-104 | the number of bytes waiting, at most 2047 |
| CellularStream.Stream.Available | src/Connectivity/CellularStream.cpp:114-128 | pumps, then returns the number of bytes waiting |
| CellularStream.Stream.Read | src/Connectivity/CellularStream.cpp:133-146 | pumps, then returns -1 when nothing waits, or else the oldest byte, which is removed by advancing the tail |
| CellularStream.Stream.Peek | src/Connectivity/CellularStream.cpp:151-162 | pumps, then returns the oldest byte (or -1) and removes nothing |
| CellularStream.Stream.PeekThenRead | src/Connectivity/CellularStream.cpp:133-162 | with no new input, peek and the following read return the same value, which is -1 exactly when the ring was empty |
| CellularEvent.Leading | src/Connectivity/CellularEvent.cpp:181-183 | the first trimming loop's count is within the line |
| CellularEvent.Trailing | src/Connectivity/CellularEvent.cpp:186-188 | the second trimming loop's count is within the line |
| CellularEvent.NulIndex | src/Connectivity/CellularEvent.cpp:199-209 | the C-string length of a buffer is within the buffer |
| CellularEvent.LeadingShape | src/Connectivity/CellularEvent.cpp:181-183 | the first trimming loop skips only blanks, and all of them |
| CellularEvent.TrailingShape | src/Connectivity/CellularEvent.cpp:186-188 | the second trimming loop skips only blanks, and all of them |
| CellularEvent.NulIndexShape | src/Connectivity/CellularEvent.cpp:199-209 | the C string ends at the first NUL |
| CellularEvent.CStringShape | src/Connectivity/CellularEvent.cpp:199-209 | the text the callback sees holds no NUL, and is the whole line when the line holds none |
| CellularEvent.ClassifyMeans | src/Connectivity/CellularEvent.cpp:216-240 | OK exactly for "OK"; ERROR exactly for "ERROR" or a line starting with "+CME ERROR"/"+CMS ERROR"; PROMPT exactly for ">"; LINE for all else |
| CellularEvent.ClassifyExamples | src/Connectivity/CellularEvent.cpp:216-240 | a registration report is LINE, a suffixed ERROR or a blank-prefixed OK is LINE, and a CME error is ERROR |
| CellularEvent.TrimShape | src/Connectivity/CellularEvent.cpp:177-188 | trimming yields a slice of the line with only blanks cut off either end, and the slice neither starts nor ends with a blank |
| CellularEvent.TrimEmptyIffBlank | src/Connectivity/CellularEvent.cpp:190-193 | a line is discarded exactly when it is all blanks |
| CellularEvent.DispatchShape | src/Connectivity/CellularEvent.cpp:174-211 | at most one line is dispatched, none exactly for a blank line; the dispatched kind is the classification of exactly the delivered text, which holds no NUL and does not start with a blank |
| CellularEvent.DispatchNulFree | src/Connectivity/CellularEvent.cpp:174-211 | a NUL-free line that is not all blanks is delivered as its trimmed text, which has no blank at either end |
| CellularEvent.CharStep | src/Connectivity/CellularEvent.cpp:116-169 | processChar never leaves the partial line longer than 255 characters |
| CellularEvent.ByteStep | src/Connectivity/CellularEvent.cpp:103-111 | onByte never leaves the partial line longer than 255 characters |
| CellularEvent.Feed | src/Connectivity/CellularEvent.cpp:116-169 | feeding any bytes keeps the partial line within 255 characters |
| CellularEvent.Receive | src/Connectivity/CellularEvent.cpp:103-111 | receiving any bytes keeps the partial line within 255 characters |
| CellularEvent.ReceiveStep | src/Connectivity/CellularEvent.cpp:103-111 | one more byte advances the receiver by one onByte step |
| CellularEvent.ApplyAll | src/Connectivity/CellularEvent.cpp:103-111 | the byte callback run on any input keeps the partial line within 255 characters |
| CellularEvent.SettleStep | src/Connectivity/CellularEvent.cpp:103-169 | helper of ApplyAllIsReceived: applying one more byte effect to a settled outcome gives the settled outcome with that byte's lines and overflow appended |
| CellularEvent.ApplyAllIsReceived | src/Connectivity/CellularEvent.cpp:103-169 | running the byte callback byte by byte delivers exactly the lines of the whole input, in order, and advances the line and overflow counters by their number |
| CellularEvent.FeedConcat | src/Connectivity/CellularEvent.cpp:116-169 | parsing is compositional: two chunks fed one after the other act as their concatenation |
| CellularEvent.FeedPlain | src/Connectivity/CellularEvent.cpp:159-162 | ordinary characters accumulate in the partial line while it has room, and nothing is dispatched |
| CellularEvent.LongLineOverflows | src/Connectivity/CellularEvent.cpp:160-168 | a 256th ordinary character drops the line: empty buffer, nothing dispatched, one overflow |
| CellularEvent.TrimOfTrimmed | src/Connectivity/CellularEvent.cpp:177-188 | trimming leaves a line without blanks at its ends unchanged |
| CellularEvent.FeedCrLf | src/Connectivity/CellularEvent.cpp:118-132 | CR then LF dispatches a non-empty partial line and empties the buffer |
| CellularEvent.DispatchPlain | src/Connectivity/CellularEvent.cpp:174-211 | a NUL-free line without blanks at its ends is delivered unchanged with its classification |
| CellularEvent.PlainText | src/Connectivity/CellularEvent.cpp:159-162 | the text of a plain modem line is not empty, holds no NUL and has no blank at either end |
| CellularEvent.PlainThenCrLf | src/Connectivity/CellularEvent.cpp:118-162 | ordinary bytes followed by CR LF dispatch their text and leave the buffer empty |
| CellularEvent.PlainLineDispatched | src/Connectivity/CellularEvent.cpp:116-211 | a plain modem line followed by CR LF is delivered as itself, classified |
| CellularEvent.Delivered | src/Connectivity/CellularEvent.cpp:208-210 | one delivered line per framed line |
| CellularEvent.FramedLinesInOrder | src/Connectivity/CellularEvent.cpp:116-211 | any number of CR LF framed plain lines are delivered one for one, in the order sent, with no overflow and nothing left over |
| CellularEvent.PromptDispatchedAtOnce | src/Connectivity/CellularEvent.cpp:134-156 | a `>` after nothing but blanks is dispatched at once as PROMPT with text ">" and empties the buffer |
| CellularEvent.GtAfterTextAppended | src/Connectivity/CellularEvent.cpp:135-162 | after text that is not all blanks, `>` is appended as an ordinary character and nothing is dispatched |
| CellularEvent.CeregFraming | src/Connectivity/CellularEvent.cpp:116-132 | the bytes `+CEREG: 0,1` CR LF `OK` CR LF frame two plain lines |
| CellularEvent.CeregThenOk | src/Connectivity/CellularEvent.cpp:116-240 | those bytes deliver exactly two lines, (LINE, "+CEREG: 0,1") then (OK, "OK"), with nothing left over |
| CellularEvent.Receiver.constructor | src/Connectivity/CellularEvent.cpp:14-22 | empty line, parsing off, no callback, zero statistics |
| CellularEvent.Receiver.Init | src/Connectivity/CellularEvent.cpp:27-40 | empties the line, switches parsing off, drops the callback and zeroes the statistics |
| CellularEvent.Receiver.ClearLine | src/Connectivity/CellularEvent.cpp:128-130 | empty line with a NUL in the first slot |
| CellularEvent.Receiver.SetLineCallback | src/Connectivity/CellularEvent.cpp:45-48 | records whether a line callback is registered |
| CellularEvent.Receiver.EnableLineParsing | src/Connectivity/CellularEvent.cpp:53-63 | sets the flag; turning parsing on from off empties the partial line, and otherwise the line is kept |
| CellularEvent.Receiver.TrimBounds | src/Connectivity/CellularEvent.cpp:177-188 | the two loops give bounds whose slice is the trimmed partial line |
| CellularEvent.Receiver.SkipLeading | src/Connectivity/CellularEvent.cpp:181-183 | the first loop stops at the start of the line without its leading blanks |
| CellularEvent.Receiver.SkipTrailing | src/Connectivity/CellularEvent.cpp:186-188 | the second loop stops at the end of the line without its trailing blanks |
| CellularEvent.Receiver.ShiftLeft | src/Connectivity/CellularEvent.cpp:196-198 | the memmove puts the slice at the front and leaves the rest of the buffer as it was |
| CellularEvent.Receiver.DispatchLine | src/Connectivity/CellularEvent.cpp:174-211 | counts and delivers (when a callback is set) exactly Dispatch of the partial line; a blank line leaves the buffer untouched, otherwise the buffer starts with the trimmed text and has a NUL right after it |
| CellularEvent.Receiver.PendingIsBlank | src/Connectivity/CellularEvent.cpp:137-143 | the prompt test is true exactly when the partial line is all blanks |
| CellularEvent.Receiver.ProcessChar | src/Connectivity/CellularEvent.cpp:116-169 | what the owner observes moves by CharStep of the byte |
| CellularEvent.Receiver.EndOfLine | src/Connectivity/CellularEvent.cpp:124-132 | a non-empty line is dispatched, and the buffer ends up empty |
| CellularEvent.Receiver.Prompt | src/Connectivity/CellularEvent.cpp:145-156 | the observation moves by CharStep of `>` on a blank line: one PROMPT, empty buffer |
| CellularEvent.Receiver.Append | src/Connectivity/CellularEvent.cpp:159-168 | the observation moves by CharStep: the byte is appended while there is room, otherwise the line is dropped and an overflow counted |
| CellularEvent.Receiver.OnByte | src/Connectivity/CellularEvent.cpp:103-111 | the observation moves by ByteStep: nothing while parsing is off |
| CellularEvent.Receiver.OnBytes | src/Connectivity/CellularEvent.cpp:103-111 | the byte callback on every byte of `input` moves the observation to Received, the closed form |
| CellularEvent.Receiver.Poll | src/Connectivity/CellularEvent.cpp:91-98 | counts the poll and pumps the stream; the receiver sees exactly the pumped bytes when its callback is registered, and none otherwise |
| SmsManager.Enqueue | src/Connectivity/SmsManager.cpp:283-296 | send puts the new item last and keeps a queue of at most 10 within 10 |
| SmsManager.Items | src/Connectivity/SmsManager.cpp:273-278 | alert produces one item per configured number |
| SmsManager.EnqueueKeepsNewest | src/Connectivity/SmsManager.cpp:283-296 | send keeps the newest 10 items, in order |
| SmsManager.EnqueueAllKeepsNewest | src/Connectivity/SmsManager.cpp:273-296 | any number of sends leave the newest 10 of all the items offered, oldest first |
| SmsManager.InitialInv | src/Connectivity/SmsManager.cpp:32-46 | init leaves a sender in the invariant |
| SmsManager.StepKeepsInv | src/Connectivity/SmsManager.cpp:116-268 | whatever the modem answers, handle keeps the queue within 10, the lease held exactly while a message is in flight, a message in flight, fewer than 10 cycles spent, and the attempt counters within their per-state bounds |
| SmsManager.CountersBounded | src/Connectivity/SmsManager.cpp:24-27 | the attempt counters stay within 20, 20 and 10, so the `int` counters cannot overflow |
| SmsManager.StepIdles | src/Connectivity/SmsManager.cpp:118-140 | before the startup delay handle does nothing; with the welcome handled, it does nothing on an empty queue or a denied lease |
| SmsManager.WelcomeOnce | src/Connectivity/SmsManager.cpp:123-126 | the welcome flag rises exactly on a step past the delay with a ready modem; once it is up, handle never adds to the queue |
| SmsManager.OneAttemptPerStep | src/Connectivity/SmsManager.cpp:144-266 | one handle call spends at most one attempt: the counters are kept, all reset, or exactly one goes up by one |
| SmsManager.HandshakeInOrder | src/Connectivity/SmsManager.cpp:162-258 | CMGS is reached only after CMGF was accepted, the text only after CMGS was accepted, and second tries only from the same command; each command serves whatever item is at the front of the queue at that step |
| SmsManager.TransmitProgress | src/Connectivity/SmsManager.cpp:144-266 | each transmit step removes the current front item (only on a confirmed text or a failed last cycle), or keeps the queue and lowers a budget of at most 51, so with no `send` in between, the front item leaves the queue |
| SmsManager.SendWhileBusyDropsInFlight | src/Connectivity/SmsManager.cpp:283-296 | with a message in flight and 10 queued, send evicts the in-flight item and puts the next one at the front; from the text state a confirmed text then leaves the queue without both of the first two items |
| SmsManager.TransmitKeepsInv | src/Connectivity/SmsManager.cpp:144-266 | a transmit step on a sender holding a message keeps the invariant |
| SmsManager.CmgfKeepsInv | src/Connectivity/SmsManager.cpp:162-197 | the AT+CMGF states keep the invariant |
| SmsManager.CmgsKeepsInv | src/Connectivity/SmsManager.cpp:202-237 | the AT+CMGS states keep the invariant |
| SmsManager.RestartProgress | src/Connectivity/SmsManager.cpp:65-76 | a failed cycle starts the next one at CMGF with one more cycle counted, or after the 10th abandons the front message and frees the lease |
| SmsManager.Sender.constructor | src/Connectivity/SmsManager.cpp:17-46 | an empty idle sender with the boot time recorded, satisfying the invariant |
| SmsManager.Sender.Init | src/Connectivity/SmsManager.cpp:32-46 | resets everything but the queue and records the boot time |
| SmsManager.Sender.Send | src/Connectivity/SmsManager.cpp:283-296 | the queue becomes Enqueue of the new item |
| SmsManager.Sender.Alert | src/Connectivity/SmsManager.cpp:273-278 | the queue receives one item per number in order, and holds the newest 10 |
| SmsManager.Sender.SendStartupSms | src/Connectivity/SmsManager.cpp:51-60 | alerts everyone with the welcome text and raises the flag |
| SmsManager.Sender.FinishCurrentSms | src/Connectivity/SmsManager.cpp:81-111 | drops the front item, frees the lease, and resets the state and counters |
| SmsManager.Sender.RestartSmsCycle | src/Connectivity/SmsManager.cpp:65-76 | the state moves by Restart |
| SmsManager.Sender.Handle | src/Connectivity/SmsManager.cpp:116-268 | the state moves by Step, with the time since boot taken modulo 2^32 |
| SmsManager.Sender.TransmitStep | src/Connectivity/SmsManager.cpp:144-266 | the state moves by Transmit |
| SmsManager.Sender.QueueSize | src/Connectivity/SmsManager.cpp:301-304 | the queue length, at most 10 under the invariant |
| SmsManager.Sender.IsBusy | src/Connectivity/SmsManager.cpp:309-312 | true exactly when not idle; under the invariant, exactly while the lease is held, and then the queue is not empty |
| TaskManager.Tick | src/Core/TaskManager.cpp:10-18 | handle keeps the number of tasks |
| TaskManager.DueIndicesSound | src/Core/TaskManager.cpp:12-16 | only tasks whose interval has elapsed are run, each once, in list order |
| TaskManager.DueIndicesComplete | src/Core/TaskManager.cpp:12-16 | every task whose interval has elapsed is run |
| TaskManager.TickShape | src/Core/TaskManager.cpp:12-16 | handle changes no callback or interval, stamps exactly the due tasks with `now`, and leaves the others as they were |
| TaskManager.TickIdempotent | src/Core/TaskManager.cpp:12-16 | a second handle at the same `now` leaves the list exactly as the first left it |
| TaskManager.TickSettles | src/Core/TaskManager.cpp:10-18 | a second handle at the same time runs only tasks with a zero interval |
| TaskManager.Scheduler.constructor | src/Core/TaskManager.cpp:4 | no tasks and no runs |
| TaskManager.Scheduler.Init | src/Core/TaskManager.cpp:6-8 | leaves no tasks registered |
| TaskManager.Scheduler.ClearTasks | src/Core/TaskManager.cpp:28-30 | leaves no tasks registered |
| TaskManager.Scheduler.AddTask | src/Core/TaskManager.cpp:20-26 | appends a task that has never run |
| TaskManager.Scheduler.Handle | src/Core/TaskManager.cpp:10-18 | the list becomes Tick at `now` (exactly the due tasks stamped with `now`), and the callbacks run are exactly the due ones, in list order |
| TaskManagerMonitor.Notify | src/Core/TaskManagerMonitor.cpp:30-35 | notifyCall remembers the time of the pass |
| TaskManagerMonitor.EvaluateRaises | src/Core/TaskManagerMonitor.cpp:41-65 | the warning rises exactly when there was a previous pass, the interval is outside 1500..2500 ms and no warning is up; it is then stamped with `now`; nothing else ever changes |
| TaskManagerMonitor.Latched | src/Core/TaskManagerMonitor.cpp:53-56 | once up, the warning stays up with its original timestamp for any passes |
| TaskManagerMonitor.RegularStaysQuiet | src/Core/TaskManagerMonitor.cpp:41-65 | passes spaced within the window never raise the warning |
| TaskManagerMonitor.RaisedAtOutlier | src/Core/TaskManagerMonitor.cpp:41-65 | a raised warning carries the time of a pass whose interval since the previous pass was out of the window |
| TaskManagerMonitor.Monitor.constructor | src/Core/TaskManagerMonitor.cpp:11-13 | zero fields, nothing logged |
| TaskManagerMonitor.Monitor.Init | src/Core/TaskManagerMonitor.cpp:19-24 | records the time of the first pass and clears the warning |
| TaskManagerMonitor.Monitor.EvaluateDelta | src/Core/TaskManagerMonitor.cpp:41-65 | the state moves by Evaluate, and the interval is logged exactly when the warning is raised |
| TaskManagerMonitor.Monitor.NotifyCall | src/Core/TaskManagerMonitor.cpp:30-35 | the state moves by Notify |
| TaskManagerMonitor.Monitor.IsWarningActive | src/Core/TaskManagerMonitor.cpp:71-74 | the warning flag |
| TaskManagerMonitor.Monitor.GetWarningTimestampMs | src/Core/TaskManagerMonitor.cpp:76-79 | the time the warning was raised |
| TaskManagerMonitor.Monitor.AcknowledgeWarning | src/Core/TaskManagerMonitor.cpp:85-89 | clears the warning and its timestamp, and keeps the last pass |
| ManagerUTC.ToInt32 | src/Connectivity/ManagerUTC.cpp:137-139 | `static_cast<int32_t>` lands in [-2^31, 2^31), is congruent modulo 2^32, and is the identity when the value fits |
| ManagerUTC.TrySyncOutcome | src/Connectivity/ManagerUTC.cpp:116-142 | succeeds exactly with WiFi connected and UTC at least 1700000000; failure changes nothing; success records the reference point and the offset |
| ManagerUTC.BootAttempt | src/Connectivity/ManagerUTC.cpp:57-70 | before the first success an attempt is made exactly when fewer than 10 were made and 30 s have passed; it is counted and stamped, and success marks the clock synchronised at `now` |
| ManagerUTC.Resync | src/Connectivity/ManagerUTC.cpp:75-79 | after the first success the state changes only when 3 h have passed and the sync succeeds, and the last sync time then moves to `now` |
| ManagerUTC.RunBounds | src/Connectivity/ManagerUTC.cpp:50-80 | over any run, the `uint8_t` boot counter stays within 10 and a synchronised clock stays synchronised |
| ManagerUTC.GivesUpAfterBootAttempts | src/Connectivity/ManagerUTC.cpp:57-70 | after 10 failed boot attempts, handle never changes the clock again |
| ManagerUTC.ValidAfterSync | src/Connectivity/ManagerUTC.cpp:85-89 | never valid before the first sync; after a sync, valid for the next 25 h and invalid 25 h + 1 ms later |
| ManagerUTC.SyncRoundTrip | src/Connectivity/ManagerUTC.cpp:101-111 | at the machine time of the sync, nowUtc and convertFromRelative give back the UTC time read, before 2038 |
| ManagerUTC.ConvertCountsForward | src/Connectivity/ManagerUTC.cpp:106-111 | convertFromRelative counts whole seconds forward from the sync point, across the wrap of the machine clock |
| ManagerUTC.OffsetWrapsIn2038 | src/Connectivity/ManagerUTC.cpp:137-139 | UTC 2^31 read at machine time 0 makes nowUtc 2^32 s early |
| ManagerUTC.ReferencedKept | src/Connectivity/ManagerUTC.cpp:32-142 | init and every handle keep the offset equal to the `int32_t` cast of the synchronisation's UTC minus its machine seconds |
| ManagerUTC.NowUtcFromReference | src/Connectivity/ManagerUTC.cpp:101-104 | with the offset tied to the synchronisation point and fitting 32 bits, nowUtc is the synchronisation's UTC plus the machine seconds of `now` minus those of the synchronisation |
| ManagerUTC.NowUtcAfterSync | src/Connectivity/ManagerUTC.cpp:101-104 | after a sync with a credible UTC time before 2038, nowUtc is that time plus the machine seconds elapsed since |
| ManagerUTC.NowUtcMatchesConvertWithoutWrap | src/Connectivity/ManagerUTC.cpp:101-111 | until machine time wraps after the sync, nowUtc and convertFromRelative differ by at most the one second that separate truncations lose |
| ManagerUTC.NowUtcRunsBackAfterWrap | src/Connectivity/ManagerUTC.cpp:101-111 | once machine time has wrapped past the sync point, nowUtc is no later than the sync's UTC, which convertFromRelative never goes below |
| ManagerUTC.NowUtcJumpsAtWrap | src/Connectivity/ManagerUTC.cpp:85-111 | a sync 1 s before the wrap, read 2 s later: UTC is valid and convertFromRelative gives 2 s later, but nowUtc is 4294967 s early |
| ManagerUTC.UtcClock.constructor | src/Connectivity/ManagerUTC.cpp:19-27 | the static initial state |
| ManagerUTC.UtcClock.Init | src/Connectivity/ManagerUTC.cpp:32-45 | resets every field |
| ManagerUTC.UtcClock.TrySync | src/Connectivity/ManagerUTC.cpp:116-142 | outcome and new state are Attempt's |
| ManagerUTC.UtcClock.Handle | src/Connectivity/ManagerUTC.cpp:50-80 | the state moves by Handled |
| ManagerUTC.UtcClock.IsUtcValid | src/Connectivity/ManagerUTC.cpp:85-89 | false before the first sync, and afterwards true exactly within 25 h of the last one |
| ManagerUTC.UtcClock.NowUtc | src/Connectivity/ManagerUTC.cpp:101-104 | the whole seconds of machine time plus the offset; with the offset tied to the synchronisation point, the synchronisation's UTC plus the machine seconds since it, counted without wrap-around |
| ManagerUTC.UtcClock.ConvertFromRelative | src/Connectivity/ManagerUTC.cpp:106-111 | never before the synchronisation's UTC, and at most 2^32 ms of seconds after it |
| WifiManager.StartedState | src/Connectivity/WifiManager.cpp:40-68 | the access point is up; with the station enabled a first attempt starts, stamped `now`; otherwise only the access point flag changes |
| WifiManager.HandleDisabled | src/Connectivity/WifiManager.cpp:75-82 | a disabled station ends with both flags down, and is disconnected exactly when one of them was up |
| WifiManager.HandleConnected | src/Connectivity/WifiManager.cpp:86-92 | a connected station is marked connected and not connecting, with no library call |
| WifiManager.HandleRetry | src/Connectivity/WifiManager.cpp:95-110 | without a connection a new attempt starts exactly when more than 5000 ms passed since the last; otherwise only the connected flag drops |
| WifiManager.RunKeepsSettings | src/Connectivity/WifiManager.cpp:73-111 | over any run, handle keeps the access point and station settings, never marks the station connected and connecting at once, and only appends library calls |
| WifiManager.ApStaysOff | src/Connectivity/WifiManager.cpp:116-123 | once disabled, the access point never comes back through handle |
| WifiManager.WiFiManager.constructor | src/Connectivity/WifiManager.cpp:10-15 | the static initial flags |
| WifiManager.WiFiManager.Init | src/Connectivity/WifiManager.cpp:21-25 | loads the preference, then starts WiFi |
| WifiManager.WiFiManager.LoadPreferences | src/Connectivity/WifiManager.cpp:30-35 | the stored station flag, true when none is stored |
| WifiManager.WiFiManager.StartWiFi | src/Connectivity/WifiManager.cpp:40-68 | the state moves by Started |
| WifiManager.WiFiManager.Handle | src/Connectivity/WifiManager.cpp:73-111 | the state moves by Handled |
| WifiManager.WiFiManager.DisableAP | src/Connectivity/WifiManager.cpp:116-123 | stops the access point and records the call |
| WifiManager.WiFiManager.IsSTAConnected | src/Connectivity/WifiManager.cpp:142 | a connected station is never still connecting |

## Left out

- Serial I/O: the bytes the serial line has available are the `input` of a pump. `write` and `flush` (CellularStream.cpp:167-180) only forward to the serial port and are not modelled.
- The callbacks' own effects: the byte callback, the line callback and the scheduled tasks are recorded as delivered bytes, lines and task positions, not run.
- CellularEvent.Receiver.Poll: the transport's callback is modelled as the pump followed by OnBytes on the same bytes. This is equivalent because the receiver does not read the ring.
- CellularManager, the TinyGSM driver, and the `sendAT`/`waitResponse` exchange: their results (modem ready, lease granted, command answered OK) are boolean inputs of each SmsManager step. The command timeouts in SmsManager.h are not modelled.
- SmsManager.Sender.FinishCurrentSms: the `success` parameter only chooses a log message, so it is not a parameter here.
- The welcome text of sendStartupSms is built from the operator name, IP address and signal quality; here it is the `welcome` input.
- Logging (Logger) and the monitor's DataLogger record: only the logged interval is kept. The source pushes it as `static_cast<float>(delta)` (TaskManagerMonitor.cpp:62), which rounds intervals above 2^24 ms; the model logs the exact 32-bit value.
- ManagerUTC: `configTime` and the NTP exchange are not modelled; the system clock's UTC and trySync's own `millis()` reading are inputs. `time_t` is an unbounded integer, so the ESP32's `time_t` width is not modelled.
- ManagerUTC.UtcClock.HasEverSynced, ManagerUTC.UtcClock.GetUtcOffset: plain field reads, modelled without a contract.
- WifiManager.WiFiManager.Handle: one `now` stands for every `millis()` reading within a call.
- WifiManager.WiFiManager.IsSTAEnabled, WifiManager.WiFiManager.IsAPEnabled: plain field reads, modelled without a contract.
- setSTAEnabled (WifiManager.cpp:128-136) writes the preference and restarts the board; the restart is outside the model, so it is not modelled. getSTAStatus and getAPStatus (WifiManager.cpp:148-160) only format text.
- The SoftAP and station configuration calls (SSID, password, IP setup) are recorded only as `Begin`/`StopAp` actions.
- The counter getters (getOverflows, getBytesReceived, getTapBytesCount, getPollCount, getLinesReceived, getBufferOverflows, isLineParsingEnabled) are plain field reads; the fields themselves are part of each snapshot.
