# A verified model of the Fastcom serial driver

This project models the KMDF serial port driver and the clock calculator of this repository in Dafny, and
proves what they are for.  `dafny verify dfyconfig.toml` checks everything.

| module | what it models |
|---|---|
| `Ownership`, `OwnershipInvariant`, `OwnershipTheorems`, `OwnershipStatus`, `OwnershipOrder`, `OwnershipClass` | who holds the current read, write, immediate character, wait or Xoff counter: the reference bits that the ISR, the completion DPC, two timers and the cancel routine race to drop; how each request ends, and in which order they are served |
| `Ring`, `Receive` | the typeahead ring, the two-phase copy to a read, the switch of the ISR to the read's own buffer, purging, and replacing the ring while the ISR runs |
| `WaitEvents` | the wait mask, the history mask and the outstanding wait |
| `Wire`, `Transmit` | the transmit side: what goes out in which order, flow control, and the wakeups that keep the transmitter going |
| `RtsCounter` | transmit toggling: what raises RTS and keeps it up, and the paths that try to lower it |
| `OutQueue` | the count of queued characters and the requests behind it |
| `ClockSearch`, `Ics30703`, `ShiftRegister`, `ClockWord335`, `ClockWordFscc`, `ClockProgram` | finding the dividers of the two clock generators, encoding them, and shifting them out |
| `Baud` | divisors for baud rates, on the older cards and on PCIe |
| `Escape` | line and modem status inserted in the received data |

## How the driver's concurrency is modelled

- The DPC, timer, cancel and queue callbacks run one at a time (src/pnp.c:334-341).  The ISR can act between
  any two actions of a callback, except inside the routines that are synchronised with it.
- `Ownership` is a transition system.  Its program counter names the next atomic action of the running
  callback; the ISR, the timers and the user can step at any point.  `OwnershipClass` has the driver's own
  routines, in the driver's order, over mutable fields: every callback is proved to be a run of the
  transition system, so the theorems about all runs are theorems about that code.
- In the other modules a class has the driver's fields, and each method is a stretch of code that nothing
  interrupts, or a sequence of such stretches with arbitrary interference between them (`Arrivals`,
  `Interrupts`, `Outside`).  `Valid` holds between stretches.  Ghost fields record the history: the stream of
  stored bytes, the log of the line, the log of events.
- A timer is idle, queued, or fired with its callback due.  Stopping it succeeds only if it was queued;
  starting it says whether it was.  Queueing a DPC says whether it was not queued yet.  Unmarking a request
  cancelable fails exactly when its cancel routine is already due.  Marking it never calls the cancel routine
  on the spot.
- The UART is an 8250 whose "holding register empty" interrupt comes back when interrupts are enabled with
  the register empty.
- The ISR's bit of `Ownership` is set while the ISR has the request or its completion DPC is queued.  `Receive`,
  `Transmit` and `WaitEvents` have that bit beside the buffer positions and counters by which the driver itself
  tells who has the request (`isrReference`, `writeReference`, `immediateReference`), and keep the two in step.
- The clock, the modem lines, line errors, received characters and the room in the FIFO are arbitrary inputs.

## Where the code does not do what it seems to

Each of these is proved, with the condition under which the code is right.

- An Xoff counter whose timer expires is never completed: the timeout passes no timer to the rundown, so its
  own reference stays (`XoffCounterDrainsExactly`, and a run that gets there, `CounterCanBeLost`).
- A second Xoff counter takes over from an active one without looking; the assertion that there is none fails
  exactly then (`AssertionFailsExactly`).  The first one is forgotten (`NoneForgottenExactly`,
  `CounterCanBeOverwritten`), and a callback that still knew it acts on the second (`StaleExactly`,
  `CounterCanBeStale`).  Apart from that, no assertion of the protocol fails, nothing is forgotten and no
  callback outlives its request.
- Turning automatic transmit flow control off can leave a write waiting for an interrupt that does not come
  (`SetHandFlow`, `LoseWakeup`).
- An Xon that may be sent can be left without an interrupt that would send it (`XonAwake`).  There are two ways
  to get there.  A flow control character asked for while it cannot go spends its interrupt, and nothing brings
  another one when what held it is lifted, unless data can go too: after a modem line or a break
  (`HandleModemUpdate`, `TurnOffBreak`, `StrandXon`) the peer stays stopped.  And a pending Xoff that has to wait
  for the peer's Xon is replaced by an Xon, which could go at once, without an interrupt, because one was
  already asked for (`TakeChars`, `Resized`, `SetHandFlow`, `ForgetXon`).  Every other method is given the exact
  condition too.
- With automatic receive flow control, a ring at its limit can be without an Xoff, sent or pending, and fill up
  to its end: reception counts as held until an Xon has really gone out (`PutChar`, `FillUnguarded`).  It is so
  for a moment after an Xon that had to wait (`ServeThre`), and after a change of the limits (`SetHandFlow`,
  `Resized`).
- A wait that was given its events ends cancelled, without them, if and only if its cancel routine is due when
  its DPC runs (`DeliveredReachesExactly`, `LoseEvent`).
- With transmit toggling, RTS can be up with nothing that keeps it up and no path under way that would lower it
  (`LeftUp`).  Exactly three actions leave it so, each under an exact condition, and `Use` shows that there is
  no other: the end of the last write when no path is under way and nobody waits for TXEMPTY (`GetNextWrite`,
  `ToggleDuringWrite`, `EndUnsent`, `EndAfterPath`), an immediate character taken back when it was all that
  kept RTS up (`GrabImmediateFromIsr`, `GrabLast`), and the start of toggling while the last characters are
  leaving (`StartToggling`, `ToggleTooEarly`).
- The request that a second Xoff counter overwrites is never completed (`GetNextWrite`, `OverwriteCounter`).
- The amount reported for the output queue is too high while a finished write or an Xoff counter is current
  (`AmountInOutQueue`); the context of a counter never gets a length.
- A character read because of an overrun is stored without the zero that marks an escape character
  (`ReaderLearns`).
- The shift-out for the 335 card loses the first bit of the word if the clock pin is high on entry, and its last
  write then clocks one bit more, which a strobe pin that was high latches (`SetClockBitsPCI`); what the FSCC one
  latches does not depend on the pins.
- A rate whose product with the samples a bit does not fit in 32 bits can be accepted though the clock is too
  slow, with a clock from 2^28 on or more than 16 samples a bit (`AcceptedIsSupported`, `AcceptsTooFast`).  A PCIe
  card's rate of zero is divided by (`PcieSetBaudRate`).
- A divisor of 65535 is taken for "none", and larger ones lose their upper bits (`SetBaud`); PCIe
  divisors from 2^20 on are truncated (`PcieSetBaudRate`).
- An output divider the ICS307-03 does not have would be encoded as 7, but the search never tries one
  (`EncodeOutputDivider`, `TriedIsRepresentable`).

Code and comments differ in a few places; the model follows the code.  The comment in `SerialPerhapsLowerRTS`
says that writes that are held back do not keep RTS up (src/modmflow.c:1509-1515); by the precedence of the
operators that is true of queued writes only.  The comments about flush requests in the write queue
(src/write.c:361-363, 492-493) describe something that no longer happens: a flush completes at once
(src/flush.c:57-77).
The comment on the FIFO room says the default is impossibly high (src/utils.c:2368-2371), but it is 4.
The driver's authors note the abandoned Xoff counter themselves (src/write.c:399-401).


## Model

| member | source | states |
|---|---|---|
| `OwnershipTheorems.AssertionFailsExactly` | `src/write.c:371-383` | in every run of every kind of slot, an assertion fails if and only if an Xoff counter ends as a write while another one is active; no set or clear of a reference bit ever finds the bit in the wrong state before that |
| `OwnershipTheorems.NoAssertionFails` | `src/serialp.h:559-573` | so for reads, writes, immediate characters and waits none ever fails |
| `OwnershipTheorems.ExactlyOnce` | `src/utils.c:327-382` | in every run of every kind of slot, each request handed to the driver is in one place: in flight, completed and never completed twice, handed over from the write slot as an Xoff counter that was sent, or overwritten by another Xoff counter |
| `OwnershipTheorems.NoneForgottenExactly` | `src/write.c:371-428` | every request is in flight or has left the slot in the log of completions and hand-overs if and only if no Xoff counter has taken over from an active one |
| `OwnershipTheorems.StaleExactly` | `src/write.c:412-428` | at some point of a run a callback that is due, or the ISR, knows a request that is not current any more, if and only if an Xoff counter takes over from one that is still known |
| `OwnershipTheorems.NoStaleCallback` | `src/utils.c:517-655` | in the other runs, once a request has left the slot, no DPC, timer, cancel routine or ISR that is still due refers to it |
| `OwnershipTheorems.CompletionFindsNoHolder` | `src/utils.c:327-382` | and the step by which it leaves finds its reference set empty and nobody who still knows it |
| `OwnershipTheorems.LeftIncomplete` | `src/utils.c:383-389` | when completion is given up, the ISR, the timers and the cancel routine have been stopped and only callbacks already due hold the request |
| `OwnershipTheorems.DrainingHasCallback` | `src/utils.c:564-654` | a request left to its callbacks always has one that is ready to run |
| `OwnershipTheorems.DrainStep` | `src/utils.c:564-654` | each callback that starts on such a request uses up one of its references; nothing else adds any, and nothing but another Xoff counter takes the request away |
| `OwnershipTheorems.DrainsWithin` | `src/utils.c:272-389` | after at most as many callbacks as it has reference bits such a request has left the slot, whatever the environment does in between, if and only if it was not overwritten |
| `OwnershipTheorems.XoffCounterDrainsExactly` | `src/write.c:1076-1079` | an active Xoff counter left to its callbacks is completed by them if and only if its timer has not expired and no other counter has overwritten it |
| `OwnershipTheorems.XoffCounterBecomesActive` | `src/write.c:412-462` | a concrete run that activates a counter with a timer |
| `OwnershipTheorems.XoffCounterTimesOut` | `src/write.c:1047-1080` | the run goes on: the timer expires and its callback starts |
| `OwnershipTheorems.XoffCounterTimeoutLeaks` | `src/write.c:1047-1080` | and ends with a counter whose timer reference nothing will ever drop |
| `OwnershipTheorems.CounterCanBeLost` | `src/write.c:1047-1080` | so a fresh slot can get there, and from there the counter is never completed, whatever happens next |
| `OwnershipTheorems.CounterCanBeOverwritten` | `src/write.c:383-419` | from there one more counter makes the assertion fail and the lost one is forgotten |
| `OwnershipTheorems.CounterCanBeStale` | `src/write.c:383-419` | a concrete run after which a cancel routine is due for a counter that is not current any more |
| `OwnershipTheorems.TimerLostRun` | `src/write.c:1076-1079` | once an Xoff counter has lost its timer, it keeps that reference in every continuation of the run, until it is overwritten |
| `OwnershipInvariant.RunKeepsInv` | `src/utils.c:224-389` | the ownership invariant over every interleaving in which no Xoff counter takes over from one still known: each bit is set exactly while what it stands for is pending or in the hands of the running callback, everything pending is pending for the current request, and every request is in one place |
| `OwnershipInvariant.RunKeepsEachOnce` | `src/utils.c:141-219` | in every interleaving without exception, every request stays in one place |
| `OwnershipInvariant.OthersNeverOverwrite` | `src/write.c:371-428` | no read, write, immediate character or wait is ever overwritten |
| `OwnershipInvariant.StepKeepsSound` | `src/utils.c:224-389` | one step keeps the meaning of the bits and fails an assertion exactly if it ends a counter as a write while another is active |
| `OwnershipInvariant.StepKeepsInv` | `src/utils.c:224-389` | one step of any callback or of the environment keeps the invariant |
| `OwnershipInvariant.StepKeepsEachOnce` | `src/utils.c:141-219` | no step loses or duplicates a request |
| `OwnershipInvariant.InitialInv` | `src/openclos.c:205-253` | a fresh slot satisfies the invariant |
| `OwnershipInvariant.StartStepKeepsSafe` | `src/read.c:143-533` | each atomic action of the start routines keeps the meaning of the bits |
| `OwnershipInvariant.TryStepKeepsSafe` | `src/utils.c:517-655` | each atomic action of the rundown keeps the meaning of the bits |
| `OwnershipInvariant.CallbackKeepsSafe` | `src/utils.c:272-285` | the start of a completion DPC, cancel routine or timer callback keeps the meaning of the bits |
| `OwnershipInvariant.EnvironmentKeepsSafe` | `src/utils.c:1221-1278` | an ISR that finishes, a timer that expires and a user who cancels keep the meaning of the bits, at any point |
| `OwnershipInvariant.PurgeKeepsSafe` | `src/utils.c:46-98` | a purge keeps the meaning of the bits |
| `OwnershipInvariant.DisplaceKeepsSafe` | `src/write.c:158-212` | a write that pushes an Xoff counter out of the way keeps the meaning of the bits |
| `OwnershipInvariant.JudgeKeepsSafe` | `src/read.c:836-1040` | the interval timer, which may restart itself, keeps the meaning of the bits |
| `OwnershipClass.RequestSlot.constructor` | `src/openclos.c:205-253` | a fresh slot |
| `OwnershipClass.RequestSlot.ClearCancelRoutine` | `src/utils.c:1897-1930` | unmarks unless the cancel routine is already due, and drops the reference if asked |
| `OwnershipClass.RequestSlot.SetCancelRoutine` | `src/utils.c:1877-1895` | marks the request cancelable and takes the reference |
| `OwnershipClass.RequestSlot.SetTotalTimer` | `src/write.c:275-290` | starts the timer; only a start that finds it idle takes a reference |
| `OwnershipClass.RequestSlot.SetIntervalTimer` | `src/read.c:490-505` | the same for the interval timer |
| `OwnershipClass.RequestSlot.GiveToIsr` | `src/write.c:699-707` | the ISR gets the request and its reference in one action of the transition system |
| `OwnershipClass.RequestSlot.CompleteAtOnce` | `src/waitmask.c:384-413` | a wait that is already satisfied gets the reference and the completion DPC instead |
| `OwnershipClass.RequestSlot.GetNextRequest` | `src/utils.c:141-219` | completes the current request and makes the head of the queue, which moves up by one, current |
| `OwnershipClass.RequestSlot.StartRead` | `src/read.c:143-533` | with interrupts between any two actions, the loop does exactly the actions of the transition system and ends with no callback running |
| `OwnershipClass.RequestSlot.StartWrite` | `src/write.c:121-302` | the same for writes and immediate characters |
| `OwnershipClass.RequestSlot.StartWait` | `src/waitmask.c:187-215` | the same for a wait |
| `OwnershipClass.RequestSlot.StartXoffCounter` | `src/write.c:412-462` | the same for an Xoff counter |
| `OwnershipClass.RequestSlot.ReplaceCounter` | `src/write.c:371-419` | a counter that ends as a write while another one is active replaces it and fails the assertion, as the transition system says |
| `OwnershipClass.RequestSlot.GrabFromIsr` | `src/write.c:847-927` | takes the request back if the ISR still has it |
| `OwnershipClass.RequestSlot.StopIntervalTimer` | `src/utils.c:578-612` | a timer that was still queued gives its reference back, and so does one whose callback is running |
| `OwnershipClass.RequestSlot.StopTotalTimer` | `src/utils.c:614-654` | the same for the total timer, which waits do not have and the timeout of an Xoff counter does not pass |
| `OwnershipClass.RequestSlot.CompleteIfFree` | `src/utils.c:327-389` | completes the request exactly if the reference set is empty |
| `OwnershipClass.RequestSlot.RundownIrpRefs` | `src/utils.c:517-655` | with interrupts between any two actions, the rundown does exactly its actions of the transition system |
| `OwnershipClass.RequestSlot.TryToCompleteCurrent` | `src/utils.c:224-389` | the whole attempt, including the start of the next request, is a run of the transition system |
| `OwnershipClass.RequestSlot.CompletionDpc` | `src/read.c:536-597` | the callback adds its own call to the run and then only its own actions and the environment's |
| `OwnershipClass.RequestSlot.CancelRoutine` | `src/read.c:599-655` | the same for the cancel routine |
| `OwnershipClass.RequestSlot.TotalTimeout` | `src/read.c:735-793` | the same for the total timer |
| `OwnershipClass.RequestSlot.IntervalTimeout` | `src/read.c:836-1040` | the same for the interval timer; with which status it may end a read is in SilenceTimesOut and LastWord |
| `OwnershipClass.RequestSlot.DisplaceXoffCounter` | `src/write.c:158-212` | the same for a write that displaces an Xoff counter |
| `OwnershipClass.RequestSlot.StartOrQueue` | `src/utils.c:727-761` | a request becomes current only if nothing is current or queued, and is queued otherwise; a finished Xoff counter becomes current in any case |
| `OwnershipClass.RequestSlot.CanceledOnQueue` | `src/utils.c:763-845` | a request cancelled on the queue leaves it and is completed |
| `OwnershipClass.RequestSlot.PurgeRequests` | `src/utils.c:46-98` | everything queued is cancelled, and the current request's cancel routine is called if it can be |
| `OwnershipStatus.CancelledOnlyIf` | `src/utils.c:345-349` | in every run of every kind of slot, a request ends cancelled, and so returns nothing, only if the user cancelled one, on the queue or not, or a purge did |
| `OwnershipStatus.TimedOutOnlyIf` | `src/read.c:836-1040` | a request ends timed out only if a timer has expired |
| `OwnershipStatus.SuccessOnlyIf` | `src/read.c:536-597` | a request ends with success, or is handed over, only if the ISR has finished one or a read or a wait was satisfied when it was about to be given to the ISR |
| `OwnershipStatus.MoreWritesOnlyIf` | `src/write.c:158-212` | a request gives way to more writes only if a write has displaced an Xoff counter |
| `OwnershipStatus.SilenceTimesOut` | `src/read.c:985-1040` | a read that the ISR never finishes, in a run without cancellations and purges, ends timed out if it ends, by whichever timer: it returns the bytes it has |
| `OwnershipStatus.LastWord` | `src/read.c:857-945` | for reads, writes, immediate characters and waits: as long as no other decision comes while the request is current, a completion DPC ends it with success, a cancel routine or a purge that calls it cancelled, the total timer timed out; the interval timer only carries the decision out |
| `OwnershipStatus.FilledReadSucceeds` | `src/read.c:857-885` | so a read whose completion DPC has run ends with success unless the total timer, the cancel routine or a purge comes after it, whatever the interval timer does |
| `OwnershipOrder.FirstComeFirstServed` | `src/utils.c:141-219` | in every run of every kind of slot, the current request and those queued behind it stand in the order in which they were handed to the driver |
| `Receive.Receiver.constructor` | `src/openclos.c:215-235` | the state at open: an empty ring and nothing stored |
| `Receive.Receiver.PutChar` | `src/isr.c:984-1214` | a byte is dropped exactly if the ISR stores into the ring and the ring is full; otherwise it is appended to the stored stream |
| `Receive.Receiver.PutInUser` | `src/isr.c:998-1044` | the last free byte of the read's buffer completes the read and sends the ISR back to an empty ring |
| `Receive.Receiver.PutInRing` | `src/isr.c:1145-1214` | the byte is appended to what waits in the ring |
| `Receive.Receiver.MoveMemory` | `src/read.c:1102-1180` | a block move delivers the right bytes although the ISR may store before every single byte of it |
| `Receive.Receiver.GetCharsFromIntBuffer` | `src/read.c:1043-1184` | the first phase copies the oldest waiting bytes, as many as are needed and there, in both the straight and the wrapped case, with bytes arriving meanwhile |
| `Receive.Receiver.UpdateInterruptBuffer` | `src/read.c:1199-1228` | the second phase takes exactly the copied bytes off the count |
| `Receive.Receiver.UpdateAndSwitchToUser` | `src/read.c:1252-1416` | under the lock, either the read completes or the ring is empty and the ISR fills the read |
| `Receive.Receiver.StartRead` | `src/read.c:197-448` | a read gets the next bytes of the stream; at once what is there if the timeouts ask for that, or for anything and there is something; otherwise it completes full, or the ISR is left to fill the rest with the ring empty; it is cut down to its first byte exactly if the interval and the multiplier are at their maximum, the constant is not, and the ring was empty |
| `Receive.Receiver.Plan` | `src/read.c:275-335` | what the timeouts of the port ask of a read |
| `Receive.Receiver.GrabReadFromIsr` | `src/read.c:656-733` | a read taken from the ISR reports exactly the bytes in its buffer |
| `Receive.Receiver.FinishRead` | `src/read.c:536-597` | what is in the buffer of a finished read is appended to the delivered stream; the application is told how much that is, or nothing if the read was cancelled |
| `Receive.Receiver.PurgeInterruptBuff` | `src/purge.c:123-175` | exactly the waiting bytes are removed, and nothing while the ISR fills a read |
| `Receive.Receiver.MoveToNewIntBuffer` | `src/read.c:1546-1648` | each phase of a resize copies exactly the waiting bytes to the given place, with bytes arriving unless the lock is held |
| `Receive.Receiver.SwitchToNew` | `src/read.c:1650-1746` | the new ring holds what was moved and what came since, contiguous from its start, with the next free slot in bounds |
| `Receive.Receiver.ResizeBuffer` | `src/read.c:1430-1543` | a larger ring ends up with the old contents followed by everything that arrived during the resize; a smaller one changes nothing |
| `Receive.Receiver.ValidAccounts` | `src/isr.c:984-1214` | at every moment the stored stream is the finished reads, then the current read's bytes, then what a resize has moved, then the ring |
| `Receive.Passed` | `src/read.c:1114-1180` | taking copied bytes over to the read keeps that equation |
| `Receive.Moved` | `src/read.c:1580-1640` | taking copied bytes over to a new buffer keeps it |
| `Receive.TailArrived` | `src/read.c:1650-1746` | what arrived during a resize is what the stored stream has gained |
| `Ring.PutAppends` | `src/isr.c:1145-1214` | storing at the current slot appends to the sequence in the ring, across the wrap |
| `Ring.DropAdvances` | `src/read.c:1114-1180` | advancing the first readable character splits the sequence in the ring, across the wrap |
| `WaitEvents.NothingLost` | `src/waitmask.c:238-498` | a noted event is still owed, or a later wait was given it, or a later mask was not interested |
| `WaitEvents.NothingInvented` | `src/isr.c:365-403` | each event a wait is given has its own occurrence, noted after the previous delivery |
| `WaitEvents.FirstWaitWins` | `src/waitmask.c:72-228` | in a batch of mask requests, one becomes the wait exactly if it is the first that finds a mask and none was outstanding |
| `WaitEvents.WaitsRefused` | `src/waitmask.c:145-160` | a request of a batch is refused exactly if it is a wait and finds no mask, or a wait was outstanding before the batch, or an earlier wait of the batch found a mask |
| `WaitEvents.MasksSucceed` | `src/waitmask.c:95-135` | the requests that succeed at once are exactly those that set a mask |
| `WaitEvents.LastMaskIs` | `src/waitmask.c:416-498` | the mask in force is that of the last request that set one, or the one before the batch |
| `WaitEvents.OwesAfter` | `src/isr.c:365-403` | what one more entry of the log does to the events owed |
| `WaitEvents.BooksAfter` | `src/waitmask.c:417-498` | the history mask stays exactly the events owed, and the log faithful, through every kind of entry |
| `WaitEvents.Waits.constructor` | `src/openclos.c:248-250` | the state at open: no mask, no history, no wait |
| `WaitEvents.Waits.Note` | `src/isr.c:370-403` | an event asked for goes into the history or, with a wait at the ISR, into that wait together with nothing else |
| `WaitEvents.Waits.ReceivedChar` | `src/isr.c:365-403` | a received character notes RXCHAR, and RXFLAG too if it is the event character |
| `WaitEvents.Waits.RingFilledTo` | `src/isr.c:1155-1183` | the fill level is noted exactly when the count hits three quarters and a sixteenth of the ring |
| `WaitEvents.Waits.LineStatus` | `src/isr.c:1477-1515` | line errors and breaks are noted |
| `WaitEvents.Waits.ModemStatus` | `src/modmflow.c:1255-1308` | changes of the modem lines are noted |
| `WaitEvents.Waits.ProcessEmptyTransmit` | `src/write.c:604-620` | the end of transmission is noted exactly if nothing is left and the ISR has sent something since the wait began |
| `WaitEvents.Waits.GiveWaitToIsr` | `src/waitmask.c:311-413` | a wait gets the whole history at once, or is left with the ISR if there is none |
| `WaitEvents.Waits.GrabWaitFromIsr` | `src/waitmask.c:238-309` | a wait taken from the ISR gets a zero mask and takes no event with it |
| `WaitEvents.Waits.FinishOldWait` | `src/waitmask.c:416-498` | a new mask ends the old wait with zero and keeps the history it is still interested in |
| `WaitEvents.Waits.DeliveredReachesExactly` | `src/waitmask.c:500-574` | a mask written into a wait that has ended was returned to the application if and only if the cancel routine was not due when the completion DPC ran; otherwise the wait ended cancelled and nothing reports those events again |
| `WaitEvents.LoseEvent` | `src/waitmask.c:500-574` | a concrete run in which an event is delivered and lost like that |
| `WaitEvents.Waits.CompleteWait` | `src/waitmask.c:547-574` | the wait ends with the mask it was given, unless its cancel routine is already due |
| `WaitEvents.Waits.CancelWait` | `src/waitmask.c:500-545` | an answered wait is left to its completion if that is still to come; otherwise it ends cancelled, without its mask |
| `WaitEvents.Waits.StartMask` | `src/waitmask.c:31-235` | the loop leaves the last mask and gives every request of a batch its outcome, success exactly to those that set a mask and a refusal exactly as in WaitsRefused, with interrupts throughout |
| `Wire.StoppedMeans` | `src/isr.c:318-365` | being stopped, as the driver tracks it, means that something stopped it and nothing has lifted that since |
| `Wire.StopUntilGo` | `src/isr.c:720-845` | after an Xoff, received or sent, no data goes out before an Xon |
| `Wire.XoffStays` | `src/isr.c:601-667` | a peer sent an Xoff and then no Xon is stopped |
| `Transmit.Transmitter.constructor` | `src/openclos.c:205-253` | the state at open |
| `Transmit.Transmitter.ProcessLSR` | `src/isr.c:1261-1545` | the driver's idea of the holding register is corrected, and an error with something to send tickles the UART; only that wakes a pending Xon |
| `Transmit.Transmitter.ProdXonXoff` | `src/modmflow.c:1067-1129` | exactly one of the two send flags is set; an interrupt is coming afterwards if and only if one was before or neither flag was set |
| `Transmit.Transmitter.HandleModemUpdate` | `src/modmflow.c:1310-1448` | each of CTS, DSR and DCD holds transmission exactly if its handshake is set and the line is down, and the other holds stay; a release brings an interrupt if and only if data can go, so a pending Xon that may go is left without one exactly if none was coming and data cannot go with it |
| `Transmit.Transmitter.ReceiveFlowChar` | `src/isr.c:300-365` | an Xoff stops transmission and an Xon lifts it; Xoff wins if both are the same character; a pending Xon is neither woken nor put to sleep |
| `Transmit.Transmitter.PutChar` | `src/isr.c:1113-1150` | a ring filled to its limit asks for an Xoff unless one was asked for and not yet taken back; a ring at its limit ends without an Xoff sent or pending exactly if reception counted as held before and none was |
| `Transmit.Transmitter.TakeChars` | `src/modmflow.c:993-1065` | after any drain to the Xon limit or below, a stopped peer has an Xon pending; no interrupt is coming for it exactly if none was and a flow control character was already asked for |
| `Transmit.Transmitter.PutData` | `src/isr.c:720-845` | the next characters of the write go out, as many as the room, the FIFO setting and the write allow; the write completes with the last; only a FIFO without room leaves the driver with a wrong idea of the register |
| `Transmit.Transmitter.FillHolding` | `src/isr.c:775-824` | the loop puts the characters on the line in order |
| `Transmit.Transmitter.SendOne` | `src/isr.c:541-845` | Xon before Xoff before immediate before data, each only past its own holds; the data branch is reached only with data left |
| `Transmit.Transmitter.ServeThre` | `src/isr.c:490-845` | something goes out if and only if something to send is held neither by a break nor by a line that a handshake names and that is down, nor, unless it is an Xon or an immediate character, by an Xoff; what is first in the order of the code goes out, and of a write as much as the FIFO, its room and the write allow; an Xon sent while the ring is at its limit leaves the peer free to send |
| `Transmit.Transmitter.Isr` | `src/isr.c:101-890` | without an interrupt pending nothing changes; otherwise the routine ends, whatever happens during it, with the transmitter awake; while no modem line changes, a pending Xon is left without an interrupt exactly if it was before and nothing was served; when one does, UseInPieces has the condition |
| `Transmit.Transmitter.GiveWriteToIsr` | `src/write.c:632-755` | a new write finds or makes the transmitter awake; no interrupt is brought about exactly if an immediate character is there |
| `Transmit.Transmitter.GrabWriteFromIsr` | `src/write.c:847-927` | a timed-out or cancelled write reports exactly the characters sent; the reference of the ISR goes unless the completion DPC is queued |
| `Transmit.Transmitter.FinishWrite` | `src/write.c:516-557` | at the end of a write, the data on the line since open is exactly what all the writes reported |
| `Transmit.Transmitter.GiveImmediateToIsr` | `src/immediat.c:319-399` | an immediate character finds or makes the transmitter awake |
| `Transmit.Transmitter.GrabImmediateFromIsr` | `src/immediat.c:401-456` | an immediate character taken back stays off the line; the reference of the ISR goes unless the completion DPC is queued |
| `Transmit.Transmitter.TurnOnBreak` | `src/modmflow.c:732-784` | a break holds transmission |
| `Transmit.Transmitter.TurnOffBreak` | `src/modmflow.c:786-871` | the end of a break wakes the transmitter for data, and for an Xon exactly if data can go too |
| `Transmit.Transmitter.PretendXoff` | `src/modmflow.c:873-923` | acts like an Xoff |
| `Transmit.Transmitter.PretendXon` | `src/modmflow.c:925-991` | acts like an Xon and wakes the transmitter for data, and for an Xon exactly if data can go too |
| `Transmit.Transmitter.Resized` | `src/read.c:1712-1742` | a larger ring brings the default limits and, to a stopped peer below them, an Xon; whether an interrupt comes for it, and whether a ring at its new limit has an Xoff sent or pending |
| `Transmit.Transmitter.SetupNewHandFlow` | `src/modmflow.c:537-671` | new Xon/Xoff settings release what only the old ones held, and which flow control character is pending afterwards; an interrupt is brought about exactly if none was pending before |
| `Transmit.Transmitter.SetHandFlow` | `src/modmflow.c:679-730` | new settings put the transmitter to sleep if and only if automatic transmit control is turned off while an Xoff is the only hold, something waits, the register is empty without an interrupt, and a flow control character was already asked for; the like for a pending Xon, and for a ring at its new limit without an Xoff |
| `Transmit.Transmitter.Use` | `src/isr.c:873-885` | however all of these calls follow each other, the transmitter is awake until a change of the settings loses a wakeup, and only then |
| `Transmit.Transmitter.UseInPieces` | `src/modmflow.c:1109-1127` | however the stretches of code that make up the ISR and the callbacks follow each other, a pending Xon that may go has an interrupt coming until a release of the lines or of a break, a drain or new settings strand it, and only then, as a condition on the state before says |
| `Transmit.Transmitter.GuardInPieces` | `src/isr.c:1113-1142` | in every such sequence, a ring at its limit is without an Xoff exactly as the last character, drain, Xon, new size or new settings left it, each by a condition on the state before |
| `Transmit.StrandXon` | `src/modmflow.c:1400-1409` | a concrete run after which a stopped peer's Xon could be sent but no interrupt is coming: the release of CTS wakes the transmitter only for data |
| `Transmit.ForgetXon` | `src/modmflow.c:1109-1127` | another one without any modem line: the Xon replaces an Xoff that had to wait for the peer's own Xon, and no interrupt is coming |
| `Transmit.FillUnguarded` | `src/isr.c:1113-1142` | from there the ring fills up to its last slot without any Xoff sent or pending |
| `Transmit.LoseWakeup` | `src/modmflow.c:1109-1127` | from there, a run that loses the wakeup of a write |
| `RtsCounter.RtsPaths.QueueDpc` | `src/modmflow.c:1545-1548` | a DPC that is queued already is not counted again |
| `RtsCounter.RtsPaths.SendChars` | `src/isr.c:549-770` | every character sent while toggling leaves RTS up and a path that will lower it |
| `RtsCounter.RtsPaths.ChangeLines` | `src/modmflow.c:1376-1390` | a modem line that begins to hold transmission begins a path, and so ends a state in which RTS is left up |
| `RtsCounter.RtsPaths.ReceiveXoff` | `src/isr.c:318-338` | so does an Xoff |
| `RtsCounter.RtsPaths.PerhapsLowerRTS` | `src/modmflow.c:1455-1574` | lowers RTS exactly if nothing keeps it up and the hardware is empty, tries later if it is not, and ends one path |
| `RtsCounter.RtsPaths.LowerDirectly` | `src/modmflow.c:862-863` | a direct call is a path from its start to its end, and never leaves RTS up |
| `RtsCounter.RtsPaths.StartDpc` | `src/modmflow.c:1576-1607` | the DPC turns from queued to running without a change of the count |
| `RtsCounter.RtsPaths.SetTimer` | `src/modmflow.c:1622-1646` | a timer that was idle takes the path over; one that was queued makes it end |
| `RtsCounter.RtsPaths.DecrementRTSCounter` | `src/modmflow.c:1688-1730` | the count never underflows, and the path that superseded this one is still there |
| `RtsCounter.RtsPaths.InvokePerhapsLowerRTS` | `src/modmflow.c:1651-1686` | the callback of the timer lowers RTS, begins a new path, or ends its path and leaves RTS alone because something keeps it up; it never leaves RTS up otherwise |
| `RtsCounter.RtsPaths.StartOrQueue` | `src/utils.c:739-761` | a write keeps RTS up from the moment it becomes current |
| `RtsCounter.RtsPaths.GiveWriteToIsr` | `src/write.c:739-752` | a write given to the ISR raises RTS and begins no path |
| `RtsCounter.RtsPaths.GetNextWrite` | `src/write.c:467-487` | the end of the last write leaves RTS up with nothing to keep it up and no path if and only if no path was under way, no break or immediate character keeps it up, and no wait for TXEMPTY is there that the ISR has sent for |
| `RtsCounter.RtsPaths.ProcessEmptyTransmit` | `src/write.c:600-628` | only a wait for TXEMPTY that the ISR has sent for ends a state in which RTS is left up |
| `RtsCounter.RtsPaths.GrabImmediateFromIsr` | `src/immediat.c:401-456` | taking an immediate character back leaves RTS up if and only if that character was all that kept it up and no path was under way |
| `RtsCounter.RtsPaths.GetNextImmediate` | `src/immediat.c:225-272` | the end of an immediate character ends such a state only under the same condition |
| `RtsCounter.RtsPaths.TurnOnBreak` | `src/modmflow.c:764-769` | a break raises RTS and keeps it up |
| `RtsCounter.RtsPaths.TurnOffBreak` | `src/modmflow.c:825-866` | its end never leaves RTS up |
| `RtsCounter.RtsPaths.StartToggling` | `src/modmflow.c:454-522` | when toggling is turned on, RTS is up exactly if something keeps it up or is still in the hardware, and no path is started; it is left up if and only if nothing keeps it up, the hardware was not empty and no path was under way |
| `RtsCounter.RtsPaths.Use` | `src/modmflow.c:1455-1574` | however all of these actions follow each other, RTS is left up by nothing but the end of a write, an immediate character taken back and the start of toggling, exactly as the three conditions say |
| `RtsCounter.ToggleTooEarly` | `src/modmflow.c:495-507` | a concrete run: toggling is turned on with the last character of a finished write in the hardware |
| `RtsCounter.ToggleDuringWrite` | `src/modmflow.c:495-507` | another: with the write sent, but still current |
| `RtsCounter.EndUnsent` | `src/write.c:739-752` | another: a write ends before its first character |
| `RtsCounter.EndAfterPath` | `src/write.c:604-624` | another: a write is sent to the end, and its path ends before the write does |
| `RtsCounter.GrabLast` | `src/immediat.c:401-456` | another: an immediate character is taken back after the last write |
| `RtsCounter.RtsPaths.CloseRts` | `src/openclos.c:534-577` | the close loop ends unless the paths stand still or the hardware stays full for ever, and when it does no DPC, timer or callback is left and RTS is down |
| `OutQueue.Transmissions.constructor` | `src/openclos.c:227` | the count at open |
| `OutQueue.Transmissions.StartOrQueue` | `src/utils.c:711-761` | a write adds its length, an Xoff counter one; the count stays the sum, up to wrap-around |
| `OutQueue.Transmissions.GetNextWrite` | `src/write.c:305-512` | the count loses exactly the finished request; no request is lost if and only if a counter that takes over finds none current |
| `OutQueue.OverwriteCounter` | `src/write.c:371-428` | a concrete run that loses one |
| `OutQueue.Transmissions.CanceledOnQueue` | `src/utils.c:800-824` | a request cancelled on the queue is taken off the count |
| `OutQueue.Transmissions.PurgeQueue` | `src/purge.c:60-72` | a purge takes off the count exactly what was queued, whatever the order |
| `OutQueue.Transmissions.GetNextImmediate` | `src/immediat.c:214-272` | an immediate character is taken off the count when it ends |
| `OutQueue.Transmissions.StartImmediate` | `src/ioctl.c:1466-1492` | there is at most one immediate character, and it counts one |
| `OutQueue.Transmissions.FinishXoff` | `src/write.c:997-1029` | the end of a current counter does not touch the count |
| `OutQueue.Transmissions.AmountInOutQueue` | `src/ioctl.c:469-487` | the amount reported is the number of unsent characters if and only if no write is current or a plain write is still being sent; otherwise it is too high by an amount given exactly |
| `OutQueue.AssertionHoldsExactly` | `src/write.c:367` | the assertion on the count holds exactly if the other requests leave room for this one below 2^32 |
| `ClockSearch.GetICS30702Data` | `lib/raw/calculate-clock-bits.c:945-1180` | for every rate, succeeds exactly if an admissible combination lies inside the window or at its lower end, and then no admissible combination is nearer; the frequency is within ten percent of the rate and is the doubled 18.432 MHz divided by both dividers of the word and multiplied, less than a hertz short for each unit of the VCO divider; otherwise the frequency is zero and the bits are untouched |
| `ClockSearch.Search` | `lib/raw/calculate-clock-bits.c:984-1108` | the three loops leave the best marks of all admissible combinations |
| `ClockSearch.Consider` | `lib/raw/calculate-clock-bits.c:1039-1096` | what one combination does to the marks, ties included |
| `ClockSearch.TryVdws` | `lib/raw/calculate-clock-bits.c:1031-1100` | the innermost loop misses none |
| `ClockSearch.TryRdws` | `lib/raw/calculate-clock-bits.c:1028-1103` | nor does the middle one |
| `ClockSearch.CheckFits` | `lib/raw/calculate-clock-bits.c:1034` | no frequency wraps in 32 bits |
| `ClockSearch.CheckMeans` | `lib/raw/calculate-clock-bits.c:1034` | the frequency of a combination is that of the doubled reference, divided and multiplied, up to the rounding of the one division |
| `ClockSearch.CandidateMeans` | `lib/raw/calculate-clock-bits.c:986-1038` | which combinations are tried for a rate and admissible, in numbers |
| `ClockSearch.AttainableMeans` | `lib/raw/calculate-clock-bits.c:978-982` | the window is ten percent to either side, and its upper end does not wrap |
| `ClockSearch.Result` | `lib/raw/calculate-clock-bits.c:1110-1123` | the final comparison picks the nearest combination, ties going to the lower frequency, then the lower reference divider, then the higher VCO divider |
| `ClockSearch.Encode` | `lib/raw/calculate-clock-bits.c:1124-1166` | the control word decodes to the chosen dividers: the code of the output divider by the table, nine bits of VCO divider word, seven of reference divider word |
| `ClockSearch.DecodeOf` | `lib/raw/calculate-clock-bits.c:1124-1166` | the three fields of the word do not overlap |
| `ClockWord335.SetClockBitsPCI` | `src/utils.c:3063-3108` | over all 75 writes: the strobe latches the 24 bits of the word, most significant first, if the clock pin is low on entry, and only the last 23 if it is high; the restoring write clocks one more bit if the clock pin was high and latches again if the strobe pin was |
| `ClockWord335.LevelMeans` | `src/utils.c:3060-3062` | the pins are the lowest three bits of the register: data, clock, strobe |
| `ClockWord335.SendBit` | `src/utils.c:3078-3096` | each turn of the loop clocks exactly one bit, except that a clock pin high on entry hides the first |
| `ClockProgram.SetClock` | `src/utils.c:3063-3108` | rate to generator: with the clock pin low on entry, the word latched last is read as the admissible dividers nearest to the rate, and they give the frequency returned |
| `ClockWordFscc.SetClockBitsFSCC` | `src/utils.c:2982-3055` | the buffer of 323 words is filled exactly; over all of them only the 160 bits are latched, byte 19 first; the restoring word clocks one more bit if the clock was high and latches nothing |
| `ClockWordFscc.FillByte` | `src/utils.c:3031-3043` | sixteen words clock the eight bits of a byte, most significant first |
| `ClockWordFscc.StreamByte` | `src/utils.c:3031-3043` | every byte can be read back from its place in the stream |
| `ShiftRegister.ValueInjective` | `src/utils.c:3078-3096` | the bits of a word determine it |
| `Ics30703.EncodeDividers` | `lib/raw/calculate-clock-bits.c:534-588` | the input and VCO dividers decode back from the bytes, whose fields are given in numbers; out of range, the right error is returned |
| `Ics30703.EncodeOutputDivider` | `lib/raw/calculate-clock-bits.c:757-932` | the output divider decodes back from the bytes, which are given in numbers, if the generator has it; otherwise it silently becomes 7 |
| `Ics30703.TriedExactly` | `lib/raw/calculate-clock-bits.c:393-399` | the search steps through every output divider up to 1030, the even ones up to 2060, the multiples of four up to 4120 and those of eight up to 8232, and no other |
| `Ics30703.TriedIsRepresentable` | `lib/raw/calculate-clock-bits.c:393-399` | every output divider the search steps through is one the generator has |
| `Ics30703.EncodeTried` | `lib/raw/calculate-clock-bits.c:393-399` | so every one of them survives the encoding |
| `Baud.GetDivisorFromBaud` | `src/utils.c:1733-1858` | for every clock and rate, a rate is accepted exactly if the clock can be divided by the product as 32 bits hold it, and then gets the floor: the round-up never fires |
| `Baud.AcceptedIsSupported` | `src/utils.c:1733-1749` | an accepted rate is one the clock can be divided for if and only if the true product fits in 32 bits, and such a rate is accepted if and only if it fits in 31; with a clock below 2^28 and at most 16 samples a bit the two are the same |
| `Baud.AcceptsTooFast` | `src/utils.c:1733-1749` | a rate that is accepted at 16 samples a bit though the clock is too slow for it |
| `Baud.Uart.SetBaud` | `src/ioctl.c:690-727` | from the rate to the latch: with a clock below 2^28, at most 16 samples a bit and no divisor of its own, a rate is accepted exactly if it is supported; the latch then holds the largest divisor that does not make the rate too low if and only if the quotient is below 65535, and from 9600 baud on less than a percent of the clock is left over; a refused rate leaves the latch alone |
| `Baud.SupportedMeans` | `src/utils.c:1750-1810` | which rates the clock can be divided for, in numbers |
| `Baud.ExceptionMeans` | `src/utils.c:1813-1850` | the rates with a divisor of their own are nine, and each divisor is the nearest one at 16 samples a bit |
| `Baud.LatchIsFloor` | `src/utils.c:1770-1810` | the same, for any latch that reads as the SHORT of the quotient |
| `Baud.Denominator` | `src/utils.c:1733-1749` | with such a clock, a product that wrapped is caught by the one test or the other |
| `Baud.Uart.WriteDivisorLatch` | `src/serial.h:1469-1492` | the two bytes reassemble to the divisor, read as a SHORT, and the line control register is as before |
| `Baud.Uart.PcieSetBaudRate` | `src/utils.c:3114-3147` | for every input: divides by zero exactly if the rate or the samples a bit are zero, refuses exactly what is too fast; otherwise the divisor is the floor, the three registers hold it if and only if it fits in twenty bits, and the upper half of DLD is kept |
| `Escape.DecodeEncode` | `src/isr.c:405-435` | records and data decode back to the events, for every escape character |
| `Escape.EncodeDecode` | `src/isr.c:1313-1342` | and nothing else decodes to them |
| `Escape.Inserter.ReaderLearns` | `src/isr.c:1313-1382` | a reader can tell from the stored data exactly what happened if and only if no character read because of an overrun is the escape character |
| `Escape.Inserter.ReceiveChar` | `src/isr.c:405-435` | a received escape character is stored with a zero behind it |
| `Escape.Inserter.ProcessLSR` | `src/isr.c:1313-1382` | a line error is stored, byte for byte, with or without its character, and an overrun with one more |
| `Escape.Inserter.HandleModemUpdate` | `src/modmflow.c:1191-1213` | a modem change is stored as a record of three bytes |

## Left out

- Power management: stopping and resuming requests, which acknowledges them without completing them, and the state saved over a power-down.
- Plug and play, the registry, WMI, naming, logging, file information, and the C++, .NET and VISA wrappers: plumbing around the protocols modelled here.
- The framework itself: only the answers of its timers, DPCs, queues and cancel marking are modelled; forwarding a request to a queue succeeds, and a queue is empty exactly if no request is in it.
- Flush requests in the write queue: nothing puts one there.
- Queue capacity and request buffers of the application: a buffer is a sequence or an array of bytes that only the modelled code writes.
- OwnershipClass.RequestSlot.StartOrQueue: a counter that takes over while a callback still knows the active one is left to the transition system, where `StaleExactly` says what comes of it; the slot of the writes and that of the counters are separate.
- Receive.Receiver.PutChar: error replacement, which overwrites the last stored character, is off; so is the nine-bit mode, and null stripping and DSR sensitivity only mean that a byte is not put.
- Receive.Receiver.StartRead: the arithmetic that computes the intervals of the timers is left out.
- Receive.Receiver.FinishRead: the bytes in the buffer of a cancelled read count as delivered in the stream, although the application is told of none of them.
- Receive.Receiver.UpdateInterruptBuffer: the call that may ask for an Xon afterwards is `TakeChars` of `Transmit`.
- Transmit.Transmitter.SetHandFlow: the DTR and RTS settings are left alone; a change to transmit toggling also reads the line status, which can only wake the transmitter.
- Transmit.Transmitter.SetupNewHandFlow: the same parts about DTR and RTS; toggling is in `RtsCounter`.
- Transmit.Transmitter.HandleModemUpdate: the events it notes are in `WaitEvents`, the escape records it stores are in `Escape`, and sensitivity to DSR is left out.
- Transmit.Transmitter.GiveWriteToIsr: the number of characters put in the FIFO never exceeds its room, whatever the card says the room is; raising RTS is in `RtsCounter`.
- Transmit.Transmitter.ServeThre: the FIFO has room; what happens without is said of `PutData`, and the interrupt routine then comes back until there is some.
- Transmit.Transmitter.Isr: the order in which the UART reports several causes is left open, and so is the number of things that happen during the routine, which is finite.
- RtsCounter.RtsPaths.CloseRts: the loop is shown to end if a bounded number of the delays passes without any path moving or with characters still in the hardware.
- RtsCounter.RtsPaths.TurnOffBreak: whether the holding register is empty is any answer; the wakeups themselves are in `Transmit`.
- WaitEvents.Waits.StartMask: masks are sets of events; bits that no event has are rejected before.
- ClockSearch.GetICS30702Data: a word is 32 bits wide, as on Windows; what the generator can really do is not checked, only what the code computes.
- ClockWordFscc.SetClockBitsFSCC: a register word is its two nibbles of pins and the rest; the crystal bit of byte 15 is whatever the caller has set, and a failed allocation is left out.
- Ics30703.EncodeOutputDivider: the floating-point search that picks the dividers, and the tables for the charge pump and the loop filter.
- Baud.GetDivisorFromBaud: the rates with a divisor of their own are covered for 1 to 16 samples a bit.
- Escape.Inserter.ProcessLSR: error and break replacement are off, as the driver demands for error replacement, and no byte is dropped; the values of the record types come from ntddser.h of the Windows SDK, which is not part of this model.
- Setters and getters that only check a table: isochronous mode, frame length, sample rate, triggers, RS-485, line control; raw register requests.
