# Verification of libeasymcp2221++

A Dafny model of the parts of the library that hold real logic, with proofs. `dafny verify
dfyconfig.toml` checks all of it. Four parts are modelled.

**Shared devices** (`LockedSections`, `SmartPointers`, `DeviceSharing`, `Sharing*.dfy`, `LockDiscipline`,
`LockedThreads`). A `Device`, its I2C and SMBus children and its GPIO pollers share one `DeviceState`: the C handle
and a mutex, kept alive by reference counts. The model is a transition system with any number of threads, handles and
adapter objects. A step is what one thread does between two points at which another may run: open, fail to open, fail
to allocate, hand the handle from its guard to the shared state, make a child, copy, move, assign, close, destroy,
take the mutex, make one access to the hardware, throw, give the mutex back, drop a pointer, and each stage of a
destructor. What runs under a mutex is an arbitrary sequence of accesses, any of which may fail; the theorems hold
for all of them. They are about every reachable state of every run. `SharingEffects` says what each step makes the
objects own, and `SharingClosing` when closing an object closes the handle. `LockDiscipline` justifies the shape of a
step sequence: it gives the operations as programs with blocks, lock guards, owners, exceptions and calls of each
other, in which a second lock, an unlocked native call or a drop under the lock could be written, and proves that
each operation is local code, one locked section and local code again. `LockedThreads` shows that a thread of the
transition system runs that section as the operation does.

**The SSD1306 example** (`Framebuffer`, `Ssd1306*.dfy`). Glyphs are clipped and OR-ed into a page-packed
framebuffer, which is sent as commands and 16-byte chunks. The drawing loops are methods on an array, proved
against one formula for each pixel, and `Ssd1306Pictures` draws out the characters, so that what the screen shows is
said in terms of these pictures. The writes go to an `I2cDevice` that may fail at any write, and
a simulated panel interprets them.

**GPIO events** (`Gpio*.dfy`). A typed filter becomes a native bit mask; the native queue is filtered, capped and
drained by every poll; the monitor turns each batch into signals. Handlers of any signal may call the monitor
again, so a run is a tree of calls. `GpioTimeline` says what each poll owes from the history of arrivals,
filters, limits and errors alone, without mask or queue, and the theorems tie every run to it; `GpioInputs` ties
the history itself to the calls that were made. `GpioConservation` says what a history loses, `GpioMonitorOrder`
in which order polls speak, and `GpioMonitorListeners` what listeners make of that.

**Partial configuration** (`Overlays`, `Sram`, `DeviceConfig`). Optional fields become KEEP fields of native
structs. The hard case is a voltage reference: one typed field, two native ones, and the supply as
reference keeps the other native field. Two register states that look the same may therefore differ, and the
theorems are about what can be observed.

## What turned out differently from the documentation

- `examples/ssd1306_i2c.cpp` selects horizontal addressing (lines 55-80), but `flush` (lines 113-131) positions
  the panel with page commands. A panel that ignores those in horizontal mode shows every frame exactly when
  its pointer starts at (0, 0) (`HorizontalShowsIffAtOrigin`), and a second `flush` misses (`SecondFlushMisses`).
- `include/libeasymcp2221++/GpioPoller.h:58` documents the argument of `pollEvents` as the maximum number of
  events; the code also caps it at four. The cap cannot be noticed exactly when the native call fails, the limit or
  the number of accepted events is at most four, or one of the first four accepted events cannot be translated
  (`CapIsLossless`); `CapLosesTheFifth` is a case where it can.
- The queue survives a native error but not a translation error: `PollOutcome` says exactly when a poll keeps the
  queue and when it fails, `PendingIsKeptIff` says the same for every continuation, and `SoundEventLost` is a sound
  event lost with a bad one.
- A handler that polls can announce a newer event before an older one (`NestedPollOvertakes`). The gpioEvent signals
  stay in the order of the polls exactly when no handler polls, with an event to report, while an enclosing poll has
  more events to report; for all signals of the polls the same holds with any signal in place of an event
  (`PollsInOrderIff`, for both). The two conditions differ: a handler of the only event of a batch may poll without
  disturbing the events, though not the edges (`EdgeOvertaken`). No signal is lost or invented in any run, and
  within each poll the order is kept.
- Merging two configurations can leave other raw registers than applying both (`RegistersAgreeIff`), and it can
  drop a request to clear the interrupt flag (`FlagAgreesIff`, `FlagSequenceAgreesIff`); nothing else tells the two
  apart.

## Assumptions

- C++ rule: nobody moves from, assigns to, closes or destroys an adapter object while a method runs on it.
- The native masks of GP0 to GP3 are eight non-zero masks without common bits (`Layout.Valid`); nothing is assumed
  about the masks of other pins. Native error codes are negative.
- The native side applies a configuration field by field, KEEP leaving the field alone, and changes nothing if
  the call fails. `clear_flag` 1 clears the interrupt flag; 0 and KEEP do not. SRAM, pin functions and outputs are
  kept apart. KEEP is a constructor of its own, so no encoded value can collide with it.
- The panel has 8 RAM pages of 128 columns, 4 of them visible, and reads the command bytes with the arguments that
  their grouping in `initialize` gives them.

## Model

| member | source | states |
|---|---|---|
| SharingTheorems.Linearizable | src/Device.cpp:440-508 | In every reachable state, the sections that ended on a handle gave their callers, throws included, what running them one at a time in lock order gives, and the hardware of a free handle is where that sequential run ends; a section under way will end as its atomic run |
| SharingTheorems.LockOrderIsRealTime | src/I2cDevice.cpp:68-95 | Sections on one handle never overlap, and one that ended before another was called comes first in lock order |
| SharingTheorems.MutualExclusion | src/detail/DeviceState.h:35-66 | No two threads hold the mutex of one handle at once |
| SharingTheorems.ClosedAtMostOnce | src/detail/DeviceState.cpp:11-17 | No handle and no SMBus binding is ever closed twice, on any path |
| SharingTheorems.NoUseAfterClose | src/SmbusDevice.cpp:41-105 | Whoever waits for a mutex or calls natively under it does so on a handle that is open and owned |
| SharingTheorems.ClosedWithTheLastOwner | src/detail/DeviceState.cpp:13-17 | A handle is closed when nothing owns it, its mutex is free and unwanted, and no SMBus binding uses it |
| SharingTheorems.OpenIffLed | src/Device.cpp:334-385 | In every reachable state a handle is open iff an object or a local variable leads to it, directly or through a child, or a thread has it in its guard or is destroying its state or that of a child; otherwise it was closed exactly once: nothing leaks, whatever failed |
| SharingTheorems.OpenIffReachable | src/Device.cpp:377-385 | With no operation under way that means: iff one of the objects of the user leads to it |
| SharingTheorems.BindingUsesOpenHandle | src/detail/DeviceState.h:76-83 | An SMBus binding in force belongs to a living child and uses an open handle |
| SharingTheorems.BusClosesBeforeHandle | src/detail/DeviceState.cpp:27-29 | Tearing down an SMBus child closes its binding first and touches no handle; only a later step can close the shared handle |
| SharingTheorems.BusOpenIffHeld | src/detail/DeviceState.cpp:27-29 | In every reachable state an SMBus child is unclosed iff an object or a local variable holds a copy of it, or a thread has come to the close call in its destruction |
| SharingTheorems.BusOpenIffCopied | src/Device.cpp:412-426 | With no operation under way that means: iff one of its copies is left, also when its initialization failed |
| SharingResults.ResultHasOneOwner | src/Device.cpp:352-375 | A constructor or factory that returns leaves its state with the new object as its one and only owner |
| SharingResults.FailureCleansUp | src/Device.cpp:352-375 | A constructor or factory that throws gives the mutex back first, is the only owner of what it made, and destroys that at once |
| SharingOwnership.StepSound | src/Device.cpp:352-437 | Every step keeps the ownership invariant and the reference counts exact |
| SharingRuns.StepInvariant | src/Device.cpp:352-437 | Every step keeps the whole invariant: ownership, counts, lock holders and lock histories |
| SharingEffects.CloseEmpties | src/Device.cpp:375-381 | Closing or destroying an object leaves it owning nothing and changes no other object; the thread goes on to drop what was in it |
| SharingEffects.CopyShares | src/detail/DeviceState.h:68-83 | After a copy both objects own what the source owned and no other object changes; what the target owned is dropped next |
| SharingEffects.MoveTransfers | src/GpioPoller.cpp:111-115 | After a move the target owns what the source owned, the source nothing, and no other object changes; what the target owned is dropped next |
| SharingEffects.FactoryMakes | src/Device.cpp:391-438 | A factory makes a child that only the thread owns and that owns the state of its device; a child of the I2C or SMBus kind then waits for the mutex of that device |
| SharingEffects.CallWaits | src/Device.cpp:440-445 | A method waits for the mutex of the device that its object leads to |
| SharingEffects.GuardOwns | src/Device.cpp:343-352 | A handle just opened is open and owned by the guard, which closes it if the state cannot be made |
| SharingEffects.StateTakesOver | src/Device.cpp:352-357 | The state owns the open handle, first beside the guard and then alone, and the thread owns the state and waits for its mutex |
| SharingEffects.SectionReturns | src/Device.cpp:401-426 | A section that ends hands nothing over; an SMBus factory that returns has bound its child to its own handle, one that threw has not, and nothing else is bound |
| SharingEffects.PublishHandsOut | src/Device.cpp:375-409 | The object that is handed out owns what the thread owned, and no other changes |
| SharingEffects.ReleaseDestroysLast | src/detail/DeviceState.cpp:13-17 | Dropping a pointer goes on to destroy its target iff no other pointer points there |
| SharingEffects.LeavingDestroysLast | src/detail/DeviceState.cpp:27-29 | A child that is destroyed drops its device last, and that goes on to destroy the device iff nothing else points to it |
| SharingClosing.LastCloseClosesIff | src/Device.cpp:377-381 | A thread that closes or destroys an object leading to a handle, left alone, comes to its end with the handle closed, once, iff nothing else leads to it and no other thread is about to own it or to let go of it; otherwise the handle is open |
| SharingLocks.UnlockLog | src/Device.cpp:440-445 | Ending a section extends the sequential run of its handle by that section and its outcome |
| SharingProgress.DeadlockFree | src/GpioPoller.cpp:117-136 | While any thread is inside an operation some thread can take a step of one that is under way |
| LockDiscipline.OperationsUnfold | src/Device.cpp:334-437 | Whatever its steps do and wherever they throw, every operation, delegating overloads included, runs as local code, one section under the mutex and local code again; only the poller factory takes no lock |
| LockDiscipline.OperationsKeepDiscipline | src/GpioPoller.cpp:117-193 | No operation locks a mutex that it holds, calls natively without it, or lets go of a shared state under it, also while an exception unwinds it |
| LockDiscipline.RunIsStaged | src/SmbusDevice.cpp:107-122 | Any program of that form, calls and blocks included, behaves as its unfolded shape |
| LockedThreads.ThreadFollowsShape | src/Device.cpp:440-445 | A thread that waits for a free mutex with the section of such a shape, left alone, reaches the hardware and the ending that the shape gives |
| LockDiscipline.LockedOverloadDeadlocks | src/GpioPoller.cpp:134-136 | An overload that locked before delegating would deadlock whenever the callee gets to its lock |
| LockDiscipline.SwappedScopesDropUnderLock | src/Device.cpp:398-409 | A child made after the lock is taken would be dropped under it exactly when its initialization throws, and in the order of the source is not |
| SharingProgress.RunsAreBounded | src/Device.cpp:334-437 | Every run is at most as long as the operations begun in it have paid for when they began |
| Framebuffer.AddressingIsBijective | examples/ssd1306_i2c.cpp:92-100 | Pixels and framebuffer bits correspond one to one |
| Framebuffer.SetPixel | examples/ssd1306_i2c.cpp:98-100 | The OR into the framebuffer sets its pixel and changes no other |
| Framebuffer.MaskIsPower | examples/ssd1306_i2c.cpp:98-100 | The bit of row k within its page is two to the k, so the top row is the lowest bit |
| Ssd1306Pictures.GlyphIsPicture | examples/ssd1306_i2c.cpp:24-48 | The font is its pictures, drawn out in rows of lit and dark pixels, and any other character is blank |
| Ssd1306Pictures.InkedIsPicture | examples/ssd1306_i2c.cpp:82-111 | A text covers the lit pixels of the pictures of its characters, six columns apart, and nothing else |
| Ssd1306Pictures.DrawnIsPicture | examples/ssd1306_i2c.cpp:82-111 | After drawing a pixel is set iff it was before or is lit in the picture of the character there |
| Ssd1306Text.PaintedPixel | examples/ssd1306_i2c.cpp:82-111 | A pixel is set after drawing iff it was set before or the glyph of its character has that bit, for any position, negative ones included |
| Ssd1306Text.PaintedUnique | examples/ssd1306_i2c.cpp:82-111 | Only the painted frame answers to that closed form |
| Ssd1306Text.DrawChar | examples/ssd1306_i2c.cpp:82-103 | The nested loops leave the array as the painted frame of one character |
| Ssd1306Text.DrawText | examples/ssd1306_i2c.cpp:105-111 | The loop over the text leaves the array as the painted frame of the text |
| Ssd1306Text.PaintConcat | examples/ssd1306_i2c.cpp:105-111 | Drawing s + t is drawing s and then t six pixels per character further right |
| Ssd1306Text.PaintIdempotent | examples/ssd1306_i2c.cpp:82-111 | Drawing a text twice is drawing it once |
| Ssd1306Text.PaintCommutes | examples/ssd1306_i2c.cpp:82-111 | Any two drawings commute, overlapping or not |
| Ssd1306Text.PaintMonotone | examples/ssd1306_i2c.cpp:100 | Drawing only adds pixels, and respects the order of frames |
| Ssd1306Text.OffScreenDrawsNothing | examples/ssd1306_i2c.cpp:92-96 | Characters wholly off the screen leave the frame as it is |
| Ssd1306Panel.InitializeSelectsHorizontal | examples/ssd1306_i2c.cpp:55-80 | The 26 commands select horizontal addressing and move neither pointer nor RAM; no argument is taken for a command |
| Ssd1306Panel.FlushCopies | examples/ssd1306_i2c.cpp:113-131 | On a panel that obeys page and column commands, whatever its RAM, pointer and mode, the four pages become the frame and the rest stays |
| Ssd1306Panel.HorizontalFlush | examples/ssd1306_i2c.cpp:113-131 | On one that ignores them, the exact RAM after a flush from any pointer, and the new pointer |
| Ssd1306Panel.HorizontalShowsIffAtOrigin | examples/ssd1306_i2c.cpp:113-131 | Such a panel shows every flushed frame iff its pointer starts at the origin |
| Ssd1306Panel.SecondFlushMisses | examples/ssd1306_i2c.cpp:113-131 | After a first flush from the origin, some second frame does not arrive |
| Ssd1306Example.I2cDevice.Write | src/I2cDevice.cpp:83-99 | A write is refused without state or with a size outside 1 to 256, fails with the native error, or arrives whole |
| Ssd1306Example.SendCommand | examples/ssd1306_i2c.cpp:50-53 | Sends one command as a write of two bytes |
| Ssd1306Example.SendChunk | examples/ssd1306_i2c.cpp:120-129 | Sends the sixteen bytes of a page from a column on, as the next of the writes of the flush |
| Ssd1306Example.InitializeIs | examples/ssd1306_i2c.cpp:55-80 | The 26 command bytes of the start-up sequence, one by one |
| Ssd1306Example.FlushIs | examples/ssd1306_i2c.cpp:113-131 | The 44 writes of a flush, one by one: per page the three pointer commands and its 128 bytes in eight chunks |
| Ssd1306Example.Initialize | examples/ssd1306_i2c.cpp:55-80 | Sends the command writes in order up to the first error, which it passes on |
| Ssd1306Example.SelectPage | examples/ssd1306_i2c.cpp:116-118 | Sends the three pointer commands of a page, up to the first error |
| Ssd1306Example.Flush | examples/ssd1306_i2c.cpp:113-131 | Sends the page and chunk writes of the frame in order up to the first error |
| Ssd1306Example.Run | examples/ssd1306_i2c.cpp:148-152 | Initializes, draws and flushes, stopping at the first error |
| Ssd1306Example.SendAllMeaning | src/I2cDevice.cpp:83-95 | What arrives of a run of valid writes is those before the first native error, each once and in order |
| Ssd1306Example.FlushedIsLit | examples/ssd1306_i2c.cpp:92-131 | A pixel of the panel is lit after a flush iff it is set in the frame |
| Ssd1306Example.SessionShowsText | examples/ssd1306_i2c.cpp:135-156 | After a session the panel shows exactly the text, whatever it showed before |
| Ssd1306Pictures.SessionShowsPictures | examples/ssd1306_i2c.cpp:135-156 | What the panel shows after a session is the pictures of the characters side by side and nothing else |
| Ssd1306Pictures.GreetingIsShown | examples/ssd1306_i2c.cpp:147-152 | The program itself leaves the twelve pictures of its greeting in the top left corner of a dark screen |
| Ssd1306Example.SessionStopsOnlyOnErrors | examples/ssd1306_i2c.cpp:55-131 | All 70 writes are of an accepted size, so only a native error stops a session, and then the writes before it arrived |
| GpioEvents.BuildMask | src/GpioPoller.cpp:120-128 | The loop builds the mask specified pin by pin |
| GpioEvents.MaskIsFaithful | src/GpioPoller.cpp:117-136 | The native test passes an event of an existing pin iff the filter is all false or selects that pin and edge |
| GpioEvents.ClearedMask | src/GpioPoller.cpp:134-136 | The cleared filter, and no other, has mask 0 and passes everything |
| GpioPolling.NativeGpio.ConsumeError | tests/mock/MockC.cpp:61-66 | A pending error is reported once and withdrawn |
| GpioPolling.NativeGpio.QueueEvent | tests/mock/MockC.cpp:92-104 | Events queue up in order |
| GpioPolling.NativeGpio.PollEvents | tests/mock/MockC.cpp:479-516 | An error leaves queue and buffer alone; otherwise the queue is emptied and the first accepted events, up to the limit, are in the buffer |
| GpioPolling.GpioPoller.PollEvents | src/GpioPoller.cpp:158-193 | A poll without state fails; otherwise it is the poll specified over mask, queue and pending error, and all or none of the events are returned |
| GpioPolling.GpioPoller.SetFilter | src/GpioPoller.cpp:117-132 | Without state it fails and changes nothing; otherwise the mask becomes that of the filter |
| GpioPolling.GpioPoller.ClearFilter | src/GpioPoller.cpp:134-136 | The same with the filter that selects nothing |
| GpioPolling.AcceptedIsFilter | tests/mock/MockC.cpp:493-507 | The native side tests the events one by one and in order, by the mask of the pin and edge of each, mask 0 passing all |
| GpioPolling.PollTakesFirst | src/GpioPoller.cpp:158-193 | A poll reports the pending error and keeps the queue, or empties the queue and translates the first accepted events, as many as the limit, the buffer of four and their number allow |
| GpioPolling.CapIsLossless | src/GpioPoller.cpp:161-192 | The capped poll returns and leaves what an uncapped one would iff the native call fails, the limit or the number of accepted events is at most four, or one of the first four accepted events cannot be translated |
| GpioPolling.CapLosesTheFifth | src/GpioPoller.cpp:161-162 | With five sound events and a limit of five the fifth is lost |
| GpioPolling.PollOutcome | src/GpioPoller.cpp:164-192 | Exactly when a poll keeps the queue, whatever the limit, and exactly when it reports an error |
| GpioConservation.NativeErrorLosesNothing | tests/mock/MockC.cpp:483-486 | After a poll that reports a native error every later poll, whatever happens in between, finds and delivers what it would had there been no error |
| GpioConservation.ProtocolErrorLosesAll | src/GpioPoller.cpp:184-189 | After a translation error every event delivered later, whatever happens in between, is one that arrived later |
| GpioConservation.PendingIsKeptIff | tests/mock/MockC.cpp:483-516 | A poll keeps what was pending, for every continuation, iff it reports a native error or nothing was pending |
| GpioPolling.SoundEventLost | src/GpioPoller.cpp:184-189 | A sound event is lost with a bad one |
| GpioTimeline.AcceptedIsAsked | tests/mock/MockC.cpp:493-507 | The native filter passes exactly the events that the typed filter asks for, in order |
| GpioTimeline.AllOrNothing | src/qt/GpioMonitor.cpp:72-94 | A batch is every event followed by its own matching edge, or exactly one error |
| GpioTimeline.SignalsAreFaithful | src/qt/GpioMonitor.cpp:76-88 | Told from the native events: each is announced with its pin, edge and two times and then by risingEdge or fallingEdge of that pin, all in order; or there is one protocol error iff some event has no pin or no edge |
| GpioTimeline.BatchesDeliver | src/qt/GpioMonitor.cpp:76-88 | The events among the signals of all batches are the events that the polls deliver |
| GpioMonitoring.GpioMonitor.constructor | src/qt/GpioMonitor.cpp:9-14 | A monitor starts inactive, with a limit of four, over any poller: its filter, queued events and pending error count as its past, and it may lack device state |
| GpioMonitoring.GpioMonitor.Start | src/qt/GpioMonitor.cpp:54-61 | Does nothing if active; otherwise activates, emits started and then runs its handlers |
| GpioMonitoring.GpioMonitor.Stop | src/qt/GpioMonitor.cpp:63-70 | Does nothing if inactive; otherwise deactivates, emits stopped and then runs its handlers |
| GpioMonitoring.GpioMonitor.SetFilter | src/qt/GpioMonitor.cpp:46-48 | Installs the mask of the filter and changes nothing else; without device state it fails and changes nothing |
| GpioMonitoring.GpioMonitor.ClearFilter | src/qt/GpioMonitor.cpp:50-52 | The same with the filter that selects nothing |
| GpioMonitoring.GpioMonitor.SetMaxEventsPerPoll | src/qt/GpioMonitor.cpp:42-44 | Sets the limit and changes nothing else |
| GpioMonitoring.GpioMonitor.PollOnce | src/qt/GpioMonitor.cpp:72-94 | Polls with the limit, then emits each signal of the batch and runs its handlers before the next, re-entrant polls included |
| GpioInputs.RunFollowsActs | src/qt/GpioMonitor.cpp:42-52 | In every run, handlers included, the filter tested by, the limit, the pending error, all arrivals and the number of polls, in the history and on the native side, are those that the calls made ask for |
| GpioInputs.PlainIsPerformed | src/qt/GpioMonitor.cpp:42-94 | Without handlers the calls made are those given |
| GpioInputs.SwitchesTakeEffect | src/qt/GpioMonitor.cpp:54-70 | Starting an inactive monitor activates it and announces that first, starting an active one does nothing, and likewise for stopping |
| GpioMonitorTheorems.SwitchesAlternate | src/qt/GpioMonitor.cpp:54-70 | For any tree of handlers started and stopped alternate, started first, and the timer is active iff the last was started |
| GpioMonitorTheorems.EveryPollDelivers | src/qt/GpioMonitor.cpp:72-94 | In every run each poll, nested ones too, emits exactly the batch that the history before it owes |
| GpioMonitorOrder.PollsInOrderIff | src/qt/GpioMonitor.cpp:72-94 | For any tree of handlers, the signals of the polls, and likewise the gpioEvent signals alone, come in the order of the polls iff no handler polls, with such a signal to emit, while an enclosing poll has more of them to emit |
| GpioMonitorListeners.EventsArriveInOrder | src/qt/GpioMonitor.cpp:72-94 | In every run that meets the condition for all signals, the poll signals are the batches one after the other; in every run that meets the one for events, the gpioEvent signals are the concatenation over the successful polls of the first min(limit, 4) events asked for since the last poll that reached the queue |
| GpioMonitorOrder.QuietHandlersNeverClash | src/qt/GpioMonitor.cpp:76-88 | A poll whose handlers do not poll keeps the order |
| GpioMonitorTheorems.NothingLostOrInvented | src/qt/GpioMonitor.cpp:72-94 | In every run, nested polls included, the poll signals are those owed, each exactly once |
| GpioMonitorTheorems.OnePoll | src/qt/GpioMonitor.cpp:72-94 | A poll nobody reacts to emits its batch in one go and touches neither timer, limit nor filter; a native error is that one error and keeps the queue, and so is missing device state |
| GpioMonitorListeners.NestedPollOvertakes | src/qt/GpioMonitor.cpp:76-77 | A run of a new monitor in which a handler polls and a newer event is announced before an older one |
| GpioMonitorListeners.EdgeOvertaken | src/qt/GpioMonitor.cpp:76-88 | With one event in the outer batch the same handler breaks the order of all signals and keeps that of the events |
| GpioConservation.NothingLostIff | include/libeasymcp2221++/GpioPoller.h:51-62 | In every history, with filter and limit changing at will, no more is delivered than was due; as much iff every poll had room for what was due at it and all of that can be translated, and then it is exactly that, in order |
| GpioConservation.ArrivalsAreJudgedOnce | tests/mock/MockC.cpp:488-491 | In every history each arrival is drained by exactly one poll that reached the queue, in order of arrival, or is still pending |
| Overlays.SequenceIsMerge | include/libeasymcp2221++/Types.h:96-103 | Any sequence of partial updates is its right-biased merge |
| Overlays.LastMentionWins | src/Device.cpp:548-552 | In that merge each position holds the last update that mentions it, if any does |
| Overlays.MergeIsMonoid | include/libeasymcp2221++/Types.h:96-103 | Merging is associative and the empty update is neutral |
| Sram.EncodingIsFaithful | src/Device.cpp:730-787 | Storing the native form changes the observed settings exactly as the typed configuration asks |
| Sram.ReferenceTakesEffect | src/Device.cpp:153-205 | The two native reference fields put exactly the requested reference into force, from any registers |
| Sram.StoringTakesOver | src/Device.cpp:730-787 | After storing the native form every register is what the field that is for it says, or as before; the supply as reference leaves the voltage selected |
| DeviceConfig.Device.ApplyReference | src/Device.cpp:153-205 | The native form of a reference, stored over any registers, puts that reference into force |
| Sram.SequenceIsItsMerge | src/Device.cpp:730-787 | Any sequence of calls, refused and failed ones included, is observed as one call with the merge of the others, which is itself accepted |
| Sram.LookingTheSameIsKept | src/Device.cpp:153-205 | Registers that look the same keep looking the same under all later calls |
| Sram.TwoCallsAreTheirMerge | src/Device.cpp:730-787 | Two calls and their merge cannot be told apart, at once or after any later calls |
| Sram.RegistersAgreeIff | src/Device.cpp:159-162 | The raw registers agree iff no internal reference, then covered by the supply, left another voltage selected |
| Sram.RegistersMayDiffer | src/Device.cpp:159-162 | An instance in which they differ |
| Sram.ConfigMergeIsMonoid | include/libeasymcp2221++/Types.h:209-223 | Merging configurations is associative, the default one is neutral, and accepted ones merge to an accepted one |
| Sram.FlagAgreesIff | src/Device.cpp:754-756 | Two calls and their merge agree on the interrupt flag iff it is not set, the first does not clear it, or the second does not say that it stays |
| Sram.FlagSequenceAgreesIff | src/Device.cpp:754-756 | Any sequence of calls, refused and failed ones included, and its merge agree on the interrupt flag iff it is not set, no call that took effect clears it, or the merge still does |
| DeviceConfig.Device.ConfigureSram | src/Device.cpp:730-787 | Refuses a closed device or a DAC value over 31 without a native call; otherwise one call, after which exactly the settings mentioned have changed, or none if it failed |
| DeviceConfig.Device.ConfigurePins | src/Device.cpp:566-597 | Refused without a native call iff some entry, wherever it is, has an output value without being an output; otherwise one call that updates exactly the pins mentioned |
| DeviceConfig.Device.WriteGpio | src/Device.cpp:541-556 | One call that writes exactly the outputs mentioned |
| DeviceConfig.PinsMergeIsMerge | src/Device.cpp:566-593 | Two accepted pin configurations merge to an accepted one that updates as both do |
| DeviceConfig.PinsMergeIsMonoid | include/libeasymcp2221++/Types.h:138-149 | Merging pin configurations is associative and the default one is neutral |
| DeviceConfig.PinsConfiguredIs | src/Device.cpp:566-597 | Pins change iff the call succeeds and no entry has an output value without naming an output, and then exactly those whose function is named |
| DeviceConfig.PinSequenceIsItsMerge | src/Device.cpp:566-597 | Any sequence of calls, refused and failed ones included, leaves the pins as one call with the merge of the others, which is itself accepted |
| DeviceConfig.WriteSequenceIsItsMerge | src/Device.cpp:541-556 | Any sequence of GPIO writes, failed ones included, leaves the outputs as one write of the merge of the others |

## Left out

- The bodies of the operations in `LockDiscipline` are grouped: those that differ in nothing but the native call, and in how many checks come before it, are one program with arbitrary steps.
- Shared devices are modelled on values, as a transition system, because their properties are about interleavings: the constructor, the destructors and the locked methods appear as steps and not as Dafny methods.
- The result object of a factory is made after the mutex is given back; the source makes it just before. Nothing can see the difference, since the new object is not yet known to anyone.
- `std::mutex` is modelled as always succeeding in the end; the model says nothing about fairness.
- OpenIffReachable: the case of OpenIffLed without operations under way.
- BusOpenIffCopied: the case of BusOpenIffHeld without operations under way.
- EventsArriveInOrder: each conclusion holds of the runs in the order it needs, which PollsInOrderIff characterises; EveryPollDelivers and NothingLostOrInvented hold of all runs.
- NothingLostIffRoomy: the corollary of NothingLostIff for one filter and events that can be translated; the general statement is NothingLostIff.
- DrawText: the position and its end stay within `int`, as signed overflow is undefined in C++; PaintedPixel has no such bound.
- SessionShowsText: takes a panel that is between commands and either obeys the page commands or has its pointer at the origin; HorizontalShowsIffAtOrigin shows that the rest cannot be had.
- The check that the C library returned too many events (src/GpioPoller.cpp:179-182) cannot fail with the mock native poller; it is a dead branch of the method.
- The first poll of the real C library takes a snapshot and returns nothing; the mock native poller has no snapshot, and the model follows it.
- `GpioPoller::poll`: the change history is kept in the C library, which is not part of this model.
- Native error codes in `pollOnce` are passed on as they are; their names and texts are finite tables.
- Slots that throw, QTimer scheduling, intervals, and the other Qt wrappers. A handler that calls `setFilter` on a monitor without device state is taken to handle what that throws.
- USB transport, the I2C and SMBus wire protocols, block-length checks, and the chip itself: a native call is a step that succeeds or fails.
- Enum-to-native tables, and enum values outside their enumerators.
- ADC and DAC voltages, VDD and time stamps: doubles passed through; time stamps are opaque values.
- `readGpio`, the DAC and ADC shortcuts, flash, USB staging and raw commands: one range check each around one native call.
- Panel commands other than addressing mode, page and column.
