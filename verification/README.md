# Verification of the device repository's native protocols

This project models eight components of the device repository in Dafny and proves how they behave over
whole runs. `dafny verify dfyconfig.toml` checks all of it.

| component | files |
|---|---|
| RIL event loop (`libril/ril_event.cpp`) | `TimeVal`, `EventModel`, `EventProofs`, `EventRuns`, `EventRecords`, `EventLists`, `EventHeap`, `EventNames` |
| RIL daemon: request ledger, connection, wake lock (`libril/ril.cpp`) | `Rild`, `RildSteps`, `RildProofs`, `RildLifecycle`, `RildRuns`, `RildTheorems`, `RildMessages`, `RildCompletions`, `RildHistory`, `RildLoop`, `RequestList`, `WakeTimers`, `RildSockets` |
| SMS marshallers (`libril/ril.cpp`) | `SmsCodec`, `SmsLayout`, `SmsParcel` |
| Display mode machine (`libmultidisplay/MultiDisplayComposer.cpp`) | `DisplayModel`, `DisplayProofs`, `DisplayLaws`, `DisplayComposer` |
| HDMI timing selection (`libmultidisplay/drm_hdmi.cpp`) | `HdmiTiming` |
| Boot image packer and unpacker (`mkbootimg/`) | `BootImage`, `BootLayout`, `BootPrograms` |
| SAP request queues (`libril/rilSocketQueue.h`, `libril/RilSapSocket.cpp`) | `SapSocket`, `SapRuns`, `SapQueue` |
| GPS handler's counted wake lock (`GpsLocationProvider.java`) | `GpsWakeLock`, `GpsRetries`, `GpsMessages`, `GpsProvider` |

`Chains` holds the singly linked list that the request ledger and the SAP queues share; `Sequences` and `Numbers`
hold what several components need to know about sequences and numbers.

## How the models are built

Each stateful component has a specification on values (a state, its steps, and runs that interleave the
steps in every way the threads allow) and, beside it, the source's own form: classes whose methods change
linked nodes, arrays and fields in place, each proved to take the specification's step. The properties of
runs are lemmas about the specification. What the specification itself comes to is said without its functions: in
`EventRecords`, `RildHistory` and `GpsMessages` by the calls and steps of a run, in `DisplayProofs.ScreensAreTimed`
by positions of the trace, in `DisplayLaws`, `HdmiTiming`, `BootLayout` and `SmsLayout` by the values, bytes and words
themselves.

The daemon's specification names the events of its loop; on the heap they are records in memory. `EventNames`
proves that the loop does not care: under any injective renaming the same calls and steps are possible, and the
two loops stay the same. `RildLoop` takes every run of the daemon apart into steps of its event loop, so it can be
followed on the loop of the heap; and `RildSockets` puts the descriptors, the two events of telephony and the list
of requests together as one object that shows a state of the daemon.

What comes from outside is an input: clock readings, what `select` and `accept` return, addresses malloc
returns, whether a payload can be marshalled, whether HDCP can be enabled, whether the cable is in and what the driver does when it goes. What goes
outside is a trace or a history field: commands to the display hardware and its listeners, responses to
telephony, the order in which events fired.

What the event loop relies on its callers for is written down as `EventModel.Permitted`: no call touches an
event that is still on a list, descriptors watched together are distinct, delays are not negative and the
clock does not run backwards. `RildRuns` and `RildLifecycle` prove that every call ril.cpp makes keeps to it.
The daemon's own side condition is that at most seven other descriptors are watched, so that the table has a
slot for telephony.

## Where the code and its comments disagree

The models follow the code.

- `ril_event_del` is documented to remove an event from the watch or the timer list; it only ever removes a
  watch (`libril/ril_event.cpp:314-329`). `processTimeouts` is documented to fire timers at or after their
  deadline; it fires them strictly after (`libril/ril_event.cpp:166-169`).
- `Ril_queue` is described as a queue; it adds and removes at the same end, so the newest waiting request is
  dispatched first (`SapSocket.NewestFirst`).
- `setHdmiMode_l` says that the overlay is on when it exits; in clone mode it stays off, and it stays off when
  the policy then turns HDMI off (`libmultidisplay/MultiDisplayComposer.cpp:281-283, 342-346`).
- The audio driver is said not to be notified during startup; it is, since `mDrmInit` is set before the first
  call (`libmultidisplay/MultiDisplayComposer.cpp:353-358, 645-651`).
- `mMipiOn` is not always the truth about the panel: `DisplayProofs.PanelFlag` and `PanelIsLastRepair` say exactly
  when it is, and `PanelFlagFails` is a run that fails. Nor is the HDMI bit about the output: `OutputFlag`,
  `OutputFlagFails` and `OffIsNotCommanded` do the same for it.
- The size comment of `mkbootimg/bootheader.h:69` says 0x2000 where the check above it has 0x3000.

## Model

| member | source | states |
|---|---|---|
| `Time.MacrosAreMicros` | libril/ril_event.cpp:37-66 | on normalised times the timeval macros compare, add and subtract microseconds exactly |
| `EventProofs.ActionKeepsInv` | libril/ril_event.cpp:252-329 | every API call that callers are permitted keeps the whole invariant: slots and `index` agree, `readFds` and `nfds` are what the table says, the lists share no event, the timeline of fired, expired and waiting timers is sorted |
| `EventProofs.StepKeepsInv` | libril/ril_event.cpp:158-213 | so does every step of the loop: expiring timers, queueing readable events, firing one |
| `EventProofs.RemoveTopFd` | libril/ril_event.cpp:134-156 | when the top descriptor goes, the recomputed `nfds` bounds every watched descriptor and is one more than one of them, or 1 |
| `EventProofs.InsertKeepsOrder` | libril/ril_event.cpp:286-312 | a timer linked before the first one that is not earlier keeps the timeline sorted and adds exactly itself |
| `EventProofs.ScanTakes` | libril/ril_event.cpp:182-200 | the scan of the table, stopped after `n` finds, takes exactly the first `n` readable events in slot order, and unwatches the non-persistent ones among them |
| `EventRuns.RunKeepsInv` | libril/ril_event.cpp:345-385 | the invariant holds at every point of every run, whatever callbacks and other threads call in between |
| `EventRuns.TimersFireInDeadlineOrder` | libril/ril_event.cpp:158-213 | over any run from the start timers fire in non-decreasing deadline order across iterations, each strictly after its deadline, and every timer ever added is exactly once fired, pending or waiting |
| `EventRuns.OverdueTimersMove` | libril/ril_event.cpp:158-180 | one pass moves exactly the timers whose deadline is before its clock reading, in order |
| `EventRuns.PassFiresWhatWasPending` | libril/ril_event.cpp:202-213 | under any interleaving of callbacks and threads, fired followed by pending does not change, so a pass that empties the list fired what was on it, once each, in list order |
| `EventRuns.FirePendingFiresAll` | libril/ril_event.cpp:202-213 | the pass as a whole, with re-entrant callbacks, ends with an empty list and has fired what was on it in order |
| `EventRuns.ReadiesAreExact` | libril/ril_event.cpp:182-200 | with the count `select` returns, the queued events are exactly the watched readable ones, once each in slot order, and only non-persistent ones stop being watched |
| `EventRuns.DeadlinesStayNormal` | libril/ril_event.cpp:295-297 | with normalised clock readings and delays, every waiting deadline is normalised in every run |
| `EventRuns.NextTimeoutIsExact` | libril/ril_event.cpp:215-238 | the timeout is normalised and the larger of zero and the earliest deadline minus now; there is none exactly when no timer waits |
| `EventRuns.TiesFireLastInFirstOut` | libril/ril_event.cpp:299-308 | a timer goes exactly behind the strictly earlier ones, hence before those with its own deadline |
| `EventRuns.IterationIsRun` | libril/ril_event.cpp:345-385 | one iteration of the loop, callbacks included, is a run, so what holds of runs holds of the loop |
| `EventRuns.IterationFires` | libril/ril_event.cpp:345-385 | whatever the callbacks do, one iteration fires exactly the timers that were overdue, by their deadlines, and then the watched readable events, by their slots |
| `EventRecords.RecordsAreLastCalls` | libril/ril_event.cpp:251-329 | in every run each event has the callback, parameter, descriptor, persistence and deadline that the last calls about it gave it, whatever else was done; a null time changes nothing |
| `EventRecords.TimersAreWhatWasAsked` | libril/ril_event.cpp:286-312 | in every run the timers fired, expired and waiting are together exactly those ril_timer_add was called for, each with the clock it read plus the delay as its deadline |
| `EventRecords.AddTakesFirstFree` | libril/ril_event.cpp:265-283 | an event goes into the first of the eight slots that is free and knows it; with none free nothing changes |
| `EventRecords.DelEmptiesSlot` | libril/ril_event.cpp:315-329 | exactly the slot of the event is emptied; one that is not watched stays as it is |
| `EventLists.AddToList` | libril/ril_event.cpp:112-119 | on the heap, four link updates turn a ring of the nodes `s` into the ring with `ev` inserted at `k`, and another disjoint ring stays as it is |
| `EventLists.RemoveFromList` | libril/ril_event.cpp:121-131 | unlinking the node at `k` leaves the ring of the others, clears its links and leaves a disjoint ring as it is |
| `EventHeap.RilEvents.constructor` | libril/ril_event.cpp:241-249 | the initialised heap represents the start state: two empty rings and an empty table |
| `EventHeap.RilEvents.EventSet` | libril/ril_event.cpp:252-262 | the heap afterwards represents the specified state, and both rings survive the reset of the node |
| `EventHeap.RilEvents.EventAdd` | libril/ril_event.cpp:265-283 | the first free slot, the descriptor set and `nfds` change as specified; a full table changes nothing |
| `EventHeap.RilEvents.RemoveWatch` | libril/ril_event.cpp:134-156 | slot, `index`, descriptor set and recomputed `nfds` are those of the specification |
| `EventHeap.RilEvents.HighestFd` | libril/ril_event.cpp:143-151 | the loop computes the largest watched descriptor, at least zero |
| `EventHeap.RilEvents.EventDel` | libril/ril_event.cpp:315-329 | removes exactly an event that has a slot, and touches no list |
| `EventHeap.RilEvents.PlaceFor` | libril/ril_event.cpp:300-305 | the walk along `next` stops at the first timer that is not earlier, or at the sentinel |
| `EventHeap.RilEvents.TimerAdd` | libril/ril_event.cpp:286-312 | the ring afterwards is the sorted timer list with the new deadline entered |
| `EventHeap.RilEvents.ProcessTimeouts` | libril/ril_event.cpp:158-180 | moves node by node exactly the expired prefix from one ring to the end of the other |
| `EventHeap.RilEvents.ProcessReadReadies` | libril/ril_event.cpp:182-200 | the loop over the array represents the specified scan, early stop included |
| `EventHeap.RilEvents.FirePending` | libril/ril_event.cpp:202-213 | walking with a remembered `next` is sound although callbacks change table, rings and events: all pending events fire in order, and the list ends empty |
| `EventHeap.RilEvents.CalcNextTimeout` | libril/ril_event.cpp:215-238 | the timeout read off the first node is the specified one |
| `EventHeap.RilEvents.Iterate` | libril/ril_event.cpp:345-385 | one iteration keeps heap and invariant and leads to the specified state for every outcome of `select`; what it fires is the overdue timers and then the readable events |
| `EventNames.SameNext` | libril/ril_event.cpp:158-329 | two loops that are the same but for the names of their events are able to take the same steps and calls, and stay the same |
| `EventNames.SameLeads` | libril/ril_event.cpp:345-385 | so are whole runs |
| `RildProofs.RescheduleKeepsWake` | libril/ril.cpp:4829-4840 | cancelling the last wake timer through its parameter and setting the next leaves exactly one that is not cancelled |
| `RildProofs.AnnounceKeeps` | libril/ril.cpp:4713-4846 | an unsolicited message, with the messages a radio state change nests in it, keeps the daemon's invariant |
| `RildProofs.CompleteKeeps` | libril/ril.cpp:4491-4569 | a completion, valid or not, keeps the ledger: distinct addresses and serials, sound responses, muted requests unanswered |
| `RildProofs.EnterKeeps` | libril/ril.cpp:431-467 | so does a request entering the list at an address malloc just returned |
| `RildProofs.CancelKeeps` | libril/ril.cpp:3681-3723 | so does cancelling all of them when a connection ends |
| `RildProofs.ProcessAllKeeps` | libril/ril.cpp:471-548 | so does reading any number of records, malformed and unsupported ones included, with whatever the vendor RIL does about each; what is sent for the unsupported ones is `RildHistory.UnsupportedAreRefused` |
| `RildLifecycle.ListenAgain` | libril/ril.cpp:3838-3847 | when nothing of telephony's is watched there is a free slot, and watching the listen event is permitted and succeeds |
| `RildLifecycle.ListenKeeps` | libril/ril.cpp:3805-3930 | every outcome of accept keeps the daemon's invariant |
| `RildLifecycle.CommandsKeep` | libril/ril.cpp:3725-3770 | so does reading commands, whether or not the connection ends with it |
| `RildLifecycle.TimerDoneKeeps` | libril/ril.cpp:4107-4121 | so does a timer callback with its freeing of its own node; only the one valid wake timer ends the lock, after its deadline |
| `RildRuns.RilStepKeepsInv` | libril/ril.cpp:3681-4121 | every step of the daemon, of vendor threads, of other components and of the loop keeps the invariant |
| `RildRuns.InvIsServiceable` | libril/ril.cpp:4107-4121 | an event about to fire is allocated, a timer's record is live |
| `RildTheorems.RilRunKeepsInv` | libril/ril.cpp:4124-4160 | the daemon's invariant holds all along every run |
| `RildTheorems.RilStartInv` | libril/ril.cpp:4193-4246 | it holds once telephony is listened for, whatever other components have done to the event loop by then: the wakeup pipe may be watched before or only later |
| `RildTheorems.OneWakeTimer` | libril/ril.cpp:4829-4846 | in every run at most one wake timer is not cancelled, it is the remembered one and on a list, and the lock is held only while there is one |
| `RildTheorems.WakeLockLasts` | libril/ril.cpp:4747-4761 | in every run the lock is held exactly while a wake timer is still to fire and no waking message has failed to marshal since it was last grabbed; until 200 ms after the last message that set a timer, one is to fire |
| `RildMessages.MessagesDecideLock` | libril/ril.cpp:4747-4846 | the same by the messages of the run alone: the lock is held exactly when a wake timer is still to fire and the last waking message could be marshalled, nested messages and all callers included; until 200 ms after the last one that could, that alone decides |
| `RildTheorems.SingleConnection` | libril/ril.cpp:3725-3770 | in every run telephony is listened for, about to be accepted or connected, exactly one of the three; `fdCommand` is set exactly when connected; between iterations exactly one of the two events is watched |
| `RildTheorems.CallbackAssertions` | libril/ril.cpp:3831-3833 | the assertions of listenCallback and processCommandsCallback hold in every run |
| `RildTheorems.ResponsesAreSound` | libril/ril.cpp:4490-4569 | in every run each solicited response carries a token received on its own connection, a request gets at most one, local and cancelled ones none |
| `RildTheorems.HangUpSilences` | libril/ril.cpp:3681-3723 | nothing that was pending when a connection closed is ever answered later, however often it completes |
| `RildTheorems.CompletionAnswers` | libril/ril.cpp:4433-4481 | a completion changes the ledger exactly when its address is pending, removes it, and answers exactly when the request is not muted and the reply fits; telephony is connected then |
| `RildCompletions.CompletionsCountOnce` | libril/ril.cpp:4490-4508 | at any point of any run a completion does something exactly if the last thing that happened to its address in that run was that a request entered at it; so a second one is ignored until malloc gives the address out again |
| `RildTheorems.VoiceRadioTechAnswersOnce` | libril/ril.cpp:1642-1664 | with the radio off or unavailable the request completes twice and is answered once, with "radio not available"; for the older radio states once with success; with the radio on, and only then, the vendor is asked instead |
| `RildHistory.UnsupportedAreRefused` | libril/ril.cpp:515-524 | while telephony is connected, reading records sends exactly one response that belongs to no request, token and generic failure on that connection, for each record with an unknown request code, in the order read; malformed ones get none |
| `RildHistory.RefusalsOfRun` | libril/ril.cpp:471-548 | in every run those refusals, of all the records read so far, are all the responses that belong to no request; and the tokens received are exactly those read, each with its connection |
| `RildHistory.ConnectionIsLast` | libril/ril.cpp:3725-3912 | in every run `fdCommand` is the descriptor of the client accepted last unless it has hung up since, and connections are numbered by the clients accepted |
| `RildHistory.CancelledAtClose` | libril/ril.cpp:3879-3896 | after a hang-up, and after a client that is not the phone process, every pending request is cancelled |
| `RildHistory.RequestIsAwaited` | libril/ril.cpp:4852-4886 | a timer requested by the vendor has its callback and parameter, and the clock plus its delay, or the clock alone, as its deadline |
| `RildHistory.TimersAreKept` | libril/ril.cpp:4107-4121 | in every run it keeps all three until its own callback ends, whatever requests, messages, connections and other timers come between |
| `RildHistory.TimersComeDue` | libril/ril.cpp:4107-4121 | it waits on a list all that time, and is called back strictly after its deadline |
| `RildLoop.StepLeads` | libril/ril.cpp:3681-4121 | each step of the daemon is a sequence of calls and steps that the event loop permits, one by one, leading from its loop before to its loop after |
| `RildLoop.DaemonRunsOnAnyLoop` | libril/ril.cpp:4124-4160 | every run of the daemon can be followed on an event loop with other names for its events, which permits every call and ends the same |
| `RequestList.PendingRequests.Enter` | libril/ril.cpp:431-467 | the linked list afterwards holds the new request at its head |
| `RequestList.PendingRequests.CancelAll` | libril/ril.cpp:3681-3723 | the walk marks every request on the list and moves none |
| `RequestList.PendingRequests.CheckAndDequeue` | libril/ril.cpp:4433-4481 | the pointer-to-pointer walk unlinks exactly the request at that address and keeps the order of the rest |
| `RequestList.PendingRequests.OnRequestComplete` | libril/ril.cpp:4490-4569 | list and reply are those of the ledger's specification |
| `WakeTimers.WakeLock.ScheduleTimeout` | libril/ril.cpp:4829-4840 | on the heap, the previous record's parameter is set and the new record is the remembered one |
| `WakeTimers.WakeLock.UserTimerCallback` | libril/ril.cpp:4107-4121 | lock, pointer and records after a timer are those of the specification |
| `RildSockets.Socket.Register` | libril/ril.cpp:4193-4246 | on the heap, whatever other components have done to the loop, descriptor, events and list show the daemon's start state once the listen event is watched |
| `RildSockets.Socket.ListenCallback` | libril/ril.cpp:3805-3915 | from a heap that shows a state of the daemon, every outcome of accept leads to one that shows the daemon's next state: descriptor, both events, watch table, rings and list of requests together |
| `RildSockets.Socket.CloseCommands` | libril/ril.cpp:3725-3770 | so does closing the connection, which re-arms the listen event and cancels the requests in the linked list |
| `RildSockets.Socket.OnRequestComplete` | libril/ril.cpp:4490-4569 | so does a completion, which sends something exactly when the ledger gains a response |
| `SmsCodec.CdmaSmsRoundTrip` | libril/ril.cpp:3585-3641 | for every digit count and every bearer length, negative ones included, the message read back is the one written with its array tails zeroed, whatever follows it |
| `SmsCodec.EncodingIsInjective` | libril/ril.cpp:3585-3641 | two messages are written alike exactly when they agree but for those tails |
| `SmsCodec.GsmListRoundTrip` | libril/ril.cpp:3537-3560 | a GSM broadcast list of any length comes back unchanged |
| `SmsCodec.CdmaListRoundTrip` | libril/ril.cpp:3562-3583 | so does a CDMA one |
| `SmsLayout.CdmaSmsWords` | libril/ril.cpp:3599-3630 | which field of a message stands at which word: the head in words 0 to 2, the address from word 3, its digits from word 8, behind them subaddress and bearer data, and no more words than the counted elements need |
| `SmsLayout.CdmaSmsReads` | libril/ril.cpp:1110-1188 | for any words: reading succeeds exactly when all words the counts ask for are there; fields come from those same places, counts and bytes from the low 8 bits, no more elements than fit, the others zero |
| `SmsLayout.ListWords` | libril/ril.cpp:3537-3583 | a list is its length and then five words for each GSM configuration, or three for each CDMA one, at `1 + 5 * i` and `1 + 3 * i` in this order |
| `SmsLayout.GsmListReads` | libril/ril.cpp:1396-1458 | for any words: undefined exactly for a negative count, short exactly below `1 + 5 * count` words, and otherwise each configuration from its five words |
| `SmsLayout.CdmaListReads` | libril/ril.cpp:1460-1514 | the same with three words each |
| `SmsParcel.ResponseCdmaSms` | libril/ril.cpp:3585-3641 | appends exactly the encoding, or reports an invalid response and writes nothing |
| `SmsParcel.ConstructCdmaSms` | libril/ril.cpp:1110-1188 | although only the last read's status is looked at, it is an error exactly when words are missing somewhere, and otherwise the message is the decoded one |
| `SmsParcel.ResponseGsmBrSmsCnf` | libril/ril.cpp:3537-3560 | appends exactly the encoded list |
| `SmsParcel.DispatchGsmBrSmsCnf` | libril/ril.cpp:1396-1458 | reads exactly the encoded list, fails exactly when words are missing, and meets an undefined array exactly for a negative count |
| `SmsParcel.ResponseCdmaBrSmsCnf` | libril/ril.cpp:3562-3583 | appends exactly the encoded list |
| `SmsParcel.DispatchCdmaBrSmsCnf` | libril/ril.cpp:1460-1514 | reads exactly the encoded list, fails exactly when words are missing, and meets an undefined array exactly for a negative count |
| `DisplayProofs.SettleKeepsMode` | libmultidisplay/MultiDisplayComposer.cpp:181-362 | whatever policy and video it is called with, setHdmiMode_l's result has HDMI on exactly when connected and allowed, extended video and clone exactly by playback, HDCP only with HDMI |
| `DisplayProofs.SettleTells` | libmultidisplay/MultiDisplayComposer.cpp:181-362 | the commands it issues leave panel, HDCP, audio driver and listeners told exactly what the new mode says, and HDMI on exactly if its output was last commanded on and the cable has not gone since |
| `DisplayProofs.SecondCallIsIdle` | libmultidisplay/MultiDisplayComposer.cpp:281-293 | a second call with the same cable changes nothing and only repeats the mode to listeners |
| `DisplayProofs.PanelFlag` | libmultidisplay/MultiDisplayComposer.cpp:406-435 | whatever the state, after a call `mMipiOn` agrees with the panel exactly if the call sets both, or they agreed before and the call is not an attempt to switch MIPI off against the policy while a video is shown |
| `DisplayProofs.PanelIsLastRepair` | libmultidisplay/MultiDisplayComposer.cpp:406-489 | over any run from startup they agree exactly if no such attempt came after the last call that sets both |
| `DisplayProofs.PanelFlagFails` | libmultidisplay/MultiDisplayComposer.cpp:406-435 | a run in which they come apart: a video starts, the policy comes to forbid switching MIPI off, and it is switched off nevertheless |
| `DisplayProofs.RunTells` | libmultidisplay/MultiDisplayComposer.cpp:106-489 | over any run of operations, powering HDMI off included, the mode's bits say what was last commanded of panel, HDCP and audio and shown to listeners, and for HDMI that its output was last commanded on and the cable has not gone since |
| `DisplayProofs.VideoAgrees` | libmultidisplay/MultiDisplayComposer.cpp:181-362 | said of the trace: after startup and any run the HDMI bit is what the last command to the output said exactly unless that was "on" and the cable went after it |
| `DisplayProofs.OffIsNotCommanded` | libmultidisplay/MultiDisplayComposer.cpp:226-275 | a run that shows it: forbidden while the cable is out, HDMI is noted as off with the cable in again though the output was commanded on and never off; whether a picture is put out is up to what the driver did |
| `DisplayProofs.OutputFlag` | libmultidisplay/MultiDisplayComposer.cpp:128-362 | by what a call is given and finds: the HDMI bit goes on telling whether anything is put out exactly unless the power is switched off under it, a switch of the output fails, or the cable goes while lit and the driver does not stop |
| `DisplayProofs.OutputFlagFails` | libmultidisplay/MultiDisplayComposer.cpp:128-134 | powered off while on, HDMI goes on being noted as on |
| `DisplayProofs.OutputIsLastSwitch` | libmultidisplay/MultiDisplayComposer.cpp:61-489 | from startup on, something is put out exactly when the last call that switched the output, by a command that succeeded, by power or by the driver on unplugging, lit it |
| `DisplayProofs.ModeIsDeclarative` | libmultidisplay/MultiDisplayComposer.cpp:181-362 | after startup and any operations, one more call yields each bit as the cable, the policy and the video say |
| `DisplayProofs.AudioAlternates` | libmultidisplay/MultiDisplayComposer.cpp:215-253 | over any run audio notifications strictly alternate, plug first |
| `DisplayProofs.AudioAgrees` | libmultidisplay/MultiDisplayComposer.cpp:353-358 | the last of them agrees with the connected bit |
| `DisplayProofs.BroadcastsSwitchThroughBlank` | libmultidisplay/MultiDisplayComposer.cpp:281-351 | no broadcast shows clone and extended video together, and one that newly shows either directly follows a broadcast with neither and the overlay off |
| `DisplayProofs.ScreensAreTimed` | libmultidisplay/MultiDisplayComposer.cpp:281-340 | over any run, by positions of the trace: between a broadcast and the next one that newly shows a screen exactly one timing is asked for, width, height and frame rate of the video that came in last for extended video, the clone timing for clone |
| `DisplayProofs.ListenersAgree` | libmultidisplay/MultiDisplayComposer.cpp:106-489 | over any run the last broadcast showed the mode as it is in every bit but the panel's and WiDi's |
| `DisplayLaws.VideoComesIn` | libmultidisplay/MultiDisplayComposer.cpp:136-178 | the video is the one last handed in, and one with nothing playing once the status newly is "unprepared" |
| `DisplayLaws.StatusIsTold` | libmultidisplay/MultiDisplayComposer.cpp:136-151 | a status that differs is told to listeners before anything else and once; the same again does nothing at all |
| `DisplayLaws.ExtendedVideoLetsPanelOff` | libmultidisplay/MultiDisplayComposer.cpp:281-295 | once extended video is newly shown the panel, though still on, may be switched off, and goes off when asked |
| `DisplayLaws.PanelStaysOn` | libmultidisplay/MultiDisplayComposer.cpp:181-213 | whenever setHdmiMode_l leaves no video on HDMI the panel is on and, but for WiDi, no request switches it off |
| `DisplayLaws.PanelOffIsRefused` | libmultidisplay/MultiDisplayComposer.cpp:406-435 | without extended video or WiDi, switching off only tells listeners the mode again |
| `DisplayLaws.MipiPolicyTakesEffect` | libmultidisplay/MultiDisplayComposer.cpp:456-489 | a MIPI policy is on the panel at once and told to listeners, and extended video that goes on keeps it |
| `DisplayLaws.WidiLetsPanelOff` | libmultidisplay/MultiDisplayComposer.cpp:106-117 | WiDi is what it was last said to be, and lets the panel go off whatever HDMI shows |
| `DisplayLaws.HdcpIsRenewed` | libmultidisplay/MultiDisplayComposer.cpp:281-330 | HDCP on a screen newly shown is what enabling it came to, on one that stays what it was, and without a screen off |
| `DisplayLaws.CableIsNoted` | libmultidisplay/MultiDisplayComposer.cpp:226-279 | the kind of cable is noted as found, except while HDMI is forbidden and already noted as connected |
| `DisplayLaws.ResetIsLast` | libmultidisplay/MultiDisplayComposer.cpp:437-447 | scaling is reset exactly for a changed device on a cable noted as HDMI's, and after everything else |
| `DisplayComposer.MultiDisplayComposer.SetHdmiMode` | libmultidisplay/MultiDisplayComposer.cpp:181-362 | the incremental updates along every early return refine the declarative function and issue exactly the specified commands in order, which `ScreensAreTimed`, `RunTells` and `BroadcastsSwitchThroughBlank` say the meaning of |
| `DisplayComposer.MultiDisplayComposer.Retime` | libmultidisplay/MultiDisplayComposer.cpp:297-325 | the timing asked for is width, height and frame rate of the video while one plays and the clone timing otherwise; then HDCP is enabled |
| `DisplayComposer.MultiDisplayComposer.SetModePolicyLocked` | libmultidisplay/MultiDisplayComposer.cpp:456-489 | fields, commands and status for every policy value, unknown ones included |
| `DisplayComposer.MultiDisplayComposer.SetMipiMode` | libmultidisplay/MultiDisplayComposer.cpp:406-435 | fields and commands are the specified ones; an error exactly for switching off outside extended video and WiDi |
| `DisplayComposer.MultiDisplayComposer.PrepareForVideo` | libmultidisplay/MultiDisplayComposer.cpp:136-151 | an unchanged status does nothing; a new one is told to listeners first, and "unprepared" also drops the video and settles the mode |
| `DisplayComposer.MultiDisplayComposer.UpdateVideoInfo` | libmultidisplay/MultiDisplayComposer.cpp:160-178 | the new video takes effect through setHdmiMode_l |
| `DisplayComposer.MultiDisplayComposer.NotifyHotPlug` | libmultidisplay/MultiDisplayComposer.cpp:437-447 | the mode settles, and scaling is reset exactly for a changed HDMI device |
| `DisplayComposer.MultiDisplayComposer.constructor` | libmultidisplay/MultiDisplayComposer.cpp:61-81 | startup state and commands, with and without HDMI and when drm_init fails |
| `HdmiTiming.FirstsListEachKeyOnce` | libmultidisplay/drm_hdmi.cpp:445-510 | the listed modes have each distinct key exactly once, in order of first occurrence, and are as many as there are keys |
| `HdmiTiming.ListTellsApart` | libmultidisplay/drm_hdmi.cpp:466-480 | every mode is listed by one with its width, height, refresh and its interlaced, 16:9 and 4:3 flags, and no two of the listed ones agree in all six |
| `HdmiTiming.DrmContext.Duplicated` | libmultidisplay/drm_hdmi.cpp:466-480 | the backward loop finds a duplicate exactly when the key occurs earlier |
| `HdmiTiming.DrmContext.GetModeInfo` | libmultidisplay/drm_hdmi.cpp:426-510 | the arrays hold exactly those modes and the count is theirs; writes stay below 128 |
| `HdmiTiming.DrmContext.CountModes` | libmultidisplay/drm_hdmi.cpp:426-510 | without arrays the count is the same |
| `HdmiTiming.MatchesAll` | libmultidisplay/drm_hdmi.cpp:574-586 | below the limit of 128 no mode of the resolution is missed |
| `HdmiTiming.DrmContext.FindMatched` | libmultidisplay/drm_hdmi.cpp:574-586 | the index buffer holds exactly the first 128 matching positions and never overflows |
| `HdmiTiming.ChosenIsUnique` | libmultidisplay/drm_hdmi.cpp:595-628 | the specification of the choice leaves nothing open |
| `HdmiTiming.ChosenSuits` | libmultidisplay/drm_hdmi.cpp:595-628 | said of the timing: the video's own refresh, progressive and 16:9, if a matched mode has it; else a multiple of it, of those the highest; else the highest refresh of all, progressive and 16:9 if one of those is |
| `HdmiTiming.DrmContext.Pick` | libmultidisplay/drm_hdmi.cpp:595-628 | the single pass picks the first 16:9 progressive mode of exactly the video's refresh, else the first of highest refresh among its other multiples, else the last 16:9 progressive (or the first) of highest refresh |
| `HdmiTiming.DrmContext.GetTiming` | libmultidisplay/drm_hdmi.cpp:533-629 | when there is a timing; the user's if chosen; for a video within 1280x720 one of 1280x720 if the sink offers any, for a larger one of 1920x1080 likewise, and of those the one that suits the refresh; else that of the preferred mode |
| `HdmiTiming.DrmContext.SetModeInfo` | libmultidisplay/drm_hdmi.cpp:512-531 | the user's five values are kept and valid from then on, on a connected sink only |
| `HdmiTiming.LargestIsMaximal` | libmultidisplay/drm_hdmi.cpp:143-148 | no 60 Hz mode is larger both ways than the resolution the loop ends with |
| `HdmiTiming.DrmContext.SelectPreferredMode` | libmultidisplay/drm_hdmi.cpp:103-177 | the preferred index is the monitor's own at 60 Hz, else the pick at 1920x1080, 1280x720 or the largest resolution, all at 60 Hz and the first two in progressive 16:9 if they come so, among the modes before the monitor's own, else 0 |
| `HdmiTiming.DrmContext.ConnectAndTime` | libmultidisplay/drm_hdmi.cpp:385-398 | the timing asked for once a sink is connected is the user's, if chosen on that sink, and otherwise always that of a mode the sink offers, for clone the preferred one |
| `BootImage.SignedSumsToZero` | mkbootimg/pack.c:56-66 | the 56 header bytes cancel out once signed |
| `BootImage.SigningIgnoresOldSum` | mkbootimg/pack.c:56-66 | the checksum does not depend on the old one |
| `BootImage.PackFields` | mkbootimg/pack.c:112-141 | what a packed image's size, sector and command line fields read |
| `BootImage.PackFillsSectors` | mkbootimg/pack.c:129-161 | the image fills whole sectors and ends in fewer than 512 bytes, all 0xff |
| `BootImage.SectorCountIsLength` | mkbootimg/pack.c:118-140 | the sector count tells the length exactly when that is below 2^32, or 2^41 |
| `BootImage.RoundTrip` | mkbootimg/unpack.c:88-143 | unpacking a packed image always ends; kernel and ramdisk come back exactly when each is below 2^32 bytes, and the command line's start is the given one, cut at 1024 bytes |
| `BootImage.RepackIsFixed` | mkbootimg/pack.c:109-161 | a packed image repacked with its own parts is itself |
| `BootImage.RepackIffCanonical` | mkbootimg/pack.c:109-161 | any image that unpacks is reproduced exactly when its checksum, sector count and padding are canonical |
| `BootLayout.SizeBytes` | mkbootimg/pack.c:118-140 | byte by byte, low byte first: the kernel's size at 0x7E0, the ramdisk's at 0x7E4, each modulo 2^32, and at 48 the sectors of the image less one |
| `BootLayout.HeaderBytes` | mkbootimg/pack.c:109-116 | the command line stands at 0x3E0, cut at 1024 bytes; where it ends earlier and everywhere else but for checksum and sizes the origin's bytes stay |
| `BootLayout.ContentBytes` | mkbootimg/pack.c:143-161 | kernel and ramdisk follow byte by byte from 0x33E0 on; behind them are only 0xff, fewer than 512, up to a multiple of 512 |
| `BootLayout.ChecksumIsParity` | mkbootimg/pack.c:56-66 | each of the eight bits is set in an even number of the image's first 56 bytes |
| `BootLayout.UnpackReads` | mkbootimg/unpack.c:88-143 | for any image: the command line is bytes 0x3E0 to 0x7DF, the sizes are read low byte first at 0x7E0 and 0x7E4, the parts from 0x33E0 on; an error exactly when only the sizes are cut short, an endless loop exactly when other contents are |
| `BootPrograms.CalculateChecksum` | mkbootimg/pack.c:56-66 | the accumulator loop computes the checksum |
| `BootPrograms.PatchHeader` | mkbootimg/pack.c:112-141 | the header array is patched in place to the specified one: sizes and sector count stand low byte first at 0x7E0, 0x7E4 and 48, and the padding returned fills the last sector |
| `BootPrograms.PackMain` | mkbootimg/pack.c:68-164 | the file written is the specified image; it fails exactly for an origin shorter than the header |
| `BootPrograms.CopyMissing` | mkbootimg/unpack.c:92-99 | a `missing` loop copies exactly that many bytes, or loops forever exactly when the file is too short |
| `BootPrograms.UnpackMain` | mkbootimg/unpack.c:55-146 | the three output files, the error and the endless loop are as specified for every input |
| `Chains.Unlink` | libril/rilSocketQueue.h:143-151 | writing through the pointer to the link leaves the chain of the other nodes, in order |
| `SapSocket.StepKeeps` | libril/RilSapSocket.cpp:267-332 | each step of any thread keeps every request in exactly one place, a completion exactly when no later request with the same id and token is ahead of its own |
| `SapSocket.CompleteTakesIts` | libril/rilSocketQueue.h:136-157 | a completion takes its own request off, and leaves the order of the rest, exactly when no later one with the same id and token is ahead |
| `SapRuns.OnePlaceEach` | libril/RilSapSocket.cpp:197-332 | over any interleaving in which no completion found a look-alike ahead, a decoded request is in exactly one of dispatch queue, a thread's hands, pending queue, done or lost, and onRequest is called for it at most once |
| `SapRuns.RunKeepsExactly` | libril/RilSapSocket.cpp:197-332 | that condition is exact: all requests have been in one place each all along exactly if no completion found a look-alike ahead of its request |
| `SapRuns.DistinctKeysKeep` | libril/rilSocketQueue.h:136-157 | it holds when no two requests outstanding together share id and token |
| `SapRuns.AllAreAsked` | libril/RilSapSocket.cpp:197-296 | under the same condition, once queue and threads are idle, every request that was not lost has reached onRequest exactly once |
| `SapRuns.CompletionKeepsOrder` | libril/RilSapSocket.cpp:298-332 | over any interleaving a completion removes its own request and keeps the others' order exactly when no look-alike is ahead |
| `SapRuns.RunKeepsNewestFirst` | libril/rilSocketQueue.h:101-134 | over any interleaving the dispatch queue is in order from newest to oldest |
| `SapRuns.LookAlikesGetMixedUp` | libril/rilSocketQueue.h:143-151 | a run from the empty socket in which two requests alike arrive, one thread takes both, and completing the newer leaves it pending and removes the older |
| `SapQueue.RilQueue.Enqueue` | libril/rilSocketQueue.h:120-134 | the list afterwards has the request at its front |
| `SapQueue.RilQueue.Dequeue` | libril/rilSocketQueue.h:101-118 | takes the front and leaves the rest |
| `SapQueue.RilQueue.CheckAndDequeue` | libril/rilSocketQueue.h:136-157 | removes exactly the first request with the key, in order, and says whether there was one |
| `SapQueue.RilSapSocket.PushRecord` | libril/RilSapSocket.cpp:396-425 | the queues represent the state with the request waiting |
| `SapQueue.RilSapSocket.TakeRequest` | libril/RilSapSocket.cpp:197-213 | the thread holds what was at the front |
| `SapQueue.RilSapSocket.FileRequest` | libril/RilSapSocket.cpp:267-282 | the request pends before it is asked for |
| `SapQueue.RilSapSocket.OnRequestComplete` | libril/RilSapSocket.cpp:298-332 | the pending queue loses what the specification says, and the other queue nothing |
| `GpsWakeLock.StepKeeps` | overlay/frameworks/services/com/android/server/location/GpsLocationProvider.java:519-568 | each step of handler, tasks and senders keeps the lock count and the flags exact |
| `GpsWakeLock.LockIsExact` | overlay/frameworks/services/com/android/server/location/GpsLocationProvider.java:1773-1776 | in every run the count is the tracked messages queued, being sent or handled, plus the tasks that have not ended |
| `GpsWakeLock.FlagIsExact` | overlay/frameworks/services/com/android/server/location/GpsLocationProvider.java:928-990 | a kind's flag says "downloading" exactly while one task is at work or its announcement is queued, never two, and the lock is held all that time |
| `GpsWakeLock.ReleasesAreCovered` | overlay/frameworks/services/com/android/server/location/GpsLocationProvider.java:566-568 | no release finds the lock free |
| `GpsRetries.NoTimeRetryIsLost` | overlay/frameworks/services/com/android/server/location/GpsLocationProvider.java:880-963 | in every run, while the network is there, a time injection that waits for it has its retry queued or about to be sent |
| `GpsRetries.DataRetriesExactly` | overlay/frameworks/services/com/android/server/location/GpsLocationProvider.java:545-550 | the same holds all along for the assistance data exactly if no last retry for it came up while it was not supported |
| `GpsRetries.DataRetryIsLost` | overlay/frameworks/services/com/android/server/location/GpsLocationProvider.java:545-550 | a run in which it is lost, and stays so when the data is supported next |
| `GpsMessages.HandledInOrder` | overlay/frameworks/services/com/android/server/location/GpsLocationProvider.java:1773-1776 | in every run the messages handled so far and behind them those that wait are exactly the messages posted, in order, with their tracking marks |
| `GpsMessages.DelayedUntilDue` | overlay/frameworks/services/com/android/server/location/GpsLocationProvider.java:952-957 | in every run each message is delayed as often as it was posted so, once for each task that ended to be tried again among others, and has not come due since |
| `GpsMessages.RetryWaits` | overlay/frameworks/services/com/android/server/location/GpsLocationProvider.java:979-984 | after a task ended to be tried again, the request for the time or for the data is delayed until a step queues it, without the lock |
| `GpsMessages.IdleIsLastTold` | overlay/frameworks/services/com/android/server/location/GpsLocationProvider.java:542-559 | in every run a kind's flag says "idle" exactly when, of the messages about it, the last one handled said that a task is finished |
| `GpsMessages.NetworkIsLastUpdate` | overlay/frameworks/services/com/android/server/location/GpsLocationProvider.java:532-541 | in every run the network is what the last update said that came while the chip was not shut down, and at first absent |
| `GpsMessages.HandlerSends` | overlay/frameworks/services/com/android/server/location/GpsLocationProvider.java:918-925 | what the handler goes on to send: a retry for each kind that waits when the network is there, the time first, and else nothing of its own |
| `GpsProvider.GpsLocationProvider.HandleInjectNtpTime` | overlay/frameworks/services/com/android/server/location/GpsLocationProvider.java:928-963 | keeps the lock count and the flags exact; starts a task, and acquires the lock for it, exactly when the network is there and none of the kind is at work or announced |
| `GpsProvider.GpsLocationProvider.HandleDownloadXtraData` | overlay/frameworks/services/com/android/server/location/GpsLocationProvider.java:965-990 | likewise |
| `GpsProvider.GpsLocationProvider.HandleMessage` | overlay/frameworks/services/com/android/server/location/GpsLocationProvider.java:519-568 | every case of the switch, its fall-through included, keeps lock and flags exact, and a task that is new is the only one of its kind that is at work or announced |
| `GpsProvider.GpsLocationProvider.EndMessage` | overlay/frameworks/services/com/android/server/location/GpsLocationProvider.java:566-568 | releases a lock that is held, and lock and flags stay exact |
| `GpsProvider.GpsLocationProvider.TaskPosts` | overlay/frameworks/services/com/android/server/location/GpsLocationProvider.java:1773-1776 | a task that announces its end goes on counting as the one of its kind until the handler takes the announcement |
| `GpsProvider.GpsLocationProvider.TaskReleases` | overlay/frameworks/services/com/android/server/location/GpsLocationProvider.java:952-957 | a task's end releases a lock that is held, keeps lock and flags exact and changes nothing about what is at work or announced; if it is to be tried again, the request for its kind is delayed, and nothing else is |

## Left out

- SapRuns.OnePlaceEach: speaks of runs in which no completion found a look-alike ahead only, because the source mixes such requests up; RunKeepsExactly shows that this is the exact condition, LookAlikesGetMixedUp a run that fails it.
- SmsParcel.DispatchGsmBrSmsCnf: says when a negative count makes the source declare an array of that size and not what follows, because C leaves that undefined; the same goes for the CDMA list.
- RildSockets.Socket.ListenCallback: ends before onNewCommandConnect, because what that sends goes to the wake timers as well; RildLifecycle.ListenKeeps includes it.
- The whole daemon as one object: ledger, wake timers, event loop and telephony's socket change in place, and the socket shows the daemon's state; the reading of records off the socket, what onNewCommandConnect sends, and the vendor calls are functions on values.
- The debug port, which closes the command descriptor without the normal close path.
- More than one SIM.
- Races finer than one handler: the unlocked accesses of calcNextTimeout and s_last_wake_timeout_info, notifyWidi under its own mutex, and a wake-up of threadLoop without a request.
- Sockets, credentials, DRM calls, EDID parsing, file opening and logging: their outcomes are inputs.
- The value of the NITZ message kept for a later connection, and the contents of unsolicited messages.
- The DVI early return of setHdmiMode_l, which this build does not compile (`libmultidisplay/Android.mk:45`), and drm_hdcp.cpp, which it does not contain.
- The SAP responses as protobuf messages, and a SAP socket without UIM functions, which never calls onRequest.
- The marshallers of ril.cpp other than the SMS and broadcast pairs.
- CDMA array limits: telephony/ril.h is not part of this model; the limits are parameters. Flag bits of libdrm are fields of a record.
- `mkbootimg/pack.c` leaves its padding count unset when the size is already aligned; it is taken as 0. Sizes of a 64-bit `size_t` are assumed.
- What the display driver does with a command: a switch of the HDMI output that succeeds is taken to put out, or stop putting out, a picture, and powering down to stop it. What it does when the cable goes is an input; nobody asks it, and it counts where a call finds the cable gone, so a cable that goes and comes back between two calls is not modelled.
- How long a message of GpsLocationProvider is delayed: it comes due at any time.
- The rest of GpsLocationProvider, Binder stubs, lights, power, keystore, init and health code: thin wrappers and framework calls.
